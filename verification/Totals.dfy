/** Sums over the entries of a finite map. */
module Totals {

  ghost function Total<K, V>(m: map<K, V>, weight: V -> nat): nat
    decreases |m|
  {
    if m == map[] then 0
    else
      var k :| k in m;
      weight(m[k]) + Total(m - {k}, weight)
  }

  lemma {:induction false} TotalSplit<K, V>(m: map<K, V>, k: K, weight: V -> nat)
    requires k in m
    ensures Total(m, weight) == weight(m[k]) + Total(m - {k}, weight)
    decreases |m|
  {
    var j :| j in m && Total(m, weight) == weight(m[j]) + Total(m - {j}, weight);
    if j != k {
      TotalSplit(m - {j}, k, weight);
      TotalSplit(m - {k}, j, weight);
      assert m - {j} - {k} == m - {k} - {j};
    }
  }

  /** Changing one entry changes the total by the difference. */
  lemma TotalUpdate<K, V>(m: map<K, V>, k: K, v: V, weight: V -> nat)
    requires k in m
    ensures Total(m[k := v], weight) == Total(m, weight) - weight(m[k]) + weight(v)
  {
    TotalSplit(m, k, weight);
    TotalSplit(m[k := v], k, weight);
    assert m[k := v] - {k} == m - {k};
  }

  lemma TotalInsert<K, V>(m: map<K, V>, k: K, v: V, weight: V -> nat)
    requires k !in m
    ensures Total(m[k := v], weight) == Total(m, weight) + weight(v)
  {
    TotalSplit(m[k := v], k, weight);
    assert m[k := v] - {k} == m;
  }

  /** A weight nowhere above the sum of two others has a total not above theirs. */
  lemma {:induction false} TotalBelowSum<K, V>(m: map<K, V>, w: V -> nat, u: V -> nat, v: V -> nat)
    requires forall k :: k in m ==> w(m[k]) <= u(m[k]) + v(m[k])
    ensures Total(m, w) <= Total(m, u) + Total(m, v)
    decreases |m|
  {
    if m != map[] {
      var k :| k in m;
      TotalSplit(m, k, w);
      TotalSplit(m, k, u);
      TotalSplit(m, k, v);
      TotalBelowSum(m - {k}, w, u, v);
    }
  }

  lemma {:induction false} TotalZero<K, V>(m: map<K, V>, w: V -> nat)
    requires forall k :: k in m ==> w(m[k]) == 0
    ensures Total(m, w) == 0
    decreases |m|
  {
    if m != map[] {
      var k :| k in m;
      TotalSplit(m, k, w);
      TotalZero(m - {k}, w);
    }
  }

  lemma TotalBelow<K, V>(m: map<K, V>, w: V -> nat, u: V -> nat)
    requires forall k :: k in m ==> w(m[k]) <= u(m[k])
    ensures Total(m, w) <= Total(m, u)
  {
    var zero := (_: V) => 0 as nat;
    TotalZero(m, zero);
    TotalBelowSum(m, w, u, zero);
  }

  /** If each entry of `m` weighs nothing, or at most what the entry of `n` under the same key does, then so do the
      totals. */
  lemma {:induction false} TotalAcross<K, V, W>(m: map<K, V>, w: V -> nat, n: map<K, W>, u: W -> nat)
    requires forall k :: k in m ==> w(m[k]) == 0 || (k in n && w(m[k]) <= u(n[k]))
    ensures Total(m, w) <= Total(n, u)
    decreases |m|
  {
    if m != map[] {
      var k :| k in m;
      TotalSplit(m, k, w);
      if k in n {
        TotalSplit(n, k, u);
      } else {
        assert n - {k} == n;
      }
      TotalAcross(m - {k}, w, n - {k}, u);
    }
  }

  ghost function Ones<K, V>(m: map<K, V>, w: V -> nat): set<K> {
    set k | k in m && w(m[k]) == 1
  }

  lemma OnesSplit<K, V>(m: map<K, V>, k: K, w: V -> nat)
    requires k in m
    ensures |Ones(m, w)| == |Ones(m - {k}, w)| + if w(m[k]) == 1 then 1 else 0
  {
    var rest := Ones(m - {k}, w);
    forall j | j in Ones(m, w)
      ensures j == k || j in rest
    {
    }
    forall j | j in rest
      ensures j in Ones(m, w) && j != k
    {
    }
    if w(m[k]) == 1 {
      assert Ones(m, w) == rest + {k};
    } else {
      assert Ones(m, w) == rest;
    }
  }

  /** A total of ones and zeros counts the ones. */
  lemma {:induction false} TotalCounts<K, V>(m: map<K, V>, w: V -> nat)
    requires forall k :: k in m ==> w(m[k]) <= 1
    ensures Total(m, w) == |Ones(m, w)|
    decreases |m|
  {
    if m == map[] {
      assert Ones(m, w) == {};
    } else {
      var k :| k in m;
      TotalSplit(m, k, w);
      TotalCounts(m - {k}, w);
      OnesSplit(m, k, w);
    }
  }

  // ----- Counting entries -----

  function Where<K, V>(m: map<K, V>, p: V -> bool): set<K> {
    set k | k in m && p(m[k])
  }

  /** Setting one entry changes how many entries satisfy `p` by that entry alone. */
  lemma WhereUpdate<K, V>(m: map<K, V>, k: K, v: V, p: V -> bool)
    ensures |Where(m[k := v], p)| ==
            |Where(m, p)| - (if k in m && p(m[k]) then 1 else 0) + (if p(v) then 1 else 0)
  {
    var others := Where(m - {k}, p);
    WhereSplit(m[k := v], k, p);
    assert m[k := v] - {k} == m - {k};
    if k in m {
      WhereSplit(m, k, p);
    } else {
      assert m - {k} == m;
    }
  }

  lemma WhereSplit<K, V>(m: map<K, V>, k: K, p: V -> bool)
    requires k in m
    ensures |Where(m, p)| == |Where(m - {k}, p)| + if p(m[k]) then 1 else 0
  {
    var rest := Where(m - {k}, p);
    if p(m[k]) {
      assert Where(m, p) == rest + {k};
    } else {
      assert Where(m, p) == rest;
    }
  }
}
