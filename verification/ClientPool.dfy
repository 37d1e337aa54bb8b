/** Round-robin over a wrapping index: `src/client_pool.rs`.

    The index is a machine word that wraps at `modulus`, a power of two; it is never reset when the pool grows. */
module ClientPool {
  import opened Basics

  // ----- The pool -----

  datatype Strategy = RoundRobin | Random

  datatype PoolError = NoClients | UnknownStrategy

  /** One round-robin acquire: the slot it picks and the next index. */
  function AcquireOne(modulus: nat, len: nat, index: nat): (nat, nat)
    requires modulus > 0 && len > 0
  {
    (index % len, (index + 1) % modulus)
  }

  /** The checks of the constructor of the pool. */
  function CheckedStrategy<C>(clients: seq<C>, rotation: string): Result<Strategy, PoolError> {
    if clients == [] then Err(NoClients)
    else if rotation == "round_robin" then Ok(RoundRobin)
    else if rotation == "random" then Ok(Random)
    else Err(UnknownStrategy)
  }

  /** A pool needs clients, and one of the two rotations by name. */
  lemma StrategyByName<C>(clients: seq<C>, rotation: string)
    ensures CheckedStrategy(clients, rotation) == Ok(RoundRobin) <==> clients != [] && rotation == "round_robin"
    ensures CheckedStrategy(clients, rotation) == Ok(Random) <==> clients != [] && rotation == "random"
    ensures CheckedStrategy(clients, rotation) == Err(NoClients) <==> clients == []
  {
    assert "round_robin"[1] != "random"[1];
  }

  class Pool<C> {
    const modulus: nat
    const strategy: Strategy
    var clients: seq<C>
    var index: nat

    ghost predicate Valid()
      reads this
    {
      modulus > 0 && clients != [] && index < modulus
    }

    constructor (modulus: nat, clients: seq<C>, rotation: string)
      requires modulus > 0 && CheckedStrategy(clients, rotation).Ok?
      ensures Valid() && this.modulus == modulus && this.clients == clients && index == 0
      ensures Ok(strategy) == CheckedStrategy(clients, rotation)
      ensures rotation == "round_robin" ==> strategy == RoundRobin
      ensures rotation == "random" ==> strategy == Random
    {
      this.modulus, this.clients, index := modulus, clients, 0;
      strategy := if rotation == "round_robin" then RoundRobin else Random;
    }

    /** `hash` is the random number of the other strategy, which leaves the index alone. */
    method Acquire(hash: nat) returns (client: C)
      requires Valid()
      modifies this`index
      ensures Valid()
      ensures strategy == RoundRobin ==>
                var (slot, next) := AcquireOne(modulus, |clients|, old(index));
                slot < |clients| && client == clients[slot] && index == next
      ensures strategy == RoundRobin ==>
                client == clients[old(index) % |clients|] && index == (old(index) + 1) % modulus
      ensures strategy == Random ==> client == clients[hash % |clients|] && index == old(index)
    {
      var idx;
      match strategy {
        case RoundRobin =>
          WrappingAdd(modulus, index);
          idx := index % |clients|;
          index := if index + 1 == modulus then 0 else index + 1;
        case Random => idx := hash % |clients|;
      }
      client := clients[idx];
    }

    method Add(client: C)
      requires Valid()
      modifies this`clients
      ensures Valid() && clients == old(clients) + [client]
    {
      clients := clients + [client];
    }
  }

  // ----- Runs of acquires -----

  /** The slots that `n` acquires in a row pick. */
  function Picks(modulus: nat, len: nat, index: nat, n: nat): (slots: seq<nat>)
    requires modulus > 0 && len > 0
    ensures |slots| == n
    decreases n
  {
    if n == 0 then []
    else
      var (slot, next) := AcquireOne(modulus, len, index);
      [slot] + Picks(modulus, len, next, n - 1)
  }

  function Count(slots: seq<nat>, c: nat): nat {
    if slots == [] then 0 else (if slots[0] == c then 1 else 0) + Count(slots[1..], c)
  }

  /** How many of the numbers from `a` up to `a + n` leave the remainder `c`. */
  function Hits(len: nat, a: nat, n: nat, c: nat): nat
    requires len > 0
    decreases n
  {
    if n == 0 then 0 else (if a % len == c then 1 else 0) + Hits(len, a + 1, n - 1, c)
  }

  // ----- Remainders -----

  lemma QuotientIsUnique(x: int, len: nat, q: int, r: int)
    requires len > 0 && x == q * len + r && 0 <= r < len
    ensures x % len == r && x / len == q
  {
    var d := q - x / len;
    assert x == (x / len) * len + x % len;
    assert d * len == x % len - r by {
      assert d * len == q * len - (x / len) * len;
    }
    MultipleIsFar(d, len);
  }

  lemma MultipleIsFar(d: int, len: nat)
    ensures d >= 1 ==> d * len >= len
    ensures d <= -1 ==> d * len + len <= 0
  {
  }

  lemma WrappingAdd(modulus: nat, index: nat)
    requires index < modulus
    ensures (index + 1) % modulus == if index + 1 == modulus then 0 else index + 1
  {
    var wraps := index + 1 == modulus;
    QuotientIsUnique(index + 1, modulus, if wraps then 1 else 0, if wraps then 0 else index + 1);
  }

  lemma RemainderShifts(a: nat, len: nat)
    requires len > 0
    ensures (a + len) % len == a % len
  {
    assert (a / len + 1) * len == (a / len) * len + len;
    QuotientIsUnique(a + len, len, a / len + 1, a % len);
  }

  /** Wrapping at a multiple of `len` does not change the remainder. */
  lemma RemainderSurvivesWrap(x: nat, modulus: nat, len: nat)
    requires len > 0 && modulus > 0 && modulus % len == 0
    ensures (x % modulus) % len == x % len
  {
    var k, j := modulus / len, x / modulus;
    var y := x % modulus;
    assert modulus == k * len;
    assert x == j * modulus + y;
    assert j * modulus == (j * k) * len by {
      assert j * (k * len) == (j * k) * len;
    }
    assert (j * k + y / len) * len == (j * k) * len + (y / len) * len;
    QuotientIsUnique(x, len, j * k + y / len, y % len);
  }

  // ----- Counting remainders in a range -----

  lemma {:induction false} HitsSplit(len: nat, a: nat, n: nat, m: nat, c: nat)
    requires len > 0
    ensures Hits(len, a, n + m, c) == Hits(len, a, n, c) + Hits(len, a + n, m, c)
    decreases n
  {
    if n > 0 {
      HitsSplit(len, a + 1, n - 1, m, c);
    }
  }

  lemma {:induction false} HitsBelow(len: nat, a: nat, n: nat, c: nat)
    requires len > 0 && a + n <= len
    ensures Hits(len, a, n, c) == if a <= c < a + n then 1 else 0
    decreases n
  {
    if n > 0 {
      QuotientIsUnique(a, len, 0, a);
      HitsBelow(len, a + 1, n - 1, c);
    }
  }

  /** `len` numbers in a row leave each remainder once. */
  lemma {:induction false} HitsWindow(len: nat, a: nat, c: nat)
    requires c < len
    ensures Hits(len, a, len, c) == 1
    decreases a
  {
    if a == 0 {
      HitsBelow(len, 0, len, c);
    } else {
      HitsWindow(len, a - 1, c);
      HitsSplit(len, a - 1, 1, len - 1, c);
      HitsSplit(len, a, len - 1, 1, c);
      RemainderShifts(a - 1, len);
      assert Hits(len, a - 1, 1, c) == if (a - 1) % len == c then 1 else 0;
      assert Hits(len, a + len - 1, 1, c) == if (a - 1 + len) % len == c then 1 else 0;
    }
  }

  /** Any range leaves any two remainders equally often, give or take one. */
  lemma {:induction false} HitsBalance(len: nat, a: nat, n: nat, c: nat, d: nat)
    requires c < len && d < len
    ensures Hits(len, a, n, c) <= Hits(len, a, n, d) + 1
    decreases n
  {
    HitsWindow(len, a, c);
    HitsWindow(len, a, d);
    if n >= len {
      HitsSplit(len, a, len, n - len, c);
      HitsSplit(len, a, len, n - len, d);
      HitsBalance(len, a + len, n - len, c, d);
    } else {
      HitsSplit(len, a, n, len - n, c);
    }
  }

  // ----- What the acquires pick -----

  /** Until the index wraps, `n` acquires pick the remainders of `n` numbers in a row. */
  lemma {:induction false} PicksBeforeWrap(modulus: nat, len: nat, index: nat, n: nat, c: nat)
    requires modulus > 0 && len > 0 && index + n <= modulus
    ensures Count(Picks(modulus, len, index, n), c) == Hits(len, index, n, c)
    decreases n
  {
    if n > 1 {
      QuotientIsUnique(index + 1, modulus, 0, index + 1);
      PicksBeforeWrap(modulus, len, index + 1, n - 1, c);
    }
  }

  /** Across one wrap they are the remainders before it, then those from zero on. */
  lemma {:induction false} PicksAcrossWrap(modulus: nat, len: nat, index: nat, n: nat, c: nat)
    requires len > 0 && index < modulus && modulus <= index + n <= 2 * modulus
    ensures Count(Picks(modulus, len, index, n), c) ==
            Hits(len, index, modulus - index, c) + Hits(len, 0, index + n - modulus, c)
    decreases modulus - index
  {
    if index + 1 == modulus {
      QuotientIsUnique(modulus, modulus, 1, 0);
      PicksBeforeWrap(modulus, len, 0, n - 1, c);
      assert Hits(len, index, 1, c) == if index % len == c then 1 else 0;
    } else {
      QuotientIsUnique(index + 1, modulus, 0, index + 1);
      PicksAcrossWrap(modulus, len, index + 1, n - 1, c);
    }
  }

  /** When the number of clients divides the modulus, wrapping is seamless. */
  lemma {:induction false} PicksSeamless(modulus: nat, len: nat, a: nat, n: nat, c: nat)
    requires modulus > 0 && len > 0 && modulus % len == 0
    ensures Count(Picks(modulus, len, a % modulus, n), c) == Hits(len, a, n, c)
    decreases n
  {
    if n > 0 {
      RemainderSurvivesWrap(a, modulus, len);
      NextIndex(modulus, a);
      PicksSeamless(modulus, len, a + 1, n - 1, c);
    }
  }

  lemma NextIndex(modulus: nat, a: nat)
    requires modulus > 0
    ensures (a % modulus + 1) % modulus == (a + 1) % modulus
  {
    if a % modulus + 1 == modulus {
      assert (a / modulus + 1) * modulus == (a / modulus) * modulus + modulus;
      QuotientIsUnique(a + 1, modulus, a / modulus + 1, 0);
      QuotientIsUnique(modulus, modulus, 1, 0);
    } else {
      QuotientIsUnique(a + 1, modulus, a / modulus, a % modulus + 1);
      QuotientIsUnique(a % modulus + 1, modulus, 0, a % modulus + 1);
    }
  }

  // ----- Fairness -----

  /** Without a wrap, pick counts differ by at most one; across one wrap, by at most two. */
  lemma PickCountsBalance(modulus: nat, len: nat, index: nat, n: nat, c: nat, d: nat)
    requires index < modulus && c < len && d < len && index + n <= 2 * modulus
    ensures Count(Picks(modulus, len, index, n), c) <=
            Count(Picks(modulus, len, index, n), d) + if index + n <= modulus then 1 else 2
  {
    if index + n <= modulus {
      PicksBeforeWrap(modulus, len, index, n, c);
      PicksBeforeWrap(modulus, len, index, n, d);
      HitsBalance(len, index, n, c, d);
    } else {
      PicksAcrossWrap(modulus, len, index, n, c);
      PicksAcrossWrap(modulus, len, index, n, d);
      HitsBalance(len, index, modulus - index, c, d);
      HitsBalance(len, 0, index + n - modulus, c, d);
    }
  }

  /** `len` acquires in a row pick every client once. */
  ghost predicate WindowIsPermutation(modulus: nat, len: nat, index: nat)
    requires modulus > 0 && len > 0
  {
    forall c :: 0 <= c < len ==> Count(Picks(modulus, len, index, len), c) == 1
  }

  lemma WindowBeforeWrap(modulus: nat, len: nat, index: nat)
    requires len > 0 && index + len <= modulus
    ensures WindowIsPermutation(modulus, len, index)
  {
    forall c | 0 <= c < len
      ensures Count(Picks(modulus, len, index, len), c) == 1
    {
      PicksBeforeWrap(modulus, len, index, len, c);
      HitsWindow(len, index, c);
    }
  }

  /** Every window is a permutation of the clients exactly when their number divides the modulus, which for a power
      of two means that it is one as well. */
  lemma AlwaysPermutationIff(modulus: nat, len: nat)
    requires 0 < len <= modulus
    ensures (forall index :: 0 <= index < modulus ==> WindowIsPermutation(modulus, len, index)) <==> modulus % len == 0
  {
    if modulus % len == 0 {
      forall index | 0 <= index < modulus
        ensures WindowIsPermutation(modulus, len, index)
      {
        forall c | 0 <= c < len
          ensures Count(Picks(modulus, len, index, len), c) == 1
        {
          QuotientIsUnique(index, modulus, 0, index);
          PicksSeamless(modulus, len, index, len, c);
          HitsWindow(len, index, c);
        }
      }
    } else {
      RepeatsAtWrap(modulus, len);
      assert !WindowIsPermutation(modulus, len, modulus - 1);
    }
  }

  lemma LastRemainder(modulus: nat, len: nat)
    requires 0 < len <= modulus && modulus % len != 0
    ensures (modulus - 1) % len == modulus % len - 1
  {
    assert modulus - 1 == (modulus / len) * len + (modulus % len - 1);
    QuotientIsUnique(modulus - 1, len, modulus / len, modulus % len - 1);
  }

  lemma HitsOne(len: nat, a: nat, c: nat)
    requires len > 0
    ensures Hits(len, a, 1, c) == if a % len == c then 1 else 0
  {
    assert Hits(len, a + 1, 0, c) == 0;
  }

  /** Otherwise the window that starts at the last index picks one client twice. */
  lemma RepeatsAtWrap(modulus: nat, len: nat)
    requires 0 < len <= modulus && modulus % len != 0
    ensures 0 < modulus % len < len
    ensures Count(Picks(modulus, len, modulus - 1, len), modulus % len - 1) == 2
  {
    var c := modulus % len - 1;
    PicksAcrossWrap(modulus, len, modulus - 1, len, c);
    LastRemainder(modulus, len);
    HitsOne(len, modulus - 1, c);
    HitsBelow(len, 0, len - 1, c);
  }

  /** With the divisibility, any number of wraps leaves the counts within one of each other. */
  lemma PickCountsSeamless(modulus: nat, len: nat, index: nat, n: nat, c: nat, d: nat)
    requires index < modulus && c < len && d < len && modulus % len == 0
    ensures Count(Picks(modulus, len, index, n), c) <= Count(Picks(modulus, len, index, n), d) + 1
  {
    QuotientIsUnique(index, modulus, 0, index);
    PicksSeamless(modulus, len, index, n, c);
    PicksSeamless(modulus, len, index, n, d);
    HitsBalance(len, index, n, c, d);
  }

  // ----- A pool that grows -----

  datatype Turn<C> = Acquire | Add(client: C)

  /** The number of clients and the index after these turns. */
  function After<C>(modulus: nat, len: nat, index: nat, turns: seq<Turn<C>>): (r: (nat, nat))
    requires len > 0 && index < modulus
    ensures r.0 >= len && r.1 < modulus
    decreases |turns|
  {
    if turns == [] then (len, index)
    else if turns[0].Acquire? then After(modulus, len, AcquireOne(modulus, len, index).1, turns[1..])
    else After(modulus, len + 1, index, turns[1..])
  }

  /** The slots that the acquires among these turns pick. */
  function Slots<C>(modulus: nat, len: nat, index: nat, turns: seq<Turn<C>>): seq<nat>
    requires len > 0 && index < modulus
    decreases |turns|
  {
    if turns == [] then []
    else if turns[0].Acquire? then
      var (slot, next) := AcquireOne(modulus, len, index);
      [slot] + Slots(modulus, len, next, turns[1..])
    else Slots(modulus, len + 1, index, turns[1..])
  }

  function Added<C>(turns: seq<Turn<C>>): seq<C> {
    if turns == [] then []
    else if turns[0].Acquire? then Added(turns[1..])
    else [turns[0].client] + Added(turns[1..])
  }

  lemma {:induction false} TurnsSplit<C>(modulus: nat, len: nat, index: nat, a: seq<Turn<C>>, b: seq<Turn<C>>)
    requires len > 0 && index < modulus
    ensures var (l, i) := After(modulus, len, index, a);
            && After(modulus, len, index, a + b) == After(modulus, l, i, b)
            && Slots(modulus, len, index, a + b) == Slots(modulus, len, index, a) + Slots(modulus, l, i, b)
    decreases |a|
  {
    if a == [] {
      assert a + b == b;
    } else {
      assert (a + b)[1..] == a[1..] + b;
      if a[0].Acquire? {
        TurnsSplit(modulus, len, AcquireOne(modulus, len, index).1, a[1..], b);
      } else {
        TurnsSplit(modulus, len + 1, index, a[1..], b);
      }
    }
  }

  /** Each acquire advances the index by one, modulo the word, and each add leaves it alone. */
  lemma {:induction false} IndexAfter<C>(modulus: nat, len: nat, index: nat, turns: seq<Turn<C>>)
    requires len > 0 && index < modulus
    ensures |Added(turns)| <= |turns|
    ensures After(modulus, len, index, turns) ==
            (len + |Added(turns)|, (index + |turns| - |Added(turns)|) % modulus)
    decreases |turns|
  {
    if turns == [] {
      QuotientIsUnique(index, modulus, 0, index);
    } else if turns[0].Acquire? {
      var next := AcquireOne(modulus, len, index).1;
      IndexAfter(modulus, len, next, turns[1..]);
      WrapsOnce(modulus, index, |turns[1..]| - |Added(turns[1..])|);
    } else {
      IndexAfter(modulus, len + 1, index, turns[1..]);
    }
  }

  lemma WrapsOnce(modulus: nat, index: nat, n: nat)
    requires index < modulus
    ensures ((index + 1) % modulus + n) % modulus == (index + 1 + n) % modulus
  {
    WrappingAdd(modulus, index);
    if index + 1 == modulus {
      RemainderShifts(n, modulus);
    }
  }

  lemma {:induction false} AddedSplit<C>(a: seq<Turn<C>>, b: seq<Turn<C>>)
    ensures Added(a + b) == Added(a) + Added(b)
  {
    if a == [] {
      assert a + b == b;
    } else {
      assert (a + b)[1..] == a[1..] + b;
      AddedSplit(a[1..], b);
      if a[0].Add? {
        var first := [a[0].client];
        assert first + (Added(a[1..]) + Added(b)) == (first + Added(a[1..])) + Added(b);
      }
    }
  }

  lemma {:induction false} SlotsOfAcquires<C>(modulus: nat, len: nat, index: nat, turns: seq<Turn<C>>)
    requires len > 0 && index < modulus && forall k :: 0 <= k < |turns| ==> turns[k].Acquire?
    ensures Slots(modulus, len, index, turns) == Picks(modulus, len, index, |turns|)
    decreases |turns|
  {
    if turns != [] {
      SlotsOfAcquires(modulus, len, AcquireOne(modulus, len, index).1, turns[1..]);
    }
  }

  /** Whatever was acquired and added before, the acquires since the last `add` are fair to all clients there now,
      the new one included: the bounds hold again from where the index stands. */
  lemma BalancedBetweenAdds<C>(
      modulus: nat, len: nat, index: nat, before: seq<Turn<C>>, acquires: seq<Turn<C>>, c: nat, d: nat)
    requires len > 0 && index < modulus && forall k :: 0 <= k < |acquires| ==> acquires[k].Acquire?
    requires var l := After(modulus, len, index, before).0; c < l && d < l
    ensures var (l, i) := After(modulus, len, index, before);
            var n, all := |acquires|, Slots(modulus, len, index, before + acquires);
            && |all| == |Slots(modulus, len, index, before)| + n
            && var window := all[|all| - n..];
               && (i + n <= modulus ==> Count(window, c) <= Count(window, d) + 1)
               && (i + n <= 2 * modulus ==> Count(window, c) <= Count(window, d) + 2)
               && (modulus % l == 0 ==> Count(window, c) <= Count(window, d) + 1)
               && (n == l && i + n <= modulus ==> Count(window, c) == 1)
  {
    TurnsSplit(modulus, len, index, before, acquires);
    var (l, i) := After(modulus, len, index, before);
    SlotsOfAcquires(modulus, l, i, acquires);
    if i + |acquires| <= 2 * modulus {
      PickCountsBalance(modulus, l, i, |acquires|, c, d);
    }
    if modulus % l == 0 {
      PickCountsSeamless(modulus, l, i, |acquires|, c, d);
    }
    if |acquires| == l && i + l <= modulus {
      WindowBeforeWrap(modulus, l, i);
    }
  }

  /** The slots picked are those of clients already there; an `add` leaves them in place. */
  ghost predicate Serves<C>(clients: seq<C>, slots: seq<nat>, served: seq<C>) {
    |served| == |slots| && forall k :: 0 <= k < |slots| ==> slots[k] < |clients| && served[k] == clients[slots[k]]
  }

  /** A pool through any turns hands out the clients in the slots told. */
  method TakeTurns<C>(pool: Pool<C>, turns: seq<Turn<C>>) returns (served: seq<C>)
    requires pool.Valid() && pool.strategy == RoundRobin
    modifies pool
    ensures pool.Valid() && pool.clients == old(pool.clients) + Added(turns)
    ensures (|pool.clients|, pool.index) == After(pool.modulus, |old(pool.clients)|, old(pool.index), turns)
    ensures Serves(pool.clients, Slots(pool.modulus, |old(pool.clients)|, old(pool.index), turns), served)
  {
    served := [];
    ghost var len, index := |pool.clients|, pool.index;
    for i := 0 to |turns|
      invariant pool.Valid() && pool.clients == old(pool.clients) + Added(turns[..i])
      invariant (|pool.clients|, pool.index) == After(pool.modulus, len, index, turns[..i])
      invariant Serves(pool.clients, Slots(pool.modulus, len, index, turns[..i]), served)
    {
      assert turns[..i + 1] == turns[..i] + [turns[i]];
      TurnsSplit(pool.modulus, len, index, turns[..i], [turns[i]]);
      AddedSplit(turns[..i], [turns[i]]);
      match turns[i] {
        case Acquire =>
          var client := pool.Acquire(0);
          served := served + [client];
        case Add(client) => pool.Add(client);
      }
    }
    assert turns[..|turns|] == turns;
  }
}
