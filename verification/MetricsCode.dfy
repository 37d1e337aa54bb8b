/** `HostMetrics::record` as code: the counters of one host, its bucket loop and its compare-and-exchange loop. */
module MetricsCode {
  import opened Basics
  import opened Metrics

  /** What happens between one load of the sum and the exchange that follows: other recorders may add their
      durations, and the exchange may fail without a reason. */
  datatype Attempt = Attempt(rivals: seq<real>, spurious: bool)

  function AddAll(add: Adder, sum: nat, durations: seq<real>): nat {
    if durations == [] then sum
    else add(AddAll(add, sum, durations[..|durations| - 1]), durations[|durations| - 1])
  }

  /** The bits after the rivals of these attempts added theirs. */
  function AfterRivals(add: Adder, sum: nat, attempts: seq<Attempt>): nat {
    if attempts == [] then sum
    else AddAll(add, AfterRivals(add, sum, attempts[..|attempts| - 1]), attempts[|attempts| - 1].rivals)
  }

  /** What the other recorders add to a counter before the next increment. */
  type Interference = Tally -> nat

  /** What they add before the first `n` increments. */
  function Meanwhile(others: nat -> Interference, t: Tally, n: nat): nat {
    if n == 0 then 0 else Meanwhile(others, t, n - 1) + others(n - 1)(t)
  }

  class HostCounters {
    var requests: nat
    var errors: nat
    var received: nat
    const counts: array<nat>
    var sum: nat

    function Read(t: Tally): nat
      requires counts.Length == BUCKETS && t.Valid()
      reads this, counts
    {
      match t
      case Requests => requests
      case Received => received
      case Errors => errors
      case Bucket(i) => counts[i]
    }

    constructor ()
      ensures counts.Length == BUCKETS && fresh(counts) && sum == 0
      ensures forall t: Tally :: t.Valid() ==> Read(t) == 0
    {
      requests, errors, received, sum := 0, 0, 0, 0;
      counts := new nat[BUCKETS](_ => 0);
    }

    /** Counts the request once in every counter, among the increments of the others, and adds its duration exactly
        once, on top of whatever the rivals whose additions came first made of the sum. `seen` is how many attempts
        that took. */
    method Record(add: Adder, x: Sample, others: nat -> Interference, attempts: seq<Attempt>) returns (seen: nat)
      requires counts.Length == BUCKETS
      modifies this, counts
      ensures forall t: Tally :: t.Valid() ==>
                Read(t) == old(Read(t)) + Amount(t, x) + Meanwhile(others, t, BUCKETS + 3)
      ensures requests == old(requests) + 1 + Meanwhile(others, Requests, BUCKETS + 3)
      ensures received == old(received) + x.body + Meanwhile(others, Received, BUCKETS + 3)
      ensures errors == old(errors) + (if x.isError then 1 else 0) + Meanwhile(others, Errors, BUCKETS + 3)
      ensures forall i :: 0 <= i < BUCKETS ==>
                counts[i] == old(counts[i]) + (if x.elapsed <= BOUNDS[i] then 1 else 0)
                           + Meanwhile(others, Bucket(i), BUCKETS + 3)
      ensures seen <= |attempts|
      ensures sum == add(AfterRivals(add, old(sum), attempts[..seen]), x.elapsed)
      ensures (forall i :: 0 <= i < |attempts| ==> attempts[i] == Attempt([], false)) ==>
                sum == add(old(sum), x.elapsed)
    {
      CountTotals(x, others);
      CountBuckets(x, others);
      forall i | 0 <= i < BUCKETS
        ensures counts[i] == Read(Bucket(i)) && old(counts[i]) == old(Read(Bucket(i)))
      {
      }
      assert Read(Requests) == requests && Read(Received) == received && Read(Errors) == errors;
      seen := AddToSum(add, x.elapsed, attempts);
    }

    /** The counters with a global twin. */
    method CountTotals(x: Sample, others: nat -> Interference)
      requires counts.Length == BUCKETS
      modifies this, counts
      ensures sum == old(sum)
      ensures forall t: Tally :: t.Valid() ==>
                Read(t) == old(Read(t)) + Meanwhile(others, t, 3) + if t.HasTwin() then Amount(t, x) else 0
    {
      Increment(others(0));
      requests := requests + 1;
      Increment(others(1));
      received := received + x.body;
      Increment(others(2));
      if x.isError {
        errors := errors + 1;
      }
      forall t: Tally
        ensures Meanwhile(others, t, 3) == others(0)(t) + others(1)(t) + others(2)(t)
      {
        assert Meanwhile(others, t, 2) == Meanwhile(others, t, 1) + others(1)(t);
      }
    }

    /** The buckets, one by one. */
    method CountBuckets(x: Sample, others: nat -> Interference)
      requires counts.Length == BUCKETS
      modifies this, counts
      ensures sum == old(sum)
      ensures forall t: Tally :: t.Valid() ==>
                Read(t) == old(Read(t)) + Meanwhile(others, t, BUCKETS + 3) - Meanwhile(others, t, 3)
                         + if t.HasTwin() then 0 else Amount(t, x)
    {
      for i := 0 to BUCKETS
        invariant sum == old(sum)
        invariant forall t: Tally :: t.Valid() ==>
                    Read(t) == old(Read(t)) + Meanwhile(others, t, i + 3) - Meanwhile(others, t, 3)
                             + if t.Bucket? && t.i < i then Amount(t, x) else 0
      {
        Increment(others(i + 3));
        if x.elapsed <= BOUNDS[i] {
          counts[i] := counts[i] + 1;
        }
      }
    }

    /** The increments of the others. */
    method Increment(amounts: Interference)
      requires counts.Length == BUCKETS
      modifies this, counts
      ensures forall t: Tally :: t.Valid() ==> Read(t) == old(Read(t)) + amounts(t)
      ensures sum == old(sum)
    {
      requests := requests + amounts(Requests);
      received := received + amounts(Received);
      errors := errors + amounts(Errors);
      for i := 0 to BUCKETS
        invariant sum == old(sum)
        invariant forall t: Tally :: t.Valid() ==>
                    Read(t) == old(Read(t)) + if t.Bucket? && t.i >= i then 0 else amounts(t)
      {
        counts[i] := counts[i] + amounts(Bucket(i));
      }
    }

    method AddToSum(add: Adder, elapsed: real, attempts: seq<Attempt>) returns (seen: nat)
      modifies this`sum
      ensures seen <= |attempts|
      ensures sum == add(AfterRivals(add, old(sum), attempts[..seen]), elapsed)
      ensures (forall i :: 0 <= i < |attempts| ==> attempts[i] == Attempt([], false)) ==>
                sum == add(old(sum), elapsed)
    {
      seen := 0;
      while seen < |attempts|
        invariant seen <= |attempts|
        invariant sum == AfterRivals(add, old(sum), attempts[..seen])
        invariant (forall i :: 0 <= i < |attempts| ==> attempts[i] == Attempt([], false)) ==> sum == old(sum)
      {
        var current := sum;
        var attempt := attempts[seen];
        sum := AddAll(add, sum, attempt.rivals);
        seen := seen + 1;
        assert attempts[..seen][..seen - 1] == attempts[..seen - 1];
        if sum == current && !attempt.spurious {
          sum := add(current, elapsed);
          return;
        }
      }
      sum := add(sum, elapsed);
    }
  }

  /** The rest of the program of the recorder `r`, run alone from program point `pc`. */
  function Rest(r: Id, pc: nat): seq<Action>
    requires pc <= EXCHANGE
    decreases EXCHANGE - pc
  {
    if pc == EXCHANGE then [Exchange(r, false)] else [Advance(r)] + Rest(r, pc + 1)
  }

  /** `t` is `s` after the rest of the program of `r`, and of nothing else. */
  ghost predicate RanAlone(add: Adder, s: State, r: Id, t: State)
    requires WellFormed(s) && r in s.records && s.records[r].pc > LOOKUP
  {
    var x := s.records[r];
    var h := x.sample.host;
    && WellFormed(t)
    && t.globals == s.globals
    && r in t.records && t.records[r].pc == OVER
    && t.hosts.Keys == s.hosts.Keys
    && (forall g :: g in s.hosts && g != h ==> t.hosts[g] == s.hosts[g])
    && (forall u: Tally :: u.Valid() ==>
          t.hosts[h].Read(u) == s.hosts[h].Read(u) + if HostPoint(u) >= x.pc then Amount(u, x.sample) else 0)
    && t.hosts[h].sum == add(s.hosts[h].sum, x.sample.elapsed)
  }

  predicate SumLoaded(s: State, r: Id)
    requires WellFormed(s) && r in s.records && s.records[r].pc > LOOKUP
  {
    s.records[r].pc == EXCHANGE ==> s.records[r].loaded == s.hosts[s.records[r].sample.host].sum
  }

  lemma AloneExchange(add: Adder, s: State, r: Id)
    requires WellFormed(s) && r in s.records && s.records[r].pc == EXCHANGE && SumLoaded(s, r)
    ensures RanAlone(add, s, r, Exchanged(add, s, r, false))
  {
    StepWellFormed(add, s, Exchange(r, false));
    ExchangedReads(add, s, r, false);
  }

  /** One advance alone: the rest of the program then does what is left to do. */
  lemma AloneAdvance(add: Adder, s: State, r: Id)
    requires WellFormed(s) && r in s.records && LOOKUP < s.records[r].pc < EXCHANGE
    ensures var x, t := s.records[r], Advanced(s, r);
            && WellFormed(t) && r in t.records
            && t.records[r].sample == x.sample && t.records[r].pc == x.pc + 1 && SumLoaded(t, r)
            && t.globals == s.globals && t.hosts.Keys == s.hosts.Keys
            && (forall g :: g in s.hosts && g != x.sample.host ==> t.hosts[g] == s.hosts[g])
            && (forall u: Tally :: u.Valid() ==>
                  t.hosts[x.sample.host].Read(u) ==
                  s.hosts[x.sample.host].Read(u) + if HostPoint(u) == x.pc then Amount(u, x.sample) else 0)
            && t.hosts[x.sample.host].sum == s.hosts[x.sample.host].sum
  {
    StepWellFormed(add, s, Advance(r));
    forall u: Tally | u.Valid()
      ensures Advanced(s, r).hosts[s.records[r].sample.host].Read(u) ==
              s.hosts[s.records[r].sample.host].Read(u)
              + if HostPoint(u) == s.records[r].pc then Amount(u, s.records[r].sample) else 0
    {
      AdvancedReads(s, r, s.records[r].sample.host, u);
    }
    AdvancedKeepsSum(s, r, s.records[r].sample.host);
  }

  lemma AdvancesOn(add: Adder, s: State, r: Id)
    requires WellFormed(s) && r in s.records && LOOKUP < s.records[r].pc < EXCHANGE
    ensures WellFormed(Advanced(s, r)) && r in Advanced(s, r).records
    ensures Advanced(s, r).records[r].pc == s.records[r].pc + 1 && SumLoaded(Advanced(s, r), r)
  {
    AloneAdvance(add, s, r);
  }

  lemma AloneJoins(add: Adder, s: State, r: Id, t: State)
    requires WellFormed(s) && r in s.records && LOOKUP < s.records[r].pc < EXCHANGE
    requires WellFormed(Advanced(s, r)) && r in Advanced(s, r).records && Advanced(s, r).records[r].pc > LOOKUP
    requires RanAlone(add, Advanced(s, r), r, t)
    ensures RanAlone(add, s, r, t)
  {
    AloneAdvance(add, s, r);
  }

  lemma RunPrepends(add: Adder, s: State, a: Action, rest: seq<Action>)
    requires WellFormed(s) && Enabled(s, a) && IsRun(add, Step(add, s, a), rest)
    ensures IsRun(add, s, [a] + rest) && End(add, s, [a] + rest) == End(add, Step(add, s, a), rest)
  {
    assert ([a] + rest)[1..] == rest;
  }

  /** `schedule` runs from `s` and is the rest of the program of `r`. */
  ghost predicate RunsAlone(add: Adder, s: State, r: Id, schedule: seq<Action>)
    requires WellFormed(s) && r in s.records && s.records[r].pc > LOOKUP
  {
    IsRun(add, s, schedule) && RanAlone(add, s, r, End(add, s, schedule))
  }

  lemma ExchangeAlone(add: Adder, s: State, r: Id)
    requires WellFormed(s) && r in s.records && s.records[r].pc == EXCHANGE && SumLoaded(s, r)
    ensures RunsAlone(add, s, r, [Exchange(r, false)])
  {
    AloneExchange(add, s, r);
    var t := Exchanged(add, s, r, false);
    assert IsRun(add, t, []) && End(add, t, []) == t;
    RunPrepends(add, s, Exchange(r, false), []);
    assert [Exchange(r, false)] + [] == [Exchange(r, false)];
  }

  lemma AdvanceFirst(add: Adder, s: State, r: Id, rest: seq<Action>)
    requires WellFormed(s) && r in s.records && LOOKUP < s.records[r].pc < EXCHANGE
    requires WellFormed(Advanced(s, r)) && r in Advanced(s, r).records && Advanced(s, r).records[r].pc > LOOKUP
    requires RunsAlone(add, Advanced(s, r), r, rest)
    ensures RunsAlone(add, s, r, [Advance(r)] + rest)
  {
    RunPrepends(add, s, Advance(r), rest);
    AloneJoins(add, s, r, End(add, Advanced(s, r), rest));
  }

  /** Run alone, the program of a recorder does to its host what `HostCounters.Record` does, and nothing else. */
  lemma {:induction false} RecordAlone(add: Adder, s: State, r: Id)
    requires WellFormed(s) && r in s.records && LOOKUP < s.records[r].pc <= EXCHANGE && SumLoaded(s, r)
    ensures RunsAlone(add, s, r, Rest(r, s.records[r].pc))
    decreases OVER - s.records[r].pc
  {
    if s.records[r].pc == EXCHANGE {
      ExchangeAlone(add, s, r);
    } else {
      AdvancesOn(add, s, r);
      RecordAlone(add, Advanced(s, r), r);
      AdvanceFirst(add, s, r, Rest(r, s.records[r].pc + 1));
    }
  }
}
