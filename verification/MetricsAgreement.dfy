/** What readers of the metrics can rely on, in every interleaving without a `reset`. */
module MetricsAgreement {
  import opened Totals
  import opened Metrics

  lemma BoundsAscend(i: nat, j: nat)
    requires i <= j < BUCKETS
    ensures BOUNDS[i] <= BOUNDS[j]
    decreases j - i
  {
    if i < j {
      assert BOUNDS[i] <= BOUNDS[i + 1] by {
        if i < 3 {
        } else if i < 6 {
        } else {
        }
      }
      BoundsAscend(i + 1, j);
    }
  }

  // ----- At any moment -----

  /** No host shows more errors, or more requests in a bucket, than requests; the hosts together never show more
      than the global counters. */
  lemma NeverAheadOfRequests(add: Adder, schedule: seq<Action>, h: Host, i: nat)
    requires IsRun(add, START, schedule) && h in End(add, START, schedule).hosts && i < BUCKETS
    ensures var m := End(add, START, schedule).hosts[h];
            m.Valid() && m.errors <= m.requests && m.counts[i] <= m.requests
  {
    Reachable(add, schedule);
    var s := End(add, START, schedule);
    NoMoreThanRequests(s, h, Errors);
    NoMoreThanRequests(s, h, Bucket(i));
    assert s.hosts[h].Read(Bucket(i)) == s.hosts[h].counts[i];
  }

  lemma HostsNeverAheadOfGlobal(add: Adder, schedule: seq<Action>, t: Tally)
    requires IsRun(add, START, schedule) && t.Valid() && t.HasTwin()
    ensures t in End(add, START, schedule).globals
    ensures Total(End(add, START, schedule).hosts, Reading(t)) <= End(add, START, schedule).globals[t]
  {
    Reachable(add, schedule);
    var s := End(add, START, schedule);
    assert SumsExact(s, t) && GlobalExact(s, t);
    TotalBelow(s.records, AnyHostWeight(t), GlobalWeight(t));
  }

  // ----- With no record in flight -----

  predicate AllOver(s: State) {
    forall r :: r in s.records ==> s.records[r].pc == OVER
  }

  function RecordsOf(s: State, h: Host): set<Id> {
    set r | r in s.records && s.records[r].sample.host == h
  }

  function WithinBound(s: State, h: Host, i: nat): set<Id>
    requires i < BUCKETS
  {
    set r | r in s.records && s.records[r].sample.host == h && s.records[r].sample.elapsed <= BOUNDS[i]
  }

  lemma CountsWithinBound(s: State, h: Host, i: nat)
    requires AllOver(s) && i < BUCKETS
    ensures Total(s.records, HostWeight(h, Bucket(i))) == |WithinBound(s, h, i)|
  {
    var w := HostWeight(h, Bucket(i));
    TotalCounts(s.records, w);
    assert Ones(s.records, w) == WithinBound(s, h, i);
  }

  lemma CountsRecords(s: State, h: Host)
    requires AllOver(s)
    ensures Total(s.records, HostWeight(h, Requests)) == |RecordsOf(s, h)|
  {
    var w := HostWeight(h, Requests);
    TotalCounts(s.records, w);
    assert Ones(s.records, w) == RecordsOf(s, h);
  }

  lemma IdleHost(s: State, h: Host, i: nat)
    requires WellFormed(s) && Exact(s) && AllOver(s) && h in s.hosts && i < BUCKETS
    ensures s.hosts[h].counts[i] == |WithinBound(s, h, i)| && s.hosts[h].requests == |RecordsOf(s, h)|
  {
    assert HostExact(s, h, Bucket(i)) && HostExact(s, h, Requests);
    assert s.hosts[h].Read(Bucket(i)) == s.hosts[h].counts[i];
    CountsWithinBound(s, h, i);
    CountsRecords(s, h);
  }

  /** Bucket `i` then holds exactly the recorded durations not above bound `i`. */
  lemma BucketsExactWhenIdle(add: Adder, schedule: seq<Action>, h: Host, i: nat)
    requires IsRun(add, START, schedule) && h in End(add, START, schedule).hosts && i < BUCKETS
    requires AllOver(End(add, START, schedule))
    ensures var s := End(add, START, schedule);
            && s.hosts[h].Valid()
            && s.hosts[h].counts[i] == |WithinBound(s, h, i)|
            && s.hosts[h].requests == |RecordsOf(s, h)|
  {
    Reachable(add, schedule);
    IdleHost(End(add, START, schedule), h, i);
  }

  function FailuresOf(s: State, h: Host): set<Id> {
    set r | r in s.records && s.records[r].sample.host == h && s.records[r].sample.isError
  }

  function BodiesOf(s: State, h: Host): map<Id, nat> {
    map r | r in s.records && s.records[r].sample.host == h :: s.records[r].sample.body
  }

  function Failures(s: State): set<Id> {
    set r | r in s.records && s.records[r].sample.isError
  }

  function Bodies(s: State): map<Id, nat> {
    map r | r in s.records :: s.records[r].sample.body
  }

  /** The host then shows one error for each failed request and the bytes of all its bodies. */
  lemma ErrorsAndBytesExactWhenIdle(add: Adder, schedule: seq<Action>, h: Host)
    requires IsRun(add, START, schedule) && h in End(add, START, schedule).hosts
    requires AllOver(End(add, START, schedule))
    ensures var s := End(add, START, schedule);
            && s.hosts[h].errors == |FailuresOf(s, h)|
            && s.hosts[h].received == Total(BodiesOf(s, h), Same)
  {
    Reachable(add, schedule);
    var s := End(add, START, schedule);
    assert HostExact(s, h, Errors) && HostExact(s, h, Received);
    CountsFailures(s, h);
    AddsBodies(s, h);
  }

  lemma CountsFailures(s: State, h: Host)
    requires AllOver(s)
    ensures Total(s.records, HostWeight(h, Errors)) == |FailuresOf(s, h)|
  {
    TotalCounts(s.records, HostWeight(h, Errors));
    assert Ones(s.records, HostWeight(h, Errors)) == FailuresOf(s, h);
  }

  lemma AddsBodies(s: State, h: Host)
    requires AllOver(s)
    ensures Total(s.records, HostWeight(h, Received)) == Total(BodiesOf(s, h), Same)
  {
    TotalAcross(s.records, HostWeight(h, Received), BodiesOf(s, h), Same);
    TotalAcross(BodiesOf(s, h), Same, s.records, HostWeight(h, Received));
  }

  /** The global counters then show every request, every failed one, and the bytes of all bodies. */
  lemma GlobalsExactWhenIdle(add: Adder, schedule: seq<Action>)
    requires IsRun(add, START, schedule) && AllOver(End(add, START, schedule))
    ensures var s := End(add, START, schedule);
            && s.globals.Keys == {Requests, Received, Errors}
            && s.globals[Requests] == |s.records|
            && s.globals[Errors] == |Failures(s)|
            && s.globals[Received] == Total(Bodies(s), Same)
  {
    Reachable(add, schedule);
    var s := End(add, START, schedule);
    assert GlobalExact(s, Requests) && GlobalExact(s, Errors) && GlobalExact(s, Received);
    WeighsGlobally(s);
  }

  lemma WeighsGlobally(s: State)
    requires AllOver(s)
    ensures Total(s.records, GlobalWeight(Requests)) == |s.records|
    ensures Total(s.records, GlobalWeight(Errors)) == |Failures(s)|
    ensures Total(s.records, GlobalWeight(Received)) == Total(Bodies(s), Same)
  {
    TotalCounts(s.records, GlobalWeight(Requests));
    assert Ones(s.records, GlobalWeight(Requests)) == s.records.Keys;
    TotalCounts(s.records, GlobalWeight(Errors));
    assert Ones(s.records, GlobalWeight(Errors)) == Failures(s);
    TotalAcross(s.records, GlobalWeight(Received), Bodies(s), Same);
    TotalAcross(Bodies(s), Same, s.records, GlobalWeight(Received));
  }

  /** The histogram of a host is then cumulative. */
  lemma BucketsAscendWhenIdle(add: Adder, schedule: seq<Action>, h: Host, i: nat, j: nat)
    requires IsRun(add, START, schedule) && h in End(add, START, schedule).hosts && i <= j < BUCKETS
    requires AllOver(End(add, START, schedule))
    ensures var m := End(add, START, schedule).hosts[h];
            m.Valid() && m.counts[i] <= m.counts[j] <= m.requests
  {
    NeverAheadOfRequests(add, schedule, h, j);
    BucketAtMostLater(add, schedule, h, i, j);
    var s := End(add, START, schedule);
    assert InFlightOn(s, h) == {};
  }

  /** The hosts together then show exactly the global counters. */
  lemma HostsMatchGlobalWhenIdle(add: Adder, schedule: seq<Action>, t: Tally)
    requires IsRun(add, START, schedule) && t.Valid() && t.HasTwin()
    requires AllOver(End(add, START, schedule))
    ensures t in End(add, START, schedule).globals
    ensures Total(End(add, START, schedule).hosts, Reading(t)) == End(add, START, schedule).globals[t]
  {
    Reachable(add, schedule);
    var s := End(add, START, schedule);
    assert SumsExact(s, t) && GlobalExact(s, t);
    OverIsCountedTwice(s, t);
  }

  /** A record that is over was counted globally and by its host. */
  lemma OverIsCountedTwice(s: State, t: Tally)
    requires AllOver(s) && t.Valid() && t.HasTwin()
    ensures Total(s.records, AnyHostWeight(t)) == Total(s.records, GlobalWeight(t))
  {
    TotalBelow(s.records, AnyHostWeight(t), GlobalWeight(t));
    TotalBelow(s.records, GlobalWeight(t), AnyHostWeight(t));
  }

  // ----- The lock-free sum -----

  /** At any moment the sum of a host is the fold, in the order of the successful exchanges, of the durations of
      exactly the finished records of that host: none lost, none applied twice. */
  lemma SumLosesNothing(add: Adder, schedule: seq<Action>, h: Host)
    requires IsRun(add, START, schedule) && h in End(add, START, schedule).hosts
    ensures var s := End(add, START, schedule);
            var added := s.hosts[h].added;
            && s.hosts[h].sum == Summed(add, added)
            && (forall i, j :: 0 <= i < j < |added| ==> added[i].0 != added[j].0)
            && (forall i :: 0 <= i < |added| ==>
                  added[i].0 in s.records && added[i].1 == s.records[added[i].0].sample.elapsed)
            && (set i | 0 <= i < |added| :: added[i].0) ==
               (set r | r in s.records && s.records[r].sample.host == h && s.records[r].pc == OVER)
  {
    Reachable(add, schedule);
    SumExactly(add, End(add, START, schedule), h);
  }

  lemma SumExactly(add: Adder, s: State, h: Host)
    requires h in s.hosts && SumExact(add, s, h)
    ensures var added := s.hosts[h].added;
            && s.hosts[h].sum == Summed(add, added)
            && (forall i, j :: 0 <= i < j < |added| ==> added[i].0 != added[j].0)
            && (forall i :: 0 <= i < |added| ==>
                  added[i].0 in s.records && added[i].1 == s.records[added[i].0].sample.elapsed)
            && (set i | 0 <= i < |added| :: added[i].0) ==
               (set r | r in s.records && s.records[r].sample.host == h && s.records[r].pc == OVER)
  {
    var added := s.hosts[h].added;
    forall i | 0 <= i < |added|
      ensures AddedBy(s, h, added[i])
    {
    }
    forall r | r in s.records && s.records[r].sample.host == h && s.records[r].pc == OVER
      ensures r in (set i | 0 <= i < |added| :: added[i].0)
    {
      assert AddedOnce(s, h, r);
    }
  }

  // ----- The exporter -----

  function InFlightOn(s: State, h: Host): set<Id> {
    set r | r in s.records && s.records[r].sample.host == h && s.records[r].pc < OVER
  }

  lemma BucketsApart(s: State, h: Host, i: nat, j: nat)
    requires i <= j < BUCKETS
    ensures Total(s.records, HostWeight(h, Bucket(i))) <=
            Total(s.records, HostWeight(h, Bucket(j))) + |InFlightOn(s, h)|
  {
    BoundsAscend(i, j);
    var flying := (x: Record) => if x.sample.host == h && x.pc < OVER then 1 else 0 as nat;
    TotalBelowSum(s.records, HostWeight(h, Bucket(i)), HostWeight(h, Bucket(j)), flying);
    TotalCounts(s.records, flying);
    assert Ones(s.records, flying) == InFlightOn(s, h);
  }

  lemma CountsApart(s: State, h: Host, i: nat, j: nat)
    requires WellFormed(s) && Exact(s) && h in s.hosts && i <= j < BUCKETS
    ensures s.hosts[h].counts[i] <= s.hosts[h].counts[j] + |InFlightOn(s, h)|
  {
    assert HostExact(s, h, Bucket(i)) && HostExact(s, h, Bucket(j));
    assert s.hosts[h].Read(Bucket(i)) == s.hosts[h].counts[i] && s.hosts[h].Read(Bucket(j)) == s.hosts[h].counts[j];
    BucketsApart(s, h, i, j);
  }

  /** At any moment a bucket exceeds a later one by at most the records in flight. */
  lemma BucketAtMostLater(add: Adder, schedule: seq<Action>, h: Host, i: nat, j: nat)
    requires IsRun(add, START, schedule) && h in End(add, START, schedule).hosts && i <= j < BUCKETS
    ensures var s := End(add, START, schedule);
            s.hosts[h].Valid() && s.hosts[h].counts[i] <= s.hosts[h].counts[j] + |InFlightOn(s, h)|
  {
    Reachable(add, schedule);
    CountsApart(End(add, START, schedule), h, i, j);
  }

  /** The printed `+Inf` of a host is at least each of its printed buckets. */
  lemma InfCoversBuckets(add: Adder, schedule: seq<Action>, i: nat)
    requires IsRun(add, START, schedule) && i < BUCKETS
    requires var e := End(add, START, schedule).exporter; e.Printing? && |e.printed| == BUCKETS + 1
    ensures var e := End(add, START, schedule).exporter; e.printed[i] <= e.printed[BUCKETS]
  {
    Reachable(add, schedule);
  }

  /** A bucket about to be printed falls short of one printed before it by at most the records in flight just then. */
  lemma InversionsAreInFlight(add: Adder, schedule: seq<Action>, i: nat)
    requires IsRun(add, START, schedule)
    requires var e := End(add, START, schedule).exporter; e.Printing? && i < |e.printed| < BUCKETS
    ensures var s := End(add, START, schedule);
            && WellFormed(s) && Enabled(s, Print)
            && var printed := Step(add, s, Print).exporter.printed;
               var last := |printed| - 1;
               printed[i] <= printed[last] + |InFlightOn(s, s.exporter.host)|
  {
    Reachable(add, schedule);
    var s := End(add, START, schedule);
    BucketAtMostLater(add, schedule, s.exporter.host, i, |s.exporter.printed|);
  }

  // ----- The exported totals -----

  /** The records that incremented the global requests after the exporter had read them. */
  function CountedSince(s: State): set<Id> {
    Counted(s) - s.page.counted
  }

  /** The printed hosts together exceed the printed total by at most the records counted since it was read. */
  lemma PrintedHostsNearTotal(add: Adder, schedule: seq<Action>)
    requires IsRun(add, START, schedule)
    ensures var s := End(add, START, schedule);
            Total(s.page.lines, Same) <= s.page.total + |CountedSince(s)|
  {
    Reachable(add, schedule);
    var s := End(add, START, schedule);
    forall h | h in s.page.lines
      ensures h in s.hosts && Same(s.page.lines[h]) <= Reading(Requests)(s.hosts[h])
    {
      assert LineBelow(s, h);
    }
    TotalAcross(s.page.lines, Same, s.hosts, Reading(Requests));
    HostsCountTheRest(s);
    Subset(s.page.counted, Counted(s));
  }

  /** When every host is printed, they fall short of it by at most the records that were between the two increments
      when it was read. */
  lemma PrintedTotalNearHosts(add: Adder, schedule: seq<Action>)
    requires IsRun(add, START, schedule) && Enabled(End(add, START, schedule), Unlock)
    ensures var s := End(add, START, schedule);
            s.page.total <= Total(s.page.lines, Same) + |s.page.behind|
  {
    Reachable(add, schedule);
    var s := End(add, START, schedule);
    forall h | h in s.page.floor
      ensures h in s.page.lines && Same(s.page.floor[h]) <= Same(s.page.lines[h])
    {
      assert FloorBelow(s, h);
    }
    TotalAcross(s.page.floor, Same, s.page.lines, Same);
  }

  /** The errors, read after the total, exceed it by at most the records counted since. */
  lemma PrintedErrorsNearTotal(add: Adder, schedule: seq<Action>)
    requires IsRun(add, START, schedule)
    ensures var s := End(add, START, schedule); s.page.errors <= s.page.total + |CountedSince(s)|
  {
    Reachable(add, schedule);
    var s := End(add, START, schedule);
    Subset(s.page.counted, Counted(s));
  }

  // ----- An export while no recorder moves -----

  predicate IsExporters(a: Action) {
    !a.Begin? && !a.Advance? && !a.Exchange?
  }

  /** What has been printed is what the counters show. */
  predicate PageExact(s: State)
    requires WellFormed(s)
  {
    && s.page.total == s.globals[Requests]
    && (s.exporter != TotalRead ==> s.page.errors == s.globals[Errors])
    && (forall h :: h in s.page.lines ==> h in s.hosts && s.page.lines[h] == s.hosts[h].requests)
    && (s.exporter.Printing? ==> forall i :: 0 <= i < |s.exporter.printed| ==>
          s.exporter.printed[i] ==
          if i < BUCKETS then s.hosts[s.exporter.host].counts[i] else s.hosts[s.exporter.host].requests)
  }

  lemma {:induction false} ExportKeepsExact(add: Adder, s: State, actions: seq<Action>)
    requires IsRun(add, s, actions) && PageExact(s) && forall i :: 0 <= i < |actions| ==> IsExporters(actions[i])
    ensures WellFormed(End(add, s, actions)) && PageExact(End(add, s, actions))
    ensures End(add, s, actions).hosts == s.hosts && End(add, s, actions).globals == s.globals
    decreases |actions|
  {
    if actions != [] {
      StepWellFormed(add, s, actions[0]);
      ExporterStepExact(add, s, actions[0]);
      ExportKeepsExact(add, Step(add, s, actions[0]), actions[1..]);
    }
  }

  lemma ExporterStepExact(add: Adder, s: State, a: Action)
    requires WellFormed(s) && Enabled(s, a) && IsExporters(a) && WellFormed(Step(add, s, a))
    requires PageExact(s) || a.ReadTotal?
    ensures PageExact(Step(add, s, a))
    ensures Step(add, s, a).hosts == s.hosts && Step(add, s, a).globals == s.globals
  {
  }

  /** An export during which no recorder moves prints exactly the counters. */
  lemma QuietExportIsExact(add: Adder, schedule: seq<Action>, actions: seq<Action>)
    requires IsRun(add, START, schedule) && IsRun(add, End(add, START, schedule), [ReadTotal] + actions)
    requires forall i :: 0 <= i < |actions| ==> IsExporters(actions[i])
    ensures var t := End(add, End(add, START, schedule), [ReadTotal] + actions);
            && WellFormed(t) && PageExact(t)
            && t.hosts == End(add, START, schedule).hosts && t.globals == End(add, START, schedule).globals
  {
    Reachable(add, schedule);
    var s := End(add, START, schedule);
    assert ([ReadTotal] + actions)[1..] == actions;
    StepWellFormed(add, s, ReadTotal);
    ExporterStepExact(add, s, ReadTotal);
    ExportKeepsExact(add, Step(add, s, ReadTotal), actions);
  }
}
