/** The lock-free counters of `src/metrics.rs`: any number of concurrent recorders and one exporter.

    Durations are reals with their order. Adding one to the sum of a host is an arbitrary function `add` on the bits
    of the sum, since the addition of floats is neither associative nor commutative over long sums. */
module Metrics {
  import opened Totals

  type Id = nat
  type Host = string

  /** What one CAS step computes from the loaded bits and a duration. */
  type Adder = (nat, real) -> nat

  const BUCKETS := 10
  const BOUNDS: seq<real> := [0.01, 0.025, 0.05, 0.1, 0.25, 0.5, 1.0, 2.5, 5.0, 10.0]

  datatype Sample = Sample(host: Host, elapsed: real, body: nat, isError: bool)

  /** One counter of a host. The first three have a global twin. */
  datatype Tally = Requests | Received | Errors | Bucket(i: nat) {
    predicate Valid() {
      Bucket? ==> i < BUCKETS
    }

    predicate HasTwin() {
      !Bucket?
    }
  }

  function Amount(t: Tally, x: Sample): nat
    requires t.Valid()
  {
    match t
    case Requests => 1
    case Received => x.body
    case Errors => if x.isError then 1 else 0
    case Bucket(i) => if x.elapsed <= BOUNDS[i] then 1 else 0
  }

  /** `added` remembers who added to `sum`, in the order of the successful exchanges. */
  datatype HostMetrics = HostMetrics(
    requests: nat, errors: nat, received: nat, counts: seq<nat>, sum: nat, added: seq<(Id, real)>)
  {
    predicate Valid() {
      |counts| == BUCKETS
    }

    function Read(t: Tally): nat
      requires Valid() && t.Valid()
    {
      match t
      case Requests => requests
      case Received => received
      case Errors => errors
      case Bucket(i) => counts[i]
    }

    function Plus(t: Tally, n: nat): (m: HostMetrics)
      requires Valid() && t.Valid()
      ensures m.Valid() && m.sum == sum && m.added == added
      ensures forall u: Tally :: u.Valid() ==> m.Read(u) == Read(u) + (if u == t then n else 0)
    {
      match t
      case Requests => this.(requests := requests + n)
      case Received => this.(received := received + n)
      case Errors => this.(errors := errors + n)
      case Bucket(i) => this.(counts := counts[i := counts[i] + n])
    }
  }

  const NO_METRICS := HostMetrics(0, 0, 0, [0, 0, 0, 0, 0, 0, 0, 0, 0, 0], 0, [])

  // ----- The program of a recorder -----

  /** The program points of `record`: the global counters, the host lookup, the counters of the host, the buckets
      one by one, then the load and the exchange of the sum. */
  const LOOKUP := 3
  const LOAD := 17
  const EXCHANGE := 18
  const OVER := 19

  function GlobalPoint(t: Tally): nat
    requires t.HasTwin()
  {
    match t
    case Requests => 0
    case Received => 1
    case Errors => 2
  }

  function HostPoint(t: Tally): nat {
    match t
    case Requests => 4
    case Received => 5
    case Errors => 6
    case Bucket(i) => 7 + i
  }

  function TallyAt(pc: nat): (t: Tally)
    requires pc < LOAD && pc != LOOKUP
    ensures t.Valid()
    ensures pc < LOOKUP ==> t.HasTwin() && GlobalPoint(t) == pc
    ensures pc > LOOKUP ==> HostPoint(t) == pc
  {
    if pc == 0 || pc == 4 then Requests
    else if pc == 1 || pc == 5 then Received
    else if pc == 2 || pc == 6 then Errors
    else Bucket(pc - 7)
  }

  /** `loaded` is what the last load of the sum returned. */
  datatype Record = Record(sample: Sample, pc: nat, loaded: nat) {
    function Next(): Record {
      this.(pc := pc + 1)
    }
  }

  /** The exporter reads the global counters, then holds the lock of the host map while it prints the hosts.
      `printed` are the numbers printed for `host`. */
  datatype Exporter = Idle | TotalRead | ErrorsRead | Locked | Printing(host: Host, printed: seq<nat>)
  {
    predicate HoldsLock() {
      Locked? || Printing?
    }

    /** Between two hosts, or before the first or after the last. */
    predicate HostDone() {
      Locked? || (Printing? && |printed| == BUCKETS + 1)
    }
  }

  /** What one export has printed: the global requests and errors, and in `lines` the requests of each host. The rest
      is how things stood when the total was read: the records counted in it, those of them not yet counted by their
      host, and the requests of each host. */
  datatype Page = Page(
    total: nat, errors: nat, lines: map<Host, nat>, counted: set<Id>, behind: set<Id>, floor: map<Host, nat>)

  datatype State = State(
    globals: map<Tally, nat>, hosts: map<Host, HostMetrics>, records: map<Id, Record>, exporter: Exporter,
    page: Page)

  const START := State(
    map[Requests := 0, Received := 0, Errors := 0], map[], map[], Idle, Page(0, 0, map[], {}, {}, map[]))

  datatype Action =
    | Begin(r: Id, sample: Sample)
    | Advance(r: Id)
    | Exchange(r: Id, spurious: bool)
    | ReadTotal
    | ReadErrors
    | Lock
    | Visit(h: Host)
    | Print
    | Unlock

  predicate WellFormed(s: State) {
    && s.globals.Keys == {Requests, Received, Errors}
    && (forall h :: h in s.hosts ==> s.hosts[h].Valid())
    && (forall r :: r in s.records ==> s.records[r].pc <= OVER)
    && (forall r :: r in s.records && s.records[r].pc > LOOKUP ==> s.records[r].sample.host in s.hosts)
    && (s.exporter.Printing? ==> s.exporter.host in s.hosts && |s.exporter.printed| <= BUCKETS + 1)
  }

  predicate Enabled(s: State, a: Action) {
    match a
    case Begin(r, _) => r !in s.records
    case Advance(r) =>
      r in s.records && s.records[r].pc < EXCHANGE && (s.records[r].pc == LOOKUP ==> !s.exporter.HoldsLock())
    case Exchange(r, _) => r in s.records && s.records[r].pc == EXCHANGE
    case ReadTotal => s.exporter == Idle
    case ReadErrors => s.exporter == TotalRead
    case Lock => s.exporter == ErrorsRead
    case Visit(h) => s.exporter.HostDone() && h in s.hosts && h !in s.page.lines
    case Print => s.exporter.Printing? && |s.exporter.printed| <= BUCKETS
    case Unlock => s.exporter.HostDone() && s.page.lines.Keys == s.hosts.Keys
  }

  /** One `fetch_add`, the host lookup, or the load of the sum. */
  function Advanced(s: State, r: Id): State
    requires WellFormed(s) && Enabled(s, Advance(r))
  {
    var x := s.records[r];
    var h := x.sample.host;
    var moved := s.(records := s.records[r := x.Next()]);
    if x.pc < LOOKUP then
      var t := TallyAt(x.pc);
      moved.(globals := s.globals[t := s.globals[t] + Amount(t, x.sample)])
    else if x.pc == LOOKUP then
      if h in s.hosts then moved else moved.(hosts := s.hosts[h := NO_METRICS])
    else if x.pc < LOAD then
      var t := TallyAt(x.pc);
      moved.(hosts := s.hosts[h := s.hosts[h].Plus(t, Amount(t, x.sample))])
    else
      s.(records := s.records[r := x.Next().(loaded := s.hosts[h].sum)])
  }

  /** `compare_exchange_weak` may fail without a reason; any failure goes back to the load. */
  function Exchanged(add: Adder, s: State, r: Id, spurious: bool): State
    requires WellFormed(s) && Enabled(s, Exchange(r, spurious))
  {
    var x := s.records[r];
    var h := x.sample.host;
    var m := s.hosts[h];
    if m.sum == x.loaded && !spurious then
      s.(records := s.records[r := x.Next()],
         hosts := s.hosts[h := m.(sum := add(x.loaded, x.sample.elapsed), added := m.added + [(r, x.sample.elapsed)])])
    else
      s.(records := s.records[r := x.(pc := LOAD)])
  }

  /** The records that have incremented the global requests. */
  function Counted(s: State): set<Id> {
    set r | r in s.records && s.records[r].pc > GlobalPoint(Requests)
  }

  /** Those that have not incremented the requests of their host. */
  function Behind(s: State): set<Id> {
    set r | r in s.records && GlobalPoint(Requests) < s.records[r].pc <= HostPoint(Requests)
  }

  function RequestsOfHosts(s: State): map<Host, nat> {
    map h | h in s.hosts :: s.hosts[h].requests
  }

  function TotalLoaded(s: State): State
    requires WellFormed(s)
  {
    s.(exporter := TotalRead,
       page := Page(s.globals[Requests], 0, map[], Counted(s), Behind(s), RequestsOfHosts(s)))
  }

  /** For each host the exporter reads the buckets in order, then the requests, which it prints as `+Inf`. */
  function Printed(s: State): State
    requires WellFormed(s) && Enabled(s, Print)
  {
    var n := |s.exporter.printed|;
    var h := s.exporter.host;
    var m := s.hosts[h];
    if n < BUCKETS then
      s.(exporter := Printing(h, s.exporter.printed + [m.counts[n]]))
    else
      s.(exporter := Printing(h, s.exporter.printed + [m.requests]),
         page := s.page.(lines := s.page.lines[h := m.requests]))
  }

  function Step(add: Adder, s: State, a: Action): State
    requires WellFormed(s) && Enabled(s, a)
  {
    match a
    case Begin(r, sample) => s.(records := s.records[r := Record(sample, 0, 0)])
    case Advance(r) => Advanced(s, r)
    case Exchange(r, spurious) => Exchanged(add, s, r, spurious)
    case ReadTotal => TotalLoaded(s)
    case ReadErrors => s.(exporter := ErrorsRead, page := s.page.(errors := s.globals[Errors]))
    case Lock => s.(exporter := Locked)
    case Visit(h) => s.(exporter := Printing(h, []))
    case Print => Printed(s)
    case Unlock => s.(exporter := Idle)
  }

  // ----- The invariant -----

  function GlobalWeight(t: Tally): Record -> nat
    requires t.Valid() && t.HasTwin()
  {
    (x: Record) => if x.pc > GlobalPoint(t) then Amount(t, x.sample) else 0
  }

  function HostWeight(h: Host, t: Tally): Record -> nat
    requires t.Valid()
  {
    (x: Record) => if x.sample.host == h && x.pc > HostPoint(t) then Amount(t, x.sample) else 0
  }

  /** What any host has counted of a record. */
  function AnyHostWeight(t: Tally): Record -> nat
    requires t.Valid()
  {
    (x: Record) => if x.pc > HostPoint(t) then Amount(t, x.sample) else 0
  }

  function Reading(t: Tally): HostMetrics -> nat
    requires t.Valid()
  {
    (m: HostMetrics) => if m.Valid() then m.Read(t) else 0
  }

  /** Every counter is the total of what the recorders past its increment contributed. */
  ghost predicate GlobalExact(s: State, t: Tally)
    requires WellFormed(s) && t.Valid() && t.HasTwin()
  {
    s.globals[t] == Total(s.records, GlobalWeight(t))
  }

  ghost predicate HostExact(s: State, h: Host, t: Tally)
    requires WellFormed(s) && h in s.hosts && t.Valid()
  {
    s.hosts[h].Read(t) == Total(s.records, HostWeight(h, t))
  }

  ghost predicate SumsExact(s: State, t: Tally)
    requires t.Valid()
  {
    Total(s.hosts, Reading(t)) == Total(s.records, AnyHostWeight(t))
  }

  ghost predicate Exact(s: State)
    requires WellFormed(s)
  {
    && (forall t: Tally :: t.Valid() && t.HasTwin() ==> GlobalExact(s, t))
    && (forall h, t: Tally :: h in s.hosts && t.Valid() ==> HostExact(s, h, t))
    && (forall t: Tally :: t.Valid() ==> SumsExact(s, t))
  }

  /** The bits after adding the durations in order, starting from 0.0. */
  function Summed(add: Adder, added: seq<(Id, real)>): nat {
    if added == [] then 0 else add(Summed(add, added[..|added| - 1]), added[|added| - 1].1)
  }

  /** The entry `e` is the one addition of a record of `h` that is over. */
  predicate AddedBy(s: State, h: Host, e: (Id, real)) {
    && e.0 in s.records && s.records[e.0].pc == OVER
    && s.records[e.0].sample.host == h && s.records[e.0].sample.elapsed == e.1
  }

  ghost predicate AddedOnce(s: State, h: Host, r: Id)
    requires h in s.hosts
  {
    exists i :: 0 <= i < |s.hosts[h].added| && s.hosts[h].added[i].0 == r
  }

  /** The sum is the fold of exactly the durations of the records that are over, each once. */
  ghost predicate SumExact(add: Adder, s: State, h: Host)
    requires h in s.hosts
  {
    var added := s.hosts[h].added;
    && s.hosts[h].sum == Summed(add, added)
    && (forall i :: 0 <= i < |added| ==> AddedBy(s, h, added[i]))
    && (forall i, j :: 0 <= i < j < |added| ==> added[i].0 != added[j].0)
    && (forall r :: r in s.records && s.records[r].pc == OVER && s.records[r].sample.host == h ==> AddedOnce(s, h, r))
  }

  /** What was printed of a bucket is not above it now, and the printed `+Inf` is not below any printed bucket. */
  predicate PrintedBelow(s: State)
    requires WellFormed(s)
  {
    s.exporter.Printing? ==>
      var printed := s.exporter.printed;
      && (forall i :: 0 <= i < |printed| && i < BUCKETS ==> printed[i] <= s.hosts[s.exporter.host].counts[i])
      && (|printed| == BUCKETS + 1 ==> forall i :: 0 <= i < BUCKETS ==> printed[i] <= printed[BUCKETS])
  }

  function Same(n: nat): nat {
    n
  }

  /** What was printed, and what the page remembers, is not above how things stand now. */
  ghost predicate PageBelow(s: State) {
    && s.page.counted <= Counted(s)
    && s.page.total == |s.page.counted| == Total(s.page.floor, Same) + |s.page.behind|
    && s.page.errors <= |Counted(s)|
    && (forall h :: h in s.page.lines ==> LineBelow(s, h))
    && (forall h :: h in s.page.floor ==> FloorBelow(s, h))
  }

  predicate LineBelow(s: State, h: Host)
    requires h in s.page.lines
  {
    h in s.hosts && s.page.lines[h] <= s.hosts[h].requests
  }

  predicate FloorBelow(s: State, h: Host)
    requires h in s.page.floor
  {
    && h in s.hosts && s.page.floor[h] <= s.hosts[h].requests
    && (h in s.page.lines ==> s.page.floor[h] <= s.page.lines[h])
  }

  ghost predicate Inv(add: Adder, s: State) {
    && WellFormed(s)
    && Exact(s)
    && (forall h :: h in s.hosts ==> SumExact(add, s, h))
    && PrintedBelow(s)
    && PageBelow(s)
  }

  // ----- One step keeps it -----

  predicate Touches(x: Record, t: Tally, h: Host)
    requires t.Valid()
  {
    x.pc == HostPoint(t) && x.sample.host == h
  }

  /** `y` is the record `x` one step on, or back from a failed exchange. */
  predicate Moves(x: Record, y: Record) {
    y.sample == x.sample && (y.pc == x.pc + 1 || (x.pc >= LOAD && y.pc >= LOAD))
  }

  lemma MoveWeighs(records: map<Id, Record>, r: Id, y: Record, h: Host, t: Tally)
    requires r in records && t.Valid() && Moves(records[r], y)
    ensures Total(records[r := y], HostWeight(h, t)) ==
            Total(records, HostWeight(h, t)) + (if Touches(records[r], t, h) then Amount(t, y.sample) else 0)
    ensures Total(records[r := y], AnyHostWeight(t)) ==
            Total(records, AnyHostWeight(t)) + (if records[r].pc == HostPoint(t) then Amount(t, y.sample) else 0)
  {
    TotalUpdate(records, r, y, HostWeight(h, t));
    TotalUpdate(records, r, y, AnyHostWeight(t));
  }

  lemma MoveWeighsGlobally(records: map<Id, Record>, r: Id, y: Record, t: Tally)
    requires r in records && t.Valid() && t.HasTwin() && Moves(records[r], y)
    ensures Total(records[r := y], GlobalWeight(t)) ==
            Total(records, GlobalWeight(t)) + (if records[r].pc == GlobalPoint(t) then Amount(t, y.sample) else 0)
  {
    TotalUpdate(records, r, y, GlobalWeight(t));
  }

  lemma BeginWeighs(s: State, r: Id, sample: Sample, h: Host, t: Tally)
    requires r !in s.records && t.Valid()
    ensures var records := s.records[r := Record(sample, 0, 0)];
            && Total(records, HostWeight(h, t)) == Total(s.records, HostWeight(h, t))
            && Total(records, AnyHostWeight(t)) == Total(s.records, AnyHostWeight(t))
            && (t.HasTwin() ==> Total(records, GlobalWeight(t)) == Total(s.records, GlobalWeight(t)))
  {
    TotalInsert(s.records, r, Record(sample, 0, 0), HostWeight(h, t));
    TotalInsert(s.records, r, Record(sample, 0, 0), AnyHostWeight(t));
    if t.HasTwin() {
      TotalInsert(s.records, r, Record(sample, 0, 0), GlobalWeight(t));
    }
  }

  lemma StepWellFormed(add: Adder, s: State, a: Action)
    requires WellFormed(s) && Enabled(s, a)
    ensures WellFormed(Step(add, s, a))
  {
    match a
    case Begin(_, _) =>
    case Advance(r) => AdvancedWellFormed(s, r);
    case Exchange(r, spurious) => ExchangedWellFormed(add, s, r, spurious);
    case _ =>
      assert Step(add, s, a).globals == s.globals && Step(add, s, a).hosts == s.hosts;
      assert Step(add, s, a).records == s.records;
  }

  lemma AdvancedWellFormed(s: State, r: Id)
    requires WellFormed(s) && Enabled(s, Advance(r))
    ensures WellFormed(Advanced(s, r))
  {
  }

  lemma ExchangedWellFormed(add: Adder, s: State, r: Id, spurious: bool)
    requires WellFormed(s) && Enabled(s, Exchange(r, spurious))
    ensures WellFormed(Exchanged(add, s, r, spurious))
  {
  }

  lemma BeginExact(add: Adder, s: State, r: Id, sample: Sample)
    requires WellFormed(s) && Exact(s) && Enabled(s, Begin(r, sample))
    ensures WellFormed(Step(add, s, Begin(r, sample))) && Exact(Step(add, s, Begin(r, sample)))
  {
    var t := Step(add, s, Begin(r, sample));
    forall h, u: Tally | h in t.hosts && u.Valid()
      ensures HostExact(t, h, u)
    {
      assert HostExact(s, h, u);
      BeginWeighs(s, r, sample, h, u);
    }
    forall u: Tally | u.Valid()
      ensures SumsExact(t, u) && (u.HasTwin() ==> GlobalExact(t, u))
    {
      assert SumsExact(s, u) && (u.HasTwin() ==> GlobalExact(s, u));
      BeginWeighs(s, r, sample, sample.host, u);
    }
  }

  /** No one has counted a record of a host that was never looked up. */
  lemma UnknownHostUncounted(s: State, h: Host, t: Tally)
    requires WellFormed(s) && h !in s.hosts && t.Valid()
    ensures Total(s.records, HostWeight(h, t)) == 0
  {
    TotalZero(s.records, HostWeight(h, t));
  }

  lemma TallyAtPoint(pc: nat, t: Tally)
    requires LOOKUP < pc < LOAD && t.Valid()
    ensures HostPoint(t) == pc <==> t == TallyAt(pc)
  {
  }

  /** An advance moves one record, and what a host reads grows by what it counted of that record. */
  lemma AdvancedReads(s: State, r: Id, h: Host, t: Tally)
    requires WellFormed(s) && Enabled(s, Advance(r)) && t.Valid() && WellFormed(Advanced(s, r))
    ensures Advanced(s, r).records == s.records[r := Advanced(s, r).records[r]]
    ensures Moves(s.records[r], Advanced(s, r).records[r])
    ensures h in s.hosts ==>
              && h in Advanced(s, r).hosts
              && Advanced(s, r).hosts[h].Read(t) ==
                 s.hosts[h].Read(t) + if Touches(s.records[r], t, h) then Amount(t, s.records[r].sample) else 0
    ensures h !in s.hosts && h in Advanced(s, r).hosts ==>
              Advanced(s, r).hosts[h].Read(t) == 0 && s.records[r].pc == LOOKUP
  {
    var x := s.records[r];
    if LOOKUP < x.pc < LOAD {
      TallyAtPoint(x.pc, t);
    }
  }

  lemma AdvancedHostExact(s: State, r: Id, h: Host, t: Tally)
    requires WellFormed(s) && Exact(s) && Enabled(s, Advance(r)) && t.Valid()
    requires WellFormed(Advanced(s, r)) && h in Advanced(s, r).hosts
    ensures HostExact(Advanced(s, r), h, t)
  {
    AdvancedReads(s, r, h, t);
    MoveWeighs(s.records, r, Advanced(s, r).records[r], h, t);
    if h in s.hosts {
      assert HostExact(s, h, t);
    } else {
      UnknownHostUncounted(s, h, t);
    }
  }

  /** An advance changes the host of its record and no other. */
  lemma AdvancedHosts(s: State, r: Id)
    requires WellFormed(s) && Enabled(s, Advance(r))
    ensures var h := s.records[r].sample.host;
            || Advanced(s, r).hosts == s.hosts
            || (h !in s.hosts && s.records[r].pc == LOOKUP && Advanced(s, r).hosts == s.hosts[h := NO_METRICS])
            || (h in s.hosts && LOOKUP < s.records[r].pc < LOAD
                && Advanced(s, r).hosts == s.hosts[h := Advanced(s, r).hosts[h]])
    ensures Advanced(s, r).hosts == s.hosts ==> s.records[r].pc <= LOOKUP || s.records[r].pc >= LOAD
                                                || Amount(TallyAt(s.records[r].pc), s.records[r].sample) == 0
  {
    var x := s.records[r];
    if LOOKUP < x.pc < LOAD {
      var h, t := x.sample.host, TallyAt(x.pc);
      assert s.hosts[h].Plus(t, Amount(t, x.sample)).Read(t) == s.hosts[h].Read(t) + Amount(t, x.sample);
    }
  }

  /** What the hosts read together grows by what was counted of the record. */
  lemma AdvancedHostsTotal(s: State, r: Id, t: Tally)
    requires WellFormed(s) && Enabled(s, Advance(r)) && t.Valid() && WellFormed(Advanced(s, r))
    ensures Total(Advanced(s, r).hosts, Reading(t)) ==
            Total(s.hosts, Reading(t)) + if s.records[r].pc == HostPoint(t) then Amount(t, s.records[r].sample) else 0
  {
    var h := s.records[r].sample.host;
    AdvancedReads(s, r, h, t);
    AdvancedHosts(s, r);
    if h in s.hosts {
      TotalUpdate(s.hosts, h, Advanced(s, r).hosts[h], Reading(t));
      assert s.hosts[h := s.hosts[h]] == s.hosts;
    } else {
      TotalInsert(s.hosts, h, NO_METRICS, Reading(t));
    }
  }

  lemma AdvancedSumsExact(s: State, r: Id, t: Tally)
    requires WellFormed(s) && Exact(s) && Enabled(s, Advance(r)) && t.Valid()
    requires WellFormed(Advanced(s, r))
    ensures SumsExact(Advanced(s, r), t)
  {
    assert SumsExact(s, t);
    AdvancedReads(s, r, s.records[r].sample.host, t);
    AdvancedHostsTotal(s, r, t);
    MoveWeighs(s.records, r, Advanced(s, r).records[r], s.records[r].sample.host, t);
  }

  lemma AdvancedGlobals(s: State, r: Id, t: Tally)
    requires WellFormed(s) && Enabled(s, Advance(r)) && t.Valid() && t.HasTwin() && WellFormed(Advanced(s, r))
    ensures Advanced(s, r).records == s.records[r := Advanced(s, r).records[r]]
    ensures Moves(s.records[r], Advanced(s, r).records[r])
    ensures Advanced(s, r).globals[t] ==
            s.globals[t] + if s.records[r].pc == GlobalPoint(t) then Amount(t, s.records[r].sample) else 0
  {
    if s.records[r].pc < LOOKUP {
      GlobalTallyAt(s.records[r].pc, t);
    }
  }

  lemma GlobalTallyAt(pc: nat, t: Tally)
    requires pc < LOOKUP && t.Valid() && t.HasTwin()
    ensures GlobalPoint(t) == pc <==> t == TallyAt(pc)
  {
  }

  lemma AdvancedGlobalExact(s: State, r: Id, t: Tally)
    requires WellFormed(s) && Exact(s) && Enabled(s, Advance(r)) && t.Valid() && t.HasTwin()
    requires WellFormed(Advanced(s, r))
    ensures GlobalExact(Advanced(s, r), t)
  {
    assert GlobalExact(s, t);
    AdvancedGlobals(s, r, t);
    MoveWeighsGlobally(s.records, r, Advanced(s, r).records[r], t);
  }

  lemma AdvanceExact(add: Adder, s: State, r: Id)
    requires WellFormed(s) && Exact(s) && Enabled(s, Advance(r))
    ensures WellFormed(Advanced(s, r)) && Exact(Advanced(s, r))
  {
    StepWellFormed(add, s, Advance(r));
    var t := Advanced(s, r);
    forall h, u: Tally | h in t.hosts && u.Valid()
      ensures HostExact(t, h, u)
    {
      AdvancedHostExact(s, r, h, u);
    }
    forall u: Tally | u.Valid()
      ensures SumsExact(t, u) && (u.HasTwin() ==> GlobalExact(t, u))
    {
      AdvancedSumsExact(s, r, u);
      if u.HasTwin() {
        AdvancedGlobalExact(s, r, u);
      }
    }
  }

  /** An exchange touches no counter. */
  lemma ExchangedReads(add: Adder, s: State, r: Id, spurious: bool)
    requires WellFormed(s) && Enabled(s, Exchange(r, spurious))
    ensures var t := Exchanged(add, s, r, spurious);
            var h := s.records[r].sample.host;
            && t.globals == s.globals
            && t.records == s.records[r := t.records[r]] && Moves(s.records[r], t.records[r])
            && t.hosts == s.hosts[h := t.hosts[h]] && t.hosts[h].Valid()
            && (forall u: Tally :: u.Valid() ==> t.hosts[h].Read(u) == s.hosts[h].Read(u))
  {
    assert s.hosts[s.records[r].sample.host := s.hosts[s.records[r].sample.host]] == s.hosts;
  }

  lemma ExchangedHostExact(add: Adder, s: State, r: Id, spurious: bool, h: Host, u: Tally)
    requires WellFormed(s) && Exact(s) && Enabled(s, Exchange(r, spurious)) && h in s.hosts && u.Valid()
    requires WellFormed(Exchanged(add, s, r, spurious)) && h in Exchanged(add, s, r, spurious).hosts
    ensures HostExact(Exchanged(add, s, r, spurious), h, u)
  {
    ExchangedReads(add, s, r, spurious);
    assert HostExact(s, h, u);
    MoveWeighs(s.records, r, Exchanged(add, s, r, spurious).records[r], h, u);
  }

  lemma ExchangedTotalsExact(add: Adder, s: State, r: Id, spurious: bool, u: Tally)
    requires WellFormed(s) && Exact(s) && Enabled(s, Exchange(r, spurious)) && u.Valid()
    requires WellFormed(Exchanged(add, s, r, spurious))
    ensures SumsExact(Exchanged(add, s, r, spurious), u)
    ensures u.HasTwin() ==> GlobalExact(Exchanged(add, s, r, spurious), u)
  {
    var t := Exchanged(add, s, r, spurious);
    var h := s.records[r].sample.host;
    ExchangedReads(add, s, r, spurious);
    assert SumsExact(s, u) && (u.HasTwin() ==> GlobalExact(s, u));
    MoveWeighs(s.records, r, t.records[r], h, u);
    TotalUpdate(s.hosts, h, t.hosts[h], Reading(u));
    if u.HasTwin() {
      MoveWeighsGlobally(s.records, r, t.records[r], u);
    }
  }

  lemma ExchangeExact(add: Adder, s: State, r: Id, spurious: bool)
    requires WellFormed(s) && Exact(s) && Enabled(s, Exchange(r, spurious))
    ensures var t := Exchanged(add, s, r, spurious); WellFormed(t) && Exact(t)
  {
    StepWellFormed(add, s, Exchange(r, spurious));
    var t := Exchanged(add, s, r, spurious);
    forall h, u: Tally | h in t.hosts && u.Valid()
      ensures HostExact(t, h, u)
    {
      ExchangedHostExact(add, s, r, spurious, h, u);
    }
    forall u: Tally | u.Valid()
      ensures SumsExact(t, u) && (u.HasTwin() ==> GlobalExact(t, u))
    {
      ExchangedTotalsExact(add, s, r, spurious, u);
    }
  }

  lemma StepExact(add: Adder, s: State, a: Action)
    requires WellFormed(s) && Exact(s) && Enabled(s, a)
    ensures WellFormed(Step(add, s, a)) && Exact(Step(add, s, a))
  {
    match a
    case Begin(r, sample) => BeginExact(add, s, r, sample);
    case Advance(r) => AdvanceExact(add, s, r);
    case Exchange(r, spurious) => ExchangeExact(add, s, r, spurious);
    case _ => ExporterExact(add, s, a);
  }

  lemma ExporterExact(add: Adder, s: State, a: Action)
    requires WellFormed(s) && Exact(s) && Enabled(s, a) && !a.Begin? && !a.Advance? && !a.Exchange?
    ensures WellFormed(Step(add, s, a)) && Exact(Step(add, s, a))
  {
    var t := Step(add, s, a);
    assert t.globals == s.globals && t.hosts == s.hosts && t.records == s.records;
    forall h, u: Tally | h in t.hosts && u.Valid()
      ensures HostExact(t, h, u)
    {
      assert HostExact(s, h, u);
    }
    forall u: Tally | u.Valid()
      ensures SumsExact(t, u) && (u.HasTwin() ==> GlobalExact(t, u))
    {
      assert SumsExact(s, u) && (u.HasTwin() ==> GlobalExact(s, u));
    }
  }

  lemma BeginSum(add: Adder, s: State, r: Id, sample: Sample, h: Host)
    requires WellFormed(s) && Enabled(s, Begin(r, sample)) && h in s.hosts && SumExact(add, s, h)
    ensures SumExact(add, Step(add, s, Begin(r, sample)), h)
  {
    var t := Step(add, s, Begin(r, sample));
    forall q | q in t.records && t.records[q].pc == OVER && t.records[q].sample.host == h
      ensures AddedOnce(t, h, q)
    {
      assert AddedOnce(s, h, q);
    }
    forall i | 0 <= i < |t.hosts[h].added|
      ensures AddedBy(t, h, t.hosts[h].added[i])
    {
      assert AddedBy(s, h, s.hosts[h].added[i]);
    }
  }

  lemma AdvancedKeepsSum(s: State, r: Id, h: Host)
    requires WellFormed(s) && Enabled(s, Advance(r)) && WellFormed(Advanced(s, r)) && h in Advanced(s, r).hosts
    ensures h in s.hosts ==>
              && Advanced(s, r).hosts[h].sum == s.hosts[h].sum
              && Advanced(s, r).hosts[h].added == s.hosts[h].added
    ensures h !in s.hosts ==> Advanced(s, r).hosts[h] == NO_METRICS
    ensures Advanced(s, r).records == s.records[r := Advanced(s, r).records[r]]
    ensures Advanced(s, r).records[r].pc < OVER && Advanced(s, r).records[r].sample == s.records[r].sample
  {
  }

  lemma AdvanceSum(add: Adder, s: State, r: Id, h: Host)
    requires WellFormed(s) && Enabled(s, Advance(r)) && WellFormed(Advanced(s, r)) && h in Advanced(s, r).hosts
    requires h in s.hosts ==> SumExact(add, s, h)
    ensures SumExact(add, Advanced(s, r), h)
  {
    var t := Advanced(s, r);
    AdvancedKeepsSum(s, r, h);
    forall q | q in t.records && t.records[q].pc == OVER && t.records[q].sample.host == h
      ensures AddedOnce(t, h, q)
    {
      assert s.records[q] == t.records[q];
      assert AddedOnce(s, h, q);
    }
    forall i | 0 <= i < |t.hosts[h].added|
      ensures AddedBy(t, h, t.hosts[h].added[i])
    {
      assert AddedBy(s, h, s.hosts[h].added[i]);
    }
  }

  /** What an exchange does to the host and its record. */
  lemma ExchangeCases(add: Adder, s: State, r: Id, spurious: bool)
    requires WellFormed(s) && Enabled(s, Exchange(r, spurious))
    ensures var t := Exchanged(add, s, r, spurious);
            var x := s.records[r];
            var h := x.sample.host;
            var m := s.hosts[h];
            && t.records == s.records[r := t.records[r]] && t.records[r].sample == x.sample
            && t.hosts == s.hosts[h := t.hosts[h]]
            && (if t.records[r].pc == OVER then
                  && t.hosts[h].sum == add(m.sum, x.sample.elapsed)
                  && t.hosts[h].added == m.added + [(r, x.sample.elapsed)]
                else t.hosts[h].sum == m.sum && t.hosts[h].added == m.added)
  {
    assert s.hosts[s.records[r].sample.host := s.hosts[s.records[r].sample.host]] == s.hosts;
  }

  lemma ExchangeAdds(add: Adder, s: State, r: Id, spurious: bool, h: Host)
    requires WellFormed(s) && Enabled(s, Exchange(r, spurious)) && h in s.hosts && SumExact(add, s, h)
    requires h in Exchanged(add, s, r, spurious).hosts
    ensures var t := Exchanged(add, s, r, spurious);
            && t.hosts[h].sum == Summed(add, t.hosts[h].added)
            && s.hosts[h].added <= t.hosts[h].added
            && (t.hosts[h].added != s.hosts[h].added ==>
                  t.hosts[h].added == s.hosts[h].added + [(r, s.records[r].sample.elapsed)])
            && (t.records[r].pc == OVER && s.records[r].sample.host == h <==> t.hosts[h].added != s.hosts[h].added)
  {
    var t := Exchanged(add, s, r, spurious);
    ExchangeCases(add, s, r, spurious);
    var before, after := s.hosts[h].added, t.hosts[h].added;
    if after != before {
      assert after[..|after| - 1] == before;
    }
  }

  lemma ExchangeOnce(add: Adder, s: State, r: Id, spurious: bool, h: Host, q: Id)
    requires WellFormed(s) && Enabled(s, Exchange(r, spurious)) && h in s.hosts && SumExact(add, s, h)
    requires h in Exchanged(add, s, r, spurious).hosts && q in Exchanged(add, s, r, spurious).records
    requires var y := Exchanged(add, s, r, spurious).records[q]; y.pc == OVER && y.sample.host == h
    ensures AddedOnce(Exchanged(add, s, r, spurious), h, q)
  {
    var t := Exchanged(add, s, r, spurious);
    ExchangeCases(add, s, r, spurious);
    ExchangeAdds(add, s, r, spurious, h);
    var before, after := s.hosts[h].added, t.hosts[h].added;
    if q == r {
      assert after[|before|].0 == r;
    } else {
      assert AddedOnce(s, h, q);
      var i :| 0 <= i < |before| && before[i].0 == q;
      assert after[i].0 == q;
    }
  }

  lemma ExchangeSum(add: Adder, s: State, r: Id, spurious: bool, h: Host)
    requires WellFormed(s) && Enabled(s, Exchange(r, spurious)) && h in s.hosts && SumExact(add, s, h)
    requires h in Exchanged(add, s, r, spurious).hosts
    ensures SumExact(add, Exchanged(add, s, r, spurious), h)
  {
    var t := Exchanged(add, s, r, spurious);
    ExchangeCases(add, s, r, spurious);
    ExchangeAdds(add, s, r, spurious, h);
    var before, after := s.hosts[h].added, t.hosts[h].added;
    forall i | 0 <= i < |after|
      ensures AddedBy(t, h, after[i])
    {
      if i < |before| {
        assert AddedBy(s, h, before[i]);
      }
    }
    forall i, j | 0 <= i < j < |after|
      ensures after[i].0 != after[j].0
    {
      assert AddedBy(s, h, before[i]);
    }
    forall q | q in t.records && t.records[q].pc == OVER && t.records[q].sample.host == h
      ensures AddedOnce(t, h, q)
    {
      ExchangeOnce(add, s, r, spurious, h, q);
    }
  }

  lemma SameSum(add: Adder, s: State, t: State, h: Host)
    requires h in s.hosts && SumExact(add, s, h) && t.hosts == s.hosts && t.records == s.records
    ensures SumExact(add, t, h)
  {
    forall q | q in t.records && t.records[q].pc == OVER && t.records[q].sample.host == h
      ensures AddedOnce(t, h, q)
    {
      assert AddedOnce(s, h, q);
    }
    forall i | 0 <= i < |t.hosts[h].added|
      ensures AddedBy(t, h, t.hosts[h].added[i])
    {
      assert AddedBy(s, h, s.hosts[h].added[i]);
    }
  }

  lemma StepSums(add: Adder, s: State, a: Action)
    requires Inv(add, s) && Enabled(s, a) && WellFormed(Step(add, s, a))
    ensures forall h :: h in Step(add, s, a).hosts ==> SumExact(add, Step(add, s, a), h)
  {
    forall h | h in Step(add, s, a).hosts
      ensures SumExact(add, Step(add, s, a), h)
    {
      assert h in s.hosts ==> SumExact(add, s, h);
      StepSum(add, s, a, h);
    }
  }

  lemma StepSum(add: Adder, s: State, a: Action, h: Host)
    requires WellFormed(s) && Enabled(s, a) && WellFormed(Step(add, s, a)) && h in Step(add, s, a).hosts
    requires h in s.hosts ==> SumExact(add, s, h)
    ensures SumExact(add, Step(add, s, a), h)
  {
    match a
    case Begin(r, sample) => BeginSum(add, s, r, sample, h);
    case Advance(r) => AdvanceSum(add, s, r, h);
    case Exchange(r, spurious) => ExchangeSum(add, s, r, spurious, h);
    case _ => SameSum(add, s, Step(add, s, a), h);
  }

  /** A host has counted no bucket, and no error, more often than requests. */
  lemma NoMoreThanRequests(s: State, h: Host, t: Tally)
    requires WellFormed(s) && Exact(s) && h in s.hosts && t.Valid() && t != Received
    ensures s.hosts[h].Read(t) <= s.hosts[h].requests
  {
    assert HostExact(s, h, t) && HostExact(s, h, Requests);
    TotalBelow(s.records, HostWeight(h, t), HostWeight(h, Requests));
  }

  lemma ReadsGrow(add: Adder, s: State, a: Action, h: Host, t: Tally)
    requires WellFormed(s) && Enabled(s, a) && WellFormed(Step(add, s, a)) && h in s.hosts && t.Valid()
    ensures h in Step(add, s, a).hosts && Step(add, s, a).hosts[h].Read(t) >= s.hosts[h].Read(t)
  {
    match a
    case Advance(r) => AdvancedReads(s, r, h, t);
    case Exchange(r, spurious) => ExchangedReads(add, s, r, spurious);
    case _ =>
  }

  lemma CountsGrow(add: Adder, s: State, a: Action, h: Host, i: nat)
    requires WellFormed(s) && Enabled(s, a) && WellFormed(Step(add, s, a)) && h in s.hosts && i < BUCKETS
    ensures h in Step(add, s, a).hosts && Step(add, s, a).hosts[h].counts[i] >= s.hosts[h].counts[i]
  {
    ReadsGrow(add, s, a, h, Bucket(i));
    assert s.hosts[h].Read(Bucket(i)) == s.hosts[h].counts[i];
    assert Step(add, s, a).hosts[h].Read(Bucket(i)) == Step(add, s, a).hosts[h].counts[i];
  }

  lemma PrintKeeps(s: State)
    requires WellFormed(s) && Exact(s) && PrintedBelow(s) && Enabled(s, Print)
    ensures PrintedBelow(Printed(s))
  {
    var m := s.hosts[s.exporter.host];
    forall i | 0 <= i < BUCKETS
      ensures m.counts[i] <= m.requests
    {
      NoMoreThanRequests(s, s.exporter.host, Bucket(i));
      assert m.Read(Bucket(i)) == m.counts[i];
    }
  }

  lemma StepPrinted(add: Adder, s: State, a: Action)
    requires Inv(add, s) && Enabled(s, a) && WellFormed(Step(add, s, a))
    ensures PrintedBelow(Step(add, s, a))
  {
    var t := Step(add, s, a);
    if a.Print? {
      PrintKeeps(s);
    } else if a.Begin? || a.Advance? || a.Exchange? {
      assert t.exporter == s.exporter;
      if s.exporter.Printing? {
        forall i | 0 <= i < BUCKETS
          ensures t.hosts[s.exporter.host].counts[i] >= s.hosts[s.exporter.host].counts[i]
        {
          CountsGrow(add, s, a, s.exporter.host, i);
        }
      }
    }
  }

  // ----- One step keeps what the page remembers -----

  lemma GlobalIsCounted(s: State)
    requires WellFormed(s) && Exact(s)
    ensures s.globals[Requests] == |Counted(s)|
  {
    assert GlobalExact(s, Requests);
    CountedWeigh(s);
  }

  lemma CountedWeigh(s: State)
    ensures Total(s.records, GlobalWeight(Requests)) == |Counted(s)|
  {
    TotalCounts(s.records, GlobalWeight(Requests));
    assert Ones(s.records, GlobalWeight(Requests)) == Counted(s);
  }

  lemma ErrorsAreCounted(s: State)
    requires WellFormed(s) && Exact(s)
    ensures s.globals[Errors] <= |Counted(s)|
  {
    GlobalIsCounted(s);
    assert GlobalExact(s, Errors) && GlobalExact(s, Requests);
    TotalBelow(s.records, GlobalWeight(Errors), GlobalWeight(Requests));
  }

  /** The hosts together have counted every counted record that is not behind. */
  lemma HostsCountTheRest(s: State)
    requires WellFormed(s) && Exact(s)
    ensures Total(s.hosts, Reading(Requests)) + |Behind(s)| == |Counted(s)|
  {
    assert SumsExact(s, Requests);
    RestIsCounted(s);
  }

  lemma RestIsCounted(s: State)
    ensures Total(s.records, AnyHostWeight(Requests)) + |Behind(s)| == |Counted(s)|
  {
    var reached := set r | r in s.records && s.records[r].pc > HostPoint(Requests);
    TotalCounts(s.records, AnyHostWeight(Requests));
    assert Ones(s.records, AnyHostWeight(Requests)) == reached;
    assert Counted(s) == reached + Behind(s);
  }

  lemma FloorIsTotal(s: State)
    requires WellFormed(s)
    ensures Total(RequestsOfHosts(s), Same) == Total(s.hosts, Reading(Requests))
  {
    TotalAcross(RequestsOfHosts(s), Same, s.hosts, Reading(Requests));
    TotalAcross(s.hosts, Reading(Requests), RequestsOfHosts(s), Same);
  }

  lemma ReadTotalKeeps(s: State)
    requires WellFormed(s) && Exact(s)
    ensures PageBelow(TotalLoaded(s))
  {
    GlobalIsCounted(s);
    HostsCountTheRest(s);
    FloorIsTotal(s);
  }

  /** The recorders only add to what the page is compared with. */
  lemma RecordersKeepPage(add: Adder, s: State, a: Action)
    requires Inv(add, s) && Enabled(s, a) && WellFormed(Step(add, s, a))
    requires a.Begin? || a.Advance? || a.Exchange?
    ensures PageBelow(Step(add, s, a))
  {
    var t := Step(add, s, a);
    RecordersCount(add, s, a);
    Subset(Counted(s), Counted(t));
    forall h | h in s.hosts
      ensures h in t.hosts && s.hosts[h].requests <= t.hosts[h].requests
    {
      ReadsGrow(add, s, a, h, Requests);
    }
    forall h | h in t.page.lines
      ensures LineBelow(t, h)
    {
      assert LineBelow(s, h);
    }
    forall h | h in t.page.floor
      ensures FloorBelow(t, h)
    {
      assert FloorBelow(s, h);
    }
  }

  lemma RecordersCount(add: Adder, s: State, a: Action)
    requires WellFormed(s) && Enabled(s, a) && (a.Begin? || a.Advance? || a.Exchange?)
    ensures Counted(s) <= Counted(Step(add, s, a)) && Step(add, s, a).page == s.page
  {
  }

  lemma Subset<T>(a: set<T>, b: set<T>)
    requires a <= b
    ensures |a| <= |b| && |b - a| == |b| - |a|
  {
    assert b == a + (b - a);
  }

  lemma PrintKeepsPage(s: State)
    requires WellFormed(s) && PageBelow(s) && Enabled(s, Print)
    ensures PageBelow(Printed(s))
  {
    var t := Printed(s);
    assert Counted(t) == Counted(s);
    forall h | h in t.page.lines
      ensures LineBelow(t, h)
    {
      assert h in s.page.lines ==> LineBelow(s, h);
    }
    forall h | h in t.page.floor
      ensures FloorBelow(t, h)
    {
      assert FloorBelow(s, h);
    }
  }

  lemma StepPage(add: Adder, s: State, a: Action)
    requires Inv(add, s) && Enabled(s, a) && WellFormed(Step(add, s, a))
    ensures PageBelow(Step(add, s, a))
  {
    match a
    case Begin(_, _) => RecordersKeepPage(add, s, a);
    case Advance(_) => RecordersKeepPage(add, s, a);
    case Exchange(_, _) => RecordersKeepPage(add, s, a);
    case ReadTotal => ReadTotalKeeps(s);
    case ReadErrors =>
      ErrorsAreCounted(s);
      SameCounted(s, Step(add, s, a));
    case Print => PrintKeepsPage(s);
    case _ => SameCounted(s, Step(add, s, a));
  }

  lemma SameCounted(s: State, t: State)
    requires PageBelow(s) && t.records == s.records && t.hosts == s.hosts
    requires t.page == s.page.(errors := t.page.errors) && t.page.errors <= |Counted(s)|
    ensures PageBelow(t)
  {
    assert Counted(t) == Counted(s);
    forall h | h in t.page.lines
      ensures LineBelow(t, h)
    {
      assert LineBelow(s, h);
    }
    forall h | h in t.page.floor
      ensures FloorBelow(t, h)
    {
      assert FloorBelow(s, h);
    }
  }

  lemma StepKeeps(add: Adder, s: State, a: Action)
    requires Inv(add, s) && Enabled(s, a)
    ensures Inv(add, Step(add, s, a))
  {
    StepWellFormed(add, s, a);
    StepExact(add, s, a);
    StepSums(add, s, a);
    StepPrinted(add, s, a);
    StepPage(add, s, a);
  }

  // ----- All interleavings -----

  ghost predicate IsRun(add: Adder, s: State, schedule: seq<Action>)
    decreases |schedule|
  {
    WellFormed(s) &&
    (schedule == [] || (Enabled(s, schedule[0]) && IsRun(add, Step(add, s, schedule[0]), schedule[1..])))
  }

  ghost function End(add: Adder, s: State, schedule: seq<Action>): State
    requires IsRun(add, s, schedule)
    decreases |schedule|
  {
    if schedule == [] then s else End(add, Step(add, s, schedule[0]), schedule[1..])
  }

  lemma {:induction false} RunKeeps(add: Adder, s: State, schedule: seq<Action>)
    requires Inv(add, s) && IsRun(add, s, schedule)
    ensures Inv(add, End(add, s, schedule))
    decreases |schedule|
  {
    if schedule != [] {
      StepKeeps(add, s, schedule[0]);
      RunKeeps(add, Step(add, s, schedule[0]), schedule[1..]);
    }
  }

  lemma Reachable(add: Adder, schedule: seq<Action>)
    requires IsRun(add, START, schedule)
    ensures Inv(add, End(add, START, schedule))
  {
    forall t: Tally | t.Valid()
      ensures SumsExact(START, t) && (t.HasTwin() ==> GlobalExact(START, t))
    {
    }
    RunKeeps(add, START, schedule);
  }
}
