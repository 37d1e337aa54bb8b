/** An untimed drain returns: over every infinite run with weak fairness and no new tracked submission. */
module BridgeProgress {
  import opened Bridge
  import opened BridgeSafety

  // ----- The measure of a tracked crossing -----

  /** How many steps a tracked crossing can still take. */
  function Rank(x: Crossing): nat {
    match x.pc
    case Submitting => 9
    case Running => 8
    case Completed => 7
    case Calling => 6
    case CheckClosed => 5
    case CallReal => 4
    case Skipped => 3
    case Releasing => 2
    case Notifying => 1
    case Finished => 0
  }

  /** `a` is a step of the crossing `c` itself. A cancellation is Python's. */
  predicate StepOf(a: Action, c: Id) {
    match a
    case Local(d, m) => d == c && m != Cancel
    case Enqueue(d) => d == c
    case FetchSub(d) => d == c
    case Notify(d) => d == c
    case Load(d) => d == c
    case Tap(d) => d == c
    case _ => false
  }

  predicate TakesGil(a: Action) {
    a.Tap? || a.GilAcquired?
  }

  predicate IsRequest(s: State, c: Id) {
    c in s.crossings && s.crossings[c].role.Request?
  }

  /** Every step of a tracked crossing lowers its rank, and so does any GIL acquisition while it is stranded;
      no other step raises it. */
  lemma StepLowersRank(env: Env, s: State, a: Action, c: Id)
    requires AllPlaced(env, s) && Enabled(env, s, a) && IsRequest(s, c)
    ensures IsRequest(Step(env, s, a), c)
    ensures Rank(Step(env, s, a).crossings[c]) <= Rank(s.crossings[c])
    ensures StepOf(a, c) || (TakesGil(a) && s.crossings[c].pc == Skipped) ==>
              Rank(Step(env, s, a).crossings[c]) < Rank(s.crossings[c])
    ensures Rank(Step(env, s, a).crossings[c]) == Rank(s.crossings[c]) ==>
              Step(env, s, a).crossings[c].pc == s.crossings[c].pc
  {
    if !Touches(a, c) {
      UntouchedStays(env, s, a, c);
    } else if a.Local? {
      assert Placed(s.crossings[c]);
      MoveLowersRank(env, s, s.crossings[c], a.move);
    } else {
      assert Placed(s.crossings[c]);
      SharedStepLowersRank(env, s, a, c);
    }
  }

  lemma SharedStepLowersRank(env: Env, s: State, a: Action, c: Id)
    requires Enabled(env, s, a) && IsRequest(s, c) && Placed(s.crossings[c]) && Touches(a, c) && !a.Local?
    ensures IsRequest(Step(env, s, a), c)
    ensures Rank(Step(env, s, a).crossings[c]) <= Rank(s.crossings[c])
    ensures StepOf(a, c) || (TakesGil(a) && s.crossings[c].pc == Skipped) ==>
              Rank(Step(env, s, a).crossings[c]) < Rank(s.crossings[c])
    ensures Rank(Step(env, s, a).crossings[c]) == Rank(s.crossings[c]) ==>
              Step(env, s, a).crossings[c].pc == s.crossings[c].pc
  {
  }

  lemma MoveLowersRank(env: Env, s: State, x: Crossing, m: Move)
    requires Placed(x) && CanMove(env, s, x, m) && x.role.Request?
    ensures Moved(env, s, x, m).role.Request?
    ensures m != Cancel ==> Rank(Moved(env, s, x, m)) < Rank(x)
    ensures m == Cancel ==> Moved(env, s, x, m).pc == x.pc
  {
  }

  /** A crossing that is neither finished nor stranded can always take a step of its own. */
  lemma NeverStuck(env: Env, s: State, c: Id)
    requires AllPlaced(env, s) && c in s.crossings
    requires s.crossings[c].pc != Finished && s.crossings[c].pc != Skipped
    ensures CanStep(env, s, c)
  {
    match s.crossings[c].pc
    case Submitting => CanMoveOn(env, s, c, SubmitFails);
    case Running => RunningNotStuck(env, s, c);
    case Completed => CanMoveOn(env, s, c, if s.crossings[c].cancelled then Skip else Deliver);
    case Calling => CanMoveOn(env, s, c, Take);
    case CheckClosed => CheckingNotStuck(env, s, c);
    case CallReal => CallingNotStuck(env, s, c);
    case Releasing => CanAct(env, s, c, FetchSub(c));
    case Notifying => CanAct(env, s, c, Notify(c));
  }

  lemma CanAct(env: Env, s: State, c: Id, a: Action)
    requires StepOf(a, c) && Enabled(env, s, a)
    ensures CanStep(env, s, c)
  {
  }

  lemma CanMoveOn(env: Env, s: State, c: Id, m: Move)
    requires c in s.crossings && m != Cancel && CanMove(env, s, s.crossings[c], m)
    ensures CanStep(env, s, c)
  {
    CanAct(env, s, c, Local(c, m));
  }

  /** A crossing on its way into its loop has a loop. */
  lemma LoopIsThere(env: Env, s: State, c: Id)
    requires AllPlaced(env, s) && c in s.crossings
    requires s.crossings[c].pc == CheckClosed || s.crossings[c].pc == CallReal
    ensures s.crossings[c].loop in s.loops
  {
    assert Placed(s.crossings[c]) && FateHolds(env, s, c, s.crossings[c]);
  }

  lemma CheckingNotStuck(env: Env, s: State, c: Id)
    requires AllPlaced(env, s) && c in s.crossings && s.crossings[c].pc == CheckClosed
    ensures CanStep(env, s, c)
  {
    LoopIsThere(env, s, c);
    CanMoveOn(env, s, c, if IsOpen(s, s.crossings[c].loop) then SeesOpen else SeesClosed);
  }

  lemma CallingNotStuck(env: Env, s: State, c: Id)
    requires AllPlaced(env, s) && c in s.crossings && s.crossings[c].pc == CallReal
    ensures CanStep(env, s, c)
  {
    LoopIsThere(env, s, c);
    if IsOpen(s, s.crossings[c].loop) {
      CanAct(env, s, c, Enqueue(c));
    } else {
      CanMoveOn(env, s, c, Refused);
    }
  }

  lemma RunningNotStuck(env: Env, s: State, c: Id)
    requires c in s.crossings && s.crossings[c].pc == Running
    ensures CanStep(env, s, c)
  {
    var x := s.crossings[c];
    if x.role.Request? {
      CanMoveOn(env, s, c, Complete);
    } else {
      match x.role.at
      case Top => CanMoveOn(env, s, c, Listen);
      case Listening(_) => CanAct(env, s, c, Load(c));
      case Waiting(g) => CanMoveOn(env, s, c, if g == s.generation then Tick else Wake);
      case Tapping => CanAct(env, s, c, Tap(c));
      case Returned(_) => CanMoveOn(env, s, c, Complete);
    }
  }

  ghost predicate CanStep(env: Env, s: State, c: Id) {
    exists a :: StepOf(a, c) && Enabled(env, s, a)
  }

  // ----- Infinite runs -----

  ghost predicate Behaviour(env: Env, tr: nat -> State, act: nat -> Action) {
    tr(0) == START && forall i: nat :: StepAt(env, tr, act, i)
  }

  ghost predicate StepAt(env: Env, tr: nat -> State, act: nat -> Action, i: nat) {
    Enabled(env, tr(i), act(i)) && tr(i + 1) == Step(env, tr(i), act(i))
  }

  /** Weak fairness: from `k` on, a crossing that can keep stepping does step. In particular every inner future
      settles, and the 100 ms timer of a waiting drain fires. */
  ghost predicate Fair(env: Env, tr: nat -> State, act: nat -> Action, k: nat) {
    forall c: Id, i: nat :: i >= k && c in tr(i).crossings ==> Served(env, tr, act, c, i)
  }

  ghost predicate Served(env: Env, tr: nat -> State, act: nat -> Action, c: Id, i: nat) {
    exists j: nat :: j >= i && (StepOf(act(j), c) || !CanStep(env, tr(j), c))
  }

  /** From `k` on nothing new is submitted for tracking, and the untimed drain `d` is not abandoned. */
  ghost predicate Draining(tr: nat -> State, act: nat -> Action, d: Id, k: nat) {
    && d in tr(k).crossings && IsDraining(tr(k).crossings[d])
    && forall i: nat :: i >= k ==> !act(i).Register? && !(act(i).Local? && act(i).c == d && act(i).move.Abandon?)
  }

  predicate IsDraining(x: Crossing) {
    x.pc == Running && x.role.Drain? && !x.role.timed && !x.role.at.Returned?
  }

  lemma {:induction false} InvThroughout(env: Env, tr: nat -> State, act: nat -> Action, i: nat)
    requires Behaviour(env, tr, act)
    ensures Inv(env, tr(i))
  {
    if i == 0 {
      StartHolds(env);
    } else {
      InvThroughout(env, tr, act, i - 1);
      assert StepAt(env, tr, act, i - 1);
      StepKeeps(env, tr(i - 1), act(i - 1));
    }
  }

  // ----- Numbers that only fall come to rest -----

  ghost predicate FallsFrom(f: nat -> nat, k: nat) {
    forall i: nat :: i >= k ==> f(i + 1) <= f(i)
  }

  ghost predicate RestsFrom(f: nat -> nat, k: nat) {
    forall i: nat :: i >= k ==> f(i) == f(k)
  }

  lemma {:induction false} FallsBetween(f: nat -> nat, k: nat, i: nat)
    requires FallsFrom(f, k) && i >= k
    ensures f(i) <= f(k)
    decreases i
  {
    if i > k {
      FallsBetween(f, k, i - 1);
      assert f((i - 1) + 1) <= f(i - 1);
    }
  }

  lemma {:induction false} ComesToRest(f: nat -> nat, k: nat) returns (n: nat)
    requires FallsFrom(f, k)
    ensures n >= k && RestsFrom(f, n)
    decreases f(k)
  {
    if RestsFrom(f, k) {
      n := k;
    } else {
      var i: nat :| i >= k && f(i) != f(k);
      FallsBetween(f, k, i);
      n := ComesToRest(f, i);
    }
  }

  // ----- Tracked crossings come to rest -----

  function RankAt(s: State, c: Id): nat {
    if c in s.crossings then Rank(s.crossings[c]) else 0
  }

  lemma {:induction false} RequestStays(env: Env, tr: nat -> State, act: nat -> Action, c: Id, k: nat, i: nat)
    requires Behaviour(env, tr, act) && i >= k && IsRequest(tr(k), c)
    ensures IsRequest(tr(i), c)
    decreases i
  {
    if i > k {
      RequestStays(env, tr, act, c, k, i - 1);
      assert StepAt(env, tr, act, i - 1);
      RequestPersists(env, tr(i - 1), act(i - 1), c);
    }
  }

  lemma RequestPersists(env: Env, s: State, a: Action, c: Id)
    requires Enabled(env, s, a) && IsRequest(s, c)
    ensures IsRequest(Step(env, s, a), c)
  {
  }

  lemma RankFalls(env: Env, tr: nat -> State, act: nat -> Action, c: Id, k: nat)
    requires Behaviour(env, tr, act) && IsRequest(tr(k), c)
    ensures FallsFrom((i: nat) => RankAt(tr(i), c), k)
  {
    forall i: nat | i >= k
      ensures RankAt(tr(i + 1), c) <= RankAt(tr(i), c)
    {
      RequestStays(env, tr, act, c, k, i);
      InvThroughout(env, tr, act, i);
      assert StepAt(env, tr, act, i);
      StepLowersRank(env, tr(i), act(i), c);
    }
  }

  ghost predicate AtRest(tr: nat -> State, c: Id, n: nat) {
    forall i: nat :: i >= n ==> RankAt(tr(i), c) == RankAt(tr(n), c)
  }

  lemma {:induction false} AllComeToRest(env: Env, tr: nat -> State, act: nat -> Action, cs: set<Id>, k: nat)
      returns (n: nat)
    requires Behaviour(env, tr, act)
    requires forall c :: c in cs ==> IsRequest(tr(k), c)
    ensures n >= k && forall c :: c in cs ==> AtRest(tr, c, n)
    decreases cs
  {
    if cs == {} {
      n := k;
    } else {
      var c :| c in cs;
      var m := AllComeToRest(env, tr, act, cs - {c}, k);
      RankFalls(env, tr, act, c, k);
      var f := (i: nat) => RankAt(tr(i), c);
      assert FallsFrom(f, k);
      assert FallsFrom(f, m);
      n := ComesToRest(f, m);
      RestLasts(tr, cs - {c}, m, n);
      assert AtRest(tr, c, n) by {
        forall i: nat | i >= n
          ensures RankAt(tr(i), c) == RankAt(tr(n), c)
        {
          assert f(i) == f(n);
        }
      }
    }
  }

  lemma RestLasts(tr: nat -> State, cs: set<Id>, m: nat, n: nat)
    requires m <= n && forall c :: c in cs ==> AtRest(tr, c, m)
    ensures forall c :: c in cs ==> AtRest(tr, c, n)
  {
    forall c | c in cs
      ensures AtRest(tr, c, n)
    {
      assert AtRest(tr, c, m);
    }
  }

  // ----- Once they rest, the drain moves -----

  lemma RestIsQuiet(env: Env, tr: nat -> State, act: nat -> Action, c: Id, k: nat, n: nat, i: nat)
    requires Behaviour(env, tr, act) && Fair(env, tr, act, k) && n >= k && i >= n
    requires IsRequest(tr(k), c) && AtRest(tr, c, n)
    ensures IsRequest(tr(i), c) && IsRequest(tr(n), c)
    ensures tr(i).crossings[c].pc == tr(n).crossings[c].pc
    ensures tr(i).crossings[c].pc == Finished || tr(i).crossings[c].pc == Skipped
    ensures !StepOf(act(i), c) && (tr(i).crossings[c].pc == Skipped ==> !TakesGil(act(i)))
  {
    RestStep(env, tr, act, c, k, n, i);
    RestKeepsPc(env, tr, act, c, k, n, i);
    if tr(i).crossings[c].pc != Finished && tr(i).crossings[c].pc != Skipped {
      assert Served(env, tr, act, c, i);
      var j: nat :| j >= i && (StepOf(act(j), c) || !CanStep(env, tr(j), c));
      RestKeepsPc(env, tr, act, c, k, n, j);
      InvThroughout(env, tr, act, j);
      NeverStuck(env, tr(j), c);
      RestStep(env, tr, act, c, k, n, j);
      assert false;
    }
  }

  lemma RestStep(env: Env, tr: nat -> State, act: nat -> Action, c: Id, k: nat, n: nat, i: nat)
    requires Behaviour(env, tr, act) && n >= k && i >= n
    requires IsRequest(tr(k), c) && AtRest(tr, c, n)
    ensures IsRequest(tr(i), c) && IsRequest(tr(i + 1), c)
    ensures tr(i + 1).crossings[c].pc == tr(i).crossings[c].pc
    ensures !StepOf(act(i), c) && (tr(i).crossings[c].pc == Skipped ==> !TakesGil(act(i)))
  {
    RequestStays(env, tr, act, c, k, i);
    InvThroughout(env, tr, act, i);
    assert StepAt(env, tr, act, i);
    StepLowersRank(env, tr(i), act(i), c);
    assert RankAt(tr(i), c) == RankAt(tr(n), c) == RankAt(tr(i + 1), c);
  }

  lemma {:induction false} RestKeepsPc(env: Env, tr: nat -> State, act: nat -> Action, c: Id, k: nat, n: nat, i: nat)
    requires Behaviour(env, tr, act) && n >= k && i >= n
    requires IsRequest(tr(k), c) && AtRest(tr, c, n)
    ensures IsRequest(tr(n), c) && IsRequest(tr(i), c)
    ensures tr(i).crossings[c].pc == tr(n).crossings[c].pc
    decreases i
  {
    RequestStays(env, tr, act, c, k, n);
    if i > n {
      RestKeepsPc(env, tr, act, c, k, n, i - 1);
      RestStep(env, tr, act, c, k, n, i - 1);
    }
  }

  function Requests(s: State): set<Id> {
    set c | c in s.crossings && s.crossings[c].role.Request?
  }

  lemma NoNewRequest(env: Env, s: State, a: Action, c: Id)
    requires Enabled(env, s, a) && !a.Register? && IsRequest(Step(env, s, a), c)
    ensures IsRequest(s, c)
  {
  }

  lemma {:induction false} RequestWasThere(env: Env, tr: nat -> State, act: nat -> Action, c: Id, k: nat, i: nat)
    requires Behaviour(env, tr, act) && i >= k && IsRequest(tr(i), c)
    requires forall j: nat :: j >= k ==> !act(j).Register?
    ensures IsRequest(tr(k), c)
    decreases i
  {
    if i > k {
      assert StepAt(env, tr, act, i - 1);
      NoNewRequest(env, tr(i - 1), act(i - 1), c);
      RequestWasThere(env, tr, act, c, k, i - 1);
    }
  }

  /** While no tracked crossing moves, neither do the count and the generation. */
  lemma QuietStep(env: Env, s: State, a: Action)
    requires AllPlaced(env, s) && Enabled(env, s, a) && !a.Register?
    requires forall c :: IsRequest(s, c) ==> !StepOf(a, c)
    ensures Step(env, s, a).count == s.count && Step(env, s, a).generation == s.generation
  {
    if a.FetchSub? || a.Notify? {
      assert Placed(s.crossings[a.c]);
      assert IsRequest(s, a.c);
      assert StepOf(a, a.c);
    }
  }

  lemma StaysDraining(env: Env, s: State, a: Action, d: Id)
    requires Enabled(env, s, a) && d in s.crossings && IsDraining(s.crossings[d])
    requires !(a.Local? && a.c == d && a.move.Abandon?)
    ensures d in Step(env, s, a).crossings
    ensures IsDraining(Step(env, s, a).crossings[d]) || Step(env, s, a).crossings[d].ReadZero()
  {
  }

  /** How far a draining crossing is from reading zero, or, while the count is positive, from taking the GIL. */
  function Distance(s: State, x: Crossing): nat {
    if !x.role.Drain? then 0
    else if s.count == 0 then
      match x.role.at
      case Waiting(_) => 4
      case Tapping => 3
      case Top => 2
      case Listening(_) => 1
      case Returned(_) => 0
    else
      match x.role.at
      case Listening(g) => if g != s.generation then 5 else 2
      case Waiting(g) => if g != s.generation then 4 else 1
      case Top => 3
      case Tapping => 0
      case Returned(_) => 0
  }

  lemma DrainGetsCloser(env: Env, s: State, a: Action, d: Id)
    requires Enabled(env, s, a) && d in s.crossings && IsDraining(s.crossings[d])
    requires d in Step(env, s, a).crossings && IsDraining(Step(env, s, a).crossings[d])
    requires Step(env, s, a).count == s.count && Step(env, s, a).generation == s.generation
    requires s.count != 0 ==> !TakesGil(a)
    ensures Distance(Step(env, s, a), Step(env, s, a).crossings[d]) <= Distance(s, s.crossings[d])
    ensures StepOf(a, d) ==> Distance(Step(env, s, a), Step(env, s, a).crossings[d]) < Distance(s, s.crossings[d])
  {
  }

  ghost predicate NeverReadsZero(tr: nat -> State, d: Id, k: nat) {
    forall i: nat :: i >= k && d in tr(i).crossings ==> !tr(i).crossings[d].ReadZero()
  }

  predicate DrainsIn(s: State, d: Id) {
    d in s.crossings && IsDraining(s.crossings[d])
  }

  lemma {:induction false} DrainingForever(env: Env, tr: nat -> State, act: nat -> Action, d: Id, k: nat, i: nat)
    requires Behaviour(env, tr, act) && Draining(tr, act, d, k) && NeverReadsZero(tr, d, k) && i >= k
    ensures DrainsIn(tr(i), d)
    decreases i
  {
    if i > k {
      DrainingForever(env, tr, act, d, k, i - 1);
      assert StepAt(env, tr, act, i - 1);
      StaysDraining(env, tr(i - 1), act(i - 1), d);
    }
  }

  /** Every tracked crossing is finished or stranded, and `a` moves none of them. */
  ghost predicate AllQuiet(s: State, a: Action) {
    forall c :: IsRequest(s, c) ==> Quiet(s, a, c)
  }

  predicate Quiet(s: State, a: Action, c: Id)
    requires IsRequest(s, c)
  {
    && (s.crossings[c].pc == Finished || s.crossings[c].pc == Skipped)
    && !StepOf(a, c)
    && (s.crossings[c].pc == Skipped ==> !TakesGil(a))
  }

  lemma RestIsAllQuiet(env: Env, tr: nat -> State, act: nat -> Action, d: Id, k: nat, n: nat, i: nat)
    requires Behaviour(env, tr, act) && Fair(env, tr, act, k) && Draining(tr, act, d, k)
    requires n >= k && i >= n
    requires forall c :: c in Requests(tr(k)) ==> AtRest(tr, c, n)
    ensures AllQuiet(tr(i), act(i))
  {
    forall c | IsRequest(tr(i), c)
      ensures Quiet(tr(i), act(i), c)
    {
      RequestWasThere(env, tr, act, c, k, i);
      assert c in Requests(tr(k));
      RestIsQuiet(env, tr, act, c, k, n, i);
    }
  }

  /** The step `a` of a quiet state `s` leads to `t`, and `d` drains before and after it. */
  ghost predicate QuietlyLeads(env: Env, s: State, a: Action, t: State, d: Id) {
    && AllPlaced(env, s) && Counted(s) && AllQuiet(s, a)
    && Enabled(env, s, a) && !a.Register? && t == Step(env, s, a)
    && DrainsIn(s, d) && DrainsIn(t, d)
  }

  function DistanceAt(s: State, d: Id): nat {
    if d in s.crossings then Distance(s, s.crossings[d]) else 0
  }

  predicate Nearer(s: State, a: Action, t: State, d: Id) {
    && DistanceAt(t, d) <= DistanceAt(s, d)
    && (StepOf(a, d) ==> DistanceAt(t, d) < DistanceAt(s, d))
  }

  lemma QuietDrainGetsCloser(env: Env, s: State, a: Action, t: State, d: Id)
    requires QuietlyLeads(env, s, a, t, d)
    ensures Nearer(s, a, t, d)
  {
    QuietStep(env, s, a);
    if s.count != 0 {
      SomeoneStranded(env, s);
    }
    DrainGetsCloser(env, s, a, d);
  }

  /** What holds at every step from `n` on, if the drain never read zero. */
  lemma QuietDrainStep(env: Env, tr: nat -> State, act: nat -> Action, d: Id, k: nat, n: nat, i: nat)
    requires Behaviour(env, tr, act) && Fair(env, tr, act, k) && Draining(tr, act, d, k) && NeverReadsZero(tr, d, k)
    requires n >= k && i >= n
    requires forall c :: c in Requests(tr(k)) ==> AtRest(tr, c, n)
    ensures Nearer(tr(i), act(i), tr(i + 1), d)
  {
    RestIsAllQuiet(env, tr, act, d, k, n, i);
    StaysQuiet(env, tr, act, d, k, i);
    QuietDrainGetsCloser(env, tr(i), act(i), tr(i + 1), d);
  }

  lemma StaysQuiet(env: Env, tr: nat -> State, act: nat -> Action, d: Id, k: nat, i: nat)
    requires Behaviour(env, tr, act) && Draining(tr, act, d, k) && NeverReadsZero(tr, d, k) && i >= k
    requires AllQuiet(tr(i), act(i))
    ensures QuietlyLeads(env, tr(i), act(i), tr(i + 1), d)
  {
    InvThroughout(env, tr, act, i);
    DrainingForever(env, tr, act, d, k, i);
    DrainingForever(env, tr, act, d, k, i + 1);
    assert StepAt(env, tr, act, i);
  }

  lemma SomeoneStranded(env: Env, s: State)
    requires AllPlaced(env, s) && Counted(s) && s.count != 0
    requires forall c :: IsRequest(s, c) ==> s.crossings[c].pc == Finished || s.crossings[c].pc == Skipped
    ensures exists c :: IsRequest(s, c) && s.crossings[c].pc == Skipped
  {
    var c :| c in Live(s);
    assert Placed(s.crossings[c]);
    assert IsRequest(s, c);
  }

  lemma DrainComesToRest(env: Env, tr: nat -> State, act: nat -> Action, d: Id, k: nat, n: nat) returns (m: nat)
    requires Behaviour(env, tr, act) && Fair(env, tr, act, k) && Draining(tr, act, d, k) && NeverReadsZero(tr, d, k)
    requires n >= k && forall c :: c in Requests(tr(k)) ==> AtRest(tr, c, n)
    ensures m >= n && RestsFrom((i: nat) => DistanceAt(tr(i), d), m)
  {
    var f := (i: nat) => DistanceAt(tr(i), d);
    forall i: nat | i >= n
      ensures f(i + 1) <= f(i)
    {
      QuietDrainStep(env, tr, act, d, k, n, i);
    }
    m := ComesToRest(f, n);
  }

  lemma DrainIsServed(env: Env, tr: nat -> State, act: nat -> Action, d: Id, k: nat, m: nat) returns (j: nat)
    requires Behaviour(env, tr, act) && Fair(env, tr, act, k) && Draining(tr, act, d, k) && NeverReadsZero(tr, d, k)
    requires m >= k
    ensures j >= m && StepOf(act(j), d)
  {
    DrainingForever(env, tr, act, d, k, m);
    assert Served(env, tr, act, d, m);
    j :| j >= m && (StepOf(act(j), d) || !CanStep(env, tr(j), d));
    DrainingForever(env, tr, act, d, k, j);
    RunningNotStuck(env, tr(j), d);
  }

  /** With fair scheduling and no new tracked submission, an untimed drain reads zero and returns `True`. */
  lemma DrainTerminates(env: Env, tr: nat -> State, act: nat -> Action, d: Id, k: nat)
    requires Behaviour(env, tr, act) && Fair(env, tr, act, k) && Draining(tr, act, d, k)
    ensures exists n: nat :: n >= k && d in tr(n).crossings && tr(n).crossings[d].ReadZero()
  {
    if NeverReadsZero(tr, d, k) {
      var n := AllComeToRest(env, tr, act, Requests(tr(k)), k);
      var m := DrainComesToRest(env, tr, act, d, k, n);
      var j := DrainIsServed(env, tr, act, d, k, m);
      var f := (i: nat) => DistanceAt(tr(i), d);
      assert f(j) == f(m) && f(j + 1) == f(m);
      QuietDrainStep(env, tr, act, d, k, n, j);
      assert false;
    }
  }

  /** One GIL acquisition starts the release of every stranded guard. */
  lemma OneTapFreesAll(env: Env, s: State, a: Action, c: Id)
    requires AllPlaced(env, s) && Enabled(env, s, a) && TakesGil(a) && c in s.crossings
    ensures c in Step(env, s, a).crossings
    ensures Step(env, s, a).crossings[c].pc != Skipped
    ensures s.crossings[c].pc == Skipped && s.crossings[c].role.Request? ==>
              Step(env, s, a).crossings[c].pc == Releasing
  {
    assert Placed(s.crossings[c]);
  }
}
