/** What `drain() == True` means, over every run of the bridge protocol. */
module BridgeDelivery {
  import opened Bridge
  import opened BridgeSafety

  // ----- Runs -----

  lemma Snoc(env: Env, s: State, run: seq<Action>, a: Action)
    requires IsRun(env, s, run) && Enabled(env, End(env, s, run), a)
    ensures IsRun(env, s, run + [a]) && End(env, s, run + [a]) == Step(env, End(env, s, run), a)
  {
    assert (run + [a])[..|run|] == run;
  }

  lemma {:induction false} RunSplits(env: Env, s: State, first: seq<Action>, rest: seq<Action>)
    requires IsRun(env, s, first + rest)
    ensures IsRun(env, s, first) && IsRun(env, End(env, s, first), rest)
    ensures End(env, s, first + rest) == End(env, End(env, s, first), rest)
    decreases |rest|
  {
    if rest == [] {
      assert first + rest == first;
    } else {
      var before := rest[..|rest| - 1];
      assert (first + rest)[..|first + rest| - 1] == first + before;
      RunSplits(env, s, first, before);
    }
  }

  lemma {:induction false} RunKeeps(env: Env, s: State, run: seq<Action>)
    requires Inv(env, s) && IsRun(env, s, run)
    ensures Inv(env, End(env, s, run))
    decreases |run|
  {
    if run != [] {
      var before := run[..|run| - 1];
      RunKeeps(env, s, before);
      StepKeeps(env, End(env, s, before), run[|run| - 1]);
    }
  }

  /** Everything proved of `Inv` holds after every run from the start. */
  lemma Reachable(env: Env, run: seq<Action>)
    requires IsRun(env, START, run)
    ensures Inv(env, End(env, START, run))
  {
    StartHolds(env);
    RunKeeps(env, START, run);
  }

  lemma {:induction false} RunEvolves(env: Env, s: State, run: seq<Action>, c: Id)
    requires Inv(env, s) && IsRun(env, s, run) && c in s.crossings
    ensures c in End(env, s, run).crossings && Evolves(s.crossings[c], End(env, s, run).crossings[c])
    decreases |run|
  {
    if run != [] {
      var before := run[..|run| - 1];
      RunEvolves(env, s, before, c);
      RunKeeps(env, s, before);
      StepEvolves(env, End(env, s, before), run[|run| - 1], c);
    }
  }

  // ----- Guard conservation -----

  /** The count is the number of live guards, so it never underflows, and every guard is released exactly once. */
  lemma GuardsConserved(env: Env, run: seq<Action>)
    requires IsRun(env, START, run)
    ensures var s := End(env, START, run);
            && s.count == |Live(s)|
            && (forall c :: Enabled(env, s, FetchSub(c)) ==> s.count >= 1)
            && (forall c :: c in s.crossings && s.crossings[c].role.Request? ==>
                  s.crossings[c].releases == if s.crossings[c].InFlight() then 0 else 1)
            && (forall c :: c in s.crossings && s.crossings[c].role.Drain? ==> !s.crossings[c].InFlight())
  {
    Reachable(env, run);
    CountCoversReleases(env, End(env, START, run));
    PlacedOwnsOnce(env, End(env, START, run));
  }

  lemma CountCoversReleases(env: Env, s: State)
    requires AllPlaced(env, s) && Counted(s)
    ensures forall c :: Enabled(env, s, FetchSub(c)) ==> s.count >= 1
  {
    forall c | Enabled(env, s, FetchSub(c))
      ensures s.count >= 1
    {
      assert Placed(s.crossings[c]);
      assert c in Live(s);
    }
  }

  lemma PlacedOwnsOnce(env: Env, s: State)
    requires AllPlaced(env, s)
    ensures forall c :: c in s.crossings && s.crossings[c].role.Request? ==>
              s.crossings[c].releases == if s.crossings[c].InFlight() then 0 else 1
    ensures forall c :: c in s.crossings && s.crossings[c].role.Drain? ==> !s.crossings[c].InFlight()
  {
    forall c | c in s.crossings
      ensures Placed(s.crossings[c])
    {
    }
  }

  /** Three steps of a submission that fails before the first poll. */
  lemma FailedSubmissionSteps(env: Env, s: State, c: Id, l: LoopId) returns (t: State, u: State, v: State)
    requires c !in s.crossings
    ensures Enabled(env, s, Register(c, l)) && t == Step(env, s, Register(c, l))
    ensures Enabled(env, t, Local(c, SubmitFails)) && u == Step(env, t, Local(c, SubmitFails))
    ensures Enabled(env, u, FetchSub(c)) && v == Step(env, u, FetchSub(c))
    ensures v.count == s.count && v.loops == s.loops && v.generation == s.generation
    ensures v.crossings.Keys == s.crossings.Keys + {c} && v.crossings[c].fate == NotSubmitted
    ensures forall d :: d in s.crossings ==> v.crossings[d] == s.crossings[d]
  {
    t := Step(env, s, Register(c, l));
    u := Step(env, t, Local(c, SubmitFails));
    v := Step(env, u, FetchSub(c));
  }

  /** A submission that fails synchronously rolls the count back and leaves everything else alone. */
  lemma FailedSubmissionRollsBack(env: Env, run: seq<Action>, c: Id, l: LoopId)
    requires IsRun(env, START, run) && c !in End(env, START, run).crossings
    ensures var longer := run + [Register(c, l)] + [Local(c, SubmitFails)] + [FetchSub(c)];
            && IsRun(env, START, longer)
            && var s, v := End(env, START, run), End(env, START, longer);
               && v.count == s.count && v.loops == s.loops && v.generation == s.generation
               && v.crossings.Keys == s.crossings.Keys + {c} && v.crossings[c].fate == NotSubmitted
               && forall d :: d in s.crossings ==> v.crossings[d] == s.crossings[d]
  {
    var t, u, v := FailedSubmissionSteps(env, End(env, START, run), c, l);
    Snoc(env, START, run, Register(c, l));
    Snoc(env, START, run + [Register(c, l)], Local(c, SubmitFails));
    Snoc(env, START, run + [Register(c, l)] + [Local(c, SubmitFails)], FetchSub(c));
  }

  /** A drain parked in its wait while the count is zero was notified since it listened, or the crossing whose
      `fetch_sub` returned 1 is about to notify it. */
  lemma NoWakeupLost(env: Env, run: seq<Action>, d: Id)
    requires IsRun(env, START, run)
    requires var s := End(env, START, run);
             s.count == 0 && d in s.crossings && s.crossings[d].role.Drain? && s.crossings[d].role.at.Waiting?
    ensures var s := End(env, START, run);
            s.crossings[d].role.at.generation != s.generation || SomeoneNotifies(s)
  {
    Reachable(env, run);
  }

  // ----- The delivery guarantee -----

  /** Nothing is left to deliver to `x`: its callback is in the queue of its loop, or never will be. */
  predicate Settled(env: Env, s: State, c: Id, x: Crossing) {
    match x.fate
    case Undecided => false
    case NotSubmitted => true
    case Dropped(panicked) => if panicked then x.loop in env.panicking else x.cancelled
    case Enqueued(pos) => x.loop in s.loops && pos < |s.loops[x.loop].queue| && s.loops[x.loop].queue[pos] == c
    case LoopClosed => IsClosed(s, x.loop)
    case LoopRaised => x.loop in env.raising
    case Cancelled => x.cancelled
  }

  /** Whenever the count is zero, every tracked future ever registered is settled. */
  lemma ZeroMeansSettled(env: Env, run: seq<Action>, c: Id)
    requires IsRun(env, START, run)
    requires End(env, START, run).count == 0
    requires c in End(env, START, run).crossings && End(env, START, run).crossings[c].role.Request?
    ensures Settled(env, End(env, START, run), c, End(env, START, run).crossings[c])
  {
    Reachable(env, run);
    var s := End(env, START, run);
    assert Live(s) == {};
    assert c !in Live(s);
    assert Placed(s.crossings[c]) && FateHolds(env, s, c, s.crossings[c]);
  }

  /** A callback is enqueued at most once, on the loop of its future. */
  lemma EnqueuedOnce(env: Env, run: seq<Action>, l: LoopId, m: LoopId, i: nat, j: nat)
    requires IsRun(env, START, run)
    requires var s := End(env, START, run);
             && l in s.loops && m in s.loops
             && i < |s.loops[l].queue| && j < |s.loops[m].queue|
             && s.loops[l].queue[i] == s.loops[m].queue[j]
    ensures l == m && i == j
  {
    Reachable(env, run);
    var s := End(env, START, run);
    assert QueueOwned(s, l, s.loops[l]) && QueueOwned(s, m, s.loops[m]);
  }

  /** `Future.done()` as Python sees it, or a future Python never got. A panic releases the guard with nothing
      delivered, so it leaves the future undone. */
  predicate Done(s: State, x: Crossing) {
    x.cancelled || HasRun(s, x) || x.fate == NotSubmitted
  }

  /** The two ways in which a settled future of the same loop stays undone. */
  predicate LeftUndone(env: Env, x: Crossing) {
    || (x.fate == LoopRaised && x.loop in env.raising)
    || (x.fate == Dropped(true) && x.loop in env.panicking)
  }

  /** In `pre + [Load(d)] + post`, the drain `d` reads zero while the tracked `f` exists, and Python sees its `True`. */
  ghost predicate Observes(env: Env, pre: seq<Action>, d: Id, post: seq<Action>, f: Id) {
    && IsRun(env, START, pre)
    && ObservesFrom(env, End(env, START, pre), d, post, f)
  }

  ghost predicate ObservesFrom(env: Env, zero: State, d: Id, post: seq<Action>, f: Id) {
    && zero.count == 0
    && f in zero.crossings && zero.crossings[f].role.Request?
    && Enabled(env, zero, Load(d))
    && IsRun(env, Step(env, zero, Load(d)), post)
    && var now := Now(env, zero, d, post);
       d in now.crossings && f in now.crossings && HasRun(now, now.crossings[d])
  }

  /** Where `Load(d)` followed by `post` leads. */
  ghost function Now(env: Env, zero: State, d: Id, post: seq<Action>): State
    requires Enabled(env, zero, Load(d)) && IsRun(env, Step(env, zero, Load(d)), post)
  {
    End(env, Step(env, zero, Load(d)), post)
  }

  lemma ReadsZero(env: Env, zero: State, d: Id)
    requires Inv(env, zero) && zero.count == 0 && Enabled(env, zero, Load(d))
    ensures Inv(env, Step(env, zero, Load(d)))
    ensures d in Step(env, zero, Load(d)).crossings && Step(env, zero, Load(d)).crossings[d].ReadZero()
    ensures Step(env, zero, Load(d)).crossings[d].role.seen == zero.crossings.Keys
  {
    StepKeeps(env, zero, Load(d));
  }

  /** By the time Python observes `True`, a future on the same loop is done, unless that loop raised or the future
      panicked. */
  lemma DrainTrueMeansDone(env: Env, zero: State, d: Id, post: seq<Action>, f: Id)
    requires Inv(env, zero) && ObservesFrom(env, zero, d, post, f)
    requires zero.crossings[d].loop == zero.crossings[f].loop
    ensures var now := Now(env, zero, d, post);
            Done(now, now.crossings[f]) || LeftUndone(env, now.crossings[f])
    ensures Now(env, zero, d, post).crossings[f].loop == zero.crossings[f].loop
  {
    var read := Step(env, zero, Load(d));
    ReadsZero(env, zero, d);
    StepEvolves(env, zero, Load(d), f);
    RunEvolves(env, read, post, d);
    RunEvolves(env, read, post, f);
    RunKeeps(env, read, post);
    DoneAfterDrain(env, Now(env, zero, d, post), d, f);
  }

  lemma DoneAfterDrain(env: Env, now: State, d: Id, f: Id)
    requires Inv(env, now) && d in now.crossings && f in now.crossings
    requires now.crossings[d].ReadZero() && f in now.crossings[d].role.seen && HasRun(now, now.crossings[d])
    requires now.crossings[f].role.Request? && now.crossings[d].loop == now.crossings[f].loop
    ensures Done(now, now.crossings[f]) || LeftUndone(env, now.crossings[f])
  {
    assert SawSettled(now, d, f);
    assert Placed(now.crossings[f]) && FateHolds(env, now, f, now.crossings[f]);
  }

  /** The documented guarantee for a drain awaited on `ld` and futures of `lf`, over all runs. */
  ghost predicate Guaranteed(env: Env, ld: LoopId, lf: LoopId) {
    forall pre, d, post, f :: Observes(env, pre, d, post, f) ==>
      var zero := End(env, START, pre);
      var now := Now(env, zero, d, post);
      zero.crossings[d].loop == ld && zero.crossings[f].loop == lf ==> Done(now, now.crossings[f])
  }

  /** The module docs promise this for every tracked future. The code gives it exactly on the loop that awaits the
      drain, only if that loop raises nothing but "Event loop is closed", and only if no future on it panics. */
  lemma GuaranteedExactly(env: Env, ld: LoopId, lf: LoopId)
    ensures Guaranteed(env, ld, lf) <==> ld == lf && lf !in env.raising && lf !in env.panicking
  {
    if ld == lf && lf !in env.raising && lf !in env.panicking {
      forall pre, d, post, f | Observes(env, pre, d, post, f)
        ensures var zero := End(env, START, pre);
                var now := Now(env, zero, d, post);
                zero.crossings[d].loop == ld && zero.crossings[f].loop == lf ==> Done(now, now.crossings[f])
      {
        var zero := End(env, START, pre);
        if zero.crossings[d].loop == ld && zero.crossings[f].loop == lf {
          Reachable(env, pre);
          DrainTrueMeansDone(env, zero, d, post, f);
        }
      }
    } else {
      var pre, post := Refutation(env, ld, lf);
    }
  }

  // ----- The runs that refute it elsewhere -----

  /** States linked by actions, told without runs. */
  predicate Linked(env: Env, states: seq<State>, run: seq<Action>) {
    && |states| == |run| + 1
    && forall i :: 0 <= i < |run| ==> Links(env, states[i], run[i], states[i + 1])
  }

  predicate Links(env: Env, s: State, a: Action, t: State) {
    Enabled(env, s, a) && t == Step(env, s, a)
  }

  lemma {:induction false} LinkedRun(env: Env, states: seq<State>, run: seq<Action>)
    requires Linked(env, states, run)
    ensures IsRun(env, states[0], run) && End(env, states[0], run) == states[|run|]
    decreases |run|
  {
    if run != [] {
      assert Links(env, states[|run| - 1], run[|run| - 1], states[|run|]);
      LinkedRun(env, states[..|run|], run[..|run| - 1]);
    }
  }

  lemma LinksJoin(env: Env, s: seq<State>, r: seq<Action>, t: seq<State>, q: seq<Action>)
    requires Linked(env, s, r) && Linked(env, t, q) && s[|r|] == t[0]
    ensures Linked(env, s + t[1..], r + q)
    ensures (s + t[1..])[0] == s[0] && (s + t[1..])[|r + q|] == t[|q|] && (s + t[1..])[|r|] == s[|r|]
    ensures (r + q)[|r|..] == q
  {
    var states, run := s + t[1..], r + q;
    forall i | 0 <= i < |run|
      ensures Links(env, states[i], run[i], states[i + 1])
    {
      if i < |r| {
        assert Links(env, s[i], r[i], s[i + 1]);
      } else {
        assert Links(env, t[i - |r|], q[i - |r|], t[i - |r| + 1]);
      }
    }
  }

  /** One tracked future 0 and nothing else in flight. */
  function Alone(count: int, x: Crossing, loops: map<LoopId, Loop>): State {
    State(count, 0, map[0 := x], loops)
  }

  function Submission(l: LoopId): Crossing {
    Crossing(l, Request, Submitting, Wrapper, Undecided, false, 0)
  }

  function Runs(l: LoopId): Crossing {
    Submission(l).(pc := Running)
  }

  /** The callback of the future is on its way into its loop. */
  function Arrives(l: LoopId): Crossing {
    Submission(l).(pc := CheckClosed, holder := Frame)
  }

  function TwoLoops(ld: LoopId, lf: LoopId): map<LoopId, Loop> {
    map[lf := Loop(false, [], 0)] + map[ld := Loop(false, [], 0)]
  }

  lemma AloneMoves(env: Env, n: int, x: Crossing, loops: map<LoopId, Loop>, m: Move)
    requires CanMove(env, Alone(n, x, loops), x, m)
    ensures Links(env, Alone(n, x, loops), Local(0, m), Alone(n, Moved(env, Alone(n, x, loops), x, m), loops))
  {
    var y := Moved(env, Alone(n, x, loops), x, m);
    assert map[0 := x][0 := y] == map[0 := y];
  }

  lemma AloneReleases(env: Env, x: Crossing, loops: map<LoopId, Loop>)
    requires x.pc == Releasing
    ensures Links(env, Alone(1, x, loops), FetchSub(0),
                  Alone(0, x.(pc := Notifying, holder := Nobody, releases := x.releases + 1), loops))
  {
    var y := x.(pc := Notifying, holder := Nobody, releases := x.releases + 1);
    assert map[0 := x][0 := y] == map[0 := y];
  }

  lemma AloneEnqueues(env: Env, n: int, x: Crossing, loops: map<LoopId, Loop>)
    requires x.pc == CallReal && x.loop in loops && loops[x.loop] == Loop(false, [], 0)
    ensures Links(env, Alone(n, x, loops), Enqueue(0),
                  Alone(n, x.Decided(Enqueued(0)), loops[x.loop := Loop(false, [0], 0)]))
  {
    var y := x.Decided(Enqueued(0));
    assert map[0 := x][0 := y] == map[0 := y];
    assert loops[x.loop].queue + [0 as Id] == [0];
  }

  lemma FutureIsSubmitted(env: Env, ld: LoopId, lf: LoopId) returns (states: seq<State>, run: seq<Action>)
    ensures Linked(env, states, run) && states[0] == START
    ensures states[|run|] == Alone(1, Submission(lf), TwoLoops(ld, lf))
  {
    var one := map[lf := Loop(false, [], 0)];
    run := [OpenLoop(lf), Register(0, lf)];
    states := [START, State(0, 0, map[], one), Alone(1, Submission(lf), one)];
    assert map[][lf := Loop(false, [], 0)] == one;
    assert map[][0 := Submission(lf)] == map[0 := Submission(lf)];
    if ld != lf {
      run := run + [OpenLoop(ld)];
      states := states + [Alone(1, Submission(lf), TwoLoops(ld, lf))];
      assert one[ld := Loop(false, [], 0)] == TwoLoops(ld, lf);
    } else {
      assert one == TwoLoops(ld, lf);
    }
  }

  /** One tracked future 0 runs on `lf`, and on the loop `ld` nothing has happened. */
  lemma FutureStarts(env: Env, ld: LoopId, lf: LoopId) returns (states: seq<State>, run: seq<Action>)
    ensures Linked(env, states, run) && states[0] == START
    ensures states[|run|] == Alone(1, Runs(lf), TwoLoops(ld, lf))
  {
    states, run := FutureIsSubmitted(env, ld, lf);
    var loops := TwoLoops(ld, lf);
    AloneMoves(env, 1, Submission(lf), loops, Submitted);
    var t, q := [Alone(1, Submission(lf), loops), Alone(1, Runs(lf), loops)], [Local(0, Submitted)];
    LinksJoin(env, states, run, t, q);
    states, run := states + t[1..], run + q;
  }

  lemma FutureCalls(env: Env, lf: LoopId, loops: map<LoopId, Loop>) returns (states: seq<State>, run: seq<Action>)
    requires lf in loops
    ensures Linked(env, states, run) && states[0] == Alone(1, Runs(lf), loops)
    ensures states[|run|] == Alone(1, Arrives(lf), loops)
  {
    var x0, x3 := Runs(lf), Arrives(lf);
    var x1 := x0.(pc := Completed, holder := Slot);
    var x2 := x1.(pc := Calling);
    AloneMoves(env, 1, x0, loops, Complete);
    AloneMoves(env, 1, x1, loops, Deliver);
    AloneMoves(env, 1, x2, loops, Take);
    run := [Local(0, Complete), Local(0, Deliver), Local(0, Take)];
    states := [Alone(1, x0, loops), Alone(1, x1, loops), Alone(1, x2, loops), Alone(1, x3, loops)];
  }

  /** The guard of the future 0 is gone, the future is not done, and nothing has run on its loop or on `ld`. */
  predicate Undone(t: State, ld: LoopId, lf: LoopId) {
    && t.count == 0 && t.crossings.Keys == {0}
    && t.crossings[0].role.Request? && t.crossings[0].loop == lf && !Done(t, t.crossings[0])
    && ld in t.loops && t.loops[ld] == Loop(false, [], 0)
    && lf in t.loops && t.loops[lf].ran == 0
    && (ld == lf ==> !t.crossings[0].fate.Enqueued?)
  }

  lemma SettlesUndone(x: Crossing, ld: LoopId, lf: LoopId)
    requires x.role.Request? && x.loop == lf && !x.cancelled && (x.fate == LoopRaised || x.fate == Dropped(true))
    ensures Undone(Alone(0, x, TwoLoops(ld, lf)), ld, lf)
  {
  }

  /** The loop of the future raises. */
  lemma FutureRaises(env: Env, ld: LoopId, lf: LoopId) returns (states: seq<State>, run: seq<Action>)
    requires lf in env.raising
    ensures Linked(env, states, run) && states[0] == Alone(1, Arrives(lf), TwoLoops(ld, lf))
    ensures Undone(states[|run|], ld, lf)
  {
    var loops := TwoLoops(ld, lf);
    var x0 := Arrives(lf);
    var x1 := x0.Decided(LoopRaised);
    var x2 := x1.(pc := Notifying, holder := Nobody, releases := 1);
    AloneMoves(env, 1, x0, loops, Raises);
    AloneReleases(env, x1, loops);
    SettlesUndone(x2, ld, lf);
    run := [Local(0, Raises), FetchSub(0)];
    states := [Alone(1, x0, loops), Alone(1, x1, loops), Alone(0, x2, loops)];
  }

  /** The callback of the future waits on another loop. */
  lemma FutureWaits(env: Env, ld: LoopId, lf: LoopId) returns (states: seq<State>, run: seq<Action>)
    requires ld != lf
    ensures Linked(env, states, run) && states[0] == Alone(1, Arrives(lf), TwoLoops(ld, lf))
    ensures Undone(states[|run|], ld, lf)
  {
    var loops := TwoLoops(ld, lf);
    var longer := loops[lf := Loop(false, [0], 0)];
    var x0 := Arrives(lf);
    var x1 := x0.(pc := CallReal);
    var x2 := x1.Decided(Enqueued(0));
    var x3 := x2.(pc := Notifying, holder := Nobody, releases := 1);
    AloneMoves(env, 1, x0, loops, SeesOpen);
    AloneEnqueues(env, 1, x1, loops);
    AloneReleases(env, x2, longer);
    run := [Local(0, SeesOpen), Enqueue(0), FetchSub(0)];
    states := [Alone(1, x0, loops), Alone(1, x1, loops), Alone(1, x2, longer), Alone(0, x3, longer)];
  }

  /** The inner future panics, and the wrapper is dropped with its guard. */
  lemma FuturePanics(env: Env, ld: LoopId, lf: LoopId) returns (states: seq<State>, run: seq<Action>)
    requires lf in env.panicking
    ensures Linked(env, states, run) && states[0] == Alone(1, Runs(lf), TwoLoops(ld, lf))
    ensures Undone(states[|run|], ld, lf)
  {
    var loops := TwoLoops(ld, lf);
    var x0 := Runs(lf);
    var x1 := x0.Decided(Dropped(true));
    var x2 := x1.(pc := Notifying, holder := Nobody, releases := 1);
    AloneMoves(env, 1, x0, loops, Abandon(true));
    AloneReleases(env, x1, loops);
    SettlesUndone(x2, ld, lf);
    run := [Local(0, Abandon(true)), FetchSub(0)];
    states := [Alone(1, x0, loops), Alone(1, x1, loops), Alone(0, x2, loops)];
  }

  /** However the condition fails, the future can let the count drop to zero and stay undone. */
  lemma FutureStaysUndone(env: Env, ld: LoopId, lf: LoopId) returns (states: seq<State>, run: seq<Action>)
    requires ld != lf || lf in env.raising || lf in env.panicking
    ensures Linked(env, states, run) && states[0] == Alone(1, Runs(lf), TwoLoops(ld, lf))
    ensures Undone(states[|run|], ld, lf)
  {
    if lf in env.panicking {
      states, run := FuturePanics(env, ld, lf);
    } else {
      states, run := FutureCalls(env, lf, TwoLoops(ld, lf));
      var t, q;
      if ld != lf {
        t, q := FutureWaits(env, ld, lf);
      } else {
        t, q := FutureRaises(env, ld, lf);
      }
      LinksJoin(env, states, run, t, q);
      states, run := states + t[1..], run + q;
    }
  }

  /** A drain 1 on `ld` runs up to its load, then from a zero load to `True` in Python. */
  lemma DrainListens(env: Env, ld: LoopId, s: State) returns (states: seq<State>, run: seq<Action>)
    requires 1 !in s.crossings && ld in s.loops
    ensures Linked(env, states, run) && states[0] == s
    ensures states[|run|] == s.(crossings := s.crossings[1 :=
              Crossing(ld, Drain(false, Listening(s.generation), {}), Running, Nobody, Undecided, false, 0)])
  {
    run := [StartDrain(1, ld, false), Local(1, Submitted), Local(1, Listen)];
    var s1 := Step(env, s, run[0]);
    var s2 := Step(env, s1, run[1]);
    var s3 := Step(env, s2, run[2]);
    states := [s, s1, s2, s3];
    assert s3.crossings == s.crossings[1 := s3.crossings[1]];
  }

  lemma DrainCalls(env: Env, ld: LoopId, s: State) returns (states: seq<State>, run: seq<Action>)
    requires 1 in s.crossings && s.crossings[1].loop == ld && !s.crossings[1].cancelled
    requires s.crossings[1].pc == Running && s.crossings[1].holder == Nobody && s.crossings[1].ReadZero()
    ensures Linked(env, states, run) && states[0] == s
    ensures states[|run|] == s.(crossings := s.crossings[1 := s.crossings[1].(pc := CheckClosed)])
  {
    run := [Local(1, Complete), Local(1, Deliver), Local(1, Take)];
    var s1 := Step(env, s, run[0]);
    var s2 := Step(env, s1, run[1]);
    var s3 := Step(env, s2, run[2]);
    states := [s, s1, s2, s3];
    assert s3.crossings == s.crossings[1 := s3.crossings[1]];
  }

  lemma DrainReturns(env: Env, ld: LoopId, s: State) returns (states: seq<State>, run: seq<Action>)
    requires 1 in s.crossings && ld in s.loops && s.loops[ld] == Loop(false, [], 0)
    requires s.crossings[1].loop == ld && s.crossings[1].pc == CheckClosed
    ensures Linked(env, states, run) && states[0] == s
    ensures var t := states[|run|];
            && 1 in t.crossings && HasRun(t, t.crossings[1])
            && (forall c :: c in s.crossings && c != 1 ==> c in t.crossings && t.crossings[c] == s.crossings[c])
            && (forall l :: l in s.loops && l != ld ==> l in t.loops && t.loops[l] == s.loops[l])
  {
    run := [Local(1, SeesOpen), Enqueue(1), RunCallback(ld)];
    var s1 := Step(env, s, run[0]);
    var s2 := Step(env, s1, run[1]);
    var s3 := Step(env, s2, run[2]);
    states := [s, s1, s2, s3];
  }

  lemma {:induction false} RunsJoin(env: Env, s: State, first: seq<Action>, rest: seq<Action>)
    requires IsRun(env, s, first) && IsRun(env, End(env, s, first), rest)
    ensures IsRun(env, s, first + rest)
    ensures End(env, s, first + rest) == End(env, End(env, s, first), rest)
    decreases |rest|
  {
    if rest == [] {
      assert first + rest == first;
    } else {
      var before := rest[..|rest| - 1];
      RunsJoin(env, s, first, before);
      Snoc(env, s, first + before, rest[|rest| - 1]);
      assert first + before + [rest[|rest| - 1]] == first + rest;
    }
  }

  lemma Refutation(env: Env, ld: LoopId, lf: LoopId) returns (pre: seq<Action>, post: seq<Action>)
    requires ld != lf || lf in env.raising || lf in env.panicking
    ensures Observes(env, pre, 1, post, 0)
    ensures End(env, START, pre).crossings[1].loop == ld && End(env, START, pre).crossings[0].loop == lf
    ensures !Done(Now(env, End(env, START, pre), 1, post), Now(env, End(env, START, pre), 1, post).crossings[0])
  {
    var states, run := FutureStarts(env, ld, lf);
    LinkedRun(env, states, run);
    pre := run;
    states, run := FutureStaysUndone(env, ld, lf);
    LinkedRun(env, states, run);
    RunsJoin(env, START, pre, run);
    pre := pre + run;
    states, run := DrainListens(env, ld, states[|run|]);
    LinkedRun(env, states, run);
    RunsJoin(env, START, pre, run);
    pre := pre + run;
    var zero := states[|run|];
    states, post := DrainCalls(env, ld, Step(env, zero, Load(1)));
    LinkedRun(env, states, post);
    states, run := DrainReturns(env, ld, states[|post|]);
    LinkedRun(env, states, run);
    RunsJoin(env, Step(env, zero, Load(1)), post, run);
    post := post + run;
    RefutationEnds(env, ld, lf, zero, states[|run|]);
  }

  lemma RefutationEnds(env: Env, ld: LoopId, lf: LoopId, zero: State, now: State)
    requires 0 in zero.crossings && 0 in now.crossings && now.crossings[0] == zero.crossings[0]
    requires !Done(zero, zero.crossings[0]) && zero.crossings[0].loop == lf
    requires ld == lf ==> !zero.crossings[0].fate.Enqueued?
    requires ld != lf ==> lf in zero.loops && lf in now.loops && now.loops[lf] == zero.loops[lf]
    ensures !Done(now, now.crossings[0])
  {
  }
}
