/** The methods of `src/bridge.rs` themselves, run among arbitrary steps of everyone else.

    Each atomic operation is a method that changes the fields; `Others` lets the rest of the process run between
    two of them. Whatever the rest does, the code only takes steps of the protocol of module `Bridge`. */
module BridgeCode {
  import opened Bridge
  import opened BridgeSafety
  import opened BridgeProgress
  import opened BridgeDelivery

  /** The steps of `c` itself among these actions. */
  function Own(actions: seq<Action>, c: Id): seq<Action> {
    if actions == [] then []
    else
      var last := actions[|actions| - 1];
      Own(actions[..|actions| - 1], c) + if StepOf(last, c) then [last] else []
  }

  lemma OwnSnoc(actions: seq<Action>, a: Action, c: Id)
    ensures Own(actions + [a], c) == Own(actions, c) + if StepOf(a, c) then [a] else []
  {
    assert (actions + [a])[..|actions|] == actions;
  }

  /** A step of someone else: it can cancel the future of `c`, or free `c` while it is stranded, and no more. */
  lemma OthersKeep(env: Env, s: State, a: Action, c: Id)
    requires Enabled(env, s, a) && !StepOf(a, c) && c in s.crossings && s.crossings[c].pc != Skipped
    ensures c in Step(env, s, a).crossings
    ensures Step(env, s, a).crossings[c]
         == s.crossings[c].(cancelled := Step(env, s, a).crossings[c].cancelled)
    ensures s.crossings[c].cancelled ==> Step(env, s, a).crossings[c].cancelled
    ensures s.crossings[c].loop in s.loops ==> s.crossings[c].loop in Step(env, s, a).loops
    ensures IsClosed(s, s.crossings[c].loop) ==> IsClosed(Step(env, s, a), s.crossings[c].loop)
    ensures Step(env, s, a).generation >= s.generation
    ensures IsOpen(s, s.crossings[c].loop) && a != CloseLoop(s.crossings[c].loop) ==>
              IsOpen(Step(env, s, a), s.crossings[c].loop)
  {
  }

  /** What the rest of the process tries to do at the interruption points of one round of `drain`. */
  datatype Round = Round(beforeLoad: seq<Action>, whileWaiting: seq<Action>, beforeTap: seq<Action>, expires: bool)

  /** What it tries to do at the interruption points of the other methods. */
  datatype Gaps = Gaps(beforeIsClosed: seq<Action>, beforeRealCall: seq<Action>,
                       beforeFetchSub: seq<Action>, beforeNotify: seq<Action>)

  datatype Raising = Nothing | IsClosedCall | RealCall

  datatype Outcome = Completes | IsCancelled | Panics

  datatype DrainResult = Answer(value: bool) | StillWaiting

  lemma TwoSteps(own: seq<Action>, a: Action, b: Action)
    ensures own + [a] + [b] == own + [a, b]
  {
  }

  /** How a wait inside `drain` ends: with the overall timeout, the notification, or the 100 ms tick. */
  datatype WaitEnd = Expired | Notified | Tapped

  /** What `drain` does after a positive load, and in a whole round. */
  function WaitSteps(end: WaitEnd, d: Id): seq<Action> {
    match end
    case Expired => [Local(d, TimesOut)]
    case Notified => [Local(d, Move.Wake)]
    case Tapped => [Local(d, Tick), Tap(d)]
  }

  function LoadSteps(d: Id): seq<Action> {
    [Local(d, Listen), Load(d)]
  }

  /** The rounds whose waits ended so. */
  function Program(ends: seq<WaitEnd>, d: Id): seq<Action> {
    if ends == [] then []
    else Program(ends[..|ends| - 1], d) + LoadSteps(d) + WaitSteps(ends[|ends| - 1], d)
  }

  /** From `before` to `after` a drain took the steps of rounds that ended so, and then, if `zero`, read zero. */
  predicate Ran(before: seq<Action>, after: seq<Action>, ends: seq<WaitEnd>, d: Id, zero: bool) {
    after == before + Program(ends, d) + if zero then LoadSteps(d) else []
  }

  lemma RanOn(start: seq<Action>, before: seq<Action>, after: seq<Action>, ends: seq<WaitEnd>, end: WaitEnd, d: Id,
              zero: bool)
    requires Ran(start, before, ends, d, false)
    requires after == before + LoadSteps(d) + if zero then [] else WaitSteps(end, d)
    ensures if zero then Ran(start, after, ends, d, true) else Ran(start, after, ends + [end], d, false)
  {
    assert (ends + [end])[..|ends|] == ends;
    var program, load, wait := Program(ends, d), LoadSteps(d), WaitSteps(end, d);
    assert start + program + [] == start + program;
    assert start + program + load + [] == start + program + load;
    assert start + program + load + wait == start + (program + load + wait);
  }

  class Process {
    const env: Env
    var count: int
    var generation: nat
    var crossings: map<Id, Crossing>
    var loops: map<LoopId, Loop>
    ghost var history: seq<Action>

    ghost function Now(): State
      reads this
    {
      State(count, generation, crossings, loops)
    }

    ghost predicate Valid()
      reads this
    {
      IsRun(env, START, history) && End(env, START, history) == Now()
    }

    constructor (env: Env)
      ensures Valid() && Now() == START && this.env == env && history == []
    {
      this.env := env;
      count, generation, crossings, loops, history := 0, 0, map[], map[], [];
    }

    lemma PlacedNow(c: Id)
      requires Valid() && c in crossings
      ensures Placed(crossings[c]) && FateHolds(env, Now(), c, crossings[c])
      ensures crossings[c].InFlight() ==> count >= 1
    {
      Reachable(env, history);
      assert crossings[c].InFlight() ==> c in Live(Now());
    }

    // ----- Atomic operations -----

    /** `InFlightGuard::register`, with the wrapper that captures the guard. */
    method Register(c: Id, l: LoopId)
      requires Valid() && c !in crossings
      modifies this
      ensures Valid() && Now() == Step(env, old(Now()), Action.Register(c, l))
    {
      Snoc(env, START, history, Action.Register(c, l));
      history := history + [Action.Register(c, l)];
      count := count + 1;
      crossings := crossings[c := Crossing(l, Request, Submitting, Wrapper, Undecided, false, 0)];
    }

    /** One step that concerns only the program point, the guard or the fate of `c`. */
    method Do(c: Id, m: Move)
      requires Valid() && c in crossings && CanMove(env, Now(), crossings[c], m)
      modifies this`crossings, this`history
      ensures Valid() && crossings == old(crossings[c := Moved(env, Now(), crossings[c], m)])
      ensures m != Cancel ==> Own(history, c) == Own(old(history), c) + [Local(c, m)]
    {
      OwnSnoc(history, Local(c, m), c);
      Snoc(env, START, history, Local(c, m));
      history := history + [Local(c, m)];
      crossings := crossings[c := Moved(env, State(count, generation, crossings, loops), crossings[c], m)];
    }

    /** The `fetch_sub` of the drop of a guard; answers the count before it. */
    method FetchSub(c: Id) returns (before: int)
      requires Valid() && c in crossings && crossings[c].pc == Releasing
      modifies this`count, this`crossings, this`history
      ensures Valid() && before == old(count) && count == before - 1 && before >= 1
      ensures history == old(history) + [Action.FetchSub(c)]
      ensures crossings == old(crossings)[c := old(crossings)[c].(pc := if before == 1 then Notifying else Finished,
                                                       holder := Nobody, releases := 1)]
    {
      PlacedNow(c);
      Snoc(env, START, history, Action.FetchSub(c));
      history := history + [Action.FetchSub(c)];
      before := count;
      count := count - 1;
      var x := crossings[c];
      crossings := crossings[c := x.(pc := if before == 1 then Notifying else Finished,
                                     holder := Nobody, releases := x.releases + 1)];
    }

    method NotifyWaiters(c: Id)
      requires Valid() && c in crossings && crossings[c].pc == Notifying
      modifies this`generation, this`crossings, this`history
      ensures Valid() && generation == old(generation) + 1
      ensures history == old(history) + [Notify(c)]
      ensures crossings == old(crossings)[c := old(crossings)[c].(pc := Finished)]
    {
      Snoc(env, START, history, Notify(c));
      history := history + [Notify(c)];
      generation := generation + 1;
      crossings := crossings[c := crossings[c].(pc := Finished)];
    }

    /** The real `call_soon_threadsafe`, on an open loop. */
    method Enqueue(c: Id)
      requires Valid() && c in crossings && crossings[c].pc == CallReal && IsOpen(Now(), crossings[c].loop)
      modifies this`crossings, this`loops, this`history
      ensures Valid() && Now() == Step(env, old(Now()), Action.Enqueue(c))
    {
      Snoc(env, START, history, Action.Enqueue(c));
      history := history + [Action.Enqueue(c)];
      var x := crossings[c];
      var loop := loops[x.loop];
      loops := loops[x.loop := loop.(queue := loop.queue + [c])];
      crossings := crossings[c := x.Decided(Enqueued(|loop.queue|))];
    }

    /** The load of `drain`; answers the count. */
    method LoadCount(d: Id) returns (n: int)
      requires Valid() && d in crossings
      requires crossings[d].pc == Running && crossings[d].role.Drain? && crossings[d].role.at.Listening?
      modifies this`crossings, this`history
      ensures Valid() && n == count
      ensures Own(history, d) == Own(old(history), d) + [Load(d)]
      ensures crossings == old(crossings)[d := Loaded(old(Now()), old(crossings)[d])]
    {
      OwnSnoc(history, Load(d), d);
      Snoc(env, START, history, Load(d));
      history := history + [Load(d)];
      n := count;
      if n == 0 {
        var role := Drain(crossings[d].role.timed, Returned(true), crossings.Keys);
        crossings := crossings[d := crossings[d].(role := role)];
      } else {
        crossings := crossings[d := crossings[d].DrainAt(Waiting(crossings[d].role.at.generation))];
      }
    }

    method TapGil(d: Id)
      requires Valid() && d in crossings && crossings[d].IsDrainAt(Tapping)
      modifies this`crossings, this`history
      ensures Valid() && crossings == Freed(old(crossings)[d := old(crossings)[d].DrainAt(Top)])
      ensures Own(history, d) == Own(old(history), d) + [Tap(d)]
      ensures d in crossings && crossings[d] == old(crossings)[d].DrainAt(Top) && NobodyStranded()
    {
      OwnSnoc(history, Tap(d), d);
      Snoc(env, START, history, Tap(d));
      history := history + [Tap(d)];
      crossings := Freed(crossings[d := crossings[d].DrainAt(Top)]);
    }

    // ----- Everyone else -----

    /** The rest of the process, between two steps of `c`: it tries the actions in order. */
    method Others(c: Id, actions: seq<Action>)
      requires Valid() && c in crossings && crossings[c].pc != Skipped
      modifies this
      ensures Valid() && c in crossings
      ensures crossings[c] == old(crossings[c]).(cancelled := crossings[c].cancelled)
      ensures old(crossings[c].cancelled) ==> crossings[c].cancelled
      ensures old(crossings[c].loop in loops) ==> crossings[c].loop in loops
      ensures old(IsClosed(Now(), crossings[c].loop)) ==> IsClosed(Now(), crossings[c].loop)
      ensures CloseLoop(old(crossings[c].loop)) in actions && old(crossings[c].loop in loops) ==>
                IsClosed(Now(), crossings[c].loop)
      ensures generation >= old(generation) && Own(history, c) == Own(old(history), c)
      ensures CloseLoop(old(crossings[c].loop)) !in actions && old(IsOpen(Now(), crossings[c].loop)) ==>
                IsOpen(Now(), crossings[c].loop)
      ensures actions == [] ==> Now() == old(Now())
    {
      ghost var x := crossings[c];
      for i := 0 to |actions|
        invariant Valid() && c in crossings
        invariant crossings[c] == x.(cancelled := crossings[c].cancelled)
        invariant x.cancelled ==> crossings[c].cancelled
        invariant old(crossings[c].loop in loops) ==> crossings[c].loop in loops
        invariant old(IsClosed(Now(), crossings[c].loop)) ==> IsClosed(Now(), crossings[c].loop)
        invariant CloseLoop(x.loop) in actions[..i] && old(crossings[c].loop in loops) ==>
                    IsClosed(Now(), crossings[c].loop)
        invariant generation >= old(generation) && Own(history, c) == Own(old(history), c)
        invariant CloseLoop(x.loop) !in actions && old(IsOpen(Now(), crossings[c].loop)) ==> IsOpen(Now(), x.loop)
        invariant i == 0 ==> Now() == old(Now())
      {
        Other(c, actions[i]);
      }
    }

    /** One step of someone else, if it is possible. */
    method Other(c: Id, a: Action)
      requires Valid() && c in crossings && crossings[c].pc != Skipped
      modifies this
      ensures Valid() && c in crossings
      ensures crossings[c] == old(crossings[c]).(cancelled := crossings[c].cancelled)
      ensures old(crossings[c].cancelled) ==> crossings[c].cancelled
      ensures old(crossings[c].loop in loops) ==> crossings[c].loop in loops
      ensures old(IsClosed(Now(), crossings[c].loop)) ==> IsClosed(Now(), crossings[c].loop)
      ensures a == CloseLoop(old(crossings[c].loop)) && old(crossings[c].loop in loops) ==>
                IsClosed(Now(), crossings[c].loop)
      ensures generation >= old(generation) && Own(history, c) == Own(old(history), c)
      ensures a != CloseLoop(old(crossings[c].loop)) && old(IsOpen(Now(), crossings[c].loop)) ==>
                IsOpen(Now(), crossings[c].loop)
    {
      if !StepOf(a, c) && Enabled(env, State(count, generation, crossings, loops), a) {
        Snoc(env, START, history, a);
        OwnSnoc(history, a, c);
        OthersKeep(env, Now(), a, c);
        history := history + [a];
        var t := Step(env, State(count, generation, crossings, loops), a);
        count, generation, crossings, loops := t.count, t.generation, t.crossings, t.loops;
      }
    }

    // ----- The code -----

    /** `Drop for InFlightGuard`, at the end of a scope. A scope that owns no guard drops nothing. */
    method DropGuard(c: Id, gaps: Gaps)
      requires Valid() && c in crossings
      requires crossings[c].pc == Releasing || crossings[c].pc == Finished
      modifies this
      ensures Valid() && c in crossings && crossings[c].pc == Finished && crossings[c].holder == Nobody
      ensures crossings[c].fate == old(crossings[c].fate) && crossings[c].loop == old(crossings[c].loop)
      ensures crossings[c].role == old(crossings[c].role)
      ensures crossings[c].releases == if crossings[c].role.Request? then 1 else 0
    {
      Others(c, gaps.beforeFetchSub);
      if crossings[c].pc == Releasing {
        var before := FetchSub(c);
        if before == 1 {
          Others(c, gaps.beforeNotify);
          NotifyWaiters(c);
        }
      }
      PlacedNow(c);
    }

    /** `GuardedEventLoop::call_soon_threadsafe`. `raises` tells which of its two calls into the loop, if any, raises
        something other than "Event loop is closed"; answers whether that error propagates. */
    method CallSoonThreadsafe(c: Id, raises: Raising, gaps: Gaps) returns (propagates: bool)
      requires Valid() && c in crossings && crossings[c].pc == Calling
      requires raises != Nothing ==> crossings[c].loop in env.raising
      modifies this
      ensures Valid() && c in crossings && crossings[c].pc == Finished && crossings[c].holder == Nobody
      ensures crossings[c].loop == old(crossings[c].loop) && crossings[c].role == old(crossings[c].role)
      ensures crossings[c].releases == if crossings[c].role.Request? then 1 else 0
      ensures propagates <==> crossings[c].fate == LoopRaised
      ensures raises == Nothing ==> crossings[c].fate == LoopClosed || crossings[c].fate.Enqueued?
      ensures raises == IsClosedCall ==> propagates
      ensures raises == RealCall && !IsClosed(Now(), crossings[c].loop) ==> propagates
      ensures old(IsClosed(Now(), crossings[c].loop)) && raises != IsClosedCall ==> crossings[c].fate == LoopClosed
      ensures raises != IsClosedCall
              && (CloseLoop(crossings[c].loop) in gaps.beforeIsClosed
                  || CloseLoop(crossings[c].loop) in gaps.beforeRealCall) ==>
                crossings[c].fate == LoopClosed
      ensures raises == Nothing && old(IsOpen(Now(), crossings[c].loop))
              && CloseLoop(crossings[c].loop) !in gaps.beforeIsClosed
              && CloseLoop(crossings[c].loop) !in gaps.beforeRealCall ==>
                crossings[c].fate.Enqueued?
      ensures Settled(env, Now(), c, crossings[c])
    {
      PlacedNow(c);
      Do(c, Take);
      Others(c, gaps.beforeIsClosed);
      CallLoop(c, raises, gaps.beforeRealCall);
      propagates := crossings[c].fate == LoopRaised;
      DropGuard(c, gaps);
      PlacedNow(c);
    }

    /** The two calls into the real loop, up to the return. */
    method CallLoop(c: Id, raises: Raising, beforeRealCall: seq<Action>)
      requires Valid() && c in crossings && crossings[c].pc == CheckClosed
      requires crossings[c].fate == Undecided && crossings[c].loop in loops
      requires raises != Nothing ==> crossings[c].loop in env.raising
      modifies this
      ensures Valid() && c in crossings
      ensures crossings[c].pc == Releasing || crossings[c].pc == Finished
      ensures crossings[c].loop == old(crossings[c].loop) && crossings[c].role == old(crossings[c].role)
      ensures crossings[c].fate == LoopRaised || crossings[c].fate == LoopClosed || crossings[c].fate.Enqueued?
      ensures raises == Nothing ==> crossings[c].fate != LoopRaised
      ensures raises == IsClosedCall ==> crossings[c].fate == LoopRaised
      ensures raises == RealCall ==> !crossings[c].fate.Enqueued?
      ensures old(IsClosed(Now(), crossings[c].loop)) && raises != IsClosedCall ==> crossings[c].fate == LoopClosed
      ensures CloseLoop(crossings[c].loop) in beforeRealCall && raises != IsClosedCall ==>
                crossings[c].fate == LoopClosed
      ensures raises == Nothing && old(IsOpen(Now(), crossings[c].loop))
              && CloseLoop(crossings[c].loop) !in beforeRealCall ==>
                crossings[c].fate.Enqueued?
    {
      if raises == IsClosedCall {
        Do(c, Raises);
      } else if loops[crossings[c].loop].closed {
        Do(c, SeesClosed);
      } else {
        Do(c, SeesOpen);
        Others(c, beforeRealCall);
        CallRealLoop(c, raises);
      }
    }

    /** The real call, on a loop that may have closed since it looked open. */
    method CallRealLoop(c: Id, raises: Raising)
      requires Valid() && c in crossings && crossings[c].pc == CallReal && crossings[c].loop in loops
      requires raises == RealCall ==> crossings[c].loop in env.raising
      modifies this
      ensures Valid() && c in crossings && crossings[c].pc == old(crossings[c].ScopeEnds().pc)
      ensures crossings[c].loop == old(crossings[c].loop) && crossings[c].role == old(crossings[c].role)
      ensures crossings[c].fate == LoopRaised || crossings[c].fate == LoopClosed || crossings[c].fate.Enqueued?
      ensures crossings[c].fate == LoopClosed <==> old(IsClosed(Now(), crossings[c].loop))
      ensures crossings[c].fate == LoopRaised <==> raises == RealCall && old(!IsClosed(Now(), crossings[c].loop))
    {
      if loops[crossings[c].loop].closed {
        Do(c, Refused);
      } else if raises == RealCall {
        Do(c, Raises);
      } else {
        Enqueue(c);
      }
    }

    /** What the bridge does with a completed wrapper: skip a cancelled future, deliver to any other. */
    method SetResult(c: Id, raises: Raising, gaps: Gaps)
      requires Valid() && c in crossings && crossings[c].pc == Completed
      requires raises != Nothing ==> crossings[c].loop in env.raising
      modifies this
      ensures Valid() && c in crossings
      ensures crossings[c].pc == Skipped <==> old(crossings[c].cancelled)
      ensures crossings[c].pc == Skipped || crossings[c].pc == Finished
      ensures crossings[c].pc == Finished ==> Settled(env, Now(), c, crossings[c])
    {
      if crossings[c].cancelled {
        Do(c, Skip);
      } else {
        Do(c, Deliver);
        var _ := CallSoonThreadsafe(c, raises, gaps);
      }
    }

    /** `future_into_py`: counted before anything fallible runs; a failed submission gives the count back. */
    method FutureIntoPy(c: Id, l: LoopId, fails: bool, gaps: Gaps) returns (submitted: bool)
      requires Valid() && c !in crossings
      modifies this
      ensures Valid() && c in crossings && crossings[c].role == Request && crossings[c].loop == l
      ensures submitted ==> !fails && crossings[c].pc == Running && crossings[c].holder == Wrapper
      ensures !submitted ==> crossings[c].pc == Finished && crossings[c].releases == 1
      ensures !submitted ==> crossings[c].fate == NotSubmitted
      ensures !fails && old(l in loops) ==> submitted
    {
      Register(c, l);
      Others(c, gaps.beforeIsClosed);
      submitted := !fails && l in loops;
      if submitted {
        Do(c, Submitted);
      } else {
        Do(c, SubmitFails);
        DropGuard(c, gaps);
      }
    }

    /** The wrapper future after its first poll: it completes and parks its guard, or is dropped with it. */
    method RunWrapper(c: Id, outcome: Outcome, gaps: Gaps) returns (completed: bool)
      requires Valid() && c in crossings && crossings[c].pc == Running && crossings[c].role == Request
      requires outcome == Panics ==> crossings[c].loop in env.panicking
      modifies this
      ensures Valid() && c in crossings && crossings[c].loop == old(crossings[c].loop)
      ensures completed ==> crossings[c].pc == Completed && crossings[c].holder == Slot
      ensures !completed ==> crossings[c].pc == Finished && crossings[c].releases == 1 && crossings[c].fate.Dropped?
      ensures completed <==> outcome == Completes || (outcome == IsCancelled && crossings[c].fate == Undecided)
      ensures outcome == IsCancelled && old(crossings[c].cancelled) ==> !completed
      ensures outcome == IsCancelled && completed && gaps.beforeIsClosed == [] ==> old(!crossings[c].cancelled)
    {
      PlacedNow(c);
      Others(c, gaps.beforeIsClosed);
      if outcome == Panics || (outcome == IsCancelled && crossings[c].cancelled) {
        completed := false;
        Do(c, Abandon(outcome == Panics));
        DropGuard(c, gaps);
      } else {
        completed := true;
        Do(c, Complete);
      }
    }

    /** The loop of `drain`, for the given rounds. What it does itself is the program of the source: in each round it
        listens, loads the count and, unless that is zero, waits; a wait that ends with the tick takes the GIL. `ends`
        tells how the waits ended. */
    method RunDrain(d: Id, rounds: seq<Round>) returns (r: DrainResult, ghost ends: seq<WaitEnd>)
      requires Valid() && d in crossings && crossings[d].IsDrainAt(Top)
      modifies this
      ensures Valid() && d in crossings && crossings[d].pc == Running && crossings[d].role.Drain?
      ensures crossings[d].role.at == if r.Answer? then Returned(r.value) else Top
      ensures r == Answer(false) ==> old(crossings[d].role.timed)
      ensures r == Answer(true) ==> count == 0 && crossings[d].role.seen == crossings.Keys && EveryoneSettled()
      ensures rounds != [] && rounds[0].beforeLoad == [] && old(count) == 0 ==> r == Answer(true)
      ensures old(crossings[d].role.timed) && (exists i :: 0 <= i < |rounds| && rounds[i].expires) ==> r.Answer?
      ensures rounds != [] && r == StillWaiting && generation == old(generation) ==> NobodyStranded()
      ensures |ends| <= |rounds| && (r == StillWaiting ==> |ends| == |rounds|)
      ensures Ran(Own(old(history), d), Own(history, d), ends, d, r == Answer(true))
    {
      ends := [];
      ghost var own := Own(history, d);
      assert own + [] == own;
      for i := 0 to |rounds|
        invariant |ends| == i && Valid() && d in crossings && crossings[d].IsDrainAt(Top)
        invariant crossings[d].role.timed == old(crossings[d].role.timed) && generation >= old(generation)
        invariant i == 0 ==> count == old(count)
        invariant i > 0 ==> rounds[0].beforeLoad != [] || old(count) != 0
        invariant crossings[d].role.timed ==> forall j :: 0 <= j < i ==> !rounds[j].expires
        invariant i > 0 && generation == old(generation) ==> NobodyStranded()
        invariant Ran(own, Own(history, d), ends, d, false)
      {
        ghost var before := Own(history, d);
        ghost var end;
        r, end := OneRound(d, rounds[i]);
        RanOn(own, before, Own(history, d), ends, end, d, r == Answer(true));
        if r == Answer(true) {
          return;
        }
        ends := ends + [end];
        if r.Answer? {
          return;
        }
      }
      r := StillWaiting;
    }

    ghost predicate EveryoneSettled()
      reads this
    {
      forall f :: f in crossings && crossings[f].role.Request? ==> Settled(env, Now(), f, crossings[f])
    }

    ghost predicate NobodyStranded()
      reads this
    {
      forall c :: c in crossings ==> crossings[c].pc != Skipped
    }

    /** One turn of the loop of `drain`. */
    method OneRound(d: Id, round: Round) returns (r: DrainResult, ghost end: WaitEnd)
      requires Valid() && d in crossings && crossings[d].IsDrainAt(Top)
      modifies this
      ensures Valid() && d in crossings && crossings[d].pc == Running && crossings[d].role.Drain?
      ensures crossings[d].role.timed == old(crossings[d].role.timed) && generation >= old(generation)
      ensures crossings[d].role.at == if r.Answer? then Returned(r.value) else Top
      ensures r == Answer(true) ==> count == 0 && crossings[d].role.seen == crossings.Keys && EveryoneSettled()
      ensures r == Answer(false) ==> old(crossings[d].role.timed)
      ensures round.beforeLoad == [] && old(count) == 0 ==> r == Answer(true)
      ensures old(crossings[d].role.timed) && round.expires ==> r.Answer?
      ensures r == StillWaiting && generation == old(generation) ==> NobodyStranded()
      ensures Own(history, d) ==
              Own(old(history), d) + LoadSteps(d) + if r == Answer(true) then [] else WaitSteps(end, d)
    {
      var n := ListenAndLoad(d, round);
      if n == 0 {
        AllSettled();
        return Answer(true), Expired;
      }
      var ended := Wait(d, round);
      end := ended;
      r := if ended == Expired then Answer(false) else StillWaiting;
    }

    /** `notified()` before the load, so that no notification in between is missed. */
    method ListenAndLoad(d: Id, round: Round) returns (n: int)
      requires Valid() && d in crossings && crossings[d].IsDrainAt(Top)
      modifies this
      ensures Valid() && d in crossings && crossings[d].pc == Running && crossings[d].role.Drain? && n == count
      ensures crossings[d].role.timed == old(crossings[d].role.timed) && generation >= old(generation)
      ensures if n == 0 then crossings[d].role.at == Returned(true) && crossings[d].role.seen == crossings.Keys
              else crossings[d].role.at == Waiting(old(generation))
      ensures round.beforeLoad == [] ==> n == old(count)
      ensures Own(history, d) == Own(old(history), d) + LoadSteps(d)
    {
      TwoSteps(Own(history, d), Local(d, Listen), Load(d));
      Do(d, Listen);
      Others(d, round.beforeLoad);
      n := LoadCount(d);
    }

    /** After a non-zero load: the overall timeout, the notification, or the 100 ms tick and its GIL tap, which frees
        every stranded proxy. */
    method Wait(d: Id, round: Round) returns (end: WaitEnd)
      requires Valid() && d in crossings && crossings[d].pc == Running
      requires crossings[d].role.Drain? && crossings[d].role.at.Waiting?
      modifies this
      ensures Valid() && d in crossings && crossings[d].pc == Running
      ensures crossings[d].role.Drain? && crossings[d].role.timed == old(crossings[d].role.timed)
      ensures generation >= old(generation)
      ensures crossings[d].role.at == if end == Expired then Returned(false) else Top
      ensures end == Expired <==> old(crossings[d].role.timed) && round.expires
      ensures end == Notified ==> generation != old(crossings[d].role.at.generation)
      ensures round.whileWaiting == [] && end != Expired ==>
                (end == Notified <==> old(crossings[d].role.at.generation != generation))
      ensures end == Tapped ==> NobodyStranded()
      ensures Own(history, d) == Own(old(history), d) + WaitSteps(end, d)
    {
      Others(d, round.whileWaiting);
      if crossings[d].role.timed && round.expires {
        Do(d, TimesOut);
        return Expired;
      }
      if crossings[d].role.at.generation != generation {
        Do(d, Move.Wake);
        return Notified;
      }
      TickAndTap(d, round);
      end := Tapped;
    }

    method TickAndTap(d: Id, round: Round)
      requires Valid() && d in crossings && crossings[d].IsDrainAt(Waiting(generation))
      modifies this
      ensures Valid() && d in crossings && crossings[d].pc == Running
      ensures crossings[d].role.Drain? && crossings[d].role.timed == old(crossings[d].role.timed)
      ensures crossings[d].role.at == Top && generation >= old(generation) && NobodyStranded()
      ensures Own(history, d) == Own(old(history), d) + WaitSteps(Tapped, d)
    {
      TwoSteps(Own(history, d), Local(d, Tick), Tap(d));
      Do(d, Tick);
      Others(d, round.beforeTap);
      TapGil(d);
    }

    lemma AllSettled()
      requires Valid() && count == 0
      ensures EveryoneSettled()
    {
      forall f | f in crossings && crossings[f].role.Request?
        ensures Settled(env, Now(), f, crossings[f])
      {
        ZeroMeansSettled(env, history, f);
      }
    }
  }
}
