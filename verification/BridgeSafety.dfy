/** What every interleaving of the bridge protocol keeps: guards are conserved, no wake-up is lost, and a drain
    that read zero saw every earlier crossing settled. */
module BridgeSafety {
  import opened Bridge

  // ----- The invariant -----

  /** Where the guard of a crossing is, at each of its program points. */
  predicate GuardInPlace(x: Crossing) {
    match x.pc
    case Submitting => x.holder == Wrapper
    case Running => x.holder == Wrapper
    case Completed => x.holder == Slot
    case Calling => x.holder == Slot
    case Skipped => x.holder == Slot
    case CheckClosed => x.holder == Frame
    case CallReal => x.holder == Frame
    case Releasing => x.holder != Nobody
    case Notifying => x.holder == Nobody
    case Finished => x.holder == Nobody
  }

  predicate DrainInPlace(x: Crossing)
    requires x.role.Drain?
  {
    && x.holder == Nobody
    && x.pc != Releasing && x.pc != Notifying
    && (x.pc == Submitting ==> x.role.at == Top)
    && (x.pc != Submitting && x.pc != Running && x.fate != NotSubmitted && !x.fate.Dropped? ==> x.role.at.Returned?)
  }

  predicate BeforeDecision(pc: Pc) {
    pc == Submitting || pc == Running || pc == Completed || pc == Calling || pc == CheckClosed || pc == CallReal
  }

  predicate Placed(x: Crossing) {
    && (x.role.Request? ==> GuardInPlace(x))
    && (x.role.Drain? ==> DrainInPlace(x))
    && x.releases == (if x.role.Request? && x.holder == Nobody then 1 else 0)
    && (x.fate == Undecided <==> BeforeDecision(x.pc))
    && (x.pc == Skipped ==> x.fate == Cancelled)
    && (x.fate == Cancelled || x.fate == Dropped(false) ==> x.cancelled)
  }

  /** The recorded fate is what the loops show. */
  predicate FateHolds(env: Env, s: State, c: Id, x: Crossing) {
    (x.pc != Submitting && x.fate != NotSubmitted ==> x.loop in s.loops) &&
    match x.fate
    case Enqueued(pos) => x.loop in s.loops && pos < |s.loops[x.loop].queue| && s.loops[x.loop].queue[pos] == c
    case LoopClosed => IsClosed(s, x.loop)
    case LoopRaised => x.loop in env.raising
    case Dropped(panicked) => panicked ==> x.loop in env.panicking
    case _ => true
  }

  ghost predicate AllPlaced(env: Env, s: State) {
    forall c :: c in s.crossings ==> Placed(s.crossings[c]) && FateHolds(env, s, c, s.crossings[c])
  }

  /** Every entry of a queue belongs to one crossing, which knows its place: no callback is enqueued twice. */
  ghost predicate QueuesOwned(s: State) {
    forall l :: l in s.loops ==> QueueOwned(s, l, s.loops[l])
  }

  ghost predicate QueueOwned(s: State, l: LoopId, loop: Loop) {
    && loop.ran <= |loop.queue|
    && forall i :: 0 <= i < |loop.queue| ==>
         && loop.queue[i] in s.crossings
         && s.crossings[loop.queue[i]].loop == l
         && s.crossings[loop.queue[i]].fate == Enqueued(i)
  }

  function Live(s: State): set<Id> {
    set c | c in s.crossings && s.crossings[c].InFlight()
  }

  predicate Counted(s: State) {
    s.count == |Live(s)|
  }

  ghost predicate SomeoneNotifies(s: State) {
    exists f :: f in s.crossings && s.crossings[f].pc == Notifying
  }

  /** A drain that waits while the count is zero has been, or is about to be, notified. */
  ghost predicate NoLostWakeup(s: State) {
    forall c :: c in s.crossings && s.crossings[c].role.Drain? ==>
      match s.crossings[c].role.at
      case Listening(g) => g <= s.generation
      case Waiting(g) => g <= s.generation && (g == s.generation && s.count == 0 ==> SomeoneNotifies(s))
      case _ => true
  }

  /** What a drain `xd` that read zero knows of a crossing `xf` it saw. */
  predicate SettledFor(xd: Crossing, xf: Crossing) {
    xf.role.Request? ==>
      && xf.holder == Nobody
      && xf.fate != Undecided
      && (xd.fate.Enqueued? && xd.loop == xf.loop ==>
            xf.fate != LoopClosed && (xf.fate.Enqueued? ==> xf.fate.pos < xd.fate.pos))
  }

  /** If the drain `d` read zero and saw `f` then, `f` is settled. */
  predicate SawSettled(s: State, d: Id, f: Id) {
    d in s.crossings && s.crossings[d].ReadZero() && f in s.crossings[d].role.seen ==>
      f in s.crossings && SettledFor(s.crossings[d], s.crossings[f])
  }

  ghost predicate SeenSettled(s: State) {
    forall d, f :: SawSettled(s, d, f)
  }

  ghost predicate Inv(env: Env, s: State) {
    && AllPlaced(env, s)
    && QueuesOwned(s)
    && Counted(s)
    && NoLostWakeup(s)
    && SeenSettled(s)
  }

  lemma StartHolds(env: Env)
    ensures Inv(env, START)
  {
    assert Live(START) == {};
  }

  // ----- How one crossing changes -----

  /** What no step takes back: a loop, a decided fate, a released guard, a zero that was read. */
  predicate Evolves(x: Crossing, y: Crossing) {
    && x.loop == y.loop
    && x.role.Drain? == y.role.Drain?
    && (x.fate != Undecided ==> y.fate == x.fate)
    && (x.role.Request? && x.holder == Nobody ==> y.holder == Nobody)
    && (x.ReadZero() ==> y.ReadZero() && y.role.seen == x.role.seen)
    && (x.cancelled ==> y.cancelled)
  }

  lemma MoveIsPlaced(env: Env, s: State, x: Crossing, m: Move)
    requires Placed(x) && CanMove(env, s, x, m)
    ensures Placed(Moved(env, s, x, m)) && Evolves(x, Moved(env, s, x, m))
    ensures (x.holder == Nobody) == (Moved(env, s, x, m).holder == Nobody)
  {
  }

  lemma FreedIsPlaced(crossings: map<Id, Crossing>, c: Id)
    requires c in crossings && Placed(crossings[c])
    ensures Placed(Freed(crossings)[c]) && Evolves(crossings[c], Freed(crossings)[c])
    ensures crossings[c].holder == Freed(crossings)[c].holder
  {
  }

  /** `a` may change the crossing `c`. */
  predicate Touches(a: Action, c: Id) {
    match a
    case Local(d, _) => d == c
    case Enqueue(d) => d == c
    case FetchSub(d) => d == c
    case Notify(d) => d == c
    case Load(d) => d == c
    case Tap(_) => true
    case GilAcquired => true
    case _ => false
  }

  lemma UntouchedStays(env: Env, s: State, a: Action, c: Id)
    requires Enabled(env, s, a) && c in s.crossings && !Touches(a, c)
    ensures c in Step(env, s, a).crossings && Step(env, s, a).crossings[c] == s.crossings[c]
  {
  }

  /** The steps of `c` that also change the count, the generation or a queue. */
  lemma SharedStepEvolves(env: Env, s: State, a: Action, c: Id)
    requires Enabled(env, s, a) && c in s.crossings && Placed(s.crossings[c])
    requires a == Enqueue(c) || a == FetchSub(c) || a == Notify(c) || a == Load(c)
    ensures c in Step(env, s, a).crossings
    ensures Placed(Step(env, s, a).crossings[c])
    ensures Evolves(s.crossings[c], Step(env, s, a).crossings[c])
    ensures a != FetchSub(c) ==> s.crossings[c].InFlight() == Step(env, s, a).crossings[c].InFlight()
  {
  }

  /** Every step moves each crossing it finds to a well-placed one; only `fetch_sub` empties a holder. */
  lemma StepEvolves(env: Env, s: State, a: Action, c: Id)
    requires Enabled(env, s, a) && c in s.crossings && Placed(s.crossings[c])
    ensures c in Step(env, s, a).crossings
    ensures Placed(Step(env, s, a).crossings[c])
    ensures Evolves(s.crossings[c], Step(env, s, a).crossings[c])
    ensures a != FetchSub(c) ==> s.crossings[c].InFlight() == Step(env, s, a).crossings[c].InFlight()
  {
    if !Touches(a, c) {
      UntouchedStays(env, s, a, c);
    } else if a.Local? {
      MoveIsPlaced(env, s, s.crossings[c], a.move);
    } else if a.Tap? {
      FreedIsPlaced(s.crossings[a.c := s.crossings[a.c].DrainAt(Top)], c);
    } else if a.GilAcquired? {
      FreedIsPlaced(s.crossings, c);
    } else {
      SharedStepEvolves(env, s, a, c);
    }
  }

  // ----- One step keeps each part -----

  lemma LoopsOnlyGrow(env: Env, s: State, a: Action, l: LoopId)
    requires Enabled(env, s, a) && l in s.loops
    ensures l in Step(env, s, a).loops
    ensures s.loops[l].closed ==> Step(env, s, a).loops[l].closed
    ensures s.loops[l].queue <= Step(env, s, a).loops[l].queue
    ensures s.loops[l].ran <= Step(env, s, a).loops[l].ran
  {
  }

  lemma FateStays(env: Env, s: State, a: Action, c: Id)
    requires Enabled(env, s, a) && c in s.crossings
    requires s.crossings[c].fate != Undecided
    requires Placed(s.crossings[c]) && FateHolds(env, s, c, s.crossings[c])
    ensures c in Step(env, s, a).crossings && FateHolds(env, Step(env, s, a), c, Step(env, s, a).crossings[c])
  {
    StepEvolves(env, s, a, c);
    var l := s.crossings[c].loop;
    if l in s.loops {
      LoopsOnlyGrow(env, s, a, l);
    }
  }

  lemma FateDecided(env: Env, s: State, a: Action, c: Id)
    requires Enabled(env, s, a) && c in s.crossings
    requires s.crossings[c].fate == Undecided
    requires Placed(s.crossings[c]) && FateHolds(env, s, c, s.crossings[c])
    ensures c in Step(env, s, a).crossings && FateHolds(env, Step(env, s, a), c, Step(env, s, a).crossings[c])
  {
    if !Touches(a, c) {
      UntouchedStays(env, s, a, c);
      if s.crossings[c].loop in s.loops {
        LoopsOnlyGrow(env, s, a, s.crossings[c].loop);
      }
    } else if a.Local? {
      MoveDecides(env, s, c, a.move);
    } else {
      SharedStepDecides(env, s, a, c);
    }
  }

  lemma MoveDecides(env: Env, s: State, c: Id, m: Move)
    requires c in s.crossings && CanMove(env, s, s.crossings[c], m) && s.crossings[c].fate == Undecided
    requires FateHolds(env, s, c, s.crossings[c])
    ensures FateHolds(env, Step(env, s, Local(c, m)), c, Moved(env, s, s.crossings[c], m))
  {
  }

  lemma SharedStepDecides(env: Env, s: State, a: Action, c: Id)
    requires Enabled(env, s, a) && c in s.crossings && Touches(a, c) && !a.Local?
    requires s.crossings[c].fate == Undecided
    requires Placed(s.crossings[c]) && FateHolds(env, s, c, s.crossings[c])
    ensures c in Step(env, s, a).crossings && FateHolds(env, Step(env, s, a), c, Step(env, s, a).crossings[c])
  {
  }

  lemma StepPlaced(env: Env, s: State, a: Action)
    requires AllPlaced(env, s) && Enabled(env, s, a)
    ensures AllPlaced(env, Step(env, s, a))
  {
    var t := Step(env, s, a);
    forall c | c in t.crossings
      ensures Placed(t.crossings[c]) && FateHolds(env, t, c, t.crossings[c])
    {
      if c in s.crossings {
        StepEvolves(env, s, a, c);
        if s.crossings[c].fate == Undecided {
          FateDecided(env, s, a, c);
        } else {
          FateStays(env, s, a, c);
        }
      } else {
        assert a == Register(c, t.crossings[c].loop) || a.StartDrain?;
      }
    }
  }

  lemma StepQueues(env: Env, s: State, a: Action)
    requires AllPlaced(env, s) && QueuesOwned(s) && Enabled(env, s, a)
    ensures QueuesOwned(Step(env, s, a))
  {
    var t := Step(env, s, a);
    forall l | l in t.loops
      ensures QueueOwned(t, l, t.loops[l])
    {
      forall i | 0 <= i < |t.loops[l].queue|
        ensures t.loops[l].queue[i] in t.crossings
        ensures t.crossings[t.loops[l].queue[i]].loop == l
        ensures t.crossings[t.loops[l].queue[i]].fate == Enqueued(i)
      {
        var c := t.loops[l].queue[i];
        if l in s.loops && i < |s.loops[l].queue| {
          assert QueueOwned(s, l, s.loops[l]);
          LoopsOnlyGrow(env, s, a, l);
          assert s.loops[l].queue[i] == c;
          StepEvolves(env, s, a, c);
        } else {
          assert a == Enqueue(c);
        }
      }
      if l in s.loops {
        assert QueueOwned(s, l, s.loops[l]);
      }
    }
  }

  /** A step that starts no tracked crossing and is no `fetch_sub` leaves every guard where it can be counted. */
  lemma LiveStays(env: Env, s: State, a: Action)
    requires AllPlaced(env, s) && Enabled(env, s, a) && !a.Register? && !a.FetchSub?
    ensures Live(Step(env, s, a)) == Live(s)
  {
    var t := Step(env, s, a);
    forall c | c in t.crossings
      ensures c in Live(t) <==> c in Live(s)
    {
      if c in s.crossings {
        StepEvolves(env, s, a, c);
      } else {
        assert a == StartDrain(c, a.l, a.timed);
      }
    }
    forall c | c in s.crossings
      ensures c in t.crossings
    {
      StepEvolves(env, s, a, c);
    }
  }

  lemma RegisterCounts(env: Env, s: State, c: Id, l: LoopId)
    requires Enabled(env, s, Register(c, l))
    ensures Live(Step(env, s, Register(c, l))) == Live(s) + {c} && c !in Live(s)
    ensures Step(env, s, Register(c, l)).count == s.count + 1
  {
  }

  lemma FetchSubCounts(env: Env, s: State, c: Id)
    requires Enabled(env, s, FetchSub(c)) && Placed(s.crossings[c])
    ensures Live(Step(env, s, FetchSub(c))) == Live(s) - {c} && c in Live(s)
    ensures Step(env, s, FetchSub(c)).count == s.count - 1
  {
  }

  lemma StepCounts(env: Env, s: State, a: Action)
    requires AllPlaced(env, s) && Counted(s) && Enabled(env, s, a)
    ensures Counted(Step(env, s, a))
  {
    if a.Register? {
      RegisterCounts(env, s, a.c, a.l);
    } else if a.FetchSub? {
      FetchSubCounts(env, s, a.c);
    } else {
      LiveStays(env, s, a);
      CountOnlyByGuards(env, s, a);
    }
  }

  lemma CountOnlyByGuards(env: Env, s: State, a: Action)
    requires Enabled(env, s, a) && !a.Register? && !a.FetchSub?
    ensures Step(env, s, a).count == s.count
  {
  }

  lemma NotifierStays(env: Env, s: State, a: Action)
    requires AllPlaced(env, s) && Enabled(env, s, a) && SomeoneNotifies(s) && !a.Notify?
    ensures SomeoneNotifies(Step(env, s, a))
  {
    var f :| f in s.crossings && s.crossings[f].pc == Notifying;
    assert Placed(s.crossings[f]);
    assert Step(env, s, a).crossings[f].pc == Notifying;
  }

  /** Where the wait of a drain that is still listening or waiting comes from. */
  lemma WaitComesFrom(env: Env, s: State, a: Action, c: Id)
    requires Enabled(env, s, a) && c in Step(env, s, a).crossings && Step(env, s, a).crossings[c].role.Drain?
    ensures match Step(env, s, a).crossings[c].role.at
            case Listening(g) =>
              || g == s.generation
              || (c in s.crossings && s.crossings[c].role.Drain? && s.crossings[c].role.at == Listening(g))
            case Waiting(g) =>
              && c in s.crossings && s.crossings[c].role.Drain?
              && (s.crossings[c].role.at == Waiting(g) || (s.crossings[c].role.at == Listening(g) && s.count != 0))
            case _ => true
    ensures Step(env, s, a).generation == s.generation + if a.Notify? then 1 else 0
    ensures Step(env, s, a).crossings[c].role.at.Waiting? && s.crossings[c].role.at.Listening? ==>
              Step(env, s, a).count == s.count
  {
  }

  /** Whoever brings the count to zero notifies next. */
  lemma ZeroIsNotified(env: Env, s: State, a: Action)
    requires AllPlaced(env, s) && Counted(s) && Enabled(env, s, a) && s.count != 0 && Step(env, s, a).count == 0
    ensures a.FetchSub? && Step(env, s, a).crossings[a.c].pc == Notifying
    ensures SomeoneNotifies(Step(env, s, a))
  {
    if !a.FetchSub? {
      CountNeverFalls(env, s, a);
    }
    assert Step(env, s, a).crossings[a.c].pc == Notifying;
  }

  lemma CountNeverFalls(env: Env, s: State, a: Action)
    requires Enabled(env, s, a) && !a.FetchSub?
    ensures Step(env, s, a).count >= s.count
  {
  }

  lemma StepWakes(env: Env, s: State, a: Action)
    requires AllPlaced(env, s) && Counted(s) && NoLostWakeup(s) && Enabled(env, s, a)
    ensures NoLostWakeup(Step(env, s, a))
  {
    var t := Step(env, s, a);
    if SomeoneNotifies(s) && !a.Notify? {
      NotifierStays(env, s, a);
    }
    if s.count != 0 && t.count == 0 {
      ZeroIsNotified(env, s, a);
    }
    forall c | c in t.crossings && t.crossings[c].role.Drain?
      ensures match t.crossings[c].role.at
              case Listening(g) => g <= t.generation
              case Waiting(g) => g <= t.generation && (g == t.generation && t.count == 0 ==> SomeoneNotifies(t))
              case _ => true
    {
      WaitComesFrom(env, s, a, c);
    }
  }

  /** Only a load that finds zero makes a drain read zero, and it then sees every crossing there is. */
  lemma OnlyLoadReadsZero(env: Env, s: State, a: Action, d: Id)
    requires Enabled(env, s, a) && d in Step(env, s, a).crossings && Step(env, s, a).crossings[d].ReadZero()
    ensures d in s.crossings
    ensures !s.crossings[d].ReadZero() ==>
              && a == Load(d)
              && s.count == 0
              && s.crossings[d].pc == Running
              && Step(env, s, a).crossings[d].role.seen == s.crossings.Keys
  {
  }

  lemma ZeroSettlesAll(env: Env, s: State, d: Id, f: Id)
    requires AllPlaced(env, s) && Counted(s) && s.count == 0
    requires d in s.crossings && s.crossings[d].pc == Running && f in s.crossings
    ensures SettledFor(s.crossings[d], s.crossings[f])
  {
    assert Live(s) == {};
    assert f !in Live(s);
    assert Placed(s.crossings[d]) && Placed(s.crossings[f]);
  }

  lemma StepSeen(env: Env, s: State, a: Action)
    requires AllPlaced(env, s) && Counted(s) && SeenSettled(s) && Enabled(env, s, a)
    ensures SeenSettled(Step(env, s, a))
  {
    var t := Step(env, s, a);
    forall d, f
      ensures SawSettled(t, d, f)
    {
      assert SawSettled(s, d, f);
      if d in t.crossings && t.crossings[d].ReadZero() && f in t.crossings[d].role.seen {
        SeenStays(env, s, a, d, f);
      }
    }
  }

  lemma SeenStays(env: Env, s: State, a: Action, d: Id, f: Id)
    requires AllPlaced(env, s) && Counted(s) && SawSettled(s, d, f) && Enabled(env, s, a)
    requires d in Step(env, s, a).crossings && Step(env, s, a).crossings[d].ReadZero()
    requires f in Step(env, s, a).crossings[d].role.seen
    ensures f in Step(env, s, a).crossings
    ensures SettledFor(Step(env, s, a).crossings[d], Step(env, s, a).crossings[f])
  {
    WasSettled(env, s, a, d, f);
    SettledStays(env, s, a, d, f);
  }

  lemma WasSettled(env: Env, s: State, a: Action, d: Id, f: Id)
    requires AllPlaced(env, s) && Counted(s) && SawSettled(s, d, f) && Enabled(env, s, a)
    requires d in Step(env, s, a).crossings && Step(env, s, a).crossings[d].ReadZero()
    requires f in Step(env, s, a).crossings[d].role.seen
    ensures d in s.crossings && f in s.crossings && SettledFor(s.crossings[d], s.crossings[f])
  {
    OnlyLoadReadsZero(env, s, a, d);
    if s.crossings[d].ReadZero() {
      SeenIsKept(env, s, a, d);
    } else {
      ZeroSettlesAll(env, s, d, f);
    }
  }

  lemma SeenIsKept(env: Env, s: State, a: Action, d: Id)
    requires AllPlaced(env, s) && Enabled(env, s, a) && d in s.crossings && s.crossings[d].ReadZero()
    ensures d in Step(env, s, a).crossings && Step(env, s, a).crossings[d].role.Drain?
    ensures Step(env, s, a).crossings[d].role.seen == s.crossings[d].role.seen
  {
    StepEvolves(env, s, a, d);
  }

  lemma EnqueuedAfter(env: Env, s: State, d: Id, f: Id)
    requires AllPlaced(env, s) && Enabled(env, s, Enqueue(d)) && d != f
    requires f in s.crossings && SettledFor(s.crossings[d], s.crossings[f])
    ensures d in Step(env, s, Enqueue(d)).crossings && f in Step(env, s, Enqueue(d)).crossings
    ensures SettledFor(Step(env, s, Enqueue(d)).crossings[d], Step(env, s, Enqueue(d)).crossings[f])
  {
    assert FateHolds(env, s, f, s.crossings[f]);
  }

  /** The only step that decides a fate with a place in a queue. */
  lemma OnlyEnqueueEnqueues(env: Env, s: State, a: Action, d: Id)
    requires Enabled(env, s, a) && d in s.crossings && d in Step(env, s, a).crossings
    requires Step(env, s, a).crossings[d].fate.Enqueued? && !s.crossings[d].fate.Enqueued?
    ensures a == Enqueue(d)
  {
  }

  lemma SettledStays(env: Env, s: State, a: Action, d: Id, f: Id)
    requires AllPlaced(env, s) && Enabled(env, s, a)
    requires d in s.crossings && f in s.crossings && SettledFor(s.crossings[d], s.crossings[f])
    ensures d in Step(env, s, a).crossings && f in Step(env, s, a).crossings
    ensures SettledFor(Step(env, s, a).crossings[d], Step(env, s, a).crossings[f])
  {
    StepEvolves(env, s, a, d);
    StepEvolves(env, s, a, f);
    var xd, yd := s.crossings[d], Step(env, s, a).crossings[d];
    if yd.fate.Enqueued? && !xd.fate.Enqueued? {
      OnlyEnqueueEnqueues(env, s, a, d);
      if d != f {
        EnqueuedAfter(env, s, d, f);
      } else {
        assert Placed(s.crossings[d]);
      }
    } else {
      SettledByEvolution(xd, yd, s.crossings[f], Step(env, s, a).crossings[f]);
    }
  }

  lemma SettledByEvolution(xd: Crossing, yd: Crossing, xf: Crossing, yf: Crossing)
    requires SettledFor(xd, xf) && Evolves(xd, yd) && Evolves(xf, yf)
    requires yd.fate.Enqueued? ==> xd.fate.Enqueued?
    ensures SettledFor(yd, yf)
  {
  }

  lemma StepKeeps(env: Env, s: State, a: Action)
    requires Inv(env, s) && Enabled(env, s, a)
    ensures Inv(env, Step(env, s, a))
  {
    StepPlaced(env, s, a);
    StepQueues(env, s, a);
    StepCounts(env, s, a);
    StepWakes(env, s, a);
    StepSeen(env, s, a);
  }
}
