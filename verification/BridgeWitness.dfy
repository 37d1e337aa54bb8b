/** The assumptions of `DrainTerminates` can be met: an infinite fair run in which a drain starts while the only guard
    in flight is stranded in a proxy, and only the drain's own GIL tap frees it. */
module BridgeWitness {
  import opened Bridge
  import opened BridgeSafety
  import opened BridgeProgress
  import opened BridgeDelivery

  const REQUEST := Crossing(0, Request, Running, Wrapper, Undecided, false, 0)
  const DRAIN := Crossing(0, Drain(false, Top, {}), Running, Nobody, Undecided, false, 0)
  const READ := DRAIN.(role := Drain(false, Returned(true), {0, 1}))
  const STRANDED := Crossing(0, Request, Skipped, Slot, Cancelled, true, 0)
  const FREED := Crossing(0, Request, Releasing, Slot, Cancelled, true, 0)
  const GONE := Crossing(0, Request, Finished, Nobody, Cancelled, true, 1)
  const OPEN := map[0 := Loop(false, [], 0)]

  /** The only tracked crossing and the drain, on one open loop. */
  function Both(count: int, generation: nat, request: Crossing, drain: Crossing): State {
    State(count, generation, map[0 := request, 1 := drain], OPEN)
  }

  predicate Harmless(run: seq<Action>) {
    forall i :: 0 <= i < |run| ==>
      && !run[i].Register?
      && !run[i].GilAcquired?
      && !(run[i].Local? && run[i].c == 1 && run[i].move.Abandon?)
  }

  lemma DrainMoves(env: Env, n: int, g: nat, x: Crossing, d: Crossing, m: Move)
    requires CanMove(env, Both(n, g, x, d), d, m)
    ensures Links(env, Both(n, g, x, d), Local(1, m), Both(n, g, x, Moved(env, Both(n, g, x, d), d, m)))
  {
    assert map[0 := x, 1 := d][1 := Moved(env, Both(n, g, x, d), d, m)]
        == map[0 := x, 1 := Moved(env, Both(n, g, x, d), d, m)];
  }

  /** From one tracked future that runs to the drain beside it. */
  lemma DrainStarts(env: Env) returns (states: seq<State>, run: seq<Action>)
    ensures Linked(env, states, run) && states[0] == Alone(1, REQUEST, OPEN)
    ensures states[|run|] == Both(1, 0, REQUEST, DRAIN)
  {
    var d := DRAIN.(pc := Submitting);
    assert map[0 := REQUEST][1 := d] == map[0 := REQUEST, 1 := d];
    DrainMoves(env, 1, 0, REQUEST, d, Submitted);
    run := [StartDrain(1, 0, false), Local(1, Submitted)];
    states := [Alone(1, REQUEST, OPEN), Both(1, 0, REQUEST, d), Both(1, 0, REQUEST, DRAIN)];
  }

  lemma BothStart(env: Env) returns (states: seq<State>, run: seq<Action>)
    ensures Linked(env, states, run) && states[0] == START
    ensures states[|run|] == Both(1, 0, REQUEST, DRAIN)
  {
    states, run := FutureStarts(env, 0, 0);
    assert TwoLoops(0, 0) == OPEN;
    var t, q := DrainStarts(env);
    LinksJoin(env, states, run, t, q);
    states, run := states + t[1..], run + q;
  }

  lemma RequestMoves(env: Env, n: int, g: nat, x: Crossing, d: Crossing, m: Move)
    requires CanMove(env, Both(n, g, x, d), x, m)
    ensures Links(env, Both(n, g, x, d), Local(0, m), Both(n, g, Moved(env, Both(n, g, x, d), x, m), d))
  {
    assert map[0 := x, 1 := d][0 := Moved(env, Both(n, g, x, d), x, m)]
        == map[0 := Moved(env, Both(n, g, x, d), x, m), 1 := d];
  }

  lemma RequestStrands(env: Env) returns (states: seq<State>, run: seq<Action>)
    ensures Linked(env, states, run) && states[0] == Both(1, 0, REQUEST, DRAIN)
    ensures states[|run|] == Both(1, 0, STRANDED, DRAIN)
  {
    var x1 := REQUEST.(cancelled := true);
    var x2 := x1.(pc := Completed, holder := Slot);
    RequestMoves(env, 1, 0, REQUEST, DRAIN, Cancel);
    RequestMoves(env, 1, 0, x1, DRAIN, Complete);
    RequestMoves(env, 1, 0, x2, DRAIN, Skip);
    run := [Local(0, Cancel), Local(0, Complete), Local(0, Skip)];
    states := [Both(1, 0, REQUEST, DRAIN), Both(1, 0, x1, DRAIN), Both(1, 0, x2, DRAIN), Both(1, 0, STRANDED, DRAIN)];
  }

  lemma DrainLoads(env: Env, n: int, g: nat, x: Crossing, d: Crossing)
    requires d.pc == Running && d.role.Drain? && d.role.at.Listening?
    ensures Links(env, Both(n, g, x, d), Load(1), Both(n, g, x, Loaded(Both(n, g, x, d), d)))
  {
    assert map[0 := x, 1 := d][1 := Loaded(Both(n, g, x, d), d)] == map[0 := x, 1 := Loaded(Both(n, g, x, d), d)];
  }

  lemma TapFrees(env: Env)
    ensures Links(env, Both(1, 0, STRANDED, DRAIN.DrainAt(Tapping)), Tap(1), Both(1, 0, FREED, DRAIN))
  {
    var before := map[0 := STRANDED, 1 := DRAIN.DrainAt(Tapping)];
    assert before[1 := DRAIN] == map[0 := STRANDED, 1 := DRAIN];
    assert Freed(map[0 := STRANDED, 1 := DRAIN]) == map[0 := FREED, 1 := DRAIN];
  }

  lemma DrainTaps(env: Env) returns (states: seq<State>, run: seq<Action>)
    ensures Linked(env, states, run) && states[0] == Both(1, 0, STRANDED, DRAIN) && Harmless(run)
    ensures states[|run|] == Both(1, 0, FREED, DRAIN)
  {
    var x := STRANDED;
    var d1, d2, d3 := DRAIN.DrainAt(Listening(0)), DRAIN.DrainAt(Waiting(0)), DRAIN.DrainAt(Tapping);
    DrainMoves(env, 1, 0, x, DRAIN, Listen);
    DrainLoads(env, 1, 0, x, d1);
    DrainMoves(env, 1, 0, x, d2, Tick);
    TapFrees(env);
    run := [Local(1, Listen), Load(1), Local(1, Tick), Tap(1)];
    states := [Both(1, 0, x, DRAIN), Both(1, 0, x, d1), Both(1, 0, x, d2), Both(1, 0, x, d3), Both(1, 0, FREED, DRAIN)];
  }

  lemma GuardGoes(env: Env) returns (states: seq<State>, run: seq<Action>)
    ensures Linked(env, states, run) && states[0] == Both(1, 0, FREED, DRAIN) && Harmless(run)
    ensures states[|run|] == Both(0, 1, GONE, DRAIN)
  {
    var x := GONE.(pc := Notifying);
    assert map[0 := FREED, 1 := DRAIN][0 := x] == map[0 := x, 1 := DRAIN];
    assert map[0 := x, 1 := DRAIN][0 := GONE] == map[0 := GONE, 1 := DRAIN];
    run := [FetchSub(0), Notify(0)];
    states := [Both(1, 0, FREED, DRAIN), Both(0, 0, x, DRAIN), Both(0, 1, GONE, DRAIN)];
  }

  lemma DrainReads(env: Env) returns (states: seq<State>, run: seq<Action>)
    ensures Linked(env, states, run) && states[0] == Both(0, 1, GONE, DRAIN) && Harmless(run)
    ensures states[|run|] == Both(0, 1, GONE, READ)
  {
    var d := DRAIN.DrainAt(Listening(1));
    assert map[0 := GONE, 1 := d].Keys == {0, 1};
    DrainMoves(env, 0, 1, GONE, DRAIN, Listen);
    DrainLoads(env, 0, 1, GONE, d);
    run := [Local(1, Listen), Load(1)];
    states := [Both(0, 1, GONE, DRAIN), Both(0, 1, GONE, d), Both(0, 1, GONE, READ)];
  }

  lemma DrainDelivers(env: Env) returns (states: seq<State>, run: seq<Action>)
    ensures Linked(env, states, run) && states[0] == Both(0, 1, GONE, READ) && Harmless(run)
    ensures states[|run|] == Both(0, 1, GONE, READ.(pc := CheckClosed))
  {
    var d1, d2, d3 := READ.(pc := Completed), READ.(pc := Calling), READ.(pc := CheckClosed);
    DrainMoves(env, 0, 1, GONE, READ, Complete);
    DrainMoves(env, 0, 1, GONE, d1, Deliver);
    DrainMoves(env, 0, 1, GONE, d2, Take);
    run := [Local(1, Complete), Local(1, Deliver), Local(1, Take)];
    states := [Both(0, 1, GONE, READ), Both(0, 1, GONE, d1), Both(0, 1, GONE, d2), Both(0, 1, GONE, d3)];
  }

  lemma AnswerIsQueued(env: Env, s: State) returns (states: seq<State>, run: seq<Action>)
    requires s.crossings.Keys == {0, 1} && s.crossings[0].pc == Finished && s.loops == OPEN
    requires s.crossings[1].pc == CheckClosed && s.crossings[1].loop == 0 && s.crossings[1].holder == Nobody
    ensures Linked(env, states, run) && states[0] == s && Harmless(run)
    ensures forall c :: c in states[|run|].crossings ==> states[|run|].crossings[c].pc == Finished
  {
    run := [Local(1, SeesOpen), Enqueue(1)];
    var s1 := Step(env, s, run[0]);
    var s2 := Step(env, s1, run[1]);
    states := [s, s1, s2];
  }

  /** A finished crossing takes no step any more. */
  lemma FinishedRests(env: Env, s: State, c: Id)
    requires c in s.crossings ==> s.crossings[c].pc == Finished
    ensures !CanStep(env, s, c)
  {
  }

  /** From the stranded state to the end. */
  lemma DrainRuns(env: Env) returns (states: seq<State>, run: seq<Action>)
    ensures Linked(env, states, run) && states[0] == Both(1, 0, STRANDED, DRAIN) && Harmless(run)
    ensures forall c :: c in states[|run|].crossings ==> states[|run|].crossings[c].pc == Finished
  {
    states, run := DrainTaps(env);
    var t, q := GuardGoes(env);
    LinksJoin(env, states, run, t, q);
    states, run := states + t[1..], run + q;
    t, q := DrainReads(env);
    LinksJoin(env, states, run, t, q);
    states, run := states + t[1..], run + q;
    t, q := DrainDelivers(env);
    LinksJoin(env, states, run, t, q);
    states, run := states + t[1..], run + q;
    t, q := AnswerIsQueued(env, states[|run|]);
    LinksJoin(env, states, run, t, q);
    states, run := states + t[1..], run + q;
  }

  /** Past its last step the run idles. */
  lemma IdlesOn(env: Env, states: seq<State>, run: seq<Action>, tr: nat -> State, act: nat -> Action)
    requires Linked(env, states, run) && states[0] == START
    requires forall i: nat :: tr(i) == if i <= |run| then states[i] else states[|run|]
    requires forall i: nat :: act(i) == if i < |run| then run[i] else Idle
    ensures Behaviour(env, tr, act)
  {
    forall i: nat
      ensures StepAt(env, tr, act, i)
    {
      if i < |run| {
        assert Links(env, states[i], run[i], states[i + 1]);
      }
    }
  }

  lemma EndIsFair(env: Env, tr: nat -> State, act: nat -> Action, n: nat)
    requires forall i: nat :: i >= n ==> tr(i) == tr(n)
    requires forall c :: c in tr(n).crossings ==> tr(n).crossings[c].pc == Finished
    ensures forall k: nat :: Fair(env, tr, act, k)
  {
    forall c: Id, i: nat | c in tr(i).crossings
      ensures Served(env, tr, act, c, i)
    {
      var j := if i < n then n else i;
      FinishedRests(env, tr(j), c);
    }
  }

  /** A fair infinite run in which the drain starts draining while the guard is stranded in a proxy. */
  lemma FairDrainExists(env: Env) returns (tr: nat -> State, act: nat -> Action, k: nat)
    ensures Behaviour(env, tr, act) && Fair(env, tr, act, k) && Draining(tr, act, 1, k)
    ensures forall i: nat :: i >= k ==> !act(i).GilAcquired?
    ensures 0 in tr(k).crossings && tr(k).crossings[0].pc == Skipped && tr(k).crossings[0].holder == Slot
  {
    var states, run := BothStart(env);
    var t, q := RequestStrands(env);
    LinksJoin(env, states, run, t, q);
    states, run := states + t[1..], run + q;
    k := |run|;
    t, q := DrainRuns(env);
    LinksJoin(env, states, run, t, q);
    var all, acts := states + t[1..], run + q;
    tr := (i: nat) => if i <= |acts| < |all| then all[i] else t[|q|];
    act := (i: nat) => if i < |acts| then acts[i] else Idle;
    IdlesOn(env, all, acts, tr, act);
    EndIsFair(env, tr, act, |acts|);
    forall i: nat | i >= k
      ensures !act(i).Register? && !act(i).GilAcquired? && !(act(i).Local? && act(i).c == 1 && act(i).move.Abandon?)
    {
      if i < |acts| {
        assert acts[i] == q[i - k];
      }
    }
  }
}
