/** `Closing::guard` of `src/session_state.rs`: a request in flight hears about a close promptly and never by mistake.

    The flag lives in a watch channel. Waiting for it ends when it is `true`, but also with an error once every
    sender is gone, and the guard cannot tell the two apart. What it can do is own a sender. */
module Closing {
  import opened Basics

  type Id = nat

  datatype Outcome =
    | Worked        // the request itself finished, with a result or an error of its own
    | ClosedInFlight
    | Refused       // `ensure_open` failed before anything started
    | Abandoned     // Python dropped the future

  datatype Pc = Created | Subscribed | Over(outcome: Outcome)

  /** `senders` is the strong count of the sender, shared by session handles and guards. */
  datatype State = State(closed: bool, handles: nat, senders: int, requests: map<Id, Pc>)

  const START := State(false, 1, 1, map[])

  datatype Action =
    | CloneHandle
    | DropHandle
    | Close
    | Request(g: Id)
    | Poll(g: Id, workReady: bool, workFirst: bool)
    | Abandon(g: Id)

  predicate Running(s: State, g: Id) {
    g in s.requests && !s.requests[g].Over?
  }

  predicate Enabled(s: State, a: Action) {
    match a
    case CloneHandle => s.handles > 0
    case DropHandle => s.handles > 0
    case Close => s.handles > 0
    case Request(g) => s.handles > 0 && g !in s.requests
    case Poll(g, _, _) => Running(s, g)
    case Abandon(g) => Running(s, g)
  }

  /** `wait_for` is over: the flag is up, or the channel is closed because no sender is left. */
  predicate WaitOver(s: State) {
    s.closed || s.senders == 0
  }

  /** One poll of the `select!`, which tries its two branches in a random order. */
  function Polled(s: State, workReady: bool, workFirst: bool): Option<Outcome> {
    if workFirst then
      if workReady then Some(Worked) else if WaitOver(s) then Some(ClosedInFlight) else None
    else
      if WaitOver(s) then Some(ClosedInFlight) else if workReady then Some(Worked) else None
  }

  function Ended(s: State, g: Id, outcome: Outcome): State {
    s.(senders := s.senders - 1, requests := s.requests[g := Over(outcome)])
  }

  function Step(s: State, a: Action): State
    requires Enabled(s, a)
  {
    match a
    case CloneHandle => s.(handles := s.handles + 1, senders := s.senders + 1)
    case DropHandle => s.(handles := s.handles - 1, senders := s.senders - 1)
    case Close => s.(closed := true)
    case Request(g) =>
      if s.closed then s.(requests := s.requests[g := Over(Refused)])
      else s.(senders := s.senders + 1, requests := s.requests[g := Created])
    case Poll(g, workReady, workFirst) =>
      (match Polled(s, workReady, workFirst)
       case Some(outcome) => Ended(s, g, outcome)
       case None => s.(requests := s.requests[g := Subscribed]))
    case Abandon(g) => Ended(s, g, Abandoned)
  }

  /** Where a schedule leads; what is not possible at its turn does not happen. */
  function Run(s: State, schedule: seq<Action>): State
    decreases |schedule|
  {
    if schedule == [] then s else Run(Next(s, schedule[0]), schedule[1..])
  }

  function Next(s: State, a: Action): State {
    if Enabled(s, a) then Step(s, a) else s
  }

  // ----- What every run keeps -----

  function InFlight(s: State): set<Id> {
    set g | g in s.requests && !s.requests[g].Over?
  }

  /** Handles and running requests own the senders, and nobody was told of a close that did not happen. */
  ghost predicate Inv(s: State) {
    && s.senders == s.handles + |InFlight(s)|
    && ToldTruth(s)
  }

  ghost predicate ToldTruth(s: State) {
    forall g :: g in s.requests && (s.requests[g] == Over(ClosedInFlight) || s.requests[g] == Over(Refused)) ==>
      s.closed
  }

  lemma RunningOwnsSender(s: State, g: Id)
    requires Inv(s) && Running(s, g)
    ensures s.senders > 0
  {
    assert g in InFlight(s);
  }

  lemma EndedOwnsLess(s: State, g: Id, outcome: Outcome)
    requires Running(s, g)
    ensures |InFlight(Ended(s, g, outcome))| == |InFlight(s)| - 1
  {
    assert InFlight(Ended(s, g, outcome)) == InFlight(s) - {g};
  }

  lemma StepOwns(s: State, a: Action)
    requires s.senders == s.handles + |InFlight(s)| && Enabled(s, a)
    ensures Step(s, a).senders == Step(s, a).handles + |InFlight(Step(s, a))|
  {
    var t := Step(s, a);
    match a
    case Request(g) =>
      if s.closed {
        assert InFlight(t) == InFlight(s);
      } else {
        assert InFlight(t) == InFlight(s) + {g};
      }
    case Poll(g, workReady, workFirst) =>
      var outcome := Polled(s, workReady, workFirst);
      if outcome.Some? {
        EndedOwnsLess(s, g, outcome.value);
      } else {
        assert InFlight(t) == InFlight(s);
      }
    case Abandon(g) => EndedOwnsLess(s, g, Abandoned);
    case _ => assert InFlight(t) == InFlight(s);
  }

  lemma StepToldTruth(s: State, a: Action)
    requires Inv(s) && Enabled(s, a)
    ensures ToldTruth(Step(s, a))
  {
    if a.Poll? {
      RunningOwnsSender(s, a.g);
    }
  }

  lemma StepKeeps(s: State, a: Action)
    requires Inv(s) && Enabled(s, a)
    ensures Inv(Step(s, a))
  {
    StepOwns(s, a);
    StepToldTruth(s, a);
  }

  lemma {:induction false} RunKeeps(s: State, schedule: seq<Action>)
    requires Inv(s)
    ensures Inv(Run(s, schedule))
    ensures s.closed ==> Run(s, schedule).closed
    decreases |schedule|
  {
    if schedule != [] {
      if Enabled(s, schedule[0]) {
        StepKeeps(s, schedule[0]);
      }
      RunKeeps(Next(s, schedule[0]), schedule[1..]);
    }
  }

  lemma Reachable(schedule: seq<Action>)
    ensures Inv(Run(START, schedule))
  {
    assert InFlight(START) == {};
    RunKeeps(START, schedule);
  }

  // ----- Prompt, and never spurious -----

  /** What any poll of a running request answers, even its first, and even after every handle was dropped. An open
      session never stops it; a closed one stops unfinished work at once, and where the work is finished as well the
      branch that is tried first wins. */
  lemma PollTellsTheTruth(schedule: seq<Action>, g: Id, workReady: bool, workFirst: bool)
    requires Running(Run(START, schedule), g)
    ensures var s := Run(START, schedule);
            var answer := Polled(s, workReady, workFirst);
            && (!s.closed && !workReady ==> answer == None)
            && (!s.closed && workReady ==> answer == Some(Worked))
            && (s.closed && !workReady ==> answer == Some(ClosedInFlight))
            && (s.closed && workReady ==> answer == Some(if workFirst then Worked else ClosedInFlight))
            && Step(s, Poll(g, workReady, workFirst)).requests[g] ==
               if answer.Some? then Over(answer.value) else Subscribed
  {
    Reachable(schedule);
    RunningOwnsSender(Run(START, schedule), g);
  }

  /** A request is refused exactly when it starts after a close, and then nothing of it runs. */
  lemma RefusedWhenClosed(schedule: seq<Action>, g: Id)
    requires Enabled(Run(START, schedule), Request(g))
    ensures var s := Run(START, schedule);
            && (s.closed <==> Step(s, Request(g)).requests[g] == Over(Refused))
            && (!s.closed <==> Running(Step(s, Request(g)), g))
  {
  }

  /** A request ends with the result of its work only if its work was finished. */
  lemma WorkedOnlyIfFinished(schedule: seq<Action>, g: Id)
    requires var s := Run(START, schedule); g in s.requests && s.requests[g] == Over(Worked)
    ensures exists i :: 0 <= i < |schedule| && FinishedPoll(schedule[i], g)
  {
    FinishedInRun(START, schedule, g);
  }

  predicate FinishedPoll(a: Action, g: Id) {
    a.Poll? && a.g == g && a.workReady
  }

  predicate HasWorked(s: State, g: Id) {
    g in s.requests && s.requests[g] == Over(Worked)
  }

  lemma {:induction false} FinishedInRun(s: State, schedule: seq<Action>, g: Id)
    requires !HasWorked(s, g) && HasWorked(Run(s, schedule), g)
    ensures exists i :: 0 <= i < |schedule| && FinishedPoll(schedule[i], g)
    decreases |schedule|
  {
    var t := Next(s, schedule[0]);
    if HasWorked(t, g) {
      assert FinishedPoll(schedule[0], g);
    } else {
      FinishedInRun(t, schedule[1..], g);
      var i :| 0 <= i < |schedule[1..]| && FinishedPoll(schedule[1..][i], g);
      assert schedule[i + 1] == schedule[1..][i];
    }
  }

  /** Whoever ended with a "closed" error did so after a `close()`, and the session has stayed closed since. */
  lemma ClosedOnlyByClose(schedule: seq<Action>, later: seq<Action>, g: Id)
    requires var s := Run(START, schedule);
             g in s.requests && (s.requests[g] == Over(ClosedInFlight) || s.requests[g] == Over(Refused))
    ensures Run(START, schedule).closed && Run(Run(START, schedule), later).closed
    ensures exists i :: 0 <= i < |schedule| && schedule[i] == Close
  {
    Reachable(schedule);
    RunKeeps(Run(START, schedule), later);
    ClosedByAClose(START, schedule);
  }

  lemma {:induction false} ClosedByAClose(s: State, schedule: seq<Action>)
    requires !s.closed && Run(s, schedule).closed
    ensures exists i :: 0 <= i < |schedule| && schedule[i] == Close
    decreases |schedule|
  {
    var t := Next(s, schedule[0]);
    if t.closed {
      assert schedule[0] == Close;
    } else {
      ClosedByAClose(t, schedule[1..]);
      var i :| 0 <= i < |schedule[1..]| && schedule[1..][i] == Close;
      assert schedule[i + 1] == Close;
    }
  }
}
