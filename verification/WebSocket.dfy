/** Ownership of a WebSocket connection: `SharedConnection` of `src/websocket.rs` and the operations that use it.

    The connection has one owner in the slot and one per running operation. The slot itself is shared by the Python
    object and the operations. Every lock section, every drop of a handle and every await is a step of its own. */
module WebSocket {
  import opened Basics
  import opened Totals

  type Id = nat

  datatype Kind = Send | Recv | Close | Next

  /** How the connection answers an operation. */
  datatype Answer = Fine | CloseFrame | Failed

  datatype Outcome =
    | Returned      // a result of the connection
    | Raised        // an error of the connection
    | ClosedError   // RuntimeError: the connection was gone at the start
    | Ended         // iteration ends
    | Cancelled

  datatype Pc =
    | Called                    // created, nothing taken yet
    | Using                     // owns a handle, waits for the connection
    | Releasing                 // about to take the slot
    | DroppingTaken             // owns what the slot held as well
    | DroppingOwn               // about to drop its handle
    | Leaving                   // about to let go of the shared slot
    | Over

  datatype Operation = Operation(kind: Kind, pc: Pc, outcome: Option<Outcome>)

  /** `strong` counts the owners of the connection, `shared` those of the slot; `drops` is how often the
      connection was dropped. */
  datatype State = State(
    slot: bool, strong: int, drops: nat, shared: int, held: bool, ops: map<Id, Operation>)

  const START := State(true, 1, 0, 1, true, map[])

  datatype Action =
    | Call(o: Id, kind: Kind)
    | Get(o: Id)
    | Reply(o: Id, answer: Answer)
    | Cancel(o: Id)
    | TakeSlot(o: Id)
    | DropTaken(o: Id)
    | DropOwn(o: Id)
    | Leave(o: Id)
    | DropObject

  predicate At(s: State, o: Id, pc: Pc) {
    o in s.ops && s.ops[o].pc == pc
  }

  predicate Enabled(s: State, a: Action) {
    match a
    case Call(o, _) => s.held && o !in s.ops
    case Get(o) => At(s, o, Called)
    case Reply(o, answer) => At(s, o, Using)
    case Cancel(o) => At(s, o, Called) || At(s, o, Using)
    case TakeSlot(o) => At(s, o, Releasing)
    case DropTaken(o) => At(s, o, DroppingTaken)
    case DropOwn(o) => At(s, o, DroppingOwn)
    case Leave(o) => At(s, o, Leaving)
    case DropObject => s.held
  }

  /** One owner of the connection less; the last one drops it. */
  function OneOwnerLess(s: State): State {
    s.(strong := s.strong - 1, drops := s.drops + if s.strong == 1 then 1 else 0)
  }

  /** One owner of the slot less; the last one drops whatever the slot still holds. */
  function OneSharerLess(s: State): State {
    var t := s.(shared := s.shared - 1);
    if s.shared == 1 && s.slot then OneOwnerLess(t).(slot := false) else t
  }

  /** What comes after the answer of the connection: a successful close, or the end of an iteration, releases. */
  function AfterReply(x: Operation, answer: Answer): Operation {
    match x.kind
    case Send => x.(pc := DroppingOwn, outcome := Some(if answer == Failed then Raised else Returned))
    case Recv => x.(pc := DroppingOwn, outcome := Some(if answer == Failed then Raised else Returned))
    case Close =>
      if answer == Failed then x.(pc := DroppingOwn, outcome := Some(Raised))
      else x.(pc := Releasing, outcome := Some(Returned))
    case Next =>
      if answer == Fine then x.(pc := DroppingOwn, outcome := Some(Returned))
      else x.(pc := Releasing, outcome := Some(Ended))
  }

  /** A closed connection is an error, except that it just ends an iteration. */
  function WhenGone(kind: Kind): Outcome {
    if kind == Next then Ended else ClosedError
  }

  function Moved(s: State, o: Id, x: Operation): State {
    s.(ops := s.ops[o := x])
  }

  function Step(s: State, a: Action): State
    requires Enabled(s, a)
  {
    match a
    case Call(o, kind) => Moved(s, o, Operation(kind, Called, None)).(shared := s.shared + 1)
    case Get(o) =>
      var x := s.ops[o];
      if s.slot then Moved(s, o, x.(pc := Using)).(strong := s.strong + 1)
      else Moved(s, o, x.(pc := Leaving, outcome := Some(WhenGone(x.kind))))
    case Reply(o, answer) => Moved(s, o, AfterReply(s.ops[o], answer))
    case Cancel(o) =>
      var x := s.ops[o];
      Moved(s, o, x.(pc := if x.pc == Using then DroppingOwn else Leaving, outcome := Some(Cancelled)))
    case TakeSlot(o) =>
      Moved(s, o, s.ops[o].(pc := if s.slot then DroppingTaken else DroppingOwn)).(slot := false)
    case DropTaken(o) => OneOwnerLess(Moved(s, o, s.ops[o].(pc := DroppingOwn)))
    case DropOwn(o) => OneOwnerLess(Moved(s, o, s.ops[o].(pc := Leaving)))
    case Leave(o) => OneSharerLess(Moved(s, o, s.ops[o].(pc := Over)))
    case DropObject => OneSharerLess(s.(held := false))
  }

  function Try(s: State, a: Action): State {
    if Enabled(s, a) then Step(s, a) else s
  }

  /** Where a schedule leads; what is not possible at its turn does not happen. */
  function Run(s: State, schedule: seq<Action>): State
    decreases |schedule|
  {
    if schedule == [] then s else Run(Try(s, schedule[0]), schedule[1..])
  }

  // ----- The invariant -----

  predicate Owns(x: Operation) {
    x.pc == Using || x.pc == Releasing || x.pc == DroppingTaken || x.pc == DroppingOwn
  }

  predicate Takes(x: Operation) {
    x.pc == DroppingTaken
  }

  predicate Shares(x: Operation) {
    x.pc != Over
  }

  function Owners(s: State): set<Id> {
    Where(s.ops, Owns)
  }

  function Takers(s: State): set<Id> {
    Where(s.ops, Takes)
  }

  function Sharers(s: State): set<Id> {
    Where(s.ops, Shares)
  }

  predicate Inv(s: State) {
    && s.strong == (if s.slot then 1 else 0) + |Owners(s)| + |Takers(s)|
    && s.shared == (if s.held then 1 else 0) + |Sharers(s)|
    && s.drops == (if s.strong == 0 then 1 else 0)
    && (s.slot ==> s.shared > 0)
  }

  /** The operation `a` moves, if any, and to what. */
  function Target(s: State, a: Action): Option<(Id, Operation)>
    requires Enabled(s, a)
  {
    match a
    case DropObject => None
    case Call(o, _) => Some((o, Step(s, a).ops[o]))
    case Get(o) => Some((o, Step(s, a).ops[o]))
    case Reply(o, _) => Some((o, Step(s, a).ops[o]))
    case Cancel(o) => Some((o, Step(s, a).ops[o]))
    case TakeSlot(o) => Some((o, Step(s, a).ops[o]))
    case DropTaken(o) => Some((o, Step(s, a).ops[o]))
    case DropOwn(o) => Some((o, Step(s, a).ops[o]))
    case Leave(o) => Some((o, Step(s, a).ops[o]))
  }

  lemma StepMoves(s: State, a: Action)
    requires Enabled(s, a)
    ensures Step(s, a).ops == match Target(s, a) case None => s.ops case Some((o, x)) => s.ops[o := x]
  {
  }

  /** How many owners, takers and sharers a step leaves. */
  lemma StepCounts(s: State, a: Action)
    requires Enabled(s, a) && Target(s, a).Some?
    ensures var (o, x) := Target(s, a).value;
            var known, t := o in s.ops, Step(s, a);
            && |Owners(t)| == |Owners(s)| - (if known && Owns(s.ops[o]) then 1 else 0) + (if Owns(x) then 1 else 0)
            && |Takers(t)| == |Takers(s)| - (if known && Takes(s.ops[o]) then 1 else 0) + (if Takes(x) then 1 else 0)
            && |Sharers(t)| ==
               |Sharers(s)| - (if known && Shares(s.ops[o]) then 1 else 0) + (if Shares(x) then 1 else 0)
  {
    StepMoves(s, a);
    var (o, x) := Target(s, a).value;
    WhereUpdate(s.ops, o, x, Owns);
    WhereUpdate(s.ops, o, x, Takes);
    WhereUpdate(s.ops, o, x, Shares);
  }

  lemma CallKeeps(s: State, a: Action)
    requires Inv(s) && Enabled(s, a) && (a.Call? || a.Get? || a.Reply? || a.Cancel?)
    ensures Inv(Step(s, a))
  {
    StepCounts(s, a);
  }

  lemma ReleaseKeeps(s: State, a: Action)
    requires Inv(s) && Enabled(s, a) && (a.TakeSlot? || a.DropTaken? || a.DropOwn?)
    ensures Inv(Step(s, a))
  {
    StepCounts(s, a);
  }

  lemma LeaveKeeps(s: State, a: Action)
    requires Inv(s) && Enabled(s, a) && (a.Leave? || a.DropObject?)
    ensures Inv(Step(s, a))
  {
    if a.Leave? {
      StepCounts(s, a);
    } else {
      assert Step(s, a).ops == s.ops;
    }
  }

  lemma StepKeeps(s: State, a: Action)
    requires Inv(s) && Enabled(s, a)
    ensures Inv(Step(s, a))
  {
    if a.Leave? || a.DropObject? {
      LeaveKeeps(s, a);
    } else if a.TakeSlot? || a.DropTaken? || a.DropOwn? {
      ReleaseKeeps(s, a);
    } else {
      CallKeeps(s, a);
    }
  }

  lemma {:induction false} RunKeeps(s: State, schedule: seq<Action>)
    requires Inv(s)
    ensures Inv(Run(s, schedule))
    decreases |schedule|
  {
    if schedule != [] {
      if Enabled(s, schedule[0]) {
        StepKeeps(s, schedule[0]);
      }
      RunKeeps(Try(s, schedule[0]), schedule[1..]);
    }
  }

  lemma Reachable(schedule: seq<Action>)
    ensures Inv(Run(START, schedule))
  {
    assert Owners(START) == {} && Takers(START) == {} && Sharers(START) == {};
    RunKeeps(START, schedule);
  }

  // ----- Ownership -----

  /** The connection is dropped at most once: exactly when the slot is empty and no operation owns a handle. */
  lemma DroppedOnceWhenUnowned(schedule: seq<Action>)
    ensures var s := Run(START, schedule);
            && s.drops <= 1
            && (s.drops == 1 <==> !s.slot && Owners(s) == {})
  {
    Reachable(schedule);
    var s := Run(START, schedule);
    if Owners(s) == {} {
      assert Takers(s) == {};
    } else {
      var o :| o in Owners(s);
    }
  }

  /** It goes away in the very step after which the slot is empty and the last handle is gone. */
  lemma DroppedWithLastHandle(schedule: seq<Action>, a: Action)
    requires Enabled(Run(START, schedule), a)
    ensures var s, t := Run(START, schedule), Step(Run(START, schedule), a);
            t.drops == s.drops + (if (s.slot || Owners(s) != {}) && !t.slot && Owners(t) == {} then 1 else 0)
  {
    RunExtends(START, schedule, a);
    DroppedOnceWhenUnowned(schedule);
    DroppedOnceWhenUnowned(schedule + [a]);
    StaysDropped(Run(START, schedule), a);
  }

  lemma StaysDropped(s: State, a: Action)
    requires Enabled(s, a)
    ensures Step(s, a).drops >= s.drops
  {
  }

  lemma {:induction false} RunExtends(s: State, schedule: seq<Action>, a: Action)
    ensures Run(s, schedule + [a]) == Try(Run(s, schedule), a)
    decreases |schedule|
  {
    if schedule == [] {
      assert Run(s, [a]) == Run(Try(s, a), [a][1..]);
    } else {
      assert (schedule + [a])[1..] == schedule[1..] + [a];
      RunExtends(Try(s, schedule[0]), schedule[1..], a);
    }
  }

  /** An operation that is using the connection keeps it alive, whoever releases it meanwhile. */
  lemma AliveWhileUsed(schedule: seq<Action>, o: Id)
    requires var s := Run(START, schedule); o in s.ops && Owns(s.ops[o])
    ensures Run(START, schedule).drops == 0 && Run(START, schedule).strong > 0
  {
    DroppedOnceWhenUnowned(schedule);
    Reachable(schedule);
    assert o in Owners(Run(START, schedule));
  }

  // ----- After a release -----

  /** The operation has not got a handle, and will not: the slot is empty. */
  predicate TooLate(s: State, o: Id) {
    && !s.slot
    && (o in s.ops ==>
          match s.ops[o].pc
          case Called => s.ops[o].outcome == None
          case Leaving => s.ops[o].outcome == Some(WhenGone(s.ops[o].kind)) || s.ops[o].outcome == Some(Cancelled)
          case Over => s.ops[o].outcome == Some(WhenGone(s.ops[o].kind)) || s.ops[o].outcome == Some(Cancelled)
          case _ => false)
  }

  lemma TooLateStays(s: State, a: Action, o: Id)
    requires TooLate(s, o) && Enabled(s, a)
    ensures TooLate(Step(s, a), o)
  {
  }

  /** Once the slot is empty it stays empty, and every operation started from then on raises, or ends its iteration,
      without ever touching the connection. */
  lemma {:induction false} LateOperationsFail(s: State, later: seq<Action>, o: Id)
    requires !s.slot && (o in s.ops ==> s.ops[o] == Operation(s.ops[o].kind, Called, None))
    ensures TooLate(Run(s, later), o)
  {
    LateRun(s, later, o);
  }

  lemma {:induction false} LateRun(s: State, later: seq<Action>, o: Id)
    requires TooLate(s, o)
    ensures TooLate(Run(s, later), o)
    decreases |later|
  {
    if later != [] {
      if Enabled(s, later[0]) {
        TooLateStays(s, later[0], o);
      }
      LateRun(Try(s, later[0]), later[1..], o);
    }
  }

  /** After a successful `close()`, or a finished iteration, the slot is empty. */
  predicate HasReleased(x: Operation) {
    && (x.pc == DroppingTaken || x.pc == DroppingOwn || x.pc == Leaving || x.pc == Over)
    && ((x.kind == Close && x.outcome == Some(Returned)) || (x.kind == Next && x.outcome == Some(Ended)))
  }

  predicate ReleasesHold(s: State) {
    && (forall o :: o in s.ops && HasReleased(s.ops[o]) ==> !s.slot)
    && (forall o :: o in s.ops && (s.ops[o].pc == Called || s.ops[o].pc == Using) ==> s.ops[o].outcome == None)
  }

  lemma ReleaseStep(s: State, a: Action)
    requires ReleasesHold(s) && Enabled(s, a)
    ensures ReleasesHold(Step(s, a))
  {
  }

  lemma {:induction false} ReleaseRun(s: State, schedule: seq<Action>)
    requires ReleasesHold(s)
    ensures ReleasesHold(Run(s, schedule))
    decreases |schedule|
  {
    if schedule != [] {
      if Enabled(s, schedule[0]) {
        ReleaseStep(s, schedule[0]);
      }
      ReleaseRun(Try(s, schedule[0]), schedule[1..]);
    }
  }

  lemma CloseReleases(schedule: seq<Action>, o: Id)
    requires var s := Run(START, schedule); o in s.ops && HasReleased(s.ops[o])
    ensures !Run(START, schedule).slot
  {
    ReleaseRun(START, schedule);
  }
}
