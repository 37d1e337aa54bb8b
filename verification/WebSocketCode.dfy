/** The operations of `src/websocket.rs` as code, run among arbitrary steps of the other operations. */
module WebSocketCode {
  import opened Basics
  import opened WebSocket

  ghost predicate Leads(s: State, t: State) {
    exists schedule :: Run(s, schedule) == t
  }

  lemma LeadsOn(s: State, t: State, a: Action)
    requires Leads(s, t) && Enabled(t, a)
    ensures Leads(s, Step(t, a))
  {
    var schedule :| Run(s, schedule) == t;
    RunExtends(s, schedule, a);
  }

  lemma LeadsKeep(s: State)
    requires Leads(START, s)
    ensures Inv(s) && ReleasesHold(s)
  {
    var schedule :| Run(START, schedule) == s;
    Reachable(schedule);
    ReleaseRun(START, schedule);
  }

  predicate StepOf(a: Action, o: Id) {
    match a
    case Call(p, _) => p == o
    case Get(p) => p == o
    case Reply(p, _) => p == o
    case Cancel(p) => p == o
    case TakeSlot(p) => p == o
    case DropTaken(p) => p == o
    case DropOwn(p) => p == o
    case Leave(p) => p == o
    case DropObject => false
  }

  lemma OthersKeep(s: State, a: Action, o: Id)
    requires Enabled(s, a) && !StepOf(a, o) && o in s.ops
    ensures o in Step(s, a).ops && Step(s, a).ops[o] == s.ops[o]
    ensures !s.slot ==> !Step(s, a).slot
  {
  }

  /** What the other operations try to do at the interruption points. */
  datatype Gaps = Gaps(beforeGet: seq<Action>, whileWaiting: seq<Action>, beforeTake: seq<Action>,
                       beforeDropTaken: seq<Action>, beforeDropOwn: seq<Action>, beforeLeave: seq<Action>)

  /** Nobody else acts. */
  predicate Alone(gaps: Gaps) {
    && gaps.beforeGet == [] && gaps.whileWaiting == [] && gaps.beforeTake == []
    && gaps.beforeDropTaken == [] && gaps.beforeDropOwn == [] && gaps.beforeLeave == []
  }

  class SharedConnection {
    var slot: bool
    var strong: int
    var drops: nat
    var shared: int
    var held: bool
    var ops: map<Id, Operation>

    ghost function Now(): State
      reads this
    {
      State(slot, strong, drops, shared, held, ops)
    }

    ghost predicate Valid()
      reads this
    {
      Leads(START, Now())
    }

    constructor ()
      ensures Valid() && Now() == START
    {
      slot, strong, drops, shared, held, ops := true, 1, 0, 1, true, map[];
      new;
      assert Run(START, []) == START;
    }

    method Take(a: Action)
      requires Valid() && Enabled(Now(), a)
      modifies this
      ensures Valid() && Now() == Step(old(Now()), a)
    {
      LeadsOn(START, Now(), a);
      var t := Step(State(slot, strong, drops, shared, held, ops), a);
      slot, strong, drops, shared, held, ops := t.slot, t.strong, t.drops, t.shared, t.held, t.ops;
    }

    method Others(o: Id, actions: seq<Action>)
      requires Valid() && o in ops
      modifies this
      ensures Valid() && o in ops && ops[o] == old(ops[o]) && (old(!slot) ==> !slot)
      ensures actions == [] ==> Now() == old(Now())
    {
      for i := 0 to |actions|
        invariant Valid() && o in ops && ops[o] == old(ops[o]) && (old(!slot) ==> !slot)
        invariant i == 0 ==> Now() == old(Now())
      {
        if !StepOf(actions[i], o) && Enabled(State(slot, strong, drops, shared, held, ops), actions[i]) {
          OthersKeep(Now(), actions[i], o);
          Take(actions[i]);
        }
      }
    }

    /** `get`: clones the handle out of the slot, if it is still there. */
    method Get(o: Id) returns (got: bool)
      requires Valid() && o in ops && ops[o].pc == Called
      modifies this`strong, this`ops
      ensures Valid() && got == slot
      ensures strong == old(strong) + if got then 1 else 0
      ensures got ==> ops == old(ops)[o := old(ops)[o].(pc := Using)]
      ensures !got ==>
                ops == old(ops)[o := old(ops)[o].(pc := Leaving, outcome := Some(WhenGone(old(ops)[o].kind)))]
    {
      LeadsOn(START, Now(), Action.Get(o));
      got := slot;
      if slot {
        strong := strong + 1;
        ops := ops[o := ops[o].(pc := Using)];
      } else {
        ops := ops[o := ops[o].(pc := Leaving, outcome := Some(WhenGone(ops[o].kind)))];
      }
    }

    /** `release`: takes the handle out under the lock, then drops it with no lock held. */
    method Release(o: Id, gaps: Gaps)
      requires Valid() && o in ops && ops[o].pc == Releasing
      modifies this
      ensures Valid() && !slot && o in ops && ops[o] == old(ops[o]).(pc := DroppingOwn)
      ensures Alone(gaps) ==> held == old(held)
    {
      LeadsOn(START, Now(), TakeSlot(o));
      var taken := slot;
      slot := false;
      ops := ops[o := ops[o].(pc := if taken then DroppingTaken else DroppingOwn)];
      if taken {
        Others(o, gaps.beforeDropTaken);
        Drop(o, DropTaken(o));
      }
    }

    /** One handle less; the last one drops the connection. */
    method Drop(o: Id, a: Action)
      requires Valid() && o in ops
      requires (a == DropTaken(o) && ops[o].pc == DroppingTaken) || (a == DropOwn(o) && ops[o].pc == DroppingOwn)
      modifies this`strong, this`drops, this`ops
      ensures Valid() && strong == old(strong) - 1
      ensures drops == old(drops) + if strong == 0 then 1 else 0
      ensures ops == old(ops)[o := old(ops)[o].(pc := if a == DropTaken(o) then DroppingOwn else Leaving)]
    {
      LeadsOn(START, Now(), a);
      strong := strong - 1;
      if strong == 0 {
        drops := drops + 1;
      }
      ops := ops[o := ops[o].(pc := if a == DropTaken(o) then DroppingOwn else Leaving)];
    }

    method Answered(o: Id, answer: Answer)
      requires Valid() && o in ops && ops[o].pc == Using
      modifies this`ops
      ensures Valid() && ops == old(ops)[o := AfterReply(old(ops)[o], answer)]
    {
      LeadsOn(START, Now(), Reply(o, answer));
      ops := ops[o := AfterReply(ops[o], answer)];
    }

    /** The operation lets go of the shared slot. */
    method End(o: Id)
      requires Valid() && o in ops && ops[o].pc == Leaving
      modifies this
      ensures Valid() && ops == old(ops)[o := old(ops)[o].(pc := Over)]
      ensures old(!slot) ==> !slot
      ensures held == old(held) && (held ==> slot == old(slot))
    {
      LeadsKeep(Now());
      assert o in Sharers(Now());
      Take(Leave(o));
    }

    /** With a handle in hand: wait for the connection, release it where the answer says so, drop the handle. */
    method Use(o: Id, answer: Answer, gaps: Gaps)
      requires Valid() && o in ops && ops[o].pc == Using
      modifies this
      ensures Valid() && o in ops && ops[o] == AfterReply(old(ops[o]), answer).(pc := Leaving)
      ensures AfterReply(old(ops[o]), answer).pc == Releasing || old(!slot) ==> !slot
      ensures Alone(gaps) && AfterReply(old(ops[o]), answer).pc != Releasing ==> slot == old(slot)
      ensures Alone(gaps) ==> held == old(held)
    {
      Others(o, gaps.whileWaiting);
      Answered(o, answer);
      if ops[o].pc == Releasing {
        Others(o, gaps.beforeTake);
        Release(o, gaps);
      }
      Others(o, gaps.beforeDropOwn);
      Drop(o, DropOwn(o));
    }

    /** `send_*`, `recv`, `close`, and `__anext__` or `__next__`, from the first poll to the end. */
    method Operate(o: Id, answer: Answer, gaps: Gaps) returns (outcome: Outcome)
      requires Valid() && o in ops && ops[o] == Operation(ops[o].kind, Called, None)
      modifies this
      ensures Valid() && o in ops && ops[o] == Operation(old(ops[o].kind), Over, Some(outcome))
      ensures old(!slot) ==> outcome == WhenGone(old(ops[o].kind))
      ensures gaps.beforeGet == [] && old(slot) ==> Some(outcome) == AfterReply(old(ops[o]), answer).outcome
      ensures old(!slot) ==> outcome == if old(ops[o].kind) == Next then Ended else ClosedError
      ensures gaps.beforeGet == [] && old(slot) ==>
                outcome == match old(ops[o].kind)
                           case Send => if answer == Failed then Raised else Returned
                           case Recv => if answer == Failed then Raised else Returned
                           case Close => if answer == Failed then Raised else Returned
                           case Next => if answer == Fine then Returned else Ended
      ensures Alone(gaps) && old(slot && held) ==>
                slot == match old(ops[o].kind)
                        case Send => true
                        case Recv => true
                        case Close => answer == Failed
                        case Next => answer == Fine
      ensures (old(ops[o].kind) == Close && outcome == Returned) || outcome == Ended ==> !slot
    {
      Others(o, gaps.beforeGet);
      var got := Get(o);
      if got {
        Use(o, answer, gaps);
      }
      outcome := ops[o].outcome.value;
      Others(o, gaps.beforeLeave);
      End(o);
    }
  }
}
