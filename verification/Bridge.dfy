/** The in-flight tracking and drain protocol of `src/bridge.rs`, as a state machine over its atomic steps.

    A *crossing* is one future handed to Python. A tracked crossing owns one guard, that is, one unit of the
    process-wide count. An untracked crossing carries a running `drain`. Every other thread, the Python program
    and the event loops are the environment: any of their steps may come between any two steps of a crossing.
 */
module Bridge {

  type Id = nat
  type LoopId = nat

  /** Who owns the guard of a crossing. */
  datatype Holder =
    | Nobody   // released, or never taken (untracked)
    | Wrapper  // captured by the wrapper future
    | Slot     // parked in the handoff slot
    | Frame    // local to a running `call_soon_threadsafe`

  /** What became of the result of a crossing. */
  datatype Fate =
    | Undecided
    | NotSubmitted              // the submission failed before Python got a future
    | Dropped(panicked: bool)   // the wrapper was dropped without completing
    | Enqueued(pos: nat)        // entry `pos` of the FIFO of the real loop
    | LoopClosed                // dropped, because the real loop was closed
    | LoopRaised                // the real loop raised something else
    | Cancelled                 // the future was cancelled, so the bridge skipped delivery

  datatype Pc =
    | Submitting   // counted, not handed to the runtime yet
    | Running
    | Completed    // the wrapper returned; the bridge asks `future.cancelled()` next
    | Calling      // `call_soon_threadsafe` of the proxy is entered
    | CheckClosed  // guard taken up front; `is_closed()` comes next
    | CallReal     // the loop looked open; the real call comes next
    | Skipped      // delivery skipped: the proxy waits for pyo3's deferred decref
    | Releasing    // the drop of the guard has begun; `fetch_sub` comes next
    | Notifying    // `fetch_sub` returned 1; `notify_waiters` comes next
    | Finished

  /** Where the loop of `drain` stands. `generation` is the number of `notify_waiters` calls seen by `notified()`. */
  datatype DrainPc =
    | Top
    | Listening(generation: nat)
    | Waiting(generation: nat)
    | Tapping
    | Returned(result: bool)

  /** `seen` remembers which crossings existed when the drain read zero. */
  datatype Role =
    | Request
    | Drain(timed: bool, at: DrainPc, seen: set<Id>)

  datatype Crossing = Crossing(
    loop: LoopId, role: Role, pc: Pc, holder: Holder, fate: Fate, cancelled: bool, releases: nat)
  {
    predicate ReadZero() {
      role.Drain? && role.at == Returned(true)
    }

    predicate InFlight() {
      holder != Nobody
    }

    /** The end of a scope that may own the guard. */
    function ScopeEnds(): Crossing {
      this.(pc := if holder == Nobody then Finished else Releasing)
    }

    function Decided(f: Fate): Crossing {
      this.(fate := f).ScopeEnds()
    }

    function DrainAt(p: DrainPc): Crossing
      requires role.Drain?
    {
      this.(role := role.(at := p))
    }

    predicate IsDrainAt(p: DrainPc) {
      pc == Running && role.Drain? && role.at == p
    }
  }

  /** An asyncio loop: `queue` logs every callback ever enqueued, the first `ran` of which have run. */
  datatype Loop = Loop(closed: bool, queue: seq<Id>, ran: nat)

  datatype State = State(
    count: int, generation: nat, crossings: map<Id, Crossing>, loops: map<LoopId, Loop>)

  const START := State(0, 0, map[], map[])

  /** The loops whose methods may raise something other than "Event loop is closed", and those on which an inner
      future may panic. */
  datatype Env = Env(raising: set<LoopId>, panicking: set<LoopId>)

  /** A step that moves one crossing and touches nothing else. */
  datatype Move =
    | Submitted
    | SubmitFails
    | Abandon(panicked: bool)
    | Complete
    | Cancel
    | Deliver
    | Skip
    | Take
    | SeesOpen
    | SeesClosed
    | Refused
    | Raises
    | Listen
    | Wake
    | Tick
    | TimesOut

  datatype Action =
    | OpenLoop(l: LoopId)
    | CloseLoop(l: LoopId)
    | RunCallback(l: LoopId)
    | Register(c: Id, l: LoopId)
    | StartDrain(c: Id, l: LoopId, timed: bool)
    | Local(c: Id, move: Move)
    | Enqueue(c: Id)
    | FetchSub(c: Id)
    | Notify(c: Id)
    | Load(c: Id)
    | Tap(c: Id)
    | GilAcquired
    | Idle

  predicate IsOpen(s: State, l: LoopId) {
    l in s.loops && !s.loops[l].closed
  }

  predicate IsClosed(s: State, l: LoopId) {
    l in s.loops && s.loops[l].closed
  }

  /** The callback of `x` has run on its loop. */
  predicate HasRun(s: State, x: Crossing) {
    x.fate.Enqueued? && x.loop in s.loops && x.fate.pos < s.loops[x.loop].ran
  }

  predicate CanMove(env: Env, s: State, x: Crossing, m: Move) {
    match m
    case Submitted => x.pc == Submitting && x.loop in s.loops
    case SubmitFails => x.pc == Submitting
    case Abandon(panicked) => x.pc == Running && if panicked then x.loop in env.panicking else x.cancelled
    case Complete => x.pc == Running && (x.role.Drain? ==> x.role.at.Returned?)
    case Cancel => x.pc != Submitting && !x.cancelled && !HasRun(s, x)
    case Deliver => x.pc == Completed && !x.cancelled
    case Skip => x.pc == Completed && x.cancelled
    case Take => x.pc == Calling
    case SeesOpen => x.pc == CheckClosed && IsOpen(s, x.loop)
    case SeesClosed => x.pc == CheckClosed && IsClosed(s, x.loop)
    case Refused => x.pc == CallReal && IsClosed(s, x.loop)
    case Raises => (x.pc == CheckClosed || x.pc == CallReal) && x.loop in env.raising
    case Listen => x.IsDrainAt(Top)
    case Wake => x.pc == Running && x.role.Drain? && x.role.at.Waiting? && x.role.at.generation != s.generation
    case Tick => x.IsDrainAt(Waiting(s.generation))
    case TimesOut => x.pc == Running && x.role.Drain? && x.role.timed && x.role.at.Waiting?
  }

  function Moved(env: Env, s: State, x: Crossing, m: Move): Crossing
    requires CanMove(env, s, x, m)
  {
    match m
    case Submitted => x.(pc := Running)
    case SubmitFails => x.Decided(NotSubmitted)
    case Abandon(panicked) => x.Decided(Dropped(panicked))
    case Complete => x.(pc := Completed, holder := if x.holder == Wrapper then Slot else x.holder)
    case Cancel => x.(cancelled := true)
    case Deliver => x.(pc := Calling)
    case Skip => x.(pc := Skipped, fate := Cancelled)
    case Take => x.(pc := CheckClosed, holder := if x.holder == Slot then Frame else x.holder)
    case SeesOpen => x.(pc := CallReal)
    case SeesClosed => x.Decided(LoopClosed)
    case Refused => x.Decided(LoopClosed)
    case Raises => x.Decided(LoopRaised)
    case Listen => x.DrainAt(Listening(s.generation))
    case Wake => x.DrainAt(Top)
    case Tick => x.DrainAt(Tapping)
    case TimesOut => x.DrainAt(Returned(false))
  }

  predicate Enabled(env: Env, s: State, a: Action) {
    match a
    case OpenLoop(l) => l !in s.loops
    case CloseLoop(l) => l in s.loops
    case RunCallback(l) => IsOpen(s, l) && s.loops[l].ran < |s.loops[l].queue|
    case Register(c, _) => c !in s.crossings
    case StartDrain(c, _, _) => c !in s.crossings
    case Local(c, m) => c in s.crossings && CanMove(env, s, s.crossings[c], m)
    case Enqueue(c) => c in s.crossings && s.crossings[c].pc == CallReal && IsOpen(s, s.crossings[c].loop)
    case FetchSub(c) => c in s.crossings && s.crossings[c].pc == Releasing
    case Notify(c) => c in s.crossings && s.crossings[c].pc == Notifying
    case Load(c) =>
      && c in s.crossings
      && s.crossings[c].pc == Running
      && s.crossings[c].role.Drain?
      && s.crossings[c].role.at.Listening?
    case Tap(c) => c in s.crossings && s.crossings[c].IsDrainAt(Tapping)
    case GilAcquired => true
    case Idle => true
  }

  /** Taking the GIL runs pyo3's deferred decrefs: every stranded proxy is freed, and its slot dropped with it. */
  function Freed(crossings: map<Id, Crossing>): map<Id, Crossing> {
    map c | c in crossings :: if crossings[c].pc == Skipped then crossings[c].ScopeEnds() else crossings[c]
  }

  function Loaded(s: State, x: Crossing): Crossing
    requires x.role.Drain? && x.role.at.Listening?
  {
    if s.count == 0 then
      x.(role := Drain(x.role.timed, Returned(true), s.crossings.Keys))
    else
      x.DrainAt(Waiting(x.role.at.generation))
  }

  function Step(env: Env, s: State, a: Action): State
    requires Enabled(env, s, a)
  {
    match a
    case OpenLoop(l) => s.(loops := s.loops[l := Loop(false, [], 0)])
    case CloseLoop(l) => s.(loops := s.loops[l := s.loops[l].(closed := true)])
    case RunCallback(l) => s.(loops := s.loops[l := s.loops[l].(ran := s.loops[l].ran + 1)])
    case Register(c, l) =>
      s.(count := s.count + 1,
         crossings := s.crossings[c := Crossing(l, Request, Submitting, Wrapper, Undecided, false, 0)])
    case StartDrain(c, l, timed) =>
      s.(crossings := s.crossings[c := Crossing(l, Drain(timed, Top, {}), Submitting, Nobody, Undecided, false, 0)])
    case Local(c, m) =>
      s.(crossings := s.crossings[c := Moved(env, s, s.crossings[c], m)])
    case Enqueue(c) =>
      var x := s.crossings[c];
      var loop := s.loops[x.loop];
      s.(crossings := s.crossings[c := x.Decided(Enqueued(|loop.queue|))],
         loops := s.loops[x.loop := loop.(queue := loop.queue + [c])])
    case FetchSub(c) =>
      var x := s.crossings[c];
      s.(count := s.count - 1,
         crossings := s.crossings[c := x.(pc := if s.count == 1 then Notifying else Finished,
                                          holder := Nobody, releases := x.releases + 1)])
    case Notify(c) =>
      s.(generation := s.generation + 1, crossings := s.crossings[c := s.crossings[c].(pc := Finished)])
    case Load(c) => s.(crossings := s.crossings[c := Loaded(s, s.crossings[c])])
    case Tap(c) => s.(crossings := Freed(s.crossings[c := s.crossings[c].DrainAt(Top)]))
    case GilAcquired => s.(crossings := Freed(s.crossings))
    case Idle => s
  }

  /** Runs: a run is the sequence of its actions, each enabled where it is taken. */
  predicate IsRun(env: Env, s: State, run: seq<Action>)
    decreases |run|, 0
  {
    run == [] ||
    var before := run[..|run| - 1];
    IsRun(env, s, before) && Enabled(env, End(env, s, before), run[|run| - 1])
  }

  function End(env: Env, s: State, run: seq<Action>): State
    requires IsRun(env, s, run)
    decreases |run|, 1
  {
    if run == [] then s
    else
      var before := run[..|run| - 1];
      Step(env, End(env, s, before), run[|run| - 1])
  }
}
