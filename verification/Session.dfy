/** Closing a session: `src/session_state.rs`, with the methods of `src/session.rs` and the callback slots of
    `src/middleware.rs` that share its state.

    Python code runs in the middle of these methods: a hook when it is fired, a finalizer when a callback is
    dropped. Either may call back into the session, down to Python's recursion limit. */
module Session {
  import opened Basics

  type Callback = nat

  /** A call into the session made by Python code, through any clone of the handle. */
  datatype Op =
    | OnRequest(callback: Callback)
    | OnResponse(callback: Callback)
    | Close
    | ClearForGc
    | FireRequest
    | FireResponse

  datatype Error = SessionIsClosed

  datatype Slots = Slots(onRequest: Option<Callback>, onResponse: Option<Callback>)

  const EMPTY_SLOTS := Slots(None, None)

  /** The callbacks in the slots of a middleware. */
  function Held(slots: Slots): seq<Callback> {
    (if slots.onRequest.Some? then [slots.onRequest.value] else [])
    + (if slots.onResponse.Some? then [slots.onResponse.value] else [])
  }

  /** `closes` is how many calls of `close` have returned. */
  datatype Snapshot = Snapshot(
    closed: bool, requestHooks: seq<Callback>, responseHooks: seq<Callback>, middleware: seq<Slots>, closes: nat)
  {
    /** Nothing of Python's is held any more. */
    predicate Released() {
      closed && requestHooks == [] && responseHooks == [] && EmptiedBefore(|middleware|)
    }

    /** The first `n` middleware are released. */
    predicate EmptiedBefore(n: nat) {
      forall i :: 0 <= i < |middleware| && i < n ==> middleware[i] == EMPTY_SLOTS
    }
  }

  /** What any code that runs in between leaves true: closing is final, a closed session registers nothing, a
      middleware slot is only ever emptied, and once a `close` has returned nothing is held. */
  predicate LetsGo(s: Snapshot, t: Snapshot) {
    && |t.middleware| == |s.middleware|
    && (s.closed ==> t.closed)
    && (s.closed ==> t.requestHooks == s.requestHooks || t.requestHooks == [])
    && (s.closed ==> t.responseHooks == s.responseHooks || t.responseHooks == [])
    && (forall i :: 0 <= i < |s.middleware| ==> SlotsLetGo(s.middleware[i], t.middleware[i]))
    && s.closes <= t.closes
    && (s.closes < t.closes ==> t.Released())
  }

  predicate SlotsLetGo(s: Slots, t: Slots) {
    && (t.onRequest == s.onRequest || t.onRequest == None)
    && (t.onResponse == s.onResponse || t.onResponse == None)
  }

  lemma LetsGoTwice(s: Snapshot, t: Snapshot, u: Snapshot)
    requires LetsGo(s, t) && LetsGo(t, u)
    ensures LetsGo(s, u)
  {
    forall i | 0 <= i < |s.middleware|
      ensures SlotsLetGo(s.middleware[i], u.middleware[i])
    {
      assert SlotsLetGo(s.middleware[i], t.middleware[i]) && SlotsLetGo(t.middleware[i], u.middleware[i]);
    }
    if s.closes < t.closes {
      ReleasedForGood(t, u);
    }
  }

  /** A released session stays released, whatever runs later and through whichever clone. */
  lemma ReleasedForGood(s: Snapshot, t: Snapshot)
    requires s.Released() && LetsGo(s, t)
    ensures t.Released()
  {
    forall i | 0 <= i < |t.middleware|
      ensures t.middleware[i] == EMPTY_SLOTS
    {
      assert s.middleware[i] == EMPTY_SLOTS && SlotsLetGo(s.middleware[i], t.middleware[i]);
    }
  }

  // ----- What was called -----

  /** What happened, and how deep in nested calls: `depth` is what was left of the recursion limit. `body` are the
      calls into the session that the entered code makes. */
  datatype Event =
    | Called(callback: Callback, body: seq<Op>, depth: nat)   // the body of a callback was entered
    | Dropped(callback: Callback, body: seq<Op>, depth: nat)  // a callback was let go and its finalizer entered
    | Performed(op: Op, depth: nat)                           // Python code made a call into the session
    | Sending(depth: nat)                                     // a request went out

  /** A trace as seen at one depth: the callbacks called and let go there and the calls into the session made there,
      in order; the calls made one level deeper; and what the code entered at this depth does. */
  datatype Logs = Logs(calls: seq<Callback>, drops: seq<Callback>, ops: seq<Op>, below: seq<Op>, bodies: seq<Op>)

  function Log(trace: seq<Event>, depth: nat): Logs {
    if trace == [] then Logs([], [], [], [], [])
    else Logged(Log(trace[..|trace| - 1], depth), trace[|trace| - 1], depth)
  }

  function Logged(l: Logs, e: Event, depth: nat): Logs {
    if e.depth == depth then
      match e
      case Called(callback, body, _) => l.(calls := l.calls + [callback], bodies := l.bodies + body)
      case Dropped(callback, body, _) => l.(drops := l.drops + [callback], bodies := l.bodies + body)
      case Performed(op, _) => l.(ops := l.ops + [op])
      case Sending(_) => l
    else if e.depth + 1 == depth && e.Performed? then l.(below := l.below + [e.op])
    else l
  }

  lemma LogSnoc(trace: seq<Event>, e: Event, depth: nat)
    ensures Log(trace + [e], depth) == Logged(Log(trace, depth), e, depth)
  {
    assert (trace + [e])[..|trace|] == trace;
  }

  lemma {:induction false} BelowIsDeeper(trace: seq<Event>, depth: nat)
    requires depth > 0
    ensures Log(trace, depth).below == Log(trace, depth - 1).ops
  {
    if trace != [] {
      BelowIsDeeper(trace[..|trace| - 1], depth);
    }
  }

  /** At this depth it was just these callbacks and these calls into the session; and one level deeper ran just the
      bodies of the code entered here. */
  predicate Grown(l: Logs, m: Logs, calls: seq<Callback>, ops: seq<Op>) {
    && m.calls == l.calls + calls
    && m.ops == l.ops + ops
    && l.below <= m.below && l.bodies <= m.bodies
    && m.below[|l.below|..] == m.bodies[|l.bodies|..]
  }

  lemma GrownTwice(l: Logs, m: Logs, n: Logs, calls: seq<Callback>, ops: seq<Op>,
                   moreCalls: seq<Callback>, moreOps: seq<Op>)
    requires Grown(l, m, calls, ops) && Grown(m, n, moreCalls, moreOps)
    ensures Grown(l, n, calls + moreCalls, ops + moreOps)
  {
    assert l.calls + calls + moreCalls == l.calls + (calls + moreCalls);
    assert l.ops + ops + moreOps == l.ops + (ops + moreOps);
    assert n.below[|l.below|..] == m.below[|l.below|..] + n.below[|m.below|..];
    assert n.bodies[|l.bodies|..] == m.bodies[|l.bodies|..] + n.bodies[|m.bodies|..];
  }

  /** Everything new in `after` is at most this deep. */
  predicate Extends(before: seq<Event>, after: seq<Event>, depth: nat) {
    before <= after && forall i :: |before| <= i < |after| ==> after[i].depth <= depth
  }

  /** What happened between `before` and `after`, as far as it is seen at this depth. */
  predicate Happened(before: seq<Event>, after: seq<Event>, depth: nat, calls: seq<Callback>, ops: seq<Op>) {
    Extends(before, after, depth) && Grown(Log(before, depth), Log(after, depth), calls, ops)
  }

  lemma HappenedTwice(a: seq<Event>, b: seq<Event>, c: seq<Event>, depth: nat,
                      calls: seq<Callback>, ops: seq<Op>, moreCalls: seq<Callback>, moreOps: seq<Op>)
    requires Happened(a, b, depth, calls, ops) && Happened(b, c, depth, moreCalls, moreOps)
    ensures Happened(a, c, depth, calls + moreCalls, ops + moreOps)
  {
    GrownTwice(Log(a, depth), Log(b, depth), Log(c, depth), calls, ops, moreCalls, moreOps);
  }

  lemma NothingHappened(a: seq<Event>, depth: nat)
    ensures Happened(a, a, depth, [], [])
  {
  }

  /** An event that enters no code, or code that does nothing. */
  lemma OneHappened(a: seq<Event>, e: Event)
    requires e.Called? || e.Dropped? ==> e.body == []
    ensures Happened(a, a + [e], e.depth, if e.Called? then [e.callback] else [], if e.Performed? then [e.op] else [])
    ensures Log(a + [e], e.depth).drops == Log(a, e.depth).drops + if e.Dropped? then [e.callback] else []
  {
    LogSnoc(a, e, e.depth);
  }

  /** What happens deeper does not show at this depth, but for what is one level deeper. */
  lemma {:induction false} Shallow(a: seq<Event>, c: seq<Event>, depth: nat)
    requires a <= c && forall i :: |a| <= i < |c| ==> c[i].depth < depth
    ensures Log(c, depth) == Log(a, depth).(below := Log(c, depth).below)
    decreases |c|
  {
    if a == c {
    } else {
      Shallow(a, c[..|c| - 1], depth);
    }
  }

  /** Code was entered and ran one level deeper. */
  lemma Entered(a: seq<Event>, e: Event, c: seq<Event>)
    requires (e.Called? || e.Dropped?) && e.depth > 0 && Ran(a + [e], c, e.depth - 1, e.body)
    ensures Happened(a, c, e.depth, if e.Called? then [e.callback] else [], [])
    ensures Log(c, e.depth).drops == Log(a, e.depth).drops + if e.Dropped? then [e.callback] else []
  {
    EnteredLog(a, e, c);
    EnteredGrows(Log(a, e.depth), Log(c, e.depth), e);
    EnteredExtends(a, e, c);
  }

  lemma EnteredLog(a: seq<Event>, e: Event, c: seq<Event>)
    requires (e.Called? || e.Dropped?) && e.depth > 0 && Ran(a + [e], c, e.depth - 1, e.body)
    ensures Log(c, e.depth) == Logged(Log(a, e.depth), e, e.depth).(below := Log(a, e.depth).below + e.body)
  {
    var b := a + [e];
    LogSnoc(a, e, e.depth);
    Shallow(b, c, e.depth);
    BelowIsDeeper(b, e.depth);
    BelowIsDeeper(c, e.depth);
  }

  lemma EnteredExtends(a: seq<Event>, e: Event, c: seq<Event>)
    requires e.depth > 0 && Extends(a + [e], c, e.depth - 1)
    ensures Extends(a, c, e.depth)
  {
    assert c[|a|] == (a + [e])[|a|] == e;
    assert a <= a + [e] <= c;
  }

  lemma EnteredGrows(l: Logs, m: Logs, e: Event)
    requires e.Called? || e.Dropped?
    requires m == Logged(l, e, e.depth).(below := l.below + e.body)
    ensures Grown(l, m, if e.Called? then [e.callback] else [], [])
    ensures m.drops == l.drops + if e.Dropped? then [e.callback] else []
  {
  }

  /** Between `before` and `after` just these callbacks were let go, each once and in order. */
  predicate LetGo(before: seq<Event>, after: seq<Event>, depth: nat, drops: seq<Callback>) {
    Happened(before, after, depth, [], []) && Log(after, depth).drops == Log(before, depth).drops + drops
  }

  lemma LetGoTwice(a: seq<Event>, b: seq<Event>, c: seq<Event>, depth: nat, drops: seq<Callback>, more: seq<Callback>)
    requires LetGo(a, b, depth, drops) && LetGo(b, c, depth, more)
    ensures LetGo(a, c, depth, drops + more)
  {
    HappenedTwice(a, b, c, depth, [], [], [], []);
    assert Log(a, depth).drops + drops + more == Log(a, depth).drops + (drops + more);
  }

  lemma NothingLetGo(a: seq<Event>, depth: nat)
    ensures LetGo(a, a, depth, [])
  {
    NothingHappened(a, depth);
  }

  lemma OneMore(ops: seq<Op>, i: nat)
    requires i < |ops|
    ensures ops[..i] + [ops[i]] == ops[..i + 1]
    ensures Op.Close in ops[..i + 1] <==> Op.Close in ops[..i] || ops[i] == Op.Close
  {
    assert ops[..i] + [ops[i]] == ops[..i + 1];
  }

  lemma OneMoreEnds(ops: seq<Op>)
    ensures ops[..|ops|] == ops
  {
  }

  /** Python code at this depth made just these calls into the session, each of which may call hooks. */
  predicate Ran(before: seq<Event>, after: seq<Event>, depth: nat, ops: seq<Op>) {
    && Extends(before, after, depth)
    && Log(before, depth).calls <= Log(after, depth).calls
    && Grown(Log(before, depth), Log(after, depth), CallsSince(before, after, depth), ops)
  }

  function CallsSince(before: seq<Event>, after: seq<Event>, depth: nat): seq<Callback>
    requires Log(before, depth).calls <= Log(after, depth).calls
  {
    Log(after, depth).calls[|Log(before, depth).calls|..]
  }

  lemma HappenedRan(a: seq<Event>, b: seq<Event>, depth: nat, calls: seq<Callback>, ops: seq<Op>)
    requires Happened(a, b, depth, calls, ops)
    ensures Ran(a, b, depth, ops) && CallsSince(a, b, depth) == calls
  {
  }

  lemma RanTwice(a: seq<Event>, b: seq<Event>, c: seq<Event>, depth: nat, ops: seq<Op>, more: seq<Op>)
    requires Ran(a, b, depth, ops) && Ran(b, c, depth, more)
    ensures Ran(a, c, depth, ops + more)
  {
    HappenedTwice(a, b, c, depth, CallsSince(a, b, depth), ops, CallsSince(b, c, depth), more);
    HappenedRan(a, c, depth, CallsSince(a, b, depth) + CallsSince(b, c, depth), ops + more);
  }

  /** A request in the trace from `start` on: the first hooks were called, then it went out, Python code ran, and then
      the last hooks were called. `sending` and `firing` are the places of the sending and of the end of that code. */
  predicate Requested(start: seq<Event>, trace: seq<Event>, sending: nat, firing: nat, depth: nat,
                      first: seq<Callback>, ops: seq<Op>, last: seq<Callback>) {
    && |start| <= sending < firing <= |trace|
    && Happened(start, trace[..sending], depth, first, [])
    && trace[sending] == Sending(depth)
    && Ran(trace[..sending + 1], trace[..firing], depth, ops)
    && Happened(trace[..firing], trace, depth, last, [])
  }

  lemma RequestedInOrder(start: seq<Event>, called: seq<Event>, sent: seq<Event>, trace: seq<Event>, depth: nat,
                         first: seq<Callback>, ops: seq<Op>, last: seq<Callback>)
    requires Happened(start, called, depth, first, []) && Ran(called + [Sending(depth)], sent, depth, ops)
    requires Happened(sent, trace, depth, last, [])
    ensures Requested(start, trace, |called|, |sent|, depth, first, ops, last)
  {
    assert trace[..|called|] == called && trace[..|called| + 1] == called + [Sending(depth)];
    assert trace[..|sent|] == sent;
  }

  lemma LetsGoOn(s: Snapshot, t: Snapshot, u: Snapshot)
    requires LetsGo(s, t) && LetsGo(t, u)
    ensures LetsGo(s, u) && (t.Released() ==> u.Released())
  {
    LetsGoTwice(s, t, u);
    if t.Released() {
      ReleasedForGood(t, u);
    }
  }

  lemma OneMoreEmptied(s: Snapshot, t: Snapshot, i: nat)
    requires LetsGo(s, t) && s.EmptiedBefore(i) && i < |t.middleware| && t.middleware[i] == EMPTY_SLOTS
    ensures t.EmptiedBefore(i + 1)
  {
    forall j | 0 <= j < |t.middleware| && j < i + 1
      ensures t.middleware[j] == EMPTY_SLOTS
    {
      assert SlotsLetGo(s.middleware[j], t.middleware[j]);
    }
  }

  /** The state every clone of a session handle shares, with the Python program around it. `whenCalled` and
      `whenDropped` tell which calls into the session the body or the finalizer of a callback makes, at each moment. */
  class SessionState {
    const whenCalled: (Callback, nat) -> seq<Op>
    const whenDropped: (Callback, nat) -> seq<Op>
    var moment: nat
    var closed: bool
    var requestHooks: seq<Callback>
    var responseHooks: seq<Callback>
    var middleware: seq<Slots>
    ghost var closes: nat
    ghost var trace: seq<Event>

    ghost function Now(): Snapshot
      reads this
    {
      Snapshot(closed, requestHooks, responseHooks, middleware, closes)
    }

    constructor (
        whenCalled: (Callback, nat) -> seq<Op>, whenDropped: (Callback, nat) -> seq<Op>, middleware: seq<Slots>)
      ensures Now() == Snapshot(false, [], [], middleware, 0) && trace == []
    {
      this.whenCalled, this.whenDropped, closes, trace := whenCalled, whenDropped, 0, [];
      moment, closed, requestHooks, responseHooks, this.middleware := 0, false, [], [], middleware;
    }

    method EnsureOpen() returns (r: Result<(), Error>)
      ensures r.Ok? <==> !closed
    {
      r := if closed then Err(SessionIsClosed) else Ok(());
    }

    // ----- Python code in between -----

    /** Python code that makes these calls. A `Close` among them releases everything. */
    method RunPython(ops: seq<Op>, depth: nat)
      modifies this
      ensures LetsGo(old(Now()), Now())
      ensures Op.Close in ops || old(Now().Released()) ==> Now().Released()
      ensures ops == [] ==> Now() == old(Now())
      ensures Ran(old(trace), trace, depth, ops)
      decreases depth, 6
    {
      NothingHappened(trace, depth);
      ghost var done: seq<Op> := [];
      for i := 0 to |ops|
        invariant done == ops[..i]
        invariant LetsGo(old(Now()), Now())
        invariant Ran(old(trace), trace, depth, done)
        invariant i == 0 ==> Now() == old(Now())
        invariant Op.Close in done || old(Now().Released()) ==> Now().Released()
      {
        ghost var before, traced := Now(), trace;
        Perform(ops[i], depth);
        RanTwice(old(trace), traced, trace, depth, done, [ops[i]]);
        LetsGoOn(old(Now()), before, Now());
        OneMore(ops, i);
        done := done + [ops[i]];
      }
      OneMoreEnds(ops);
    }

    method Perform(op: Op, depth: nat)
      modifies this
      ensures LetsGo(old(Now()), Now())
      ensures op == Op.Close ==> Now().Released()
      ensures Ran(old(trace), trace, depth, [op])
      ensures op.OnRequest? && !old(closed) ==>
                Now() == old(Now()).(requestHooks := old(requestHooks) + [op.callback])
      ensures op.OnResponse? && !old(closed) ==>
                Now() == old(Now()).(responseHooks := old(responseHooks) + [op.callback])
      ensures op.FireRequest? || op.FireResponse? ==>
                Log(trace, depth).calls
                == old(Log(trace, depth).calls + if op.FireRequest? then requestHooks else responseHooks)
      decreases depth, 5
    {
      ghost var start := trace;
      trace := trace + [Performed(op, depth)];
      OneHappened(start, Performed(op, depth));
      HappenedRan(start, trace, depth, [], [op]);
      ghost var entered := trace;
      match op {
        case OnRequest(callback) => var _ := OnRequest(callback, depth);
        case OnResponse(callback) => var _ := OnResponse(callback, depth);
        case Close => Close(depth);
        case ClearForGc => ClearHooks(depth);
        case FireRequest => var _ := FireRequest(depth);
        case FireResponse => var _ := FireResponse(depth);
      }
      RanTwice(start, entered, trace, depth, [op], []);
    }

    /** The body of `callback` closes the session whenever it runs. */
    ghost predicate AlwaysCloses(callback: Callback) {
      forall m: nat :: Op.Close in whenCalled(callback, m)
    }

    ghost predicate OneCloses(callbacks: seq<Callback>) {
      exists h :: h in callbacks && AlwaysCloses(h)
    }

    /** Where a callback is that always closes, or past the end. */
    lemma WhoCloses(callbacks: seq<Callback>) returns (k: nat)
      ensures k < |callbacks| ==> AlwaysCloses(callbacks[k])
      ensures k >= |callbacks| ==> !OneCloses(callbacks)
    {
      k := |callbacks|;
      if h :| h in callbacks && AlwaysCloses(h) {
        k :| k < |callbacks| && callbacks[k] == h;
      }
    }

    ghost predicate AllSilent(callbacks: seq<Callback>, depth: nat) {
      forall h :: h in callbacks ==> Silent(h, depth)
    }

    lemma OneIsSilent(callbacks: seq<Callback>, i: nat, depth: nat)
      requires i < |callbacks| && AllSilent(callbacks, depth)
      ensures Silent(callbacks[i], depth)
    {
    }

    /** Neither the body of the callback nor any finalizer does anything to the session, or there is no depth left. */
    ghost predicate Silent(callback: Callback, depth: nat) {
      depth == 0 || forall m: nat :: whenCalled(callback, m) == []
    }

    ghost predicate QuietDrops(depth: nat) {
      depth == 0 || forall c: Callback, m: nat :: whenDropped(c, m) == []
    }

    /** Calls a callback. At the recursion limit Python raises instead, which the callers swallow. */
    method Call(callback: Callback, depth: nat)
      modifies this
      ensures LetsGo(old(Now()), Now())
      ensures depth > 0 && AlwaysCloses(callback) ==> Now().Released()
      ensures Happened(old(trace), trace, depth, [callback], [])
      ensures Silent(callback, depth) ==> Now() == old(Now())
      decreases depth, 0
    {
      moment := moment + 1;
      var body := if depth > 0 then whenCalled(callback, moment) else [];
      trace := trace + [Called(callback, body, depth)];
      if depth > 0 {
        RunPython(body, depth - 1);
        Entered(old(trace), Called(callback, body, depth), trace);
      } else {
        OneHappened(old(trace), Called(callback, body, depth));
      }
    }

    /** Drops references, each once and in order; the finalizers that this triggers run with nothing borrowed. */
    method Drop(callbacks: seq<Callback>, depth: nat)
      modifies this
      ensures LetsGo(old(Now()), Now())
      ensures LetGo(old(trace), trace, depth, callbacks)
      ensures QuietDrops(depth) ==> Now() == old(Now())
      decreases depth, 1
    {
      NothingLetGo(trace, depth);
      ghost var done: seq<Callback> := [];
      ghost var quiet := QuietDrops(depth);
      for i := 0 to |callbacks|
        invariant done == callbacks[..i]
        invariant LetsGo(old(Now()), Now())
        invariant LetGo(old(trace), trace, depth, done)
        invariant quiet ==> Now() == old(Now())
      {
        ghost var before, traced := Now(), trace;
        DropOne(callbacks[i], depth);
        LetGoTwice(old(trace), traced, trace, depth, done, [callbacks[i]]);
        LetsGoTwice(old(Now()), before, Now());
        done := done + [callbacks[i]];
      }
    }

    method DropOne(callback: Callback, depth: nat)
      modifies this
      ensures LetsGo(old(Now()), Now())
      ensures LetGo(old(trace), trace, depth, [callback])
      ensures QuietDrops(depth) ==> Now() == old(Now())
      decreases depth, 0
    {
      moment := moment + 1;
      var body := if depth > 0 then whenDropped(callback, moment) else [];
      trace := trace + [Dropped(callback, body, depth)];
      if depth > 0 {
        RunPython(body, depth - 1);
        Entered(old(trace), Dropped(callback, body, depth), trace);
      } else {
        OneHappened(old(trace), Dropped(callback, body, depth));
      }
    }

    // ----- Registering and firing hooks -----

    method OnRequest(callback: Callback, depth: nat) returns (r: Result<(), Error>)
      modifies this
      ensures r.Ok? <==> !old(closed)
      ensures r.Ok? ==> Now() == old(Now()).(requestHooks := old(requestHooks) + [callback])
      ensures r.Err? && QuietDrops(depth) ==> Now() == old(Now())
      ensures LetsGo(old(Now()), Now())
      ensures Happened(old(trace), trace, depth, [], [])
      decreases depth, 2
    {
      r := EnsureOpen();
      if r.Ok? {
        NothingHappened(trace, depth);
        requestHooks := requestHooks + [callback];
      } else {
        Drop([callback], depth);
      }
    }

    method OnResponse(callback: Callback, depth: nat) returns (r: Result<(), Error>)
      modifies this
      ensures r.Ok? <==> !old(closed)
      ensures r.Ok? ==> Now() == old(Now()).(responseHooks := old(responseHooks) + [callback])
      ensures r.Err? && QuietDrops(depth) ==> Now() == old(Now())
      ensures LetsGo(old(Now()), Now())
      ensures Happened(old(trace), trace, depth, [], [])
      decreases depth, 2
    {
      r := EnsureOpen();
      if r.Ok? {
        NothingHappened(trace, depth);
        responseHooks := responseHooks + [callback];
      } else {
        Drop([callback], depth);
      }
    }

    /** Calls exactly the hooks registered at its start, once each and in order, though they may register or drop
        hooks, or close the session, meanwhile. */
    method FireRequest(depth: nat) returns (called: seq<Callback>)
      modifies this
      ensures called == old(requestHooks) && Happened(old(trace), trace, depth, old(requestHooks), [])
      ensures AllSilent(called, depth) ==> Now() == old(Now())
      ensures LetsGo(old(Now()), Now())
      ensures depth > 0 && OneCloses(old(requestHooks)) ==> Now().Released()
      decreases depth, 3
    {
      called := CallEach(requestHooks, depth);
    }

    method FireResponse(depth: nat) returns (called: seq<Callback>)
      modifies this
      ensures called == old(responseHooks) && Happened(old(trace), trace, depth, old(responseHooks), [])
      ensures AllSilent(called, depth) ==> Now() == old(Now())
      ensures LetsGo(old(Now()), Now())
      ensures depth > 0 && OneCloses(old(responseHooks)) ==> Now().Released()
      decreases depth, 3
    {
      called := CallEach(responseHooks, depth);
    }

    method CallEach(snapshot: seq<Callback>, depth: nat) returns (called: seq<Callback>)
      modifies this
      ensures called == snapshot && Happened(old(trace), trace, depth, snapshot, [])
      ensures AllSilent(snapshot, depth) ==> Now() == old(Now())
      ensures LetsGo(old(Now()), Now())
      ensures depth > 0 && OneCloses(snapshot) ==> Now().Released()
      decreases depth, 2
    {
      called := [];
      NothingHappened(trace, depth);
      ghost var k := WhoCloses(snapshot);
      ghost var silent := AllSilent(snapshot, depth);
      ghost var start, traced := Now(), trace;
      for i := 0 to |snapshot|
        invariant called == snapshot[..i]
        invariant silent ==> Now() == start
        invariant LetsGo(start, Now()) && Happened(traced, trace, depth, called, [])
        invariant depth > 0 && k < i ==> Now().Released()
      {
        if silent {
          OneIsSilent(snapshot, i, depth);
        }
        CallNext(snapshot[i], depth, start, traced, called);
        called := called + [snapshot[i]];
      }
    }

    method CallNext(callback: Callback, depth: nat,
                    ghost start: Snapshot, ghost traced: seq<Event>, ghost called: seq<Callback>)
      requires LetsGo(start, Now()) && Happened(traced, trace, depth, called, [])
      modifies this
      ensures LetsGo(start, Now()) && Happened(traced, trace, depth, called + [callback], [])
      ensures (depth > 0 && AlwaysCloses(callback)) || old(Now().Released()) ==> Now().Released()
      ensures Silent(callback, depth) ==> Now() == old(Now())
      decreases depth, 1
    {
      ghost var before, middle := Now(), trace;
      Call(callback, depth);
      HappenedTwice(traced, middle, trace, depth, called, [], [callback], []);
      LetsGoOn(start, before, Now());
    }

    // ----- Closing -----

    /** Both lists are emptied in place. Without the closed flag a finalizer can fill them again. */
    method ClearHooks(depth: nat)
      modifies this
      ensures LetsGo(old(Now()), Now())
      ensures old(closed) ==> requestHooks == [] && responseHooks == []
      ensures QuietDrops(depth) ==> Now() == old(Now()).(requestHooks := [], responseHooks := [])
      ensures Happened(old(trace), trace, depth, [], [])
      ensures QuietDrops(depth) ==> LetGo(old(trace), trace, depth, old(requestHooks) + old(responseHooks))
      decreases depth, 2
    {
      ghost var start := Now();
      var removed := requestHooks;
      requestHooks := [];
      Drop(removed, depth);
      ghost var middle, traced := Now(), trace;
      removed := responseHooks;
      responseHooks := [];
      ghost var emptied := Now();
      Drop(removed, depth);
      LetsGoTwice(start.(requestHooks := []), middle, emptied);
      LetsGoTwice(start.(requestHooks := []), emptied, Now());
      LetGoTwice(old(trace), traced, trace, depth, start.requestHooks, removed);
    }

    /** `MiddlewareSlots::release`: both callbacks are taken out first and dropped with no lock held. */
    method Release(i: nat, depth: nat)
      requires i < |middleware|
      modifies this
      ensures LetsGo(old(Now()), Now())
      ensures middleware[i] == EMPTY_SLOTS
      ensures QuietDrops(depth) ==> Now() == old(Now()).(middleware := old(middleware)[i := EMPTY_SLOTS])
      ensures LetGo(old(trace), trace, depth, Held(old(middleware)[i]))
      decreases depth, 2
    {
      ghost var start := Now();
      var taken := middleware[i];
      middleware := middleware[i := EMPTY_SLOTS];
      ghost var emptied := Now();
      Drop(Held(taken), depth);
      LetsGoTwice(start, emptied, Now());
      assert SlotsLetGo(emptied.middleware[i], middleware[i]);
    }

    /** Every middleware in turn. */
    method ReleaseAll(depth: nat)
      requires closed && requestHooks == [] && responseHooks == []
      modifies this
      ensures Now().Released()
      ensures LetsGo(old(Now()), Now())
      ensures Happened(old(trace), trace, depth, [], [])
      decreases depth, 3
    {
      ghost var start := Now();
      NothingHappened(trace, depth);
      for i := 0 to |middleware|
        invariant |middleware| == |start.middleware|
        invariant closed && requestHooks == [] && responseHooks == []
        invariant Now().EmptiedBefore(i)
        invariant LetsGo(start, Now())
        invariant Happened(old(trace), trace, depth, [], [])
      {
        ghost var before, traced := Now(), trace;
        Release(i, depth);
        HappenedTwice(old(trace), traced, trace, depth, [], [], [], []);
        LetsGoTwice(start, before, Now());
        OneMoreEmptied(before, Now(), i);
      }
    }

    /** The flag goes up before anything is dropped, so nothing can be registered while things are let go. */
    method Close(depth: nat)
      modifies this
      ensures Now().Released() && closes > old(closes)
      ensures LetsGo(old(Now()), Now())
      ensures Happened(old(trace), trace, depth, [], [])
      decreases depth, 4
    {
      ghost var start := Now();
      closed := true;
      ghost var flagged := Now();
      ClearHooks(depth);
      ghost var cleared, traced := Now(), trace;
      LetsGoTwice(start, flagged, cleared);
      ReleaseAll(depth);
      LetsGoTwice(start, cleared, Now());
      HappenedTwice(old(trace), traced, trace, depth, [], [], [], []);
      closes := closes + 1;
    }

    // ----- Users of the state -----

    /** A middleware is asked for a request. Between the check and the fetch, which takes the GIL, `gap` may run;
        `fetched` is how much had happened by the fetch. The callback called is the one fetched. */
    method MiddlewareOnRequest(i: nat, gap: seq<Op>, depth: nat)
        returns (called: Option<Callback>, ghost fetched: nat)
      requires i < |middleware|
      modifies this
      ensures LetsGo(old(Now()), Now())
      ensures called == None || called == old(middleware[i].onRequest)
      ensures Op.Close in gap || old(Now().Released()) ==> called == None
      ensures gap == [] ==> called == old(middleware[i].onRequest)
      ensures gap == [] && (called.Some? ==> Silent(called.value, depth)) ==> Now() == old(Now())
      ensures |old(trace)| <= fetched <= |trace|
      ensures Ran(old(trace), trace[..fetched], depth, if old(middleware[i].onRequest) == None then [] else gap)
      ensures Happened(trace[..fetched], trace, depth, if called.Some? then [called.value] else [], [])
    {
      NothingHappened(trace, depth);
      fetched := |trace|;
      assert trace[..fetched] == trace;
      if middleware[i].onRequest == None {
        return None, fetched;
      }
      RunPython(gap, depth);
      assert SlotsLetGo(old(middleware)[i], middleware[i]);
      NothingHappened(trace, depth);
      ghost var before, traced := Now(), trace;
      fetched := |trace|;
      assert trace[..fetched] == trace;
      called := middleware[i].onRequest;
      if called.Some? {
        Call(called.value, depth);
        LetsGoTwice(old(Now()), before, Now());
        assert trace[..fetched] == traced;
      }
    }

    /** The same for a response. */
    method MiddlewareOnResponse(i: nat, gap: seq<Op>, depth: nat)
        returns (called: Option<Callback>, ghost fetched: nat)
      requires i < |middleware|
      modifies this
      ensures LetsGo(old(Now()), Now())
      ensures called == None || called == old(middleware[i].onResponse)
      ensures Op.Close in gap || old(Now().Released()) ==> called == None
      ensures gap == [] ==> called == old(middleware[i].onResponse)
      ensures gap == [] && (called.Some? ==> Silent(called.value, depth)) ==> Now() == old(Now())
      ensures |old(trace)| <= fetched <= |trace|
      ensures Ran(old(trace), trace[..fetched], depth, if old(middleware[i].onResponse) == None then [] else gap)
      ensures Happened(trace[..fetched], trace, depth, if called.Some? then [called.value] else [], [])
    {
      NothingHappened(trace, depth);
      fetched := |trace|;
      assert trace[..fetched] == trace;
      if middleware[i].onResponse == None {
        return None, fetched;
      }
      RunPython(gap, depth);
      assert SlotsLetGo(old(middleware)[i], middleware[i]);
      NothingHappened(trace, depth);
      ghost var before, traced := Now(), trace;
      fetched := |trace|;
      assert trace[..fetched] == trace;
      called := middleware[i].onResponse;
      if called.Some? {
        Call(called.value, depth);
        LetsGoTwice(old(Now()), before, Now());
        assert trace[..fetched] == traced;
      }
    }

    /** The request goes out, and Python code runs until a response or an error is there. */
    method Send(whileSending: seq<Op>, depth: nat)
      modifies this
      ensures LetsGo(old(Now()), Now())
      ensures Op.Close in whileSending || old(Now().Released()) ==> Now().Released()
      ensures whileSending == [] ==> Now() == old(Now())
      ensures old(trace) + [Sending(depth)] <= trace
      ensures Ran(old(trace) + [Sending(depth)], trace, depth, whileSending)
    {
      trace := trace + [Sending(depth)];
      RunPython(whileSending, depth);
    }

    /** `execute_request`: the request hooks fire first, then the request goes out, and the response hooks fire only
        after a response. No hook fires once a `close` has returned. `fired` is the state between the request hooks
        and the sending; `sending` and `firing` are how much had happened by the sending and after it. */
    method ExecuteRequest(responds: bool, whileSending: seq<Op>, depth: nat)
        returns (before: seq<Callback>, after: Option<seq<Callback>>,
                 ghost fired: Snapshot, ghost sending: nat, ghost firing: nat)
      modifies this
      ensures LetsGo(old(Now()), fired) && LetsGo(fired, Now()) && LetsGo(old(Now()), Now())
      ensures before == old(requestHooks)
      ensures after.Some? <==> responds
      ensures old(Now().Released()) ==> before == []
      ensures responds && (old(Now().Released()) || old(closes) < fired.closes || Op.Close in whileSending) ==>
                after == Some([])
      ensures responds && depth > 0 && OneCloses(before) ==> after == Some([])
      ensures responds && whileSending == [] ==> after == Some(fired.responseHooks)
      ensures AllSilent(old(requestHooks), depth) ==> fired == old(Now())
      ensures responds && whileSending == [] && AllSilent(fired.responseHooks, depth) ==>
                Now() == fired
      ensures Requested(old(trace), trace, sending, firing, depth,
                        before, whileSending, if after.Some? then after.value else [])
    {
      ghost var start := Now();
      before := FireRequest(depth);
      fired, sending := Now(), |trace|;
      ghost var traced := trace;
      if start.Released() {
        ReleasedForGood(start, fired);
      }
      Send(whileSending, depth);
      firing := |trace|;
      ghost var sent, done := Now(), trace;
      LetsGoTwice(start, fired, sent);
      if !responds {
        NothingHappened(trace, depth);
        RequestedInOrder(old(trace), traced, done, trace, depth, before, whileSending, []);
        return before, None, fired, sending, firing;
      }
      if fired.Released() {
        ReleasedForGood(fired, sent);
      }
      var calls := FireResponse(depth);
      LetsGoTwice(fired, sent, Now());
      LetsGoTwice(start, fired, Now());
      RequestedInOrder(old(trace), traced, done, trace, depth, before, whileSending, calls);
      after := Some(calls);
    }
  }
}
