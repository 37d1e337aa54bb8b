/** The pull-driven upload streams of `src/upload.rs`.

    A source is what Python answers to its successive pulls. Polling may find a pull unfinished any number of times;
    the stream still yields what one pass over the source would. */
module Upload {
  import opened Basics

  // ----- What Python answers -----

  datatype PyValue =
    | PyBytes(data: Bytes)
    | PyStr
    | BytesLike(data: Bytes)  // converts to `Vec<u8>`
    | PyNone
    | Unconvertible

  datatype PyError = StopIteration | StopAsyncIteration | WrongType | OtherError

  datatype Reply = Value(value: PyValue) | Raise(error: PyError)

  /** The answer to one pull that runs on a blocking worker. */
  datatype BlockingReply = Replied(reply: Reply) | WorkerDied

  /** The answer to one `__anext__()`: it may raise before there is anything to await. */
  datatype AsyncReply = StartRaises(error: PyError) | Resolves(reply: Reply)

  datatype BlockingKind = Reader | SyncIter

  datatype Failure = Producer(error: PyError) | Join

  /** What one pull contributes to the stream. */
  datatype Pulled = Chunk(data: Bytes) | End | Failed(why: Failure)

  type Item = Result<Bytes, Failure>

  datatype Poll = Pending | Ready(item: Option<Item>)

  // ----- One pull -----

  function ExtractChunk(value: PyValue): Result<Bytes, PyError> {
    match value
    case PyBytes(data) => Ok(data)
    case PyStr => Err(WrongType)
    case BytesLike(data) => Ok(data)
    case PyNone => Err(WrongType)
    case Unconvertible => Err(WrongType)
  }

  function PullReader(reply: Reply): Result<Option<Bytes>, PyError> {
    match reply
    case Raise(error) => Err(error)
    case Value(PyNone) => Ok(None)
    case Value(value) =>
      match ExtractChunk(value)
      case Err(error) => Err(error)
      case Ok(chunk) => if |chunk| == 0 then Ok(None) else Ok(Some(chunk))
  }

  function PullSyncIter(reply: Reply): Result<Option<Bytes>, PyError> {
    match reply
    case Raise(StopIteration) => Ok(None)
    case Raise(error) => Err(error)
    case Value(value) =>
      match ExtractChunk(value)
      case Err(error) => Err(error)
      case Ok(chunk) => Ok(Some(chunk))
  }

  function Pull(kind: BlockingKind, reply: Reply): Result<Option<Bytes>, PyError> {
    match kind
    case Reader => PullReader(reply)
    case SyncIter => PullSyncIter(reply)
  }

  function EndOrError(error: PyError): Option<Item> {
    if error == StopAsyncIteration then None else Some(Err(Producer(error)))
  }

  // ----- Reading a source once -----

  /** What the reply to a pull means, whichever way it is polled. Empty data ends a reader but not an iterator. */
  function BlockingMeaning(kind: BlockingKind, r: BlockingReply): Pulled {
    match r
    case WorkerDied => Failed(Join)
    case Replied(Raise(error)) => if kind == SyncIter && error == StopIteration then End else Failed(Producer(error))
    case Replied(Value(PyBytes(data))) => if kind == Reader && data == [] then End else Chunk(data)
    case Replied(Value(BytesLike(data))) => if kind == Reader && data == [] then End else Chunk(data)
    case Replied(Value(PyNone)) => if kind == Reader then End else Failed(Producer(WrongType))
    case Replied(Value(_)) => Failed(Producer(WrongType))
  }

  function AsyncMeaning(r: AsyncReply): Pulled {
    match r
    case StartRaises(error) => if error == StopAsyncIteration then End else Failed(Producer(error))
    case Resolves(Raise(error)) => if error == StopAsyncIteration then End else Failed(Producer(error))
    case Resolves(Value(PyBytes(data))) => Chunk(data)
    case Resolves(Value(BytesLike(data))) => Chunk(data)
    case Resolves(Value(_)) => Failed(Producer(WrongType))
  }

  /** A source seen as its pulls; `atOnce` pulls fail before there is anything to wait for. */
  datatype Source = Source(meaning: nat -> Pulled, atOnce: nat -> bool)

  function Nones(n: nat): seq<Option<Item>> {
    seq(n, _ => None)
  }

  /** The first `n` results of a plain pass over the source, from pull `from` on: chunks in order, at most one
      error, then the end forever. */
  function OnePass(source: Source, from: nat, n: nat): (outs: seq<Option<Item>>)
    ensures |outs| == n
    decreases n
  {
    if n == 0 then []
    else
      match source.meaning(from)
      case Chunk(data) => [Some(Ok(data))] + OnePass(source, from + 1, n - 1)
      case End => Nones(n)
      case Failed(why) => [Some(Err(why))] + Nones(n - 1)
  }

  // ----- The stream -----

  /** `pulls` counts the pulls started; the last of them is unfinished while `pending`. */
  datatype Stream = Stream(pulls: nat, pending: bool, done: bool) {
    predicate Valid() {
      pending ==> pulls > 0 && !done
    }

    /** The pull whose result comes out next. */
    function NextPull(): nat
      requires Valid()
    {
      if pending then pulls - 1 else pulls
    }
  }

  const FRESH := Stream(0, false, false)

  /** What one poll does; `ready` says whether a waiting pull has finished by then. */
  function Polled(source: Source, s: Stream, ready: bool): (Stream, Poll)
    requires s.Valid()
  {
    var k := s.NextPull();
    if s.done then (s, Ready(None))
    else if !ready && (s.pending || !source.atOnce(k)) then (Stream(k + 1, true, false), Pending)
    else
      match source.meaning(k)
      case Chunk(data) => (Stream(k + 1, false, false), Ready(Some(Ok(data))))
      case End => (Stream(k + 1, false, true), Ready(None))
      case Failed(why) => (Stream(k + 1, false, true), Ready(Some(Err(why))))
  }

  /** Polling through a whole schedule: the final stream and the Ready answers. */
  function Run(source: Source, s: Stream, schedule: seq<bool>): (Stream, seq<Option<Item>>)
    requires s.Valid()
    decreases |schedule|
  {
    if schedule == [] then (s, [])
    else
      var (t, poll) := Polled(source, s, schedule[0]);
      var (end, outs) := Run(source, t, schedule[1..]);
      (end, if poll.Ready? then [poll.item] + outs else outs)
  }

  /** What is still to come out of a stream. */
  function ToCome(source: Source, s: Stream, n: nat): seq<Option<Item>>
    requires s.Valid()
  {
    if s.done then Nones(n) else OnePass(source, s.NextPull(), n)
  }

  lemma {:induction false} RunRefines(source: Source, s: Stream, schedule: seq<bool>)
    requires s.Valid()
    ensures Run(source, s, schedule).1 == ToCome(source, s, |Run(source, s, schedule).1|)
    decreases |schedule|
  {
    if schedule != [] {
      var (t, poll) := Polled(source, s, schedule[0]);
      RunRefines(source, t, schedule[1..]);
      var outs := Run(source, t, schedule[1..]).1;
      if poll.Ready? {
        NonesGrow(|outs|);
      }
    }
  }

  lemma NonesGrow(n: nat)
    ensures [None] + Nones(n) == Nones(n + 1)
  {
  }

  /** Under every schedule of Pending answers, the Ready answers of a stream are those of one pass over its source. */
  lemma StreamIsOnePass(source: Source, schedule: seq<bool>)
    ensures var outs := Run(source, FRESH, schedule).1; outs == OnePass(source, 0, |outs|)
  {
    RunRefines(source, FRESH, schedule);
  }

  /** Once a pass has yielded the end or an error, it yields only the end. */
  lemma {:induction false} NothingAfterEnd(source: Source, from: nat, n: nat, i: nat, j: nat)
    requires i < j < n
    requires OnePass(source, from, n)[i] == None || OnePass(source, from, n)[i].value.Err?
    ensures OnePass(source, from, n)[j] == None
    decreases n
  {
    match source.meaning(from)
    case Chunk(data) => NothingAfterEnd(source, from + 1, n - 1, i - 1, j - 1);
    case _ =>
  }

  /** Up to there, the pass yields the chunks of the source, each once and in order. */
  lemma {:induction false} ChunksInOrder(source: Source, from: nat, n: nat, i: nat)
    requires i < n
    requires forall j :: from <= j < from + i ==> source.meaning(j).Chunk?
    ensures OnePass(source, from, n)[i] ==
            match source.meaning(from + i)
            case Chunk(data) => Some(Ok(data))
            case End => None
            case Failed(why) => Some(Err(why))
    decreases n
  {
    if i > 0 {
      ChunksInOrder(source, from + 1, n - 1, i - 1);
    }
  }

  /** How a pull shows in the stream. */
  function Shown(pulled: Pulled): Option<Item> {
    match pulled
    case Chunk(data) => Some(Ok(data))
    case End => None
    case Failed(why) => Some(Err(why))
  }

  /** A source that gives these chunks yields them, and then what its next pull gives. */
  lemma YieldsChunks(source: Source, chunks: seq<Bytes>)
    requires forall i :: 0 <= i < |chunks| ==> source.meaning(i) == Chunk(chunks[i])
    ensures forall i :: 0 <= i < |chunks| ==> OnePass(source, 0, |chunks| + 1)[i] == Some(Ok(chunks[i]))
    ensures OnePass(source, 0, |chunks| + 1)[|chunks|] == Shown(source.meaning(|chunks|))
  {
    var n := |chunks|;
    ShowsAt(source, n + 1, n);
    forall i | 0 <= i < n
      ensures OnePass(source, 0, n + 1)[i] == Some(Ok(chunks[i]))
    {
      ShowsAt(source, n + 1, i);
    }
  }

  lemma ShowsAt(source: Source, n: nat, i: nat)
    requires i < n && forall j :: 0 <= j < i ==> source.meaning(j).Chunk?
    ensures OnePass(source, 0, n)[i] == Shown(source.meaning(i))
  {
    ChunksInOrder(source, 0, n, i);
  }

  lemma ReaderShows(r: BlockingReply)
    ensures Shown(BlockingMeaning(Reader, r)) ==
            match r
            case WorkerDied => Some(Err(Join))
            case Replied(Raise(error)) => Some(Err(Producer(error)))
            case Replied(Value(PyNone)) => None
            case Replied(Value(PyBytes(data))) => if data == [] then None else Some(Ok(data))
            case Replied(Value(BytesLike(data))) => if data == [] then None else Some(Ok(data))
            case Replied(Value(_)) => Some(Err(Producer(WrongType)))
  {
  }

  lemma IteratorShows(r: BlockingReply)
    ensures Shown(BlockingMeaning(SyncIter, r)) ==
            match r
            case WorkerDied => Some(Err(Join))
            case Replied(Raise(error)) => if error == StopIteration then None else Some(Err(Producer(error)))
            case Replied(Value(PyBytes(data))) => Some(Ok(data))
            case Replied(Value(BytesLike(data))) => Some(Ok(data))
            case Replied(Value(_)) => Some(Err(Producer(WrongType)))
  {
  }

  lemma AwaitableShows(r: AsyncReply)
    ensures Shown(AsyncMeaning(r)) ==
            match r
            case StartRaises(error) => if error == StopAsyncIteration then None else Some(Err(Producer(error)))
            case Resolves(Raise(error)) => if error == StopAsyncIteration then None else Some(Err(Producer(error)))
            case Resolves(Value(PyBytes(data))) => Some(Ok(data))
            case Resolves(Value(BytesLike(data))) => Some(Ok(data))
            case Resolves(Value(_)) => Some(Err(Producer(WrongType)))
  {
  }

  // ----- Backpressure -----

  function Delivered(outs: seq<Option<Item>>): nat {
    if outs == [] then 0 else (if outs[0].Some? then 1 else 0) + Delivered(outs[1..])
  }

  lemma {:induction false} PullsFollowDemand(source: Source, s: Stream, schedule: seq<bool>)
    requires s.Valid()
    ensures Run(source, s, schedule).0.Valid()
    ensures var (end, outs) := Run(source, s, schedule);
            && (!end.done ==> end.NextPull() == s.NextPull() + Delivered(outs))
            && (s.done ==> end == s && Delivered(outs) == 0)
            && (!s.done && end.done ==>
                  s.NextPull() + Delivered(outs) <= end.pulls <= s.NextPull() + Delivered(outs) + 1)
    decreases |schedule|
  {
    if schedule != [] {
      var (t, poll) := Polled(source, s, schedule[0]);
      PullsFollowDemand(source, t, schedule[1..]);
      var outs := Run(source, t, schedule[1..]).1;
      assert poll.Ready? ==> ([poll.item] + outs)[1..] == outs;
    }
  }

  /** The source is never read ahead: pulls started exceed the items delivered by at most one, and by none unless a
      pull is outstanding or found the end. */
  lemma Backpressure(source: Source, schedule: seq<bool>)
    ensures Run(source, FRESH, schedule).0.Valid()
    ensures var (s, outs) := Run(source, FRESH, schedule);
            && Delivered(outs) <= s.pulls <= Delivered(outs) + 1
            && (s.pending ==> s.pulls == Delivered(outs) + 1)
            && (!s.pending && !s.done ==> s.pulls == Delivered(outs))
  {
    PullsFollowDemand(source, FRESH, schedule);
  }

  /** A poll starts a pull only if none is outstanding and the stream is not done, and then only one. */
  lemma PullsOnlyWhenIdle(source: Source, s: Stream, ready: bool)
    requires s.Valid()
    ensures Polled(source, s, ready).0.Valid()
    ensures Polled(source, s, ready).0.pulls == s.pulls + (if s.pending || s.done then 0 else 1)
    ensures s.done ==> Polled(source, s, ready).1 == Ready(None)
    ensures Polled(source, s, ready).1 == Pending <==>
              !s.done && !ready && (s.pending || !source.atOnce(s.pulls))
    ensures Polled(source, s, ready).1 == Pending ==>
              Polled(source, s, ready).0 == Stream(s.NextPull() + 1, true, false)
  {
  }

  // ----- One more poll -----

  function Answers(poll: Poll): seq<Option<Item>> {
    if poll.Ready? then [poll.item] else []
  }

  lemma {:induction false} RunSnoc(source: Source, s: Stream, schedule: seq<bool>, ready: bool)
    requires s.Valid() && Run(source, s, schedule).0.Valid()
    ensures var (t, outs) := Run(source, s, schedule);
            var (u, poll) := Polled(source, t, ready);
            Run(source, s, schedule + [ready]) == (u, outs + Answers(poll))
    decreases |schedule|
  {
    if schedule == [] {
      var (u, poll) := Polled(source, s, ready);
      assert schedule + [ready] == [ready] && [ready][1..] == [];
      assert Run(source, u, []) == (u, []);
      assert Answers(poll) + [] == [] + Answers(poll);
    } else {
      var (t, poll) := Polled(source, s, schedule[0]);
      assert (schedule + [ready])[1..] == schedule[1..] + [ready];
      RunSnoc(source, t, schedule[1..], ready);
      var outs := Run(source, t, schedule[1..]).1;
      var last := Answers(Polled(source, Run(source, t, schedule[1..]).0, ready).1);
      assert Answers(poll) + (outs + last) == (Answers(poll) + outs) + last;
    }
  }

  // ----- The two sources -----

  class BlockingSource {
    const kind: BlockingKind
    const script: nat -> BlockingReply
    var pulls: nat
    var pending: Option<nat>  // the handle of the pull on the worker
    var done: bool

    ghost function Plain(): Source {
      Source((i: nat) => BlockingMeaning(kind, script(i)), (i: nat) => false)
    }

    ghost predicate Valid()
      reads this
    {
      pending.Some? ==> !done && pulls == pending.value + 1
    }

    ghost function State(): (s: Stream)
      requires Valid()
      reads this
      ensures s.Valid()
    {
      Stream(pulls, pending.Some?, done)
    }

    /** A reader yields the data it reads until it reads none, whether as empty data or as None. */
    lemma ReaderYields(chunks: seq<Bytes>)
      requires kind == Reader
      requires forall i :: 0 <= i < |chunks| ==>
                 chunks[i] != [] && script(i) == Replied(Value(PyBytes(chunks[i])))
      ensures var n, outs := |chunks|, OnePass(Plain(), 0, |chunks| + 1);
              && (forall i :: 0 <= i < n ==> outs[i] == Some(Ok(chunks[i])))
              && (script(n) == Replied(Value(PyBytes([]))) || script(n) == Replied(Value(PyNone)) ==> outs[n] == None)
              && (script(n).Replied? && script(n).reply.Raise? ==>
                    outs[n] == Some(Err(Producer(script(n).reply.error))))
    {
      YieldsChunks(Plain(), chunks);
      ReaderShows(script(|chunks|));
    }

    /** An iterator yields every item, empty ones too, until it raises StopIteration; None is no item. */
    lemma IteratorYields(chunks: seq<Bytes>)
      requires kind == SyncIter
      requires forall i :: 0 <= i < |chunks| ==> script(i) == Replied(Value(PyBytes(chunks[i])))
      ensures var n, outs := |chunks|, OnePass(Plain(), 0, |chunks| + 1);
              && (forall i :: 0 <= i < n ==> outs[i] == Some(Ok(chunks[i])))
              && (script(n) == Replied(Raise(StopIteration)) ==> outs[n] == None)
              && (script(n) == Replied(Value(PyNone)) ==> outs[n] == Some(Err(Producer(WrongType))))
    {
      YieldsChunks(Plain(), chunks);
      IteratorShows(script(|chunks|));
    }

    constructor (kind: BlockingKind, script: nat -> BlockingReply)
      ensures this.kind == kind && this.script == script && Valid() && State() == FRESH
    {
      this.kind, this.script := kind, script;
      pulls, pending, done := 0, None, false;
    }

    method PollNext(ready: bool) returns (poll: Poll)
      requires Valid()
      modifies this
      ensures Valid() && (State(), poll) == Polled(Plain(), old(State()), ready)
    {
      if done {
        return Ready(None);
      }
      var handle;
      match pending {
        case Some(outstanding) => handle := outstanding;
        case None =>
          handle := pulls;
          pulls := pulls + 1;
      }
      pending := None;
      if !ready {
        pending := Some(handle);
        return Poll.Pending;
      }
      done := true;
      match script(handle) {
        case WorkerDied => poll := Ready(Some(Err(Join)));
        case Replied(reply) =>
          match Pull(kind, reply) {
            case Ok(Some(chunk)) =>
              done := false;
              poll := Ready(Some(Ok(chunk)));
            case Ok(None) => poll := Ready(None);
            case Err(error) => poll := Ready(Some(Err(Producer(error))));
          }
      }
    }
  }

  class AsyncSource {
    const script: nat -> AsyncReply
    var pulls: nat
    var pending: Option<nat>  // the awaitable of the pull
    var done: bool

    ghost function Plain(): Source {
      Source((i: nat) => AsyncMeaning(script(i)), (i: nat) => script(i).StartRaises?)
    }

    ghost predicate Valid()
      reads this
    {
      pending.Some? ==> !done && pulls == pending.value + 1 && script(pending.value).Resolves?
    }

    ghost function State(): (s: Stream)
      requires Valid()
      reads this
      ensures s.Valid()
    {
      Stream(pulls, pending.Some?, done)
    }

    /** An asynchronous iterator yields every item, empty ones too, until it raises StopAsyncIteration, from
        `__anext__()` itself or from what it awaits. */
    lemma IteratorYields(chunks: seq<Bytes>)
      requires forall i :: 0 <= i < |chunks| ==> script(i) == Resolves(Value(PyBytes(chunks[i])))
      ensures var n, outs := |chunks|, OnePass(Plain(), 0, |chunks| + 1);
              && (forall i :: 0 <= i < n ==> outs[i] == Some(Ok(chunks[i])))
              && (script(n) == StartRaises(StopAsyncIteration) ==> outs[n] == None)
              && (script(n) == Resolves(Raise(StopAsyncIteration)) ==> outs[n] == None)
    {
      YieldsChunks(Plain(), chunks);
      AwaitableShows(script(|chunks|));
    }

    constructor (script: nat -> AsyncReply)
      ensures this.script == script && Valid() && State() == FRESH
    {
      this.script := script;
      pulls, pending, done := 0, None, false;
    }

    method PollNext(ready: bool) returns (poll: Poll)
      requires Valid()
      modifies this
      ensures Valid() && (State(), poll) == Polled(Plain(), old(State()), ready)
    {
      if done {
        return Ready(None);
      }
      var future;
      match pending {
        case Some(outstanding) => future := outstanding;
        case None =>
          future := pulls;
          pulls := pulls + 1;
          match script(future) {
            case Resolves(_) =>
            case StartRaises(error) =>
              done := true;
              return Ready(EndOrError(error));
          }
      }
      pending := None;
      if !ready {
        pending := Some(future);
        return Poll.Pending;
      }
      match script(future).reply {
        case Raise(error) =>
          done := true;
          poll := Ready(EndOrError(error));
        case Value(item) =>
          match ExtractChunk(item) {
            case Ok(chunk) => poll := Ready(Some(Ok(chunk)));
            case Err(error) =>
              done := true;
              poll := Ready(Some(Err(Producer(error))));
          }
      }
    }
  }

  /** A consumer that polls a fresh blocking source through a schedule gets what one pass over the source gives, and the
      source is never read ahead of it. */
  method ConsumeBlocking(source: BlockingSource, schedule: seq<bool>) returns (answers: seq<Option<Item>>)
    requires source.Valid() && source.State() == FRESH
    modifies source
    ensures source.Valid() && answers == OnePass(source.Plain(), 0, |answers|)
    ensures Delivered(answers) <= source.pulls <= Delivered(answers) + 1
    ensures (forall i :: 0 <= i < |schedule| ==> schedule[i]) ==> |answers| == |schedule|
  {
    answers := [];
    for i := 0 to |schedule|
      invariant source.Valid() && (source.State(), answers) == Run(source.Plain(), FRESH, schedule[..i])
      invariant (forall j :: 0 <= j < i ==> schedule[j]) ==> |answers| == i
    {
      RunSnoc(source.Plain(), FRESH, schedule[..i], schedule[i]);
      assert schedule[..i] + [schedule[i]] == schedule[..i + 1];
      ghost var taken := answers;
      var poll := source.PollNext(schedule[i]);
      if poll.Ready? {
        answers := answers + [poll.item];
      }
      assert answers == taken + Answers(poll);
    }
    assert schedule[..|schedule|] == schedule;
    StreamIsOnePass(source.Plain(), schedule);
    Backpressure(source.Plain(), schedule);
  }

  /** The same for an asynchronous source. */
  method ConsumeAsync(source: AsyncSource, schedule: seq<bool>) returns (answers: seq<Option<Item>>)
    requires source.Valid() && source.State() == FRESH
    modifies source
    ensures source.Valid() && answers == OnePass(source.Plain(), 0, |answers|)
    ensures Delivered(answers) <= source.pulls <= Delivered(answers) + 1
    ensures (forall i :: 0 <= i < |schedule| ==> schedule[i]) ==> |answers| == |schedule|
  {
    answers := [];
    for i := 0 to |schedule|
      invariant source.Valid() && (source.State(), answers) == Run(source.Plain(), FRESH, schedule[..i])
      invariant (forall j :: 0 <= j < i ==> schedule[j]) ==> |answers| == i
    {
      RunSnoc(source.Plain(), FRESH, schedule[..i], schedule[i]);
      assert schedule[..i] + [schedule[i]] == schedule[..i + 1];
      ghost var taken := answers;
      var poll := source.PollNext(schedule[i]);
      if poll.Ready? {
        answers := answers + [poll.item];
      }
      assert answers == taken + Answers(poll);
    }
    assert schedule[..|schedule|] == schedule;
    StreamIsOnePass(source.Plain(), schedule);
    Backpressure(source.Plain(), schedule);
  }
}
