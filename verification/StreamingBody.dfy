/** The streaming response of `src/response.rs`: one body, consumed by several kinds of call.

    The slot's lock is held across each call, so calls take effect one after the other, in any order. */
module StreamingBody {
  import opened Basics

  /** What the connection still has to deliver; a broken piece is an upstream error. */
  datatype Piece = Data(bytes: Bytes) | Broken

  type Body = seq<Piece>

  datatype Call = Chunk | NextChunk | ReadBytes | ReadText

  datatype Reply =
    | SomeChunk(chunk: Bytes)
    | NoMore                     // `chunk()` answers None
    | StopIteration              // iteration ends
    | Whole(body: Bytes)         // `bytes()`
    | Text(body: Bytes)          // `text()`, the decoding of these bytes
    | AlreadyConsumed            // RuntimeError
    | UpstreamError
  {
    /** The body bytes this reply hands out. */
    function Payload(): Bytes {
      match this
      case SomeChunk(chunk) => chunk
      case Whole(body) => body
      case Text(body) => body
      case _ => []
    }
  }

  /** The bytes of the pieces that are not broken, joined. */
  function Content(pieces: Body): Bytes {
    if pieces == [] then []
    else if pieces[0].Data? then pieces[0].bytes + Content(pieces[1..])
    else Content(pieces[1..])
  }

  predicate Intact(pieces: Body) {
    forall i :: 0 <= i < |pieces| ==> pieces[i].Data?
  }

  // ----- One call -----

  /** `chunk()` and the iterator differ only in how they say that nothing is left. */
  function ChunkCalled(slot: Option<Body>, gone: Reply, end: Reply): (Option<Body>, Reply) {
    match slot
    case None => (None, gone)
    case Some(pieces) =>
      if pieces == [] then (None, end)
      else if pieces[0].Data? then (Some(pieces[1..]), SomeChunk(pieces[0].bytes))
      else (Some(pieces[1..]), UpstreamError)
  }

  function Called(slot: Option<Body>, call: Call): (Option<Body>, Reply) {
    match call
    case Chunk => ChunkCalled(slot, AlreadyConsumed, NoMore)
    case NextChunk => ChunkCalled(slot, StopIteration, StopIteration)
    case ReadBytes =>
      if slot == None then (None, AlreadyConsumed)
      else (None, if Intact(slot.value) then Whole(Content(slot.value)) else UpstreamError)
    case ReadText =>
      if slot == None then (None, AlreadyConsumed)
      else (None, if Intact(slot.value) then Text(Content(slot.value)) else UpstreamError)
  }

  /** Any serial order of calls: the final slot and the replies. */
  function Run(slot: Option<Body>, calls: seq<Call>): (r: (Option<Body>, seq<Reply>))
    ensures |r.1| == |calls|
    decreases |calls|
  {
    if calls == [] then (slot, [])
    else
      var (next, reply) := Called(slot, calls[0]);
      var (end, replies) := Run(next, calls[1..]);
      (end, [reply] + replies)
  }

  /** All bytes handed out, in order. */
  function Returned(replies: seq<Reply>): Bytes {
    if replies == [] then [] else replies[0].Payload() + Returned(replies[1..])
  }

  /** What is still behind the slot. */
  function Left(slot: Option<Body>): Bytes {
    if slot == None then [] else Content(slot.value)
  }

  // ----- Conservation -----

  /** The last call that can lose anything: it found a broken piece where it needed them all. */
  predicate Loses(slot: Option<Body>, call: Call) {
    slot.Some? && !Intact(slot.value) && (call == ReadBytes || call == ReadText)
  }

  lemma OneCallConserves(slot: Option<Body>, call: Call)
    ensures var (next, reply) := Called(slot, call);
            && (!Loses(slot, call) ==> reply.Payload() + Left(next) == Left(slot))
            && (Loses(slot, call) ==> reply.Payload() == [] && next == None)
            && (next.Some? ==> slot.Some? && (Intact(slot.value) ==> Intact(next.value)))
  {
  }

  lemma ReturnedCons(reply: Reply, replies: seq<Reply>)
    ensures Returned([reply] + replies) == reply.Payload() + Returned(replies)
  {
    assert ([reply] + replies)[1..] == replies;
  }

  /** While the stream is not consumed, what was returned and what is left are the content, whatever broke; once it
      is, what was returned is a prefix of the content, and all of it if nothing broke. */
  lemma {:induction false} NothingLostNorRepeated(slot: Option<Body>, calls: seq<Call>)
    ensures Conserved(slot, Run(slot, calls).0, Returned(Run(slot, calls).1))
    decreases |calls|
  {
    if calls != [] {
      var (next, reply) := Called(slot, calls[0]);
      OneCallConserves(slot, calls[0]);
      NothingLostNorRepeated(next, calls[1..]);
      var (end, replies) := Run(next, calls[1..]);
      ReturnedCons(reply, replies);
      if next == None {
        ConsumedReturnsNothing(calls[1..]);
      }
      ConservedJoins(slot, next, end, calls[0], reply.Payload(), Returned(replies));
    }
  }

  predicate Conserved(slot: Option<Body>, end: Option<Body>, returned: Bytes) {
    && (end.Some? ==> returned + Left(end) == Left(slot))
    && (end == None ==> returned <= Left(slot))
    && (end == None && (slot == None || Intact(slot.value)) ==> returned == Left(slot))
  }

  lemma ConservedJoins(slot: Option<Body>, next: Option<Body>, end: Option<Body>, call: Call, first: Bytes, rest: Bytes)
    requires Conserved(next, end, rest)
    requires !Loses(slot, call) ==> first + Left(next) == Left(slot)
    requires Loses(slot, call) ==> first == [] && next == None
    requires next.Some? ==> slot.Some? && (Intact(slot.value) ==> Intact(next.value))
    requires end.Some? ==> next.Some?
    ensures Conserved(slot, end, first + rest)
  {
    if !Loses(slot, call) {
      if end.Some? {
        assert (first + rest) + Left(end) == first + (rest + Left(end));
      } else {
        assert first + Left(next) == first + rest + Left(next)[|rest|..];
      }
    } else {
      assert rest == [];
    }
  }

  /** A reply that says the stream is at its end, or has been read to it. */
  predicate SaysConsumed(reply: Reply) {
    reply == NoMore || reply == StopIteration || reply.Whole? || reply.Text? || reply == AlreadyConsumed
  }

  lemma {:induction false} ConsumedReturnsNothing(calls: seq<Call>)
    ensures Run(None, calls).0 == None && Returned(Run(None, calls).1) == []
    ensures forall i :: 0 <= i < |calls| ==>
              Run(None, calls).1[i] == if calls[i] == NextChunk then StopIteration else AlreadyConsumed
    decreases |calls|
  {
    if calls != [] {
      ConsumedReturnsNothing(calls[1..]);
      var (end, replies) := Run(None, calls[1..]);
      assert ([Called(None, calls[0]).1] + replies)[1..] == replies;
    }
  }

  lemma RunOne(slot: Option<Body>, call: Call)
    ensures Run(slot, [call]).0 == Called(slot, call).0 && Run(slot, [call]).1 == [Called(slot, call).1]
  {
    var (next, reply) := Called(slot, call);
    assert [call][1..] == [];
    assert Run(next, []).1 == [] && [reply] + [] == [reply];
  }

  lemma {:induction false} RunSplits(slot: Option<Body>, first: seq<Call>, rest: seq<Call>)
    ensures Run(slot, first + rest).0 == Run(Run(slot, first).0, rest).0
    ensures Run(slot, first + rest).1 == Run(slot, first).1 + Run(Run(slot, first).0, rest).1
    decreases |first|
  {
    if first == [] {
      assert first + rest == rest;
    } else {
      assert (first + rest)[1..] == first[1..] + rest;
      RunSplits(Called(slot, first[0]).0, first[1..], rest);
    }
  }

  /** Once a call has said that the stream is consumed, the replies so far are the whole body of an unbroken
      stream, and no later call returns data. */
  lemma WholeBodyOnceConsumed(body: Body, calls: seq<Call>, last: Call, later: seq<Call>)
    requires SaysConsumed(Run(Some(body), calls + [last]).1[|Run(Some(body), calls + [last]).1| - 1])
    ensures Intact(body) ==> Returned(Run(Some(body), calls + [last]).1) == Content(body)
    ensures Run(Some(body), calls + [last] + later).0 == None
    ensures Run(Some(body), calls + [last] + later).1 ==
            Run(Some(body), calls + [last]).1 + Run(None, later).1
    ensures Returned(Run(None, later).1) == []
  {
    RunSplits(Some(body), calls, [last]);
    var before := Run(Some(body), calls).0;
    RunOne(before, last);
    NothingLostNorRepeated(Some(body), calls + [last]);
    RunSplits(Some(body), calls + [last], later);
    ConsumedReturnsNothing(later);
  }

  // ----- What each call answers -----

  predicate StepsOn(call: Call) {
    call == Chunk || call == NextChunk
  }

  /** An intact body comes out piece by piece, whichever of the two calls asks for each. */
  lemma {:induction false} PiecesInOrder(body: Body, calls: seq<Call>)
    requires Intact(body) && |calls| <= |body| && forall i :: 0 <= i < |calls| ==> StepsOn(calls[i])
    ensures Run(Some(body), calls).0 == Some(body[|calls|..])
    ensures forall i :: 0 <= i < |calls| ==> Run(Some(body), calls).1[i] == SomeChunk(body[i].bytes)
    decreases |calls|
  {
    if calls == [] {
      assert body[0..] == body;
    } else {
      PiecesInOrder(body[1..], calls[1..]);
      assert body[1..][|calls[1..]|..] == body[|calls|..];
      var replies := Run(Some(body[1..]), calls[1..]).1;
      forall i | 0 <= i < |calls|
        ensures Run(Some(body), calls).1[i] == SomeChunk(body[i].bytes)
      {
        if i > 0 {
          assert replies[i - 1] == SomeChunk(body[1..][i - 1].bytes);
        }
      }
    }
  }

  /** The call after the last piece says so and empties the slot. */
  lemma EndAfterLastPiece(body: Body, calls: seq<Call>, last: Call)
    requires Intact(body) && |calls| == |body| && forall i :: 0 <= i < |calls| ==> StepsOn(calls[i])
    requires StepsOn(last)
    ensures Run(Some(body), calls + [last]).0 == None
    ensures Run(Some(body), calls + [last]).1 ==
            Run(Some(body), calls).1 + [if last == Chunk then NoMore else StopIteration]
  {
    PiecesInOrder(body, calls);
    RunSplits(Some(body), calls, [last]);
    RunOne(Some(body[|calls|..]), last);
  }

  /** A step over the stream raises an upstream error exactly at a broken piece, which it goes past. */
  lemma BrokenPieceRaises(slot: Option<Body>, call: Call)
    requires StepsOn(call)
    ensures var (next, reply) := Called(slot, call);
            && (reply == UpstreamError <==> slot.Some? && slot.value != [] && slot.value[0] == Broken)
            && (reply == UpstreamError ==> next == Some(slot.value[1..]))
  {
  }

  /** After any pieces, a full read gives the rest of an intact body, and an error if the rest is broken. */
  lemma FullReadGivesTheRest(body: Body, calls: seq<Call>, last: Call)
    requires |calls| <= |body| && Intact(body[..|calls|]) && forall i :: 0 <= i < |calls| ==> StepsOn(calls[i])
    requires last == ReadBytes || last == ReadText
    ensures var rest := body[|calls|..];
            var (slot, replies) := Run(Some(body), calls + [last]);
            && slot == None
            && replies[|calls|] ==
               if !Intact(rest) then UpstreamError
               else if last == ReadBytes then Whole(Content(rest)) else Text(Content(rest))
  {
    ReachesRest(body, calls);
    RunSplits(Some(body), calls, [last]);
    RunOne(Some(body[|calls|..]), last);
  }

  lemma {:induction false} ReachesRest(body: Body, calls: seq<Call>)
    requires |calls| <= |body| && Intact(body[..|calls|]) && forall i :: 0 <= i < |calls| ==> StepsOn(calls[i])
    ensures Run(Some(body), calls).0 == Some(body[|calls|..])
    decreases |calls|
  {
    if calls == [] {
      assert body[0..] == body;
    } else {
      assert body[..|calls|][0] == body[0] && body[..|calls|][1..] == body[1..][..|calls[1..]|];
      ReachesRest(body[1..], calls[1..]);
      assert body[1..][|calls[1..]|..] == body[|calls|..];
    }
  }

  // ----- The object -----

  class StreamingResponse {
    var inner: Option<Body>

    constructor (body: Body)
      ensures inner == Some(body)
    {
      inner := Some(body);
    }

    /** The next piece of the stream behind the slot, as upstream's `chunk()` gives it. */
    method Pull() returns (piece: Option<Piece>)
      requires inner.Some?
      modifies this
      ensures old(inner.value) == [] ==> piece == None && inner == old(inner)
      ensures old(inner.value) != [] ==> piece == Some(old(inner.value)[0]) && inner == Some(old(inner.value)[1..])
    {
      if inner.value == [] {
        return None;
      }
      piece := Some(inner.value[0]);
      inner := Some(inner.value[1..]);
    }

    method GetChunk() returns (reply: Reply)
      modifies this
      ensures (inner, reply) == Called(old(inner), Chunk)
    {
      if inner == None {
        return AlreadyConsumed;
      }
      var piece := Pull();
      match piece {
        case Some(Data(bytes)) => reply := SomeChunk(bytes);
        case Some(Broken) => reply := UpstreamError;
        case None =>
          inner := None;
          reply := NoMore;
      }
    }

    method GetNext() returns (reply: Reply)
      modifies this
      ensures (inner, reply) == Called(old(inner), NextChunk)
    {
      if inner == None {
        return StopIteration;
      }
      var piece := Pull();
      match piece {
        case Some(Data(bytes)) => reply := SomeChunk(bytes);
        case Some(Broken) => reply := UpstreamError;
        case None =>
          inner := None;
          reply := StopIteration;
      }
    }

    /** The slot is emptied before the rest of the stream is read. */
    method TakeRest() returns (rest: Result<Bytes, Reply>)
      modifies this
      ensures inner == None
      ensures rest == match old(inner)
                      case None => Err(AlreadyConsumed)
                      case Some(pieces) => if Intact(pieces) then Ok(Content(pieces)) else Err(UpstreamError)
    {
      if inner == None {
        return Err(AlreadyConsumed);
      }
      var pieces := inner.value;
      inner := None;
      var read: Bytes := [];
      for i := 0 to |pieces|
        invariant Intact(pieces[..i]) && read + Content(pieces[i..]) == Content(pieces)
      {
        if pieces[i].Broken? {
          assert !Intact(pieces);
          return Err(UpstreamError);
        }
        assert pieces[i..][1..] == pieces[i + 1..];
        read := read + pieces[i].bytes;
      }
      assert pieces[..|pieces|] == pieces && Content(pieces[|pieces|..]) == [];
      assert Intact(pieces) && read == Content(pieces);
      rest := Ok(read);
    }

    method GetBytes() returns (reply: Reply)
      modifies this
      ensures (inner, reply) == Called(old(inner), ReadBytes)
    {
      var rest := TakeRest();
      reply := match rest case Ok(body) => Whole(body) case Err(why) => why;
    }

    method GetText() returns (reply: Reply)
      modifies this
      ensures (inner, reply) == Called(old(inner), ReadText)
    {
      var rest := TakeRest();
      reply := match rest case Ok(body) => Text(body) case Err(why) => why;
    }
  }
}
