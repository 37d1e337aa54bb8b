/** Reassembling HTTP/2 connections from captured packets: `_extract_h2_preface_and_frames` of
    `python/lkrequest/pcap.py`. */
module Pcap {
  import opened Basics

  /** One direction of one TCP connection: source address and port, destination address and port. */
  datatype Flow = Flow(src: Bytes, sport: nat, dst: Bytes, dport: nat)

  /** A captured frame as dpkt decodes it. */
  datatype Packet = Undecodable | NotIp | NotTcp | Tcp(flow: Flow, payload: Bytes)

  /** "PRI * HTTP/2.0", two line ends, "SM", two line ends: section 3.4 of RFC 9113. */
  const PREFACE: Bytes := [
    80, 82, 73, 32, 42, 32, 72, 84, 84, 80, 47, 50, 46, 48, 13, 10, 13, 10, 83, 77, 13, 10, 13, 10]

  // ----- What should come out -----

  predicate IsOf(p: Packet, flow: Flow) {
    p.Tcp? && p.flow == flow && p.payload != []
  }

  /** The packet with which the capture of its flow can begin. */
  predicate IsPreface(p: Packet) {
    p.Tcp? && PREFACE <= p.payload
  }

  /** All non-empty payloads of a flow, in capture order, joined. */
  function Payloads(packets: seq<Packet>, flow: Flow): Bytes {
    if packets == [] then []
    else (if IsOf(packets[0], flow) then packets[0].payload else []) + Payloads(packets[1..], flow)
  }

  /** The same from the first preface packet of the flow onward; nothing before it counts. */
  function Stream(packets: seq<Packet>, flow: Flow): Bytes {
    if packets == [] then []
    else if IsPreface(packets[0]) && packets[0].flow == flow then Payloads(packets, flow)
    else Stream(packets[1..], flow)
  }

  predicate HasPreface(packets: seq<Packet>, flow: Flow) {
    exists i :: 0 <= i < |packets| && IsPreface(packets[i]) && packets[i].flow == flow
  }

  /** The flows that have a preface packet, in the order of their first one. */
  function Flows(packets: seq<Packet>): seq<Flow> {
    if packets == [] then []
    else
      var before, p := packets[..|packets| - 1], packets[|packets| - 1];
      if IsPreface(p) && !HasPreface(before, p.flow) then Flows(before) + [p.flow] else Flows(before)
  }

  /** The streams of those flows, in that order. */
  function Streams(packets: seq<Packet>): seq<Bytes> {
    var flows := Flows(packets);
    seq(|flows|, i requires 0 <= i < |flows| => Stream(packets, flows[i]))
  }

  /** What is longer than the bare preface. */
  function LongOnes(streams: seq<Bytes>): seq<Bytes> {
    if streams == [] then []
    else
      var before, last := LongOnes(streams[..|streams| - 1]), streams[|streams| - 1];
      if |last| > |PREFACE| then before + [last] else before
  }

  // ----- One more packet -----

  lemma {:induction false} PayloadsAppend(packets: seq<Packet>, p: Packet, flow: Flow)
    ensures Payloads(packets + [p], flow) == Payloads(packets, flow) + (if IsOf(p, flow) then p.payload else [])
  {
    if packets != [] {
      assert (packets + [p])[1..] == packets[1..] + [p];
      PayloadsAppend(packets[1..], p, flow);
    } else {
      assert [p][1..] == [];
    }
  }

  lemma HasPrefaceTail(packets: seq<Packet>, flow: Flow)
    requires packets != []
    ensures HasPreface(packets, flow) <==>
            (IsPreface(packets[0]) && packets[0].flow == flow) || HasPreface(packets[1..], flow)
  {
    if HasPreface(packets, flow) {
      var i :| 0 <= i < |packets| && IsPreface(packets[i]) && packets[i].flow == flow;
      assert i > 0 ==> packets[1..][i - 1] == packets[i];
    }
    if HasPreface(packets[1..], flow) {
      var i :| 0 <= i < |packets[1..]| && IsPreface(packets[1..][i]) && packets[1..][i].flow == flow;
      assert packets[i + 1] == packets[1..][i];
    }
  }

  /** A flow whose preface was seen grows by its payload; another flow begins only with a preface packet. */
  lemma {:induction false} StreamAppend(packets: seq<Packet>, p: Packet, flow: Flow)
    ensures Stream(packets + [p], flow) ==
            if HasPreface(packets, flow) then Stream(packets, flow) + (if IsOf(p, flow) then p.payload else [])
            else if IsPreface(p) && p.flow == flow then p.payload
            else []
    ensures !HasPreface(packets, flow) ==> Stream(packets, flow) == []
  {
    if packets == [] {
      assert packets + [p] == [p] && [p][1..] == [];
      PayloadsAppend([], p, flow);
      assert [] + [p] == [p];
    } else {
      assert (packets + [p])[1..] == packets[1..] + [p];
      HasPrefaceTail(packets, flow);
      PayloadsAppend(packets, p, flow);
      StreamAppend(packets[1..], p, flow);
    }
  }

  lemma HasPrefaceAppend(packets: seq<Packet>, p: Packet, flow: Flow)
    ensures HasPreface(packets + [p], flow) <==> HasPreface(packets, flow) || (IsPreface(p) && p.flow == flow)
  {
    if HasPreface(packets, flow) {
      var i :| 0 <= i < |packets| && IsPreface(packets[i]) && packets[i].flow == flow;
      assert (packets + [p])[i] == packets[i];
    }
    if IsPreface(p) && p.flow == flow {
      assert (packets + [p])[|packets|] == p;
    }
  }

  lemma FlowsAppend(packets: seq<Packet>, p: Packet)
    ensures Flows(packets + [p]) ==
            if IsPreface(p) && !HasPreface(packets, p.flow) then Flows(packets) + [p.flow] else Flows(packets)
  {
    assert (packets + [p])[..|packets|] == packets;
  }

  /** The flows listed are exactly those with a preface packet, once each. */
  lemma {:induction false} FlowsListed(packets: seq<Packet>)
    ensures forall flow :: flow in Flows(packets) <==> HasPreface(packets, flow)
    ensures forall i, j :: 0 <= i < j < |Flows(packets)| ==> Flows(packets)[i] != Flows(packets)[j]
    decreases |packets|
  {
    if packets != [] {
      var before, p := packets[..|packets| - 1], packets[|packets| - 1];
      assert packets == before + [p];
      FlowsListed(before);
      forall flow
        ensures flow in Flows(packets) <==> HasPreface(packets, flow)
      {
        HasPrefaceAppend(before, p, flow);
      }
    }
  }

  // ----- What the specification says, packet by packet -----

  /** Where the first preface packet of a flow is. */
  function FirstPreface(packets: seq<Packet>, flow: Flow): (i: nat)
    requires HasPreface(packets, flow)
    ensures i < |packets| && IsPreface(packets[i]) && packets[i].flow == flow
    ensures forall j :: 0 <= j < i ==> !(IsPreface(packets[j]) && packets[j].flow == flow)
  {
    HasPrefaceTail(packets, flow);
    if IsPreface(packets[0]) && packets[0].flow == flow then 0
    else
      var i := 1 + FirstPreface(packets[1..], flow);
      assert forall j :: 0 < j < i ==> packets[j] == packets[1..][j - 1];
      i
  }

  /** The stream of a flow is made of its payloads from its first preface packet on. */
  lemma {:induction false} StreamFromPreface(packets: seq<Packet>, flow: Flow)
    requires HasPreface(packets, flow)
    ensures Stream(packets, flow) == Payloads(packets[FirstPreface(packets, flow)..], flow)
    decreases |packets|
  {
    if IsPreface(packets[0]) && packets[0].flow == flow {
      assert packets[0..] == packets;
    } else {
      HasPrefaceTail(packets, flow);
      StreamFromPreface(packets[1..], flow);
      var i := FirstPreface(packets[1..], flow);
      assert packets[1..][i..] == packets[i + 1..];
    }
  }

  /** Payloads are joined packet by packet, and only those of the flow's own TCP packets. */
  lemma {:induction false} PayloadsJoin(first: seq<Packet>, rest: seq<Packet>, flow: Flow)
    ensures Payloads(first + rest, flow) == Payloads(first, flow) + Payloads(rest, flow)
    ensures forall p :: Payloads([p], flow) == if p.Tcp? && p.flow == flow then p.payload else []
  {
    forall p
      ensures Payloads([p], flow) == if p.Tcp? && p.flow == flow then p.payload else []
    {
      assert [p][1..] == [];
    }
    if first == [] {
      assert first + rest == rest;
    } else {
      assert (first + rest)[1..] == first[1..] + rest;
      PayloadsJoin(first[1..], rest, flow);
    }
  }

  /** Flows are listed in the order of their first preface packets. */
  lemma {:induction false} FlowsInOrder(packets: seq<Packet>, i: nat, j: nat)
    requires i < j < |Flows(packets)|
    ensures HasPreface(packets, Flows(packets)[i]) && HasPreface(packets, Flows(packets)[j])
    ensures FirstPreface(packets, Flows(packets)[i]) < FirstPreface(packets, Flows(packets)[j])
    decreases |packets|
  {
    FlowsListed(packets);
    var before, p := packets[..|packets| - 1], packets[|packets| - 1];
    FlowsListed(before);
    assert packets == before + [p];
    FirstPrefaceStays(before, p, Flows(packets)[i]);
    if j < |Flows(before)| {
      FlowsInOrder(before, i, j);
      FirstPrefaceStays(before, p, Flows(packets)[j]);
    } else {
      FirstPrefaceIsNew(before, p);
    }
  }

  predicate PrefaceAt(packets: seq<Packet>, flow: Flow, i: nat)
    requires i < |packets|
  {
    IsPreface(packets[i]) && packets[i].flow == flow
  }

  lemma FirstPrefaceIsThere(packets: seq<Packet>, flow: Flow, i: nat)
    requires i < |packets| && PrefaceAt(packets, flow, i)
    requires forall j :: 0 <= j < i ==> !PrefaceAt(packets, flow, j)
    ensures HasPreface(packets, flow) && FirstPreface(packets, flow) == i
  {
    var first := FirstPreface(packets, flow);
    assert PrefaceAt(packets, flow, first);
  }

  lemma FirstPrefaceStays(before: seq<Packet>, p: Packet, flow: Flow)
    requires HasPreface(before, flow)
    ensures HasPreface(before + [p], flow)
    ensures FirstPreface(before + [p], flow) == FirstPreface(before, flow) < |before|
  {
    var i := FirstPreface(before, flow);
    assert forall j :: 0 <= j <= i ==> PrefaceAt(before + [p], flow, j) == PrefaceAt(before, flow, j);
    FirstPrefaceIsThere(before + [p], flow, i);
  }

  lemma FirstPrefaceIsNew(before: seq<Packet>, p: Packet)
    requires IsPreface(p) && !HasPreface(before, p.flow)
    ensures HasPreface(before + [p], p.flow) && FirstPreface(before + [p], p.flow) == |before|
  {
    forall j | 0 <= j < |before|
      ensures !PrefaceAt(before + [p], p.flow, j)
    {
      assert (before + [p])[j] == before[j];
    }
    assert (before + [p])[|before|] == p;
    FirstPrefaceIsThere(before + [p], p.flow, |before|);
  }

  /** Of the streams, those longer than 24 bytes are kept, each as often as it is there, and in order. */
  lemma {:induction false} LongOnesKept(streams: seq<Bytes>, stream: Bytes)
    ensures LongOnes(streams + [stream]) == LongOnes(streams) + (if |stream| > 24 then [stream] else [])
    ensures LongOnes([]) == []
  {
    assert (streams + [stream])[..|streams|] == streams;
  }

  // ----- The two loops -----

  /** A dictionary that remembers the order in which its keys were inserted. */
  class Extractor {
    var order: seq<Flow>
    var streams: map<Flow, Bytes>

    /** The dictionary holds the streams of the packets so far. */
    ghost predicate Holds(packets: seq<Packet>)
      reads this
    {
      && order == Flows(packets)
      && (forall flow :: flow in streams <==> HasPreface(packets, flow))
      && (forall flow :: flow in streams ==> streams[flow] == Stream(packets, flow))
    }

    constructor ()
      ensures Holds([])
    {
      order, streams := [], map[];
    }

    method Packet(p: Packet, ghost before: seq<Packet>)
      requires Holds(before)
      modifies this
      ensures Holds(before + [p])
    {
      FlowsAppend(before, p);
      forall flow
        ensures HasPreface(before + [p], flow) <==> HasPreface(before, flow) || (IsPreface(p) && p.flow == flow)
        ensures Stream(before + [p], flow) ==
                if HasPreface(before, flow) then Stream(before, flow) + (if IsOf(p, flow) then p.payload else [])
                else if IsPreface(p) && p.flow == flow then p.payload
                else []
      {
        HasPrefaceAppend(before, p, flow);
        StreamAppend(before, p, flow);
      }
      if !p.Tcp? || p.payload == [] {
        return;
      }
      if p.flow !in streams {
        if PREFACE <= p.payload {
          order := order + [p.flow];
          streams := streams[p.flow := p.payload];
        }
        return;
      }
      streams := streams[p.flow := streams[p.flow] + p.payload];
    }

    /** `streams.values()`. */
    method Values(ghost packets: seq<Packet>) returns (values: seq<Bytes>)
      requires Holds(packets)
      ensures values == Streams(packets)
    {
      FlowsListed(packets);
      values := seq(|order|, i requires 0 <= i < |order| && order[i] in streams reads this => streams[order[i]]);
    }
  }

  /** The second loop. */
  method KeepLong(values: seq<Bytes>) returns (results: seq<Bytes>)
    ensures results == LongOnes(values)
  {
    results := [];
    for i := 0 to |values|
      invariant results == LongOnes(values[..i])
    {
      assert values[..i + 1][..i] == values[..i];
      if |values[i]| > |PREFACE| {
        results := results + [values[i]];
      }
    }
    assert values[..|values|] == values;
  }

  /** For every packet sequence: the streams longer than the preface, in order of first preface. */
  method Extract(packets: seq<Packet>) returns (results: seq<Bytes>)
    ensures results == LongOnes(Streams(packets))
  {
    var e := new Extractor();
    for i := 0 to |packets|
      invariant e.Holds(packets[..i])
    {
      e.Packet(packets[i], packets[..i]);
      assert packets[..i + 1] == packets[..i] + [packets[i]];
    }
    assert packets[..|packets|] == packets;
    var values := e.Values(packets);
    results := KeepLong(values);
  }
}
