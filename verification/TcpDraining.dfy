/** How far sending gets: the bytes that writes put on the wire, and a peer that takes all. */
module TcpDraining {
  import opened Prelude
  import opened TcpSocket

  /** The bytes that a list still has to send, in order. */
  function Waiting(list: seq<Buf>): seq<Byte>
    requires ListOk(list)
  {
    if list == [] then []
    else
      assert list[0] in list;
      list[0].packet.data[list[0].sent..] + Waiting(list[1..])
  }

  /** Written and waiting bytes together stay the same, in order. */
  lemma {:induction false} SendListBytes(list: seq<Buf>, wire: Wire, calls: seq<WriteResult>)
    requires ListOk(list)
    ensures var r := SendList(list, wire, calls);
            ListOk(r.list) && r.wire.bytes + Waiting(r.list) == wire.bytes + Waiting(list)
    ensures |SendList(list, wire, calls).wire.bytes| == |wire.bytes| + SendList(list, wire, calls).count
    decreases |calls|
  {
    if list != [] && calls != [] {
      match calls[0]
      case WriteInterrupted => SendListBytes(list, wire, calls[1..]);
      case WriteAgain =>
      case WriteFailed =>
      case Wrote(m) =>
        var b := list[0];
        assert b in list;
        var n: nat := if m < Remaining(b) then m else Remaining(b);
        WrittenPart(list, wire, n);
        if n == Remaining(b) {
          SendListBytes(list[1..], Put(wire, b, n), calls[1..]);
        }
    }
  }

  lemma WrittenPart(list: seq<Buf>, wire: Wire, n: nat)
    requires ListOk(list) && list != [] && list[0] in list && n <= Remaining(list[0])
    ensures var b := list[0];
            var left := if n == Remaining(b) then list[1..] else [Buf(b.packet, b.sent + n)] + list[1..];
            ListOk(left) && Put(wire, b, n).bytes + Waiting(left) == wire.bytes + Waiting(list)
    ensures |Put(wire, list[0], n).bytes| == |wire.bytes| + n
  {
    var b := list[0];
    var data, sent := b.packet.data, b.sent;
    assert ([Buf(b.packet, sent + n)] + list[1..])[1..] == list[1..];
    assert data[sent..] == data[sent..sent + n] + data[sent + n..];
    assert data[sent..sent + n] + data[sent + n..] + Waiting(list[1..])
        == data[sent..sent + n] + (data[sent + n..] + Waiting(list[1..]));
    assert n == 0 ==> wire.bytes + data[sent..sent] == wire.bytes;
    assert n == Remaining(b) ==> data[sent..sent + n] == data[sent..];
    Assoc(wire.bytes, data[sent..sent + n], data[sent + n..] + Waiting(list[1..]));
    Assoc(wire.bytes, data[sent..sent + n], Waiting(list[1..]));
  }

  /** A short write takes just what the call took, and ends the attempt. */
  lemma ShortWrite(list: seq<Buf>, wire: Wire, m: nat, more: seq<WriteResult>)
    requires ListOk(list) && list != [] && m < Remaining(list[0])
    ensures var b, r := list[0], SendList(list, wire, [Wrote(m)] + more);
            && r.list == [Buf(b.packet, b.sent + m)] + list[1..] && r.count == m
            && r.calls == more && !r.failed
  {
  }

  // ---- a peer that takes everything -----------------------------------------------------------------

  /** The calls write whole what is left of each buffer. */
  predicate Accept(calls: seq<WriteResult>, list: seq<Buf>) {
    |list| <= |calls| && forall k :: 0 <= k < |list| ==> calls[k].Wrote? && calls[k].n >= Remaining(list[k])
  }

  function PacketsOf(list: seq<Buf>): seq<Packet> {
    seq(|list|, k requires 0 <= k < |list| => list[k].packet)
  }

  lemma {:induction false} SendListDrains(list: seq<Buf>, wire: Wire, calls: seq<WriteResult>)
    requires ListOk(list) && Accept(calls, list)
    ensures var r := SendList(list, wire, calls);
            && r.list == [] && !r.failed && r.calls == calls[|list|..]
            && r.wire.finished == wire.finished + PacketsOf(list)
    decreases |calls|
  {
    if list != [] {
      var b := list[0];
      assert b in list;
      SendListDrains(list[1..], Put(wire, b, Remaining(b)), calls[1..]);
      Assoc(wire.finished, [b.packet], PacketsOf(list[1..]));
      assert [b.packet] + PacketsOf(list[1..]) == PacketsOf(list);
      assert calls[1..][|list| - 1..] == calls[|list|..];
    } else {
      assert wire.finished + PacketsOf(list) == wire.finished && calls[0..] == calls;
    }
  }

  lemma SendLowDrains(s: Socket, calls: seq<WriteResult>, drained: Option<Event>)
    requires ListOk(s.low) && Accept(calls, s.low)
    ensures var s' := SendLow(s, calls, drained);
            && s'.wire.finished == s.wire.finished + PacketsOf(s.low)
            && if s.closing then s'.kind == Invalid
               else s' == s.(low := [], wire := s'.wire, wbSize := s'.wbSize,
                             events := s.events + if drained.Some? then [drained.value] else [])
  {
    SendListDrains(s.low, s.wire, calls);
    assert s.events + [] == s.events;
  }

  lemma SendListsDrains(s: Socket, calls: seq<WriteResult>, drained: Option<Event>)
    requires ListOk(s.high) && ListOk(s.low) && Accept(calls, s.high) && Accept(calls[|s.high|..], s.low)
    ensures var s' := SendLists(s, calls, drained);
            && s'.wire.finished == s.wire.finished + PacketsOf(s.high) + PacketsOf(s.low)
            && if s.closing then s'.kind == Invalid
               else s'.kind == s.kind && s'.high == [] && s'.low == [] && s'.dw == s.dw
                    && s'.events == s.events + if drained.Some? then [drained.value] else []
  {
    SendListDrains(s.high, s.wire, calls);
    var r := SendList(s.high, s.wire, calls);
    SendLowDrains(WithSent(s, true, r), r.calls, drained);
  }

  /** What is to be sent, in order: the direct-write buffer, the high list, the low list. */
  function Queue(s: Socket): seq<Buf> { (if s.dw.Some? then [s.dw.value] else []) + s.high + s.low }

  lemma QueueIs(s: Socket)
    ensures Queue(s) == TakeDirect(s).high + TakeDirect(s).low
    ensures PacketsOf(Queue(s)) == PacketsOf(TakeDirect(s).high) + PacketsOf(TakeDirect(s).low)
  {
  }

  /** When the peer takes everything, one writable event finishes all packets that wait, in
      order; then a closing socket is closed, and another is left empty. */
  lemma SendBufferDrains(s: Socket, calls: seq<WriteResult>, drained: Option<Event>)
    requires ListOk(s.high) && ListOk(s.low) && (s.dw.Some? ==> BufOk(s.dw.value))
    requires Accept(calls, Queue(s))
    ensures var s' := SendBuffer(s, calls, drained);
            && s'.wire.finished == s.wire.finished + PacketsOf(Queue(s))
            && if s.closing then s'.kind == Invalid
               else s'.kind == s.kind && s'.high == [] && s'.low == [] && s'.dw == None
                    && s'.events == s.events + if drained.Some? then [drained.value] else []
  {
    var s0 := TakeDirect(s);
    QueueIs(s);
    AcceptRest(calls, Queue(s), s0.high, s0.low);
    SendListsDrains(s0, calls, drained);
    Assoc(s.wire.finished, PacketsOf(s0.high), PacketsOf(s0.low));
  }

  lemma AcceptRest(calls: seq<WriteResult>, all: seq<Buf>, a: seq<Buf>, b: seq<Buf>)
    requires all == a + b && Accept(calls, all)
    ensures Accept(calls, a) && Accept(calls[|a|..], b)
  {
    forall k | 0 <= k < |b| ensures calls[|a|..][k].Wrote? && calls[|a|..][k].n >= Remaining(b[k]) {
      assert all[|a| + k] == b[k];
    }
    assert forall k :: 0 <= k < |a| ==> all[k] == a[k];
  }
}
