/** One TCP socket of socket_server.c: its write lists, its half-close states, and what
    its socket thread does with it.  The socket is a value here; `TcpSocketThread` runs the
    same operations on a class, and `TcpProtocol` interleaves them with sending threads. */
module TcpSocket {
  import opened Prelude

  type Byte = x: int | 0 <= x < 256

  /** A message given to the socket: who sent it, that sender's running number, and
      whether it was sent at high priority. */
  datatype Packet = Packet(sender: nat, number: nat, high: bool, data: seq<Byte>)

  /** A write_buffer: `sent` bytes of the packet have been written. */
  datatype Buf = Buf(packet: Packet, sent: nat)

  datatype Kind =
    | Invalid | Paccept | Connecting | Connected | Bind | HalfcloseRead | HalfcloseWrite

  /** What socket_server_poll returns for the socket. */
  datatype Event = Open | Data(bytes: seq<Byte>) | Close | Error | Warning

  /** What reached the peer: the packets begun, the packets finished, the packet now
      incomplete, and all bytes.  `torn` records a byte that did not continue that packet. */
  datatype Wire = Wire(
    begun: seq<Packet>,
    finished: seq<Packet>,
    current: Option<Buf>,
    bytes: seq<Byte>,
    torn: bool)

  datatype Socket = Socket(
    kind: Kind,
    closing: bool,
    high: seq<Buf>,
    low: seq<Buf>,
    wbSize: int,
    dw: Option<Buf>,
    sending: nat,
    wire: Wire,
    events: seq<Event>)

  /** The outcome of one write or read system call. */
  datatype WriteResult = Wrote(n: nat) | WriteInterrupted | WriteAgain | WriteFailed
  datatype ReadResult = Received(bytes: seq<Byte>) | ReadAgain | ReadFailed

  function Remaining(b: Buf): int { |b.packet.data| - b.sent }

  /** The peer receives n bytes of b's packet from offset b.sent on. */
  function Put(w: Wire, b: Buf, n: nat): Wire
    requires b.sent + n <= |b.packet.data|
  {
    var sent := b.sent + n;
    var complete := sent == |b.packet.data|;
    if n == 0 && !complete then w
    else
      Wire(
        if b.sent == 0 then w.begun + [b.packet] else w.begun,
        if complete then w.finished + [b.packet] else w.finished,
        if complete then (if n == 0 then w.current else None) else Some(Buf(b.packet, sent)),
        w.bytes + b.packet.data[b.sent..sent],
        w.torn || (n > 0 && w.current != if b.sent == 0 then None else Some(b)))
  }

  function AllBytes(ps: seq<Packet>): seq<Byte> {
    if ps == [] then [] else AllBytes(ps[..|ps| - 1]) + ps[|ps| - 1].data
  }

  /** What the packet at the end of the wire has put there. */
  function Begun(w: Wire): seq<Byte>
    requires w.current.Some? ==> w.current.value.sent < |w.current.value.packet.data|
  {
    if w.current.Some? then w.current.value.packet.data[..w.current.value.sent] else []
  }

  /** The bytes on the wire are whole packets followed by the start of at most one. */
  predicate WholePackets(w: Wire) {
    && (w.current.Some? ==> w.current.value.sent < |w.current.value.packet.data|)
    && w.bytes == AllBytes(w.finished) + Begun(w)
  }

  /** Writing keeps whole packets unless it tears them. */
  lemma PutWhole(w: Wire, b: Buf, n: nat)
    requires b.sent + n <= |b.packet.data|
    requires WholePackets(w) && !Put(w, b, n).torn
    requires b.sent > 0 ==> w.current == Some(b) && n > 0
    ensures WholePackets(Put(w, b, n))
  {
    if b.sent + n == |b.packet.data| {
      PutLast(w, b, n);
    } else if n > 0 {
      PutPart(w, b, n);
    }
  }

  lemma PutLast(w: Wire, b: Buf, n: nat)
    requires b.sent + n == |b.packet.data|
    requires WholePackets(w) && !Put(w, b, n).torn
    requires b.sent > 0 ==> w.current == Some(b) && n > 0
    ensures WholePackets(Put(w, b, n))
  {
    var data, c := b.packet.data, AllBytes(w.finished);
    assert (w.finished + [b.packet])[..|w.finished|] == w.finished;
    if n > 0 {
      assert Begun(w) == data[..b.sent];
      assert data == data[..b.sent] + data[b.sent..];
      Assoc(c, data[..b.sent], data[b.sent..]);
      assert c + data + [] == c + data;
    } else {
      assert data == [] && c + [] == c && w.bytes + [] == w.bytes;
    }
  }

  lemma PutPart(w: Wire, b: Buf, n: nat)
    requires b.sent + n < |b.packet.data| && n > 0
    requires WholePackets(w) && !Put(w, b, n).torn
    requires b.sent > 0 ==> w.current == Some(b)
    ensures WholePackets(Put(w, b, n))
  {
    var data, sent, c := b.packet.data, b.sent + n, AllBytes(w.finished);
    assert Begun(w) == data[..b.sent];
    assert data[..sent] == data[..b.sent] + data[b.sent..sent];
    Assoc(c, data[..b.sent], data[b.sent..sent]);
  }

  // ---- send_list_tcp ----------------------------------------------------------------

  /** What send_list_tcp leaves: the list, the wire, the bytes written, the system call
      results not used, and whether a write failed. */
  datatype Sent = Sent(list: seq<Buf>, wire: Wire, count: nat, calls: seq<WriteResult>, failed: bool)

  predicate BufOk(b: Buf) { b.sent <= |b.packet.data| }

  predicate ListOk(list: seq<Buf>) { forall b | b in list :: BufOk(b) }

  /** Write the list, head first; `calls` are the results of the write calls, and a call
      beyond them would block.  A write never takes more than it was given. */
  function SendList(list: seq<Buf>, wire: Wire, calls: seq<WriteResult>): Sent
    requires ListOk(list)
    decreases |calls|
  {
    if list == [] then Sent(list, wire, 0, calls, false)
    else if calls == [] then Sent(list, wire, 0, calls, false)
    else
      match calls[0]
      case WriteInterrupted => SendList(list, wire, calls[1..])
      case WriteAgain => Sent(list, wire, 0, calls[1..], false)
      case WriteFailed => Sent(list, wire, 0, calls[1..], true)
      case Wrote(m) =>
        var b := list[0];
        assert b in list;
        var n: nat := if m < Remaining(b) then m else Remaining(b);
        var wire' := Put(wire, b, n);
        if n != Remaining(b) then
          Sent([Buf(b.packet, b.sent + n)] + list[1..], wire', n, calls[1..], false)
        else
          var r := SendList(list[1..], wire', calls[1..]);
          r.(count := r.count + n)
  }

  // ---- the operations of the socket thread --------------------------------------------

  function ListSize(list: seq<Buf>): int {
    if list == [] then 0 else Remaining(list[0]) + ListSize(list[1..])
  }

  predicate Incomplete(list: seq<Buf>) { list != [] && list[0].sent != 0 }

  function FreeLists(s: Socket): Socket { s.(high := [], low := []) }

  /** The part of force_close that runs under the socket's lock. */
  function Invalidate(s: Socket): Socket { s.(kind := Invalid, dw := None) }

  function ForceClose(s: Socket): Socket {
    if s.kind == Invalid then s else Invalidate(FreeLists(s))
  }

  function Raise(s: Socket, e: Event): Socket { s.(events := s.events + [e]) }

  /** close_write, after a failed write. */
  function CloseWrite(s: Socket): Socket {
    if s.closing || s.kind == HalfcloseRead then ForceClose(s)
    else if s.kind == HalfcloseWrite then s
    else Raise(s.(kind := HalfcloseWrite), Error)
  }

  /** raise_uncomplete: the started head of the low list becomes the whole high list. */
  function RaiseUncomplete(s: Socket): Socket
    requires s.low != []
  {
    s.(high := [s.low[0]], low := s.low[1..])
  }

  function WithSent(s: Socket, high: bool, r: Sent): Socket {
    if high then s.(high := r.list, wire := r.wire, wbSize := s.wbSize - r.count)
    else s.(low := r.list, wire := r.wire, wbSize := s.wbSize - r.count)
  }

  /** Steps 2 to 4 of send_buffer_, when the high list is empty.  `drained` is what happens
      when both lists are: the write event is turned off, which may fail, or a warning may
      be cleared. */
  function SendLow(s: Socket, calls: seq<WriteResult>, drained: Option<Event>): Socket
    requires ListOk(s.low)
  {
    AfterLow(s, SendList(s.low, s.wire, calls), drained)
  }

  function AfterLow(s: Socket, r: Sent, drained: Option<Event>): Socket {
    var s' := WithSent(s, false, r);
    if r.failed then CloseWrite(s')
    else if Incomplete(s'.low) then RaiseUncomplete(s')
    else if s'.low != [] then s'
    else if s'.closing then ForceClose(s')
    else if drained.Some? then Raise(s', drained.value)
    else s'
  }

  /** send_buffer_ */
  function SendLists(s: Socket, calls: seq<WriteResult>, drained: Option<Event>): Socket
    requires ListOk(s.high) && ListOk(s.low)
  {
    var r := SendList(s.high, s.wire, calls);
    var s' := WithSent(s, true, r);
    if r.failed then CloseWrite(s')
    else if s'.high != [] then s'
    else SendLow(s', r.calls, drained)
  }

  /** The direct-write remainder goes in front of the high list. */
  function TakeDirect(s: Socket): Socket {
    match s.dw
    case None => s
    case Some(b) => s.(dw := None, high := [b] + s.high, wbSize := s.wbSize + Remaining(b))
  }

  /** send_buffer, when the lock could be taken. */
  function SendBuffer(s: Socket, calls: seq<WriteResult>, drained: Option<Event>): Socket
    requires ListOk(s.high) && ListOk(s.low) && (s.dw.Some? ==> BufOk(s.dw.value))
  {
    SendLists(TakeDirect(s), calls, drained)
  }

  /** send_socket for a package that came through the control pipe. */
  function SendSocket(s: Socket, p: Packet): Socket {
    if s.kind == Invalid || s.kind == HalfcloseWrite || s.kind == Paccept || s.closing then s
    else
      var grown := s.(wbSize := s.wbSize + |p.data|);
      if p.high || (s.high == [] && s.low == []) then grown.(high := s.high + [Buf(p, 0)])
      else grown.(low := s.low + [Buf(p, 0)])
  }

  /** What a step of the socket thread asks for: nothing more, or a force_close (which has
      to wait for the lock) and then an event. */
  datatype Outcome = Continue(s: Socket) | MustClose(s: Socket, event: Option<Event>)

  /** close_socket; `idle` is what its unlocked reads in nomore_sending_data made of the
      lists, the direct-write buffer and the sending count. */
  function CloseSocket(s: Socket, shutdown: bool, idle: bool): Outcome {
    if s.kind == Invalid then Continue(s)
    else
      var halfclosed := s.kind == HalfcloseRead;
      if shutdown || idle || s.kind == HalfcloseWrite then
        MustClose(s, if halfclosed then None else Some(Close))
      else if halfclosed then Continue(s.(closing := true))
      else Continue(Raise(s.(closing := true, kind := HalfcloseRead), Close))
  }

  /** forward_message_tcp */
  function ForwardMessage(s: Socket, r: ReadResult, idle: bool): Outcome {
    match r
    case ReadAgain => Continue(s)
    case ReadFailed => Continue(Raise(s, Error))
    case Received(bytes) =>
      if bytes == [] then
        if s.closing then
          if idle || s.kind == HalfcloseWrite then MustClose(s, None) else Continue(s)
        else if s.kind == HalfcloseRead then Continue(s)
        else if s.kind == HalfcloseWrite then MustClose(s, Some(Close))
        else Continue(Raise(s.(kind := HalfcloseRead), Close))
      else if s.kind == HalfcloseRead then Continue(s)
      else Continue(Raise(s, Data(bytes)))
  }

  /** An eof event: both directions are gone. */
  function EndOfFile(s: Socket): Outcome {
    MustClose(s, if s.kind == HalfcloseRead then None else Some(Close))
  }

  /** report_connect */
  function ReportConnect(s: Socket, ok: bool, disableFailed: bool): Outcome {
    if !ok then MustClose(s, Some(Error))
    else
      var s' := s.(kind := Connected);
      if disableFailed then MustClose(s', Some(Error)) else Continue(Raise(s', Open))
  }

  /** resume_socket; enabling the read event may fail. */
  function ResumeSocket(s: Socket, enableFailed: bool): Socket {
    if s.kind == Invalid || s.kind == HalfcloseRead || enableFailed then Raise(s, Error)
    else if s.kind == Paccept then Raise(s.(kind := Connected), Open)
    else if s.kind == Connected then Raise(s, Open)
    else s
  }

  // ---- what the socket thread keeps ------------------------------------------------------

  predicate Unsent(list: seq<Buf>) { forall b | b in list :: b.sent == 0 }

  predicate Partial(b: Buf) { 0 < b.sent < |b.packet.data| }

  /** Only the head of the high list may be incomplete. */
  predicate ListsOk(s: Socket) {
    && Unsent(s.low)
    && (s.high != [] ==> (s.high[0].sent == 0 || Partial(s.high[0])) && Unsent(s.high[1..]))
  }

  /** The packet the peer is in the middle of, as the write buffers have it. */
  function CurrentOf(s: Socket): Option<Buf> {
    if s.dw.Some? then (if s.dw.value.sent > 0 then s.dw else None)
    else if Incomplete(s.high) then Some(s.high[0])
    else None
  }

  /** An open socket: its buffers account for the peer's incomplete packet, for wb_size,
      and nothing is torn.  While the direct-write buffer is in use, no list is begun. */
  predicate OpenOk(s: Socket) {
    && ListsOk(s)
    && (s.dw.Some? ==> (s.dw.value.sent == 0 || Partial(s.dw.value)) && Unsent(s.high))
    && s.wire.current == CurrentOf(s)
    && s.wbSize == ListSize(s.high) + ListSize(s.low)
    && !s.wire.torn && WholePackets(s.wire)
  }

  predicate ClosedOk(s: Socket) {
    s.kind == Invalid && s.high == [] && s.low == [] && s.dw == None
  }

  predicate SocketOk(s: Socket) {
    if s.kind == Invalid then ClosedOk(s) else OpenOk(s)
  }

  lemma {:induction false} ListSizeConcat(a: seq<Buf>, b: seq<Buf>)
    ensures ListSize(a + b) == ListSize(a) + ListSize(b)
  {
    if a == [] {
      assert a + b == b;
    } else {
      assert (a + b)[1..] == a[1..] + b;
      ListSizeConcat(a[1..], b);
    }
  }

  /** Sending a list whose head is the peer's incomplete packet, or that nothing is begun
      of, tears nothing, and leaves a list in the same relation to the peer. */
  lemma {:induction false} SendListOk(list: seq<Buf>, wire: Wire, calls: seq<WriteResult>)
    requires ListOk(list)
    requires list != [] ==> (list[0].sent == 0 || Partial(list[0])) && Unsent(list[1..])
    requires wire.current == (if Incomplete(list) then Some(list[0]) else None)
    requires !wire.torn && WholePackets(wire)
    ensures var r := SendList(list, wire, calls);
            && ListOk(r.list)
            && (r.list != [] ==> (r.list[0].sent == 0 || Partial(r.list[0])) && Unsent(r.list[1..]))
            && r.wire.current == (if Incomplete(r.list) then Some(r.list[0]) else None)
            && !r.wire.torn && WholePackets(r.wire)
            && ListSize(r.list) + r.count == ListSize(list)
            && (r.failed ==> !Incomplete(r.list) || Incomplete(list))
    decreases |calls|
  {
    if list != [] && calls != [] {
      match calls[0]
      case WriteInterrupted => SendListOk(list, wire, calls[1..]);
      case WriteAgain =>
      case WriteFailed =>
      case Wrote(m) =>
        var b := list[0];
        var n := if m < Remaining(b) then m else Remaining(b);
        if n > 0 || b.sent == 0 {
          PutWhole(wire, b, n);
        }
        if n == Remaining(b) {
          assert list[1..] != [] ==> list[1..][0] in list[1..];
          SendListOk(list[1..], Put(wire, b, n), calls[1..]);
        }
    }
  }

  lemma HighSent(s: Socket, calls: seq<WriteResult>)
    requires s.kind != Invalid && OpenOk(s) && s.dw == None
    ensures ListOk(s.high)
    ensures var s1 := WithSent(s, true, SendList(s.high, s.wire, calls)); OpenOk(s1) && s1.dw == None
  {
    SendListOk(s.high, s.wire, calls);
  }

  /** The low list is sent only while the high list is empty; it is left begun only when a
      write stopped in the middle of its head, which raise_uncomplete then moves away. */
  lemma LowSent(s: Socket, calls: seq<WriteResult>)
    requires s.kind != Invalid && OpenOk(s) && s.dw == None && s.high == []
    ensures ListOk(s.low)
    ensures var r := SendList(s.low, s.wire, calls);
            var s2 := WithSent(s, false, r);
            if Incomplete(r.list) then !r.failed && OpenOk(RaiseUncomplete(s2)) else OpenOk(s2)
  {
    SendListOk(s.low, s.wire, calls);
    var r := SendList(s.low, s.wire, calls);
    if Incomplete(r.list) {
      assert r.list == [r.list[0]] + r.list[1..];
      ListSizeConcat([r.list[0]], r.list[1..]);
    }
  }

  lemma CloseWriteOk(s: Socket)
    requires s.kind != Invalid && OpenOk(s)
    ensures SocketOk(CloseWrite(s))
  {
  }

  lemma SendLowOk(s: Socket, calls: seq<WriteResult>, drained: Option<Event>)
    requires s.kind != Invalid && OpenOk(s) && s.dw == None && s.high == []
    ensures ListOk(s.low) && SocketOk(SendLow(s, calls, drained))
  {
    LowSent(s, calls);
    var r := SendList(s.low, s.wire, calls);
    if r.failed {
      CloseWriteOk(WithSent(s, false, r));
    }
  }

  /** send_buffer_ keeps an open socket in order, or force-closes it. */
  lemma SendListsOk(s: Socket, calls: seq<WriteResult>, drained: Option<Event>)
    requires s.kind != Invalid && OpenOk(s) && s.dw == None
    ensures ListOk(s.high) && ListOk(s.low)
    ensures SocketOk(SendLists(s, calls, drained))
  {
    HighSent(s, calls);
    var r := SendList(s.high, s.wire, calls);
    var s' := WithSent(s, true, r);
    if r.failed {
      CloseWriteOk(s');
    } else if s'.high == [] {
      SendLowOk(s', r.calls, drained);
    }
  }

  /** What send_buffer_ asserts: raise_uncomplete finds the high list empty, and once both
      lists are empty wb_size is 0. */
  predicate SourceAsserts(s: Socket, calls: seq<WriteResult>)
    requires ListOk(s.high) && ListOk(s.low)
  {
    var r := SendList(s.high, s.wire, calls);
    var s1 := WithSent(s, true, r);
    !r.failed && s1.high == [] ==>
      var r2 := SendList(s1.low, s1.wire, r.calls);
      var s2 := WithSent(s1, false, r2);
      s2.high == [] && (s2.low == [] ==> s2.wbSize == 0)
  }

  /** The assertions of send_buffer_ hold for an open socket in order, and its low list is
      not begun. */
  lemma SendAssertions(s: Socket, calls: seq<WriteResult>)
    requires s.kind != Invalid && OpenOk(s) && s.dw == None
    ensures !Incomplete(s.low) && ListOk(s.high) && ListOk(s.low) && SourceAsserts(s, calls)
  {
    HighSent(s, calls);
    var r := SendList(s.high, s.wire, calls);
    var s1 := WithSent(s, true, r);
    if !r.failed && s1.high == [] {
      LowSent(s1, r.calls);
    }
  }

  lemma TakeDirectOk(s: Socket)
    requires s.kind != Invalid && OpenOk(s)
    ensures OpenOk(TakeDirect(s)) && TakeDirect(s).dw == None && TakeDirect(s).kind == s.kind
  {
    if s.dw.Some? {
      assert ([s.dw.value] + s.high)[1..] == s.high;
    }
  }

  lemma SendBufferOk(s: Socket, calls: seq<WriteResult>, drained: Option<Event>)
    requires s.kind != Invalid && OpenOk(s)
    ensures ListOk(s.high) && ListOk(s.low) && (s.dw.Some? ==> BufOk(s.dw.value))
    ensures SocketOk(SendBuffer(s, calls, drained))
  {
    TakeDirectOk(s);
    SendListsOk(TakeDirect(s), calls, drained);
  }

  lemma SendSocketOk(s: Socket, p: Packet)
    requires SocketOk(s)
    ensures SocketOk(SendSocket(s, p))
  {
    ListSizeConcat(s.high, [Buf(p, 0)]);
    ListSizeConcat(s.low, [Buf(p, 0)]);
    assert s.high != [] ==> (s.high + [Buf(p, 0)])[1..] == s.high[1..] + [Buf(p, 0)];
    assert s.high == [] ==> s.high + [Buf(p, 0)] == [Buf(p, 0)];
  }

  // ---- what is reported ------------------------------------------------------------------

  /** SOCKET_CLOSE comes once, and no SOCKET_DATA after it. */
  predicate CloseIsLast(events: seq<Event>) {
    forall i, j | 0 <= i < j < |events| && events[i] == Close :: events[j] != Close && !events[j].Data?
  }

  predicate EventsOk(s: Socket) {
    && CloseIsLast(s.events)
    && (s.closing || s.kind == HalfcloseRead ==> Close in s.events)
    && (Close in s.events ==> s.kind == HalfcloseRead || s.kind == Invalid)
  }

  /** What an operation of the socket thread other than sending does to the socket: it may
      change its kind, set the closing flag and raise an event; or it asks to close. */
  predicate Mild(s: Socket, o: Outcome) {
    && o.s == s.(kind := o.s.kind, closing := o.s.closing, events := o.s.events)
    && s.kind != Invalid && o.s.kind != Invalid
    && (s.kind == HalfcloseWrite ==> o.s.kind == HalfcloseWrite)
    && EventsOk(o.s)
    && (o.MustClose? && o.event == Some(Close) ==> Close !in o.s.events)
    && (o.MustClose? && o.event.Some? ==> !o.event.value.Data?)
  }

  lemma CloseSocketMild(s: Socket, shutdown: bool, idle: bool)
    requires EventsOk(s) && s.kind != Invalid
    ensures Mild(s, CloseSocket(s, shutdown, idle))
  {
  }

  lemma ForwardMild(s: Socket, r: ReadResult, idle: bool)
    requires EventsOk(s) && s.kind != Invalid
    ensures Mild(s, ForwardMessage(s, r, idle))
  {
  }

  lemma EndOfFileMild(s: Socket)
    requires EventsOk(s) && s.kind != Invalid
    ensures Mild(s, EndOfFile(s))
  {
  }

  lemma ReportConnectMild(s: Socket, ok: bool, failed: bool)
    requires EventsOk(s) && s.kind == Connecting
    ensures Mild(s, ReportConnect(s, ok, failed))
  {
  }

  lemma RaiseMild(s: Socket, e: Event)
    requires EventsOk(s) && s.kind != Invalid && e != Close && !e.Data?
    ensures Mild(s, Continue(Raise(s, e)))
  {
  }

  lemma ResumeMild(s: Socket, failed: bool)
    requires EventsOk(s) && s.kind != Invalid
    ensures Mild(s, Continue(ResumeSocket(s, failed)))
  {
  }

  lemma MildSocket(s: Socket, o: Outcome)
    requires SocketOk(s) && Mild(s, o)
    ensures o.Continue? ==> SocketOk(o.s)
    ensures !o.s.wire.torn ==> WholePackets(o.s.wire)
  {
    assert CurrentOf(o.s) == CurrentOf(s);
  }

  /** The low list stopped in the middle of its head. */
  predicate LowBegun(s: Socket) {
    && s.dw == None && s.high == [] && s.low != [] && Partial(s.low[0]) && Unsent(s.low[1..])
    && s.wire.current == Some(s.low[0]) && s.wbSize == ListSize(s.low)
    && !s.wire.torn && WholePackets(s.wire)
  }

  /** Raising the begun head puts the socket in order. */
  lemma RaisedOk(s: Socket)
    requires LowBegun(s)
    ensures OpenOk(RaiseUncomplete(s))
  {
    assert s.low == [s.low[0]] + s.low[1..];
    ListSizeConcat([s.low[0]], s.low[1..]);
  }
}
