/** The socket thread's operations of socket_server.c on one slot, updating its fields in
    place.  Each method is proved to do to the slot what the operation of the same name in
    `TcpSocket` does to a socket value. */
module TcpSocketThread {
  import opened Prelude
  import opened TcpSocket

  class Slot {
    var kind: Kind
    var closing: bool
    var high: seq<Buf>
    var low: seq<Buf>
    var wbSize: int
    var dw: Option<Buf>
    var sending: nat
    /** What the peer has received and what has been reported: history. */
    ghost var wire: Wire
    ghost var events: seq<Event>

    ghost function Value(): Socket
      reads this
    {
      Socket(kind, closing, high, low, wbSize, dw, sending, wire, events)
    }

    /** A slot in use, its buffers and reported events in order. */
    ghost predicate Open()
      reads this
    {
      kind != Invalid && SocketOk(Value()) && EventsOk(Value())
    }

    method ForceCloseNow()
      modifies this
      ensures Value() == ForceClose(old(Value()))
      ensures kind == Invalid && (old(SocketOk(Value())) ==> ClosedOk(Value()))
      ensures old(EventsOk(Value())) ==> EventsOk(Value())
    {
      if kind == Invalid {
        return;
      }
      high := [];
      low := [];
      kind := Invalid;
      dw := None;
    }

    method CloseWriteEnd() returns (event: Option<Event>)
      modifies this
      ensures Value() == CloseWrite(old(Value()))
      ensures old(kind) != Invalid ==>
                kind == (if old(closing) || old(kind) == HalfcloseRead then Invalid else HalfcloseWrite)
      ensures events == old(events) + (if event.Some? then [Error] else [])
      ensures event.Some? <==> !old(closing) && old(kind) !in {HalfcloseRead, HalfcloseWrite}
      ensures old(kind) != Invalid && old(OpenOk(Value())) ==> SocketOk(Value())
      ensures old(kind) != Invalid && old(EventsOk(Value())) ==> EventsOk(Value())
    {
      event := None;
      if closing {
        ForceCloseNow();
      } else if kind == HalfcloseRead {
        ForceCloseNow();
      } else if kind == HalfcloseWrite {
        return;
      } else {
        kind := HalfcloseWrite;
        event := Some(Error);
        events := events + [Error];
      }
    }

    /** One write of send_list_tcp, to the first buffer of a list: what it leaves of the
        list, and how many bytes it took. */
    method WriteFirst(list: seq<Buf>, m: nat) returns (left: seq<Buf>, n: nat)
      requires list != [] && ListOk(list)
      modifies this`wbSize, this`wire
      ensures n == (if m < Remaining(list[0]) then m else Remaining(list[0]))
      ensures left == if n == Remaining(list[0]) then list[1..] else [Buf(list[0].packet, list[0].sent + n)] + list[1..]
      ensures ListOk(list[1..]) && wbSize == old(wbSize) - n && wire == Put(old(wire), list[0], n)
    {
      var b := list[0];
      assert b in list && forall c :: c in list[1..] ==> c in list;
      n := if m < Remaining(b) then m else Remaining(b);
      wbSize := wbSize - n;
      wire := Put(wire, b, n);
      left := if n != Remaining(b) then [Buf(b.packet, b.sent + n)] + list[1..] else list[1..];
    }

    /** send_list_tcp: `calls` are the results of its write calls, `rest` those not made. */
    method SendListTcp(isHigh: bool, calls: seq<WriteResult>) returns (rest: seq<WriteResult>, failed: bool)
      requires ListOk(if isHigh then high else low)
      modifies this`high, this`low, this`wbSize, this`wire
      ensures var r := SendList(if isHigh then old(high) else old(low), old(wire), calls);
              Value() == WithSent(old(Value()), isHigh, r) && rest == r.calls && failed == r.failed
    {
      var list := if isHigh then high else low;
      ghost var all := SendList(list, wire, calls);
      rest, failed := calls, false;
      ghost var count: nat := 0;
      while list != [] && rest != []
        invariant ListOk(list)
        invariant !failed
        invariant wbSize == old(wbSize) - count && high == old(high) && low == old(low)
        invariant var r := SendList(list, wire, rest); all == r.(count := r.count + count)
        decreases |rest|
      {
        var call := rest[0];
        rest := rest[1..];
        match call {
          case WriteInterrupted =>
          case WriteAgain => break;
          case WriteFailed =>
            failed := true;
            break;
          case Wrote(m) =>
            var whole := Remaining(list[0]);
            var left, n := WriteFirst(list, m);
            count := count + n;
            list := left;
            if n != whole {
              break;
            }
        }
      }
      if isHigh {
        high := list;
      } else {
        low := list;
      }
    }

    method RaiseUncompleteNow()
      requires low != [] && high == []
      modifies this`high, this`low
      ensures Value() == RaiseUncomplete(old(Value()))
      ensures high + low == old(high + low) && ListSize(high) + ListSize(low) == ListSize(old(low))
      ensures old(LowBegun(Value())) ==> OpenOk(Value())
    {
      assert low == [low[0]] + low[1..];
      ListSizeConcat([low[0]], low[1..]);
      if LowBegun(Value()) {
        RaisedOk(Value());
      }
      var head := low[0];
      low := low[1..];
      high := [head];
    }

    /** send_buffer_ */
    method SendBufferLists(calls: seq<WriteResult>, drained: Option<Event>)
      requires kind != Invalid && OpenOk(Value()) && dw == None
      modifies this
      ensures ListOk(old(high)) && ListOk(old(low)) && Value() == SendLists(old(Value()), calls, drained)
      ensures SocketOk(Value())
    {
      SendListsOk(Value(), calls, drained);
      SendAssertions(Value(), calls);
      HighSent(Value(), calls);
      var rest, failed := SendListTcp(true, calls);
      if failed {
        var _ := CloseWriteEnd();
        return;
      }
      if high == [] {
        if low != [] {
          rest, failed := SendListTcp(false, rest);
          if failed {
            var _ := CloseWriteEnd();
            return;
          }
          if low != [] && low[0].sent != 0 {
            RaiseUncompleteNow();
            return;
          }
          if low != [] {
            return;
          }
        }
        assert wbSize == 0;
        if closing {
          ForceCloseNow();
          return;
        }
        if drained.Some? {
          events := events + [drained.value];
        }
      }
    }

    /** send_buffer, the lock having been taken. */
    method SendBufferNow(calls: seq<WriteResult>, drained: Option<Event>)
      requires kind != Invalid && OpenOk(Value())
      modifies this
      ensures ListOk(old(high)) && ListOk(old(low)) && (old(dw).Some? ==> BufOk(old(dw).value))
      ensures Value() == SendBuffer(old(Value()), calls, drained)
      ensures SocketOk(Value())
    {
      SendBufferOk(Value(), calls, drained);
      TakeDirectOk(Value());
      if dw.Some? {
        wbSize := wbSize + (|dw.value.packet.data| - dw.value.sent);
        if high == [] {
          high := [dw.value];
        } else {
          high := [dw.value] + high;
        }
        dw := None;
      }
      assert Value() == TakeDirect(old(Value()));
      SendBufferLists(calls, drained);
    }

    /** send_socket for TCP. */
    method SendSocketNow(p: Packet)
      modifies this
      ensures Value() == SendSocket(old(Value()), p)
      ensures old(SocketOk(Value())) ==> SocketOk(Value())
      ensures old(high) <= high && old(low) <= low
      ensures wbSize - ListSize(high) - ListSize(low) == old(wbSize - ListSize(high) - ListSize(low))
      ensures var refused := old(kind) in {Invalid, HalfcloseWrite, Paccept} || old(closing);
              var first := p.high || old(high + low) == [];
              && (refused ==> Value() == old(Value()))
              && (!refused ==> kind == old(kind) && wbSize == old(wbSize) + |p.data|)
              && (!refused && first ==> high == old(high) + [Buf(p, 0)] && low == old(low))
              && (!refused && !first ==> high == old(high) && low == old(low) + [Buf(p, 0)])
    {
      if SocketOk(Value()) {
        SendSocketOk(Value(), p);
      }
      ListSizeConcat(high, [Buf(p, 0)]);
      ListSizeConcat(low, [Buf(p, 0)]);
      if kind == Invalid || kind == HalfcloseWrite || kind == Paccept || closing {
        return;
      }
      if high == [] && low == [] {
        high := high + [Buf(p, 0)];
      } else if p.high {
        high := high + [Buf(p, 0)];
      } else {
        low := low + [Buf(p, 0)];
      }
      wbSize := wbSize + |p.data|;
    }

    /** close_socket up to the point where force_close takes the lock. */
    method CloseSocketNow(shutdown: bool, idle: bool) returns (mustClose: bool, event: Option<Event>)
      modifies this
      ensures match CloseSocket(old(Value()), shutdown, idle)
              case Continue(s) => !mustClose && Value() == s
              case MustClose(s, e) => mustClose && Value() == FreeLists(s) && event == e
      ensures old(Open()) ==> EventsOk(Value()) && CloseIsLast(events + (if event.Some? then [event.value] else []))
      ensures old(Open()) ==> if mustClose then high == [] && low == [] else SocketOk(Value()) && Close in events
      ensures mustClose <==> old(kind) != Invalid && (shutdown || idle || old(kind) == HalfcloseWrite)
      ensures event == (if mustClose && old(kind) != HalfcloseRead then Some(Close) else None)
      ensures old(kind) != Invalid && !mustClose ==> closing && kind == HalfcloseRead
      ensures events == old(events) + (if old(kind) in {Invalid, HalfcloseRead} || mustClose then [] else [Close])
    {
      if Open() {
        CloseSocketMild(Value(), shutdown, idle);
        MildSocket(Value(), CloseSocket(Value(), shutdown, idle));
      }
      mustClose, event := false, None;
      if kind == Invalid {
        return;
      }
      var halfclosed := kind == HalfcloseRead;
      if shutdown || idle || kind == HalfcloseWrite {
        mustClose := true;
        event := if halfclosed then None else Some(Close);
        high, low := [], [];
        return;
      }
      closing := true;
      if !halfclosed {
        kind := HalfcloseRead;
        events := events + [Close];
      }
    }

    /** forward_message_tcp up to the point where force_close takes the lock. */
    method ForwardMessageTcp(r: ReadResult, idle: bool) returns (mustClose: bool, event: Option<Event>)
      modifies this
      ensures match ForwardMessage(old(Value()), r, idle)
              case Continue(s) => !mustClose && Value() == s
              case MustClose(s, e) => mustClose && Value() == FreeLists(s) && event == e
      ensures old(Open()) ==> EventsOk(Value()) && CloseIsLast(events + (if event.Some? then [event.value] else []))
      ensures old(Open()) ==> if mustClose then high == [] && low == [] else SocketOk(Value())
      ensures r.Received? && r.bytes != [] && old(kind) != HalfcloseRead ==>
                events == old(events) + [Data(r.bytes)] && !mustClose && kind == old(kind)
      ensures r.Received? && r.bytes != [] && old(kind) == HalfcloseRead ==> events == old(events) && !mustClose
      ensures r == Received([]) && !old(closing) && old(kind) != HalfcloseRead ==>
                if mustClose then event == Some(Close) && events == old(events) && old(kind) == HalfcloseWrite
                else events == old(events) + [Close] && kind == HalfcloseRead && old(kind) != HalfcloseWrite
      ensures r == Received([]) && (old(closing) || old(kind) == HalfcloseRead) ==>
                && events == old(events) && event == None
                && (mustClose <==> old(closing) && (idle || old(kind) == HalfcloseWrite))
      ensures r == ReadFailed ==> events == old(events) + [Error] && !mustClose
      ensures r == ReadAgain ==> Value() == old(Value()) && !mustClose
    {
      if Open() {
        ForwardMild(Value(), r, idle);
        MildSocket(Value(), ForwardMessage(Value(), r, idle));
      }
      mustClose, event := false, None;
      match r {
        case ReadAgain =>
        case ReadFailed =>
          events := events + [Error];
        case Received(bytes) =>
          if bytes == [] {
            if closing {
              if idle || kind == HalfcloseWrite {
                mustClose := true;
                high, low := [], [];
              }
              return;
            }
            if kind == HalfcloseRead {
              return;
            }
            if kind == HalfcloseWrite {
              mustClose, event := true, Some(Close);
              high, low := [], [];
            } else {
              kind := HalfcloseRead;
              events := events + [Close];
            }
            return;
          }
          if kind == HalfcloseRead {
            return;
          }
          events := events + [Data(bytes)];
      }
    }
  }
}
