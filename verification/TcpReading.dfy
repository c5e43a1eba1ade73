/** What becomes of the bytes that a socket heard, over all runs of `TcpProtocol`. */
module TcpReading {
  import opened Prelude
  import opened TcpSocket
  import opened TcpProtocol

  /** A run with what its read calls returned; the steps without a read call have None. */
  ghost predicate IsReading(run: seq<State>, heard: seq<Option<ReadResult>>) {
    && IsRun(run) && |heard| == |run| - 1
    && forall i :: 0 <= i < |heard| ==> ReadsAt(run[i], run[i + 1], heard[i])
  }

  ghost predicate ReadsAt(st: State, st': State, read: Option<ReadResult>) {
    match read
    case Some(r) => ReadNext(st, st', r)
    case None => NoReadNext(st, st') || (exists t :: SenderNext(st, st', t)) || (exists t, n :: WriteNext(st, st', t, n))
  }

  /** The bytes of all SOCKET_DATA events, in order. */
  function DataBytes(events: seq<Event>): seq<Byte> {
    if events == [] then []
    else
      var front := DataBytes(events[..|events| - 1]);
      match events[|events| - 1]
      case Data(bytes) => front + bytes
      case _ => front
  }

  lemma DataAppend(events: seq<Event>, e: Event)
    ensures DataBytes(events + [e]) == if e.Data? then DataBytes(events) + e.bytes else DataBytes(events)
  {
    assert (events + [e])[..|events|] == events;
  }

  /** What a step reads, unless the socket is half closed for reading. */
  function Gained(st: State, read: Option<ReadResult>): seq<Byte> {
    match read
    case Some(Received(bytes)) => if st.s.kind == HalfcloseRead then [] else bytes
    case _ => []
  }

  /** What the first i steps of a run read while the socket was not half closed for reading. */
  function BytesRead(run: seq<State>, heard: seq<Option<ReadResult>>, i: nat): seq<Byte>
    requires i <= |heard| && |heard| == |run| - 1
  {
    if i == 0 then [] else BytesRead(run, heard, i - 1) + Gained(run[i - 1], heard[i - 1])
  }

  // ---- what steps report ----------------------------------------------------------------------------

  /** At most one event is added, and it is not SOCKET_DATA. */
  ghost predicate NoData(s: Socket, s': Socket) {
    s'.events == s.events || exists e: Event :: !e.Data? && s'.events == s.events + [e]
  }

  lemma NoDataBytes(s: Socket, s': Socket)
    requires NoData(s, s')
    ensures DataBytes(s'.events) == DataBytes(s.events)
  {
    if s'.events != s.events {
      var e: Event :| !e.Data? && s'.events == s.events + [e];
      DataAppend(s.events, e);
    }
  }

  lemma CloseWriteNoData(s: Socket, events: seq<Event>)
    requires s.events == events
    ensures CloseWrite(s).events == events || CloseWrite(s).events == events + [Error]
  {
  }

  lemma SendLowNoData(s: Socket, calls: seq<WriteResult>, drained: Option<Event>)
    requires ListOk(s.low) && LegalDrained(drained)
    ensures NoData(s, SendLow(s, calls, drained))
  {
    var r := SendList(s.low, s.wire, calls);
    CloseWriteNoData(WithSent(s, false, r), s.events);
  }

  lemma SendBufferNoData(s: Socket, calls: seq<WriteResult>, drained: Option<Event>)
    requires ListOk(s.high) && ListOk(s.low) && (s.dw.Some? ==> BufOk(s.dw.value)) && LegalDrained(drained)
    ensures NoData(s, SendBuffer(s, calls, drained))
  {
    var s0 := TakeDirect(s);
    var r := SendList(s0.high, s0.wire, calls);
    var s1 := WithSent(s0, true, r);
    CloseWriteNoData(s1, s.events);
    SendLowNoData(s1, r.calls, drained);
  }

  lemma TakeNoData(st: State, choice: bool)
    requires CanTake(st)
    ensures NoData(st.s, Take(st, choice).s)
  {
  }

  lemma FinishNoData(st: State)
    requires CanFinishClose(st) && (st.poller.event.Some? ==> !st.poller.event.value.Data?)
    ensures NoData(st.s, FinishClose(st).s)
  {
  }

  lemma NoReadNoData(st: State, st': State)
    requires NoReadNext(st, st')
    requires st.poller.Dying? && st.poller.event.Some? ==> !st.poller.event.value.Data?
    ensures NoData(st.s, st'.s)
  {
    if choice :| CanTake(st) && st' == Take(st, choice) {
      TakeNoData(st, choice);
    } else if calls, drained :| CanSendBuffer(st) && LegalDrained(drained) && st' == st.(s := SendBuffer(st.s, calls, drained)) {
      SendBufferNoData(st.s, calls, drained);
    } else if CanFinishClose(st) && st' == FinishClose(st) {
      FinishNoData(st);
    }
  }

  lemma ReadData(st: State, st': State, r: ReadResult)
    requires ReadNext(st, st', r)
    ensures DataBytes(st'.s.events) ==
            if r.Received? && st.s.kind != HalfcloseRead then DataBytes(st.s.events) + r.bytes else DataBytes(st.s.events)
  {
    var idle :| st' == After(st, ForwardMessage(st.s, r, idle));
    DataAppend(st.s.events, Error);
    DataAppend(st.s.events, Close);
    if r.Received? {
      DataAppend(st.s.events, Data(r.bytes));
    }
  }

  lemma StepData(st: State, st': State, read: Option<ReadResult>)
    requires ReadsAt(st, st', read)
    requires st.poller.Dying? && st.poller.event.Some? ==> !st.poller.event.value.Data?
    ensures DataBytes(st'.s.events) == DataBytes(st.s.events) + Gained(st, read)
  {
    if read.Some? {
      ReadData(st, st', read.value);
    } else if NoReadNext(st, st') {
      NoReadNoData(st, st');
      NoDataBytes(st.s, st'.s);
    }
  }

  lemma RunData(run: seq<State>, heard: seq<Option<ReadResult>>, k: nat)
    requires IsReading(run, heard) && k < |heard|
    ensures DataBytes(run[k + 1].s.events) == DataBytes(run[k].s.events) + Gained(run[k], heard[k])
  {
    RunInv(run, k);
    assert ReadsAt(run[k], run[k + 1], heard[k]);
    StepData(run[k], run[k + 1], heard[k]);
  }

  // ---- over runs -------------------------------------------------------------------------------------

  /** The SOCKET_DATA events carry, in order, exactly the bytes that read calls returned
      while the socket was not half closed for reading. */
  lemma {:induction false} DataIsReported(run: seq<State>, heard: seq<Option<ReadResult>>, i: nat)
    requires IsReading(run, heard) && i <= |heard|
    ensures DataBytes(run[i].s.events) == BytesRead(run, heard, i)
  {
    if i > 0 {
      DataIsReported(run, heard, i - 1);
      RunData(run, heard, i - 1);
    } else {
      assert IsInit(run[0]);
    }
  }

  /** The end of the stream, on a socket that has not been told to close, raises
      SOCKET_CLOSE, at once or when the lock is taken; a failed read raises an error. */
  lemma EndIsReported(run: seq<State>, heard: seq<Option<ReadResult>>, i: nat)
    requires IsReading(run, heard) && i < |heard| && heard[i].Some?
    ensures var st, st' := run[i], run[i + 1];
            && (heard[i].value == Received([]) && !st.s.closing && st.s.kind != HalfcloseRead ==>
                  st'.s.events == st.s.events + [Close] || (st'.poller == Dying(Some(Close)) && st'.s.events == st.s.events))
            && (heard[i].value == ReadFailed ==> st'.s.events == st.s.events + [Error])
  {
    var st, st' := run[i], run[i + 1];
    assert ReadsAt(run[i], run[i + 1], heard[i]);
    var idle :| st' == After(st, ForwardMessage(st.s, heard[i].value, idle));
  }

  /** Every run is one with read calls. */
  lemma EveryRunReads(run: seq<State>)
    requires IsRun(run)
    ensures exists heard :: IsReading(run, heard)
  {
    var heard := CallsOf(run, |run| - 1);
    assert IsReading(run, heard);
  }

  ghost predicate FirstHeard(run: seq<State>, heard: seq<Option<ReadResult>>) {
    |heard| < |run| && forall i :: 0 <= i < |heard| ==> ReadsAt(run[i], run[i + 1], heard[i])
  }

  ghost function CallsOf(run: seq<State>, n: nat): (heard: seq<Option<ReadResult>>)
    requires IsRun(run) && n < |run|
    ensures |heard| == n && FirstHeard(run, heard)
  {
    if n == 0 then []
    else
      assert Next(run[n - 1], run[n - 1 + 1]);
      CallsOf(run, n - 1) + [CallAt(run[n - 1], run[n])]
  }

  ghost function CallAt(st: State, st': State): (read: Option<ReadResult>)
    requires Next(st, st')
    ensures ReadsAt(st, st', read)
  {
    if r :| ReadNext(st, st', r) then Some(r) else None
  }
}
