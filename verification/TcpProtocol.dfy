/** One TCP socket of socket_server.c shared by its socket thread and any number of sending
    threads, as interleaved steps.

    The socket thread takes requests from the control pipe and events from the poller, one
    at a time.  A sending thread tries to write to the descriptor itself: it checks, takes
    the socket's lock, checks again field by field, writes, and otherwise passes its packet
    through the pipe.  What the first, unlocked check reads of the write lists may be any
    intermediate value, so only its reading of the sending count is kept; likewise events
    are raised at any time, whatever the interest flags. */
module TcpProtocol {
  import opened Prelude
  import opened TcpSocket

  type ThreadId = nat

  datatype Request =
    | SendRequest(p: Packet)
    | WriteRequest
    | CloseRequest(shutdown: bool)
    | ResumeRequest
    | PauseRequest

  /** The socket thread: ready for a request or event, about to decrement the sending
      count, or in force_close, having freed the lists and waiting for the lock. */
  datatype Poller = Ready | Counting | Dying(event: Option<Event>)

  /** Where a sending thread stands in socket_server_send. */
  datatype Pc =
    | Idle
    | First        // before the unlocked check
    | FirstHalf    // unlocked check: saw a socket half closed for writing
    | Locking      // unlocked check passed, about to try the lock
    | High2        // locked check: about to read high.head
    | Low2         // ... low.head
    | Dw2          // ... dw_buffer
    | Sending2     // ... the sending count
    | Half2        // ... whether the socket is half closed for writing
    | HalfType2    // ... saw it half closed, about to read the type
    | Type2        // ... the type
    | Writing      // all checks passed, about to write
    | WantWrite    // wrote a part, about to request the write event
    | Queueing     // about to count the packet as being sent
    | Requesting   // counted, about to write the request to the pipe

  datatype Sender = Sender(pc: Pc, p: Packet, next: nat)

  datatype State = State(
    s: Socket,
    lock: Option<ThreadId>,
    pipe: seq<Request>,
    poller: Poller,
    senders: map<ThreadId, Sender>)

  const EmptyWire := Wire([], [], None, [], false)

  /** What new_fd and its caller leave: a fresh socket of one of the stream kinds. */
  predicate IsInit(st: State) {
    && st.s == Socket(st.s.kind, false, [], [], 0, None, 0, EmptyWire, [])
    && st.s.kind in {Paccept, Connecting, Connected, Bind}
    && st.lock == None && st.pipe == [] && st.poller == Ready && st.senders == map[]
  }

  // ---- sending threads --------------------------------------------------------------------

  predicate At(st: State, t: ThreadId, pc: Pc) { t in st.senders && st.senders[t].pc == pc }

  function Go(st: State, t: ThreadId, pc: Pc): State
    requires t in st.senders
  {
    st.(senders := st.senders[t := st.senders[t].(pc := pc)])
  }

  function Unlock(st: State, t: ThreadId): State
    requires t in st.senders
  {
    Go(st.(lock := None), t, Queueing)
  }

  predicate CanJoin(st: State, t: ThreadId) { t !in st.senders }

  function Join(st: State, t: ThreadId): State {
    st.(senders := st.senders[t := Sender(Idle, Packet(t, 0, false, []), 0)])
  }

  /** socket_server_send (high) or socket_server_send_lowpriority, on a socket that is not
      closed; the former also gives up on a socket that is closing. */
  predicate CanBegin(st: State, t: ThreadId, high: bool) {
    At(st, t, Idle) && st.s.kind != Invalid && (high ==> !st.s.closing)
  }

  function Begin(st: State, t: ThreadId, high: bool, data: seq<Byte>): State
    requires CanBegin(st, t, high)
  {
    var x := st.senders[t];
    st.(senders := st.senders[t := Sender(if high then First else Queueing, Packet(t, x.next, high, data), x.next + 1)])
  }

  predicate CanFirst(st: State, t: ThreadId, to: Pc) {
    At(st, t, First) &&
    match to
    case Locking => st.s.sending == 0
    case FirstHalf => st.s.kind == HalfcloseWrite
    case Queueing => true
    case _ => false
  }

  predicate CanFirstHalf(st: State, t: ThreadId) { At(st, t, FirstHalf) }

  function AfterFirstHalf(st: State, t: ThreadId): State
    requires CanFirstHalf(st, t)
  {
    Go(st, t, if st.s.kind == Connected then Locking else Queueing)
  }

  /** socket_trylock: a taken lock sends the packet through the pipe. */
  predicate CanTryLock(st: State, t: ThreadId) { At(st, t, Locking) }

  function TryLock(st: State, t: ThreadId): State
    requires CanTryLock(st, t)
  {
    if st.lock == None then Go(st.(lock := Some(t)), t, High2) else Go(st, t, Queueing)
  }

  /** One read of can_direct_write under the lock. */
  predicate CanCheck(st: State, t: ThreadId) {
    t in st.senders && st.senders[t].pc in {High2, Low2, Dw2, Sending2, Half2, HalfType2, Type2}
  }

  function Check(st: State, t: ThreadId): State
    requires CanCheck(st, t)
  {
    match st.senders[t].pc
    case High2 => Go(st, t, if st.s.high == [] then Low2 else Half2)
    case Low2 => Go(st, t, if st.s.low == [] then Dw2 else Half2)
    case Dw2 => Go(st, t, if st.s.dw == None then Sending2 else Half2)
    case Sending2 => Go(st, t, if st.s.sending == 0 then Type2 else Half2)
    case Half2 => if st.s.kind == HalfcloseWrite then Go(st, t, HalfType2) else Unlock(st, t)
    case HalfType2 => if st.s.kind == Connected then Go(st, t, Writing) else Unlock(st, t)
    case _ => if st.s.kind == Connected then Go(st, t, Writing) else Unlock(st, t)
  }

  /** The direct write, of which n bytes are accepted (none on an error), and unlocking. */
  predicate CanWrite(st: State, t: ThreadId, n: nat) {
    At(st, t, Writing) && n <= |st.senders[t].p.data|
  }

  function Write(st: State, t: ThreadId, n: nat): State
    requires CanWrite(st, t, n)
  {
    var p := st.senders[t].p;
    var s := st.s.(wire := Put(st.s.wire, Buf(p, 0), n));
    if n == |p.data| then Go(st.(s := s, lock := None), t, Idle)
    else Go(st.(s := s.(dw := Some(Buf(p, n))), lock := None), t, WantWrite)
  }

  predicate CanWantWrite(st: State, t: ThreadId) { At(st, t, WantWrite) }

  function RequestWrite(st: State, t: ThreadId): State
    requires CanWantWrite(st, t)
  {
    Go(st.(pipe := st.pipe + [WriteRequest]), t, Idle)
  }

  /** inc_sending_ref, which spins while the 16-bit count is full. */
  predicate CanCount(st: State, t: ThreadId) { At(st, t, Queueing) && st.s.sending < 0xffff }

  function CountSending(st: State, t: ThreadId): State
    requires CanCount(st, t)
  {
    Go(st.(s := st.s.(sending := st.s.sending + 1)), t, Requesting)
  }

  predicate CanRequest(st: State, t: ThreadId) { At(st, t, Requesting) }

  function RequestSend(st: State, t: ThreadId): State
    requires CanRequest(st, t)
  {
    Go(st.(pipe := st.pipe + [SendRequest(st.senders[t].p)]), t, Idle)
  }

  /** Other requests may come from anywhere. */
  predicate IsControl(r: Request) { !r.SendRequest? }

  function Control(st: State, r: Request): State { st.(pipe := st.pipe + [r]) }

  // ---- the socket thread ----------------------------------------------------------------------

  /** Going on, or freeing the lists and waiting for the lock to close. */
  function After(st: State, o: Outcome): State {
    match o
    case Continue(s) => st.(s := s)
    case MustClose(s, event) => st.(s := FreeLists(s), poller := Dying(event))
  }

  predicate CanTake(st: State) { st.poller == Ready && st.pipe != [] }

  /** ctrl_cmd; `choice` stands for what the system calls and unlocked reads return. */
  function Take(st: State, choice: bool): State
    requires CanTake(st)
  {
    var rest := st.(pipe := st.pipe[1..]);
    match st.pipe[0]
    case SendRequest(p) =>
      var sent := SendSocket(st.s, p);
      rest.(s := if choice && st.s.kind != Invalid then Raise(sent, Error) else sent, poller := Counting)
    case WriteRequest => if choice && st.s.kind != Invalid then rest.(s := Raise(st.s, Error)) else rest
    case CloseRequest(shutdown) => After(rest, CloseSocket(st.s, shutdown, choice))
    case ResumeRequest => rest.(s := ResumeSocket(st.s, choice))
    case PauseRequest => if choice && st.s.kind != Invalid then rest.(s := Raise(st.s, Error)) else rest
  }

  predicate CanUncount(st: State) { st.poller == Counting && st.s.sending > 0 }

  function Uncount(st: State): State
    requires CanUncount(st)
  {
    st.(s := st.s.(sending := st.s.sending - 1), poller := Ready)
  }

  /** Kinds whose events reach the default case of socket_server_poll. */
  predicate Streaming(kind: Kind) { kind != Invalid && kind != Connecting }

  predicate CanEvent(st: State) { st.poller == Ready && Streaming(st.s.kind) }

  predicate CanConnectEvent(st: State) { st.poller == Ready && st.s.kind == Connecting }

  /** A write event does nothing when the lock is taken. */
  predicate CanSendBuffer(st: State) {
    && CanEvent(st) && st.lock == None
    && ListOk(st.s.high) && ListOk(st.s.low) && (st.s.dw.Some? ==> BufOk(st.s.dw.value))
  }

  predicate LegalDrained(e: Option<Event>) { e == None || e == Some(Error) || e == Some(Warning) }

  /** The locked half of force_close. */
  predicate CanFinishClose(st: State) { st.poller.Dying? && st.lock == None }

  function FinishClose(st: State): State
    requires CanFinishClose(st)
  {
    var s := Invalidate(st.s);
    st.(s := if st.poller.event.Some? then Raise(s, st.poller.event.value) else s, poller := Ready)
  }

  // ---- runs -------------------------------------------------------------------------------------

  ghost predicate SenderNext(st: State, st': State, t: ThreadId) {
    || (CanJoin(st, t) && st' == Join(st, t))
    || (exists high, data :: CanBegin(st, t, high) && st' == Begin(st, t, high, data))
    || (exists to :: CanFirst(st, t, to) && st' == Go(st, t, to))
    || (CanFirstHalf(st, t) && st' == AfterFirstHalf(st, t))
    || (CanTryLock(st, t) && st' == TryLock(st, t))
    || (CanCheck(st, t) && st' == Check(st, t))
    || (CanWantWrite(st, t) && st' == RequestWrite(st, t))
    || (CanCount(st, t) && st' == CountSending(st, t))
    || (CanRequest(st, t) && st' == RequestSend(st, t))
  }

  ghost predicate WriteNext(st: State, st': State, t: ThreadId, n: nat) {
    CanWrite(st, t, n) && st' == Write(st, t, n)
  }

  /** A readable event, at which the read call returns r. */
  ghost predicate ReadNext(st: State, st': State, r: ReadResult) {
    CanEvent(st) && exists idle :: st' == After(st, ForwardMessage(st.s, r, idle))
  }

  /** The other steps of the socket thread, and control requests from anywhere. */
  ghost predicate NoReadNext(st: State, st': State) {
    || (exists r :: IsControl(r) && st' == Control(st, r))
    || (CanTake(st) && exists choice :: st' == Take(st, choice))
    || (CanUncount(st) && st' == Uncount(st))
    || (CanEvent(st) && st' == After(st, EndOfFile(st.s)))
    || (CanEvent(st) && st' == st.(s := Raise(st.s, Error)))
    || (CanConnectEvent(st) && exists ok, failed :: st' == After(st, ReportConnect(st.s, ok, failed)))
    || (CanSendBuffer(st) && exists calls, drained :: LegalDrained(drained) && st' == st.(s := SendBuffer(st.s, calls, drained)))
    || (CanFinishClose(st) && st' == FinishClose(st))
  }

  ghost predicate PollerNext(st: State, st': State) {
    NoReadNext(st, st') || exists r :: ReadNext(st, st', r)
  }

  ghost predicate Next(st: State, st': State) {
    || PollerNext(st, st')
    || (exists t :: SenderNext(st, st', t))
    || (exists t, n :: WriteNext(st, st', t, n))
  }

  ghost predicate IsRun(run: seq<State>) {
    && run != [] && IsInit(run[0])
    && forall i | 0 <= i < |run| - 1 :: Next(run[i], run[i + 1])
  }

  // ---- order of one sender's packets ----------------------------------------------------------

  predicate Own(p: Packet, t: ThreadId) { p.high && p.sender == t }

  /** The numbers of t's high-priority packets, in each place a packet can be. */
  function OwnBegun(ps: seq<Packet>, t: ThreadId): seq<nat> {
    if ps == [] then []
    else
      var front := OwnBegun(ps[..|ps| - 1], t);
      if Own(ps[|ps| - 1], t) then front + [ps[|ps| - 1].number] else front
  }

  function OwnUnsent(list: seq<Buf>, t: ThreadId): seq<nat> {
    if list == [] then []
    else
      var rest := OwnUnsent(list[1..], t);
      if list[0].sent == 0 && Own(list[0].packet, t) then [list[0].packet.number] + rest else rest
  }

  function OwnDirect(dw: Option<Buf>, t: ThreadId): seq<nat> {
    match dw
    case None => []
    case Some(b) => if b.sent == 0 && Own(b.packet, t) then [b.packet.number] else []
  }

  function OwnRequests(pipe: seq<Request>, t: ThreadId): seq<nat> {
    if pipe == [] then []
    else
      var rest := OwnRequests(pipe[1..], t);
      if pipe[0].SendRequest? && Own(pipe[0].p, t) then [pipe[0].p.number] + rest else rest
  }

  predicate HasPacket(pc: Pc) { pc != Idle && pc != WantWrite }

  function OwnInHand(st: State, t: ThreadId): seq<nat> {
    if t in st.senders && HasPacket(st.senders[t].pc) && st.senders[t].p.high then [st.senders[t].p.number] else []
  }

  /** t's packets in the order the peer has begun or would begin to receive them. */
  function Line(st: State, t: ThreadId): seq<nat> {
    OwnBegun(st.s.wire.begun, t) + OwnDirect(st.s.dw, t) + OwnUnsent(st.s.high, t)
    + OwnRequests(st.pipe, t) + OwnInHand(st, t)
  }

  predicate Increasing(xs: seq<nat>) { forall i, j | 0 <= i < j < |xs| :: xs[i] < xs[j] }

  function NextNumber(st: State, t: ThreadId): nat {
    if t in st.senders then st.senders[t].next else 0
  }

  predicate OrderOk(st: State, t: ThreadId) {
    Increasing(Line(st, t)) && forall x | x in Line(st, t) :: x < NextNumber(st, t)
  }

  // ---- the invariant ------------------------------------------------------------------------------

  predicate Locked(pc: Pc) { pc in {High2, Low2, Dw2, Sending2, Half2, HalfType2, Type2, Writing} }

  predicate PassedFirst(pc: Pc) { pc == Locking || Locked(pc) }

  predicate SawHigh(pc: Pc) { pc in {Low2, Dw2, Sending2, Type2, Writing} }

  predicate SawDirect(pc: Pc) { pc in {Sending2, Type2, Writing} }

  function Requesters(senders: map<ThreadId, Sender>): set<ThreadId> {
    set t | t in senders && senders[t].pc == Requesting
  }

  function PipeCount(pipe: seq<Request>): nat {
    if pipe == [] then 0 else PipeCount(pipe[1..]) + if pipe[0].SendRequest? then 1 else 0
  }

  predicate LowOnly(list: seq<Buf>) { forall b | b in list :: !b.packet.high }

  /** What is known of a sender where it stands. */
  predicate SenderOk(st: State, t: ThreadId)
    requires t in st.senders
  {
    var pc := st.senders[t].pc;
    && st.senders[t].p.sender == t
    && (HasPacket(pc) && pc != Queueing && pc != Requesting ==> st.senders[t].p.high)
    && (Locked(pc) <==> st.lock == Some(t))
    && (PassedFirst(pc) ==> OwnRequests(st.pipe, t) == [])
    && (SawHigh(pc) ==> OwnUnsent(st.s.high, t) == [] && !Incomplete(st.s.high))
    && (SawDirect(pc) ==> st.s.dw == None)
    && (pc == FirstHalf || pc == HalfType2 ==> st.s.kind == HalfcloseWrite || st.s.kind == Invalid)
    && (pc == Writing ==> st.s.kind != Invalid)
  }

  predicate WireOk(st: State) {
    && (!st.s.wire.torn ==> WholePackets(st.s.wire))
    && (st.poller.Dying? ==> st.s.kind != Invalid && st.s.high == [] && st.s.low == [])
    && (!st.poller.Dying? ==> SocketOk(st.s))
  }

  ghost predicate Inv(st: State) {
    && WireOk(st)
    && EventsOk(st.s)
    && (st.poller.Dying? && st.poller.event == Some(Close) ==> Close !in st.s.events)
    && (st.poller.Dying? && st.poller.event.Some? ==> !st.poller.event.value.Data?)
    && (st.lock.Some? ==> st.lock.value in st.senders)
    && st.s.sending == PipeCount(st.pipe) + |Requesters(st.senders)| + (if st.poller == Counting then 1 else 0)
    && LowOnly(st.s.low)
    && AllSendersOk(st)
    && AllOrdersOk(st)
  }

  ghost predicate AllSendersOk(st: State) { forall t | t in st.senders :: SenderOk(st, t) }

  ghost predicate AllOrdersOk(st: State) { forall t: ThreadId :: OrderOk(st, t) }

  // ---- lemmas about the parts ------------------------------------------------------------------------

  lemma {:induction false} OwnUnsentConcat(a: seq<Buf>, b: seq<Buf>, t: ThreadId)
    ensures OwnUnsent(a + b, t) == OwnUnsent(a, t) + OwnUnsent(b, t)
  {
    if a == [] {
      assert a + b == b;
    } else {
      assert (a + b)[1..] == a[1..] + b;
      OwnUnsentConcat(a[1..], b, t);
    }
  }

  lemma {:induction false} OwnRequestsAppend(pipe: seq<Request>, r: Request, t: ThreadId)
    ensures OwnRequests(pipe + [r], t)
         == OwnRequests(pipe, t) + if r.SendRequest? && Own(r.p, t) then [r.p.number] else []
    ensures PipeCount(pipe + [r]) == PipeCount(pipe) + if r.SendRequest? then 1 else 0
  {
    if pipe == [] {
    } else {
      assert (pipe + [r])[1..] == pipe[1..] + [r];
      OwnRequestsAppend(pipe[1..], r, t);
    }
  }

  lemma {:induction false} NoRequests(pipe: seq<Request>, t: ThreadId)
    requires PipeCount(pipe) == 0
    ensures OwnRequests(pipe, t) == []
  {
    if pipe != [] {
      NoRequests(pipe[1..], t);
    }
  }

  lemma OwnBegunAppend(ps: seq<Packet>, p: Packet, t: ThreadId)
    ensures OwnBegun(ps + [p], t) == OwnBegun(ps, t) + if Own(p, t) then [p.number] else []
  {
    assert (ps + [p])[..|ps|] == ps;
  }

  lemma PutBegun(w: Wire, b: Buf, n: nat, t: ThreadId)
    requires b.sent + n <= |b.packet.data|
    ensures OwnBegun(Put(w, b, n).begun, t)
         == OwnBegun(w.begun, t)
            + if b.sent == 0 && (n > 0 || b.packet.data == []) && Own(b.packet, t) then [b.packet.number] else []
  {
    OwnBegunAppend(w.begun, b.packet, t);
  }

  /** One write moves the packet it begins from the list to those begun. */
  lemma WroteOrder(list: seq<Buf>, wire: Wire, n: nat, t: ThreadId)
    requires list != [] && BufOk(list[0]) && n <= Remaining(list[0])
    ensures var b := list[0];
            OwnBegun(Put(wire, b, n).begun, t)
            + OwnUnsent(if n == Remaining(b) then list[1..] else [Buf(b.packet, b.sent + n)] + list[1..], t)
            == OwnBegun(wire.begun, t) + OwnUnsent(list, t)
  {
    var b, rest := list[0], OwnUnsent(list[1..], t);
    PutBegun(wire, b, n, t);
    assert ([Buf(b.packet, b.sent + n)] + list[1..])[1..] == list[1..];
    Assoc(OwnBegun(wire.begun, t), [b.packet.number], rest);
    assert OwnBegun(wire.begun, t) + [] == OwnBegun(wire.begun, t);
  }

  /** Sending moves packets from the head of the list to those begun, in order. */
  lemma {:induction false} SendListOrder(list: seq<Buf>, wire: Wire, calls: seq<WriteResult>, t: ThreadId)
    requires ListOk(list)
    ensures var r := SendList(list, wire, calls);
            OwnBegun(r.wire.begun, t) + OwnUnsent(r.list, t) == OwnBegun(wire.begun, t) + OwnUnsent(list, t)
    decreases |calls|
  {
    if list != [] && calls != [] {
      match calls[0]
      case WriteInterrupted => SendListOrder(list, wire, calls[1..], t);
      case WriteAgain =>
      case WriteFailed =>
      case Wrote(m) =>
        var b := list[0];
        assert b in list;
        var n: nat := if m < Remaining(b) then m else Remaining(b);
        WroteOrder(list, wire, n, t);
        if n == Remaining(b) {
          SendListOrder(list[1..], Put(wire, b, n), calls[1..], t);
        }
    }
  }

  lemma {:induction false} SendListLow(list: seq<Buf>, wire: Wire, calls: seq<WriteResult>, t: ThreadId)
    requires ListOk(list) && LowOnly(list)
    ensures var r := SendList(list, wire, calls);
            LowOnly(r.list) && OwnBegun(r.wire.begun, t) == OwnBegun(wire.begun, t)
    decreases |calls|
  {
    if list != [] && calls != [] {
      match calls[0]
      case WriteInterrupted => SendListLow(list, wire, calls[1..], t);
      case WriteAgain =>
      case WriteFailed =>
      case Wrote(m) =>
        var b := list[0];
        assert b in list;
        var n: nat := if m < Remaining(b) then m else Remaining(b);
        PutBegun(wire, b, n, t);
        if n == Remaining(b) {
          SendListLow(list[1..], Put(wire, b, n), calls[1..], t);
        }
    }
  }

  lemma {:induction false} LowUnsent(list: seq<Buf>, t: ThreadId)
    requires LowOnly(list)
    ensures OwnUnsent(list, t) == []
  {
    if list != [] {
      LowUnsent(list[1..], t);
    }
  }

  /** Dropping packets from a line keeps it increasing. */
  lemma Dropped(a: seq<nat>, b: seq<nat>, c: seq<nat>, bound: nat)
    requires Increasing(a + b + c) && forall x | x in a + b + c :: x < bound
    ensures Increasing(a + c) && forall x | x in a + c :: x < bound
  {
    var whole := a + b + c;
    forall i, j | 0 <= i < j < |a + c| ensures (a + c)[i] < (a + c)[j] {
      var i' := if i < |a| then i else i + |b|;
      var j' := if j < |a| then j else j + |b|;
      assert whole[i'] == (a + c)[i] && whole[j'] == (a + c)[j];
    }
    forall x | x in a + c ensures x < bound {
      assert x in whole;
    }
  }

  lemma Appended(a: seq<nat>, x: nat)
    requires Increasing(a) && forall y | y in a :: y < x
    ensures Increasing(a + [x])
  {
    forall i, j | 0 <= i < j < |a + [x]| ensures (a + [x])[i] < (a + [x])[j] {
      assert (a + [x])[i] == a[i] && a[i] in a;
      if j < |a| {
        assert (a + [x])[j] == a[j];
      }
    }
  }

  lemma RequestersAfter(senders: map<ThreadId, Sender>, t: ThreadId, x: Sender)
    ensures |Requesters(senders[t := x])| + (if t in senders && senders[t].pc == Requesting then 1 else 0)
         == |Requesters(senders)| + (if x.pc == Requesting then 1 else 0)
  {
    var senders' := senders[t := x];
    forall u ensures u in Requesters(senders') <==> if u == t then x.pc == Requesting else u in Requesters(senders) {
    }
    if x.pc == Requesting {
      assert Requesters(senders') == Requesters(senders) + {t};
    } else {
      assert Requesters(senders') == Requesters(senders) - {t};
    }
  }

  // ---- steps of sending threads keep the invariant -----------------------------------------------

  /** A sender that moves on with its packet, perhaps taking or leaving the lock. */
  lemma MoveInv(st: State, st': State, t: ThreadId)
    requires Inv(st) && t in st.senders && t in st'.senders
    requires st' == Go(st.(lock := st'.lock), t, st'.senders[t].pc)
    requires st.senders[t].pc != Requesting && st'.senders[t].pc != Requesting
    requires HasPacket(st.senders[t].pc) == HasPacket(st'.senders[t].pc)
    requires SenderOk(st', t)
    requires st'.lock == st.lock || (st.lock == None && st'.lock == Some(t)) || (st.lock == Some(t) && st'.lock == None)
    ensures Inv(st')
  {
    RequestersAfter(st.senders, t, st'.senders[t]);
    forall u | u in st'.senders ensures SenderOk(st', u) {
      if u != t {
        assert SenderOk(st, u);
      }
    }
    forall u: ThreadId ensures OrderOk(st', u) {
      assert OrderOk(st, u);
      assert Line(st', u) == Line(st, u);
    }
  }

  lemma FirstInv(st: State, t: ThreadId, to: Pc)
    requires Inv(st) && CanFirst(st, t, to)
    ensures Inv(Go(st, t, to))
  {
    assert SenderOk(st, t);
    if to == Locking {
      NoRequests(st.pipe, t);
    }
    MoveInv(st, Go(st, t, to), t);
  }

  lemma AfterFirstHalfInv(st: State, t: ThreadId)
    requires Inv(st) && CanFirstHalf(st, t)
    ensures Inv(AfterFirstHalf(st, t))
  {
    assert SenderOk(st, t);
    MoveInv(st, AfterFirstHalf(st, t), t);
  }

  lemma TryLockInv(st: State, t: ThreadId)
    requires Inv(st) && CanTryLock(st, t)
    ensures Inv(TryLock(st, t))
  {
    assert SenderOk(st, t);
    MoveInv(st, TryLock(st, t), t);
  }

  lemma CheckInv(st: State, t: ThreadId)
    requires Inv(st) && CanCheck(st, t)
    ensures Inv(Check(st, t))
  {
    assert SenderOk(st, t);
    CheckSender(st, t);
    CheckMoves(st, t);
    MoveInv(st, Check(st, t), t);
  }

  /** The sender keeps what it has seen, and learns what it has just read. */
  lemma CheckSender(st: State, t: ThreadId)
    requires CanCheck(st, t) && SenderOk(st, t)
    ensures SenderOk(Check(st, t), t)
  {
  }

  lemma CheckMoves(st: State, t: ThreadId)
    requires CanCheck(st, t) && SenderOk(st, t)
    ensures Check(st, t) == Go(st.(lock := Check(st, t).lock), t, Check(st, t).senders[t].pc)
    ensures Check(st, t).lock == st.lock || (st.lock == Some(t) && Check(st, t).lock == None)
    ensures var pc := Check(st, t).senders[t].pc; HasPacket(pc) && pc != Requesting
  {
  }

  lemma JoinInv(st: State, t: ThreadId)
    requires Inv(st) && CanJoin(st, t)
    ensures Inv(Join(st, t))
  {
    var st' := Join(st, t);
    RequestersAfter(st.senders, t, st'.senders[t]);
    forall u | u in st'.senders ensures SenderOk(st', u) {
      if u != t {
        assert SenderOk(st, u);
      }
    }
    forall u: ThreadId ensures OrderOk(st', u) {
      assert OrderOk(st, u);
      assert Line(st', u) == Line(st, u);
    }
  }

  lemma BeginOrder(st: State, t: ThreadId, high: bool, data: seq<Byte>, u: ThreadId)
    requires CanBegin(st, t, high) && SenderOk(st, t) && OrderOk(st, u)
    ensures OrderOk(Begin(st, t, high, data), u)
  {
    var st' := Begin(st, t, high, data);
    if u == t && high {
      Appended(Line(st, t), st.senders[t].next);
      assert Line(st', t) == Line(st, t) + [st.senders[t].next];
    } else {
      assert Line(st', u) == Line(st, u);
    }
  }

  lemma BeginInv(st: State, t: ThreadId, high: bool, data: seq<Byte>)
    requires Inv(st) && CanBegin(st, t, high)
    ensures Inv(Begin(st, t, high, data))
  {
    var st' := Begin(st, t, high, data);
    RequestersAfter(st.senders, t, st'.senders[t]);
    assert SenderOk(st, t);
    forall u | u in st'.senders ensures SenderOk(st', u) {
      if u != t {
        assert SenderOk(st, u);
      }
    }
    forall u: ThreadId ensures OrderOk(st', u) {
      assert OrderOk(st, u);
      BeginOrder(st, t, high, data, u);
    }
  }

  lemma RequestWriteSender(st: State, t: ThreadId, u: ThreadId)
    requires CanWantWrite(st, t) && SenderOk(st, t) && u in st.senders && SenderOk(st, u)
    ensures SenderOk(RequestWrite(st, t), u)
  {
    OwnRequestsAppend(st.pipe, WriteRequest, u);
  }

  lemma RequestWriteOrder(st: State, t: ThreadId, u: ThreadId)
    requires CanWantWrite(st, t) && OrderOk(st, u)
    ensures OrderOk(RequestWrite(st, t), u)
  {
    OwnRequestsAppend(st.pipe, WriteRequest, u);
    assert Line(RequestWrite(st, t), u) == Line(st, u);
  }

  lemma RequestWriteInv(st: State, t: ThreadId)
    requires Inv(st) && CanWantWrite(st, t)
    ensures Inv(RequestWrite(st, t))
  {
    var st' := RequestWrite(st, t);
    RequestersAfter(st.senders, t, st'.senders[t]);
    assert SenderOk(st, t);
    forall u | u in st'.senders ensures SenderOk(st', u) {
      assert SenderOk(st, u);
      RequestWriteSender(st, t, u);
    }
    forall u: ThreadId ensures OrderOk(st', u) {
      assert OrderOk(st, u);
      RequestWriteOrder(st, t, u);
    }
    OwnRequestsAppend(st.pipe, WriteRequest, t);
  }

  /** The sending count and the pipe are no part of what a socket keeps in order. */
  lemma OtherFields(st: State, st': State)
    requires WireOk(st) && EventsOk(st.s)
    requires st'.s == st.s.(sending := st'.s.sending)
    requires st'.poller == st.poller || (!st.poller.Dying? && !st'.poller.Dying?)
    ensures WireOk(st') && EventsOk(st'.s)
  {
    if !st.poller.Dying? {
      assert SocketOk(st.s);
      assert CurrentOf(st'.s) == CurrentOf(st.s);
    }
  }

  lemma CountSendingInv(st: State, t: ThreadId)
    requires Inv(st) && CanCount(st, t)
    ensures Inv(CountSending(st, t))
  {
    var st' := CountSending(st, t);
    OtherFields(st, st');
    RequestersAfter(st.senders, t, st'.senders[t]);
    CountSender(st, t);
    SendersKept(st, st', t);
    forall u: ThreadId ensures OrderOk(st', u) {
      assert OrderOk(st, u);
      SameLine(st, st', u);
      OrderKept(st, st', u);
    }
  }

  lemma CountSender(st: State, t: ThreadId)
    requires Inv(st) && CanCount(st, t)
    ensures SenderOk(CountSending(st, t), t)
  {
    assert SenderOk(st, t);
  }

  lemma SameLine(st: State, st': State, u: ThreadId)
    requires st'.s.wire.begun == st.s.wire.begun && st'.s.dw == st.s.dw && st'.s.high == st.s.high
    requires st'.pipe == st.pipe && OwnInHand(st', u) == OwnInHand(st, u)
    ensures Line(st', u) == Line(st, u)
  {
  }

  /** Senders do not see another sender move, nor the sending count. */
  lemma SendersKept(st: State, st': State, t: ThreadId)
    requires AllSendersOk(st)
    requires t in st'.senders && st'.senders == st.senders[t := st'.senders[t]]
    requires st'.s.kind == st.s.kind && st'.s.high == st.s.high && st'.s.dw == st.s.dw && st'.lock == st.lock
    requires forall u | u != t :: OwnRequests(st'.pipe, u) == OwnRequests(st.pipe, u)
    requires SenderOk(st', t)
    ensures AllSendersOk(st')
  {
    forall u | u in st'.senders ensures SenderOk(st', u) {
      if u != t {
        assert SenderOk(st, u);
      }
    }
  }

  lemma RequestSendInv(st: State, t: ThreadId)
    requires Inv(st) && CanRequest(st, t)
    ensures Inv(RequestSend(st, t))
  {
    var st' := RequestSend(st, t);
    var r := SendRequest(st.senders[t].p);
    OtherFields(st, st');
    RequestersAfter(st.senders, t, st'.senders[t]);
    OwnRequestsAppend(st.pipe, r, t);
    RequestSendOthers(st, t);
    SendersKept(st, st', t);
    forall u: ThreadId ensures OrderOk(st', u) {
      assert OrderOk(st, u);
      RequestSendLine(st, t, u);
      OrderKept(st, st', u);
    }
  }

  lemma RequestSendLine(st: State, t: ThreadId, u: ThreadId)
    requires CanRequest(st, t) && st.senders[t].p.sender == t
    ensures Line(RequestSend(st, t), u) == Line(st, u)
  {
    OwnRequestsAppend(st.pipe, SendRequest(st.senders[t].p), u);
  }

  lemma OrderKept(st: State, st': State, u: ThreadId)
    requires OrderOk(st, u) && Line(st', u) == Line(st, u) && NextNumber(st', u) == NextNumber(st, u)
    ensures OrderOk(st', u)
  {
  }

  lemma RequestSendOthers(st: State, t: ThreadId)
    requires Inv(st) && CanRequest(st, t)
    ensures forall u | u != t :: OwnRequests(RequestSend(st, t).pipe, u) == OwnRequests(st.pipe, u)
    ensures SenderOk(RequestSend(st, t), t)
    ensures st.senders[t].p.sender == t
  {
    assert SenderOk(st, t);
    forall u | u != t ensures OwnRequests(RequestSend(st, t).pipe, u) == OwnRequests(st.pipe, u) {
      OwnRequestsAppend(st.pipe, SendRequest(st.senders[t].p), u);
    }
  }

  /** A direct write: outside force_close's unlocked window the peer is between packets,
      so the packet's bytes follow whole packets; and none of the sender's packets is left
      in the pipe, in the direct-write buffer or in the high list. */
  lemma WriteInv(st: State, t: ThreadId, n: nat)
    requires Inv(st) && CanWrite(st, t, n)
    ensures Inv(Write(st, t, n))
  {
    var st' := Write(st, t, n);
    WriteWire(st, t, n);
    WriteEvents(st, t, n);
    RequestersAfter(st.senders, t, st'.senders[t]);
    forall u | u in st'.senders ensures SenderOk(st', u) {
      WriteSender(st, t, n, u);
    }
    assert SenderOk(st, t);
    forall u: ThreadId ensures OrderOk(st', u) {
      assert OrderOk(st, u);
      WriteOrder(st, t, n, u);
    }
  }

  lemma WriteEvents(st: State, t: ThreadId, n: nat)
    requires Inv(st) && CanWrite(st, t, n)
    ensures EventsOk(Write(st, t, n).s)
  {
  }

  lemma WriteSender(st: State, t: ThreadId, n: nat, u: ThreadId)
    requires Inv(st) && CanWrite(st, t, n) && u in st.senders
    ensures SenderOk(Write(st, t, n), u)
  {
    assert SenderOk(st, t);
    assert SenderOk(st, u);
  }

  lemma WriteLine(st: State, t: ThreadId, n: nat, u: ThreadId)
    requires CanWrite(st, t, n) && SenderOk(st, t)
    ensures Line(Write(st, t, n), u) == Line(st, u) && NextNumber(Write(st, t, n), u) == NextNumber(st, u)
  {
    if u == t {
      WriteOwnLine(st, t, n);
    } else {
      WriteOtherLine(st, t, n, u);
    }
  }

  lemma WriteOrder(st: State, t: ThreadId, n: nat, u: ThreadId)
    requires CanWrite(st, t, n) && SenderOk(st, t) && OrderOk(st, u)
    ensures OrderOk(Write(st, t, n), u)
  {
    WriteLine(st, t, n, u);
    OrderKept(st, Write(st, t, n), u);
  }

  /** The parts of the writer's own line, before and after. */
  lemma WriteOwnParts(st: State, t: ThreadId, n: nat)
    requires CanWrite(st, t, n) && SenderOk(st, t)
    ensures var x, x' := Parts(st, t), Parts(Write(st, t, n), t);
            var number := [st.senders[t].p.number];
            && x.1 == [] && x.2 == [] && x.3 == [] && x.4 == number
            && x'.2 == [] && x'.3 == [] && x'.4 == []
            && ((x'.0 == x.0 + number && x'.1 == []) || (x'.0 == x.0 && x'.1 == number))
  {
    var st', p := Write(st, t, n), st.senders[t].p;
    PutBegun(st.s.wire, Buf(p, 0), n, t);
    assert OwnBegun(st.s.wire.begun, t) + [] == OwnBegun(st.s.wire.begun, t);
    if n > 0 || p.data == [] {
      assert OwnDirect(st'.s.dw, t) == [];
    } else {
      assert OwnDirect(st'.s.dw, t) == [p.number];
    }
  }

  lemma WriteOwnLine(st: State, t: ThreadId, n: nat)
    requires CanWrite(st, t, n) && SenderOk(st, t)
    ensures Line(Write(st, t, n), t) == Line(st, t)
  {
    WriteOwnParts(st, t, n);
    Nothings(Parts(st, t).0, [st.senders[t].p.number]);
  }

  lemma Nothings(a: seq<nat>, b: seq<nat>)
    ensures a + [] + [] + [] + b == a + b && a + b + [] + [] + [] == a + b
  {
  }

  lemma WriteOtherLine(st: State, t: ThreadId, n: nat, u: ThreadId)
    requires CanWrite(st, t, n) && SenderOk(st, t) && u != t
    ensures Line(Write(st, t, n), u) == Line(st, u)
  {
    var st', p := Write(st, t, n), st.senders[t].p;
    PutBegun(st.s.wire, Buf(p, 0), n, u);
    assert OwnDirect(st'.s.dw, u) == OwnDirect(st.s.dw, u) == [];
    assert OwnInHand(st', u) == OwnInHand(st, u);
  }

  lemma WriteWire(st: State, t: ThreadId, n: nat)
    requires Inv(st) && CanWrite(st, t, n)
    ensures WireOk(Write(st, t, n))
    ensures !st.poller.Dying? ==> st.s.wire.current == None
  {
    assert SenderOk(st, t);
    var p := st.senders[t].p;
    if !Put(st.s.wire, Buf(p, 0), n).torn {
      PutWhole(st.s.wire, Buf(p, 0), n);
    }
    if !st.poller.Dying? {
      DirectOpen(st.s, p, n);
    }
  }

  lemma DirectOpen(s: Socket, p: Packet, n: nat)
    requires s.kind != Invalid && OpenOk(s) && s.dw == None && !Incomplete(s.high) && n <= |p.data|
    ensures s.wire.current == None
    ensures var s' := s.(wire := Put(s.wire, Buf(p, 0), n));
            if n == |p.data| then OpenOk(s') else OpenOk(s'.(dw := Some(Buf(p, n))))
  {
    PutWhole(s.wire, Buf(p, 0), n);
    assert s.high != [] ==> s.high == [s.high[0]] + s.high[1..];
  }

  // ---- steps of the socket thread keep the invariant ------------------------------------------------

  /** What a step of the socket thread may change under the eyes of the senders. */
  ghost predicate SendersSeeOk(st: State, st': State) {
    && st'.senders == st.senders && st'.lock == st.lock
    && (forall u: ThreadId :: OwnRequests(st.pipe, u) == [] ==> OwnRequests(st'.pipe, u) == [])
    && (st.s.kind == HalfcloseWrite ==> st'.s.kind == HalfcloseWrite || st'.s.kind == Invalid)
    && (st.s.kind == Invalid ==> st'.s.kind == Invalid)
    && (st.lock.Some? ==>
          && (forall u: ThreadId :: OwnRequests(st.pipe, u) == [] && OwnUnsent(st.s.high, u) == [] ==> OwnUnsent(st'.s.high, u) == [])
          && (!Incomplete(st.s.high) ==> !Incomplete(st'.s.high))
          && st'.s.dw == st.s.dw
          && (st.s.kind != Invalid ==> st'.s.kind != Invalid))
  }

  lemma SendersStay(st: State, st': State)
    requires AllSendersOk(st)
    requires SendersSeeOk(st, st')
    ensures AllSendersOk(st')
  {
    forall u | u in st'.senders ensures SenderOk(st', u) {
      assert SenderOk(st, u);
    }
  }

  lemma ControlInv(st: State, r: Request)
    requires Inv(st) && IsControl(r)
    ensures Inv(Control(st, r))
  {
    var st' := Control(st, r);
    OtherFields(st, st');
    forall u: ThreadId ensures OwnRequests(st'.pipe, u) == OwnRequests(st.pipe, u) && PipeCount(st'.pipe) == PipeCount(st.pipe) {
      OwnRequestsAppend(st.pipe, r, u);
    }
    OwnRequestsAppend(st.pipe, r, 0);
    SendersStay(st, st');
    forall u: ThreadId ensures OrderOk(st', u) {
      assert OrderOk(st, u);
      KeptOrder(st, st', u);
    }
  }

  lemma UncountInv(st: State)
    requires Inv(st) && CanUncount(st)
    ensures Inv(Uncount(st))
  {
    var st' := Uncount(st);
    OtherFields(st, st');
    SendersStay(st, st');
    forall u: ThreadId ensures OrderOk(st', u) {
      assert OrderOk(st, u);
      SameLine(st, st', u);
      OrderKept(st, st', u);
    }
  }

  /** dec_sending_ref finds the count positive. */
  lemma UncountPositive(st: State)
    requires Inv(st) && st.poller == Counting
    ensures st.s.sending > 0
  {
  }

  /** A mild operation, perhaps after taking a request other than a package. */
  lemma MildInv(st: State, pipe: seq<Request>, o: Outcome)
    requires Inv(st) && st.poller == Ready && Mild(st.s, o)
    requires forall u: ThreadId :: OwnRequests(pipe, u) == OwnRequests(st.pipe, u)
    requires PipeCount(pipe) == PipeCount(st.pipe)
    ensures Inv(After(st.(pipe := pipe), o))
  {
    var st' := After(st.(pipe := pipe), o);
    MildSocket(st.s, o);
    SendersStay(st, st');
    forall u: ThreadId ensures OrderOk(st', u) {
      assert OrderOk(st, u);
      MildOrder(st, pipe, o, u);
    }
  }

  lemma MildOrder(st: State, pipe: seq<Request>, o: Outcome, u: ThreadId)
    requires OrderOk(st, u) && Mild(st.s, o)
    requires OwnRequests(pipe, u) == OwnRequests(st.pipe, u)
    ensures OrderOk(After(st.(pipe := pipe), o), u)
  {
    if o.Continue? {
      KeptOrder(st, After(st.(pipe := pipe), o), u);
    } else {
      FreedOrder(st, After(st.(pipe := pipe), o), u);
    }
  }

  predicate SameButHigh(st: State, st': State, u: ThreadId) {
    && st'.s.wire.begun == st.s.wire.begun && st'.s.dw == st.s.dw && st'.senders == st.senders
    && OwnRequests(st'.pipe, u) == OwnRequests(st.pipe, u)
  }

  lemma KeptOrder(st: State, st': State, u: ThreadId)
    requires OrderOk(st, u) && SameButHigh(st, st', u) && st'.s.high == st.s.high
    ensures OrderOk(st', u)
  {
    assert OwnInHand(st', u) == OwnInHand(st, u);
    assert Line(st', u) == Line(st, u);
  }

  lemma FreedOrder(st: State, st': State, u: ThreadId)
    requires OrderOk(st, u) && SameButHigh(st, st', u) && st'.s.high == []
    ensures OrderOk(st', u)
  {
    assert OwnInHand(st', u) == OwnInHand(st, u);
    var x := Parts(st, u);
    FiveParts(x.0, x.1, x.2, x.3, x.4);
    Dropped(x.0 + x.1, x.2, x.3 + x.4, NextNumber(st, u));
    FiveParts(x.0, x.1, [], x.3, x.4);
    assert OwnUnsent(st'.s.high, u) == [];
  }

  function Parts(st: State, u: ThreadId): (x: (seq<nat>, seq<nat>, seq<nat>, seq<nat>, seq<nat>))
    ensures Line(st, u) == x.0 + x.1 + x.2 + x.3 + x.4
  {
    (OwnBegun(st.s.wire.begun, u), OwnDirect(st.s.dw, u), OwnUnsent(st.s.high, u), OwnRequests(st.pipe, u), OwnInHand(st, u))
  }

  lemma FiveParts(a: seq<nat>, b: seq<nat>, c: seq<nat>, d: seq<nat>, e: seq<nat>)
    ensures a + b + c + d + e == (a + b) + c + (d + e)
    ensures a + b + c + d + e == a + b + (c + d + e)
    ensures c == [] ==> a + b + c + d + e == (a + b) + (d + e)
    ensures b == [] ==> a + b + c + d + e == a + (c + d + e)
  {
  }

  lemma TakeInv(st: State, choice: bool)
    requires Inv(st) && CanTake(st)
    ensures Inv(Take(st, choice))
  {
    if st.pipe[0].SendRequest? {
      TakeSendInv(st, choice);
    } else {
      PipeTail(st.pipe);
      if st.s.kind == Invalid {
        TakeInvalidInv(st, choice);
      } else {
        var o := match st.pipe[0]
          case CloseRequest(shutdown) => CloseSocket(st.s, shutdown, choice)
          case ResumeRequest => Continue(ResumeSocket(st.s, choice))
          case _ => Continue(if choice then Raise(st.s, Error) else st.s);
        CloseSocketMild(st.s, st.pipe[0].CloseRequest? && st.pipe[0].shutdown, choice);
        ResumeMild(st.s, choice);
        RaiseMild(st.s, Error);
        MildInv(st, st.pipe[1..], o);
        assert Take(st, choice) == After(st.(pipe := st.pipe[1..]), o);
      }
    }
  }

  /** On a closed socket a request does nothing, or is answered by an error. */
  lemma TakeInvalidInv(st: State, choice: bool)
    requires Inv(st) && CanTake(st) && !st.pipe[0].SendRequest? && st.s.kind == Invalid
    ensures Inv(Take(st, choice))
  {
    var st' := Take(st, choice);
    TakeInvalidIs(st, choice);
    TakeInvalidSocket(st.s, choice);
    PipeTail(st.pipe);
    SendersStay(st, st');
    forall u: ThreadId ensures OrderOk(st', u) {
      assert OrderOk(st, u);
      KeptOrder(st, st', u);
    }
  }

  lemma TakeInvalidIs(st: State, choice: bool)
    requires CanTake(st) && !st.pipe[0].SendRequest? && st.s.kind == Invalid
    ensures var st' := Take(st, choice);
            st' == st.(pipe := st.pipe[1..], s := st'.s) && (st'.s == st.s || st'.s == ResumeSocket(st.s, choice))
  {
  }

  lemma PipeTail(pipe: seq<Request>)
    requires pipe != [] && !pipe[0].SendRequest?
    ensures PipeCount(pipe[1..]) == PipeCount(pipe)
    ensures forall u: ThreadId :: OwnRequests(pipe[1..], u) == OwnRequests(pipe, u)
  {
  }

  lemma TakeInvalidSocket(s: Socket, choice: bool)
    requires s.kind == Invalid && SocketOk(s) && EventsOk(s)
    ensures var s' := ResumeSocket(s, choice);
            SocketOk(s') && EventsOk(s') && s' == s.(events := s'.events)
  {
  }

  lemma TakeSendInv(st: State, choice: bool)
    requires Inv(st) && CanTake(st) && st.pipe[0].SendRequest?
    ensures Inv(Take(st, choice))
  {
    var st' := Take(st, choice);
    var p := st.pipe[0].p;
    SendSocketOk(st.s, p);
    TakeSendSocket(st.s, p, choice);
    TakeSendSees(st, choice);
    SendersStay(st, st');
    forall u: ThreadId ensures OrderOk(st', u) {
      assert OrderOk(st, u);
      TakeSendOrder(st, choice, u);
    }
  }

  lemma TakeSendSocket(s: Socket, p: Packet, choice: bool)
    requires SocketOk(s) && SocketOk(SendSocket(s, p)) && EventsOk(s) && LowOnly(s.low)
    requires !s.wire.torn ==> WholePackets(s.wire)
    ensures var s1 := SendSocket(s, p);
            var s' := if choice && s.kind != Invalid then Raise(s1, Error) else s1;
            SocketOk(s') && EventsOk(s') && LowOnly(s'.low) && s'.wire == s.wire && s'.sending == s.sending
  {
    var s1 := SendSocket(s, p);
    assert CurrentOf(Raise(s1, Error)) == CurrentOf(s1);
  }

  lemma TakeSendSees(st: State, choice: bool)
    requires CanTake(st) && st.pipe[0].SendRequest?
    ensures SendersSeeOk(st, Take(st, choice))
  {
    var st' := Take(st, choice);
    var p := st.pipe[0].p;
    forall u: ThreadId
      ensures OwnRequests(st.pipe, u) == [] ==> OwnRequests(st'.pipe, u) == []
      ensures OwnRequests(st.pipe, u) == [] && OwnUnsent(st.s.high, u) == [] ==> OwnUnsent(st'.s.high, u) == []
    {
      OwnUnsentConcat(st.s.high, [Buf(p, 0)], u);
    }
  }

  /** What an accepted package does to its sender's line, and what a refused one does. */
  /** What a package taken from the pipe does to the parts of its sender's line. */
  lemma TakeSendParts(st: State, choice: bool, u: ThreadId)
    requires CanTake(st) && st.pipe[0].SendRequest?
    ensures var st', p := Take(st, choice), st.pipe[0].p;
            var own := if Own(p, u) then [p.number] else [];
            var x, x' := Parts(st, u), Parts(st', u);
            && x.3 == own + x'.3 && x'.0 == x.0 && x'.1 == x.1 && x'.4 == x.4
            && (x'.2 == x.2 || x'.2 == x.2 + own)
            && NextNumber(st', u) == NextNumber(st, u)
  {
    var p := st.pipe[0].p;
    OwnUnsentConcat(st.s.high, [Buf(p, 0)], u);
    assert OwnUnsent([Buf(p, 0)], u) == if Own(p, u) then [p.number] else [];
  }

  lemma TakeSendOrder(st: State, choice: bool, u: ThreadId)
    requires CanTake(st) && st.pipe[0].SendRequest? && OrderOk(st, u)
    ensures OrderOk(Take(st, choice), u)
  {
    var p := st.pipe[0].p;
    var own := if Own(p, u) then [p.number] else [];
    var x, x' := Parts(st, u), Parts(Take(st, choice), u);
    TakeSendParts(st, choice, u);
    if x'.2 == x.2 {
      LineCut(x, own, x'.3, NextNumber(st, u));
    } else {
      MovedPart(x.0 + x.1, x.2, own, x'.3, x.4);
    }
  }

  lemma LineCut(x: (seq<nat>, seq<nat>, seq<nat>, seq<nat>, seq<nat>), own: seq<nat>, more: seq<nat>, bound: nat)
    requires x.3 == own + more
    requires var line := x.0 + x.1 + x.2 + x.3 + x.4; Increasing(line) && forall i | i in line :: i < bound
    ensures var line := x.0 + x.1 + x.2 + more + x.4; Increasing(line) && forall i | i in line :: i < bound
  {
    var a := x.0 + x.1 + x.2;
    Assoc(a, own, more);
    Assoc(a + own, more, x.4);
    Dropped(a, own, more + x.4, bound);
    Assoc(a, more, x.4);
  }

  lemma MovedPart(a: seq<nat>, b: seq<nat>, own: seq<nat>, c: seq<nat>, d: seq<nat>)
    ensures a + b + (own + c) + d == a + (b + own) + c + d
    ensures a + b + (own + c) + d == (a + b) + own + (c + d)
    ensures own == [] ==> a + b + c + d == (a + b) + (c + d)
  {
  }

  lemma FinishCloseInv(st: State)
    requires Inv(st) && CanFinishClose(st)
    ensures Inv(FinishClose(st))
  {
    var st' := FinishClose(st);
    FinishCloseSocket(st);
    SendersStay(st, st');
    forall u: ThreadId ensures OrderOk(st', u) {
      assert OrderOk(st, u);
      FinishCloseOrder(st, u);
    }
  }

  lemma FinishCloseSocket(st: State)
    requires Inv(st) && CanFinishClose(st)
    ensures WireOk(FinishClose(st)) && EventsOk(FinishClose(st).s)
  {
  }

  lemma FinishCloseOrder(st: State, u: ThreadId)
    requires CanFinishClose(st) && OrderOk(st, u)
    ensures OrderOk(FinishClose(st), u)
  {
    var st' := FinishClose(st);
    var x, x' := Parts(st, u), Parts(st', u);
    FiveParts(x.0, x.1, x.2, x.3, x.4);
    Dropped(x.0, x.1, x.2 + x.3 + x.4, NextNumber(st, u));
    FiveParts(x'.0, x'.1, x'.2, x'.3, x'.4);
  }

  /** A write event: the lock is free, so no sender is checking or writing. */
  lemma SendBufferInv(st: State, calls: seq<WriteResult>, drained: Option<Event>)
    requires Inv(st) && CanSendBuffer(st) && LegalDrained(drained)
    ensures Inv(st.(s := SendBuffer(st.s, calls, drained)))
  {
    var st' := st.(s := SendBuffer(st.s, calls, drained));
    SendBufferOk(st.s, calls, drained);
    SendBufferCalm(st.s, calls, drained, 0);
    assert !st'.s.wire.torn ==> WholePackets(st'.s.wire) by {
      SendBufferWhole(st.s, calls, drained);
    }
    SendersStay(st, st');
    forall u: ThreadId ensures OrderOk(st', u) {
      assert OrderOk(st, u);
      SendBufferCalm(st.s, calls, drained, u);
      SendBufferOrder(st, st', u);
    }
  }

  /** What sending leaves alone, and the events it may raise. */
  predicate Calm(s: Socket, s': Socket) {
    && EventsOk(s') && LowOnly(s'.low) && s'.sending == s.sending && s'.dw == None
    && (s'.kind == Invalid ==> s'.high == [])
    && (s.kind == HalfcloseWrite ==> s'.kind == HalfcloseWrite || s'.kind == Invalid)
  }

  lemma CloseWriteCalm(s: Socket)
    requires s.kind != Invalid && EventsOk(s) && LowOnly(s.low) && s.dw == None
    ensures Calm(s, CloseWrite(s))
    ensures CloseWrite(s).wire == s.wire && (CloseWrite(s).kind != Invalid ==> CloseWrite(s).high == s.high)
  {
  }

  /** The branches of the second half of send_buffer_, after the low list was sent. */
  lemma SentLowCalm(s: Socket, r: Sent, drained: Option<Event>, u: ThreadId)
    requires s.kind != Invalid && s.dw == None && s.high == [] && EventsOk(s) && LegalDrained(drained)
    requires ListOk(r.list) && LowOnly(r.list) && (Incomplete(r.list) ==> !r.failed)
    ensures Calm(s, AfterLow(s, r, drained))
    ensures AfterLow(s, r, drained).wire == r.wire && OwnUnsent(AfterLow(s, r, drained).high, u) == []
  {
    var s' := WithSent(s, false, r);
    if r.failed {
      CloseWriteCalm(s');
    } else if Incomplete(r.list) {
      assert [r.list[0]][1..] == [];
    }
  }

  lemma SendLowCalm(s: Socket, calls: seq<WriteResult>, drained: Option<Event>, u: ThreadId)
    requires s.kind != Invalid && OpenOk(s) && s.dw == None && s.high == []
    requires EventsOk(s) && LowOnly(s.low) && LegalDrained(drained)
    ensures ListOk(s.low) && Calm(s, SendLow(s, calls, drained))
    ensures OwnBegun(SendLow(s, calls, drained).wire.begun, u) == OwnBegun(s.wire.begun, u)
    ensures OwnUnsent(SendLow(s, calls, drained).high, u) == []
  {
    LowSent(s, calls);
    SendListLow(s.low, s.wire, calls, u);
    LowStaysOk(s, calls);
    SentLowCalm(s, SendList(s.low, s.wire, calls), drained, u);
  }

  lemma LowStaysOk(s: Socket, calls: seq<WriteResult>)
    requires s.kind != Invalid && OpenOk(s) && s.dw == None && s.high == []
    ensures ListOk(s.low) && ListOk(SendList(s.low, s.wire, calls).list)
  {
    LowSent(s, calls);
    SendListOk(s.low, s.wire, calls);
  }

  lemma SendListsCalm(s: Socket, calls: seq<WriteResult>, drained: Option<Event>, u: ThreadId)
    requires s.kind != Invalid && OpenOk(s) && s.dw == None
    requires EventsOk(s) && LowOnly(s.low) && LegalDrained(drained)
    ensures ListOk(s.high) && ListOk(s.low) && Calm(s, SendLists(s, calls, drained))
    ensures LineSent(s, SendLists(s, calls, drained), u)
  {
    assert OwnBegun(s.wire.begun, u) + [] == OwnBegun(s.wire.begun, u);
    HighSent(s, calls);
    SendListOrder(s.high, s.wire, calls, u);
    var r := SendList(s.high, s.wire, calls);
    var s' := WithSent(s, true, r);
    if r.failed {
      CloseWriteCalm(s');
    } else if s'.high == [] {
      SendLowCalm(s', r.calls, drained, u);
    }
  }

  /** How the line of sender u comes out of sending. */
  predicate LineSent(s: Socket, s': Socket, u: ThreadId) {
    var line := OwnBegun(s.wire.begun, u) + OwnDirect(s.dw, u) + OwnUnsent(s.high, u);
    if s'.kind == Invalid then OwnBegun(s'.wire.begun, u) <= line
    else OwnBegun(s'.wire.begun, u) + OwnUnsent(s'.high, u) == line
  }

  lemma SendBufferCalm(s: Socket, calls: seq<WriteResult>, drained: Option<Event>, u: ThreadId)
    requires s.kind != Invalid && OpenOk(s) && EventsOk(s) && LowOnly(s.low) && LegalDrained(drained)
    ensures ListOk(s.high) && ListOk(s.low) && (s.dw.Some? ==> BufOk(s.dw.value))
    ensures Calm(s, SendBuffer(s, calls, drained)) && LineSent(s, SendBuffer(s, calls, drained), u)
  {
    DirectBufOk(s);
    TakeDirectOk(s);
    TakeDirectLine(s, u);
    TakeDirectCalm(s);
    SendListsCalm(TakeDirect(s), calls, drained, u);
    CalmFrom(s, TakeDirect(s), SendBuffer(s, calls, drained), u);
  }

  lemma CalmFrom(s: Socket, s0: Socket, s': Socket, u: ThreadId)
    requires Calm(s0, s') && s0.kind == s.kind && s0.sending == s.sending
    requires OwnUnsent(s0.high, u) == OwnDirect(s.dw, u) + OwnUnsent(s.high, u) && s0.dw == None
    requires LineSent(s0, s', u) && s0.wire == s.wire
    ensures Calm(s, s') && LineSent(s, s', u)
  {
    FourParts(OwnBegun(s.wire.begun, u), OwnDirect(s.dw, u), OwnUnsent(s.high, u));
    assert OwnBegun(s.wire.begun, u) + [] == OwnBegun(s.wire.begun, u);
  }

  lemma TakeDirectCalm(s: Socket)
    requires EventsOk(s)
    ensures var s0 := TakeDirect(s);
            EventsOk(s0) && s0.low == s.low && s0.kind == s.kind && s0.sending == s.sending && s0.wire == s.wire
  {
  }

  lemma DirectBufOk(s: Socket)
    requires s.kind != Invalid && OpenOk(s)
    ensures ListOk(s.high) && ListOk(s.low) && (s.dw.Some? ==> BufOk(s.dw.value))
  {
    SendBufferOk(s, [], None);
  }

  /** Sending keeps the line of a sender; closing may cut it behind what was begun. */
  lemma SendBufferOrder(st: State, st': State, u: ThreadId)
    requires OrderOk(st, u)
    requires st' == st.(s := st'.s) && st'.s.dw == None
    requires LineSent(st.s, st'.s, u) && (st'.s.kind == Invalid ==> st'.s.high == [])
    ensures OrderOk(st', u)
  {
    var x, x' := Parts(st, u), Parts(st', u);
    var line := x.0 + x.1 + x.2;
    FiveParts(x.0, x.1, x.2, x.3, x.4);
    FourParts(line, x.3, x.4);
    assert x'.1 == [] && x'.3 == x.3 && x'.4 == x.4;
    if st'.s.kind == Invalid {
      var rest := line[|x'.0|..];
      assert line == x'.0 + rest;
      Dropped(x'.0, rest, x.3 + x.4, NextNumber(st, u));
      FiveParts(x'.0, [], [], x'.3, x'.4);
      assert x'.2 == [];
      assert Line(st', u) == x'.0 + (x.3 + x.4);
    } else {
      assert x'.0 + [] + x'.2 == line;
      assert Line(st', u) == Line(st, u);
    }
  }

  lemma FourParts(a: seq<nat>, b: seq<nat>, c: seq<nat>)
    ensures a + b + c == a + (b + c)
  {
  }

  lemma TakeDirectLine(s: Socket, u: ThreadId)
    ensures OwnUnsent(TakeDirect(s).high, u) == OwnDirect(s.dw, u) + OwnUnsent(s.high, u)
  {
    if s.dw.Some? {
      assert ([s.dw.value] + s.high)[1..] == s.high;
    }
  }

  lemma SendBufferWhole(s: Socket, calls: seq<WriteResult>, drained: Option<Event>)
    requires s.kind != Invalid && OpenOk(s)
    ensures ListOk(s.high) && ListOk(s.low) && (s.dw.Some? ==> BufOk(s.dw.value))
    ensures !SendBuffer(s, calls, drained).wire.torn && WholePackets(SendBuffer(s, calls, drained).wire)
  {
    SendBufferOk(s, calls, drained);
    TakeDirectOk(s);
    var s0 := TakeDirect(s);
    HighSent(s0, calls);
    var r := SendList(s0.high, s0.wire, calls);
    if !r.failed && r.list == [] {
      LowSent(WithSent(s0, true, r), r.calls);
    }
  }

  lemma InitInv(st: State)
    requires IsInit(st)
    ensures Inv(st)
  {
    InitSocket(st);
    InitSenders(st);
    InitOrder(st);
    Gathered(st);
  }

  lemma Gathered(st: State)
    requires WireOk(st) && EventsOk(st.s) && st.poller == Ready && st.lock == None && LowOnly(st.s.low)
    requires st.s.sending == PipeCount(st.pipe) + |Requesters(st.senders)|
    requires AllSendersOk(st) && AllOrdersOk(st)
    ensures Inv(st)
  {
  }

  lemma InitSocket(st: State)
    requires IsInit(st)
    ensures WireOk(st) && EventsOk(st.s)
  {
    EmptyIsWhole();
    assert ListSize([]) == 0;
  }

  lemma EmptyIsWhole()
    ensures WholePackets(EmptyWire) && Surplus(EmptyWire)
  {
    assert AllBytes([]) == [];
  }

  lemma InitSenders(st: State)
    requires IsInit(st)
    ensures st.s.sending == PipeCount(st.pipe) + |Requesters(st.senders)|
    ensures AllSendersOk(st)
    ensures LowOnly(st.s.low)
  {
    assert Requesters(st.senders) == {};
  }

  lemma InitOrder(st: State)
    requires IsInit(st)
    ensures AllOrdersOk(st)
  {
    forall t: ThreadId ensures OrderOk(st, t) {
      var x := Parts(st, t);
      assert x.0 == [] && x.1 == [] && x.2 == [] && x.3 == [] && x.4 == [];
    }
  }

  lemma SenderNextInv(st: State, st': State, t: ThreadId)
    requires Inv(st) && SenderNext(st, st', t)
    ensures Inv(st')
  {
    if CanJoin(st, t) && st' == Join(st, t) {
      JoinInv(st, t);
    } else if high, data :| CanBegin(st, t, high) && st' == Begin(st, t, high, data) {
      BeginInv(st, t, high, data);
    } else if to :| CanFirst(st, t, to) && st' == Go(st, t, to) {
      FirstInv(st, t, to);
    } else if CanFirstHalf(st, t) && st' == AfterFirstHalf(st, t) {
      AfterFirstHalfInv(st, t);
    } else if CanTryLock(st, t) && st' == TryLock(st, t) {
      TryLockInv(st, t);
    } else if CanCheck(st, t) && st' == Check(st, t) {
      CheckInv(st, t);
    } else if CanWantWrite(st, t) && st' == RequestWrite(st, t) {
      RequestWriteInv(st, t);
    } else if CanCount(st, t) && st' == CountSending(st, t) {
      CountSendingInv(st, t);
    } else {
      RequestSendInv(st, t);
    }
  }

  lemma ReadNextInv(st: State, st': State, r: ReadResult)
    requires Inv(st) && ReadNext(st, st', r)
    ensures Inv(st')
  {
    var idle :| st' == After(st, ForwardMessage(st.s, r, idle));
    ForwardMild(st.s, r, idle);
    MildInv(st, st.pipe, ForwardMessage(st.s, r, idle));
  }

  lemma NoReadNextInv(st: State, st': State)
    requires Inv(st) && NoReadNext(st, st')
    ensures Inv(st')
  {
    if r :| IsControl(r) && st' == Control(st, r) {
      ControlInv(st, r);
    } else if choice :| CanTake(st) && st' == Take(st, choice) {
      TakeInv(st, choice);
    } else if CanUncount(st) && st' == Uncount(st) {
      UncountInv(st);
    } else if CanEvent(st) && st' == After(st, EndOfFile(st.s)) {
      EndOfFileMild(st.s);
      MildInv(st, st.pipe, EndOfFile(st.s));
    } else if CanEvent(st) && st' == st.(s := Raise(st.s, Error)) {
      RaiseMild(st.s, Error);
      MildInv(st, st.pipe, Continue(Raise(st.s, Error)));
    } else if ok, failed :| CanConnectEvent(st) && st' == After(st, ReportConnect(st.s, ok, failed)) {
      ReportConnectMild(st.s, ok, failed);
      MildInv(st, st.pipe, ReportConnect(st.s, ok, failed));
    } else if calls, drained :| CanSendBuffer(st) && LegalDrained(drained) && st' == st.(s := SendBuffer(st.s, calls, drained)) {
      SendBufferInv(st, calls, drained);
    } else {
      FinishCloseInv(st);
    }
  }

  lemma NextInv(st: State, st': State)
    requires Inv(st) && Next(st, st')
    ensures Inv(st')
  {
    if NoReadNext(st, st') {
      NoReadNextInv(st, st');
    } else if r :| ReadNext(st, st', r) {
      ReadNextInv(st, st', r);
    } else if t :| SenderNext(st, st', t) {
      SenderNextInv(st, st', t);
    } else {
      var t, n :| WriteNext(st, st', t, n);
      WriteInv(st, t, n);
    }
  }

  lemma {:induction false} RunInv(run: seq<State>, i: nat)
    requires IsRun(run) && i < |run|
    ensures Inv(run[i])
  {
    if i == 0 {
      InitInv(run[0]);
    } else {
      RunInv(run, i - 1);
      assert Next(run[i - 1], run[i - 1 + 1]);
      NextInv(run[i - 1], run[i]);
    }
  }

  // ---- what every run keeps ------------------------------------------------------------------------------

  /** SOCKET_CLOSE is raised at most once for the socket, whichever side closes first, and
      no SOCKET_DATA follows it. */
  lemma CloseOnce(run: seq<State>, i: nat)
    requires IsRun(run) && i < |run|
    ensures CloseIsLast(run[i].s.events)
  {
    RunInv(run, i);
  }

  /** Of one thread's high-priority packets, the peer begins to receive them in the order in
      which they were sent, whether they were written directly or queued. */
  lemma SenderOrder(run: seq<State>, i: nat, t: ThreadId)
    requires IsRun(run) && i < |run|
    ensures Increasing(OwnBegun(run[i].s.wire.begun, t))
  {
    RunInv(run, i);
    assert OrderOk(run[i], t);
    var x := Parts(run[i], t);
    Prefix(x.0 + x.1 + x.2 + x.3, x.4);
    Prefix(x.0 + x.1 + x.2, x.3);
    Prefix(x.0 + x.1, x.2);
    Prefix(x.0, x.1);
  }

  lemma Prefix(a: seq<nat>, b: seq<nat>)
    requires Increasing(a + b)
    ensures Increasing(a)
  {
    forall i, j | 0 <= i < j < |a| ensures a[i] < a[j] {
      assert (a + b)[i] == a[i] && (a + b)[j] == a[j];
    }
  }

  /** wb_size is what both lists still have to send, whenever it can be read. */
  lemma WbSizeExact(run: seq<State>, i: nat)
    requires IsRun(run) && i < |run|
    requires run[i].s.kind != Invalid && !run[i].poller.Dying?
    ensures run[i].s.wbSize == ListSize(run[i].s.high) + ListSize(run[i].s.low)
    ensures !Incomplete(run[i].s.low)
  {
    RunInv(run, i);
  }

  /** The assertions of send_buffer_ and raise_uncomplete hold at every writable event of
      every run, whatever its system calls return. */
  lemma AssertionsHold(run: seq<State>, i: nat, calls: seq<WriteResult>)
    requires IsRun(run) && i < |run|
    requires run[i].s.kind != Invalid && !run[i].poller.Dying?
    ensures var s := TakeDirect(run[i].s);
            && !Incomplete(s.low) && ListOk(s.high) && ListOk(s.low)
            && SourceAsserts(s, calls)
  {
    RunInv(run, i);
    TakeDirectOk(run[i].s);
    SendAssertions(TakeDirect(run[i].s), calls);
  }

  /** A direct write of some bytes between the two halves of force_close, when the lists
      just freed had left the peer in the middle of a packet. */
  predicate CutsIn(st: State, t: ThreadId, n: nat) {
    CanWrite(st, t, n) && n > 0 && st.poller.Dying? && st.s.wire.current.Some?
  }

  predicate CutBetween(st: State, st': State, t: ThreadId, n: nat) {
    CutsIn(st, t, n) && st' == Write(st, t, n)
  }

  ghost predicate CutHere(st: State, st': State) {
    exists t, n :: CutBetween(st, st', t, n)
  }

  ghost predicate CutAt(run: seq<State>, j: nat) {
    j + 1 < |run| && CutHere(run[j], run[j + 1])
  }

  ghost predicate SomeCutIn(run: seq<State>, i: nat)
    requires i < |run|
  {
    exists j: nat :: j < i && CutAt(run, j)
  }

  /** The bytes a peer receives are whole packets followed by the start of at most one, if
      and only if no direct write has cut into force_close. */
  lemma WholeUnlessCutIn(run: seq<State>, i: nat)
    requires IsRun(run) && i < |run|
    ensures WholePackets(run[i].s.wire) <==> !SomeCutIn(run, i)
  {
    RunInv(run, i);
    TornExactly(run, i);
    if run[i].s.wire.torn {
      RunSurplus(run, i);
      SurplusNotWhole(run[i].s.wire);
    }
  }

  lemma {:induction false} TornExactly(run: seq<State>, i: nat)
    requires IsRun(run) && i < |run|
    ensures run[i].s.wire.torn <==> SomeCutIn(run, i)
  {
    if i == 0 {
      return;
    }
    TornExactly(run, i - 1);
    RunInv(run, i - 1);
    assert Next(run[i - 1], run[i - 1 + 1]);
    TornStep(run[i - 1], run[i]);
    SomeCutInStep(run, i);
  }

  lemma SomeCutInStep(run: seq<State>, i: nat)
    requires 0 < i < |run|
    ensures SomeCutIn(run, i) <==> SomeCutIn(run, i - 1) || CutAt(run, i - 1)
  {
    if SomeCutIn(run, i) {
      var j: nat :| j < i && CutAt(run, j);
    }
    if SomeCutIn(run, i - 1) {
      var j: nat :| j < i - 1 && CutAt(run, j);
    }
  }

  lemma TornStep(st: State, st': State)
    requires Inv(st) && Next(st, st')
    ensures st'.s.wire.torn <==> st.s.wire.torn || CutHere(st, st')
  {
    forall t, n | CutBetween(st, st', t, n) ensures st'.s.wire.torn {
      WriteTorn(st, t, n);
    }
    if t, n :| WriteNext(st, st', t, n) {
      WriteTorn(st, t, n);
      assert CutsIn(st, t, n) ==> CutBetween(st, st', t, n);
    } else if PollerNext(st, st') {
      PollerNotTorn(st, st');
    } else {
      var t :| SenderNext(st, st', t);
      SenderNotTorn(st, st', t);
    }
  }

  lemma SenderNotTorn(st: State, st': State, t: ThreadId)
    requires SenderNext(st, st', t)
    ensures st'.s.wire == st.s.wire
  {
  }

  lemma WriteTorn(st: State, t: ThreadId, n: nat)
    requires Inv(st) && CanWrite(st, t, n)
    ensures Write(st, t, n).s.wire.torn <==> st.s.wire.torn || CutsIn(st, t, n)
  {
    WriteWire(st, t, n);
  }

  lemma PollerNotTorn(st: State, st': State)
    requires Inv(st) && PollerNext(st, st')
    ensures st'.s.wire.torn == st.s.wire.torn
  {
    if calls, drained :| CanSendBuffer(st) && LegalDrained(drained) && st' == st.(s := SendBuffer(st.s, calls, drained)) {
      SendBufferWhole(st.s, calls, drained);
    } else {
      PollerWire(st, st');
    }
  }

  lemma PollerWire(st: State, st': State)
    requires PollerNext(st, st')
    requires !exists calls, drained :: CanSendBuffer(st) && LegalDrained(drained) && st' == st.(s := SendBuffer(st.s, calls, drained))
    ensures st'.s.wire == st.s.wire
  {
    if choice :| CanTake(st) && st' == Take(st, choice) {
      TakeWire(st, choice);
    } else if r :| ReadNext(st, st', r) {
      var idle :| st' == After(st, ForwardMessage(st.s, r, idle));
      ForwardWire(st.s, r, idle);
    }
  }

  lemma TakeWire(st: State, choice: bool)
    requires CanTake(st)
    ensures Take(st, choice).s.wire == st.s.wire
  {
  }

  lemma ForwardWire(s: Socket, r: ReadResult, idle: bool)
    ensures ForwardMessage(s, r, idle).s.wire == s.wire
  {
  }

  // ---- a torn packet shows in the bytes --------------------------------------------------------------

  /** The packet that the peer is in the middle of is begun and not finished; and once a
      packet is torn, there are more bytes than the packets account for. */
  predicate Surplus(w: Wire) {
    && (w.current.Some? ==> 0 < w.current.value.sent < |w.current.value.packet.data|)
    && (w.torn ==> |w.bytes| > |AllBytes(w.finished)| + |Begun(w)|)
  }

  lemma SurplusNotWhole(w: Wire)
    requires Surplus(w) && w.torn
    ensures !WholePackets(w)
  {
  }

  /** Writing from the start of a packet adds the bytes of that packet, over those of the
      packet it may break into. */
  lemma PutSurplus(w: Wire, p: Packet, n: nat)
    requires n <= |p.data| && Surplus(w) && (!w.torn ==> WholePackets(w))
    ensures Surplus(Put(w, Buf(p, 0), n))
  {
    assert (w.finished + [p])[..|w.finished|] == w.finished;
  }

  /** Any write leaves the peer in the middle of a packet that is begun, or of none. */
  lemma PutCurrent(w: Wire, b: Buf, n: nat)
    requires b.sent + n <= |b.packet.data| && Surplus(w) && !Put(w, b, n).torn
    ensures Surplus(Put(w, b, n))
  {
  }

  lemma {:induction false} SendListSurplus(list: seq<Buf>, wire: Wire, calls: seq<WriteResult>)
    requires ListOk(list) && Surplus(wire) && !SendList(list, wire, calls).wire.torn
    ensures Surplus(SendList(list, wire, calls).wire)
    decreases |calls|
  {
    if list != [] && calls != [] {
      match calls[0]
      case WriteInterrupted => SendListSurplus(list, wire, calls[1..]);
      case WriteAgain =>
      case WriteFailed =>
      case Wrote(m) =>
        var b := list[0];
        assert b in list;
        var n: nat := if m < Remaining(b) then m else Remaining(b);
        if n == Remaining(b) {
          TornStays(list[1..], Put(wire, b, n), calls[1..]);
          PutCurrent(wire, b, n);
          SendListSurplus(list[1..], Put(wire, b, n), calls[1..]);
        } else {
          PutCurrent(wire, b, n);
        }
    }
  }

  lemma {:induction false} TornStays(list: seq<Buf>, wire: Wire, calls: seq<WriteResult>)
    requires ListOk(list)
    ensures wire.torn ==> SendList(list, wire, calls).wire.torn
    decreases |calls|
  {
    if list != [] && calls != [] {
      match calls[0]
      case WriteInterrupted => TornStays(list, wire, calls[1..]);
      case WriteAgain =>
      case WriteFailed =>
      case Wrote(m) =>
        var b := list[0];
        assert b in list;
        var n: nat := if m < Remaining(b) then m else Remaining(b);
        if n == Remaining(b) {
          TornStays(list[1..], Put(wire, b, n), calls[1..]);
        }
    }
  }

  lemma SendLowSurplus(s: Socket, calls: seq<WriteResult>, drained: Option<Event>)
    requires s.kind != Invalid && OpenOk(s) && s.dw == None && s.high == [] && Surplus(s.wire)
    ensures ListOk(s.low) && Surplus(SendLow(s, calls, drained).wire)
  {
    LowSent(s, calls);
    SendListOk(s.low, s.wire, calls);
    SendListSurplus(s.low, s.wire, calls);
  }

  lemma SendListsSurplus(s: Socket, calls: seq<WriteResult>, drained: Option<Event>)
    requires s.kind != Invalid && OpenOk(s) && s.dw == None && Surplus(s.wire)
    ensures ListOk(s.high) && ListOk(s.low) && Surplus(SendLists(s, calls, drained).wire)
  {
    HighSent(s, calls);
    SendListOk(s.high, s.wire, calls);
    SendListSurplus(s.high, s.wire, calls);
    var r := SendList(s.high, s.wire, calls);
    var s1 := WithSent(s, true, r);
    if !r.failed && s1.high == [] {
      SendLowSurplus(s1, r.calls, drained);
    }
  }

  lemma SendBufferSurplus(s: Socket, calls: seq<WriteResult>, drained: Option<Event>)
    requires s.kind != Invalid && OpenOk(s) && Surplus(s.wire)
    ensures ListOk(s.high) && ListOk(s.low) && (s.dw.Some? ==> BufOk(s.dw.value))
    ensures Surplus(SendBuffer(s, calls, drained).wire)
  {
    DirectBufOk(s);
    TakeDirectOk(s);
    SendListsSurplus(TakeDirect(s), calls, drained);
  }

  lemma NextSurplus(st: State, st': State)
    requires Inv(st) && Next(st, st') && Surplus(st.s.wire)
    ensures Surplus(st'.s.wire)
  {
    if t, n :| WriteNext(st, st', t, n) {
      PutSurplus(st.s.wire, st.senders[t].p, n);
    } else if PollerNext(st, st') {
      PollerSurplus(st, st');
    } else {
      var t :| SenderNext(st, st', t);
      SenderNotTorn(st, st', t);
    }
  }

  lemma PollerSurplus(st: State, st': State)
    requires Inv(st) && PollerNext(st, st') && Surplus(st.s.wire)
    ensures Surplus(st'.s.wire)
  {
    if calls, drained :| CanSendBuffer(st) && LegalDrained(drained) && st' == st.(s := SendBuffer(st.s, calls, drained)) {
      SendBufferSurplus(st.s, calls, drained);
    } else {
      PollerWire(st, st');
    }
  }

  lemma {:induction false} RunSurplus(run: seq<State>, i: nat)
    requires IsRun(run) && i < |run|
    ensures Surplus(run[i].s.wire)
  {
    if i > 0 {
      RunSurplus(run, i - 1);
      RunInv(run, i - 1);
      assert Next(run[i - 1], run[i - 1 + 1]);
      NextSurplus(run[i - 1], run[i]);
    }
  }

  // ---- a run that tears a packet ----------------------------------------------------------------------

  ghost predicate Reachable(st: State) {
    exists run :: IsRun(run) && run[|run| - 1] == st
  }

  lemma ReachInit(st: State)
    requires IsInit(st)
    ensures Reachable(st)
  {
    var run := [st];
    assert IsRun(run) && run[|run| - 1] == st;
  }

  lemma Reach(st: State, st': State)
    requires Reachable(st) && Next(st, st')
    ensures Reachable(st')
  {
    var run :| IsRun(run) && run[|run| - 1] == st;
    var run' := run + [st'];
    forall i | 0 <= i < |run'| - 1 ensures Next(run'[i], run'[i + 1]) {
      if i < |run| - 1 {
        assert run'[i] == run[i] && run'[i + 1] == run[i + 1];
        assert Next(run[i], run[i + 1]);
      }
    }
    assert run'[|run'| - 1] == st';
  }

  lemma ReachBy(st: State, st': State, t: ThreadId)
    requires Reachable(st) && SenderNext(st, st', t)
    ensures Reachable(st')
  {
    Reach(st, st');
  }

  /** A sender's low-priority packet of two bytes is in the pipe. */
  lemma Requested(p: Packet) returns (st: State)
    requires p == Packet(1, 0, false, [7, 7])
    ensures Reachable(st) && st.poller == Ready && st.lock == None && st.pipe == [SendRequest(p)]
    ensures st.s == Socket(Connected, false, [], [], 0, None, 1, EmptyWire, [])
    ensures st.senders.Keys == {1}
  {
    st := State(Socket(Connected, false, [], [], 0, None, 0, EmptyWire, []), None, [], Ready, map[]);
    ReachInit(st);
    ReachBy(st, Join(st, 1), 1);
    st := Join(st, 1);
    ReachBy(st, Begin(st, 1, false, [7, 7]), 1);
    st := Begin(st, 1, false, [7, 7]);
    ReachBy(st, CountSending(st, 1), 1);
    st := CountSending(st, 1);
    ReachBy(st, RequestSend(st, 1), 1);
    st := RequestSend(st, 1);
  }

  lemma Taken(st: State, p: Packet) returns (st': State)
    requires Reachable(st) && st.poller == Ready && st.pipe == [SendRequest(p)]
    requires st.s == Socket(Connected, false, [], [], 0, None, 1, EmptyWire, [])
    ensures Reachable(st') && st'.poller == Ready && st'.pipe == [] && st'.lock == st.lock && st'.senders == st.senders
    ensures st'.s == Socket(Connected, false, [Buf(p, 0)], [], |p.data|, None, 0, EmptyWire, [])
  {
    Reach(st, Take(st, false));
    var st1 := Take(st, false);
    Reach(st1, Uncount(st1));
    st' := Uncount(st1);
  }

  /** A packet of two bytes has gone out by one byte, and a second sender has joined. */
  lemma HalfSent() returns (st: State)
    ensures Reachable(st) && st.poller == Ready && st.pipe == [] && st.lock == None
    ensures st.s.kind == Connected && !st.s.closing && st.s.dw == None && st.s.sending == 0
    ensures st.s.low == [] && st.s.wire.current.Some?
    ensures At(st, 2, Idle)
  {
    var p := Packet(1, 0, false, [7, 7]);
    st := Requested(p);
    st := Taken(st, p);
    st := OneByteOut(st, p);
    ReachBy(st, Join(st, 2), 2);
    st := Join(st, 2);
  }

  lemma OneByteOut(st: State, p: Packet) returns (st': State)
    requires Reachable(st) && CanEvent(st) && st.lock == None && |p.data| == 2
    requires st.s.high == [Buf(p, 0)] && st.s.low == [] && st.s.dw == None
    ensures Reachable(st') && st'.s.wire.current.Some? && st'.s.low == []
    ensures st' == st.(s := st.s.(high := st'.s.high, wire := st'.s.wire, wbSize := st'.s.wbSize))
  {
    var calls := [Wrote(1)];
    assert CanSendBuffer(st) && LegalDrained(None);
    st' := st.(s := SendBuffer(st.s, calls, None));
    var r := SendList(st.s.high, st.s.wire, calls);
    assert r.list == [Buf(p, 1)] && r.wire.current == Some(Buf(p, 1)) && !r.failed;
    assert PollerNext(st, st');
    Reach(st, st');
  }

  /** A sender has passed all checks between the two halves of a force_close that freed a
      begun packet. */
  lemma InWindow() returns (st: State)
    ensures Reachable(st) && CanWrite(st, 2, 1) && CutsIn(st, 2, 1)
  {
    st := HalfSent();
    ReachBy(st, Begin(st, 2, true, [9]), 2);
    st := Begin(st, 2, true, [9]);
    assert CanFirst(st, 2, Locking);
    ReachBy(st, Go(st, 2, Locking), 2);
    st := Go(st, 2, Locking);
    ReachBy(st, TryLock(st, 2), 2);
    st := TryLock(st, 2);
    st := ShutDown(st);
    st := CheckedInWindow(st);
  }

  /** A shutdown request comes through the pipe, and the lists are freed. */
  lemma ShutDown(st: State) returns (st': State)
    requires Reachable(st) && st.poller == Ready && st.pipe == [] && st.s.kind == Connected
    ensures Reachable(st') && st'.poller.Dying? && st'.senders == st.senders && st'.lock == st.lock
    ensures st'.s == st.s.(high := [], low := [])
  {
    assert IsControl(CloseRequest(true));
    Reach(st, Control(st, CloseRequest(true)));
    st' := Control(st, CloseRequest(true));
    Reach(st', Take(st', false));
    st' := Take(st', false);
  }

  /** The property fails: a sender that checks the lists just freed by force_close, before
      the socket is marked invalid, writes into the middle of a packet. */
  lemma TornIsReachable()
    ensures exists st :: Reachable(st) && !WholePackets(st.s.wire)
  {
    var st := InWindow();
    RunOf(st);
    WriteTorn(st, 2, 1);
    assert WriteNext(st, Write(st, 2, 1), 2, 1);
    Reach(st, Write(st, 2, 1));
    SurplusOf(Write(st, 2, 1));
    SurplusNotWhole(Write(st, 2, 1).s.wire);
  }

  lemma CheckedInWindow(st: State) returns (st': State)
    requires Reachable(st) && At(st, 2, High2) && st.s.high == [] && st.s.low == []
    requires st.s.dw == None && st.s.sending == 0 && st.s.kind == Connected && |st.senders[2].p.data| == 1
    ensures Reachable(st') && CanWrite(st', 2, 1)
    ensures st'.poller == st.poller && st'.s == st.s
  {
    st' := st;
    var i := 0;
    while i < 5
      invariant 0 <= i <= 5 && Reachable(st') && 2 in st'.senders && st'.s == st.s && st'.poller == st.poller
      invariant st'.senders[2] == st.senders[2].(pc := [High2, Low2, Dw2, Sending2, Type2, Writing][i])
    {
      ReachBy(st', Check(st', 2), 2);
      st' := Check(st', 2);
      i := i + 1;
    }
  }

  lemma RunOf(st: State)
    requires Reachable(st)
    ensures Inv(st)
  {
    var run :| IsRun(run) && run[|run| - 1] == st;
    RunInv(run, |run| - 1);
  }

  lemma SurplusOf(st: State)
    requires Reachable(st)
    ensures Surplus(st.s.wire)
  {
    var run :| IsRun(run) && run[|run| - 1] == st;
    RunSurplus(run, |run| - 1);
  }
}
