/** What becomes of the packets that a socket takes and of the bytes that it reads, over
    all runs of `TcpProtocol`. */
module TcpDelivery {
  import opened Prelude
  import opened TcpSocket
  import opened TcpProtocol

  // ---- where packets are ----------------------------------------------------------------------

  function Packets(list: seq<Buf>): multiset<Packet> {
    if list == [] then multiset{} else multiset{list[0].packet} + Packets(list[1..])
  }

  function DirectPacket(dw: Option<Buf>): multiset<Packet> {
    if dw.Some? then multiset{dw.value.packet} else multiset{}
  }

  /** The packets that a socket has finished, or still has in a list or in the direct-write
      buffer. */
  function Places(s: Socket): multiset<Packet> {
    multiset(s.wire.finished) + Packets(s.high) + Packets(s.low) + DirectPacket(s.dw)
  }

  lemma {:induction false} PacketsAppend(list: seq<Buf>, b: Buf)
    ensures Packets(list + [b]) == Packets(list) + multiset{b.packet}
  {
    if list == [] {
      assert list + [b] == [b];
    } else {
      assert (list + [b])[1..] == list[1..] + [b];
      PacketsAppend(list[1..], b);
    }
  }

  lemma PutPlaces(w: Wire, b: Buf, n: nat)
    requires b.sent + n <= |b.packet.data|
    ensures multiset(Put(w, b, n).finished) ==
            multiset(w.finished) + if b.sent + n == |b.packet.data| then multiset{b.packet} else multiset{}
  {
  }

  lemma {:induction false} SendListPlaces(list: seq<Buf>, wire: Wire, calls: seq<WriteResult>)
    requires ListOk(list)
    ensures var r := SendList(list, wire, calls);
            multiset(r.wire.finished) + Packets(r.list) == multiset(wire.finished) + Packets(list)
    decreases |calls|
  {
    if list != [] && calls != [] {
      match calls[0]
      case WriteInterrupted => SendListPlaces(list, wire, calls[1..]);
      case WriteAgain =>
      case WriteFailed =>
      case Wrote(m) =>
        var b := list[0];
        assert b in list;
        var n: nat := if m < Remaining(b) then m else Remaining(b);
        PutPlaces(wire, b, n);
        assert ([Buf(b.packet, b.sent + n)] + list[1..])[1..] == list[1..];
        if n == Remaining(b) {
          SendListPlaces(list[1..], Put(wire, b, n), calls[1..]);
        }
    }
  }

  lemma CloseWritePlaces(s: Socket)
    ensures CloseWrite(s).kind != Invalid ==> Places(CloseWrite(s)) == Places(s)
  {
  }

  lemma LowPlaces(s: Socket, calls: seq<WriteResult>)
    requires ListOk(s.low)
    ensures Places(WithSent(s, false, SendList(s.low, s.wire, calls))) == Places(s)
  {
    SendListPlaces(s.low, s.wire, calls);
    var r := SendList(s.low, s.wire, calls);
    var high, direct := Packets(s.high), DirectPacket(s.dw);
    Swapped(multiset(r.wire.finished), high, Packets(r.list), direct);
    Swapped(multiset(s.wire.finished), high, Packets(s.low), direct);
  }

  lemma Swapped(a: multiset<Packet>, b: multiset<Packet>, c: multiset<Packet>, d: multiset<Packet>)
    ensures a + b + c + d == (a + c) + (b + d)
  {
  }

  lemma RaisePlaces(s: Socket)
    requires s.low != [] && s.high == []
    ensures Places(RaiseUncomplete(s)) == Places(s)
  {
    assert [s.low[0]][1..] == [];
    assert Packets([s.low[0]]) == multiset{s.low[0].packet};
  }

  lemma SendLowPlaces(s: Socket, calls: seq<WriteResult>, drained: Option<Event>)
    requires ListOk(s.low) && s.high == []
    ensures SendLow(s, calls, drained).kind != Invalid ==> Places(SendLow(s, calls, drained)) == Places(s)
  {
    LowPlaces(s, calls);
    var r := SendList(s.low, s.wire, calls);
    var s' := WithSent(s, false, r);
    if r.failed {
      CloseWritePlaces(s');
    } else if Incomplete(s'.low) {
      RaisePlaces(s');
    }
  }

  lemma HighPlaces(s: Socket, calls: seq<WriteResult>)
    requires ListOk(s.high)
    ensures Places(WithSent(s, true, SendList(s.high, s.wire, calls))) == Places(s)
  {
    SendListPlaces(s.high, s.wire, calls);
  }

  lemma SendListsPlaces(s: Socket, calls: seq<WriteResult>, drained: Option<Event>)
    requires ListOk(s.high) && ListOk(s.low)
    ensures SendLists(s, calls, drained).kind != Invalid ==> Places(SendLists(s, calls, drained)) == Places(s)
  {
    HighPlaces(s, calls);
    var r := SendList(s.high, s.wire, calls);
    var s' := WithSent(s, true, r);
    if r.failed {
      CloseWritePlaces(s');
    } else if s'.high == [] {
      SendLowPlaces(s', r.calls, drained);
    }
  }

  lemma TakeDirectPlaces(s: Socket)
    ensures Places(TakeDirect(s)) == Places(s)
  {
    if s.dw.Some? {
      assert ([s.dw.value] + s.high)[1..] == s.high;
    }
  }

  /** Sending loses no packet and makes none: packets are only finished. */
  lemma SendBufferPlaces(s: Socket, calls: seq<WriteResult>, drained: Option<Event>)
    requires ListOk(s.high) && ListOk(s.low) && (s.dw.Some? ==> BufOk(s.dw.value))
    ensures SendBuffer(s, calls, drained).kind != Invalid ==> Places(SendBuffer(s, calls, drained)) == Places(s)
  {
    TakeDirectPlaces(s);
    SendListsPlaces(TakeDirect(s), calls, drained);
  }

  // ---- packets taken ------------------------------------------------------------------------------

  /** The lists of the socket are not freed. */
  predicate InUse(st: State) { st.s.kind != Invalid && !st.poller.Dying? }

  /** The socket thread takes a package out of the pipe. */
  predicate TakesPackage(st: State, st': State) {
    st.poller == Ready && st'.poller == Counting && st.pipe != [] && st.pipe[0].SendRequest?
  }

  /** Thread t finishes its attempt to write its packet directly. */
  predicate WritesDirectly(st: State, st': State, t: ThreadId) {
    && t in st.senders && t in st'.senders
    && st.senders[t].pc == Writing && st'.senders[t].pc != Writing
  }

  /** The packets that the socket accepts in one step. */
  ghost function Accepted(st: State, st': State): multiset<Packet> {
    if TakesPackage(st, st') then
      if st.s.kind in {Invalid, HalfcloseWrite, Paccept} || st.s.closing then multiset{}
      else multiset{st.pipe[0].p}
    else if t :| WritesDirectly(st, st', t) then multiset{st.senders[t].p}
    else multiset{}
  }

  lemma WriteAccepted(st: State, t: ThreadId, n: nat)
    requires CanWrite(st, t, n)
    ensures Accepted(st, Write(st, t, n)) == multiset{st.senders[t].p}
  {
    var st' := Write(st, t, n);
    assert WritesDirectly(st, st', t);
    forall u | WritesDirectly(st, st', u) ensures u == t {
    }
  }

  lemma WritePlaces(st: State, t: ThreadId, n: nat)
    requires CanWrite(st, t, n) && st.s.dw == None
    ensures Places(Write(st, t, n).s) == Places(st.s) + multiset{st.senders[t].p}
  {
    PutPlaces(st.s.wire, Buf(st.senders[t].p, 0), n);
  }

  lemma SenderAccepts(st: State, st': State, t: ThreadId)
    requires SenderNext(st, st', t)
    ensures st'.s == st.s.(sending := st'.s.sending) && st'.poller == st.poller
    ensures forall u :: !WritesDirectly(st, st', u)
  {
  }

  lemma SenderPlaces(st: State, st': State, t: ThreadId)
    requires SenderNext(st, st', t)
    ensures Places(st'.s) == Places(st.s) && Accepted(st, st') == multiset{}
  {
    SenderAccepts(st, st', t);
  }

  lemma SendSocketPlaces(s: Socket, p: Packet)
    ensures Places(SendSocket(s, p)) == Places(s) +
            if s.kind in {Invalid, HalfcloseWrite, Paccept} || s.closing then multiset{} else multiset{p}
  {
    PacketsAppend(s.high, Buf(p, 0));
    PacketsAppend(s.low, Buf(p, 0));
  }

  lemma TakeSendPlaces(st: State, choice: bool)
    requires CanTake(st) && st.pipe[0].SendRequest?
    ensures Places(Take(st, choice).s) == Places(st.s) + Accepted(st, Take(st, choice))
  {
    SendSocketPlaces(st.s, st.pipe[0].p);
    var sent := SendSocket(st.s, st.pipe[0].p);
    assert Places(Raise(sent, Error)) == Places(sent);
  }

  /** Other steps of the socket thread that leave senders alone accept nothing. */
  lemma NothingAccepted(st: State, st': State)
    requires !TakesPackage(st, st') && st'.senders == st.senders
    ensures Accepted(st, st') == multiset{}
  {
  }

  lemma MildPlaces(st: State, pipe: seq<Request>, o: Outcome)
    requires Mild(st.s, o) && InUse(After(st.(pipe := pipe), o))
    ensures Places(After(st.(pipe := pipe), o).s) == Places(st.s)
  {
  }

  lemma ReadPlaces(st: State, st': State, r: ReadResult)
    requires EventsOk(st.s) && ReadNext(st, st', r) && InUse(st')
    ensures Places(st'.s) == Places(st.s) && Accepted(st, st') == multiset{}
  {
    var idle :| st' == After(st, ForwardMessage(st.s, r, idle));
    ForwardMild(st.s, r, idle);
    MildPlaces(st, st.pipe, ForwardMessage(st.s, r, idle));
    NothingAccepted(st, st');
  }

  lemma TakeClosePlaces(st: State, choice: bool)
    requires EventsOk(st.s) && CanTake(st) && st.pipe[0].CloseRequest? && InUse(Take(st, choice))
    ensures Places(Take(st, choice).s) == Places(st.s)
  {
    if st.s.kind != Invalid {
      CloseSocketMild(st.s, st.pipe[0].shutdown, choice);
      MildPlaces(st, st.pipe[1..], CloseSocket(st.s, st.pipe[0].shutdown, choice));
    }
  }

  predicate SameBuffers(s: Socket, s': Socket) {
    s'.wire == s.wire && s'.high == s.high && s'.low == s.low && s'.dw == s.dw
  }

  lemma SamePlaces(s: Socket, s': Socket)
    requires SameBuffers(s, s')
    ensures Places(s') == Places(s)
  {
  }

  lemma TakeOther(st: State, choice: bool)
    requires CanTake(st) && !st.pipe[0].SendRequest? && !st.pipe[0].CloseRequest?
    ensures SameBuffers(st.s, Take(st, choice).s)
  {
  }

  lemma TakePlaces(st: State, choice: bool)
    requires EventsOk(st.s) && CanTake(st) && InUse(Take(st, choice))
    ensures Places(Take(st, choice).s) == Places(st.s) + Accepted(st, Take(st, choice))
  {
    var st' := Take(st, choice);
    if st.pipe[0].SendRequest? {
      TakeSendPlaces(st, choice);
    } else {
      NothingAccepted(st, st');
      if st.pipe[0].CloseRequest? {
        TakeClosePlaces(st, choice);
      } else {
        TakeOther(st, choice);
        SamePlaces(st.s, st'.s);
      }
    }
  }

  lemma ConnectKeeps(st: State, ok: bool, failed: bool)
    requires CanConnectEvent(st) && InUse(After(st, ReportConnect(st.s, ok, failed)))
    ensures SameBuffers(st.s, After(st, ReportConnect(st.s, ok, failed)).s)
  {
  }

  /** A step of the socket thread that takes no request. */
  ghost predicate EventNext(st: State, st': State) {
    NoReadNext(st, st') && !(CanTake(st) && exists choice :: st' == Take(st, choice))
  }

  lemma EventAccepts(st: State, st': State)
    requires EventNext(st, st')
    ensures Accepted(st, st') == multiset{}
  {
    NothingAccepted(st, st');
  }

  ghost predicate SendsBuffer(st: State, st': State) {
    CanSendBuffer(st) && exists calls, drained :: LegalDrained(drained) && st' == st.(s := SendBuffer(st.s, calls, drained))
  }

  lemma EventKeeps(st: State, st': State)
    requires EventNext(st, st') && InUse(st') && !SendsBuffer(st, st')
    ensures SameBuffers(st.s, st'.s)
  {
    if ok, failed :| CanConnectEvent(st) && st' == After(st, ReportConnect(st.s, ok, failed)) {
      ConnectKeeps(st, ok, failed);
    }
  }

  lemma EventPlaces(st: State, st': State)
    requires EventNext(st, st') && InUse(st')
    ensures Places(st'.s) == Places(st.s)
  {
    if SendsBuffer(st, st') {
      var calls, drained :| LegalDrained(drained) && st' == st.(s := SendBuffer(st.s, calls, drained));
      SendBufferPlaces(st.s, calls, drained);
    } else {
      EventKeeps(st, st');
      SamePlaces(st.s, st'.s);
    }
  }

  lemma StaysInUse(st: State, st': State)
    requires Next(st, st') && InUse(st')
    ensures InUse(st)
  {
    if t :| SenderNext(st, st', t) {
      SenderAccepts(st, st', t);
    } else if choice :| CanTake(st) && st' == Take(st, choice) {
      TakeKind(st, choice);
    }
  }

  lemma TakeKind(st: State, choice: bool)
    requires CanTake(st)
    ensures st.s.kind == Invalid ==> Take(st, choice).s.kind == Invalid
  {
  }

  lemma WriterPlaces(st: State, st': State, t: ThreadId, n: nat)
    requires WriteNext(st, st', t, n) && st.s.dw == None
    ensures Places(st'.s) == Places(st.s) + Accepted(st, st')
  {
    WritePlaces(st, t, n);
    WriteAccepted(st, t, n);
  }

  lemma NoDirect(st: State)
    requires Inv(st)
    ensures forall t :: At(st, t, Writing) ==> st.s.dw == None
  {
    if t :| At(st, t, Writing) {
      assert SenderOk(st, t);
    }
  }

  /** Each step of a run keeps every packet in its place or moves it on, and adds what the
      socket accepts; a socket that is given up is not used again. */
  lemma StepPlaces(st: State, st': State)
    requires EventsOk(st.s) && Next(st, st') && InUse(st')
    requires forall t :: At(st, t, Writing) ==> st.s.dw == None
    ensures Places(st'.s) == Places(st.s) + Accepted(st, st')
  {
    if t, n :| WriteNext(st, st', t, n) {
      WriterPlaces(st, st', t, n);
    } else if t :| SenderNext(st, st', t) {
      SenderPlaces(st, st', t);
    } else if r :| ReadNext(st, st', r) {
      ReadPlaces(st, st', r);
    } else if choice :| CanTake(st) && st' == Take(st, choice) {
      TakePlaces(st, choice);
    } else {
      EventPlaces(st, st');
      EventAccepts(st, st');
    }
  }

  /** All that the socket has accepted in the first i steps of a run. */
  ghost function AllAccepted(run: seq<State>, i: nat): multiset<Packet>
    requires i < |run|
  {
    if i == 0 then multiset{} else AllAccepted(run, i - 1) + Accepted(run[i - 1], run[i])
  }

  /** While its lists are not freed, what a socket has accepted, of either priority and
      whether queued or written directly, is finished or still in a list or in the
      direct-write buffer, each packet once. */
  lemma {:induction false} AcceptedIsKept(run: seq<State>, i: nat)
    requires IsRun(run) && i < |run| && InUse(run[i])
    ensures Places(run[i].s) == AllAccepted(run, i)
  {
    if i > 0 {
      RunInv(run, i - 1);
      assert Next(run[i - 1], run[i - 1 + 1]);
      StaysInUse(run[i - 1], run[i]);
      NoDirect(run[i - 1]);
      StepPlaces(run[i - 1], run[i]);
      AcceptedIsKept(run, i - 1);
    }
  }

  lemma AcceptedStep(run: seq<State>, i: nat)
    requires 0 < i < |run|
    ensures AllAccepted(run, i - 1) <= AllAccepted(run, i)
  {
  }

  lemma {:induction false} Growing(sums: seq<multiset<Packet>>, j: nat, i: nat)
    requires j <= i < |sums| && forall k :: 0 < k < |sums| ==> sums[k - 1] <= sums[k]
    ensures sums[j] <= sums[i]
  {
    if j < i {
      Growing(sums, j, i - 1);
      assert sums[i - 1] <= sums[i];
    }
  }

  lemma AcceptedGrows(run: seq<State>, j: nat, i: nat)
    requires j <= i < |run|
    ensures AllAccepted(run, j) <= AllAccepted(run, i)
  {
    var sums := seq(|run|, k requires 0 <= k < |run| => AllAccepted(run, k));
    forall k | 0 < k < |sums| ensures sums[k - 1] <= sums[k] {
      AcceptedStep(run, k);
    }
    Growing(sums, j, i);
  }

  lemma {:induction false} InList(list: seq<Buf>, p: Packet)
    requires p in Packets(list)
    ensures exists b :: b in list && b.packet == p
  {
    if list[0].packet == p {
      assert list[0] in list;
    } else {
      InList(list[1..], p);
      var b :| b in list[1..] && b.packet == p;
      assert b in list;
    }
  }

  /** In particular each packet that was accepted is finished, or in a buffer. */
  lemma EachIsKept(run: seq<State>, j: nat, i: nat, p: Packet)
    requires IsRun(run) && j < i < |run| && InUse(run[i]) && p in Accepted(run[j], run[j + 1])
    ensures var s := run[i].s;
            || p in s.wire.finished || (s.dw.Some? && s.dw.value.packet == p)
            || (exists b :: b in s.high && b.packet == p) || exists b :: b in s.low && b.packet == p
  {
    AcceptedIsKept(run, i);
    AcceptedGrows(run, j + 1, i);
    assert p in AllAccepted(run, j + 1);
    assert p in Places(run[i].s);
    if p in Packets(run[i].s.high) {
      InList(run[i].s.high, p);
    } else if p in Packets(run[i].s.low) {
      InList(run[i].s.low, p);
    }
  }

  // ---- packets on their way to the socket ---------------------------------------------------------

  /** The socket thread has p before it, or a sender has tried to write p directly. */
  ghost predicate Arrives(st: State, st': State, p: Packet) {
    || (TakesPackage(st, st') && st.pipe[0].p == p)
    || (exists t :: WritesDirectly(st, st', t) && st.senders[t].p == p)
  }

  predicate InHand(st: State, t: ThreadId, p: Packet) {
    t in st.senders && HasPacket(st.senders[t].pc) && st.senders[t].p == p
  }

  predicate OnTheWay(st: State, t: ThreadId, p: Packet) {
    InHand(st, t, p) || SendRequest(p) in st.pipe
  }

  lemma SenderKeeps(st: State, st': State, u: ThreadId, t: ThreadId, p: Packet)
    requires SenderNext(st, st', u) && OnTheWay(st, t, p)
    ensures OnTheWay(st', t, p)
  {
  }

  lemma WriterKeeps(st: State, st': State, u: ThreadId, n: nat, t: ThreadId, p: Packet)
    requires WriteNext(st, st', u, n) && OnTheWay(st, t, p)
    ensures OnTheWay(st', t, p) || Arrives(st, st', p)
  {
    assert WritesDirectly(st, st', u);
  }

  lemma TakeKeeps(st: State, choice: bool, t: ThreadId, p: Packet)
    requires CanTake(st) && OnTheWay(st, t, p)
    ensures OnTheWay(Take(st, choice), t, p) || Arrives(st, Take(st, choice), p)
  {
    var st' := Take(st, choice);
    assert st'.senders == st.senders && st'.pipe == st.pipe[1..];
    assert st.pipe == [st.pipe[0]] + st.pipe[1..];
    if st.pipe[0] == SendRequest(p) {
      assert TakesPackage(st, st');
    }
  }

  lemma PollerKeeps(st: State, st': State, t: ThreadId, p: Packet)
    requires PollerNext(st, st') && OnTheWay(st, t, p)
    ensures OnTheWay(st', t, p) || Arrives(st, st', p)
  {
    if choice :| CanTake(st) && st' == Take(st, choice) {
      TakeKeeps(st, choice, t, p);
    }
  }

  lemma StepKeeps(st: State, st': State, t: ThreadId, p: Packet)
    requires Next(st, st') && OnTheWay(st, t, p)
    ensures OnTheWay(st', t, p) || Arrives(st, st', p)
  {
    if u, n :| WriteNext(st, st', u, n) {
      WriterKeeps(st, st', u, n, t, p);
    } else if u :| SenderNext(st, st', u) {
      SenderKeeps(st, st', u, t, p);
    } else {
      PollerKeeps(st, st', t, p);
    }
  }

  ghost predicate ArrivesAt(run: seq<State>, k: nat, p: Packet) {
    k + 1 < |run| && Arrives(run[k], run[k + 1], p)
  }

  lemma RunStepKeeps(run: seq<State>, k: nat, t: ThreadId, p: Packet)
    requires IsRun(run) && k + 1 < |run| && OnTheWay(run[k], t, p)
    ensures OnTheWay(run[k + 1], t, p) || ArrivesAt(run, k, p)
  {
    assert Next(run[k], run[k + 1]);
    StepKeeps(run[k], run[k + 1], t, p);
  }

  ghost predicate KeepsOrArrives(run: seq<State>, k: nat, t: ThreadId, p: Packet) {
    k + 1 < |run| && (OnTheWay(run[k], t, p) ==> OnTheWay(run[k + 1], t, p) || ArrivesAt(run, k, p))
  }

  lemma {:induction false} KeptAlong(run: seq<State>, i: nat, j: nat, t: ThreadId, p: Packet)
    requires i <= j < |run| && OnTheWay(run[i], t, p)
    requires forall k: nat :: i <= k < j ==> KeepsOrArrives(run, k, t, p)
    ensures OnTheWay(run[j], t, p) || exists k: nat :: i <= k < j && ArrivesAt(run, k, p)
  {
    if i < j {
      KeptAlong(run, i, j - 1, t, p);
      assert KeepsOrArrives(run, j - 1, t, p);
    }
  }

  /** No packet is forgotten on its way: what a sender has begun to send stays in its hand
      or in the pipe until it is written directly or the socket thread takes it. */
  lemma NeverForgotten(run: seq<State>, i: nat, j: nat, t: ThreadId, p: Packet)
    requires IsRun(run) && i <= j < |run| && OnTheWay(run[i], t, p)
    ensures OnTheWay(run[j], t, p) || exists k: nat :: i <= k < j && ArrivesAt(run, k, p)
  {
    forall k: nat | i <= k < j ensures KeepsOrArrives(run, k, t, p) {
      if OnTheWay(run[k], t, p) {
        RunStepKeeps(run, k, t, p);
      }
    }
    KeptAlong(run, i, j, t, p);
  }

  // ---- nothing blocks -------------------------------------------------------------------------------

  ghost predicate CanGoOn(st: State, t: ThreadId) {
    (exists st' :: SenderNext(st, st', t)) || exists st', n :: WriteNext(st, st', t, n)
  }

  /** A sender in the middle of a send can go on, unless the sending count is full; and the
      socket thread waits for nothing but the lock, whose owner is such a sender. */
  lemma SendersGoOn(run: seq<State>, i: nat, t: ThreadId)
    requires IsRun(run) && i < |run|
    ensures var st := run[i];
            && (t in st.senders && st.senders[t].pc != Idle && (st.senders[t].pc == Queueing ==> st.s.sending < 0xffff) ==>
                  CanGoOn(st, t))
            && (st.poller == Counting ==> CanUncount(st))
            && (st.poller.Dying? ==> CanFinishClose(st) || (st.lock.Some? && CanGoOn(st, st.lock.value)))
  {
    RunInv(run, i);
    var st := run[i];
    if t in st.senders && st.senders[t].pc != Idle && (st.senders[t].pc == Queueing ==> st.s.sending < 0xffff) {
      GoesOn(st, t);
    }
    if st.lock.Some? {
      assert SenderOk(st, st.lock.value);
      GoesOn(st, st.lock.value);
    }
  }

  lemma GoesOn(st: State, t: ThreadId)
    requires t in st.senders && st.senders[t].pc != Idle
    requires st.senders[t].pc == Queueing ==> st.s.sending < 0xffff
    ensures CanGoOn(st, t)
  {
    if st.senders[t].pc == Writing {
      assert WriteNext(st, Write(st, t, 0), t, 0);
    } else if st.senders[t].pc == First {
      assert CanFirst(st, t, Queueing);
      assert SenderNext(st, Go(st, t, Queueing), t);
    } else if CanCheck(st, t) {
      assert SenderNext(st, Check(st, t), t);
    } else if CanFirstHalf(st, t) {
      assert SenderNext(st, AfterFirstHalf(st, t), t);
    } else if CanTryLock(st, t) {
      assert SenderNext(st, TryLock(st, t), t);
    } else if CanWantWrite(st, t) {
      assert SenderNext(st, RequestWrite(st, t), t);
    } else if CanCount(st, t) {
      assert SenderNext(st, CountSending(st, t), t);
    } else {
      assert SenderNext(st, RequestSend(st, t), t);
    }
  }
}
