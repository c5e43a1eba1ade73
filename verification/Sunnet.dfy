/** The Sunnet scheduler (Sunnet.cpp, Worker.cpp, Service.cpp of 05_C++_concurrency) as
    interleaved steps of any number of threads.

    Three mutexes guard it: one for each service's message queue, one for each service's
    in_global flag, and one for the global queue with its separate length counter.  Taking
    a mutex, leaving it, and every access between are steps of their own.  A Send made by
    a callback is a thread of its own here, which may interleave more freely than it does
    in the worker.  Services are shared pointers: killing one only takes it out of the
    table. */
module Sunnet {
  import opened Counting

  type Sid = nat
  type ThreadId = nat
  type Msg = nat

  /** The last two fields record history: the messages PushMsg and PopMsg moved. */
  datatype Service = Service(
    msgs: seq<Msg>,
    inGlobal: bool,
    exit: bool,
    msgLock: bool,
    flagLock: bool,
    pushed: seq<Msg>,
    taken: seq<Msg>)

  datatype Pc =
    | Done
    // Sunnet::Send
    | Find
    | LockToPush
    | PushMsg
    | UnlockPushed
    | LockToCheck
    | CheckFlag
    | SetFlag
    | UnlockFlag
    // Sunnet::PushGlobalQueue, from a worker or from Send
    | LockQueue(worker: bool)
    | Enqueue(worker: bool)
    | CountUp(worker: bool)
    | UnlockQueue(worker: bool)
    // Sunnet::PopGlobalQueue and the worker loop
    | LockToPop
    | PopFront
    | CountDown
    | UnlockPopped
    | UnlockNoService
    // Service::ProcessMsgs
    | Process
    | TakeMsg
    | UnlockTaken
    | UnlockNoMsg
    // Worker::CheckAndPutGlobal
    | CheckExit
    | LockToPutBack
    | CheckEmpty
    | LockToClear
    | ClearFlag
    | UnlockCleared
    | UnlockPutBack
    // Sunnet::KillService
    | SetExit
    | Erase

  /** The local variables of a thread: the service and message it works on, the messages
      a worker may still process, and its each_num. */
  datatype Thread = Thread(pc: Pc, srv: Sid, m: Msg, left: nat, eachNum: nat)

  /** The table of services, their objects, the global queue and its counter. */
  datatype State = State(
    table: set<Sid>,
    srvs: map<Sid, Service>,
    queue: seq<Sid>,
    len: int,
    queueLock: bool,
    threads: map<ThreadId, Thread>)

  const Init := State({}, map[], [], 0, false, map[])

  function Become(g: State, t: ThreadId, x: Thread): State {
    g.(threads := g.threads[t := x])
  }

  function Update(g: State, s: Sid, v: Service): State {
    g.(srvs := g.srvs[s := v])
  }

  // ---- steps ------------------------------------------------------------------------------

  predicate At(g: State, t: ThreadId, pc: Pc) { t in g.threads && g.threads[t].pc == pc }

  predicate Usable(g: State, t: ThreadId) { t in g.threads && g.threads[t].srv in g.srvs }

  /** A thread that is not about to take a mutex somebody has is not blocked. */
  predicate CanStep(g: State, t: ThreadId) {
    && t in g.threads
    && var x := g.threads[t];
       match x.pc
       case Done => false
       case Find | SetExit | Erase => true
       case LockQueue(_) | LockToPop => !g.queueLock
       case PopFront | UnlockNoService => true
       case LockToPush | LockToPutBack => Usable(g, t) && !g.srvs[x.srv].msgLock
       case Process => Usable(g, t) && (x.left == 0 || !g.srvs[x.srv].msgLock)
       case LockToCheck | LockToClear => Usable(g, t) && !g.srvs[x.srv].flagLock
       case _ => Usable(g, t)
  }

  /** Sunnet::Send. */
  function SendStep(g: State, t: ThreadId): State
    requires CanStep(g, t)
  {
    var x := g.threads[t];
    match x.pc
    case Find => Become(g, t, x.(pc := if x.srv in g.table then LockToPush else Done))
    case LockToPush =>
      Become(Update(g, x.srv, g.srvs[x.srv].(msgLock := true)), t, x.(pc := PushMsg))
    case PushMsg =>
      var v := g.srvs[x.srv];
      Become(Update(g, x.srv, v.(msgs := v.msgs + [x.m], pushed := v.pushed + [x.m])), t, x.(pc := UnlockPushed))
    case UnlockPushed =>
      Become(Update(g, x.srv, g.srvs[x.srv].(msgLock := false)), t, x.(pc := LockToCheck))
    case LockToCheck =>
      Become(Update(g, x.srv, g.srvs[x.srv].(flagLock := true)), t, x.(pc := CheckFlag))
    case CheckFlag =>
      Become(g, t, x.(pc := if g.srvs[x.srv].inGlobal then UnlockFlag else LockQueue(false)))
    case SetFlag =>
      Become(Update(g, x.srv, g.srvs[x.srv].(inGlobal := true)), t, x.(pc := UnlockFlag))
    case UnlockFlag =>
      Become(Update(g, x.srv, g.srvs[x.srv].(flagLock := false)), t, x.(pc := Done))
    case _ => g
  }

  /** Sunnet::PushGlobalQueue. */
  function EnqueueStep(g: State, t: ThreadId): State
    requires CanStep(g, t)
  {
    var x := g.threads[t];
    match x.pc
    case LockQueue(w) => Become(g.(queueLock := true), t, x.(pc := Enqueue(w)))
    case Enqueue(w) => Become(g.(queue := g.queue + [x.srv]), t, x.(pc := CountUp(w)))
    case CountUp(w) => Become(g.(len := g.len + 1), t, x.(pc := UnlockQueue(w)))
    case UnlockQueue(w) => Become(g.(queueLock := false), t, x.(pc := if w then UnlockPutBack else SetFlag))
    case _ => g
  }

  /** Sunnet::PopGlobalQueue. */
  function PopStep(g: State, t: ThreadId): State
    requires CanStep(g, t)
  {
    var x := g.threads[t];
    match x.pc
    case LockToPop => Become(g.(queueLock := true), t, x.(pc := PopFront))
    case PopFront =>
      if g.queue == [] then Become(g, t, x.(pc := UnlockNoService))
      else Become(g.(queue := g.queue[1..]), t, x.(pc := CountDown, srv := g.queue[0]))
    case CountDown => Become(g.(len := g.len - 1), t, x.(pc := UnlockPopped))
    case UnlockPopped => Become(g.(queueLock := false), t, x.(pc := Process, left := x.eachNum))
    case UnlockNoService => Become(g.(queueLock := false), t, x.(pc := LockToPop))
    case _ => g
  }

  /** Service::ProcessMsgs. */
  function ProcessStep(g: State, t: ThreadId): State
    requires CanStep(g, t)
  {
    var x := g.threads[t];
    match x.pc
    case Process =>
      if x.left == 0 then Become(g, t, x.(pc := CheckExit))
      else Become(Update(g, x.srv, g.srvs[x.srv].(msgLock := true)), t, x.(pc := TakeMsg))
    case TakeMsg =>
      var v := g.srvs[x.srv];
      if v.msgs == [] then Become(g, t, x.(pc := UnlockNoMsg))
      else
        Become(Update(g, x.srv, v.(msgs := v.msgs[1..], taken := v.taken + [v.msgs[0]])),
               t, x.(pc := UnlockTaken, m := v.msgs[0]))
    case UnlockTaken =>
      Become(Update(g, x.srv, g.srvs[x.srv].(msgLock := false)),
             t, x.(pc := Process, left := if x.left == 0 then 0 else x.left - 1))
    case UnlockNoMsg =>
      Become(Update(g, x.srv, g.srvs[x.srv].(msgLock := false)), t, x.(pc := CheckExit))
    case _ => g
  }

  /** Worker::CheckAndPutGlobal. */
  function PutBackStep(g: State, t: ThreadId): State
    requires CanStep(g, t)
  {
    var x := g.threads[t];
    match x.pc
    case CheckExit => Become(g, t, x.(pc := if g.srvs[x.srv].exit then LockToPop else LockToPutBack))
    case LockToPutBack =>
      Become(Update(g, x.srv, g.srvs[x.srv].(msgLock := true)), t, x.(pc := CheckEmpty))
    case CheckEmpty =>
      Become(g, t, x.(pc := if g.srvs[x.srv].msgs == [] then LockToClear else LockQueue(true)))
    case LockToClear =>
      Become(Update(g, x.srv, g.srvs[x.srv].(flagLock := true)), t, x.(pc := ClearFlag))
    case ClearFlag =>
      Become(Update(g, x.srv, g.srvs[x.srv].(inGlobal := false)), t, x.(pc := UnlockCleared))
    case UnlockCleared =>
      Become(Update(g, x.srv, g.srvs[x.srv].(flagLock := false)), t, x.(pc := UnlockPutBack))
    case UnlockPutBack =>
      Become(Update(g, x.srv, g.srvs[x.srv].(msgLock := false)), t, x.(pc := LockToPop))
    case _ => g
  }

  /** Sunnet::KillService, after its lookup. */
  function KillStep(g: State, t: ThreadId): State
    requires CanStep(g, t)
  {
    var x := g.threads[t];
    match x.pc
    case SetExit =>
      var g1 := if x.srv in g.table && x.srv in g.srvs then Update(g, x.srv, g.srvs[x.srv].(exit := true)) else g;
      Become(g1, t, x.(pc := if x.srv in g.table then Erase else Done))
    case Erase => Become(g.(table := g.table - {x.srv}), t, x.(pc := Done))
    case _ => g
  }

  /** The next step of thread t. */
  function Step(g: State, t: ThreadId): State
    requires CanStep(g, t)
  {
    match g.threads[t].pc
    case Done => g
    case Find | LockToPush | PushMsg | UnlockPushed | LockToCheck | CheckFlag | SetFlag | UnlockFlag => SendStep(g, t)
    case LockQueue(_) | Enqueue(_) | CountUp(_) | UnlockQueue(_) => EnqueueStep(g, t)
    case LockToPop | PopFront | CountDown | UnlockPopped | UnlockNoService => PopStep(g, t)
    case Process | TakeMsg | UnlockTaken | UnlockNoMsg => ProcessStep(g, t)
    case CheckExit | LockToPutBack | CheckEmpty | LockToClear | ClearFlag | UnlockCleared | UnlockPutBack => PutBackStep(g, t)
    case SetExit | Erase => KillStep(g, t)
  }

  /** Sunnet::NewService. */
  function NewService(g: State, s: Sid): State {
    g.(table := g.table + {s}, srvs := g.srvs[s := Service([], false, false, false, false, [], [])])
  }

  predicate StartPc(pc: Pc) { pc == Find || pc == LockToPop || pc == SetExit }

  ghost predicate Next(g: State, g': State) {
    || (exists t :: CanStep(g, t) && g' == Step(g, t))
    || (exists s: Sid :: s !in g.srvs && g' == NewService(g, s))
    || (exists t: ThreadId, x: Thread :: t !in g.threads && StartPc(x.pc) && g' == Become(g, t, x))
  }

  ghost predicate IsRun(run: seq<State>) {
    && |run| > 0
    && run[0] == Init
    && forall i :: 0 <= i < |run| - 1 ==> Next(run[i], run[i + 1])
  }

  // ---- what a thread has to do with a service -----------------------------------------------

  datatype Role =
    | MsgLock     // has the message queue's mutex
    | FlagLock    // has the in_global mutex
    | OtherMsg    // has the former, and has not found the queue empty
    | OtherFlag   // has the latter, and is not listing the service
    | Token       // a worker that popped the service and neither put it back nor cleared its flag
    | WillList    // a sender that found the flag clear and has not listed the service yet
    | Listed      // a sender that listed it and has not set the flag yet
    | Unchecked   // a sender that pushed its message and has not finished its in_global check
    | SeenEmpty   // a worker that found no message, still under the message queue's mutex

  predicate Plays(x: Thread, role: Role, s: Sid) {
    x.srv == s && Stage(x.pc, role)
  }

  predicate Stage(pc: Pc, role: Role) {
    match role
    case MsgLock => InMsgLock(pc)
    case FlagLock => InFlagLock(pc)
    case OtherMsg => InMsgLock(pc) && !InSeenEmpty(pc)
    case OtherFlag => InFlagLock(pc) && !InWillList(pc) && !InListed(pc)
    case Token => InToken(pc)
    case WillList => InWillList(pc)
    case Listed => InListed(pc)
    case Unchecked => pc.UnlockPushed? || pc.LockToCheck? || pc.CheckFlag? || InWillList(pc)
    case SeenEmpty => InSeenEmpty(pc)
  }

  predicate InWillList(pc: Pc) { (pc.LockQueue? || pc.Enqueue?) && !pc.worker }

  predicate InListed(pc: Pc) { ((pc.CountUp? || pc.UnlockQueue?) && !pc.worker) || pc.SetFlag? }

  predicate InSeenEmpty(pc: Pc) { pc.LockToClear? || pc.ClearFlag? }

  predicate InMsgLock(pc: Pc) {
    match pc
    case PushMsg | UnlockPushed | TakeMsg | UnlockTaken | UnlockNoMsg | CheckEmpty => true
    case LockToClear | ClearFlag | UnlockCleared | UnlockPutBack => true
    case LockQueue(w) => w
    case Enqueue(w) => w
    case CountUp(w) => w
    case UnlockQueue(w) => w
    case _ => false
  }

  predicate InFlagLock(pc: Pc) {
    match pc
    case CheckFlag | SetFlag | UnlockFlag | ClearFlag | UnlockCleared => true
    case LockQueue(w) => !w
    case Enqueue(w) => !w
    case CountUp(w) => !w
    case UnlockQueue(w) => !w
    case _ => false
  }

  predicate InToken(pc: Pc) {
    match pc
    case CountDown | UnlockPopped | Process | TakeMsg | UnlockTaken | UnlockNoMsg => true
    case CheckExit | LockToPutBack | CheckEmpty | LockToClear | ClearFlag => true
    case LockQueue(w) => w
    case Enqueue(w) => w
    case _ => false
  }

  predicate InQueueLock(pc: Pc) {
    match pc
    case PopFront | CountDown | UnlockPopped | UnlockNoService => true
    case Enqueue(_) | CountUp(_) | UnlockQueue(_) => true
    case _ => false
  }

  predicate UsesService(pc: Pc) {
    match pc
    case Done | Find | LockToPop | PopFront | UnlockNoService | SetExit | Erase => false
    case _ => true
  }

  // ---- counting threads -----------------------------------------------------------------------

  type Threads = map<ThreadId, Thread>

  /** How many threads play a role for service s. */
  ghost function Count(ts: Threads, role: Role, s: Sid): nat {
    |Those(ts, (x: Thread) => Plays(x, role, s))|
  }

  ghost function Lockers(ts: Threads): nat {
    |Those(ts, (x: Thread) => InQueueLock(x.pc))|
  }

  /** Threads between popping and counting down, and between listing and counting up. */
  ghost function NotCountedDown(ts: Threads): nat {
    |Those(ts, (x: Thread) => x.pc == CountDown)|
  }

  ghost function NotCountedUp(ts: Threads): nat {
    |Those(ts, (x: Thread) => x.pc.CountUp?)|
  }

  /** The counts of all roles for one service. */
  datatype Tally = Tally(
    msgLock: int,
    flagLock: int,
    otherMsg: int,
    otherFlag: int,
    token: int,
    willList: int,
    listed: int,
    unchecked: int,
    seenEmpty: int)

  ghost function TallyOf(ts: Threads, s: Sid): Tally {
    Tally(Count(ts, MsgLock, s),
          Count(ts, FlagLock, s),
          Count(ts, OtherMsg, s),
          Count(ts, OtherFlag, s),
          Count(ts, Token, s),
          Count(ts, WillList, s),
          Count(ts, Listed, s),
          Count(ts, Unchecked, s),
          Count(ts, SeenEmpty, s))
  }

  /** One thread moved from pc to pc'. */
  predicate Moves(y: Tally, y': Tally, pc: Pc, pc': Pc) {
    && y'.msgLock == y.msgLock + Bit(Stage(pc', MsgLock)) - Bit(Stage(pc, MsgLock)) && y.msgLock >= Bit(Stage(pc, MsgLock))
    && y'.flagLock == y.flagLock + Bit(Stage(pc', FlagLock)) - Bit(Stage(pc, FlagLock)) && y.flagLock >= Bit(Stage(pc, FlagLock))
    && y'.otherMsg == y.otherMsg + Bit(Stage(pc', OtherMsg)) - Bit(Stage(pc, OtherMsg)) && y.otherMsg >= Bit(Stage(pc, OtherMsg))
    && y'.otherFlag == y.otherFlag + Bit(Stage(pc', OtherFlag)) - Bit(Stage(pc, OtherFlag)) && y.otherFlag >= Bit(Stage(pc, OtherFlag))
    && y'.token == y.token + Bit(Stage(pc', Token)) - Bit(Stage(pc, Token)) && y.token >= Bit(Stage(pc, Token))
    && y'.willList == y.willList + Bit(Stage(pc', WillList)) - Bit(Stage(pc, WillList)) && y.willList >= Bit(Stage(pc, WillList))
    && y'.listed == y.listed + Bit(Stage(pc', Listed)) - Bit(Stage(pc, Listed)) && y.listed >= Bit(Stage(pc, Listed))
    && y'.unchecked == y.unchecked + Bit(Stage(pc', Unchecked)) - Bit(Stage(pc, Unchecked)) && y.unchecked >= Bit(Stage(pc, Unchecked))
    && y'.seenEmpty == y.seenEmpty + Bit(Stage(pc', SeenEmpty)) - Bit(Stage(pc, SeenEmpty)) && y.seenEmpty >= Bit(Stage(pc, SeenEmpty))
  }

  lemma CountMoved(ts: Threads, t: ThreadId, x: Thread, r: Role, s: Sid)
    requires t in ts
    ensures Count(ts[t := x], r, s) == Count(ts, r, s) + Bit(Plays(x, r, s)) - Bit(Plays(ts[t], r, s))
    ensures Count(ts, r, s) >= Bit(Plays(ts[t], r, s))
  {
    MovedOne(ts, t, x, (y: Thread) => Plays(y, r, s));
    if Plays(ts[t], r, s) {
      SomeOne(ts, t, (y: Thread) => Plays(y, r, s));
    }
  }

  function PcFor(x: Thread, s: Sid): Pc { if x.srv == s then x.pc else Done }

  /** The same by program counters. */
  lemma RoleMoved(ts: Threads, t: ThreadId, x: Thread, r: Role, s: Sid)
    requires t in ts
    ensures Count(ts[t := x], r, s) == Count(ts, r, s) + Bit(Stage(PcFor(x, s), r)) - Bit(Stage(PcFor(ts[t], s), r))
    ensures Count(ts, r, s) >= Bit(Stage(PcFor(ts[t], s), r))
  {
    CountMoved(ts, t, x, r, s);
    Blank(Done, r);
  }

  lemma Moved(ts: Threads, t: ThreadId, x: Thread, s: Sid)
    requires t in ts
    ensures Moves(TallyOf(ts, s), TallyOf(ts[t := x], s), PcFor(ts[t], s), PcFor(x, s))
  {
    RoleMoved(ts, t, x, MsgLock, s);
    RoleMoved(ts, t, x, FlagLock, s);
    RoleMoved(ts, t, x, OtherMsg, s);
    RoleMoved(ts, t, x, OtherFlag, s);
    RoleMoved(ts, t, x, Token, s);
    RoleMoved(ts, t, x, WillList, s);
    RoleMoved(ts, t, x, Listed, s);
    RoleMoved(ts, t, x, Unchecked, s);
    RoleMoved(ts, t, x, SeenEmpty, s);
  }

  // ---- invariant --------------------------------------------------------------------------------

  ghost predicate LocksOk(y: Tally, v: Service) {
    && y.msgLock == Bit(v.msgLock)
    && y.flagLock == Bit(v.flagLock)
    && y.msgLock == y.otherMsg + y.seenEmpty
    && y.flagLock == y.otherFlag + y.willList + y.listed
    && AllPositive(y)
  }

  predicate AllPositive(y: Tally) {
    && y.msgLock >= 0 && y.flagLock >= 0 && y.otherMsg >= 0 && y.otherFlag >= 0 && y.token >= 0
    && y.willList >= 0 && y.listed >= 0 && y.unchecked >= 0 && y.seenEmpty >= 0
  }

  /** n is how often the service is in the global queue. */
  ghost predicate TokenOk(y: Tally, v: Service, n: nat) {
    && n + y.token <= 1
    && (n + y.token == 1 ==> v.inGlobal || y.listed > 0)
    && (!v.exit && (v.inGlobal || y.listed > 0) ==> n + y.token == 1)
    && (y.willList + y.listed > 0 ==> !v.inGlobal)
  }

  ghost predicate MsgsOk(y: Tally, v: Service, n: nat) {
    && v.pushed == v.taken + v.msgs
    && (y.seenEmpty > 0 ==> v.msgs == [])
    && (!v.exit && v.msgs != [] ==> n + y.token + y.unchecked > 0)
  }

  ghost predicate ServiceOk(y: Tally, v: Service, n: nat) {
    LocksOk(y, v) && TokenOk(y, v, n) && MsgsOk(y, v, n)
  }

  ghost predicate QueueOk(g: State) {
    && Lockers(g.threads) == Bit(g.queueLock)
    && g.len == |g.queue| + NotCountedDown(g.threads) - NotCountedUp(g.threads)
    && (forall s :: s in g.queue ==> s in g.srvs)
    && g.table <= g.srvs.Keys
    && (forall t :: t in g.threads && UsesService(g.threads[t].pc) ==> g.threads[t].srv in g.srvs)
  }

  function Times(g: State, s: Sid): nat { multiset(g.queue)[s] }

  ghost predicate AllOk(g: State) {
    forall s :: s in g.srvs ==> ServiceOk(TallyOf(g.threads, s), g.srvs[s], Times(g, s))
  }

  ghost predicate Inv(g: State) { QueueOk(g) && AllOk(g) }

  // ---- every step keeps it ----------------------------------------------------------------


  /** Thread t steps, and its step moves the tally of its service from y to y'. */
  ghost predicate Ready(g: State, g': State, t: ThreadId, y: Tally, y': Tally, n: nat) {
    && CanStep(g, t) && Usable(g, t) && t in g'.threads
    && ServiceOk(y, g.srvs[g.threads[t].srv], n)
    && Moves(y, y', g.threads[t].pc, g'.threads[t].pc)
  }

  ghost predicate After(g': State, s: Sid, y': Tally, n: nat) {
    s in g'.srvs && ServiceOk(y', g'.srvs[s], n)
  }

  predicate InPush(pc: Pc) { pc.LockToPush? || pc.PushMsg? || pc.UnlockPushed? }

  predicate InCheck(pc: Pc) { pc.LockToCheck? || pc.CheckFlag? || pc.SetFlag? || pc.UnlockFlag? }

  predicate InEnqueue(pc: Pc) { pc.LockQueue? || pc.Enqueue? || pc.CountUp? || pc.UnlockQueue? }

  predicate InTake(pc: Pc) { pc.UnlockTaken? || pc.UnlockNoMsg? }

  predicate InPutBack(pc: Pc) { pc.LockToPutBack? || pc.CheckEmpty? }

  predicate InClear(pc: Pc) { pc.LockToClear? || pc.ClearFlag? }

  predicate InLeave(pc: Pc) { pc.UnlockCleared? || pc.UnlockPutBack? }

  lemma PushOk(g: State, t: ThreadId, y: Tally, y': Tally, n: nat)
    requires CanStep(g, t) && InPush(g.threads[t].pc)
    requires Ready(g, SendStep(g, t), t, y, y', n)
    ensures After(SendStep(g, t), g.threads[t].srv, y', n)
  {
  }

  lemma CheckOk(g: State, t: ThreadId, y: Tally, y': Tally, n: nat)
    requires CanStep(g, t) && InCheck(g.threads[t].pc)
    requires Ready(g, SendStep(g, t), t, y, y', n)
    ensures After(SendStep(g, t), g.threads[t].srv, y', n)
  {
  }

  lemma EnqueueOk(g: State, t: ThreadId, y: Tally, y': Tally, n: nat)
    requires CanStep(g, t) && g.threads[t].pc.Enqueue?
    requires Ready(g, EnqueueStep(g, t), t, y, y', n)
    ensures After(EnqueueStep(g, t), g.threads[t].srv, y', n + 1)
  {
  }

  lemma LockQueueOk(g: State, t: ThreadId, y: Tally, y': Tally, n: nat)
    requires CanStep(g, t) && g.threads[t].pc.LockQueue?
    requires Ready(g, EnqueueStep(g, t), t, y, y', n)
    ensures After(EnqueueStep(g, t), g.threads[t].srv, y', n)
  {
  }

  lemma UnlockQueueOk(g: State, t: ThreadId, y: Tally, y': Tally, n: nat)
    requires CanStep(g, t) && g.threads[t].pc.UnlockQueue?
    requires Ready(g, EnqueueStep(g, t), t, y, y', n)
    ensures After(EnqueueStep(g, t), g.threads[t].srv, y', n)
  {
  }

  lemma CountUpOk(g: State, t: ThreadId, y: Tally, y': Tally, n: nat)
    requires CanStep(g, t) && g.threads[t].pc.CountUp?
    requires Ready(g, EnqueueStep(g, t), t, y, y', n)
    ensures After(EnqueueStep(g, t), g.threads[t].srv, y', n)
  {
  }

  lemma CountDownOk(g: State, t: ThreadId, y: Tally, y': Tally, n: nat)
    requires CanStep(g, t) && g.threads[t].pc.CountDown?
    requires Ready(g, PopStep(g, t), t, y, y', n)
    ensures After(PopStep(g, t), g.threads[t].srv, y', n)
  {
  }

  lemma PoppedOk(g: State, t: ThreadId, y: Tally, y': Tally, n: nat)
    requires CanStep(g, t) && g.threads[t].pc.UnlockPopped?
    requires Ready(g, PopStep(g, t), t, y, y', n)
    ensures After(PopStep(g, t), g.threads[t].srv, y', n)
  {
  }

  lemma ProcessOk(g: State, t: ThreadId, y: Tally, y': Tally, n: nat)
    requires CanStep(g, t) && g.threads[t].pc.Process?
    requires Ready(g, ProcessStep(g, t), t, y, y', n)
    ensures After(ProcessStep(g, t), g.threads[t].srv, y', n)
  {
  }

  lemma TakeMsgOk(g: State, t: ThreadId, y: Tally, y': Tally, n: nat)
    requires CanStep(g, t) && g.threads[t].pc.TakeMsg?
    requires Ready(g, ProcessStep(g, t), t, y, y', n)
    ensures After(ProcessStep(g, t), g.threads[t].srv, y', n)
  {
  }

  lemma TakeOk(g: State, t: ThreadId, y: Tally, y': Tally, n: nat)
    requires CanStep(g, t) && InTake(g.threads[t].pc)
    requires Ready(g, ProcessStep(g, t), t, y, y', n)
    ensures After(ProcessStep(g, t), g.threads[t].srv, y', n)
  {
  }

  lemma CheckExitOk(g: State, t: ThreadId, y: Tally, y': Tally, n: nat)
    requires CanStep(g, t) && g.threads[t].pc.CheckExit?
    requires Ready(g, PutBackStep(g, t), t, y, y', n)
    ensures After(PutBackStep(g, t), g.threads[t].srv, y', n)
  {
  }

  lemma PutBackOk(g: State, t: ThreadId, y: Tally, y': Tally, n: nat)
    requires CanStep(g, t) && InPutBack(g.threads[t].pc)
    requires Ready(g, PutBackStep(g, t), t, y, y', n)
    ensures After(PutBackStep(g, t), g.threads[t].srv, y', n)
  {
  }

  lemma ClearOk(g: State, t: ThreadId, y: Tally, y': Tally, n: nat)
    requires CanStep(g, t) && InClear(g.threads[t].pc)
    requires Ready(g, PutBackStep(g, t), t, y, y', n)
    ensures After(PutBackStep(g, t), g.threads[t].srv, y', n)
  {
  }

  lemma LeaveOk(g: State, t: ThreadId, y: Tally, y': Tally, n: nat)
    requires CanStep(g, t) && InLeave(g.threads[t].pc)
    requires Ready(g, PutBackStep(g, t), t, y, y', n)
    ensures After(PutBackStep(g, t), g.threads[t].srv, y', n)
  {
  }

  /** A step about a service keeps what is known of that service. */
  lemma OwnStep(g: State, t: ThreadId, y: Tally, y': Tally, n: nat)
    requires CanStep(g, t) && UsesService(g.threads[t].pc) && Ready(g, Step(g, t), t, y, y', n)
    ensures After(Step(g, t), g.threads[t].srv, y', if g.threads[t].pc.Enqueue? then n + 1 else n)
  {
    var pc := g.threads[t].pc;
    if InPush(pc) { PushOk(g, t, y, y', n); }
    else if InCheck(pc) { CheckOk(g, t, y, y', n); }
    else if pc.Enqueue? { EnqueueOk(g, t, y, y', n); }
    else if pc.CountUp? { CountUpOk(g, t, y, y', n); }
    else if pc.LockQueue? { LockQueueOk(g, t, y, y', n); }
    else if pc.UnlockQueue? { UnlockQueueOk(g, t, y, y', n); }
    else if pc.CountDown? { CountDownOk(g, t, y, y', n); }
    else if pc.UnlockPopped? { PoppedOk(g, t, y, y', n); }
    else if pc.Process? { ProcessOk(g, t, y, y', n); }
    else if pc.TakeMsg? { TakeMsgOk(g, t, y, y', n); }
    else if InTake(pc) { TakeOk(g, t, y, y', n); }
    else if pc.CheckExit? { CheckExitOk(g, t, y, y', n); }
    else if InPutBack(pc) { PutBackOk(g, t, y, y', n); }
    else if InClear(pc) { ClearOk(g, t, y, y', n); }
    else { LeaveOk(g, t, y, y', n); }
  }

  /** What a step of thread t leaves alone. */
  ghost predicate Frame(g: State, g': State, t: ThreadId, x: Thread, x': Thread) {
    && g'.threads == g.threads[t := x']
    && g'.srvs.Keys == g.srvs.Keys && g'.table <= g.table
    && (forall s :: s in g.srvs && (s != x.srv || !UsesService(x.pc)) ==>
          g'.srvs[s] == g.srvs[s].(exit := g'.srvs[s].exit) && (g.srvs[s].exit ==> g'.srvs[s].exit))
  }

  predicate FrameQueue(g: State, g': State, x: Thread, x': Thread) {
    && g'.queue == (if x.pc.Enqueue? then g.queue + [x.srv]
                    else if x.pc.PopFront? && g.queue != [] then g.queue[1..] else g.queue)
    && g'.len == g.len + Bit(x.pc.CountUp?) - Bit(x.pc.CountDown?)
    && Bit(g'.queueLock) == Bit(g.queueLock) + Bit(InQueueLock(x'.pc)) - Bit(InQueueLock(x.pc))
    && (x'.pc.CountUp? <==> x.pc.Enqueue?)
    && (x'.pc.CountDown? <==> x.pc.PopFront? && g.queue != [])
  }

  predicate FrameUse(g: State, x: Thread, x': Thread) {
    && (UsesService(x.pc) ==> x'.srv == x.srv)
    && (x.pc.PopFront? && g.queue != [] ==> x'.srv == g.queue[0] && x'.pc == CountDown)
    && (!UsesService(x.pc) && !(x.pc.PopFront? && g.queue != []) ==>
          !UsesService(x'.pc) || (x'.pc == LockToPush && x'.srv in g.table))
  }

  ghost predicate Framed(g: State, g': State, t: ThreadId)
    requires t in g.threads
  {
    && t in g'.threads
    && Frame(g, g', t, g.threads[t], g'.threads[t])
    && FrameQueue(g, g', g.threads[t], g'.threads[t])
  }

  predicate KeepsLock(g: State, t: ThreadId) {
    CanStep(g, t) && (InQueueLock(g.threads[t].pc) ==> g.queueLock)
  }

  lemma PushFramed(g: State, t: ThreadId)
    requires KeepsLock(g, t) && (InPush(g.threads[t].pc))
    ensures Framed(g, SendStep(g, t), t)
  {
  }

  lemma CheckFramed(g: State, t: ThreadId)
    requires KeepsLock(g, t) && (InCheck(g.threads[t].pc) || g.threads[t].pc.Find?)
    ensures Framed(g, SendStep(g, t), t)
  {
  }

  lemma EnqueueFramed(g: State, t: ThreadId)
    requires KeepsLock(g, t) && (InEnqueue(g.threads[t].pc))
    ensures Framed(g, EnqueueStep(g, t), t)
  {
  }

  lemma PopFramed(g: State, t: ThreadId)
    requires KeepsLock(g, t) && (g.threads[t].pc in {LockToPop, PopFront, CountDown, UnlockPopped, UnlockNoService})
    ensures Framed(g, PopStep(g, t), t)
  {
  }

  lemma ProcessFramed(g: State, t: ThreadId)
    requires KeepsLock(g, t) && (g.threads[t].pc.Process? || InTake(g.threads[t].pc))
    ensures Framed(g, ProcessStep(g, t), t)
  {
  }

  lemma TakeMsgFramed(g: State, t: ThreadId)
    requires KeepsLock(g, t) && g.threads[t].pc.TakeMsg?
    ensures Framed(g, ProcessStep(g, t), t)
  {
  }

  lemma PutBackFramed(g: State, t: ThreadId)
    requires KeepsLock(g, t) && (g.threads[t].pc.CheckExit? || InPutBack(g.threads[t].pc))
    ensures Framed(g, PutBackStep(g, t), t)
  {
  }

  lemma ClearFramed(g: State, t: ThreadId)
    requires KeepsLock(g, t) && (InClear(g.threads[t].pc) || InLeave(g.threads[t].pc))
    ensures Framed(g, PutBackStep(g, t), t)
  {
  }

  lemma KillFramed(g: State, t: ThreadId)
    requires KeepsLock(g, t) && (g.threads[t].pc.SetExit? || g.threads[t].pc.Erase?)
    ensures Framed(g, KillStep(g, t), t)
  {
  }

  lemma StepFramed(g: State, t: ThreadId)
    requires KeepsLock(g, t)
    ensures Framed(g, Step(g, t), t)
  {
    match g.threads[t].pc
    case Done =>
    case LockToPush | PushMsg | UnlockPushed => PushFramed(g, t);
    case Find | LockToCheck | CheckFlag | SetFlag | UnlockFlag => CheckFramed(g, t);
    case LockQueue(_) | Enqueue(_) | CountUp(_) | UnlockQueue(_) => EnqueueFramed(g, t);
    case LockToPop | PopFront | CountDown | UnlockPopped | UnlockNoService => PopFramed(g, t);
    case Process | UnlockTaken | UnlockNoMsg => ProcessFramed(g, t);
    case TakeMsg => TakeMsgFramed(g, t);
    case CheckExit | LockToPutBack | CheckEmpty => PutBackFramed(g, t);
    case LockToClear | ClearFlag | UnlockCleared | UnlockPutBack => ClearFramed(g, t);
    case SetExit | Erase => KillFramed(g, t);
  }

  lemma StepFrameUse(g: State, t: ThreadId)
    requires CanStep(g, t)
    ensures FrameUse(g, g.threads[t], Step(g, t).threads[t])
  {
  }

  lemma QueueUsesStep(g: State, g': State, t: ThreadId)
    requires QueueOk(g) && t in g.threads && t in g'.threads
    requires Frame(g, g', t, g.threads[t], g'.threads[t]) && FrameUse(g, g.threads[t], g'.threads[t])
    requires FrameQueue(g, g', g.threads[t], g'.threads[t])
    ensures (forall s :: s in g'.queue ==> s in g'.srvs) && g'.table <= g'.srvs.Keys
    ensures forall u :: u in g'.threads && UsesService(g'.threads[u].pc) ==> g'.threads[u].srv in g'.srvs
  {
    var x := g.threads[t];
    assert UsesService(x.pc) ==> x.srv in g.srvs;
  }

  lemma QueueLockStep(g: State, g': State, t: ThreadId)
    requires QueueOk(g) && t in g.threads && t in g'.threads
    requires g'.threads == g.threads[t := g'.threads[t]]
    requires FrameQueue(g, g', g.threads[t], g'.threads[t])
    ensures Lockers(g'.threads) == Bit(g'.queueLock)
    ensures g'.len == |g'.queue| + NotCountedDown(g'.threads) - NotCountedUp(g'.threads)
  {
    var x := g'.threads[t];
    MovedOne(g.threads, t, x, (x: Thread) => InQueueLock(x.pc));
    MovedOne(g.threads, t, x, (x: Thread) => x.pc == CountDown);
    MovedOne(g.threads, t, x, (x: Thread) => x.pc.CountUp?);
  }

  lemma QueueStep(g: State, t: ThreadId)
    requires QueueOk(g) && CanStep(g, t)
    ensures QueueOk(Step(g, t))
  {
    if InQueueLock(g.threads[t].pc) {
      SomeOne(g.threads, t, (x: Thread) => InQueueLock(x.pc));
    }
    StepFramed(g, t);
    StepFrameUse(g, t);
    QueueUsesStep(g, Step(g, t), t);
    QueueLockStep(g, Step(g, t), t);
  }

  // ---- the invariant of services ------------------------------------------------------------

  /** A service popped from the global queue: the place in the queue becomes a worker. */
  lemma PopFrontOk(y: Tally, y': Tally, v: Service, n: nat)
    requires ServiceOk(y, v, n) && n > 0 && Moves(y, y', Done, CountDown)
    ensures ServiceOk(y', v, n - 1)
  {
  }

  /** A service that is at most killed keeps its invariant. */
  lemma KilledOk(y: Tally, v: Service, v': Service, n: nat)
    requires ServiceOk(y, v, n)
    requires v' == v.(exit := v'.exit) && (v.exit ==> v'.exit)
    ensures ServiceOk(y, v', n)
  {
  }

  /** A thread that works on no service counts for none. */
  lemma Blank(pc: Pc, role: Role)
    requires !UsesService(pc) || pc == LockToPush
    ensures !Stage(pc, role)
  {
  }

  lemma BlankMove(y: Tally, y': Tally, pc: Pc, pc': Pc)
    requires Moves(y, y', pc, pc')
    requires forall r :: !Stage(pc, r) && !Stage(pc', r)
    ensures y' == y
  {
  }

  lemma BlankFrom(y: Tally, y': Tally, pc: Pc, pc': Pc)
    requires Moves(y, y', pc, pc') && (forall r :: !Stage(pc, r)) && AllPositive(y)
    ensures Moves(y, y', Done, pc')
  {
    forall r ensures !Stage(Done, r) { Blank(Done, r); }
  }

  lemma ServiceStep(g: State, t: ThreadId, s: Sid)
    requires Inv(g) && CanStep(g, t) && s in g.srvs
    ensures s in Step(g, t).srvs && ServiceOk(TallyOf(Step(g, t).threads, s), Step(g, t).srvs[s], Times(Step(g, t), s))
  {
    StepFrameUse(g, t);
    if InQueueLock(g.threads[t].pc) {
      SomeOne(g.threads, t, (x: Thread) => InQueueLock(x.pc));
    }
    StepFramed(g, t);
    assert ServiceOk(TallyOf(g.threads, s), g.srvs[s], Times(g, s));
    if g.threads[t].srv == s && UsesService(g.threads[t].pc) {
      OwnServiceStep(g, t, s);
    } else {
      OtherServiceStep(g, Step(g, t), t, s);
    }
  }

  lemma OwnServiceStep(g: State, t: ThreadId, s: Sid)
    requires CanStep(g, t) && Usable(g, t) && g.threads[t].srv == s && UsesService(g.threads[t].pc)
    requires ServiceOk(TallyOf(g.threads, s), g.srvs[s], Times(g, s))
    requires Framed(g, Step(g, t), t) && Step(g, t).threads[t].srv == s
    ensures s in Step(g, t).srvs && ServiceOk(TallyOf(Step(g, t).threads, s), Step(g, t).srvs[s], Times(Step(g, t), s))
  {
    var g' := Step(g, t);
    Moved(g.threads, t, g'.threads[t], s);
    OwnStep(g, t, TallyOf(g.threads, s), TallyOf(g'.threads, s), Times(g, s));
  }

  lemma OtherServiceStep(g: State, g': State, t: ThreadId, s: Sid)
    requires t in g.threads && s in g.srvs && Framed(g, g', t) && FrameUse(g, g.threads[t], g'.threads[t])
    requires ServiceOk(TallyOf(g.threads, s), g.srvs[s], Times(g, s))
    requires g.threads[t].srv != s || !UsesService(g.threads[t].pc)
    ensures s in g'.srvs && ServiceOk(TallyOf(g'.threads, s), g'.srvs[s], Times(g', s))
  {
    var x, x' := g.threads[t], g'.threads[t];
    var y, y' := TallyOf(g.threads, s), TallyOf(g'.threads, s);
    Moved(g.threads, t, x', s);
    TimesAfter(g, g', x, x', s);
    forall r ensures !Stage(PcFor(x, s), r) { Blank(PcFor(x, s), r); }
    if x.pc.PopFront? && g.queue != [] && g.queue[0] == s {
      BlankFrom(y, y', PcFor(x, s), PcFor(x', s));
      PopFrontOk(y, y', g.srvs[s], Times(g, s));
    } else {
      forall r ensures !Stage(PcFor(x', s), r) { Blank(PcFor(x', s), r); }
      BlankMove(y, y', PcFor(x, s), PcFor(x', s));
      KilledOk(y, g.srvs[s], g'.srvs[s], Times(g, s));
    }
  }

  lemma TimesAfter(g: State, g': State, x: Thread, x': Thread, s: Sid)
    requires FrameQueue(g, g', x, x') && (x.srv != s || !UsesService(x.pc))
    ensures Times(g', s) ==
      if x.pc.PopFront? && g.queue != [] && g.queue[0] == s then Times(g, s) - 1 else Times(g, s)
  {
    if x.pc.PopFront? && g.queue != [] {
      assert g.queue == [g.queue[0]] + g.queue[1..];
    }
  }

  lemma StepInv(g: State, t: ThreadId)
    requires Inv(g) && CanStep(g, t)
    ensures Inv(Step(g, t))
  {
    QueueStep(g, t);
    forall s | s in Step(g, t).srvs
      ensures ServiceOk(TallyOf(Step(g, t).threads, s), Step(g, t).srvs[s], Times(Step(g, t), s))
    {
      StepKeys(g, t);
      ServiceStep(g, t, s);
    }
  }

  lemma StepKeys(g: State, t: ThreadId)
    requires Inv(g) && CanStep(g, t)
    ensures Step(g, t).srvs.Keys == g.srvs.Keys
  {
    if InQueueLock(g.threads[t].pc) {
      SomeOne(g.threads, t, (x: Thread) => InQueueLock(x.pc));
    }
    StepFramed(g, t);
  }

  /** Nobody works on a service that is not there yet. */
  lemma NobodyYet(g: State, s: Sid, r: Role)
    requires QueueOk(g) && s !in g.srvs
    ensures Count(g.threads, r, s) == 0
  {
    forall t | t in g.threads ensures !Plays(g.threads[t], r, s) {
      if !UsesService(g.threads[t].pc) { Blank(g.threads[t].pc, r); }
    }
    NoneOf(g.threads, (x: Thread) => Plays(x, r, s));
  }

  lemma NewServiceOk(g: State, s: Sid)
    requires QueueOk(g) && s !in g.srvs
    ensures ServiceOk(TallyOf(g.threads, s), Service([], false, false, false, false, [], []), Times(g, s))
  {
    NobodyYet(g, s, MsgLock);
    NobodyYet(g, s, FlagLock);
    NobodyYet(g, s, OtherMsg);
    NobodyYet(g, s, OtherFlag);
    NobodyYet(g, s, Token);
    NobodyYet(g, s, WillList);
    NobodyYet(g, s, Listed);
    NobodyYet(g, s, Unchecked);
    NobodyYet(g, s, SeenEmpty);
  }

  lemma NewServiceInv(g: State, s: Sid)
    requires Inv(g) && s !in g.srvs
    ensures Inv(NewService(g, s))
  {
    var g' := NewService(g, s);
    NewServiceOk(g, s);
    forall u | u in g'.srvs ensures ServiceOk(TallyOf(g'.threads, u), g'.srvs[u], Times(g', u)) {
      if u != s {
        assert ServiceOk(TallyOf(g.threads, u), g.srvs[u], Times(g, u));
      }
    }
  }

  /** A thread that starts plays no role yet. */
  lemma ArriveTally(ts: Threads, t: ThreadId, x: Thread, s: Sid)
    requires t !in ts && StartPc(x.pc)
    ensures TallyOf(ts[t := x], s) == TallyOf(ts, s)
  {
    forall r ensures Count(ts[t := x], r, s) == Count(ts, r, s) {
      MovedOne(ts, t, x, (y: Thread) => Plays(y, r, s));
      Blank(x.pc, r);
    }
  }

  lemma ArriveQueue(g: State, t: ThreadId, x: Thread)
    requires QueueOk(g) && t !in g.threads && StartPc(x.pc)
    ensures QueueOk(Become(g, t, x))
  {
    MovedOne(g.threads, t, x, (x: Thread) => InQueueLock(x.pc));
    MovedOne(g.threads, t, x, (x: Thread) => x.pc == CountDown);
    MovedOne(g.threads, t, x, (x: Thread) => x.pc.CountUp?);
  }

  lemma ArriveInv(g: State, t: ThreadId, x: Thread)
    requires Inv(g) && t !in g.threads && StartPc(x.pc)
    ensures Inv(Become(g, t, x))
  {
    var g' := Become(g, t, x);
    ArriveQueue(g, t, x);
    forall s | s in g'.srvs ensures ServiceOk(TallyOf(g'.threads, s), g'.srvs[s], Times(g', s)) {
      assert ServiceOk(TallyOf(g.threads, s), g.srvs[s], Times(g, s));
      ArriveTally(g.threads, t, x, s);
    }
  }

  lemma InitInv()
    ensures Inv(Init)
  {
    NoneOf(map[], (x: Thread) => InQueueLock(x.pc));
    NoneOf(map[], (x: Thread) => x.pc == CountDown);
    NoneOf(map[], (x: Thread) => x.pc.CountUp?);
  }

  lemma NextInv(g: State, g': State)
    requires Inv(g) && Next(g, g')
    ensures Inv(g')
  {
    if t :| CanStep(g, t) && g' == Step(g, t) {
      StepInv(g, t);
    } else if s: Sid :| s !in g.srvs && g' == NewService(g, s) {
      NewServiceInv(g, s);
    } else {
      var t: ThreadId, x: Thread :| t !in g.threads && StartPc(x.pc) && g' == Become(g, t, x);
      ArriveInv(g, t, x);
    }
  }

  lemma {:induction false} RunInv(run: seq<State>, i: nat)
    requires IsRun(run) && i < |run|
    ensures Inv(run[i])
  {
    if i == 0 {
      InitInv();
    } else {
      RunInv(run, i - 1);
      assert Next(run[i - 1], run[i - 1 + 1]);
      NextInv(run[i - 1], run[i]);
    }
  }

  // ---- what every run keeps --------------------------------------------------------------------

  /** Counted over the global queue and the workers between popping and putting back, a
      service occurs at most once, dying or not. */
  lemma TokenOnce(run: seq<State>, i: nat, s: Sid)
    requires IsRun(run) && i < |run| && s in run[i].srvs
    ensures multiset(run[i].queue)[s] + Count(run[i].threads, Token, s) <= 1
  {
    RunInv(run, i);
    assert ServiceOk(TallyOf(run[i].threads, s), run[i].srvs[s], Times(run[i], s));
  }

  /** So two workers never process one service at a time, nor one that is listed. */
  lemma SingleWorker(run: seq<State>, i: nat, s: Sid, t: ThreadId, u: ThreadId)
    requires IsRun(run) && i < |run|
    requires t in run[i].threads && Plays(run[i].threads[t], Token, s)
    requires u in run[i].threads && Plays(run[i].threads[u], Token, s)
    ensures t == u && s !in run[i].queue
  {
    RunInv(run, i);
    var x := run[i].threads[t];
    if !UsesService(x.pc) { Blank(x.pc, Token); }
    TokenOnce(run, i, s);
    SomeOne(run[i].threads, t, (x: Thread) => Plays(x, Token, s));
  }

  /** A live service with messages is listed, or a worker has it, or a sender that pushed
      to it has yet to finish its in_global check. */
  lemma PendingIsServed(run: seq<State>, i: nat, s: Sid)
    requires IsRun(run) && i < |run| && s in run[i].srvs
    requires !run[i].srvs[s].exit && run[i].srvs[s].msgs != []
    ensures || s in run[i].queue
            || (exists t :: t in run[i].threads && Plays(run[i].threads[t], Token, s))
            || (exists t :: t in run[i].threads && Plays(run[i].threads[t], Unchecked, s))
  {
    RunInv(run, i);
    var ts := run[i].threads;
    assert ServiceOk(TallyOf(ts, s), run[i].srvs[s], Times(run[i], s));
    if Count(ts, Token, s) > 0 {
      var t :| t in Those(ts, (x: Thread) => Plays(x, Token, s));
      assert Plays(ts[t], Token, s);
    } else if Count(ts, Unchecked, s) > 0 {
      var t :| t in Those(ts, (x: Thread) => Plays(x, Unchecked, s));
      assert Plays(ts[t], Unchecked, s);
    }
  }

  /** When nobody has the in_global mutex of a live service, the flag is set exactly when
      the service is listed or with a worker. */
  lemma FlagMeansToken(run: seq<State>, i: nat, s: Sid)
    requires IsRun(run) && i < |run| && s in run[i].srvs
    requires !run[i].srvs[s].exit && !run[i].srvs[s].flagLock
    ensures run[i].srvs[s].inGlobal <==> multiset(run[i].queue)[s] + Count(run[i].threads, Token, s) == 1
  {
    RunInv(run, i);
    assert ServiceOk(TallyOf(run[i].threads, s), run[i].srvs[s], Times(run[i], s));
  }

  /** Messages are popped once each, in the order they were pushed. */
  lemma MessagesInOrder(run: seq<State>, i: nat, s: Sid)
    requires IsRun(run) && i < |run| && s in run[i].srvs
    ensures run[i].srvs[s].pushed == run[i].srvs[s].taken + run[i].srvs[s].msgs
  {
    RunInv(run, i);
    assert ServiceOk(TallyOf(run[i].threads, s), run[i].srvs[s], Times(run[i], s));
  }

  /** global_queue_len is the length of the global queue when its mutex is free. */
  lemma LengthExact(run: seq<State>, i: nat)
    requires IsRun(run) && i < |run| && !run[i].queueLock
    ensures run[i].len == |run[i].queue|
  {
    RunInv(run, i);
    var ts := run[i].threads;
    assert Those(ts, (x: Thread) => InQueueLock(x.pc)) == {};
    forall t | t in ts ensures !InQueueLock(ts[t].pc) {
      assert t !in Those(ts, (x: Thread) => InQueueLock(x.pc));
    }
    NoneOf(ts, (x: Thread) => x.pc == CountDown);
    NoneOf(ts, (x: Thread) => x.pc.CountUp?);
  }

  // ---- no deadlock --------------------------------------------------------------------------------

  ghost predicate SomeCanStep(g: State) { exists t :: CanStep(g, t) }

  lemma QueueLockHolder(g: State)
    requires Inv(g) && g.queueLock
    ensures SomeCanStep(g)
  {
    var t :| t in Those(g.threads, (x: Thread) => InQueueLock(x.pc));
    assert CanStep(g, t);
  }

  lemma FlagLockHolder(g: State, s: Sid)
    requires Inv(g) && s in g.srvs && g.srvs[s].flagLock
    ensures SomeCanStep(g)
  {
    assert ServiceOk(TallyOf(g.threads, s), g.srvs[s], Times(g, s));
    assert Count(g.threads, FlagLock, s) == 1;
    var t :| t in Those(g.threads, (x: Thread) => Plays(x, FlagLock, s));
    if g.queueLock {
      QueueLockHolder(g);
    } else {
      assert CanStep(g, t);
    }
  }

  lemma MsgLockHolder(g: State, s: Sid)
    requires Inv(g) && s in g.srvs && g.srvs[s].msgLock
    ensures SomeCanStep(g)
  {
    assert ServiceOk(TallyOf(g.threads, s), g.srvs[s], Times(g, s));
    assert Count(g.threads, MsgLock, s) == 1;
    var t :| t in Those(g.threads, (x: Thread) => Plays(x, MsgLock, s));
    if g.queueLock {
      QueueLockHolder(g);
    } else if g.srvs[s].flagLock {
      FlagLockHolder(g, s);
    } else {
      assert CanStep(g, t);
    }
  }

  lemma BlockedBy(g: State, t: ThreadId)
    requires t in g.threads && g.threads[t].pc != Done && !CanStep(g, t)
    requires UsesService(g.threads[t].pc) ==> Usable(g, t)
    ensures g.queueLock || (Usable(g, t) && (g.srvs[g.threads[t].srv].flagLock || g.srvs[g.threads[t].srv].msgLock))
  {
  }

  /** The mutexes never deadlock: while some thread is not finished, some thread can go on. */
  lemma NoDeadlock(run: seq<State>, i: nat, t: ThreadId)
    requires IsRun(run) && i < |run|
    requires t in run[i].threads && run[i].threads[t].pc != Done
    ensures exists u :: CanStep(run[i], u)
  {
    RunInv(run, i);
    var g := run[i];
    var s := g.threads[t].srv;
    if !CanStep(g, t) {
      BlockedBy(g, t);
      if g.queueLock {
        QueueLockHolder(g);
      } else if g.srvs[s].flagLock {
        FlagLockHolder(g, s);
      } else {
        MsgLockHolder(g, s);
      }
    }
  }
}
