/** The life of a service and its message queue (skynet_mq.c, skynet_server.c and the
    handle table they share), as interleaved steps of any number of activities.

    A step is what one activity does between taking and releasing a lock, or one atomic
    operation.  An activity is one call chain: a launch, a send, a retirement, or a worker
    thread.  A send made by a callback is an activity of its own, which may interleave more
    freely than it does in a worker.  Handles are never reissued, so a handle names a
    context and its queue for ever. */
module ServiceProtocol {
  import opened Prelude
  import opened Counting

  type Handle = nat
  type ActivityId = nat
  type Msg = nat

  /** A context (handle table entry, reference count) and its queue.  The last three
      fields record history: what was accepted, dispatched, and handed to drop_message. */
  datatype Service = Service(
    registered: bool,
    ref: int,
    ctxAlive: bool,
    queueAlive: bool,
    inGlobal: bool,
    release: bool,
    msgs: seq<Msg>,
    pushed: seq<Msg>,
    consumed: seq<Msg>,
    dropped: seq<Msg>)

  datatype Pc =
    | Finished
    // skynet_context_new
    | Launching      // registered, running init
    | Launched       // init succeeded, reference released
    | LaunchFailed   // init failed, reference released
    | LaunchRetired  // retired by the failed launch, release to come
    // skynet_context_push
    | Sending        // context grabbed
    | Sent           // message pushed, release to come
    // skynet_handle_retire
    | Retiring       // out of the table, release to come
    // skynet_context_message_dispatch
    | Waiting        // between two calls, perhaps keeping a queue
    | Popped         // has a queue, grab to come
    | Looping        // has queue and context
    | Emptied        // queue found empty, release to come
    | PopNext        // about to return skynet_globalmq_pop()
    | Processed      // loop finished, has queue and context
    | Swapping       // another queue popped, put-back to come
    | Returning      // release to come, the queue to return is decided
    // skynet_mq_release
    | Orphaned       // has a queue whose context could not be grabbed
    | Dropping       // release seen, dropping messages
    | Freeing        // queue empty, about to free it

  /** The local variables of an activity: the context it has grabbed, the queue (and the
      other queue) it has in hand, the message it sends, and the dispatch loop counters.
      `deleting` is the context whose last reference it has just released:
      delete_context runs before anything else. */
  datatype Activity = Activity(
    pc: Pc,
    ctx: Option<Handle>,
    q: Option<Handle>,
    nq: Option<Handle>,
    deleting: Option<Handle>,
    m: Msg,
    i: nat,
    n: int,
    worker: bool)

  datatype State = State(
    services: map<Handle, Service>,
    global: seq<Handle>,
    acts: map<ActivityId, Activity>)

  const Init := State(map[], [], map[])

  function NewActivity(pc: Pc): Activity {
    Activity(pc, None, None, None, None, 0, 0, 1, false)
  }

  // ---- the operations that steps are made of ----------------------------------------

  /** skynet_mq_push: a queue that is not flagged is flagged and listed. */
  function MqPush(s: State, h: Handle, m: Msg): State
    requires h in s.services
  {
    var v := s.services[h];
    s.(services := s.services[h := v.(msgs := v.msgs + [m], pushed := v.pushed + [m], inGlobal := true)],
       global := if v.inGlobal then s.global else s.global + [h])
  }

  function GlobalPush(s: State, h: Handle): State {
    s.(global := s.global + [h])
  }

  function GlobalPop(s: State): (Option<Handle>, State) {
    if s.global == [] then (None, s) else (Some(s.global[0]), s.(global := s.global[1..]))
  }

  /** The grabbing half of skynet_handle_grab. */
  function Ref(s: State, h: Handle): State
    requires h in s.services
  {
    s.(services := s.services[h := s.services[h].(ref := s.services[h].ref + 1)])
  }

  function Unregister(s: State, h: Handle): State
    requires h in s.services
  {
    s.(services := s.services[h := s.services[h].(registered := false)])
  }

  function Become(s: State, a: ActivityId, x: Activity): State {
    s.(acts := s.acts[a := x])
  }

  /** skynet_context_release by activity a, which then goes on as x; releasing the last
      reference makes it delete the context first. */
  function Released(s: State, a: ActivityId, h: Handle, x: Activity): State
    requires h in s.services
  {
    var v := s.services[h];
    Become(s.(services := s.services[h := v.(ref := v.ref - 1)]), a,
           x.(ctx := None, deleting := if v.ref == 1 then Some(h) else None))
  }

  /** length >> weight */
  function Shift(length: nat, weight: nat): nat {
    if weight == 0 then length else Shift(length / 2, weight - 1)
  }

  predicate IsFresh(s: State, a: ActivityId) { a !in s.acts }

  predicate Registered(s: State, h: Handle) { h in s.services && s.services[h].registered }

  /** Activity a stands at pc with nothing to delete first. */
  predicate Stands(s: State, a: ActivityId, pc: Pc) {
    a in s.acts && s.acts[a].pc == pc && s.acts[a].deleting == None
  }

  predicate HasCtx(s: State, a: ActivityId) {
    a in s.acts && s.acts[a].ctx.Some? && s.acts[a].ctx.value in s.services
  }

  predicate HasQueue(s: State, a: ActivityId) {
    a in s.acts && s.acts[a].q.Some? && s.acts[a].q.value in s.services
  }

  // ---- skynet_context_new -------------------------------------------------------------

  /** Registering the handle, storing it and creating the queue form one step. */
  predicate CanLaunch(s: State, a: ActivityId, h: Handle) { IsFresh(s, a) && h !in s.services }

  function Launch(s: State, a: ActivityId, h: Handle): State {
    var v := Service(true, 2, true, true, true, false, [], [], [], []);
    Become(s.(services := s.services[h := v]), a, NewActivity(Launching).(ctx := Some(h), q := Some(h)))
  }

  predicate CanInitDone(s: State, a: ActivityId) { Stands(s, a, Launching) && HasCtx(s, a) }

  function InitDone(s: State, a: ActivityId, ok: bool): State
    requires CanInitDone(s, a)
  {
    Released(s, a, s.acts[a].ctx.value, s.acts[a].(pc := if ok then Launched else LaunchFailed))
  }

  predicate CanListLaunched(s: State, a: ActivityId) { Stands(s, a, Launched) && HasQueue(s, a) }

  function ListLaunched(s: State, a: ActivityId): State
    requires CanListLaunched(s, a)
  {
    Become(GlobalPush(s, s.acts[a].q.value), a, NewActivity(Finished))
  }

  predicate CanRetireFailed(s: State, a: ActivityId) { Stands(s, a, LaunchFailed) && HasQueue(s, a) }

  function RetireFailed(s: State, a: ActivityId): State
    requires CanRetireFailed(s, a)
  {
    var h := s.acts[a].q.value;
    if s.services[h].registered then
      Become(Unregister(s, h), a, s.acts[a].(pc := LaunchRetired, ctx := Some(h)))
    else Become(s, a, s.acts[a].(pc := Orphaned, ctx := None))
  }

  predicate CanReleaseFailed(s: State, a: ActivityId) { Stands(s, a, LaunchRetired) && HasCtx(s, a) }

  function ReleaseFailed(s: State, a: ActivityId): State
    requires CanReleaseFailed(s, a)
  {
    Released(s, a, s.acts[a].ctx.value, s.acts[a].(pc := Orphaned))
  }

  // ---- skynet_context_push --------------------------------------------------------------

  predicate CanGrabToSend(s: State, a: ActivityId, h: Handle) { IsFresh(s, a) && Registered(s, h) }

  function GrabToSend(s: State, a: ActivityId, h: Handle, m: Msg): State
    requires CanGrabToSend(s, a, h)
  {
    Become(Ref(s, h), a, NewActivity(Sending).(ctx := Some(h), m := m))
  }

  predicate CanPushMessage(s: State, a: ActivityId) { Stands(s, a, Sending) && HasCtx(s, a) }

  function PushMessage(s: State, a: ActivityId): State
    requires CanPushMessage(s, a)
  {
    Become(MqPush(s, s.acts[a].ctx.value, s.acts[a].m), a, s.acts[a].(pc := Sent))
  }

  predicate CanReleaseSent(s: State, a: ActivityId) { Stands(s, a, Sent) && HasCtx(s, a) }

  function ReleaseSent(s: State, a: ActivityId): State
    requires CanReleaseSent(s, a)
  {
    Released(s, a, s.acts[a].ctx.value, s.acts[a].(pc := Finished))
  }

  // ---- skynet_handle_retire -------------------------------------------------------------

  predicate CanRetire(s: State, a: ActivityId, h: Handle) { IsFresh(s, a) && Registered(s, h) }

  function Retire(s: State, a: ActivityId, h: Handle): State
    requires CanRetire(s, a, h)
  {
    Become(Unregister(s, h), a, NewActivity(Retiring).(ctx := Some(h)))
  }

  predicate CanReleaseRetired(s: State, a: ActivityId) { Stands(s, a, Retiring) && HasCtx(s, a) }

  function ReleaseRetired(s: State, a: ActivityId): State
    requires CanReleaseRetired(s, a)
  {
    Released(s, a, s.acts[a].ctx.value, s.acts[a].(pc := Finished))
  }

  // ---- skynet_context_message_dispatch ----------------------------------------------------

  predicate CanStartWorker(s: State, a: ActivityId) { IsFresh(s, a) }

  function StartWorker(s: State, a: ActivityId): State {
    Become(s, a, NewActivity(Waiting).(worker := true))
  }

  predicate CanTakeQueue(s: State, a: ActivityId) { Stands(s, a, Waiting) }

  function TakeQueue(s: State, a: ActivityId): State
    requires CanTakeQueue(s, a)
  {
    if s.acts[a].q.Some? then Become(s, a, s.acts[a].(pc := Popped))
    else
      var (q, s') := GlobalPop(s);
      if q.Some? then Become(s', a, s.acts[a].(pc := Popped, q := q)) else s
  }

  predicate CanGrabToDispatch(s: State, a: ActivityId) { Stands(s, a, Popped) && HasQueue(s, a) }

  function GrabToDispatch(s: State, a: ActivityId): State
    requires CanGrabToDispatch(s, a)
  {
    var h := s.acts[a].q.value;
    if s.services[h].registered then
      Become(Ref(s, h), a, s.acts[a].(pc := Looping, ctx := Some(h), i := 0, n := 1))
    else Become(s, a, s.acts[a].(pc := Orphaned, ctx := None))
  }

  predicate CanPopMessage(s: State, a: ActivityId) { Stands(s, a, Looping) && HasQueue(s, a) }

  /** One turn of the dispatch loop.  The first message is always taken; then a worker of
      non-negative weight takes length >> weight messages in all. */
  function PopMessage(s: State, a: ActivityId, weight: int): State
    requires CanPopMessage(s, a)
  {
    var x := s.acts[a];
    var h := x.q.value;
    var v := s.services[h];
    if v.msgs == [] then
      Become(s.(services := s.services[h := v.(inGlobal := false)]), a, x.(pc := Emptied, q := None))
    else
      var v' := v.(msgs := v.msgs[1..], consumed := v.consumed + [v.msgs[0]]);
      var n := if x.i == 0 && weight >= 0 then Shift(|v'.msgs|, weight) else x.n;
      Become(s.(services := s.services[h := v']), a,
             x.(pc := if x.i + 1 < n then Looping else Processed, i := x.i + 1, n := n))
  }

  predicate CanReleaseEmptied(s: State, a: ActivityId) { Stands(s, a, Emptied) && HasCtx(s, a) }

  function ReleaseEmptied(s: State, a: ActivityId): State
    requires CanReleaseEmptied(s, a)
  {
    Released(s, a, s.acts[a].ctx.value, s.acts[a].(pc := PopNext))
  }

  predicate CanPopGlobal(s: State, a: ActivityId) { Stands(s, a, PopNext) && s.acts[a].q == None }

  function PopGlobal(s: State, a: ActivityId): State
    requires CanPopGlobal(s, a)
  {
    var (q, s') := GlobalPop(s);
    Become(s', a, s.acts[a].(pc := Waiting, q := q))
  }

  predicate CanPopOther(s: State, a: ActivityId) { Stands(s, a, Processed) && s.acts[a].nq == None }

  function PopOther(s: State, a: ActivityId): State
    requires CanPopOther(s, a)
  {
    var (nq, s') := GlobalPop(s);
    Become(s', a, s.acts[a].(pc := if nq.Some? then Swapping else Returning, nq := nq))
  }

  predicate CanPutBack(s: State, a: ActivityId) { Stands(s, a, Swapping) && HasQueue(s, a) }

  function PutBack(s: State, a: ActivityId): State
    requires CanPutBack(s, a)
  {
    Become(GlobalPush(s, s.acts[a].q.value), a, s.acts[a].(pc := Returning, q := s.acts[a].nq, nq := None))
  }

  predicate CanReturnQueue(s: State, a: ActivityId) { Stands(s, a, Returning) && HasCtx(s, a) }

  function ReturnQueue(s: State, a: ActivityId): State
    requires CanReturnQueue(s, a)
  {
    Released(s, a, s.acts[a].ctx.value, s.acts[a].(pc := Waiting))
  }

  // ---- skynet_mq_release --------------------------------------------------------------------

  /** A worker goes on to pop another queue; a failed launch returns. */
  function AfterQueue(x: Activity): Activity {
    x.(pc := if x.worker then PopNext else Finished, q := None)
  }

  predicate CanCheckRelease(s: State, a: ActivityId) { Stands(s, a, Orphaned) && HasQueue(s, a) }

  function CheckRelease(s: State, a: ActivityId): State
    requires CanCheckRelease(s, a)
  {
    var h := s.acts[a].q.value;
    if s.services[h].release then Become(s, a, s.acts[a].(pc := Dropping))
    else Become(GlobalPush(s, h), a, AfterQueue(s.acts[a]))
  }

  predicate CanDropMessage(s: State, a: ActivityId) { Stands(s, a, Dropping) && HasQueue(s, a) }

  function DropMessage(s: State, a: ActivityId): State
    requires CanDropMessage(s, a)
  {
    var h := s.acts[a].q.value;
    var v := s.services[h];
    if v.msgs == [] then
      Become(s.(services := s.services[h := v.(inGlobal := false)]), a, s.acts[a].(pc := Freeing))
    else
      var v' := v.(msgs := v.msgs[1..], dropped := v.dropped + [v.msgs[0]]);
      Become(s.(services := s.services[h := v']), a, s.acts[a])
  }

  predicate CanFreeQueue(s: State, a: ActivityId) { Stands(s, a, Freeing) && HasQueue(s, a) }

  function FreeQueue(s: State, a: ActivityId): State
    requires CanFreeQueue(s, a)
  {
    var h := s.acts[a].q.value;
    Become(s.(services := s.services[h := s.services[h].(queueAlive := false)]), a, AfterQueue(s.acts[a]))
  }

  // ---- delete_context -------------------------------------------------------------------------

  predicate CanDelete(s: State, a: ActivityId) {
    a in s.acts && s.acts[a].deleting.Some? && s.acts[a].deleting.value in s.services
  }

  /** skynet_mq_mark_release, after which the context is freed. */
  function Delete(s: State, a: ActivityId): State
    requires CanDelete(s, a)
  {
    var h := s.acts[a].deleting.value;
    var v := s.services[h];
    Become(s.(services := s.services[h := v.(release := true, ctxAlive := false)],
              global := if v.inGlobal then s.global else s.global + [h]),
           a, s.acts[a].(deleting := None))
  }

  ghost predicate LaunchNext(s: State, s': State, a: ActivityId) {
    || (exists h :: CanLaunch(s, a, h) && s' == Launch(s, a, h))
    || (exists ok :: CanInitDone(s, a) && s' == InitDone(s, a, ok))
    || (CanListLaunched(s, a) && s' == ListLaunched(s, a))
    || (CanRetireFailed(s, a) && s' == RetireFailed(s, a))
    || (CanReleaseFailed(s, a) && s' == ReleaseFailed(s, a))
  }

  ghost predicate SendNext(s: State, s': State, a: ActivityId) {
    || (exists h, m :: CanGrabToSend(s, a, h) && s' == GrabToSend(s, a, h, m))
    || (CanPushMessage(s, a) && s' == PushMessage(s, a))
    || (CanReleaseSent(s, a) && s' == ReleaseSent(s, a))
    || (exists h :: CanRetire(s, a, h) && s' == Retire(s, a, h))
    || (CanReleaseRetired(s, a) && s' == ReleaseRetired(s, a))
    || (CanDelete(s, a) && s' == Delete(s, a))
  }

  ghost predicate DispatchNext(s: State, s': State, a: ActivityId) {
    || (CanStartWorker(s, a) && s' == StartWorker(s, a))
    || (CanTakeQueue(s, a) && s' == TakeQueue(s, a))
    || (CanGrabToDispatch(s, a) && s' == GrabToDispatch(s, a))
    || (exists weight :: CanPopMessage(s, a) && s' == PopMessage(s, a, weight))
    || (CanReleaseEmptied(s, a) && s' == ReleaseEmptied(s, a))
    || (CanPopGlobal(s, a) && s' == PopGlobal(s, a))
    || (CanPopOther(s, a) && s' == PopOther(s, a))
    || (CanPutBack(s, a) && s' == PutBack(s, a))
    || (CanReturnQueue(s, a) && s' == ReturnQueue(s, a))
  }

  ghost predicate ReleaseNext(s: State, s': State, a: ActivityId) {
    || (CanCheckRelease(s, a) && s' == CheckRelease(s, a))
    || (CanDropMessage(s, a) && s' == DropMessage(s, a))
    || (CanFreeQueue(s, a) && s' == FreeQueue(s, a))
  }

  ghost predicate NextBy(s: State, s': State, a: ActivityId) {
    LaunchNext(s, s', a) || SendNext(s, s', a) || DispatchNext(s, s', a) || ReleaseNext(s, s', a)
  }

  ghost predicate Next(s: State, s': State) {
    exists a :: NextBy(s, s', a)
  }

  /** A run: any interleaving from the empty system. */
  ghost predicate IsRun(run: seq<State>) {
    && run != [] && run[0] == Init
    && forall i | 0 <= i < |run| - 1 :: Next(run[i], run[i + 1])
  }

  // ---- the invariant ----------------------------------------------------------------

  predicate HoldsRef(x: Activity, h: Handle) { x.ctx == Some(h) }

  /** The activity has the queue of h in hand: nobody else may list or dispatch it. */
  predicate HoldsQueue(x: Activity, h: Handle) { x.q == Some(h) || x.nq == Some(h) }

  predicate Deletes(x: Activity, h: Handle) { x.deleting == Some(h) }

  function RefCount(s: State, h: Handle): nat { |Those(s.acts, x => HoldsRef(x, h))| }

  function OwnerCount(s: State, h: Handle): nat { |Those(s.acts, x => HoldsQueue(x, h))| }

  function DeleteCount(s: State, h: Handle): nat { |Those(s.acts, x => Deletes(x, h))| }

  function ListCount(s: State, h: Handle): nat { multiset(s.global)[h] }

  /** What holds of a service whose context is referenced by `refs` activities and being
      deleted by `deletes`, and whose queue is held by `owners` and listed `listed` times. */
  predicate Consistent(v: Service, refs: nat, owners: nat, deletes: nat, listed: nat) {
    // the reference count is the table entry plus the activities that grabbed the context
    && v.ref == refs + Bit(v.registered)
    // the context is deleted once, by whoever released the last reference
    && deletes == Bit(v.ctxAlive && v.ref == 0)
    && (!v.ctxAlive ==> v.ref == 0)
    && v.release == !v.ctxAlive
    // the token: a live queue that is flagged or released is in exactly one place
    && owners + listed == Bit(v.queueAlive && (v.inGlobal || v.release))
    && (!v.queueAlive ==> v.release && v.msgs == [])
    && (!v.inGlobal ==> v.msgs == [])
    // no message is lost, duplicated or reordered
    && v.pushed == v.consumed + v.dropped + v.msgs
    && (v.dropped != [] ==> v.release)
  }

  predicate ServiceOk(s: State, h: Handle) {
    if h in s.services then
      Consistent(s.services[h], RefCount(s, h), OwnerCount(s, h), DeleteCount(s, h), ListCount(s, h))
    else RefCount(s, h) == OwnerCount(s, h) == DeleteCount(s, h) == ListCount(s, h) == 0
  }

  predicate ActivityOk(s: State, x: Activity) {
    && (x.q.Some? ==> x.q != x.nq)
    && (x.nq.Some? ==> x.pc == Swapping)
    && (x.pc == Looping || x.pc == Processed || x.pc == Launching ==> x.q.Some? && x.ctx == x.q)
    && (x.pc in {LaunchRetired, Sending, Sent, Retiring, Emptied, Swapping, Returning} ==> x.ctx.Some?)
    && (x.pc in {Emptied, PopNext, Sending, Sent, Retiring} ==> x.q == None)
    && (x.ctx.Some? ==> x.deleting == None)
    && (x.pc in {Launched, LaunchFailed, Waiting, Popped, Orphaned, PopNext, Dropping, Freeing} ==> x.ctx == None)
    && (x.pc in {Launched, LaunchFailed, LaunchRetired, Popped, Swapping, Orphaned, Dropping, Freeing} ==> x.q.Some?)
    && (x.pc in {Dropping, Freeing} ==> x.q.value in s.services && s.services[x.q.value].release)
    && (x.pc == Freeing ==> s.services[x.q.value].msgs == [])
    && (x.pc == Finished ==> x.ctx == None && x.q == None)
  }

  ghost predicate Inv(s: State) {
    && (forall h: Handle :: ServiceOk(s, h))
    && (forall a | a in s.acts :: ActivityOk(s, s.acts[a]))
  }

  // ---- counting ---------------------------------------------------------------------

  /** The state after activity a alone has moved. */
  ghost predicate Moved(s: State, s': State, a: ActivityId) {
    a in s'.acts && s'.acts == s.acts[a := s'.acts[a]]
  }

  lemma Counts(s: State, s': State, a: ActivityId, h: Handle)
    requires Moved(s, s', a)
    ensures RefCount(s', h) + Bit(a in s.acts && HoldsRef(s.acts[a], h)) == RefCount(s, h) + Bit(HoldsRef(s'.acts[a], h))
    ensures OwnerCount(s', h) + Bit(a in s.acts && HoldsQueue(s.acts[a], h)) == OwnerCount(s, h) + Bit(HoldsQueue(s'.acts[a], h))
    ensures DeleteCount(s', h) + Bit(a in s.acts && Deletes(s.acts[a], h)) == DeleteCount(s, h) + Bit(Deletes(s'.acts[a], h))
  {
    MovedOne(s.acts, a, s'.acts[a], x => HoldsRef(x, h));
    MovedOne(s.acts, a, s'.acts[a], x => HoldsQueue(x, h));
    MovedOne(s.acts, a, s'.acts[a], x => Deletes(x, h));
  }

  /** What an activity holds is counted. */
  lemma Counted(s: State, a: ActivityId, h: Handle)
    requires a in s.acts
    ensures HoldsRef(s.acts[a], h) ==> RefCount(s, h) >= 1
    ensures HoldsQueue(s.acts[a], h) ==> OwnerCount(s, h) >= 1
    ensures Deletes(s.acts[a], h) ==> DeleteCount(s, h) >= 1
  {
    if HoldsRef(s.acts[a], h) {
      assert a in Those(s.acts, x => HoldsRef(x, h));
    }
    if HoldsQueue(s.acts[a], h) {
      assert a in Those(s.acts, x => HoldsQueue(x, h));
    }
    if Deletes(s.acts[a], h) {
      assert a in Those(s.acts, x => Deletes(x, h));
    }
  }

  lemma ListGrows(g: seq<Handle>, h: Handle, x: Handle)
    ensures multiset(g + [h])[x] == multiset(g)[x] + Bit(x == h)
  {
  }

  lemma ListShrinks(g: seq<Handle>, x: Handle)
    requires g != []
    ensures multiset(g)[x] == multiset(g[1..])[x] + Bit(x == g[0])
  {
    assert g == [g[0]] + g[1..];
  }

  // ---- every step keeps the invariant -------------------------------------------------

  lemma LaunchInv(s: State, a: ActivityId, h: Handle)
    requires Inv(s) && CanLaunch(s, a, h)
    ensures Inv(Launch(s, a, h))
  {
    var s' := Launch(s, a, h);
    forall x: Handle ensures ServiceOk(s', x) {
      assert ServiceOk(s, x);
      Counts(s, s', a, x);
    }
  }

  lemma InitDoneInv(s: State, a: ActivityId, ok: bool)
    requires Inv(s) && CanInitDone(s, a)
    ensures Inv(InitDone(s, a, ok))
  {
    var s' := InitDone(s, a, ok);
    forall h: Handle ensures ServiceOk(s', h) {
      assert ServiceOk(s, h);
      Counts(s, s', a, h);
      Counted(s, a, h);
    }
  }

  lemma ListLaunchedInv(s: State, a: ActivityId)
    requires Inv(s) && CanListLaunched(s, a)
    ensures Inv(ListLaunched(s, a))
  {
    var s' := ListLaunched(s, a);
    assert ActivityOk(s, s.acts[a]);
    forall b | b in s'.acts ensures ActivityOk(s', s'.acts[b]) {
      if b != a {
        assert ActivityOk(s, s.acts[b]);
      }
    }
    forall h: Handle ensures ServiceOk(s', h) {
      assert ServiceOk(s, h);
      Counts(s, s', a, h);
      Counted(s, a, h);
      ListGrows(s.global, s.acts[a].q.value, h);
    }
  }

  lemma RetireFailedOwn(s: State, a: ActivityId, h: Handle)
    requires CanRetireFailed(s, a) && s.acts[a].q.value == h && ActivityOk(s, s.acts[a]) && ServiceOk(s, h)
    ensures ServiceOk(RetireFailed(s, a), h)
  {
    Counts(s, RetireFailed(s, a), a, h);
    Counted(s, a, h);
  }

  lemma RetireFailedInv(s: State, a: ActivityId)
    requires Inv(s) && CanRetireFailed(s, a)
    ensures Inv(RetireFailed(s, a))
  {
    var s' := RetireFailed(s, a);
    forall h: Handle ensures ServiceOk(s', h) {
      assert ServiceOk(s, h);
      if s.acts[a].q.value == h {
        RetireFailedOwn(s, a, h);
      } else {
        Counts(s, s', a, h);
      }
    }
  }

  lemma ReleaseFailedInv(s: State, a: ActivityId)
    requires Inv(s) && CanReleaseFailed(s, a)
    ensures Inv(ReleaseFailed(s, a))
  {
    var s' := ReleaseFailed(s, a);
    forall h: Handle ensures ServiceOk(s', h) {
      assert ServiceOk(s, h);
      Counts(s, s', a, h);
      Counted(s, a, h);
    }
  }

  lemma GrabToSendInv(s: State, a: ActivityId, h: Handle, m: Msg)
    requires Inv(s) && CanGrabToSend(s, a, h)
    ensures Inv(GrabToSend(s, a, h, m))
  {
    var s' := GrabToSend(s, a, h, m);
    forall x: Handle ensures ServiceOk(s', x) {
      assert ServiceOk(s, x);
      Counts(s, s', a, x);
    }
  }

  lemma PushMessageInv(s: State, a: ActivityId)
    requires Inv(s) && CanPushMessage(s, a)
    ensures Inv(PushMessage(s, a))
  {
    var s' := PushMessage(s, a);
    var h0 := s.acts[a].ctx.value;
    var v, v' := s.services[h0], s'.services[h0];
    assert ServiceOk(s, h0);
    Counted(s, a, h0);
    assert !v.release && v.queueAlive;
    assert v'.pushed == v'.consumed + v'.dropped + v'.msgs;
    forall h: Handle ensures ServiceOk(s', h) {
      assert ServiceOk(s, h);
      Counts(s, s', a, h);
      ListGrows(s.global, h0, h);
    }
    forall b | b in s'.acts ensures ActivityOk(s', s'.acts[b]) {
      assert ActivityOk(s, s.acts[b]);
    }
  }

  lemma ReleaseSentInv(s: State, a: ActivityId)
    requires Inv(s) && CanReleaseSent(s, a)
    ensures Inv(ReleaseSent(s, a))
  {
    var s' := ReleaseSent(s, a);
    forall h: Handle ensures ServiceOk(s', h) {
      assert ServiceOk(s, h);
      Counts(s, s', a, h);
      Counted(s, a, h);
    }
  }

  lemma RetireInv(s: State, a: ActivityId, h: Handle)
    requires Inv(s) && CanRetire(s, a, h)
    ensures Inv(Retire(s, a, h))
  {
    var s' := Retire(s, a, h);
    forall x: Handle ensures ServiceOk(s', x) {
      assert ServiceOk(s, x);
      Counts(s, s', a, x);
    }
  }

  lemma ReleaseRetiredInv(s: State, a: ActivityId)
    requires Inv(s) && CanReleaseRetired(s, a)
    ensures Inv(ReleaseRetired(s, a))
  {
    var s' := ReleaseRetired(s, a);
    forall h: Handle ensures ServiceOk(s', h) {
      assert ServiceOk(s, h);
      Counts(s, s', a, h);
      Counted(s, a, h);
    }
  }

  lemma StartWorkerInv(s: State, a: ActivityId)
    requires Inv(s) && CanStartWorker(s, a)
    ensures Inv(StartWorker(s, a))
  {
    var s' := StartWorker(s, a);
    forall h: Handle ensures ServiceOk(s', h) {
      assert ServiceOk(s, h);
      Counts(s, s', a, h);
    }
  }

  lemma TakeQueueInv(s: State, a: ActivityId)
    requires Inv(s) && CanTakeQueue(s, a)
    ensures Inv(TakeQueue(s, a))
  {
    var s' := TakeQueue(s, a);
    forall h: Handle ensures ServiceOk(s', h) {
      assert ServiceOk(s, h);
      Counts(s, s', a, h);
      Counted(s, a, h);
      if s.global != [] {
        ListShrinks(s.global, h);
      }
    }
  }

  lemma GrabToDispatchInv(s: State, a: ActivityId)
    requires Inv(s) && CanGrabToDispatch(s, a)
    ensures Inv(GrabToDispatch(s, a))
  {
    var s' := GrabToDispatch(s, a);
    forall h: Handle ensures ServiceOk(s', h) {
      assert ServiceOk(s, h);
      Counts(s, s', a, h);
      Counted(s, a, h);
    }
  }

  lemma PopOwnService(s: State, a: ActivityId, weight: int, h: Handle)
    requires CanPopMessage(s, a) && s.acts[a].q == Some(h) && ActivityOk(s, s.acts[a]) && ServiceOk(s, h)
    ensures ServiceOk(PopMessage(s, a, weight), h)
  {
    Counts(s, PopMessage(s, a, weight), a, h);
    Counted(s, a, h);
  }

  lemma PopMessageInv(s: State, a: ActivityId, weight: int)
    requires Inv(s) && CanPopMessage(s, a)
    ensures Inv(PopMessage(s, a, weight))
  {
    var s' := PopMessage(s, a, weight);
    assert ActivityOk(s, s.acts[a]);
    forall b | b in s'.acts ensures ActivityOk(s', s'.acts[b]) {
      if b != a {
        assert ActivityOk(s, s.acts[b]);
      }
    }
    forall h: Handle ensures ServiceOk(s', h) {
      assert ServiceOk(s, h);
      if s.acts[a].q == Some(h) {
        PopOwnService(s, a, weight, h);
      } else {
        Counts(s, s', a, h);
      }
    }
  }

  lemma ReleaseEmptiedInv(s: State, a: ActivityId)
    requires Inv(s) && CanReleaseEmptied(s, a)
    ensures Inv(ReleaseEmptied(s, a))
  {
    var s' := ReleaseEmptied(s, a);
    forall h: Handle ensures ServiceOk(s', h) {
      assert ServiceOk(s, h);
      Counts(s, s', a, h);
      Counted(s, a, h);
    }
  }

  lemma PopGlobalInv(s: State, a: ActivityId)
    requires Inv(s) && CanPopGlobal(s, a)
    ensures Inv(PopGlobal(s, a))
  {
    var s' := PopGlobal(s, a);
    forall h: Handle ensures ServiceOk(s', h) {
      assert ServiceOk(s, h);
      Counts(s, s', a, h);
      Counted(s, a, h);
      if s.global != [] {
        ListShrinks(s.global, h);
      }
    }
  }

  lemma PopOtherInv(s: State, a: ActivityId)
    requires Inv(s) && CanPopOther(s, a)
    ensures Inv(PopOther(s, a))
  {
    var s' := PopOther(s, a);
    if s.global != [] {
      var next := s.global[0];
      assert ServiceOk(s, next);
      Counted(s, a, next);
      assert s.acts[a].q != Some(next);
    }
    forall h: Handle ensures ServiceOk(s', h) {
      assert ServiceOk(s, h);
      Counts(s, s', a, h);
      if s.global != [] {
        ListShrinks(s.global, h);
      }
    }
  }

  lemma PutBackInv(s: State, a: ActivityId)
    requires Inv(s) && CanPutBack(s, a)
    ensures Inv(PutBack(s, a))
  {
    var s' := PutBack(s, a);
    forall h: Handle ensures ServiceOk(s', h) {
      assert ServiceOk(s, h);
      Counts(s, s', a, h);
      Counted(s, a, h);
      ListGrows(s.global, s.acts[a].q.value, h);
    }
  }

  lemma ReturnQueueInv(s: State, a: ActivityId)
    requires Inv(s) && CanReturnQueue(s, a)
    ensures Inv(ReturnQueue(s, a))
  {
    var s' := ReturnQueue(s, a);
    forall h: Handle ensures ServiceOk(s', h) {
      assert ServiceOk(s, h);
      Counts(s, s', a, h);
      Counted(s, a, h);
    }
  }

  lemma CheckReleaseOwn(s: State, a: ActivityId, h: Handle)
    requires CanCheckRelease(s, a) && s.acts[a].q.value == h && ActivityOk(s, s.acts[a]) && ServiceOk(s, h)
    ensures ServiceOk(CheckRelease(s, a), h)
  {
    Counts(s, CheckRelease(s, a), a, h);
    Counted(s, a, h);
    ListGrows(s.global, s.acts[a].q.value, h);
  }

  lemma CheckReleaseOther(s: State, a: ActivityId, h: Handle)
    requires CanCheckRelease(s, a) && s.acts[a].q.value != h && s.acts[a].nq == None && ServiceOk(s, h)
    ensures ServiceOk(CheckRelease(s, a), h)
  {
    Counts(s, CheckRelease(s, a), a, h);
    ListGrows(s.global, s.acts[a].q.value, h);
  }

  lemma CheckReleaseInv(s: State, a: ActivityId)
    requires Inv(s) && CanCheckRelease(s, a)
    ensures Inv(CheckRelease(s, a))
  {
    var s' := CheckRelease(s, a);
    forall h: Handle ensures ServiceOk(s', h) {
      assert ServiceOk(s, h) && ActivityOk(s, s.acts[a]);
      if s.acts[a].q.value == h {
        CheckReleaseOwn(s, a, h);
      } else {
        CheckReleaseOther(s, a, h);
      }
    }
  }

  /** Dropping the first message left keeps all messages in order. */
  lemma DropFirst(v: Service)
    ensures v.msgs != [] ==>
              v.consumed + v.dropped + v.msgs == v.consumed + (v.dropped + [v.msgs[0]]) + v.msgs[1..]
  {
    if v.msgs != [] {
      assert v.msgs == [v.msgs[0]] + v.msgs[1..];
      Assoc(v.consumed, v.dropped, [v.msgs[0]]);
      Assoc(v.consumed + v.dropped, [v.msgs[0]], v.msgs[1..]);
    }
  }

  lemma DropOwnService(s: State, a: ActivityId, h: Handle)
    requires CanDropMessage(s, a) && s.acts[a].q == Some(h) && ActivityOk(s, s.acts[a]) && ServiceOk(s, h)
    ensures ServiceOk(DropMessage(s, a), h)
  {
    DropFirst(s.services[h]);
    Counts(s, DropMessage(s, a), a, h);
    Counted(s, a, h);
  }

  lemma DropMessageInv(s: State, a: ActivityId)
    requires Inv(s) && CanDropMessage(s, a)
    ensures Inv(DropMessage(s, a))
  {
    var s' := DropMessage(s, a);
    forall h: Handle ensures ServiceOk(s', h) {
      assert ServiceOk(s, h);
      if s.acts[a].q == Some(h) {
        DropOwnService(s, a, h);
      } else {
        Counts(s, s', a, h);
      }
    }
  }

  lemma FreeQueueOwn(s: State, a: ActivityId, h: Handle)
    requires CanFreeQueue(s, a) && s.acts[a].q.value == h && ActivityOk(s, s.acts[a]) && ServiceOk(s, h)
    ensures ServiceOk(FreeQueue(s, a), h)
  {
    Counts(s, FreeQueue(s, a), a, h);
    Counted(s, a, h);
  }

  lemma FreeQueueOther(s: State, a: ActivityId, h: Handle)
    requires CanFreeQueue(s, a) && s.acts[a].q.value != h && ServiceOk(s, h)
    ensures ServiceOk(FreeQueue(s, a), h)
  {
    Counts(s, FreeQueue(s, a), a, h);
  }

  lemma FreeQueueInv(s: State, a: ActivityId)
    requires Inv(s) && CanFreeQueue(s, a)
    ensures Inv(FreeQueue(s, a))
  {
    var s' := FreeQueue(s, a);
    forall h: Handle ensures ServiceOk(s', h) {
      assert ServiceOk(s, h) && ActivityOk(s, s.acts[a]);
      if s.acts[a].q.value == h {
        FreeQueueOwn(s, a, h);
      } else {
        FreeQueueOther(s, a, h);
      }
    }
  }

  lemma DeleteOwn(s: State, a: ActivityId, h: Handle)
    requires CanDelete(s, a) && s.acts[a].deleting.value == h && ActivityOk(s, s.acts[a]) && ServiceOk(s, h)
    ensures ServiceOk(Delete(s, a), h)
  {
    Counts(s, Delete(s, a), a, h);
    Counted(s, a, h);
    ListGrows(s.global, s.acts[a].deleting.value, h);
  }

  lemma DeleteInv(s: State, a: ActivityId)
    requires Inv(s) && CanDelete(s, a)
    ensures Inv(Delete(s, a))
  {
    var s' := Delete(s, a);
    forall h: Handle ensures ServiceOk(s', h) {
      assert ServiceOk(s, h);
      if s.acts[a].deleting.value == h {
        DeleteOwn(s, a, h);
      } else {
        Counts(s, s', a, h);
        ListGrows(s.global, s.acts[a].deleting.value, h);
      }
    }
  }

  lemma LaunchNextInv(s: State, s': State, a: ActivityId)
    requires Inv(s) && LaunchNext(s, s', a)
    ensures Inv(s')
  {
    if h :| CanLaunch(s, a, h) && s' == Launch(s, a, h) {
      LaunchInv(s, a, h);
    } else if ok :| CanInitDone(s, a) && s' == InitDone(s, a, ok) {
      InitDoneInv(s, a, ok);
    } else if CanListLaunched(s, a) && s' == ListLaunched(s, a) {
      ListLaunchedInv(s, a);
    } else if CanRetireFailed(s, a) && s' == RetireFailed(s, a) {
      RetireFailedInv(s, a);
    } else if CanReleaseFailed(s, a) && s' == ReleaseFailed(s, a) {
      ReleaseFailedInv(s, a);
    }
  }

  lemma SendNextInv(s: State, s': State, a: ActivityId)
    requires Inv(s) && SendNext(s, s', a)
    ensures Inv(s')
  {
    if h, m :| CanGrabToSend(s, a, h) && s' == GrabToSend(s, a, h, m) {
      GrabToSendInv(s, a, h, m);
    } else if CanPushMessage(s, a) && s' == PushMessage(s, a) {
      PushMessageInv(s, a);
    } else if CanReleaseSent(s, a) && s' == ReleaseSent(s, a) {
      ReleaseSentInv(s, a);
    } else if h :| CanRetire(s, a, h) && s' == Retire(s, a, h) {
      RetireInv(s, a, h);
    } else if CanReleaseRetired(s, a) && s' == ReleaseRetired(s, a) {
      ReleaseRetiredInv(s, a);
    } else if CanDelete(s, a) && s' == Delete(s, a) {
      DeleteInv(s, a);
    }
  }

  lemma DispatchNextInv(s: State, s': State, a: ActivityId)
    requires Inv(s) && DispatchNext(s, s', a)
    ensures Inv(s')
  {
    if CanStartWorker(s, a) && s' == StartWorker(s, a) {
      StartWorkerInv(s, a);
    } else if CanTakeQueue(s, a) && s' == TakeQueue(s, a) {
      TakeQueueInv(s, a);
    } else if CanGrabToDispatch(s, a) && s' == GrabToDispatch(s, a) {
      GrabToDispatchInv(s, a);
    } else if weight :| CanPopMessage(s, a) && s' == PopMessage(s, a, weight) {
      PopMessageInv(s, a, weight);
    } else if CanReleaseEmptied(s, a) && s' == ReleaseEmptied(s, a) {
      ReleaseEmptiedInv(s, a);
    } else if CanPopGlobal(s, a) && s' == PopGlobal(s, a) {
      PopGlobalInv(s, a);
    } else if CanPopOther(s, a) && s' == PopOther(s, a) {
      PopOtherInv(s, a);
    } else if CanPutBack(s, a) && s' == PutBack(s, a) {
      PutBackInv(s, a);
    } else if CanReturnQueue(s, a) && s' == ReturnQueue(s, a) {
      ReturnQueueInv(s, a);
    }
  }

  lemma ReleaseNextInv(s: State, s': State, a: ActivityId)
    requires Inv(s) && ReleaseNext(s, s', a)
    ensures Inv(s')
  {
    if CanCheckRelease(s, a) && s' == CheckRelease(s, a) {
      CheckReleaseInv(s, a);
    } else if CanDropMessage(s, a) && s' == DropMessage(s, a) {
      DropMessageInv(s, a);
    } else if CanFreeQueue(s, a) && s' == FreeQueue(s, a) {
      FreeQueueInv(s, a);
    }
  }

  lemma NextInv(s: State, s': State)
    requires Inv(s) && Next(s, s')
    ensures Inv(s')
  {
    var a :| NextBy(s, s', a);
    if LaunchNext(s, s', a) {
      LaunchNextInv(s, s', a);
    } else if SendNext(s, s', a) {
      SendNextInv(s, s', a);
    } else if DispatchNext(s, s', a) {
      DispatchNextInv(s, s', a);
    } else {
      ReleaseNextInv(s, s', a);
    }
  }

  /** The invariant holds in every state of every run. */
  lemma {:induction false} RunInv(run: seq<State>, i: nat)
    requires IsRun(run) && i < |run|
    ensures Inv(run[i])
  {
    if i == 0 {
      InitInv();
    } else {
      RunInv(run, i - 1);
      assert Next(run[i - 1], run[i - 1 + 1]);
      NextInv(run[i - 1], run[i]);
    }
  }

  lemma InitInv()
    ensures Inv(Init)
  {
    forall h: Handle ensures ServiceOk(Init, h) {
      assert Those(Init.acts, x => HoldsRef(x, h)) == {};
      assert Those(Init.acts, x => HoldsQueue(x, h)) == {};
      assert Those(Init.acts, x => Deletes(x, h)) == {};
    }
  }

  // ---- what every run keeps ---------------------------------------------------------------

  /** No two activities have one queue in hand, so no two workers dispatch one service. */
  lemma SingleDispatcher(run: seq<State>, i: nat, h: Handle, a: ActivityId, b: ActivityId)
    requires IsRun(run) && i < |run|
    requires a in run[i].acts && HoldsQueue(run[i].acts[a], h)
    requires b in run[i].acts && HoldsQueue(run[i].acts[b], h)
    ensures a == b && h !in run[i].global
  {
    RunInv(run, i);
    var s := run[i];
    assert ServiceOk(s, h);
    SomeOne(s.acts, a, x => HoldsQueue(x, h));
    Counted(s, a, h);
  }

  /** The token: a live queue that is flagged or released is in exactly one place, once on
      the global list or in one hand; any other queue is in none, and is empty. */
  lemma TokenExact(run: seq<State>, i: nat, h: Handle)
    requires IsRun(run) && i < |run| && h in run[i].services
    ensures var s, v := run[i], run[i].services[h];
            var places := multiset(s.global)[h] + |Those(s.acts, x => HoldsQueue(x, h))|;
            if v.queueAlive && (v.inGlobal || v.release) then places == 1 else places == 0 && v.msgs == []
  {
    RunInv(run, i);
    assert ServiceOk(run[i], h);
  }

  /** No message is stranded: a queue with messages is listed once, or in one hand, and not
      both. */
  lemma NotStranded(run: seq<State>, i: nat, h: Handle)
    requires IsRun(run) && i < |run|
    requires h in run[i].services && run[i].services[h].msgs != []
    ensures h in run[i].global || exists a :: a in run[i].acts && HoldsQueue(run[i].acts[a], h)
    ensures multiset(run[i].global)[h] + |Those(run[i].acts, x => HoldsQueue(x, h))| == 1
  {
    TokenExact(run, i, h);
    var s := run[i];
    if h !in s.global {
      var holders := Those(s.acts, x => HoldsQueue(x, h));
      assert |holders| == 1;
      var a :| a in holders;
      assert HoldsQueue(s.acts[a], h);
    }
  }

  /** Messages are neither lost nor duplicated nor reordered, through death as well: what a
      service accepted is what it consumed, then what was dropped, then what it still has;
      and of a freed queue nothing is left. */
  lemma Conservation(run: seq<State>, i: nat, h: Handle)
    requires IsRun(run) && i < |run| && h in run[i].services
    ensures var v := run[i].services[h];
            && v.pushed == v.consumed + v.dropped + v.msgs
            && (!v.queueAlive ==> v.pushed == v.consumed + v.dropped)
            && (v.dropped != [] ==> !v.ctxAlive)
  {
    RunInv(run, i);
    assert ServiceOk(run[i], h);
  }

  /** A freed queue is in nobody's hand and on no list; a grabbed context is alive, and so
      is its queue: nothing is pushed to a freed queue. */
  lemma MemorySafe(run: seq<State>, i: nat, a: ActivityId, h: Handle)
    requires IsRun(run) && i < |run| && a in run[i].acts
    ensures HoldsQueue(run[i].acts[a], h) ==> h in run[i].services && run[i].services[h].queueAlive
    ensures h in run[i].global ==> h in run[i].services && run[i].services[h].queueAlive
    ensures HoldsRef(run[i].acts[a], h) ==>
              h in run[i].services && run[i].services[h].ctxAlive && run[i].services[h].queueAlive
    ensures Registered(run[i], h) ==> run[i].services[h].ctxAlive && run[i].services[h].queueAlive
    ensures Deletes(run[i].acts[a], h) ==> h in run[i].services && run[i].services[h].ctxAlive
  {
    RunInv(run, i);
    assert ServiceOk(run[i], h);
    Counted(run[i], a, h);
  }

  /** The assertions of the source: a queue put on the global list is not on it, a context
      is marked released once, and a freed queue is not listed. */
  lemma SourceAssertions(run: seq<State>, i: nat, a: ActivityId)
    requires IsRun(run) && i < |run| && a in run[i].acts
    ensures var s := run[i];
            && (CanPutBack(s, a) || CanListLaunched(s, a) || CanCheckRelease(s, a) || CanFreeQueue(s, a) ==>
                  s.acts[a].q.value !in s.global)
            && (CanPushMessage(s, a) && !s.services[s.acts[a].ctx.value].inGlobal ==> s.acts[a].ctx.value !in s.global)
            && (CanDelete(s, a) ==> !s.services[s.acts[a].deleting.value].release)
            && (CanDelete(s, a) && !s.services[s.acts[a].deleting.value].inGlobal ==>
                  s.acts[a].deleting.value !in s.global)
  {
    RunInv(run, i);
    var s := run[i];
    forall h: Handle ensures HoldsQueue(s.acts[a], h) ==> h !in s.global
      ensures HoldsRef(s.acts[a], h) ==> h in s.services && !s.services[h].release && (!s.services[h].inGlobal ==> h !in s.global)
      ensures Deletes(s.acts[a], h) ==> h in s.services && !s.services[h].release && (!s.services[h].inGlobal ==> h !in s.global)
    {
      assert ServiceOk(s, h);
      Counted(s, a, h);
    }
  }

  /** A step touches only a service that its activity holds or finds in the table. */
  ghost predicate TouchesHeld(s: State, s': State, a: ActivityId, h: Handle) {
    h in s.services ==>
      && h in s'.services
      && (s'.services[h] == s.services[h] || Registered(s, h) ||
          (a in s.acts && (HoldsRef(s.acts[a], h) || HoldsQueue(s.acts[a], h) || Deletes(s.acts[a], h))))
  }

  lemma LaunchTouchesHeld(s: State, s': State, a: ActivityId, h: Handle)
    requires LaunchNext(s, s', a)
    ensures TouchesHeld(s, s', a, h)
  {
  }

  lemma SendTouchesHeld(s: State, s': State, a: ActivityId, h: Handle)
    requires SendNext(s, s', a)
    ensures TouchesHeld(s, s', a, h)
  {
  }

  lemma DispatchTouchesHeld(s: State, s': State, a: ActivityId, h: Handle)
    requires DispatchNext(s, s', a)
    ensures TouchesHeld(s, s', a, h)
  {
  }

  lemma ReleaseTouchesHeld(s: State, s': State, a: ActivityId, h: Handle)
    requires ReleaseNext(s, s', a)
    ensures TouchesHeld(s, s', a, h)
  {
  }

  lemma NextTouchesHeld(s: State, s': State, a: ActivityId, h: Handle)
    requires NextBy(s, s', a)
    ensures TouchesHeld(s, s', a, h)
  {
    if LaunchNext(s, s', a) {
      LaunchTouchesHeld(s, s', a, h);
    } else if SendNext(s, s', a) {
      SendTouchesHeld(s, s', a, h);
    } else if DispatchNext(s, s', a) {
      DispatchTouchesHeld(s, s', a, h);
    } else {
      ReleaseTouchesHeld(s, s', a, h);
    }
  }

  /** A step keeps the service of h as it is if its queue is freed. */
  predicate KeepsFreed(s: State, s': State, h: Handle) {
    h in s.services && !s.services[h].queueAlive ==> h in s'.services && s'.services[h] == s.services[h]
  }

  lemma {:induction false} KeptAlong(run: seq<State>, i: nat, j: nat, h: Handle)
    requires i <= j < |run| && forall k :: i <= k < j ==> KeepsFreed(run[k], run[k + 1], h)
    requires h in run[i].services && !run[i].services[h].queueAlive
    ensures h in run[j].services && run[j].services[h] == run[i].services[h]
  {
    if i < j {
      KeptAlong(run, i, j - 1, h);
      assert KeepsFreed(run[j - 1], run[j - 1 + 1], h);
    }
  }

  /** A queue is freed once: from then on nothing of its service ever changes. */
  lemma FreedForever(run: seq<State>, i: nat, j: nat, h: Handle)
    requires IsRun(run) && i <= j < |run|
    requires h in run[i].services && !run[i].services[h].queueAlive
    ensures h in run[j].services && run[j].services[h] == run[i].services[h]
  {
    forall k | i <= k < j ensures KeepsFreed(run[k], run[k + 1], h) {
      FreedNext(run, k, h);
    }
    KeptAlong(run, i, j, h);
  }

  lemma FreedNext(run: seq<State>, i: nat, h: Handle)
    requires IsRun(run) && i + 1 < |run|
    ensures KeepsFreed(run[i], run[i + 1], h)
  {
    RunInv(run, i);
    assert Next(run[i], run[i + 1]);
    if h in run[i].services && !run[i].services[h].queueAlive {
      FreedStep(run[i], run[i + 1], h);
    }
  }

  lemma FreedStep(s: State, s': State, h: Handle)
    requires Inv(s) && Next(s, s') && h in s.services && !s.services[h].queueAlive
    ensures h in s'.services && s'.services[h] == s.services[h]
  {
    var a :| NextBy(s, s', a);
    NothingHeld(s, a, h);
    NextTouchesHeld(s, s', a, h);
  }

  lemma NothingHeld(s: State, a: ActivityId, h: Handle)
    requires Inv(s) && h in s.services && !s.services[h].queueAlive
    ensures !Registered(s, h)
    ensures a in s.acts ==> !HoldsRef(s.acts[a], h) && !HoldsQueue(s.acts[a], h) && !Deletes(s.acts[a], h)
  {
    assert ServiceOk(s, h);
    if a in s.acts {
      Counted(s, a, h);
    }
  }
}
