/** What becomes of a message that is sent, over all runs of `ServiceProtocol`. */
module ServiceDelivery {
  import opened Prelude
  import opened Counting
  import opened ServiceProtocol

  /** Message m is put behind all messages of h; the queue is flagged, and is listed once
      more unless it was flagged; other services stay as they are. */
  predicate Appended(s: State, s': State, h: Handle, m: Msg) {
    && h in s.services && s'.services.Keys == s.services.Keys
    && (forall g :: g in s.services && g != h ==> s'.services[g] == s.services[g])
    && var v, v' := s.services[h], s'.services[h];
       && v'.msgs == v.msgs + [m] && v'.pushed == v.pushed + [m] && v'.inGlobal
       && v'.consumed == v.consumed && v'.dropped == v.dropped
       && s'.global == s.global + if v.inGlobal then [] else [h]
  }

  /** The oldest message of h is taken out, to be dispatched or to be dropped. */
  predicate TakenOut(v: Service, v': Service, dispatched: bool) {
    && v.msgs != [] && v'.msgs == v.msgs[1..] && v'.pushed == v.pushed
    && v'.consumed == v.consumed + (if dispatched then [v.msgs[0]] else [])
    && v'.dropped == v.dropped + (if dispatched then [] else [v.msgs[0]])
  }

  predicate SameMessages(v: Service, v': Service) {
    v'.msgs == v.msgs && v'.pushed == v.pushed && v'.consumed == v.consumed && v'.dropped == v.dropped
  }

  predicate HasMoved(s: State, s': State, a: ActivityId) {
    a in s.acts && a in s'.acts && s'.acts[a] != s.acts[a]
  }

  lemma OthersStay(s: State, s': State, a: ActivityId, b: ActivityId)
    requires NextBy(s, s', b) && HasMoved(s, s', a)
    ensures a == b
  {
  }

  // ---- a send -----------------------------------------------------------------------------------

  lemma SendStep(s: State, s': State, a: ActivityId)
    requires NextBy(s, s', a) && a in s.acts && s.acts[a].pc == Sending && ActivityOk(s, s.acts[a])
    ensures CanPushMessage(s, a) && s' == PushMessage(s, a)
  {
  }

  lemma PushAppends(s: State, a: ActivityId)
    requires CanPushMessage(s, a)
    ensures Appended(s, PushMessage(s, a), s.acts[a].ctx.value, s.acts[a].m)
    ensures PushMessage(s, a).acts[a] == s.acts[a].(pc := Sent)
  {
    assert s.global + [] == s.global;
  }

  /** An activity that has grabbed a context to send a message goes on by appending it. */
  lemma SendAppends(run: seq<State>, i: nat, a: ActivityId)
    requires IsRun(run) && i + 1 < |run| && HasMoved(run[i], run[i + 1], a) && run[i].acts[a].pc == Sending
    ensures var x := run[i].acts[a];
            x.ctx.Some? && Appended(run[i], run[i + 1], x.ctx.value, x.m) && run[i + 1].acts[a] == x.(pc := Sent)
  {
    RunInv(run, i);
    assert Next(run[i], run[i + 1]);
    var b :| NextBy(run[i], run[i + 1], b);
    OthersStay(run[i], run[i + 1], a, b);
    SendStep(run[i], run[i + 1], a);
    PushAppends(run[i], a);
  }

  // ---- messages move --------------------------------------------------------------------------------

  /** What a step of activity a may do to the messages of h: append the one it sends,
      dispatch the oldest, or drop it. */
  predicate MessagesMove(s: State, s': State, a: ActivityId, h: Handle) {
    h in s.services ==>
      && h in s'.services
      && var v, v' := s.services[h], s'.services[h];
         || SameMessages(v, v')
         || (Stands(s, a, Sending) && s.acts[a].ctx == Some(h) && Appended(s, s', h, s.acts[a].m))
         || (Stands(s, a, Looping) && s.acts[a].q == Some(h) && TakenOut(v, v', true))
         || (Stands(s, a, Dropping) && s.acts[a].q == Some(h) && TakenOut(v, v', false))
  }

  lemma LaunchMoves(s: State, s': State, a: ActivityId, h: Handle)
    requires LaunchNext(s, s', a)
    ensures MessagesMove(s, s', a, h)
  {
  }

  lemma SendMoves(s: State, s': State, a: ActivityId, h: Handle)
    requires SendNext(s, s', a)
    ensures MessagesMove(s, s', a, h)
  {
    if CanPushMessage(s, a) && s' == PushMessage(s, a) {
      PushAppends(s, a);
    } else {
      QuietMoves(s, s', a, h);
    }
  }

  lemma QuietMoves(s: State, s': State, a: ActivityId, h: Handle)
    requires SendNext(s, s', a) && !(CanPushMessage(s, a) && s' == PushMessage(s, a))
    ensures h in s.services ==> h in s'.services && SameMessages(s.services[h], s'.services[h])
  {
  }

  lemma PopMoves(s: State, a: ActivityId, weight: int, h: Handle)
    requires CanPopMessage(s, a)
    ensures MessagesMove(s, PopMessage(s, a, weight), a, h)
  {
  }

  lemma DispatchMoves(s: State, s': State, a: ActivityId, h: Handle)
    requires DispatchNext(s, s', a)
    ensures MessagesMove(s, s', a, h)
  {
    if weight :| CanPopMessage(s, a) && s' == PopMessage(s, a, weight) {
      PopMoves(s, a, weight, h);
    } else {
      IdleMoves(s, s', a, h);
    }
  }

  lemma IdleMoves(s: State, s': State, a: ActivityId, h: Handle)
    requires DispatchNext(s, s', a) && !exists weight :: CanPopMessage(s, a) && s' == PopMessage(s, a, weight)
    ensures h in s.services ==> h in s'.services && SameMessages(s.services[h], s'.services[h])
  {
  }

  lemma ReleaseMoves(s: State, s': State, a: ActivityId, h: Handle)
    requires ReleaseNext(s, s', a)
    ensures MessagesMove(s, s', a, h)
  {
  }

  ghost predicate SomeoneMoves(s: State, s': State, h: Handle) { exists a :: MessagesMove(s, s', a, h) }

  /** In every step of every run, messages are only appended by a sender that holds the
      context, and taken out, oldest first, by the worker that has the queue. */
  lemma MessagesOnlyMove(run: seq<State>, i: nat, h: Handle)
    requires IsRun(run) && i + 1 < |run|
    ensures SomeoneMoves(run[i], run[i + 1], h)
  {
    assert Next(run[i], run[i + 1]);
    var a :| NextBy(run[i], run[i + 1], a);
    if LaunchNext(run[i], run[i + 1], a) {
      LaunchMoves(run[i], run[i + 1], a, h);
    } else if SendNext(run[i], run[i + 1], a) {
      SendMoves(run[i], run[i + 1], a, h);
    } else if DispatchNext(run[i], run[i + 1], a) {
      DispatchMoves(run[i], run[i + 1], a, h);
    } else {
      ReleaseMoves(run[i], run[i + 1], a, h);
    }
  }

  predicate HasPushed(s: State, h: Handle, so: seq<Msg>) { h in s.services && so <= s.services[h].pushed }

  lemma StillPushed(run: seq<State>, j: nat, i: nat, h: Handle, so: seq<Msg>)
    requires IsRun(run) && j <= i < |run| && HasPushed(run[j], h, so)
    ensures HasPushed(run[i], h, so)
  {
    forall k: nat | j <= k < i && HasPushed(run[k], h, so) ensures HasPushed(run[k + 1], h, so) {
      MessagesOnlyMove(run, k, h);
    }
    Along((k: nat) => k < |run| && HasPushed(run[k], h, so), j, i);
  }

  /** Either the sender still stands where it stood, or its message has been pushed. */
  ghost predicate SendPhase(run: seq<State>, j: nat, k: nat, a: ActivityId, h: Handle)
    requires j < |run| && a in run[j].acts
  {
    && k < |run| && a in run[k].acts
    && (run[k].acts[a] == run[j].acts[a] ||
        exists m: nat :: j <= m < k && PushesAt(run, m, h, run[j].acts[a].m))
  }

  predicate PushesAt(run: seq<State>, k: nat, h: Handle, m: Msg) {
    k + 1 < |run| && Appended(run[k], run[k + 1], h, m)
  }

  lemma SendPhaseStep(run: seq<State>, j: nat, k: nat, a: ActivityId, h: Handle)
    requires IsRun(run) && j <= k && k + 1 < |run|
    requires a in run[j].acts && run[j].acts[a].pc == Sending && run[j].acts[a].ctx == Some(h)
    requires SendPhase(run, j, k, a, h)
    ensures SendPhase(run, j, k + 1, a, h)
  {
    assert Next(run[k], run[k + 1]);
    ActsStay(run[k], run[k + 1]);
    if run[k].acts[a] == run[j].acts[a] && run[k + 1].acts[a] != run[k].acts[a] {
      SendAppends(run, k, a);
      assert PushesAt(run, k, h, run[j].acts[a].m);
    }
  }

  lemma ActsStay(s: State, s': State)
    requires Next(s, s')
    ensures s.acts.Keys <= s'.acts.Keys
  {
  }

  /** A message whose sender has gone on is pushed, behind all that was pushed before; and
      so it has been dispatched, or dropped, or it is still queued. */
  lemma SentIsKept(run: seq<State>, j: nat, i: nat, a: ActivityId, h: Handle)
    requires IsRun(run) && j <= i < |run|
    requires a in run[j].acts && run[j].acts[a].pc == Sending && run[j].acts[a].ctx == Some(h)
    requires a in run[i].acts ==> run[i].acts[a].pc != Sending
    ensures h in run[i].services
    ensures var v, m := run[i].services[h], run[j].acts[a].m; m in v.consumed || m in v.dropped || m in v.msgs
    ensures exists k: nat :: j <= k < i && PushesAt(run, k, h, run[j].acts[a].m)
  {
    var m := run[j].acts[a].m;
    forall k: nat | j <= k < i && SendPhase(run, j, k, a, h) ensures SendPhase(run, j, k + 1, a, h) {
      SendPhaseStep(run, j, k, a, h);
    }
    Along((k: nat) => SendPhase(run, j, k, a, h), j, i);
    var k: nat :| j <= k < i && PushesAt(run, k, h, m);
    PushedLater(run, k, i, h, m);
  }

  lemma PushedLater(run: seq<State>, k: nat, i: nat, h: Handle, m: Msg)
    requires IsRun(run) && k < i < |run| && PushesAt(run, k, h, m)
    ensures h in run[i].services
    ensures var v := run[i].services[h]; m in v.consumed || m in v.dropped || m in v.msgs
  {
    var so := run[k].services[h].pushed + [m];
    StillPushed(run, k + 1, i, h, so);
    Conservation(run, i, h);
    assert m in so;
  }

  // ---- dispatching ----------------------------------------------------------------------------------

  lemma {:induction false} ShiftIs(length: nat, weight: nat)
    ensures Shift(length, weight) == length / Pow2(weight)
  {
    if weight > 0 {
      ShiftIs(length / 2, weight - 1);
      NestedDiv(length, 2, Pow2(weight - 1));
    }
  }

  /** A worker in its loop takes the oldest message and dispatches it, and goes on as long
      as its count says; or it finds the queue empty, clears the flag and lets go of it. */
  ghost predicate Serves(s: State, s': State, a: ActivityId)
    requires a in s.acts && a in s'.acts
  {
    var x, x' := s.acts[a], s'.acts[a];
    && x.q.Some? && x.q.value in s.services && x.q.value in s'.services
    && s'.global == s.global
    && var v, v' := s.services[x.q.value], s'.services[x.q.value];
       if v.msgs == [] then v' == v.(inGlobal := false) && x' == x.(pc := Emptied, q := None)
       else
         && TakenOut(v, v', true) && v'.inGlobal == v.inGlobal
         && x' == x.(pc := x'.pc, i := x.i + 1, n := x'.n)
         && x'.pc == (if x.i + 1 < x'.n then Looping else Processed)
         && (x'.n == x.n || (x.i == 0 && exists weight: nat :: x'.n == |v'.msgs| / Pow2(weight)))
  }

  lemma PopServes(s: State, a: ActivityId, weight: int)
    requires CanPopMessage(s, a)
    ensures Serves(s, PopMessage(s, a, weight), a)
  {
    if weight >= 0 {
      var v := s.services[s.acts[a].q.value];
      ShiftIs(if v.msgs == [] then 0 else |v.msgs| - 1, weight);
    }
  }

  lemma LoopStep(s: State, s': State, a: ActivityId)
    requires NextBy(s, s', a) && a in s.acts && s.acts[a].pc == Looping && ActivityOk(s, s.acts[a])
    requires s.acts[a].deleting == None
    ensures exists weight :: CanPopMessage(s, a) && s' == PopMessage(s, a, weight)
  {
  }

  lemma WorkerServes(run: seq<State>, i: nat, a: ActivityId)
    requires IsRun(run) && i + 1 < |run| && HasMoved(run[i], run[i + 1], a) && run[i].acts[a].pc == Looping
    ensures Serves(run[i], run[i + 1], a)
  {
    RunInv(run, i);
    assert Next(run[i], run[i + 1]);
    var b :| NextBy(run[i], run[i + 1], b);
    OthersStay(run[i], run[i + 1], a, b);
    LoopStep(run[i], run[i + 1], a);
    var weight :| CanPopMessage(run[i], a) && run[i + 1] == PopMessage(run[i], a, weight);
    PopServes(run[i], a, weight);
  }

  lemma GrabStep(s: State, s': State, a: ActivityId)
    requires NextBy(s, s', a) && Stands(s, a, Popped) && ActivityOk(s, s.acts[a])
    ensures CanGrabToDispatch(s, a) && s' == GrabToDispatch(s, a)
  {
  }

  /** A worker that has popped a queue goes on to serve it, with a reference to its
      context, if the context is registered, and turns to releasing it otherwise. */
  predicate Grabs(s: State, s': State, a: ActivityId)
    requires a in s.acts && a in s'.acts
  {
    var x := s.acts[a];
    && x.q.Some? && x.q.value in s.services && s'.global == s.global
    && var v := s.services[x.q.value];
       if v.registered then
         && s'.acts[a] == x.(pc := Looping, ctx := x.q, i := 0, n := 1)
         && s'.services == s.services[x.q.value := v.(ref := v.ref + 1)]
       else s'.acts[a] == x.(pc := Orphaned, ctx := None) && s'.services == s.services
  }

  lemma GrabGrabs(s: State, a: ActivityId)
    requires CanGrabToDispatch(s, a)
    ensures Grabs(s, GrabToDispatch(s, a), a)
  {
  }

  lemma WorkerGrabs(run: seq<State>, i: nat, a: ActivityId)
    requires IsRun(run) && i + 1 < |run| && HasMoved(run[i], run[i + 1], a)
    requires run[i].acts[a].pc == Popped && run[i].acts[a].deleting == None
    ensures Grabs(run[i], run[i + 1], a)
  {
    RunInv(run, i);
    assert Next(run[i], run[i + 1]);
    var b :| NextBy(run[i], run[i + 1], b);
    OthersStay(run[i], run[i + 1], a, b);
    GrabStep(run[i], run[i + 1], a);
    GrabGrabs(run[i], a);
  }

  /** A worker that keeps no queue, or has worked through its turn, takes the first of the
      global list; the queue it had goes to the end of the list, if there was another. */
  predicate Rotates(s: State, s': State, a: ActivityId)
    requires a in s.acts && a in s'.acts
  {
    var x, x' := s.acts[a], s'.acts[a];
    && s'.services == s.services
    && var first, rest := if s.global == [] then None else Some(s.global[0]), if s.global == [] then [] else s.global[1..];
       match x.pc
       case Waiting => x'.pc == Popped && if x.q.Some? then x'.q == x.q && s'.global == s.global
                                          else s.global != [] && x'.q == first && s'.global == rest
       case PopNext => x'.pc == Waiting && x'.q == first && s'.global == rest
       case Processed => x'.q == x.q && x'.nq == first && s'.global == rest
                         && x'.pc == if s.global == [] then Returning else Swapping
       case _ => x.q.Some? && x'.pc == Returning && x'.q == x.nq && x'.nq == None && s'.global == s.global + [x.q.value]
  }

  predicate TurnsOver(s: State, a: ActivityId) {
    Stands(s, a, Waiting) || Stands(s, a, PopNext) || Stands(s, a, Processed) || Stands(s, a, Swapping)
  }

  ghost predicate TurnStep(s: State, s': State, a: ActivityId) {
    || (CanTakeQueue(s, a) && s' == TakeQueue(s, a))
    || (CanPopGlobal(s, a) && s' == PopGlobal(s, a))
    || (CanPopOther(s, a) && s' == PopOther(s, a))
    || (CanPutBack(s, a) && s' == PutBack(s, a))
  }

  lemma TurnIs(s: State, s': State, a: ActivityId)
    requires NextBy(s, s', a) && TurnsOver(s, a)
    ensures TurnStep(s, s', a)
  {
  }

  lemma TurnRotates(s: State, s': State, a: ActivityId)
    requires TurnStep(s, s', a) && HasMoved(s, s', a)
    ensures Rotates(s, s', a)
  {
  }

  lemma WorkerRotates(run: seq<State>, i: nat, a: ActivityId)
    requires IsRun(run) && i + 1 < |run| && HasMoved(run[i], run[i + 1], a) && TurnsOver(run[i], a)
    ensures Rotates(run[i], run[i + 1], a)
  {
    assert Next(run[i], run[i + 1]);
    var b :| NextBy(run[i], run[i + 1], b);
    OthersStay(run[i], run[i + 1], a, b);
    TurnIs(run[i], run[i + 1], a);
    TurnRotates(run[i], run[i + 1], a);
  }

  // ---- releasing a queue --------------------------------------------------------------------------------

  /** mq_release: a queue that is not marked is listed again; of a marked one the messages
      are dropped, oldest first, and when none is left the queue is freed. */
  predicate Disposes(s: State, s': State, a: ActivityId)
    requires a in s.acts && a in s'.acts
  {
    var x, x' := s.acts[a], s'.acts[a];
    && x.q.Some? && x.q.value in s.services && x.q.value in s'.services
    && var v, v' := s.services[x.q.value], s'.services[x.q.value];
       match x.pc
       case Orphaned =>
         && v' == v && if v.release then x'.pc == Dropping && x'.q == x.q && s'.global == s.global
                       else x'.q == None && s'.global == s.global + [x.q.value]
       case Dropping =>
         && s'.global == s.global
         && if v.msgs == [] then x'.pc == Freeing && x'.q == x.q && v' == v.(inGlobal := false)
            else x' == x && TakenOut(v, v', false)
       case _ => !v'.queueAlive && x'.q == None && s'.global == s.global
  }

  lemma DisposeStep(s: State, s': State, a: ActivityId)
    requires Stands(s, a, Orphaned) || Stands(s, a, Dropping) || Stands(s, a, Freeing)
    requires NextBy(s, s', a) && ActivityOk(s, s.acts[a])
    ensures ReleaseNext(s, s', a)
  {
  }

  lemma ReleaseDisposes(s: State, s': State, a: ActivityId)
    requires ReleaseNext(s, s', a)
    ensures Disposes(s, s', a)
  {
  }

  lemma QueueIsDisposed(run: seq<State>, i: nat, a: ActivityId)
    requires IsRun(run) && i + 1 < |run| && NextBy(run[i], run[i + 1], a)
    requires Stands(run[i], a, Orphaned) || Stands(run[i], a, Dropping) || Stands(run[i], a, Freeing)
    ensures a in run[i + 1].acts && Disposes(run[i], run[i + 1], a)
  {
    RunInv(run, i);
    DisposeStep(run[i], run[i + 1], a);
    ReleaseDisposes(run[i], run[i + 1], a);
  }

  // ---- the start of a context -----------------------------------------------------------------------

  /** A new service is registered, with references of the table and of its launcher, and
      its queue is flagged, empty and in the hand of the launcher. */
  predicate Starts(s: State, s': State, a: ActivityId, h: Handle) {
    && h in s'.services && a !in s.acts && a in s'.acts
    && s'.services[h] == Service(true, 2, true, true, true, false, [], [], [], [])
    && s'.acts[a] == NewActivity(Launching).(ctx := Some(h), q := Some(h)) && s'.global == s.global
  }

  lemma NewStep(s: State, s': State, a: ActivityId, h: Handle)
    requires NextBy(s, s', a) && h !in s.services && h in s'.services
    ensures Starts(s, s', a, h)
  {
  }

  ghost predicate SomeoneStarts(s: State, s': State, h: Handle) { exists a :: Starts(s, s', a, h) }

  lemma NewIsRegistered(run: seq<State>, i: nat, h: Handle)
    requires IsRun(run) && i + 1 < |run| && h !in run[i].services && h in run[i + 1].services
    ensures SomeoneStarts(run[i], run[i + 1], h)
  {
    assert Next(run[i], run[i + 1]);
    var a :| NextBy(run[i], run[i + 1], a);
    NewStep(run[i], run[i + 1], a, h);
  }

  /** A context leaves the table only by a retirement, which takes the table's reference
      over; one that has left does not come back. */
  predicate Leaves(s: State, s': State, a: ActivityId, h: Handle)
    requires h in s.services && h in s'.services
  {
    && a in s'.acts && HoldsRef(s'.acts[a], h) && (a in s.acts ==> !HoldsRef(s.acts[a], h))
    && s'.acts[a].pc in {Retiring, LaunchRetired} && s'.services[h] == s.services[h].(registered := false)
  }

  predicate TableKept(s: State, s': State, a: ActivityId, h: Handle) {
    h in s.services ==>
      h in s'.services && (s'.services[h].registered == s.services[h].registered || (s.services[h].registered && Leaves(s, s', a, h)))
  }

  lemma LaunchTable(s: State, s': State, a: ActivityId, h: Handle)
    requires LaunchNext(s, s', a) && (a in s.acts && s.acts[a].pc == LaunchFailed ==> s.acts[a].ctx == None)
    ensures TableKept(s, s', a, h)
  {
  }

  lemma SendTable(s: State, s': State, a: ActivityId, h: Handle)
    requires SendNext(s, s', a)
    ensures TableKept(s, s', a, h)
  {
  }

  lemma DispatchTable(s: State, s': State, a: ActivityId, h: Handle)
    requires DispatchNext(s, s', a)
    ensures TableKept(s, s', a, h)
  {
  }

  lemma ReleaseTable(s: State, s': State, a: ActivityId, h: Handle)
    requires ReleaseNext(s, s', a)
    ensures TableKept(s, s', a, h)
  {
  }

  ghost predicate SomeoneKeepsTable(s: State, s': State, h: Handle) { exists a :: TableKept(s, s', a, h) }

  lemma OnlyRetired(run: seq<State>, i: nat, h: Handle)
    requires IsRun(run) && i + 1 < |run|
    ensures SomeoneKeepsTable(run[i], run[i + 1], h)
  {
    RunInv(run, i);
    assert Next(run[i], run[i + 1]);
    var a :| NextBy(run[i], run[i + 1], a);
    if LaunchNext(run[i], run[i + 1], a) {
      assert a in run[i].acts ==> ActivityOk(run[i], run[i].acts[a]);
      LaunchTable(run[i], run[i + 1], a, h);
    } else if SendNext(run[i], run[i + 1], a) {
      SendTable(run[i], run[i + 1], a, h);
    } else if DispatchNext(run[i], run[i + 1], a) {
      DispatchTable(run[i], run[i + 1], a, h);
    } else {
      ReleaseTable(run[i], run[i + 1], a, h);
    }
  }

  // ---- the end of a context --------------------------------------------------------------------------

  /** Who lets go of a context takes its reference off, and deletes it if it was the last. */
  lemma LetsGo(run: seq<State>, i: nat, a: ActivityId, h: Handle)
    requires IsRun(run) && i + 1 < |run| && HasMoved(run[i], run[i + 1], a)
    requires run[i].acts[a].ctx == Some(h) && run[i + 1].acts[a].ctx != Some(h)
    ensures h in run[i].services && h in run[i + 1].services
    ensures var v, v' := run[i].services[h], run[i + 1].services[h];
            v' == v.(ref := v.ref - 1) && run[i + 1].acts[a].deleting == if v.ref == 1 then Some(h) else None
  {
    RunInv(run, i);
    assert Next(run[i], run[i + 1]);
    var b :| NextBy(run[i], run[i + 1], b);
    OthersStay(run[i], run[i + 1], a, b);
    assert ActivityOk(run[i], run[i].acts[a]);
    LetGoStep(run[i], run[i + 1], a, h);
  }

  lemma LetGoStep(s: State, s': State, a: ActivityId, h: Handle)
    requires NextBy(s, s', a) && HasMoved(s, s', a) && ActivityOk(s, s.acts[a])
    requires s.acts[a].ctx == Some(h) && s'.acts[a].ctx != Some(h)
    ensures h in s.services && s'.services == s.services[h := s.services[h].(ref := s.services[h].ref - 1)]
    ensures s'.acts[a].deleting == if s.services[h].ref == 1 then Some(h) else None
  {
  }

  /** A context is deleted before anything else: its queue is marked for release, and listed
      unless it was flagged. */
  lemma DeleteStep(s: State, s': State, a: ActivityId, h: Handle)
    requires NextBy(s, s', a) && a in s.acts && s.acts[a].deleting == Some(h)
    ensures CanDelete(s, a) && s' == Delete(s, a)
  {
  }

  lemma LastIsDeleted(run: seq<State>, i: nat, a: ActivityId, h: Handle)
    requires IsRun(run) && i + 1 < |run| && HasMoved(run[i], run[i + 1], a) && run[i].acts[a].deleting == Some(h)
    ensures h in run[i].services
    ensures var s, s', v := run[i], run[i + 1], run[i].services[h];
            && s'.services == s.services[h := v.(release := true, ctxAlive := false)]
            && s'.global == s.global + (if v.inGlobal then [] else [h])
            && s'.acts[a] == s.acts[a].(deleting := None)
  {
    RunInv(run, i);
    assert Next(run[i], run[i + 1]);
    var b :| NextBy(run[i], run[i + 1], b);
    OthersStay(run[i], run[i + 1], a, b);
    DeleteStep(run[i], run[i + 1], a, h);
    assert run[i].global + [] == run[i].global;
  }

  // ---- nothing blocks ---------------------------------------------------------------------------------

  /** An activity that is not finished has a next step in every state of every run. */
  lemma CanAlwaysGoOn(run: seq<State>, i: nat, a: ActivityId)
    requires IsRun(run) && i < |run| && a in run[i].acts
    requires run[i].acts[a].pc != Finished || run[i].acts[a].deleting.Some?
    ensures exists s' :: NextBy(run[i], s', a)
  {
    RunInv(run, i);
    var s := run[i];
    var x := s.acts[a];
    if x.deleting.Some? {
      MemorySafe(run, i, a, x.deleting.value);
      assert NextBy(s, Delete(s, a), a);
    } else {
      assert ActivityOk(s, x);
      if x.ctx.Some? {
        MemorySafe(run, i, a, x.ctx.value);
      }
      if x.q.Some? {
        MemorySafe(run, i, a, x.q.value);
      }
      GoesOn(s, a);
    }
  }

  lemma GoesOn(s: State, a: ActivityId)
    requires a in s.acts && s.acts[a].deleting == None && s.acts[a].pc != Finished && ActivityOk(s, s.acts[a])
    requires s.acts[a].ctx.Some? ==> HasCtx(s, a)
    requires s.acts[a].q.Some? ==> HasQueue(s, a)
    ensures exists s' :: NextBy(s, s', a)
  {
    var s' := match s.acts[a].pc
      case Launching => InitDone(s, a, true)
      case Launched => ListLaunched(s, a)
      case LaunchFailed => RetireFailed(s, a)
      case LaunchRetired => ReleaseFailed(s, a)
      case Sending => PushMessage(s, a)
      case Sent => ReleaseSent(s, a)
      case Retiring => ReleaseRetired(s, a)
      case Waiting => TakeQueue(s, a)
      case Popped => GrabToDispatch(s, a)
      case Looping => PopMessage(s, a, -1)
      case Emptied => ReleaseEmptied(s, a)
      case PopNext => PopGlobal(s, a)
      case Processed => PopOther(s, a)
      case Swapping => PutBack(s, a)
      case Returning => ReturnQueue(s, a)
      case Orphaned => CheckRelease(s, a)
      case Dropping => DropMessage(s, a)
      case Freeing => FreeQueue(s, a)
      case Finished => s;
    assert NextBy(s, s', a);
  }
}
