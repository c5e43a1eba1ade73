/** What the calls of the Sunnet scheduler do, over all runs of `Sunnet`. */
module SunnetCalls {
  import opened Prelude
  import opened Sunnet

  /** A thread takes its own next step, or stays as it is. */
  lemma OwnOrSame(g: State, g': State, t: ThreadId)
    requires Next(g, g') && t in g.threads
    ensures t in g'.threads && (g'.threads[t] == g.threads[t] || (CanStep(g, t) && g' == Step(g, t)))
  {
    if u :| CanStep(g, u) && g' == Step(g, u) {
      StepThread(g, u);
    }
  }

  lemma StepThread(g: State, u: ThreadId)
    requires CanStep(g, u)
    ensures u in Step(g, u).threads && Step(g, u).threads == g.threads[u := Step(g, u).threads[u]]
  {
  }

  predicate HasMoved(g: State, g': State, t: ThreadId) {
    t in g.threads && t in g'.threads && g'.threads[t] != g.threads[t]
  }

  // ---- Send -------------------------------------------------------------------------------------------

  /** At step k message m is put behind the messages of s, and nothing else of the
      services changes. */
  predicate AppendsAt(run: seq<State>, k: nat, s: Sid, m: Msg) {
    && k + 1 < |run| && s in run[k].srvs
    && var v := run[k].srvs[s];
       run[k + 1].srvs == run[k].srvs[s := v.(msgs := v.msgs + [m], pushed := v.pushed + [m])]
  }

  /** At state k thread t looks for s and does not find it. */
  predicate MissesAt(run: seq<State>, k: nat, t: ThreadId, s: Sid) {
    k < |run| && At(run[k], t, Find) && run[k].threads[t].srv == s && s !in run[k].table
  }

  predicate BeforePush(x: Thread, s: Sid, m: Msg) {
    x.srv == s && x.m == m && x.pc in {Find, LockToPush, PushMsg}
  }

  predicate AfterPush(x: Thread) {
    match x.pc
    case UnlockPushed | LockToCheck | CheckFlag | SetFlag | UnlockFlag | Done => true
    case LockQueue(w) => !w
    case Enqueue(w) => !w
    case CountUp(w) => !w
    case UnlockQueue(w) => !w
    case _ => false
  }

  lemma PushStep(g: State, t: ThreadId, s: Sid, m: Msg)
    requires CanStep(g, t) && BeforePush(g.threads[t], s, m)
    ensures var g' := Step(g, t);
            && t in g'.threads
            && if g.threads[t].pc == PushMsg then
                 && s in g.srvs && AfterPush(g'.threads[t])
                 && g'.srvs == g.srvs[s := g.srvs[s].(msgs := g.srvs[s].msgs + [m], pushed := g.srvs[s].pushed + [m])]
               else if g.threads[t].pc == Find && s !in g.table then g'.threads[t].pc == Done
               else BeforePush(g'.threads[t], s, m)
  {
  }

  lemma AfterPushStep(g: State, t: ThreadId)
    requires CanStep(g, t) && AfterPush(g.threads[t])
    ensures t in Step(g, t).threads && AfterPush(Step(g, t).threads[t])
  {
  }

  ghost predicate SendPhase(run: seq<State>, t: ThreadId, j: nat, k: nat, s: Sid, m: Msg) {
    && j <= k < |run| && t in run[k].threads
    && (|| BeforePush(run[k].threads[t], s, m)
        || (AfterPush(run[k].threads[t]) &&
            ((exists n: nat :: j <= n < k && AppendsAt(run, n, s, m)) || exists n: nat :: j <= n < k && MissesAt(run, n, t, s))))
  }

  lemma SendPhaseStep(run: seq<State>, t: ThreadId, j: nat, k: nat, s: Sid, m: Msg)
    requires IsRun(run) && k + 1 < |run| && SendPhase(run, t, j, k, s, m)
    ensures SendPhase(run, t, j, k + 1, s, m)
  {
    var g, g' := run[k], run[k + 1];
    assert Next(g, g');
    OwnOrSame(g, g', t);
    if g'.threads[t] != g.threads[t] {
      if BeforePush(g.threads[t], s, m) {
        PushStep(g, t, s, m);
        if g.threads[t].pc == PushMsg {
          assert AppendsAt(run, k, s, m);
        } else if g.threads[t].pc == Find && s !in g.table {
          assert MissesAt(run, k, t, s);
        }
      } else {
        AfterPushStep(g, t);
      }
    }
  }

  /** A Send that has returned has put its message behind the others of its service, unless
      the service was not in the table. */
  lemma SendAppends(run: seq<State>, t: ThreadId, j: nat, i: nat)
    requires IsRun(run) && j <= i < |run| && At(run[j], t, Find) && At(run[i], t, Done)
    ensures var x := run[j].threads[t];
            || (exists k: nat :: j <= k < i && AppendsAt(run, k, x.srv, x.m))
            || (exists k: nat :: j <= k < i && MissesAt(run, k, t, x.srv))
  {
    var s, m := run[j].threads[t].srv, run[j].threads[t].m;
    forall k: nat | j <= k < i && SendPhase(run, t, j, k, s, m) ensures SendPhase(run, t, j, k + 1, s, m) {
      SendPhaseStep(run, t, j, k, s, m);
    }
    Along((k: nat) => SendPhase(run, t, j, k, s, m), j, i);
  }

  // ---- a worker -------------------------------------------------------------------------------------------

  /** How a worker goes on where it decides. */
  predicate Decides(g: State, g': State, t: ThreadId)
    requires t in g.threads && t in g'.threads
  {
    var x, x' := g.threads[t], g'.threads[t];
    match x.pc
    case PopFront =>
      if g.queue == [] then x'.pc == UnlockNoService && g'.queue == []
      else x'.pc == CountDown && x'.srv == g.queue[0] && g'.queue == g.queue[1..]
    case UnlockPopped => x'.pc == Process && x'.left == x.eachNum
    case Process => x'.pc == if x.left == 0 then CheckExit else TakeMsg
    case TakeMsg =>
      && x.srv in g.srvs && x.srv in g'.srvs
      && var v := g.srvs[x.srv];
         if v.msgs == [] then x'.pc == UnlockNoMsg && g'.srvs == g.srvs
         else
           && x'.pc == UnlockTaken && x'.m == v.msgs[0]
           && g'.srvs == g.srvs[x.srv := v.(msgs := v.msgs[1..], taken := v.taken + [v.msgs[0]])]
    case UnlockTaken => x'.pc == Process && (x.left > 0 ==> x'.left == x.left - 1)
    case CheckExit => x.srv in g.srvs && x'.pc == if g.srvs[x.srv].exit then LockToPop else LockToPutBack
    case CheckEmpty => x.srv in g.srvs && x'.pc == if g.srvs[x.srv].msgs == [] then LockToClear else LockQueue(true)
    case _ => true
  }

  lemma StepDecides(g: State, t: ThreadId)
    requires CanStep(g, t)
    ensures t in Step(g, t).threads && Decides(g, Step(g, t), t)
  {
  }

  /** A worker takes the first service listed, takes its oldest messages, at most each_num
      of them, and then puts it back if messages are left, unless it is dying. */
  lemma WorkerDecides(run: seq<State>, i: nat, t: ThreadId)
    requires IsRun(run) && i + 1 < |run| && HasMoved(run[i], run[i + 1], t)
    ensures Decides(run[i], run[i + 1], t)
  {
    assert Next(run[i], run[i + 1]);
    OwnOrSame(run[i], run[i + 1], t);
    StepDecides(run[i], t);
  }

  // ---- KillService ------------------------------------------------------------------------------------------

  predicate Kills(g: State, g': State, x: Thread, x': Thread) {
    if x.pc == Erase then g'.table == g.table - {x.srv} && x'.pc == Done
    else if x.srv !in g.table then x'.pc == Done && g'.srvs == g.srvs
    else x'.pc == Erase && x.srv in g.srvs && g'.srvs == g.srvs[x.srv := g.srvs[x.srv].(exit := true)]
  }

  lemma StepKills(g: State, t: ThreadId)
    requires CanStep(g, t) && g.threads[t].pc in {SetExit, Erase} && g.table <= g.srvs.Keys
    ensures t in Step(g, t).threads && Kills(g, Step(g, t), g.threads[t], Step(g, t).threads[t])
  {
  }

  /** KillService makes a service that is in the table exit, and takes it out. */
  lemma KillMarks(run: seq<State>, i: nat, t: ThreadId)
    requires IsRun(run) && i + 1 < |run| && HasMoved(run[i], run[i + 1], t)
    requires run[i].threads[t].pc in {SetExit, Erase}
    ensures Kills(run[i], run[i + 1], run[i].threads[t], run[i + 1].threads[t])
  {
    TableKnown(run, i);
    assert Next(run[i], run[i + 1]);
    OwnOrSame(run[i], run[i + 1], t);
    StepKills(run[i], t);
  }

  lemma TableKnown(run: seq<State>, i: nat)
    requires IsRun(run) && i < |run|
    ensures run[i].table <= run[i].srvs.Keys
  {
    RunInv(run, i);
  }
}
