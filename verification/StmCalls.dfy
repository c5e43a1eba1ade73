/** What the calls of lua-stm.c do to the object's copy, over all runs of `StmProtocol`. */
module StmCalls {
  import opened Prelude
  import opened StmProtocol

  /** Thread t is in one call from step j on, and i is the first state after that. */
  ghost predicate IsCall(run: seq<State>, t: ThreadId, j: nat, i: nat) {
    && IsRun(run) && j + 1 < i < |run|
    && IsIdle(run[j], t) && IsIdle(run[i], t)
    && forall k :: j < k < i ==> t in run[k].threads && run[k].threads[t].pc != Idle
  }

  predicate StartsUpdate(g: State, g': State, t: ThreadId) {
    IsIdle(g, t) && t in g'.threads && g'.threads[t].pc == WriteCas && g'.threads[t].op == Update
  }

  predicate StartsDelete(g: State, g': State, t: ThreadId) {
    IsIdle(g, t) && t in g'.threads && g'.threads[t].pc == WriteCas && g'.threads[t].op == Delete
  }

  predicate StartsRead(g: State, g': State, t: ThreadId) {
    IsIdle(g, t) && t in g'.threads && g'.threads[t].pc == ReadSpin
  }

  /** A thread in a call takes its own next step, or stays as it is. */
  lemma OwnOrSame(g: State, g': State, t: ThreadId)
    requires Next(g, g') && t in g.threads && g.threads[t].pc != Idle
    ensures t in g'.threads && (g'.threads[t] == g.threads[t] || (CanStep(g, t) && g' == Step(g, t)))
  {
    if u :| CanStep(g, u) && g' == Step(g, u) {
      StepFramed(g, u);
    }
  }

  /** The object's copy only changes when an update swaps it, or a release clears it. */
  lemma CopyChanges(run: seq<State>, i: nat)
    requires IsRun(run) && i + 1 < |run| && run[i + 1].copy != run[i].copy
    ensures exists t :: t in run[i].threads && (
              || (run[i].threads[t].pc == SwapCopy && run[i + 1].copy == run[i].threads[t].got)
              || (run[i].threads[t].pc == ClearCopy && run[i + 1].copy == None))
  {
    var g, g' := run[i], run[i + 1];
    assert Next(g, g');
    var t :| CanStep(g, t) && g' == Step(g, t);
    StepChanges(g, t);
  }

  lemma StepChanges(g: State, t: ThreadId)
    requires CanStep(g, t) && Step(g, t).copy != g.copy
    ensures var x := g.threads[t];
            || (x.pc == SwapCopy && Step(g, t).copy == x.got)
            || (x.pc == ClearCopy && Step(g, t).copy == None)
  {
    if IsReadPc(g.threads[t].pc) {
    } else if IsDropPc(g.threads[t].pc) {
    } else {
    }
  }

  // ---- stm_update -----------------------------------------------------------------------------------

  /** The step at which thread t puts copy c in the place of the object's, which is then to
      be dropped. */
  predicate SwapsAt(run: seq<State>, k: nat, t: ThreadId, c: CopyId) {
    && k + 1 < |run| && t in run[k].threads && t in run[k + 1].threads
    && WriterInside(run[k].threads[t]) && WriterInside(run[k + 1].threads[t])
    && run[k + 1].copy == Some(c) && run[k + 1].threads[t].drop == run[k].copy
  }

  predicate BeforeSwap(x: Thread, c: CopyId) {
    x.pc in {WriteCas, WriteWait, SwapCopy} && x.op == Update && x.got == Some(c)
  }

  predicate AfterWrite(x: Thread) { x.pc in {WriteUnlock, DropCopy, FreeCopy, Idle} }

  lemma SwapStep(g: State, g': State, t: ThreadId, c: CopyId)
    requires CanStep(g, t) && g' == Step(g, t) && BeforeSwap(g.threads[t], c)
    ensures t in g'.threads
    ensures || BeforeSwap(g'.threads[t], c)
            || (AfterWrite(g'.threads[t]) && g.threads[t].pc == SwapCopy && g'.threads[t].pc == WriteUnlock
                && g'.copy == Some(c) && g'.threads[t].drop == g.copy)
  {
  }

  lemma AfterStep(g: State, g': State, t: ThreadId)
    requires CanStep(g, t) && g' == Step(g, t) && AfterWrite(g.threads[t])
    ensures t in g'.threads && AfterWrite(g'.threads[t])
  {
  }

  ghost predicate UpdatePhase(run: seq<State>, t: ThreadId, j: nat, k: nat, c: CopyId) {
    && j < k < |run| && t in run[k].threads
    && (BeforeSwap(run[k].threads[t], c) || (AfterWrite(run[k].threads[t]) && exists m: nat :: j < m < k && SwapsAt(run, m, t, c)))
  }

  lemma UpdatePhaseStep(run: seq<State>, t: ThreadId, j: nat, k: nat, c: CopyId)
    requires IsRun(run) && k + 1 < |run| && UpdatePhase(run, t, j, k, c) && run[k].threads[t].pc != Idle
    ensures UpdatePhase(run, t, j, k + 1, c)
  {
    var g, g' := run[k], run[k + 1];
    assert Next(g, g');
    OwnOrSame(g, g', t);
    if g'.threads[t] != g.threads[t] {
      if BeforeSwap(g.threads[t], c) {
        SwapStep(g, g', t, c);
        if !BeforeSwap(g'.threads[t], c) {
          assert SwapsAt(run, k, t, c);
        }
      } else {
        AfterStep(g, g', t);
      }
    }
  }

  lemma UpdateStart(g: State, g': State, t: ThreadId)
    requires Next(g, g') && StartsUpdate(g, g', t)
    ensures exists c: CopyId :: c !in g.copies && g'.threads[t].got == Some(c)
  {
    if u :| CanStep(g, u) && g' == Step(g, u) {
      StepFramed(g, u);
    }
  }

  /** A call of stm_update takes effect: at one moment, inside the write lock, the object's
      copy becomes the new copy that the call has made, and the copy it was is then to be
      dropped. */
  lemma UpdateTakesEffect(run: seq<State>, t: ThreadId, j: nat, i: nat)
    requires IsCall(run, t, j, i) && StartsUpdate(run[j], run[j + 1], t)
    ensures exists c: CopyId, m: nat :: c !in run[j].copies && j < m < i && SwapsAt(run, m, t, c)
  {
    assert Next(run[j], run[j + 1]);
    UpdateStart(run[j], run[j + 1], t);
    var c: CopyId :| c !in run[j].copies && run[j + 1].threads[t].got == Some(c);
    forall k: nat | j < k < i && UpdatePhase(run, t, j, k, c) ensures UpdatePhase(run, t, j, k + 1, c) {
      UpdatePhaseStep(run, t, j, k, c);
    }
    Along((k: nat) => UpdatePhase(run, t, j, k, c), j + 1, i);
  }

  // ---- stm_release ----------------------------------------------------------------------------------

  predicate ClearsAt(run: seq<State>, k: nat, t: ThreadId) {
    && k + 1 < |run| && t in run[k].threads && WriterInside(run[k].threads[t]) && run[k + 1].copy == None
  }

  predicate BeforeClear(x: Thread) {
    x.pc in {WriteCas, WriteWait, DropOwn, FreeOwn, ClearCopy} && x.op == Delete
  }

  lemma ClearStep(g: State, g': State, t: ThreadId)
    requires CanStep(g, t) && g' == Step(g, t) && BeforeClear(g.threads[t])
    ensures t in g'.threads
    ensures || BeforeClear(g'.threads[t])
            || (AfterWrite(g'.threads[t]) && WriterInside(g.threads[t]) && g'.copy == None)
  {
  }

  ghost predicate DeletePhase(run: seq<State>, t: ThreadId, j: nat, k: nat) {
    && j < k < |run| && t in run[k].threads
    && (BeforeClear(run[k].threads[t]) || (AfterWrite(run[k].threads[t]) && exists m: nat :: j < m < k && ClearsAt(run, m, t)))
  }

  lemma DeletePhaseStep(run: seq<State>, t: ThreadId, j: nat, k: nat)
    requires IsRun(run) && k + 1 < |run| && DeletePhase(run, t, j, k) && run[k].threads[t].pc != Idle
    ensures DeletePhase(run, t, j, k + 1)
  {
    var g, g' := run[k], run[k + 1];
    assert Next(g, g');
    OwnOrSame(g, g', t);
    if g'.threads[t] != g.threads[t] {
      if BeforeClear(g.threads[t]) {
        ClearStep(g, g', t);
        if !BeforeClear(g'.threads[t]) {
          assert ClearsAt(run, k, t);
        }
      } else {
        AfterStep(g, g', t);
      }
    }
  }

  /** A call of stm_release leaves the object without a copy at one moment, inside the
      write lock. */
  lemma DeleteTakesEffect(run: seq<State>, t: ThreadId, j: nat, i: nat)
    requires IsCall(run, t, j, i) && StartsDelete(run[j], run[j + 1], t)
    ensures exists m: nat :: j < m < i && ClearsAt(run, m, t)
  {
    forall k: nat | j < k < i && DeletePhase(run, t, j, k) ensures DeletePhase(run, t, j, k + 1) {
      DeletePhaseStep(run, t, j, k);
    }
    Along((k: nat) => DeletePhase(run, t, j, k), j + 1, i);
  }

  // ---- lread ------------------------------------------------------------------------------------------

  /** At state m thread t is inside the read lock and the object's copy is c. */
  predicate LooksAt(run: seq<State>, m: nat, t: ThreadId, c: Option<CopyId>) {
    m < |run| && t in run[m].threads && ReaderInside(run[m].threads[t]) && run[m].copy == c
  }

  predicate BeforeLook(x: Thread) { x.pc in {ReadSpin, ReadCount, ReadCheck, ReadBack, LoadCopy} }

  predicate HasLooked(x: Thread, c: Option<CopyId>) {
    || (x.pc == GrabCopy && x.seen == c)
    || (x.pc in {ReadUnlock, Compare} && x.got == c)
    || (x.pc in {DropCopy, FreeCopy, Idle} && x.last == c)
  }

  lemma LookStep(g: State, g': State, t: ThreadId)
    requires CanStep(g, t) && g' == Step(g, t) && BeforeLook(g.threads[t])
    ensures t in g'.threads
    ensures BeforeLook(g'.threads[t]) || (ReaderInside(g.threads[t]) && HasLooked(g'.threads[t], g.copy))
  {
  }

  lemma LookedStep(g: State, g': State, t: ThreadId, c: Option<CopyId>)
    requires CanStep(g, t) && g' == Step(g, t) && HasLooked(g.threads[t], c)
    ensures t in g'.threads && HasLooked(g'.threads[t], c)
  {
  }

  ghost predicate HasLookedSince(run: seq<State>, t: ThreadId, j: nat, k: nat)
    requires k < |run| && t in run[k].threads
  {
    exists m: nat, c :: j < m < k && LooksAt(run, m, t, c) && HasLooked(run[k].threads[t], c)
  }

  ghost predicate ReadPhase(run: seq<State>, t: ThreadId, j: nat, k: nat) {
    && j < k < |run| && t in run[k].threads
    && (BeforeLook(run[k].threads[t]) || HasLookedSince(run, t, j, k))
  }

  lemma ReadPhaseStep(run: seq<State>, t: ThreadId, j: nat, k: nat)
    requires IsRun(run) && k + 1 < |run| && ReadPhase(run, t, j, k) && run[k].threads[t].pc != Idle
    ensures ReadPhase(run, t, j, k + 1)
  {
    var g, g' := run[k], run[k + 1];
    assert Next(g, g');
    OwnOrSame(g, g', t);
    if BeforeLook(g.threads[t]) {
      if g'.threads[t] != g.threads[t] {
        LookStep(g, g', t);
        if !BeforeLook(g'.threads[t]) {
          assert LooksAt(run, k, t, g.copy);
        }
      }
    } else {
      var m: nat, c :| j < m < k && LooksAt(run, m, t, c) && HasLooked(g.threads[t], c);
      if g'.threads[t] != g.threads[t] {
        LookedStep(g, g', t, c);
      }
      assert LooksAt(run, m, t, c) && HasLooked(g'.threads[t], c);
    }
  }

  /** A call of lread leaves the box with the copy that the object had at a moment of the
      call, inside the read lock. */
  lemma ReadIsCurrent(run: seq<State>, t: ThreadId, j: nat, i: nat)
    requires IsCall(run, t, j, i) && StartsRead(run[j], run[j + 1], t)
    ensures exists m: nat :: j < m < i && LooksAt(run, m, t, run[i].threads[t].last)
  {
    forall k: nat | j < k < i && ReadPhase(run, t, j, k) ensures ReadPhase(run, t, j, k + 1) {
      ReadPhaseStep(run, t, j, k);
    }
    Along((k: nat) => ReadPhase(run, t, j, k), j + 1, i);
    var m: nat, c :| j < m < i && LooksAt(run, m, t, c) && HasLooked(run[i].threads[t], c);
    assert c == run[i].threads[t].last;
  }
}
