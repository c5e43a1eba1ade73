/** Snapshots under a reader/writer lock (lua-stm.c over the atomic lock of rwlock.h), as
    interleaved steps of any number of threads.

    Every atomic operation and every access to the shared object is a step of its own.  A
    thread is a Lua reader or writer box and what is done with it, one call at a time.  The
    freeing of the stm_object itself is not modelled, only that of its copies. */
module StmProtocol {
  import opened Prelude
  import opened Counting

  type ThreadId = nat
  type CopyId = nat

  /** struct stm_copy; `freed` records that stm_releasecopy freed it. */
  datatype Copy = Copy(ref: int, freed: bool)

  datatype Op = Read | Update | Delete

  datatype Pc =
    | Idle
    // rwlock_rlock, stm_copy, rwlock_runlock
    | ReadSpin      // waiting to see write at 0
    | ReadCount     // saw it, to count read up: write may be set meanwhile
    | ReadCheck     // read counted up, looking at write again
    | ReadBack      // write was set: to count down and try again
    | LoadCopy
    | GrabCopy      // the copy seen, its counter to go up
    | ReadUnlock
    | Compare       // lread compares the copy with lastcopy
    // rwlock_wlock, stm_update or stm_release, rwlock_wunlock
    | WriteCas      // waiting to set write
    | WriteWait     // write set, waiting for read to be 0
    | SwapCopy
    | DropOwn       // stm_release counts its copy down
    | FreeOwn       // and frees it
    | ClearCopy     // and sets it to NULL
    | WriteUnlock
    // stm_releasecopy
    | DropCopy
    | FreeCopy

  /** The local variables: the box's lastcopy, the copy just grabbed or newly made, the
      copy looked at without a reference, and the copy to be released. */
  datatype Thread = Thread(op: Op, pc: Pc, last: Option<CopyId>, got: Option<CopyId>, seen: Option<CopyId>,
                           drop: Option<CopyId>)

  /** The lock's two fields, the object's copy, and every copy ever made. */
  datatype State = State(write: bool, read: int, copy: Option<CopyId>, copies: map<CopyId, Copy>,
                         threads: map<ThreadId, Thread>)

  predicate IsFirst(g: State, c: CopyId) {
    g == State(false, 0, Some(c), map[c := Copy(1, false)], map[])
  }

  function Become(g: State, t: ThreadId, x: Thread): State { g.(threads := g.threads[t := x]) }

  function CountTo(g: State, c: CopyId, ref: int): State
    requires c in g.copies
  {
    g.(copies := g.copies[c := g.copies[c].(ref := ref)])
  }

  function Free(g: State, c: CopyId): State
    requires c in g.copies
  {
    g.(copies := g.copies[c := g.copies[c].(freed := true)])
  }

  predicate Known(g: State, c: Option<CopyId>) { c.Some? ==> c.value in g.copies }

  predicate CanStep(g: State, t: ThreadId) {
    && t in g.threads
    && var x := g.threads[t];
       Known(g, x.got) && Known(g, x.seen) && Known(g, x.drop) && Known(g, g.copy) &&
       match x.pc
       case Idle => false
       case ReadSpin => !g.write
       case WriteCas => !g.write
       case WriteWait => g.read == 0
       case FreeOwn => x.seen.Some?
       case FreeCopy => x.drop.Some?
       case _ => true
  }

  /** rwlock_rlock to rwlock_runlock around the body of stm_copy, then lread. */
  function ReadStep(g: State, t: ThreadId): State
    requires CanStep(g, t)
  {
    var x := g.threads[t];
    match x.pc
    case ReadSpin => Become(g, t, x.(pc := ReadCount))
    case ReadCount => Become(g.(read := g.read + 1), t, x.(pc := ReadCheck))
    case ReadCheck => Become(g, t, x.(pc := if g.write then ReadBack else LoadCopy))
    case ReadBack => Become(g.(read := g.read - 1), t, x.(pc := ReadSpin))
    case LoadCopy => Become(g, t, x.(pc := GrabCopy, seen := g.copy))
    case GrabCopy =>
      Become(if x.seen.Some? then CountTo(g, x.seen.value, g.copies[x.seen.value].ref + 1) else g,
             t, x.(pc := ReadUnlock, got := x.seen))
    case ReadUnlock => Become(g.(read := g.read - 1), t, x.(pc := Compare))
    case Compare =>
      Become(g, t, if x.got == x.last then x.(pc := DropCopy, drop := x.got, got := None)
                   else x.(pc := DropCopy, drop := x.last, last := x.got, got := None))
    case _ => g
  }

  /** stm_update and stm_release under the write lock. */
  function WriteStep(g: State, t: ThreadId): State
    requires CanStep(g, t)
  {
    var x := g.threads[t];
    match x.pc
    case WriteCas => Become(g.(write := true), t, x.(pc := WriteWait))
    case WriteWait => Become(g, t, x.(pc := if x.op == Update then SwapCopy else DropOwn))
    case SwapCopy => Become(g.(copy := x.got), t, x.(pc := WriteUnlock, drop := g.copy, got := None))
    case DropOwn =>
      if g.copy == None then Become(g, t, x.(pc := ClearCopy, seen := None))
      else
        var ref := g.copies[g.copy.value].ref;
        Become(CountTo(g, g.copy.value, ref - 1), t, x.(pc := if ref <= 1 then FreeOwn else ClearCopy, seen := g.copy))
    case FreeOwn => Become(Free(g, x.seen.value), t, x.(pc := ClearCopy))
    case ClearCopy => Become(g.(copy := None), t, x.(pc := WriteUnlock, drop := None))
    case WriteUnlock => Become(g.(write := false), t, x.(pc := DropCopy))
    case _ => g
  }

  /** stm_releasecopy outside the lock. */
  function DropStep(g: State, t: ThreadId): State
    requires CanStep(g, t)
  {
    var x := g.threads[t];
    match x.pc
    case DropCopy =>
      if x.drop == None then Become(g, t, x.(pc := Idle))
      else
        var ref := g.copies[x.drop.value].ref;
        var g1 := CountTo(g, x.drop.value, ref - 1);
        Become(g1, t, if ref <= 1 then x.(pc := FreeCopy) else x.(pc := Idle, drop := None))
    case FreeCopy => Become(Free(g, x.drop.value), t, x.(pc := Idle, drop := None))
    case _ => g
  }

  predicate IsReadPc(pc: Pc) {
    pc in {ReadSpin, ReadCount, ReadCheck, ReadBack, LoadCopy, GrabCopy, ReadUnlock, Compare}
  }

  predicate IsDropPc(pc: Pc) { pc == DropCopy || pc == FreeCopy }

  function Step(g: State, t: ThreadId): State
    requires CanStep(g, t)
  {
    if IsReadPc(g.threads[t].pc) then ReadStep(g, t)
    else if IsDropPc(g.threads[t].pc) then DropStep(g, t)
    else WriteStep(g, t)
  }

  predicate IsIdle(g: State, t: ThreadId) { t in g.threads && g.threads[t].pc == Idle }

  /** lnewreader or lnewwriter */
  function NewBox(g: State, t: ThreadId): State { Become(g, t, Thread(Read, Idle, None, None, None, None)) }

  function StartRead(g: State, t: ThreadId): State
    requires IsIdle(g, t)
  {
    Become(g, t, g.threads[t].(op := Read, pc := ReadSpin, got := None, seen := None, drop := None))
  }

  /** stm_newcopy, at the start of stm_update. */
  function StartUpdate(g: State, t: ThreadId, c: CopyId): State
    requires IsIdle(g, t)
  {
    Become(g.(copies := g.copies[c := Copy(1, false)]), t,
           g.threads[t].(op := Update, pc := WriteCas, got := Some(c), seen := None, drop := None))
  }

  function StartDelete(g: State, t: ThreadId): State
    requires IsIdle(g, t)
  {
    Become(g, t, g.threads[t].(op := Delete, pc := WriteCas, got := None, seen := None, drop := None))
  }

  /** ldeletereader, for the copy the box keeps. */
  function StartForget(g: State, t: ThreadId): State
    requires IsIdle(g, t)
  {
    var x := g.threads[t];
    Become(g, t, x.(op := Read, pc := DropCopy, drop := x.last, last := None, got := None, seen := None))
  }

  ghost predicate Next(g: State, g': State) {
    || (exists t :: CanStep(g, t) && g' == Step(g, t))
    || (exists t: ThreadId :: t !in g.threads && g' == NewBox(g, t))
    || (exists t :: IsIdle(g, t) && (g' == StartRead(g, t) || g' == StartDelete(g, t) || g' == StartForget(g, t)))
    || (exists t, c: CopyId :: IsIdle(g, t) && c !in g.copies && g' == StartUpdate(g, t, c))
  }

  ghost predicate IsRun(run: seq<State>) {
    && |run| > 0
    && (exists c: CopyId :: IsFirst(run[0], c))
    && forall i :: 0 <= i < |run| - 1 ==> Next(run[i], run[i + 1])
  }

  // ---- what a thread is doing with the lock ---------------------------------------------------

  predicate CountedIn(x: Thread) { x.pc in {ReadCheck, ReadBack, LoadCopy, GrabCopy, ReadUnlock} }

  predicate ReaderInside(x: Thread) { x.pc in {LoadCopy, GrabCopy, ReadUnlock} }

  predicate WriterInside(x: Thread) { x.pc in {SwapCopy, DropOwn, FreeOwn, ClearCopy, WriteUnlock} }

  predicate HasWrite(x: Thread) { x.pc == WriteWait || WriterInside(x) }

  // ---- what a thread is doing with a copy -------------------------------------------------------

  predicate Keeps(x: Thread, c: CopyId) { x.last == Some(c) }

  predicate Grabbed(x: Thread, c: CopyId) { x.got == Some(c) }

  predicate ToDrop(x: Thread, c: CopyId) { x.drop == Some(c) && x.pc != FreeCopy }

  /** stm_release has taken the object's reference off but not its pointer. */
  predicate Clearing(x: Thread, c: CopyId) { x.seen == Some(c) && (x.pc == FreeOwn || x.pc == ClearCopy) }

  predicate Freeing(x: Thread, c: CopyId) {
    (x.drop == Some(c) && x.pc == FreeCopy) || (x.seen == Some(c) && x.pc == FreeOwn)
  }

  type Threads = map<ThreadId, Thread>

  /** How many threads stand where with copy c. */
  datatype Tally = Tally(keeps: int, grabbed: int, toDrop: int, clearing: int, freeing: int)

  function TallyOf(ts: Threads, c: CopyId): Tally {
    Tally(|Those(ts, (x: Thread) => Keeps(x, c))|,
          |Those(ts, (x: Thread) => Grabbed(x, c))|,
          |Those(ts, (x: Thread) => ToDrop(x, c))|,
          |Those(ts, (x: Thread) => Clearing(x, c))|,
          |Those(ts, (x: Thread) => Freeing(x, c))|)
  }

  function Share(x: Thread, c: CopyId): Tally {
    Tally(Bit(Keeps(x, c)), Bit(Grabbed(x, c)), Bit(ToDrop(x, c)), Bit(Clearing(x, c)), Bit(Freeing(x, c)))
  }

  /** One thread's share changed from a to b. */
  predicate Moves(y: Tally, y': Tally, a: Tally, b: Tally) {
    && y'.keeps == y.keeps + b.keeps - a.keeps && y.keeps >= a.keeps
    && y'.grabbed == y.grabbed + b.grabbed - a.grabbed && y.grabbed >= a.grabbed
    && y'.toDrop == y.toDrop + b.toDrop - a.toDrop && y.toDrop >= a.toDrop
    && y'.clearing == y.clearing + b.clearing - a.clearing && y.clearing >= a.clearing
    && y'.freeing == y.freeing + b.freeing - a.freeing && y.freeing >= a.freeing
  }

  const Nothing: Tally := Tally(0, 0, 0, 0, 0)

  lemma MovedCount(ts: Threads, t: ThreadId, x: Thread, p: Thread -> bool)
    ensures |Those(ts[t := x], p)| == |Those(ts, p)| + Bit(p(x)) - Bit(t in ts && p(ts[t]))
    ensures |Those(ts, p)| >= Bit(t in ts && p(ts[t]))
  {
    MovedOne(ts, t, x, p);
    if t in ts && p(ts[t]) { SomeOne(ts, t, p); }
  }

  lemma Moved(ts: Threads, t: ThreadId, x: Thread, c: CopyId)
    ensures Moves(TallyOf(ts, c), TallyOf(ts[t := x], c), if t in ts then Share(ts[t], c) else Nothing, Share(x, c))
  {
    MovedCount(ts, t, x, (x: Thread) => Keeps(x, c));
    MovedCount(ts, t, x, (x: Thread) => Grabbed(x, c));
    MovedCount(ts, t, x, (x: Thread) => ToDrop(x, c));
    MovedCount(ts, t, x, (x: Thread) => Clearing(x, c));
    MovedCount(ts, t, x, (x: Thread) => Freeing(x, c));
  }

  // ---- invariant --------------------------------------------------------------------------------

  /** A copy's counter is its references from the object, from calls in progress and from
      boxes; at zero it is freed, or one thread is about to free it. */
  predicate CopyOk(y: Tally, v: Copy, owned: bool) {
    && v.ref == Bit(owned) - y.clearing + y.keeps + y.grabbed + y.toDrop
    && y.freeing + Bit(v.freed) == Bit(v.ref == 0)
    && 0 <= y.clearing <= Bit(owned)
    && y.keeps >= 0 && y.grabbed >= 0 && y.toDrop >= 0 && y.freeing >= 0
  }

  ghost predicate CopiesOk(g: State) {
    forall c :: c in g.copies ==> CopyOk(TallyOf(g.threads, c), g.copies[c], g.copy == Some(c))
  }

  /** What threads under the lock know of the object's copy. */
  predicate SeesCopy(x: Thread, copy: Option<CopyId>) {
    && (x.pc == GrabCopy ==> x.seen == copy)
    && (x.pc == FreeOwn || x.pc == ClearCopy ==> x.seen == copy)
  }

  predicate PointersOk(g: State, x: Thread) {
    && Known(g, x.last) && Known(g, x.got) && Known(g, x.seen) && Known(g, x.drop)
    && (x.pc == FreeOwn ==> x.seen.Some?) && (x.pc == FreeCopy ==> x.drop.Some?)
    && (x.drop.Some? ==> IsDropPc(x.pc) || x.pc == WriteUnlock)
    && (x.got.Some? ==> x.pc in {ReadUnlock, Compare, WriteCas, WriteWait, SwapCopy})
    && (x.pc == SwapCopy ==> x.op == Update)
    && (IsReadPc(x.pc) ==> x.op == Read)
    && (x.pc == WriteCas || x.pc == WriteWait ==> x.op != Read)
    && (x.pc in {DropOwn, FreeOwn, ClearCopy} ==> x.op == Delete)
    && (x.op == Delete ==> x.got == None)
  }

  ghost predicate ThreadsOk(g: State) {
    && Known(g, g.copy)
    && forall t :: t in g.threads ==> SeesCopy(g.threads[t], g.copy) && PointersOk(g, g.threads[t])
  }

  ghost predicate Inv(g: State) { LockTallyOk(LockTallyOf(g.threads), g.write, g.read) && ThreadsOk(g) && CopiesOk(g) }

  // ---- the lock -----------------------------------------------------------------------------------

  /** The four counts that the lock is about. */
  datatype LockTally = LockTally(countedIn: int, readersInside: int, hasWrite: int, writersInside: int)

  function LockTallyOf(ts: Threads): LockTally {
    LockTally(|Those(ts, CountedIn)|, |Those(ts, ReaderInside)|, |Those(ts, HasWrite)|, |Those(ts, WriterInside)|)
  }

  predicate LockMoves(y: LockTally, y': LockTally, x: Thread, x': Thread) {
    && y'.countedIn == y.countedIn + Bit(CountedIn(x')) - Bit(CountedIn(x)) && y.countedIn >= Bit(CountedIn(x))
    && y'.readersInside == y.readersInside + Bit(ReaderInside(x')) - Bit(ReaderInside(x)) && y.readersInside >= Bit(ReaderInside(x))
    && y'.hasWrite == y.hasWrite + Bit(HasWrite(x')) - Bit(HasWrite(x)) && y.hasWrite >= Bit(HasWrite(x))
    && y'.writersInside == y.writersInside + Bit(WriterInside(x')) - Bit(WriterInside(x)) && y.writersInside >= Bit(WriterInside(x))
  }

  lemma LockMoved(ts: Threads, t: ThreadId, x: Thread)
    requires t in ts
    ensures LockMoves(LockTallyOf(ts), LockTallyOf(ts[t := x]), ts[t], x)
  {
    MovedCount(ts, t, x, CountedIn);
    MovedCount(ts, t, x, ReaderInside);
    MovedCount(ts, t, x, HasWrite);
    MovedCount(ts, t, x, WriterInside);
  }

  predicate LockTallyOk(y: LockTally, write: bool, read: int) {
    && read == y.countedIn
    && y.hasWrite == Bit(write)
    && (y.readersInside > 0 ==> y.writersInside == 0)
  }

  /** Who is inside has counted itself in, or has set write. */
  predicate InsideCounted(y: LockTally) {
    0 <= y.readersInside <= y.countedIn && 0 <= y.writersInside <= y.hasWrite
  }

  lemma InsideIsCounted(ts: Threads)
    ensures InsideCounted(LockTallyOf(ts))
  {
    Fewer(ts, ReaderInside, CountedIn);
    Fewer(ts, WriterInside, HasWrite);
  }

  lemma Fewer(ts: Threads, p: Thread -> bool, q: Thread -> bool)
    requires forall x :: p(x) ==> q(x)
    ensures |Those(ts, p)| <= |Those(ts, q)|
  {
    var a, b := Those(ts, p), Those(ts, q);
    assert a <= b;
    assert b == a + (b - a) && |b| == |a| + |b - a|;
  }

  lemma ReadLockOk(g: State, t: ThreadId, y: LockTally, y': LockTally)
    requires CanStep(g, t) && IsReadPc(g.threads[t].pc) && LockTallyOk(y, g.write, g.read)
    requires LockMoves(y, y', g.threads[t], ReadStep(g, t).threads[t]) && InsideCounted(y)
    ensures LockTallyOk(y', ReadStep(g, t).write, ReadStep(g, t).read)
  {
  }

  lemma WriteLockOk(g: State, t: ThreadId, y: LockTally, y': LockTally)
    requires CanStep(g, t) && !IsReadPc(g.threads[t].pc) && !IsDropPc(g.threads[t].pc) && LockTallyOk(y, g.write, g.read)
    requires LockMoves(y, y', g.threads[t], WriteStep(g, t).threads[t]) && InsideCounted(y)
    ensures LockTallyOk(y', WriteStep(g, t).write, WriteStep(g, t).read)
  {
  }

  lemma DropLockOk(g: State, t: ThreadId, y: LockTally, y': LockTally)
    requires CanStep(g, t) && IsDropPc(g.threads[t].pc) && LockTallyOk(y, g.write, g.read)
    requires LockMoves(y, y', g.threads[t], DropStep(g, t).threads[t]) && InsideCounted(y)
    ensures LockTallyOk(y', DropStep(g, t).write, DropStep(g, t).read)
  {
  }

  // ---- the copies ---------------------------------------------------------------------------------

  /** What the invariant says to a thread about copy c alone. */
  predicate CopyReady(g: State, t: ThreadId, c: CopyId, y: Tally) {
    && CanStep(g, t) && c in g.copies
    && SeesCopy(g.threads[t], g.copy) && PointersOk(g, g.threads[t])
    && CopyOk(y, g.copies[c], g.copy == Some(c))
    && (WriterInside(g.threads[t]) && !Clearing(g.threads[t], c) ==> y.clearing == 0)
    && (ReaderInside(g.threads[t]) ==> y.clearing == 0)
  }

  lemma ReadCopyOk(g: State, t: ThreadId, c: CopyId, y: Tally, y': Tally)
    requires CopyReady(g, t, c, y) && IsReadPc(g.threads[t].pc)
    requires Moves(y, y', Share(g.threads[t], c), Share(ReadStep(g, t).threads[t], c))
    ensures c in ReadStep(g, t).copies && CopyOk(y', ReadStep(g, t).copies[c], ReadStep(g, t).copy == Some(c))
  {
  }

  predicate IsReleasePc(pc: Pc) { pc == DropOwn || pc == FreeOwn || pc == ClearCopy }

  lemma UpdateCopyOk(g: State, t: ThreadId, c: CopyId, y: Tally, y': Tally)
    requires CopyReady(g, t, c, y)
    requires g.threads[t].pc in {WriteCas, WriteWait, SwapCopy, WriteUnlock}
    requires Moves(y, y', Share(g.threads[t], c), Share(WriteStep(g, t).threads[t], c))
    ensures c in WriteStep(g, t).copies && CopyOk(y', WriteStep(g, t).copies[c], WriteStep(g, t).copy == Some(c))
  {
  }

  lemma ReleaseCopyOk(g: State, t: ThreadId, c: CopyId, y: Tally, y': Tally)
    requires CopyReady(g, t, c, y) && IsReleasePc(g.threads[t].pc)
    requires Moves(y, y', Share(g.threads[t], c), Share(WriteStep(g, t).threads[t], c))
    ensures c in WriteStep(g, t).copies && CopyOk(y', WriteStep(g, t).copies[c], WriteStep(g, t).copy == Some(c))
  {
  }

  lemma DropCopyOk(g: State, t: ThreadId, c: CopyId, y: Tally, y': Tally)
    requires CopyReady(g, t, c, y) && IsDropPc(g.threads[t].pc)
    requires Moves(y, y', Share(g.threads[t], c), Share(DropStep(g, t).threads[t], c))
    ensures c in DropStep(g, t).copies && CopyOk(y', DropStep(g, t).copies[c], DropStep(g, t).copy == Some(c))
  {
  }

  // ---- every step keeps the invariant -------------------------------------------------------------

  /** With t inside as a writer no other thread is inside; with t inside as a reader no
      writer is. */
  lemma Alone(g: State, t: ThreadId, u: ThreadId)
    requires LockTallyOk(LockTallyOf(g.threads), g.write, g.read) && t in g.threads && u in g.threads && u != t
    ensures WriterInside(g.threads[t]) ==> !WriterInside(g.threads[u]) && !ReaderInside(g.threads[u])
    ensures ReaderInside(g.threads[t]) ==> !WriterInside(g.threads[u])
  {
    var ts := g.threads;
    InsideIsCounted(ts);
    if WriterInside(ts[t]) { SomeOne(ts, t, WriterInside); }
    if WriterInside(ts[u]) { SomeOne(ts, u, WriterInside); }
    if ReaderInside(ts[t]) { SomeOne(ts, t, ReaderInside); }
    if ReaderInside(ts[u]) { SomeOne(ts, u, ReaderInside); }
  }

  lemma NoneClearing(g: State, t: ThreadId, c: CopyId)
    requires LockTallyOk(LockTallyOf(g.threads), g.write, g.read) && t in g.threads
    requires ReaderInside(g.threads[t]) || (WriterInside(g.threads[t]) && !Clearing(g.threads[t], c))
    ensures TallyOf(g.threads, c).clearing == 0
  {
    var ts := g.threads;
    forall u | u in ts ensures !Clearing(ts[u], c) {
      if u != t { Alone(g, t, u); }
    }
    NoneOf(ts, (x: Thread) => Clearing(x, c));
  }

  lemma CopyIsReady(g: State, t: ThreadId, c: CopyId)
    requires Inv(g) && CanStep(g, t) && c in g.copies
    ensures CopyReady(g, t, c, TallyOf(g.threads, c))
  {
    var x := g.threads[t];
    if ReaderInside(x) || (WriterInside(x) && !Clearing(x, c)) {
      NoneClearing(g, t, c);
    }
  }

  /** What a step changes besides counters. */
  predicate StepFrame(g: State, g': State, t: ThreadId)
    requires t in g.threads
  {
    && t in g'.threads && g'.threads == g.threads[t := g'.threads[t]]
    && g'.copies.Keys == g.copies.Keys
    && (g'.copy == g.copy || WriterInside(g.threads[t]))
  }

  lemma StepFramed(g: State, t: ThreadId)
    requires CanStep(g, t)
    ensures StepFrame(g, Step(g, t), t)
  {
    if IsReadPc(g.threads[t].pc) {
    } else if IsDropPc(g.threads[t].pc) {
    } else {
    }
  }

  lemma StepCopy(g: State, t: ThreadId, c: CopyId)
    requires Inv(g) && CanStep(g, t) && c in g.copies
    ensures var g' := Step(g, t);
            c in g'.copies && CopyOk(TallyOf(g'.threads, c), g'.copies[c], g'.copy == Some(c))
  {
    var g' := Step(g, t);
    StepFramed(g, t);
    CopyIsReady(g, t, c);
    var y, y' := TallyOf(g.threads, c), TallyOf(g'.threads, c);
    Moved(g.threads, t, g'.threads[t], c);
    if IsReadPc(g.threads[t].pc) {
      ReadCopyOk(g, t, c, y, y');
    } else if IsDropPc(g.threads[t].pc) {
      DropCopyOk(g, t, c, y, y');
    } else if IsReleasePc(g.threads[t].pc) {
      ReleaseCopyOk(g, t, c, y, y');
    } else {
      UpdateCopyOk(g, t, c, y, y');
    }
  }

  lemma StepLock(g: State, t: ThreadId)
    requires Inv(g) && CanStep(g, t)
    ensures LockTallyOk(LockTallyOf(Step(g, t).threads), Step(g, t).write, Step(g, t).read)
  {
    var g' := Step(g, t);
    StepFramed(g, t);
    var y, y' := LockTallyOf(g.threads), LockTallyOf(g'.threads);
    InsideIsCounted(g.threads);
    LockMoved(g.threads, t, g'.threads[t]);
    if IsReadPc(g.threads[t].pc) {
      ReadLockOk(g, t, y, y');
    } else if IsDropPc(g.threads[t].pc) {
      DropLockOk(g, t, y, y');
    } else {
      WriteLockOk(g, t, y, y');
    }
  }

  predicate OwnThreadOk(g: State, t: ThreadId) {
    t in g.threads && SeesCopy(g.threads[t], g.copy) && PointersOk(g, g.threads[t]) && Known(g, g.copy)
  }

  lemma ReadOwnThread(g: State, t: ThreadId)
    requires CanStep(g, t) && OwnThreadOk(g, t) && IsReadPc(g.threads[t].pc)
    ensures OwnThreadOk(ReadStep(g, t), t)
  {
  }

  lemma UpdateOwnThread(g: State, t: ThreadId)
    requires CanStep(g, t) && OwnThreadOk(g, t) && g.threads[t].pc in {WriteCas, WriteWait, SwapCopy, WriteUnlock}
    ensures OwnThreadOk(WriteStep(g, t), t)
  {
  }

  lemma ReleaseOwnThread(g: State, t: ThreadId)
    requires CanStep(g, t) && OwnThreadOk(g, t) && IsReleasePc(g.threads[t].pc)
    ensures OwnThreadOk(WriteStep(g, t), t)
  {
  }

  lemma DropOwnThread(g: State, t: ThreadId)
    requires CanStep(g, t) && OwnThreadOk(g, t) && IsDropPc(g.threads[t].pc)
    ensures OwnThreadOk(DropStep(g, t), t)
  {
  }

  lemma StepOwnThread(g: State, t: ThreadId)
    requires CanStep(g, t) && OwnThreadOk(g, t)
    ensures OwnThreadOk(Step(g, t), t)
  {
    if IsReadPc(g.threads[t].pc) {
      ReadOwnThread(g, t);
    } else if IsDropPc(g.threads[t].pc) {
      DropOwnThread(g, t);
    } else {
      if IsReleasePc(g.threads[t].pc) {
        ReleaseOwnThread(g, t);
      } else {
        UpdateOwnThread(g, t);
      }
    }
  }

  /** A thread that t's step left alone. */
  lemma OtherThread(g: State, g': State, t: ThreadId, u: ThreadId)
    requires t in g.threads && u in g.threads && u != t && StepFrame(g, g', t)
    requires LockTallyOk(LockTallyOf(g.threads), g.write, g.read)
    requires SeesCopy(g.threads[u], g.copy) && PointersOk(g, g.threads[u])
    ensures u in g'.threads && SeesCopy(g'.threads[u], g'.copy) && PointersOk(g', g'.threads[u])
  {
    assert g'.threads[u] == g.threads[u];
    Alone(g, t, u);
  }

  lemma StepThreads(g: State, t: ThreadId)
    requires Inv(g) && CanStep(g, t)
    ensures ThreadsOk(Step(g, t))
  {
    var g' := Step(g, t);
    StepFramed(g, t);
    StepOwnThread(g, t);
    forall u | u in g'.threads ensures SeesCopy(g'.threads[u], g'.copy) && PointersOk(g', g'.threads[u]) {
      if u != t {
        OtherThread(g, g', t, u);
      }
    }
  }

  lemma StepInv(g: State, t: ThreadId)
    requires Inv(g) && CanStep(g, t)
    ensures Inv(Step(g, t))
  {
    StepLock(g, t);
    StepThreads(g, t);
    StepFramed(g, t);
    forall c | c in Step(g, t).copies ensures CopyOk(TallyOf(Step(g, t).threads, c), Step(g, t).copies[c], Step(g, t).copy == Some(c)) {
      StepCopy(g, t, c);
    }
  }

  // ---- the start of a call ----------------------------------------------------------------------------

  /** A thread that is idle, or is not there yet, starts as x; it may bring a new copy. */
  predicate Starts(g: State, g': State, t: ThreadId, x: Thread) {
    && (t in g.threads ==> g.threads[t].pc == Idle)
    && g' == g.(copies := g'.copies, threads := g.threads[t := x])
    && x.pc in {Idle, ReadSpin, WriteCas, DropCopy} && x.seen == None
  }

  lemma StartLock(g: State, g': State, t: ThreadId, x: Thread)
    requires Inv(g) && Starts(g, g', t, x)
    ensures LockTallyOk(LockTallyOf(g'.threads), g'.write, g'.read)
  {
    MovedCount(g.threads, t, x, CountedIn);
    MovedCount(g.threads, t, x, ReaderInside);
    MovedCount(g.threads, t, x, HasWrite);
    MovedCount(g.threads, t, x, WriterInside);
  }

  lemma StartThreads(g: State, g': State, t: ThreadId, x: Thread)
    requires Inv(g) && Starts(g, g', t, x) && g.copies.Keys <= g'.copies.Keys && PointersOk(g', x)
    ensures ThreadsOk(g')
  {
    forall u | u in g'.threads ensures SeesCopy(g'.threads[u], g'.copy) && PointersOk(g', g'.threads[u]) {
      if u != t { assert g'.threads[u] == g.threads[u]; }
    }
  }

  /** x starts with nothing grabbed, and keeps the box's copy or is to drop it. */
  predicate KeepsOrDrops(g: State, t: ThreadId, x: Thread) {
    && x.got == None
    && if t !in g.threads then x.last == None && x.drop == None
       else (x.last == g.threads[t].last && x.drop == None && x.pc != DropCopy) ||
            (x.last == None && x.drop == g.threads[t].last && x.pc == DropCopy)
  }

  lemma StartCopy(g: State, t: ThreadId, x: Thread, c: CopyId)
    requires ThreadsOk(g) && Starts(g, Become(g, t, x), t, x) && KeepsOrDrops(g, t, x)
    requires c in g.copies && CopyOk(TallyOf(g.threads, c), g.copies[c], g.copy == Some(c))
    ensures CopyOk(TallyOf(g.threads[t := x], c), g.copies[c], g.copy == Some(c))
  {
    Moved(g.threads, t, x, c);
    var before := if t in g.threads then Share(g.threads[t], c) else Nothing;
    if t in g.threads {
      IdleShare(g, g.threads[t], c);
    }
    StartCopyOk(TallyOf(g.threads, c), TallyOf(g.threads[t := x], c), g.copies[c], g.copy == Some(c), before, Share(x, c));
  }

  /** Starting without a new copy: a box's copy may turn into one to be dropped. */
  lemma StartInv(g: State, t: ThreadId, x: Thread)
    requires Inv(g) && Starts(g, Become(g, t, x), t, x) && KeepsOrDrops(g, t, x) && PointersOk(g, x)
    ensures Inv(Become(g, t, x))
  {
    var g' := Become(g, t, x);
    StartLock(g, g', t, x);
    StartThreads(g, g', t, x);
    forall c | c in g'.copies ensures CopyOk(TallyOf(g'.threads, c), g'.copies[c], g'.copy == Some(c)) {
      StartCopy(g, t, x, c);
    }
  }

  /** An idle thread's share in a copy is what its box keeps. */
  lemma IdleShare(g: State, x: Thread, c: CopyId)
    requires x.pc == Idle && PointersOk(g, x)
    ensures Share(x, c) == Tally(Bit(Keeps(x, c)), 0, 0, 0, 0)
  {
  }

  lemma StartCopyOk(y: Tally, y': Tally, v: Copy, owned: bool, a: Tally, b: Tally)
    requires CopyOk(y, v, owned) && Moves(y, y', a, b)
    requires a == Tally(a.keeps, 0, 0, 0, 0) && a.keeps >= 0
    requires b == Tally(a.keeps, 0, 0, 0, 0) || b == Tally(0, 0, a.keeps, 0, 0)
    ensures CopyOk(y', v, owned)
  {
  }

  /** A copy nobody has heard of has no references. */
  lemma Unknown(g: State, c: CopyId)
    requires ThreadsOk(g) && c !in g.copies
    ensures TallyOf(g.threads, c) == Nothing
  {
    forall t | t in g.threads
      ensures !Keeps(g.threads[t], c) && !Grabbed(g.threads[t], c) && !ToDrop(g.threads[t], c)
      ensures !Clearing(g.threads[t], c) && !Freeing(g.threads[t], c)
    {
      assert PointersOk(g, g.threads[t]);
    }
    NoneOf(g.threads, (x: Thread) => Keeps(x, c));
    NoneOf(g.threads, (x: Thread) => Grabbed(x, c));
    NoneOf(g.threads, (x: Thread) => ToDrop(x, c));
    NoneOf(g.threads, (x: Thread) => Clearing(x, c));
    NoneOf(g.threads, (x: Thread) => Freeing(x, c));
  }

  lemma StartUpdateCopy(g: State, t: ThreadId, c: CopyId, d: CopyId)
    requires Inv(g) && IsIdle(g, t) && c !in g.copies && d in StartUpdate(g, t, c).copies
    ensures var g' := StartUpdate(g, t, c); CopyOk(TallyOf(g'.threads, d), g'.copies[d], g'.copy == Some(d))
  {
    var x := StartUpdate(g, t, c).threads[t];
    assert PointersOk(g, g.threads[t]);
    IdleShare(g, g.threads[t], d);
    Moved(g.threads, t, x, d);
    if d == c {
      Unknown(g, c);
    } else {
      assert CopyOk(TallyOf(g.threads, d), g.copies[d], g.copy == Some(d));
      assert Share(x, d) == Share(g.threads[t], d);
    }
  }

  lemma StartUpdateInv(g: State, t: ThreadId, c: CopyId)
    requires Inv(g) && IsIdle(g, t) && c !in g.copies
    ensures Inv(StartUpdate(g, t, c))
  {
    var g' := StartUpdate(g, t, c);
    var x := g'.threads[t];
    StartLock(g, g', t, x);
    assert PointersOk(g, g.threads[t]);
    StartThreads(g, g', t, x);
    forall d | d in g'.copies ensures CopyOk(TallyOf(g'.threads, d), g'.copies[d], g'.copy == Some(d)) {
      StartUpdateCopy(g, t, c, d);
    }
  }

  lemma FirstInv(g: State, c: CopyId)
    requires IsFirst(g, c)
    ensures Inv(g)
  {
    assert forall p: Thread -> bool :: Those(g.threads, p) == {};
  }

  lemma NextInv(g: State, g': State)
    requires Inv(g) && Next(g, g')
    ensures Inv(g')
  {
    if t :| CanStep(g, t) && g' == Step(g, t) {
      StepInv(g, t);
    } else if t: ThreadId :| t !in g.threads && g' == NewBox(g, t) {
      StartInv(g, t, g'.threads[t]);
    } else if t, c: CopyId :| IsIdle(g, t) && c !in g.copies && g' == StartUpdate(g, t, c) {
      StartUpdateInv(g, t, c);
    } else {
      var t :| IsIdle(g, t) && (g' == StartRead(g, t) || g' == StartDelete(g, t) || g' == StartForget(g, t));
      StartCallInv(g, t);
    }
  }

  lemma StartCallInv(g: State, t: ThreadId)
    requires Inv(g) && IsIdle(g, t)
    ensures Inv(StartRead(g, t)) && Inv(StartDelete(g, t)) && Inv(StartForget(g, t))
  {
    assert PointersOk(g, g.threads[t]);
    StartInv(g, t, StartRead(g, t).threads[t]);
    StartInv(g, t, StartDelete(g, t).threads[t]);
    StartInv(g, t, StartForget(g, t).threads[t]);
  }

  lemma {:induction false} RunInv(run: seq<State>, i: nat)
    requires IsRun(run) && i < |run|
    ensures Inv(run[i])
  {
    if i == 0 {
      var c: CopyId :| IsFirst(run[0], c);
      FirstInv(run[0], c);
    } else {
      RunInv(run, i - 1);
      assert Next(run[i - 1], run[i - 1 + 1]);
      NextInv(run[i - 1], run[i]);
    }
  }

  // ---- what every run keeps -----------------------------------------------------------------------------

  /** A writer inside excludes all readers and all other writers. */
  lemma Exclusion(run: seq<State>, i: nat, t: ThreadId, u: ThreadId)
    requires IsRun(run) && i < |run| && t in run[i].threads && u in run[i].threads && t != u
    requires WriterInside(run[i].threads[t])
    ensures !WriterInside(run[i].threads[u]) && !ReaderInside(run[i].threads[u])
  {
    RunInv(run, i);
    Alone(run[i], t, u);
  }

  /** While nobody is in stm_release, a copy's counter is the number of its references: the
      object's, those of calls in progress and those of boxes. */
  lemma CounterExact(run: seq<State>, i: nat, c: CopyId)
    requires IsRun(run) && i < |run| && c in run[i].copies
    requires forall t :: t in run[i].threads ==> !IsReleasePc(run[i].threads[t].pc)
    ensures var ts := run[i].threads;
            run[i].copies[c].ref == Bit(run[i].copy == Some(c))
              + |Those(ts, (x: Thread) => Keeps(x, c))| + |Those(ts, (x: Thread) => Grabbed(x, c))|
              + |Those(ts, (x: Thread) => ToDrop(x, c))|
  {
    RunInv(run, i);
    NoneOf(run[i].threads, (x: Thread) => Clearing(x, c));
    assert CopyOk(TallyOf(run[i].threads, c), run[i].copies[c], run[i].copy == Some(c));
  }

  /** A copy that a box keeps, or that a call holds, or that a reader is about to grab, is
      not freed and nobody is about to free it; so the assertion of stm_copy holds. */
  lemma KeptIsAlive(run: seq<State>, i: nat, t: ThreadId, c: CopyId)
    requires IsRun(run) && i < |run| && t in run[i].threads
    requires var x := run[i].threads[t];
      Keeps(x, c) || Grabbed(x, c) || ToDrop(x, c) || (x.pc == GrabCopy && x.seen == Some(c))
    ensures c in run[i].copies && run[i].copies[c].ref > 0 && !run[i].copies[c].freed
    ensures forall u :: u in run[i].threads ==> !Freeing(run[i].threads[u], c)
  {
    RunInv(run, i);
    var g := run[i];
    var x := g.threads[t];
    assert PointersOk(g, x);
    assert CopyOk(TallyOf(g.threads, c), g.copies[c], g.copy == Some(c));
    if Keeps(x, c) { SomeOne(g.threads, t, (x: Thread) => Keeps(x, c)); }
    if Grabbed(x, c) { SomeOne(g.threads, t, (x: Thread) => Grabbed(x, c)); }
    if ToDrop(x, c) { SomeOne(g.threads, t, (x: Thread) => ToDrop(x, c)); }
    if x.pc == GrabCopy { NoneClearing(g, t, c); }
    forall u | u in g.threads ensures !Freeing(g.threads[u], c) {
      if Freeing(g.threads[u], c) { SomeOne(g.threads, u, (x: Thread) => Freeing(x, c)); }
    }
  }

  /** Freeing happens once: a thread about to free a copy finds it not freed, and no other
      thread is about to free it. */
  lemma FreedOnce(run: seq<State>, i: nat, t: ThreadId, u: ThreadId, c: CopyId)
    requires IsRun(run) && i < |run| && t in run[i].threads && u in run[i].threads
    requires Freeing(run[i].threads[t], c) && Freeing(run[i].threads[u], c)
    ensures c in run[i].copies && !run[i].copies[c].freed && t == u
  {
    RunInv(run, i);
    var g := run[i];
    assert PointersOk(g, g.threads[t]);
    assert CopyOk(TallyOf(g.threads, c), g.copies[c], g.copy == Some(c));
    SomeOne(g.threads, t, (x: Thread) => Freeing(x, c));
  }

  /** Nothing leaks: a copy without any reference left is freed, or about to be. */
  lemma NoLeak(run: seq<State>, i: nat, c: CopyId)
    requires IsRun(run) && i < |run| && c in run[i].copies && run[i].copy != Some(c)
    requires forall t :: t in run[i].threads ==>
               !Keeps(run[i].threads[t], c) && !Grabbed(run[i].threads[t], c) && !ToDrop(run[i].threads[t], c)
    ensures run[i].copies[c].freed || exists t :: t in run[i].threads && Freeing(run[i].threads[t], c)
  {
    RunInv(run, i);
    assert CopyOk(TallyOf(run[i].threads, c), run[i].copies[c], false);
    if !run[i].copies[c].freed {
      Unreferenced(run[i].threads, run[i].copies[c], c);
    }
  }

  lemma Unreferenced(ts: Threads, v: Copy, c: CopyId)
    requires CopyOk(TallyOf(ts, c), v, false) && !v.freed
    requires forall t :: t in ts ==> !Keeps(ts[t], c) && !Grabbed(ts[t], c) && !ToDrop(ts[t], c)
    ensures exists t :: t in ts && Freeing(ts[t], c)
  {
    NoneOf(ts, (x: Thread) => Keeps(x, c));
    NoneOf(ts, (x: Thread) => Grabbed(x, c));
    NoneOf(ts, (x: Thread) => ToDrop(x, c));
    var t :| t in Those(ts, (x: Thread) => Freeing(x, c));
    assert Freeing(ts[t], c);
  }

  // ---- why a reader looks twice -------------------------------------------------------------------------

  ghost predicate Reachable(g: State) {
    exists run :: IsRun(run) && run[|run| - 1] == g
  }

  lemma Reach(g: State, g': State)
    requires Reachable(g) && Next(g, g')
    ensures Reachable(g')
  {
    var run :| IsRun(run) && run[|run| - 1] == g;
    var c: CopyId :| IsFirst(run[0], c);
    var run' := run + [g'];
    assert IsFirst(run'[0], c);
    forall i | 0 <= i < |run'| - 1 ensures Next(run'[i], run'[i + 1]) {
      if i < |run| - 1 {
        assert run'[i] == run[i] && run'[i + 1] == run[i + 1];
        assert Next(run[i], run[i + 1]);
      }
    }
    assert IsRun(run') && run'[|run'| - 1] == g';
  }

  lemma ReachStep(g: State, t: ThreadId)
    requires Reachable(g) && CanStep(g, t)
    ensures Reachable(Step(g, t))
  {
    Reach(g, Step(g, t));
  }

  lemma TwoBoxes() returns (g: State)
    ensures Reachable(g) && !g.write && g.read == 0 && Known(g, g.copy)
    ensures g.threads == map[0 := Thread(Read, Idle, None, None, None, None), 1 := Thread(Read, Idle, None, None, None, None)]
  {
    g := State(false, 0, Some(0), map[0 := Copy(1, false)], map[]);
    assert IsFirst(g, 0);
    var run := [g];
    assert IsRun(run) && run[|run| - 1] == g;
    Reach(g, NewBox(g, 0));
    g := NewBox(g, 0);
    Reach(g, NewBox(g, 1));
    g := NewBox(g, 1);
  }

  /** Two boxes, of which the first has seen write at 0 and is about to count itself in. */
  lemma AboutToCount() returns (g: State)
    ensures Reachable(g) && !g.write && g.read == 0 && Known(g, g.copy)
    ensures g.threads == map[0 := Thread(Read, ReadCount, None, None, None, None), 1 := Thread(Read, Idle, None, None, None, None)]
  {
    g := TwoBoxes();
    assert IsIdle(g, 0);
    Reach(g, StartRead(g, 0));
    g := StartRead(g, 0);
    ReachStep(g, 0);
    g := Step(g, 0);
  }

  lemma WriterWaits(g: State) returns (g': State)
    requires Reachable(g) && !g.write && g.read == 0 && Known(g, g.copy)
    requires g.threads == map[0 := Thread(Read, ReadCount, None, None, None, None), 1 := Thread(Read, Idle, None, None, None, None)]
    ensures Reachable(g') && g'.read == 0 && Known(g', g'.copy)
    ensures g'.threads == g.threads[1 := Thread(Delete, WriteWait, None, None, None, None)]
  {
    assert IsIdle(g, 1);
    Reach(g, StartDelete(g, 1));
    g' := StartDelete(g, 1);
    ReachStep(g', 1);
    g' := Step(g', 1);
  }

  /** The second has gone inside to write meanwhile. */
  lemma WriterGoesIn(g: State) returns (g': State)
    requires Reachable(g) && !g.write && g.read == 0 && Known(g, g.copy)
    requires g.threads == map[0 := Thread(Read, ReadCount, None, None, None, None), 1 := Thread(Read, Idle, None, None, None, None)]
    ensures Reachable(g') && CanStep(g', 0) && g'.threads[0].pc == ReadCount
    ensures 1 in g'.threads && g'.threads[1].pc == DropOwn
  {
    g' := WriterWaits(g);
    ReachStep(g', 1);
    g' := Step(g', 1);
  }

  /** The second look at write is needed: a reader may be counted in while a writer, which
      saw no reader, is inside. */
  lemma CountedUnderWriter()
    ensures exists g, t, u ::
              && Reachable(g) && t in g.threads && u in g.threads
              && g.threads[t].pc == ReadCheck && WriterInside(g.threads[u])
  {
    var g := AboutToCount();
    g := WriterGoesIn(g);
    ReachStep(g, 0);
    var g' := Step(g, 0);
    assert g'.threads[1] == g.threads[1] && g'.threads[0].pc == ReadCheck && WriterInside(g'.threads[1]);
  }
}
