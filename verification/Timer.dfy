/** The hierarchical timing wheel of skynet_timer.c.

    A near wheel of 256 slots and four far levels of 64 slots hold the pending
    timers.  `TimerList` below is the simple thing the wheel speeds up: a list of
    (due tick, event) pairs on an unbounded clock.  The class `Wheel` is proved to
    dispatch, at every tick, exactly the events that the list has due, in the order
    in which they were added, however the 32-bit clock wraps.
*/
module TimerList {

  type Int32 = x: int | -0x8000_0000 <= x < 0x8000_0000

  datatype Event = Event(handle: nat, session: Int32)

  /** A timer waiting for the tick `due` of a clock that never wraps. */
  datatype Entry = Entry(due: nat, event: Event)

  /** A call of timer_add: the delay is the C int that skynet_timeout found positive. */
  datatype AddRequest = AddRequest(delay: nat, event: Event)

  /** One call of the timer: an addition between updates, or a timer_update during
      whose dispatch (the lock is released) other threads make some additions. */
  datatype Op = Add(request: AddRequest) | Update(during: seq<AddRequest>)

  const MAX_DELAY := 0x8000_0000

  predicate Legal(r: AddRequest) {
    1 <= r.delay < MAX_DELAY
  }

  predicate AllLegal(rs: seq<AddRequest>) {
    forall r | r in rs :: Legal(r)
  }

  predicate LegalOp(op: Op) {
    match op
    case Add(r) => Legal(r)
    case Update(rs) => AllLegal(rs)
  }

  predicate LegalRun(ops: seq<Op>) {
    forall op | op in ops :: LegalOp(op)
  }

  function Entries(tick: nat, rs: seq<AddRequest>): (es: seq<Entry>)
    ensures |es| == |rs|
  {
    if rs == [] then []
    else Entries(tick, rs[..|rs| - 1]) + [Entry(tick + rs[|rs| - 1].delay, rs[|rs| - 1].event)]
  }

  /** The events of the entries due at `tick`, in list order. */
  function DueEvents(p: seq<Entry>, tick: nat): seq<Event> {
    if p == [] then []
    else
      var front := DueEvents(p[..|p| - 1], tick);
      if p[|p| - 1].due == tick then front + [p[|p| - 1].event] else front
  }

  /** What remains of a list once the entries due at `tick` are gone. */
  function NotDue(p: seq<Entry>, tick: nat): seq<Entry> {
    if p == [] then []
    else
      var front := NotDue(p[..|p| - 1], tick);
      if p[|p| - 1].due == tick then front else front + [p[|p| - 1]]
  }

  lemma {:induction false} DueEventsAppend(p: seq<Entry>, q: seq<Entry>, tick: nat)
    ensures DueEvents(p + q, tick) == DueEvents(p, tick) + DueEvents(q, tick)
  {
    if q == [] {
      assert p + q == p;
    } else {
      assert (p + q)[..|p + q| - 1] == p + q[..|q| - 1];
      DueEventsAppend(p, q[..|q| - 1], tick);
    }
  }

  lemma {:induction false} DueEventsNotDue(p: seq<Entry>, gone: nat, tick: nat)
    ensures DueEvents(NotDue(p, gone), tick) == if tick == gone then [] else DueEvents(p, tick)
  {
    if p != [] {
      var q := p[..|p| - 1];
      DueEventsNotDue(q, gone, tick);
      DueEventsAppend(NotDue(q, gone), if p[|p| - 1].due == gone then [] else [p[|p| - 1]], tick);
    }
  }

  lemma {:induction false} NotDueIn(p: seq<Entry>, tick: nat)
    ensures forall e :: e in NotDue(p, tick) <==> e in p && e.due != tick
  {
    if p != [] {
      NotDueIn(p[..|p| - 1], tick);
      assert p == p[..|p| - 1] + [p[|p| - 1]];
    }
  }

  lemma {:induction false} EntriesIn(tick: nat, rs: seq<AddRequest>)
    requires AllLegal(rs)
    ensures forall e | e in Entries(tick, rs) :: tick < e.due < tick + MAX_DELAY
  {
    if rs != [] {
      var before, last := rs[..|rs| - 1], rs[|rs| - 1];
      assert rs == before + [last] && last in rs;
      EntriesIn(tick, before);
      assert Entries(tick, rs) == Entries(tick, before) + [Entry(tick + last.delay, last.event)];
    }
  }

  lemma {:induction false} NothingDue(p: seq<Entry>, tick: nat)
    requires forall e | e in p :: e.due != tick
    ensures DueEvents(p, tick) == [] && NotDue(p, tick) == p
  {
    if p != [] {
      NothingDue(p[..|p| - 1], tick);
      assert p == p[..|p| - 1] + [p[|p| - 1]];
    }
  }

  /** The additions made during an update exist only if the update dispatched
      something: otherwise the lock is never released while it runs. */
  function WindowAdds(p: seq<Entry>, tick: nat, during: seq<AddRequest>): seq<Entry> {
    if DueEvents(p, tick) == [] then [] else Entries(tick, during)
  }

  /** What one operation adds at tick `tick`, when `p` has been added before. */
  function NewAdds(op: Op, p: seq<Entry>, tick: nat): seq<Entry> {
    match op
    case Add(r) => [Entry(tick + r.delay, r.event)]
    case Update(during) => WindowAdds(p, tick + 1, during)
  }

  /** Every addition a run makes, in order, with the tick at which it is due. */
  function AllAdds(ops: seq<Op>): seq<Entry> {
    if ops == [] then []
    else
      var before := ops[..|ops| - 1];
      AllAdds(before) + NewAdds(ops[|ops| - 1], AllAdds(before), Updates(before))
  }

  /** The number of updates of a run, which is the tick the run ends at. */
  function Updates(ops: seq<Op>): nat {
    if ops == [] then 0
    else Updates(ops[..|ops| - 1]) + if ops[|ops| - 1].Update? then 1 else 0
  }

  lemma NewAddsLater(op: Op, p: seq<Entry>, tick: nat)
    requires LegalOp(op)
    ensures forall e | e in NewAdds(op, p, tick) :: tick < e.due
  {
    if op.Update? {
      EntriesIn(tick + 1, op.during);
    }
  }

  /** The state of a timer after a run: its log so far, and a list that will yield, at
      every later tick, the events added for that tick. */
  ghost predicate Logged(ops: seq<Op>, log: seq<seq<Event>>, p: seq<Entry>) {
    && |log| == Updates(ops)
    && (forall d: nat | 1 <= d <= |log| :: log[d - 1] == DueEvents(AllAdds(ops), d))
    && (forall d: nat | d > |log| :: DueEvents(p, d) == DueEvents(AllAdds(ops), d))
  }

  lemma NextAdds(ops: seq<Op>, op: Op, d: nat)
    requires LegalRun(ops) && LegalOp(op)
    ensures var added := NewAdds(op, AllAdds(ops), Updates(ops));
            && DueEvents(AllAdds(ops + [op]), d) == DueEvents(AllAdds(ops), d) + DueEvents(added, d)
            && (d <= Updates(ops) ==> DueEvents(added, d) == [])
  {
    assert (ops + [op])[..|ops|] == ops;
    var added := NewAdds(op, AllAdds(ops), Updates(ops));
    DueEventsAppend(AllAdds(ops), added, d);
    NewAddsLater(op, AllAdds(ops), Updates(ops));
    if d <= Updates(ops) {
      NothingDue(added, d);
    }
  }

  /** A timer added after `Updates(ops[..k])` updates contributes one event, to the log
      entry of the update `delay` ticks later and to no other; there it stands behind what
      was added for that tick before it, and whatever the run adds later comes behind it. */
  lemma FiredExactly(ops: seq<Op>, k: nat, d: nat)
    requires LegalRun(ops) && k < |ops| && ops[k].Add?
    ensures var r := ops[k].request;
            var own := if d == Updates(ops[..k]) + r.delay then [r.event] else [];
            DueEvents(AllAdds(ops[..k + 1]), d) == DueEvents(AllAdds(ops[..k]), d) + own
    ensures DueEvents(AllAdds(ops[..k + 1]), d) <= DueEvents(AllAdds(ops), d)
  {
    assert ops[..k + 1] == ops[..k] + [ops[k]] && LegalOp(ops[k]) && LegalRun(ops[..k]) by {
      LegalPrefix(ops, k);
    }
    NextAdds(ops[..k], ops[k], d);
    AddsGrow(ops, k + 1, d);
  }

  /** The events asked for with one delay, in order. */
  function WithDelay(rs: seq<AddRequest>, delay: int): seq<Event> {
    if rs == [] then []
    else
      var front := WithDelay(rs[..|rs| - 1], delay);
      if rs[|rs| - 1].delay == delay then front + [rs[|rs| - 1].event] else front
  }

  lemma {:induction false} EntriesDue(tick: nat, rs: seq<AddRequest>, d: nat)
    ensures DueEvents(Entries(tick, rs), d) == WithDelay(rs, d - tick)
  {
    if rs != [] {
      var front, last := rs[..|rs| - 1], rs[|rs| - 1];
      EntriesDue(tick, front, d);
      assert Entries(tick, rs)[..|rs| - 1] == Entries(tick, front);
    }
  }

  /** The same for what other threads add while an update dispatches its events: it counts
      from the tick of that update.  An update that has nothing to dispatch does not release
      the lock. */
  lemma FiredDuring(before: seq<Op>, during: seq<AddRequest>, d: nat)
    requires LegalRun(before) && AllLegal(during)
    ensures var tick := Updates(before) + 1;
            var own := if DueEvents(AllAdds(before), tick) == [] then [] else WithDelay(during, d - tick);
            DueEvents(AllAdds(before + [Update(during)]), d) == DueEvents(AllAdds(before), d) + own
  {
    NextAdds(before, Update(during), d);
    EntriesDue(Updates(before) + 1, during, d);
  }

  /** And whatever a run adds later comes behind it. */
  lemma LaterBehind(before: seq<Op>, after: seq<Op>, d: nat)
    requires LegalRun(before + after)
    ensures DueEvents(AllAdds(before), d) <= DueEvents(AllAdds(before + after), d)
  {
    AddsGrow(before + after, |before|, d);
    assert (before + after)[..|before|] == before;
  }

  lemma {:induction false} AddsGrow(ops: seq<Op>, k: nat, d: nat)
    requires LegalRun(ops) && k <= |ops|
    ensures DueEvents(AllAdds(ops[..k]), d) <= DueEvents(AllAdds(ops), d)
    decreases |ops|
  {
    if k == |ops| {
      assert ops[..k] == ops;
    } else {
      var before, last := ops[..|ops| - 1], ops[|ops| - 1];
      LegalPrefix(ops, |ops| - 1);
      assert before[..k] == ops[..k] && ops == before + [last];
      AddsGrow(before, k, d);
      NextAdds(before, last, d);
    }
  }

  lemma LegalPrefix(ops: seq<Op>, k: nat)
    requires LegalRun(ops) && k < |ops|
    ensures LegalRun(ops[..k]) && LegalOp(ops[k])
  {
    assert ops[k] in ops;
  }

  lemma LoggedAdd(ops: seq<Op>, r: AddRequest, log: seq<seq<Event>>, p: seq<Entry>)
    requires LegalRun(ops) && Legal(r) && Logged(ops, log, p)
    ensures Logged(ops + [Add(r)], log, p + [Entry(|log| + r.delay, r.event)])
  {
    assert (ops + [Add(r)])[..|ops|] == ops;
    var added := [Entry(|log| + r.delay, r.event)];
    forall d: nat
      ensures DueEvents(AllAdds(ops + [Add(r)]), d) == DueEvents(AllAdds(ops), d) + DueEvents(added, d)
      ensures d <= |log| ==> DueEvents(added, d) == []
    {
      NextAdds(ops, Add(r), d);
    }
    forall d: nat ensures DueEvents(p + added, d) == DueEvents(p, d) + DueEvents(added, d) {
      DueEventsAppend(p, added, d);
    }
  }

  lemma LoggedUpdate(ops: seq<Op>, during: seq<AddRequest>, log: seq<seq<Event>>, p: seq<Entry>)
    requires LegalRun(ops) && AllLegal(during) && Logged(ops, log, p)
    ensures var tick := |log| + 1;
            Logged(ops + [Update(during)], log + [DueEvents(p, tick)], NotDue(p, tick) + WindowAdds(p, tick, during))
  {
    var op, tick := Update(during), |log| + 1;
    assert (ops + [op])[..|ops|] == ops;
    forall d: nat | 1 <= d <= tick
      ensures (log + [DueEvents(p, tick)])[d - 1] == DueEvents(AllAdds(ops + [op]), d)
    {
      UpdateLogs(ops, during, p, d);
    }
    forall d: nat | d > tick
      ensures DueEvents(NotDue(p, tick) + WindowAdds(p, tick, during), d) == DueEvents(AllAdds(ops + [op]), d)
    {
      UpdateKeeps(ops, during, p, d);
    }
  }

  lemma UpdateLogs(ops: seq<Op>, during: seq<AddRequest>, p: seq<Entry>, d: nat)
    requires LegalRun(ops) && AllLegal(during) && d <= Updates(ops) + 1
    requires DueEvents(p, Updates(ops) + 1) == DueEvents(AllAdds(ops), Updates(ops) + 1)
    ensures DueEvents(AllAdds(ops + [Update(during)]), d) == DueEvents(AllAdds(ops), d)
  {
    var added := DueEvents(WindowAdds(p, Updates(ops) + 1, during), d);
    assert added == [] by {
      WindowAddsLater(p, Updates(ops) + 1, during, d);
    }
    assert DueEvents(AllAdds(ops + [Update(during)]), d) == DueEvents(AllAdds(ops), d) + added by {
      UpdateAdds(ops, during, p, d);
    }
  }

  lemma UpdateKeeps(ops: seq<Op>, during: seq<AddRequest>, p: seq<Entry>, d: nat)
    requires LegalRun(ops) && AllLegal(during) && d > Updates(ops) + 1
    requires DueEvents(p, Updates(ops) + 1) == DueEvents(AllAdds(ops), Updates(ops) + 1)
    requires DueEvents(p, d) == DueEvents(AllAdds(ops), d)
    ensures var tick := Updates(ops) + 1;
            DueEvents(NotDue(p, tick) + WindowAdds(p, tick, during), d) == DueEvents(AllAdds(ops + [Update(during)]), d)
  {
    var tick := Updates(ops) + 1;
    UpdateAdds(ops, during, p, d);
    DueEventsAppend(NotDue(p, tick), WindowAdds(p, tick, during), d);
    DueEventsNotDue(p, tick, d);
  }

  /** What an update adds to what is due at tick d: its own requests, wherever they are
      placed in the list. */
  lemma UpdateAdds(ops: seq<Op>, during: seq<AddRequest>, p: seq<Entry>, d: nat)
    requires LegalRun(ops) && AllLegal(during)
    requires DueEvents(p, Updates(ops) + 1) == DueEvents(AllAdds(ops), Updates(ops) + 1)
    ensures DueEvents(AllAdds(ops + [Update(during)]), d) ==
            DueEvents(AllAdds(ops), d) + DueEvents(WindowAdds(p, Updates(ops) + 1, during), d)
  {
    NextAdds(ops, Update(during), d);
    assert WindowAdds(p, Updates(ops) + 1, during) == NewAdds(Update(during), AllAdds(ops), Updates(ops));
  }

  lemma WindowAddsLater(p: seq<Entry>, tick: nat, during: seq<AddRequest>, d: nat)
    requires AllLegal(during) && d <= tick
    ensures DueEvents(WindowAdds(p, tick, during), d) == []
  {
    EntriesIn(tick, during);
    NothingDue(WindowAdds(p, tick, during), d);
  }
}

module TimerWheel {
  import opened Prelude
  import opened TimerList

  const WORD := 0x1_0000_0000
  const NEAR := 0x100
  const BLOCK1 := 0x4000
  const BLOCK2 := 0x10_0000
  const BLOCK3 := 0x400_0000
  const LEVEL := 0x40

  type UInt32 = x: int | 0 <= x < 0x1_0000_0000

  datatype Node = Node(expire: UInt32, event: Event)

  /** A slot of the wheel: near[index] or t[level][index]. */
  datatype Loc = Near(index: nat) | Far(level: nat, index: nat)

  predicate IsLoc(loc: Loc) {
    match loc
    case Near(i) => i < NEAR
    case Far(l, i) => l < 4 && i < LEVEL
  }

  /** x | (mask - 1) for a power of two `mask`: all low bits set. */
  function OrMask(x: UInt32, mask: int): int
    requires 0 < mask
  {
    x / mask * mask + (mask - 1)
  }

  /** The size of the blocks that a node of far level `i` shares with the clock, and
      that its successor level shares. */
  function BlockSize(i: nat): (m: nat)
    requires i <= 3
  {
    if i == 0 then NEAR else if i == 1 then BLOCK1 else if i == 2 then BLOCK2 else BLOCK3
  }

  /** Where a node expiring at `expire` belongs when the clock shows `time`. */
  function LocOf(expire: UInt32, time: UInt32): (loc: Loc)
    ensures IsLoc(loc)
  {
    if expire / NEAR == time / NEAR then Near(expire % NEAR)
    else if expire / BLOCK1 == time / BLOCK1 then Far(0, expire / NEAR % LEVEL)
    else if expire / BLOCK2 == time / BLOCK2 then Far(1, expire / BLOCK1 % LEVEL)
    else if expire / BLOCK3 == time / BLOCK3 then Far(2, expire / BLOCK2 % LEVEL)
    else Far(3, expire / BLOCK3 % LEVEL)
  }

  /** The slot that a cascade empties when the clock reaches `ct`, if any. */
  function CascadeSource(ct: UInt32): (source: Option<Loc>)
    ensures source.Some? ==> IsLoc(source.value) && source.value.Far? && ct % NEAR == 0
    ensures source.None? ==> ct % NEAR != 0
  {
    if ct % NEAR != 0 then None
    else if ct == 0 then Some(Far(3, 0))
    else if ct / NEAR % LEVEL != 0 then Some(Far(0, ct / NEAR % LEVEL))
    else if ct / BLOCK1 % LEVEL != 0 then Some(Far(1, ct / BLOCK1 % LEVEL))
    else if ct / BLOCK2 % LEVEL != 0 then Some(Far(2, ct / BLOCK2 % LEVEL))
    else Some(Far(3, ct / BLOCK3 % LEVEL))
  }

  /** The slots finer than a far slot: where its nodes go when it is emptied. */
  predicate Finer(loc: Loc, source: Loc)
    requires source.Far?
  {
    loc.Near? || loc.level < source.level
  }

  predicate Pending(due: nat, tick: nat) {
    tick < due < tick + MAX_DELAY
  }

  // ---- arithmetic of one clock tick -------------------------------------------

  /** Advancing inside a block of size m keeps the block. */
  lemma SameBlock(c: nat, m: nat)
    requires m == NEAR || m == BLOCK1 || m == BLOCK2 || m == BLOCK3
    requires (c + 1) % m != 0
    ensures (c + 1) / m == c / m
  {
  }

  /** On the 32-bit clock a pending node lies less than half a turn ahead. */
  lemma AheadOfClock(due: nat, tick: nat)
    requires Pending(due, tick)
    ensures var e, c := due % WORD, tick % WORD; c < e || e + MAX_DELAY < c
  {
    var e, c := due % WORD, tick % WORD;
    if due / WORD != tick / WORD {
      assert due / WORD == tick / WORD + 1;
    }
  }

  /** A pending node shares no block of size m with a clock at the end of the block. */
  lemma BlockEnd(e: UInt32, c: UInt32, m: nat)
    requires m == NEAR || m == BLOCK1 || m == BLOCK2 || m == BLOCK3
    requires c < e || e + MAX_DELAY < c
    requires (c + 1) % m == 0
    ensures e / m != c / m
  {
    LastOfBlock(c, m);
    var q := c / m;
    assert c == m * q + (m - 1) && e == m * (e / m) + e % m;
  }

  lemma LastOfBlock(c: nat, m: nat)
    requires m > 0 && (c + 1) % m == 0
    ensures c % m == m - 1
  {
    var q := (c + 1) / m;
    assert c + 1 == q * m;
    assert (q - 1) * m == q * m - m;
    DivUnique(c, m, q - 1, m - 1);
  }

  /** The next clock value, and the blocks it starts. */
  lemma NextClock(tick: nat)
    ensures (tick + 1) % WORD == if tick % WORD == WORD - 1 then 0 else tick % WORD + 1
    ensures (tick + 1) % WORD % NEAR == (tick + 1) % NEAR
    ensures (tick + 1) % WORD % BLOCK1 == (tick + 1) % BLOCK1
    ensures (tick + 1) % WORD % BLOCK2 == (tick + 1) % BLOCK2
    ensures (tick + 1) % WORD % BLOCK3 == (tick + 1) % BLOCK3
  {
    ModOfMultiple(tick + 1, 0x100_0000, 0x100);
    ModOfMultiple(tick + 1, 0x4_0000, 0x4000);
    ModOfMultiple(tick + 1, 0x1000, 0x10_0000);
    ModOfMultiple(tick + 1, 0x40, 0x400_0000);
    ClockWraps(tick);
  }

  lemma ClockWraps(tick: nat)
    ensures (tick + 1) % WORD == if tick % WORD == WORD - 1 then 0 else tick % WORD + 1
  {
    var q, r := tick / 0x1_0000_0000, tick % 0x1_0000_0000;
    assert tick == q * 0x1_0000_0000 + r;
    if r + 1 < 0x1_0000_0000 {
      DivUnique(tick + 1, 0x1_0000_0000, q, r + 1);
    } else {
      DivUnique(tick + 1, 0x1_0000_0000, q + 1, 0);
    }
  }

  /** Blocks of the clock nest: sharing a small one means sharing the larger ones. */
  lemma Nested(e: UInt32, c: UInt32)
    ensures e / NEAR == c / NEAR ==> e / BLOCK1 == c / BLOCK1
    ensures e / BLOCK1 == c / BLOCK1 ==> e / BLOCK2 == c / BLOCK2
    ensures e / BLOCK2 == c / BLOCK2 ==> e / BLOCK3 == c / BLOCK3
  {
    assert e / BLOCK1 == e / NEAR / LEVEL && c / BLOCK1 == c / NEAR / LEVEL;
    assert e / BLOCK2 == e / BLOCK1 / LEVEL && c / BLOCK2 == c / BLOCK1 / LEVEL;
    assert e / BLOCK3 == e / BLOCK2 / LEVEL && c / BLOCK3 == c / BLOCK2 / LEVEL;
  }

  /** Whether a node shares the block of size m with the clock, before and after a tick:
      the answer changes only when the clock enters a new block, and then from no. */
  lemma SharesBlock(due: nat, tick: nat, m: nat)
    requires m == NEAR || m == BLOCK1 || m == BLOCK2 || m == BLOCK3
    requires Pending(due, tick)
    ensures var e, c, ct := due % WORD, tick % WORD, (tick + 1) % WORD;
            if ct % m != 0 then (e / m == ct / m <==> e / m == c / m)
            else e / m != c / m
  {
    NextClock(tick);
    if (tick + 1) % m == 0 {
      AheadOfClock(due, tick);
      assert (tick % WORD + 1) % m == 0;
      BlockEnd(due % WORD, tick % WORD, m);
    } else {
      SameBlock(tick % WORD, m);
    }
  }

  /** Inside one parent block, the index of a child block identifies it. */
  lemma BlockIndex(e: UInt32, c: UInt32)
    ensures e / BLOCK1 == c / BLOCK1 ==> (e / NEAR == c / NEAR <==> e / NEAR % LEVEL == c / NEAR % LEVEL)
    ensures e / BLOCK2 == c / BLOCK2 ==> (e / BLOCK1 == c / BLOCK1 <==> e / BLOCK1 % LEVEL == c / BLOCK1 % LEVEL)
    ensures e / BLOCK3 == c / BLOCK3 ==> (e / BLOCK2 == c / BLOCK2 <==> e / BLOCK2 % LEVEL == c / BLOCK2 % LEVEL)
    ensures e / BLOCK3 == c / BLOCK3 <==> e / BLOCK3 % LEVEL == c / BLOCK3 % LEVEL
  {
    assert e / BLOCK1 == e / NEAR / LEVEL && c / BLOCK1 == c / NEAR / LEVEL;
    assert e / BLOCK2 == e / BLOCK1 / LEVEL && c / BLOCK2 == c / BLOCK1 / LEVEL;
    assert e / BLOCK3 == e / BLOCK2 / LEVEL && c / BLOCK3 == c / BLOCK2 / LEVEL;
  }

  /** Which block boundaries the clock value of a cascade lies on. */
  lemma SourceBlocks(ct: UInt32)
    requires ct % NEAR == 0
    ensures ct / NEAR % LEVEL == 0 <==> ct % BLOCK1 == 0
    ensures ct % BLOCK1 == 0 ==> (ct / BLOCK1 % LEVEL == 0 <==> ct % BLOCK2 == 0)
    ensures ct % BLOCK2 == 0 ==> (ct / BLOCK2 % LEVEL == 0 <==> ct % BLOCK3 == 0)
    ensures ct % BLOCK3 == 0 ==> (ct / BLOCK3 % LEVEL == 0 <==> ct == 0)
    ensures ct % BLOCK1 != 0 ==> ct % BLOCK2 != 0
    ensures ct % BLOCK2 != 0 ==> ct % BLOCK3 != 0
    ensures ct % BLOCK3 != 0 ==> ct != 0
  {
    WholeBlocks(ct, NEAR, LEVEL);
    if ct % BLOCK1 == 0 {
      WholeBlocks(ct, BLOCK1, LEVEL);
    }
    if ct % BLOCK2 == 0 {
      WholeBlocks(ct, BLOCK2, LEVEL);
    }
    ModOfMultiple(ct, LEVEL, BLOCK1);
    ModOfMultiple(ct, LEVEL, BLOCK2);
  }

  /** Inside a near block the clock moves no node. */
  lemma TickInsideNear(due: nat, tick: nat)
    requires Pending(due, tick)
    requires (tick + 1) % WORD % NEAR != 0
    ensures LocOf(due % WORD, (tick + 1) % WORD) == LocOf(due % WORD, tick % WORD)
  {
    NextClock(tick);
    SourceMultiples((tick + 1) % WORD);
    SharesBlock(due, tick, NEAR);
    SharesBlock(due, tick, BLOCK1);
    SharesBlock(due, tick, BLOCK2);
    SharesBlock(due, tick, BLOCK3);
  }

  lemma SourceMultiples(ct: UInt32)
    ensures ct % NEAR != 0 ==> ct % BLOCK1 != 0
    ensures ct % BLOCK1 != 0 ==> ct % BLOCK2 != 0
    ensures ct % BLOCK2 != 0 ==> ct % BLOCK3 != 0
  {
    ModOfMultiple(ct, LEVEL, NEAR);
    ModOfMultiple(ct, LEVEL, BLOCK1);
    ModOfMultiple(ct, LEVEL, BLOCK2);
  }

  /** At a block boundary the nodes of the source slot, and no others, come to share a
      finer block with the clock; no pending node shared a finer block before. */
  lemma TickCascades(due: nat, tick: nat)
    requires Pending(due, tick)
    requires CascadeSource((tick + 1) % WORD).Some?
    ensures var e, c, ct := due % WORD, tick % WORD, (tick + 1) % WORD;
            var source := CascadeSource(ct).value;
            if LocOf(e, c) == source then Finer(LocOf(e, ct), source)
            else LocOf(e, ct) == LocOf(e, c) && !Finer(LocOf(e, c), source)
  {
    var e, c, ct := due % WORD, tick % WORD, (tick + 1) % WORD;
    NextClock(tick);
    SharesBlock(due, tick, NEAR);
    SharesBlock(due, tick, BLOCK1);
    SharesBlock(due, tick, BLOCK2);
    SharesBlock(due, tick, BLOCK3);
    Nested(e, c);
    Nested(e, ct);
    BlockIndex(e, ct);
    SourceBlocks(ct);
    CascadeCases(e, c, ct);
  }

  /** The case analysis of a cascade, on blocks and indices alone. */
  lemma CascadeCases(e: UInt32, c: UInt32, ct: UInt32)
    requires ct % NEAR == 0
    requires e / NEAR != c / NEAR
    requires ct % BLOCK1 != 0 ==> (e / BLOCK1 == ct / BLOCK1 <==> e / BLOCK1 == c / BLOCK1)
    requires ct % BLOCK1 == 0 ==> e / BLOCK1 != c / BLOCK1
    requires ct % BLOCK2 != 0 ==> (e / BLOCK2 == ct / BLOCK2 <==> e / BLOCK2 == c / BLOCK2)
    requires ct % BLOCK2 == 0 ==> e / BLOCK2 != c / BLOCK2
    requires ct % BLOCK3 != 0 ==> (e / BLOCK3 == ct / BLOCK3 <==> e / BLOCK3 == c / BLOCK3)
    requires ct % BLOCK3 == 0 ==> e / BLOCK3 != c / BLOCK3
    ensures var source := CascadeSource(ct).value;
            if LocOf(e, c) == source then Finer(LocOf(e, ct), source)
            else LocOf(e, ct) == LocOf(e, c) && !Finer(LocOf(e, c), source)
  {
    Nested(e, c);
    Nested(e, ct);
    BlockIndex(e, ct);
    SourceBlocks(ct);
    SourceMultiples(ct);
    if ct % BLOCK1 != 0 {
    } else if ct % BLOCK2 != 0 {
    } else if ct % BLOCK3 != 0 {
    } else {
    }
  }

  /** What one tick of the clock does to the place of a pending node: nothing, unless
      the node lies in the slot that is cascaded; then it moves to a finer slot, and no
      pending node was in any finer slot before. */
  lemma TickMoves(due: nat, tick: nat)
    requires Pending(due, tick)
    ensures var e, c, ct := due % WORD, tick % WORD, (tick + 1) % WORD;
            match CascadeSource(ct)
            case None => LocOf(e, ct) == LocOf(e, c)
            case Some(source) =>
              if LocOf(e, c) == source then Finer(LocOf(e, ct), source)
              else LocOf(e, ct) == LocOf(e, c) && !Finer(LocOf(e, c), source)
  {
    if CascadeSource((tick + 1) % WORD).None? {
      TickInsideNear(due, tick);
    } else {
      TickCascades(due, tick);
    }
  }

  // ---- the contents of a slot, read off the list of pending timers -------------

  /** A placement says which slot a node with a given expire field belongs to. */
  type Placement = UInt32 -> Loc

  function At(time: UInt32): Placement {
    (expire: UInt32) => LocOf(expire, time)
  }

  function NodeOf(e: Entry): Node {
    Node(e.due % WORD, e.event)
  }

  function NodesOf(p: seq<Entry>): (ns: seq<Node>)
    ensures |ns| == |p| && forall i | 0 <= i < |p| :: ns[i] == NodeOf(p[i])
  {
    seq(|p|, i requires 0 <= i < |p| => NodeOf(p[i]))
  }

  /** The nodes of a list that a placement puts in slot `loc`, in list order. */
  function Pick(nodes: seq<Node>, at: Placement, loc: Loc): seq<Node> {
    if nodes == [] then []
    else
      var last := nodes[|nodes| - 1];
      var front := Pick(nodes[..|nodes| - 1], at, loc);
      if at(last.expire) == loc then front + [last] else front
  }

  lemma {:induction false} PickAppend(ns: seq<Node>, n: Node, at: Placement, loc: Loc)
    ensures Pick(ns + [n], at, loc) == Pick(ns, at, loc) + if at(n.expire) == loc then [n] else []
  {
    assert (ns + [n])[..|ns|] == ns;
  }

  lemma {:induction false} PickNone(ns: seq<Node>, at: Placement, loc: Loc)
    requires forall n | n in ns :: at(n.expire) != loc
    ensures Pick(ns, at, loc) == []
  {
    if ns != [] {
      PickNone(ns[..|ns| - 1], at, loc);
    }
  }

  lemma {:induction false} PickSame(ns: seq<Node>, at: Placement, at': Placement, loc: Loc)
    requires forall n | n in ns :: at(n.expire) == loc <==> at'(n.expire) == loc
    ensures Pick(ns, at, loc) == Pick(ns, at', loc)
  {
    if ns != [] {
      PickSame(ns[..|ns| - 1], at, at', loc);
    }
  }

  lemma {:induction false} PickIn(ns: seq<Node>, at: Placement, loc: Loc)
    ensures forall n | n in Pick(ns, at, loc) :: n in ns && at(n.expire) == loc
  {
    if ns != [] {
      PickIn(ns[..|ns| - 1], at, loc);
    }
  }

  /** Re-placing the nodes of one slot, one by one, keeps them in list order. */
  lemma {:induction false} PickOfPick(ns: seq<Node>, at: Placement, source: Loc, at': Placement, loc: Loc)
    requires forall n | n in ns :: at'(n.expire) == loc ==> at(n.expire) == source
    ensures Pick(Pick(ns, at, source), at', loc) == Pick(ns, at', loc)
  {
    if ns != [] {
      var front, last := ns[..|ns| - 1], ns[|ns| - 1];
      PickOfPick(front, at, source, at', loc);
      PickAppend(Pick(front, at, source), last, at', loc);
    }
  }

  ghost predicate AllPending(p: seq<Entry>, tick: nat) {
    forall e | e in p :: Pending(e.due, tick)
  }

  /** How a placement changes when slot `source` is cascaded: only its nodes move, all
      of them to finer slots, and no node was in a finer slot before. */
  ghost predicate Cascades(ns: seq<Node>, at: Placement, at': Placement, source: Loc)
    requires source.Far?
  {
    forall n | n in ns ::
      if at(n.expire) == source then Finer(at'(n.expire), source)
      else at'(n.expire) == at(n.expire) && !Finer(at(n.expire), source)
  }

  lemma TickCascadesAll(p: seq<Entry>, tick: nat)
    requires AllPending(p, tick)
    ensures match CascadeSource((tick + 1) % WORD)
            case None => forall n | n in NodesOf(p) :: At((tick + 1) % WORD)(n.expire) == At(tick % WORD)(n.expire)
            case Some(source) => Cascades(NodesOf(p), At(tick % WORD), At((tick + 1) % WORD), source)
  {
    forall e | e in p {
      TickMoves(e.due, tick);
    }
  }

  /** The slots after the nodes of `source` are re-added are those of the new placement. */
  lemma AfterCascade(ns: seq<Node>, at: Placement, at': Placement, source: Loc, loc: Loc)
    requires source.Far? && Cascades(ns, at, at', source)
    ensures (if loc == source then [] else Pick(ns, at, loc)) + Pick(Pick(ns, at, source), at', loc)
         == Pick(ns, at', loc)
  {
    if loc == source {
      PickOfPick(ns, at, source, at', loc);
    } else if Finer(loc, source) {
      PickOfPick(ns, at, source, at', loc);
      PickNone(ns, at, loc);
    } else {
      PickSame(ns, at, at', loc);
      PickIn(ns, at, source);
      PickNone(Pick(ns, at, source), at', loc);
    }
  }

  function EventsOf(nodes: seq<Node>): (events: seq<Event>)
    ensures |events| == |nodes|
  {
    if nodes == [] then [] else EventsOf(nodes[..|nodes| - 1]) + [nodes[|nodes| - 1].event]
  }

  lemma EventsAppend(nodes: seq<Node>, n: Node)
    ensures EventsOf(nodes + [n]) == EventsOf(nodes) + [n.event]
  {
    assert (nodes + [n])[..|nodes|] == nodes;
  }

  /** Splitting a list by which nodes lie under the clock hand splits it by what is due. */
  ghost predicate HandShowsDue(p: seq<Entry>, tick: nat, at: Placement, hand: Loc) {
    forall e | e in p :: at(NodeOf(e).expire) == hand <==> e.due == tick
  }

  lemma {:induction false} PickDue(p: seq<Entry>, tick: nat, at: Placement, hand: Loc)
    requires HandShowsDue(p, tick, at, hand)
    ensures EventsOf(Pick(NodesOf(p), at, hand)) == DueEvents(p, tick)
  {
    if p != [] {
      var front, last := p[..|p| - 1], p[|p| - 1];
      PickDue(front, tick, at, hand);
      assert NodesOf(p) == NodesOf(front) + [NodeOf(last)];
      PickAppend(NodesOf(front), NodeOf(last), at, hand);
      EventsAppend(Pick(NodesOf(front), at, hand), NodeOf(last));
    }
  }

  lemma {:induction false} PickNotDue(p: seq<Entry>, tick: nat, at: Placement, hand: Loc, loc: Loc)
    requires HandShowsDue(p, tick, at, hand)
    ensures Pick(NodesOf(NotDue(p, tick)), at, loc) == if loc == hand then [] else Pick(NodesOf(p), at, loc)
  {
    if p != [] {
      var front, last := p[..|p| - 1], p[|p| - 1];
      PickNotDue(front, tick, at, hand, loc);
      assert NodesOf(p) == NodesOf(front) + [NodeOf(last)];
      PickAppend(NodesOf(front), NodeOf(last), at, loc);
      if last.due != tick {
        assert NodesOf(NotDue(p, tick)) == NodesOf(NotDue(front, tick)) + [NodeOf(last)];
        PickAppend(NodesOf(NotDue(front, tick)), NodeOf(last), at, loc);
      }
    }
  }

  /** The near slot under the clock hand shows exactly what is due now. */
  lemma ClockHand(p: seq<Entry>, tick: nat)
    requires forall e | e in p :: tick <= e.due < tick + MAX_DELAY
    ensures HandShowsDue(p, tick, At(tick % WORD), Near(tick % WORD % NEAR))
  {
    forall e | e in p ensures At(tick % WORD)(NodeOf(e).expire) == Near(tick % WORD % NEAR) <==> e.due == tick {
      HandLoc(e.due % WORD, tick % WORD);
      SameClock(e.due, tick);
    }
  }

  lemma SameClock(due: nat, tick: nat)
    requires tick <= due < tick + MAX_DELAY
    ensures due % WORD == tick % WORD <==> due == tick
  {
    var q, r := tick / 0x1_0000_0000, tick % 0x1_0000_0000;
    assert tick == q * 0x1_0000_0000 + r;
    var s := r + (due - tick);
    if s < 0x1_0000_0000 {
      DivUnique(due, 0x1_0000_0000, q, s);
    } else {
      DivUnique(due, 0x1_0000_0000, q + 1, s - 0x1_0000_0000);
    }
  }

  lemma HandLoc(expire: UInt32, time: UInt32)
    ensures LocOf(expire, time) == Near(time % NEAR) <==> expire == time
  {
  }

  lemma EmptyHand(p: seq<Entry>, tick: nat)
    requires AllPending(p, tick)
    ensures Pick(NodesOf(p), At(tick % WORD), Near(tick % WORD % NEAR)) == []
  {
    ClockHand(p, tick);
    PickDue(p, tick, At(tick % WORD), Near(tick % WORD % NEAR));
    NothingDue(p, tick);
  }

  lemma {:induction false} NothingDueHere(p: seq<Entry>, tick: nat)
    requires DueEvents(p, tick) == []
    ensures NotDue(p, tick) == p && forall e | e in p :: e.due != tick
  {
    if p != [] {
      NothingDueHere(p[..|p| - 1], tick);
      assert p == p[..|p| - 1] + [p[|p| - 1]];
    }
  }

  // ---- the wheel ----------------------------------------------------------------

  class Wheel {
    var near: array<seq<Node>>
    var t: array2<seq<Node>>
    var time: UInt32

    /** The clock without wrap-around, and the list that the wheel stands for. */
    ghost var tick: nat
    ghost var pending: seq<Entry>

    ghost predicate Shape()
      reads this
    {
      near.Length == NEAR && t.Length0 == 4 && t.Length1 == LEVEL && time == tick % WORD
    }

    function Slot(loc: Loc): seq<Node>
      requires near.Length == NEAR && t.Length0 == 4 && t.Length1 == LEVEL && IsLoc(loc)
      reads this, near, t
    {
      match loc
      case Near(i) => near[i]
      case Far(l, i) => t[l, i]
    }

    /** Every slot holds exactly the nodes whose expire bits select it, in order. */
    ghost predicate Holds(p: seq<Entry>, at: Placement)
      requires Shape()
      reads this, near, t
    {
      forall loc | IsLoc(loc) :: Slot(loc) == Pick(NodesOf(p), at, loc)
    }

    /** Between two updates nothing pending is due. */
    ghost predicate Valid()
      reads this, near, t
    {
      Shape() && AllPending(pending, tick) && Holds(pending, At(time))
    }

    constructor ()
      ensures Valid() && fresh(near) && fresh(t)
      ensures pending == [] && tick == 0
    {
      near := new seq<Node>[NEAR](i => []);
      t := new seq<Node>[4, LEVEL]((i, j) => []);
      time, tick, pending := 0, 0, [];
    }

    method Link(loc: Loc, node: Node)
      requires Shape() && IsLoc(loc)
      modifies near, t
      ensures Shape()
      ensures forall l | IsLoc(l) :: Slot(l) == old(Slot(l)) + if l == loc then [node] else []
    {
      match loc
      case Near(i) => near[i] := near[i] + [node];
      case Far(l, i) => t[l, i] := t[l, i] + [node];
    }

    method LinkClear(loc: Loc) returns (list: seq<Node>)
      requires Shape() && IsLoc(loc)
      modifies near, t
      ensures Shape() && list == old(Slot(loc))
      ensures forall l | IsLoc(l) :: Slot(l) == if l == loc then [] else old(Slot(l))
    {
      list := Slot(loc);
      match loc
      case Near(i) => near[i] := [];
      case Far(l, i) => t[l, i] := [];
    }

    method AddNode(node: Node)
      requires Shape()
      modifies near, t
      ensures Shape()
      ensures forall l | IsLoc(l) :: Slot(l) == old(Slot(l)) + if l == At(time)(node.expire) then [node] else []
    {
      var expire, current := node.expire, time;
      if OrMask(expire, NEAR) == OrMask(current, NEAR) {
        Link(Near(expire % NEAR), node);
      } else {
        var i := FarLevel(expire, current);
        Link(Far(i, expire / BlockSize(i) % LEVEL), node);
      }
    }

    /** The loop of add_node: the lowest far level whose parent block both times share. */
    method FarLevel(expire: UInt32, current: UInt32) returns (i: nat)
      requires expire / NEAR != current / NEAR
      ensures i <= 3 && LocOf(expire, current) == Far(i, expire / BlockSize(i) % LEVEL)
    {
      i := 0;
      var mask := NEAR * LEVEL;
      while i < 3
        invariant 0 <= i <= 3
        invariant i < 3 ==> mask == BlockSize(i + 1)
        invariant i >= 1 ==> expire / BLOCK1 != current / BLOCK1
        invariant i >= 2 ==> expire / BLOCK2 != current / BLOCK2
        invariant i >= 3 ==> expire / BLOCK3 != current / BLOCK3
      {
        if OrMask(expire, mask) == OrMask(current, mask) {
          break;
        }
        mask := mask * LEVEL % WORD;
        i := i + 1;
      }
    }

    /** timer_add, with the positive delay that skynet_timeout passes on. */
    method TimerAdd(r: AddRequest)
      requires Valid() && Legal(r)
      modifies this`pending, near, t
      ensures Valid()
      ensures pending == old(pending) + [Entry(tick + r.delay, r.event)]
    {
      var node := Node((r.delay + time) % WORD, r.event);
      AddNode(node);
      ghost var e := Entry(tick + r.delay, r.event);
      assert node == NodeOf(e);
      assert NodesOf(pending + [e]) == NodesOf(pending) + [node];
      forall loc | IsLoc(loc) ensures Slot(loc) == Pick(NodesOf(pending + [e]), At(time), loc) {
        PickAppend(NodesOf(pending), node, At(time), loc);
      }
      pending := pending + [e];
    }

    method MoveList(level: nat, idx: nat)
      requires Shape() && level < 4 && idx < LEVEL
      modifies near, t
      ensures Shape()
      ensures forall l | IsLoc(l) ::
                Slot(l) == (if l == Far(level, idx) then [] else old(Slot(l)))
                           + Pick(old(Slot(Far(level, idx))), At(time), l)
    {
      var current := LinkClear(Far(level, idx));
      AddNodes(current);
    }

    /** The loop of move_list over the detached list. */
    method AddNodes(list: seq<Node>)
      requires Shape()
      modifies near, t
      ensures Shape()
      ensures forall l | IsLoc(l) :: Slot(l) == old(Slot(l)) + Pick(list, At(time), l)
    {
      var current := list;
      ghost var moved := [];
      while current != []
        invariant Shape() && list == moved + current
        invariant forall l | IsLoc(l) :: Slot(l) == old(Slot(l)) + Pick(moved, At(time), l)
      {
        var node := current[0];
        current := current[1..];
        AddNode(node);
        forall l | IsLoc(l) ensures Slot(l) == old(Slot(l)) + Pick(moved + [node], At(time), l) {
          PickAppend(moved, node, At(time), l);
        }
        moved := moved + [node];
      }
      assert list == moved;
    }

    /** timer_shift: advance the clock and cascade at most one slot. */
    method TimerShift()
      requires Valid()
      modifies this`time, this`tick, near, t
      ensures Shape() && tick == old(tick) + 1 && Holds(pending, At(time))
    {
      tick := tick + 1;
      time := (time + 1) % WORD;
      NextClock(old(tick));
      CascadeFor(time);
      TickCascadesAll(pending, old(tick));
      ghost var ns, at, source := NodesOf(pending), At(old(time)), CascadeSource(time);
      forall loc | IsLoc(loc) ensures Slot(loc) == Pick(ns, At(time), loc) {
        if source.None? {
          PickSame(ns, at, At(time), loc);
        } else {
          AfterCascade(ns, at, At(time), source.value, loc);
        }
      }
    }

    /** The body of timer_shift: find the slot to cascade for the clock value `ct`. */
    method CascadeFor(ct: UInt32)
      requires Shape() && ct == time
      modifies near, t
      ensures Shape()
      ensures forall l | IsLoc(l) ::
                match CascadeSource(ct)
                case None => Slot(l) == old(Slot(l))
                case Some(source) =>
                  Slot(l) == (if l == source then [] else old(Slot(l))) + Pick(old(Slot(source)), At(time), l)
    {
      if ct == 0 {
        MoveList(3, 0);
        return;
      }
      var mask := NEAR;
      var high := ct / NEAR;
      var i := 0;
      while ct % mask == 0
        invariant 0 <= i <= 3 && mask == BlockSize(i) && high == ct / BlockSize(i)
        invariant i > 0 ==> ct % NEAR == 0 && ct % mask == 0
        invariant forall j: nat | j < i :: ct / BlockSize(j) % LEVEL == 0
        invariant Shape() && unchanged(near) && unchanged(t)
        decreases 4 - i
      {
        SourceBlocks(ct);
        var idx := high % LEVEL;
        if idx != 0 {
          MoveList(i, idx);
          return;
        }
        mask := mask * LEVEL;
        high := high / LEVEL;
        i := i + 1;
      }
    }

    /** timer_execute: empty the slot under the clock hand and dispatch it.  The lock is
        released while a list is dispatched; `during` is what other threads add then. */
    method TimerExecute(during: seq<AddRequest>) returns (fired: seq<Event>)
      requires Shape() && Holds(pending, At(time)) && AllLegal(during)
      requires forall e | e in pending :: tick <= e.due < tick + MAX_DELAY
      modifies this`pending, near, t
      ensures Valid()
      ensures fired == DueEvents(old(pending), tick)
      ensures pending == NotDue(old(pending), tick) + WindowAdds(old(pending), tick, during)
    {
      var idx := time % NEAR;
      var hand := Near(idx);
      fired := [];
      ClockHand(pending, tick);
      PickDue(pending, tick, At(time), hand);
      ghost var p0, done := pending, false;
      while near[idx] != []
        invariant Shape() && Holds(pending, At(time))
        invariant !done ==> pending == p0 && fired == []
        invariant done ==> AllPending(pending, tick) && near[idx] == []
        invariant done ==> fired == DueEvents(p0, tick) != []
        invariant done ==> pending == NotDue(p0, tick) + Entries(tick, during)
        decreases if done then 0 else 1
      {
        var current := LinkClear(hand);
        forall loc | IsLoc(loc) ensures Slot(loc) == Pick(NodesOf(NotDue(p0, tick)), At(time), loc) {
          PickNotDue(p0, tick, At(time), hand, loc);
        }
        NotDueIn(p0, tick);
        pending := NotDue(p0, tick);
        fired := EventsOf(current);
        AddAll(during);
        EmptyHand(pending, tick);
        done := true;
      }
      if !done {
        NothingDueHere(p0, tick);
      }
    }

    method AddAll(rs: seq<AddRequest>)
      requires Valid() && AllLegal(rs)
      modifies this`pending, near, t
      ensures Valid()
      ensures pending == old(pending) + Entries(tick, rs)
    {
      var k := 0;
      while k < |rs|
        invariant k <= |rs| && Valid()
        invariant pending == old(pending) + Entries(tick, rs[..k])
      {
        assert rs[k] in rs;
        TimerAdd(rs[k]);
        assert rs[..k + 1][..k] == rs[..k];
        k := k + 1;
      }
      assert rs[..k] == rs;
    }

    /** timer_update: one tick of the clock. */
    method TimerUpdate(during: seq<AddRequest>) returns (fired: seq<Event>)
      requires Valid() && AllLegal(during)
      modifies this, near, t
      ensures Valid() && near == old(near) && t == old(t)
      ensures tick == old(tick) + 1
      ensures fired == DueEvents(old(pending), tick)
      ensures pending == NotDue(old(pending), tick) + WindowAdds(old(pending), tick, during)
    {
      NothingDue(pending, tick);
      var early := TimerExecute(during);
      assert early == [] && pending == old(pending);
      TimerShift();
      fired := TimerExecute(during);
    }

    /** Any run of the wheel from its creation logs, for the update that reaches tick d,
        exactly the events added with that due tick, in the order of their addition. */
    method Run(ops: seq<Op>) returns (log: seq<seq<Event>>)
      requires Valid() && tick == 0 && pending == [] && LegalRun(ops)
      modifies this, near, t
      ensures |log| == Updates(ops)
      ensures forall d: nat | 1 <= d <= |log| :: log[d - 1] == DueEvents(AllAdds(ops), d)
    {
      log := [];
      var k := 0;
      while k < |ops|
        invariant k <= |ops| && Valid() && near == old(near) && t == old(t)
        invariant tick == |log| && Logged(ops[..k], log, pending)
      {
        assert ops[..k + 1] == ops[..k] + [ops[k]];
        LegalPrefix(ops, k);
        log := RunOp(ops[k], log, ops[..k]);
        k := k + 1;
      }
      assert ops[..k] == ops;
    }

    method RunOp(op: Op, log: seq<seq<Event>>, ghost before: seq<Op>) returns (log': seq<seq<Event>>)
      requires Valid() && LegalRun(before) && LegalOp(op)
      requires tick == |log| && Logged(before, log, pending)
      modifies this, near, t
      ensures Valid() && near == old(near) && t == old(t)
      ensures tick == |log'| && Logged(before + [op], log', pending)
    {
      match op {
        case Add(r) =>
          LoggedAdd(before, r, log, pending);
          TimerAdd(r);
          log' := log;
        case Update(during) =>
          LoggedUpdate(before, during, log, pending);
          var fired := TimerUpdate(during);
          log' := log + [fired];
      }
    }
  }
}
