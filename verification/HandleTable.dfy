/** The handle table of skynet_handle.c: a slot array that doubles.  Every method is what
    the source does while it holds the table's lock. */
module HandleTable {
  import opened Prelude

  type ContextId = nat

  const DefaultSlotSize := 4
  const HandleMask := 0xFF_FFFF

  /** A context and the handle it was given. */
  datatype Context = Context(id: ContextId, handle: nat)

  // ---- powers of two ------------------------------------------------------------------------

  lemma {:induction false} Pow2Plus(a: nat, b: nat)
    ensures Pow2(a + b) == Pow2(a) * Pow2(b)
  {
    if a > 0 {
      Pow2Plus(a - 1, b);
      MulAssoc(2, Pow2(a - 1), Pow2(b));
    }
  }

  lemma Pow2Of24()
    ensures Pow2(24) == 0x100_0000
  {
    assert Pow2(6) == 64;
    Pow2Plus(6, 6);
    Pow2Plus(12, 12);
  }

  /** The number of slots divides the number of handles. */
  lemma Divides(e: nat)
    requires e <= 24
    ensures Pow2(e) <= 0x100_0000 && 0x100_0000 % Pow2(e) == 0
  {
    Pow2Plus(e, 24 - e);
    Pow2Of24();
    Times(0x100_0000, Pow2(e), Pow2(24 - e));
  }

  lemma Times(x: nat, a: nat, b: nat)
    requires x == a * b && a > 0 && b > 0
    ensures a <= x && x % a == 0
  {
    MulAtLeast(b, a);
    DivUnique(x, a, b, 0);
  }

  // ---- residues -------------------------------------------------------------------------------

  /** Handles that fall together in a table of double size fall together in the table. */
  lemma HalfResidue(h: nat, n: nat)
    requires n > 0
    ensures (h % (2 * n)) % n == h % n
  {
    ModOfMultiple(h, 2, n);
  }

  lemma AddResidue(a: nat, k: nat, n: nat, r: nat)
    requires n > 0 && r < n && k == (r - a) % n
    ensures (a + k) % n == r
  {
    var q := (r - a) / n;
    assert r - a == n * q + k;
    assert n * (-q) == -(n * q);
    DivUnique(a + k, n, -q, r);
  }

  lemma FromTop(n: nat, w: nat, r: nat)
    requires n > 0 && 0x100_0000 % n == 0 && w < n && n - w < r < n && w <= 0x100_0000
    ensures (0x100_0000 - w + (r - (n - w))) % n == r
  {
    var q := 0x100_0000 / n;
    assert 0x100_0000 == n * q;
    assert n * (q - 1) == n * q - n;
    DivUnique(0x100_0000 - w + (r - (n - w)), n, q - 1, r);
  }

  // ---- the table --------------------------------------------------------------------------------

  class Handles {
    const harbor: nat
    var handleIndex: nat
    var slotSize: nat
    var slot: array<Option<Context>>
    ghost var Exp: nat
    ghost var Live: map<nat, ContextId>

    /** The slots hold exactly the live handles, each where its low bits say. */
    ghost predicate SlotsOk()
      reads this, slot
    {
      && slotSize == slot.Length == Pow2(Exp)
      && (forall i :: 0 <= i < slotSize ==> slot[i].Some? ==> InSlot(slot[i].value, i))
      && (forall h :: h in Live ==> slot[h % slotSize] == Some(Context(Live[h], h)))
    }

    ghost predicate InSlot(c: Context, i: nat)
      requires slotSize > 0
      reads this
    {
      && c.handle % slotSize == i
      && c.handle in Live && Live[c.handle] == c.id
    }

    ghost predicate Valid()
      reads this, slot
    {
      && SlotsOk() && 2 <= Exp <= 24
      && 1 <= handleIndex <= 0x100_0000
      && harbor % 0x100_0000 == 0
      && forall h :: h in Live ==> harbor < h <= harbor + HandleMask
    }

    /** skynet_handle_init */
    constructor (harbor: nat)
      ensures Valid() && Live == map[] && fresh(slot)
    {
      this.harbor := harbor % 256 * 0x100_0000;
      handleIndex, slotSize, Exp, Live := 1, DefaultSlotSize, 2, map[];
      slot := new Option<Context>[DefaultSlotSize](_ => None);
    }

    /** skynet_handle_grab, without the reference it takes. */
    method Grab(handle: nat) returns (r: Option<ContextId>)
      requires Valid()
      ensures r == if handle in Live then Some(Live[handle]) else None
    {
      var c := slot[handle % slotSize];
      r := None;
      if c.Some? && c.value.handle == handle {
        assert InSlot(c.value, handle % slotSize);
        r := Some(c.value.id);
      }
    }

    /** The slot half of skynet_handle_retire. */
    method Retire(handle: nat) returns (retired: bool)
      requires Valid()
      modifies this`Live, slot
      ensures Valid() && retired == (handle in old(Live)) && Live == old(Live) - {handle}
    {
      var hash := handle % slotSize;
      var c := slot[hash];
      if c.Some? && c.value.handle == handle {
        assert InSlot(c.value, hash);
        slot[hash] := None;
        Live := Live - {handle};
        retired := true;
      } else {
        retired := false;
      }
    }

    predicate Taken(h: nat)
      requires slotSize == slot.Length > 0
      reads this, slot
    {
      slot[h % slotSize].Some?
    }

    /** The search of skynet_handle_register: a free slot, unless every slot is taken but
        perhaps the one of the reserved handle 0. */
    method FreeHandle() returns (handle: Option<nat>)
      requires 0 < slotSize == slot.Length <= 0x100_0000 && 0x100_0000 % slotSize == 0 && 1 <= handleIndex <= 0x100_0000
      ensures handle.Some? ==> 1 <= handle.value <= HandleMask && !Taken(handle.value)
      ensures handle == None ==> forall r :: 1 <= r < slotSize ==> slot[r].Some?
    {
      var h := handleIndex;
      ghost var w: nat := 0x100_0000 - handleIndex;
      var i := 0;
      while i < slotSize
        invariant 0 <= i <= slotSize
        invariant i == slotSize || h == if i <= w then handleIndex + i else 1 + (i - w)
        invariant forall g :: handleIndex <= g < handleIndex + i && g <= HandleMask ==> Taken(g)
        invariant forall g :: 1 <= g < 1 + (i - w) && g <= HandleMask ==> Taken(g)
      {
        if h > HandleMask {
          h := 1;
        }
        if !Taken(h) {
          return Some(h);
        }
        i, h := i + 1, h + 1;
      }
      handle := None;
      AllTaken(handleIndex, w);
    }

    lemma AllTaken(start: nat, w: nat)
      requires 0 < slotSize == slot.Length <= 0x100_0000 && 0x100_0000 % slotSize == 0 && start == 0x100_0000 - w
      requires forall g :: start <= g < start + slotSize && g <= HandleMask ==> Taken(g)
      requires forall g :: 1 <= g < 1 + (slotSize - w) && g <= HandleMask ==> Taken(g)
      ensures forall r :: 1 <= r < slotSize ==> slot[r].Some?
    {
      forall r | 1 <= r < slotSize ensures slot[r].Some? {
        SomeTaken(start, w, r);
      }
    }

    /** Some handle that the search tried falls on slot r. */
    lemma SomeTaken(start: nat, w: nat, r: nat)
      requires 0 < slotSize == slot.Length <= 0x100_0000 && 0x100_0000 % slotSize == 0 && start == 0x100_0000 - w
      requires forall g :: start <= g < start + slotSize && g <= HandleMask ==> Taken(g)
      requires forall g :: 1 <= g < 1 + (slotSize - w) && g <= HandleMask ==> Taken(g)
      requires 1 <= r < slotSize
      ensures slot[r].Some?
    {
      if w >= slotSize {
        var k := (r - start) % slotSize;
        AddResidue(start, k, slotSize, r);
        assert Taken(start + k);
      } else if r <= slotSize - w {
        DivUnique(r, slotSize, 0, r);
        assert Taken(r);
      } else {
        FromTop(slotSize, w, r);
        assert Taken(start + (r - (slotSize - w)));
      }
    }

    /** The contexts of the first i slots are in the bigger table b. */
    ghost predicate Moved(b: seq<Option<Context>>, i: nat)
      requires slotSize > 0 && |b| == 2 * slotSize
      reads this
    {
      && (forall j :: 0 <= j < |b| ==> b[j].Some? ==> MovedTo(b[j].value, j, i))
      && (forall h :: h in Live && h % slotSize < i ==> b[h % (2 * slotSize)] == Some(Context(Live[h], h)))
    }

    ghost predicate MovedTo(c: Context, j: nat, i: nat)
      requires slotSize > 0
      reads this
    {
      && c.handle % (2 * slotSize) == j && c.handle % slotSize < i
      && c.handle in Live && Live[c.handle] == c.id
    }

    /** A context of slot i moves to a place that is still free. */
    lemma MoveOne(b: seq<Option<Context>>, i: nat)
      requires SlotsOk() && |b| == 2 * slotSize && i < slotSize && Moved(b, i) && slot[i].Some?
      ensures var hash := slot[i].value.handle % (2 * slotSize);
              b[hash] == None && Moved(b[hash := slot[i]], i + 1)
    {
      var c := slot[i].value;
      var hash := c.handle % (2 * slotSize);
      assert InSlot(c, i);
      HalfResidue(c.handle, slotSize);
      forall j | 0 <= j < |b| && b[j].Some? ensures j != hash {
        assert MovedTo(b[j].value, j, i);
        HalfResidue(b[j].value.handle, slotSize);
      }
      var b' := b[hash := slot[i]];
      forall j | 0 <= j < |b'| && b'[j].Some? ensures MovedTo(b'[j].value, j, i + 1) {
        if j != hash { assert MovedTo(b[j].value, j, i); }
      }
      forall h | h in Live && h % slotSize < i + 1 ensures b'[h % (2 * slotSize)] == Some(Context(Live[h], h)) {
        if h % slotSize == i {
          assert slot[h % slotSize] == Some(Context(Live[h], h));
        } else {
          HalfResidue(h, slotSize);
          HalfResidue(c.handle, slotSize);
        }
      }
    }

    lemma MoveNone(b: seq<Option<Context>>, i: nat)
      requires SlotsOk() && |b| == 2 * slotSize && i < slotSize && Moved(b, i) && slot[i] == None
      ensures Moved(b, i + 1)
    {
      forall j | 0 <= j < |b| && b[j].Some? ensures MovedTo(b[j].value, j, i + 1) {
        assert MovedTo(b[j].value, j, i);
      }
      forall h | h in Live && h % slotSize < i + 1 ensures h % slotSize < i {
        assert slot[h % slotSize] == Some(Context(Live[h], h));
      }
    }

    /** The rehash of skynet_handle_register: its assertion never fails. */
    method Rehash() returns (b: array<Option<Context>>)
      requires SlotsOk()
      ensures fresh(b) && b.Length == 2 * slotSize && Moved(b[..], slotSize)
    {
      b := new Option<Context>[slotSize * 2](_ => None);
      var i := 0;
      while i < slotSize
        invariant 0 <= i <= slotSize && b.Length == 2 * slotSize && SlotsOk()
        invariant Moved(b[..], i)
      {
        if slot[i].Some? {
          var hash := slot[i].value.handle % (slotSize * 2);
          MoveOne(b[..], i);
          assert b[..][hash] == None;
          ghost var before := b[..];
          b[hash] := slot[i];
          assert b[..] == before[hash := slot[i]];
        } else {
          MoveNone(b[..], i);
        }
        i := i + 1;
      }
    }

    method Grow()
      requires Valid() && Exp < 24
      modifies this`slot, this`slotSize, this`Exp
      ensures Valid() && Exp == old(Exp) + 1 && fresh(slot)
    {
      var b := Rehash();
      ghost var s := b[..];
      assert forall h :: h in Live ==> h % slotSize < slotSize;
      slot, slotSize, Exp := b, slotSize * 2, Exp + 1;
      forall i | 0 <= i < slotSize && slot[i].Some? ensures InSlot(slot[i].value, i) {
        assert s[i] == slot[i];
      }
    }

    /** The low bits of a handle choose its slot, whatever the harbor. */
    lemma HarborSlot(h: nat)
      requires 0 < slotSize && 0x100_0000 % slotSize == 0 && harbor % 0x100_0000 == 0
      ensures (h + harbor) % slotSize == h % slotSize
    {
      var n, q, p := slotSize, 0x100_0000 / slotSize, harbor / 0x100_0000;
      assert 0x100_0000 == n * q && harbor == 0x100_0000 * p;
      MulAssoc(n, q, p);
      assert h == n * (h / n) + h % n;
      assert n * (h / n + q * p) == n * (h / n) + n * (q * p);
      DivUnique(h + harbor, n, h / n + q * p, h % n);
    }

    /** Puts a context into the free slot of handle h. */
    method Enter(id: ContextId, h: nat) returns (handle: nat)
      requires Valid() && 1 <= h <= HandleMask && !Taken(h)
      modifies this`handleIndex, this`Live, slot
      ensures Valid() && handle == h + harbor && handle !in old(Live) && Live == old(Live)[handle := id]
    {
      Divides(Exp);
      HarborSlot(h);
      handle := h + harbor;
      ghost var before := slot[..];
      slot[h % slotSize] := Some(Context(id, handle));
      handleIndex := h + 1;
      Live := Live[handle := id];
      forall i | 0 <= i < slotSize && slot[i].Some? ensures InSlot(slot[i].value, i) {
        if i != h % slotSize { assert before[i] == slot[i]; }
      }
    }

    /** skynet_handle_register: a new handle, different from every live one; without one only
        when every handle but the reserved is live. */
    method Register(id: ContextId) returns (handle: Option<nat>)
      requires Valid()
      modifies this`handleIndex, this`Live, this`slot, this`slotSize, this`Exp, slot
      ensures Valid() && (slot == old(slot) || fresh(slot))
      ensures handle.Some? ==>
                && harbor < handle.value <= harbor + HandleMask
                && handle.value !in old(Live) && Live == old(Live)[handle.value := id]
      ensures handle == None ==>
                Live == old(Live) && forall h: nat :: harbor < h <= harbor + HandleMask ==> h in Live
    {
      while true
        invariant Valid() && Live == old(Live) && (slot == old(slot) || fresh(slot))
        decreases 24 - Exp
      {
        Divides(Exp);
        MoreRoom();
        var h := FreeHandle();
        if h.Some? {
          var e := Enter(id, h.value);
          return Some(e);
        }
        if slotSize * 2 - 1 > HandleMask {
          FullTable();
          return None;
        }
        Grow();
      }
    }

    lemma MoreRoom()
      requires Valid()
      ensures slotSize * 2 - 1 <= HandleMask <==> Exp < 24
    {
      Pow2Of24();
      if Exp < 24 {
        Divides(Exp + 1);
      }
    }

    lemma FullTable()
      requires Valid() && Exp == 24 && forall r :: 1 <= r < slotSize ==> slot[r].Some?
      ensures forall h: nat :: harbor < h <= harbor + HandleMask ==> h in Live
    {
      Pow2Of24();
      forall h: nat | harbor < h <= harbor + HandleMask ensures h in Live {
        var low := h - harbor;
        assert InSlot(slot[low].value, low);
        SameHandle(h, slot[low].value.handle);
      }
    }

    lemma SameHandle(h: nat, g: nat)
      requires harbor % 0x100_0000 == 0 && harbor < h <= harbor + HandleMask && harbor < g <= harbor + HandleMask
      requires g % 0x100_0000 == h - harbor
      ensures g == h
    {
      DivUnique(g, 0x100_0000, harbor / 0x100_0000, g - harbor);
    }
  }
}
