/** SHA-1 as lsha1.c computes it: a circular schedule of 16 words, rotating register names,
    and a context that data is added to in pieces of any size. */
module Sha1Code {
  import opened Prelude
  import opened Sha1Spec

  // ---- the macros ----------------------------------------------------------------------------

  /** The word that memcpy into the union makes of four bytes on a little-endian host. */
  function LittleEndian(b0: Byte, b1: Byte, b2: Byte, b3: Byte): Word {
    (b0 as Word) | (b1 as Word << 8) | (b2 as Word << 16) | (b3 as Word << 24)
  }

  /** blk0 */
  function Swapped(w: Word): Word {
    (((w << 24) | (w >> 8)) & 0xFF00FF00) | (((w << 8) | (w >> 24)) & 0x00FF00FF)
  }

  lemma SwappedIsBigEndian(b0: Byte, b1: Byte, b2: Byte, b3: Byte)
    ensures Swapped(LittleEndian(b0, b1, b2, b3)) == BigEndian(b0, b1, b2, b3)
  {
  }

  /** The operations of R0 and R1, and of R3. */
  function MacroCh(w: Word, x: Word, y: Word): Word { (w & (x ^ y)) ^ y }

  function MacroMaj(w: Word, x: Word, y: Word): Word { ((w | x) & y) | (w & x) }

  lemma ChBits(w: Word, x: Word, y: Word)
    ensures (w & (x ^ y)) ^ y == (w & x) ^ (!w & y)
  {
  }

  lemma MajBits(w: Word, x: Word, y: Word)
    ensures ((w | x) & y) | (w & x) == (w & x) ^ (w & y) ^ (x & y)
  {
  }

  lemma MacrosAreFunctions(w: Word, x: Word, y: Word)
    ensures MacroCh(w, x, y) == Ch(w, x, y) && MacroMaj(w, x, y) == Maj(w, x, y)
  {
    ChBits(w, x, y);
    MajBits(w, x, y);
  }

  /** The operation of round i, R0 to R4. */
  function MacroF(i: nat, w: Word, x: Word, y: Word): Word {
    if i < 20 then MacroCh(w, x, y)
    else if i < 40 then Parity(w, x, y)
    else if i < 60 then MacroMaj(w, x, y)
    else Parity(w, x, y)
  }

  lemma MacroFIsF(i: nat, w: Word, x: Word, y: Word)
    ensures MacroF(i, w, x, y) == F(i, w, x, y)
  {
    MacrosAreFunctions(w, x, y);
  }

  /** What a macro adds to z. */
  function MacroZ(v5: Word, f: Word, z: Word, k: Word, blk: Word): Word {
    z + (f + blk + k + v5)
  }

  lemma MacroZIsTemp(v5: Word, f: Word, z: Word, k: Word, blk: Word)
    ensures MacroZ(v5, f, z, k, blk) == Temp(v5, f, z, k, blk)
  {
  }

  // ---- SHA1_Transform ---------------------------------------------------------------------------

  /** The array index of the register that round i calls v; the others follow. */
  function Name(i: nat): nat { (5 - i % 5) % 5 }

  /** The registers as round i names them. */
  function Named(r: seq<Word>, i: nat): Regs
    requires |r| == 5
  {
    var v := Name(i);
    Regs(r[v], r[(v + 1) % 5], r[(v + 2) % 5], r[(v + 3) % 5], r[(v + 4) % 5])
  }

  function RegsOf(r: seq<Word>): Regs
    requires |r| == 5
  {
    Regs(r[0], r[1], r[2], r[3], r[4])
  }

  /** What the 16 words hold before round i: the words of the schedule before i, as far
      back as there is room, and what is left of the block. */
  predicate Circular(l: seq<Word>, block: seq<Byte>, i: nat)
    requires |l| == 16 && |block| == 64
  {
    && (forall k :: i <= k < 16 ==> l[k] == Loaded(block, k))
    && (forall t :: 0 <= t < i <= t + 16 ==> Holds(l, block, t))
  }

  predicate Holds(l: seq<Word>, block: seq<Byte>, t: nat)
    requires |l| == 16 && |block| == 64
  {
    l[t % 16] == W(block, t)
  }

  function Loaded(block: seq<Byte>, k: nat): Word
    requires |block| == 64 && k < 16
  {
    LittleEndian(block[4 * k], block[4 * k + 1], block[4 * k + 2], block[4 * k + 3])
  }

  /** What blk0 or blk stores in round i. */
  function Blk(l: seq<Word>, i: nat): Word
    requires |l| == 16
  {
    if i < 16 then Swapped(l[i])
    else Rotl1(l[(i + 13) % 16] ^ l[(i + 8) % 16] ^ l[(i + 2) % 16] ^ l[i % 16])
  }

  lemma SlotsDiffer(t: nat, i: nat)
    requires t < i < t + 16
    ensures t % 16 != i % 16
  {
  }

  lemma SameSlots(i: nat)
    requires i >= 16
    ensures (i + 13) % 16 == (i - 3) % 16 && (i + 8) % 16 == (i - 8) % 16
    ensures (i + 2) % 16 == (i - 14) % 16 && i % 16 == (i - 16) % 16
  {
    ModStep(i - 3, 16);
    ModStep(i - 8, 16);
    ModStep(i - 14, 16);
    ModStep(i - 16, 16);
  }

  /** The circular schedule yields the words of the standard. */
  lemma BlkIsW(l: seq<Word>, block: seq<Byte>, i: nat)
    requires |l| == 16 && |block| == 64 && Circular(l, block, i)
    ensures Blk(l, i) == W(block, i)
  {
    if i < 16 {
      SwappedIsBigEndian(block[4 * i], block[4 * i + 1], block[4 * i + 2], block[4 * i + 3]);
    } else {
      SameSlots(i);
      assert Holds(l, block, i - 3) && Holds(l, block, i - 8) && Holds(l, block, i - 14) && Holds(l, block, i - 16);
    }
  }

  lemma Stored(l: seq<Word>, block: seq<Byte>, i: nat)
    requires |l| == 16 && |block| == 64 && Circular(l, block, i)
    ensures Circular(l[i % 16 := W(block, i)], block, i + 1)
  {
    var l' := l[i % 16 := W(block, i)];
    forall t | 0 <= t < i + 1 <= t + 16 ensures Holds(l', block, t) {
      if t < i {
        SlotsDiffer(t, i);
        assert Holds(l, block, t);
      }
    }
  }

  /** A macro call changes the registers it calls z and w: under the names of the next
      round they are the first and the third. */
  lemma Renamed(r: seq<Word>, i: nat, z: Word, w: Word)
    requires |r| == 5
    ensures var v, n := Name(i), Named(r, i);
            Named(r[(v + 4) % 5 := z][(v + 1) % 5 := w], i + 1) == Regs(z, n.a, w, n.c, n.d)
  {
    NextName(i);
    var v := Name(i);
    assert v == 0 || v == 1 || v == 2 || v == 3 || v == 4;
  }

  lemma NextName(i: nat)
    ensures Name(i + 1) == (Name(i) + 4) % 5
  {
  }

  lemma MacroIsRound(i: nat, n: Regs, blk: Word)
    ensures Regs(MacroZ(Rotl5(n.a), MacroF(i, n.b, n.c, n.d), n.e, K(i), blk), n.a, Rotl30(n.b), n.c, n.d) == Round(n, i, blk)
  {
    MacroFIsF(i, n.b, n.c, n.d);
    MacroZIsTemp(Rotl5(n.a), F(i, n.b, n.c, n.d), n.e, K(i), blk);
  }

  /** The macro call of round i. */
  function RegistersAfter(r: seq<Word>, i: nat, blk: Word): seq<Word>
    requires |r| == 5
  {
    var v, n := Name(i), Named(r, i);
    r[(v + 4) % 5 := MacroZ(Rotl5(n.a), MacroF(i, n.b, n.c, n.d), n.e, K(i), blk)][(v + 1) % 5 := Rotl30(n.b)]
  }

  lemma MacroCall(r: seq<Word>, i: nat, blk: Word)
    requires |r| == 5
    ensures Named(RegistersAfter(r, i, blk), i + 1) == Round(Named(r, i), i, blk)
  {
    var n := Named(r, i);
    Renamed(r, i, MacroZ(Rotl5(n.a), MacroF(i, n.b, n.c, n.d), n.e, K(i), blk), Rotl30(n.b));
    MacroIsRound(i, n, blk);
  }

  method Macro(l: array<Word>, r: array<Word>, i: nat)
    requires l.Length == 16 && r.Length == 5 && l != r
    modifies l, r
    ensures l[..] == old(l[..])[i % 16 := Blk(old(l[..]), i)]
    ensures r[..] == RegistersAfter(old(r[..]), i, Blk(old(l[..]), i))
  {
    l[i % 16] := Blk(l[..], i);
    var v, n := Name(i), Named(r[..], i);
    r[(v + 4) % 5] := MacroZ(Rotl5(n.a), MacroF(i, n.b, n.c, n.d), n.e, K(i), l[i % 16]);
    r[(v + 1) % 5] := Rotl30(n.b);
  }

  /** The 80 rounds are those of the standard. */
  method AllRounds(l: array<Word>, r: array<Word>, ghost block: seq<Byte>, ghost h: Regs)
    requires l.Length == 16 && r.Length == 5 && l != r && |block| == 64
    requires Circular(l[..], block, 0) && RegsOf(r[..]) == h
    modifies l, r
    ensures RegsOf(r[..]) == Rounds(h, block, 80)
  {
    var i := 0;
    while i < 80
      invariant 0 <= i <= 80
      invariant Circular(l[..], block, i)
      invariant Named(r[..], i) == Rounds(h, block, i)
    {
      BlkIsW(l[..], block, i);
      Stored(l[..], block, i);
      MacroCall(r[..], i, W(block, i));
      Macro(l, r, i);
      i := i + 1;
    }
  }

  /** memcpy of a block into the 16 words. */
  method Load(block: seq<Byte>) returns (l: array<Word>)
    requires |block| == 64
    ensures fresh(l) && l.Length == 16 && Circular(l[..], block, 0)
  {
    l := new Word[16];
    var k := 0;
    while k < 16
      invariant 0 <= k <= 16 && forall j :: 0 <= j < k ==> l[j] == Loaded(block, j)
    {
      l[k] := Loaded(block, k);
      k := k + 1;
    }
  }

  method AddBack(state: array<Word>, r: array<Word>)
    requires state.Length == 5 && r.Length == 5 && state != r
    modifies state
    ensures RegsOf(state[..]) == Added(old(RegsOf(state[..])), RegsOf(r[..]))
  {
    var h := Added(RegsOf(state[..]), RegsOf(r[..]));
    state[0], state[1], state[2], state[3], state[4] := h.a, h.b, h.c, h.d, h.e;
  }

  /** SHA1_Transform computes the hash of one more block. */
  method Transform(state: array<Word>, buffer: seq<Byte>)
    requires state.Length == 5 && |buffer| == 64
    modifies state
    ensures RegsOf(state[..]) == Compress(old(RegsOf(state[..])), buffer)
  {
    var l := Load(buffer);
    var r := new Word[5];
    r[0], r[1], r[2], r[3], r[4] := state[0], state[1], state[2], state[3], state[4];
    ghost var h := RegsOf(state[..]);
    assert RegsOf(r[..]) == h;
    AllRounds(l, r, buffer, h);
    assert RegsOf(state[..]) == h;
    AddBack(state, r);
  }
}
