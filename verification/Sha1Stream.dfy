/** The SHA-1 context of lsha1.c: data may be added in pieces of any size, and the digest is
    that of the padded message whose length field is the recorded bit count. */
module Sha1Stream {
  import opened Prelude
  import opened Sha1Spec
  import opened Sha1Code

  // ---- the bit count ----------------------------------------------------------------------------

  /** len << 3, as a size_t. */
  function Bits(len: nat): nat { (8 * len) % 0x1_0000_0000_0000_0000 }

  /** Whether the test for a carry is right when len bytes are added to the low word c0: it
      compares a 32-bit sum with a 64-bit shift. */
  predicate CarriesRight(c0: nat, len: nat) {
    Bits(len) < 0x1_0000_0000 || c0 + Bits(len) % 0x1_0000_0000 >= 0x1_0000_0000
  }

  /** The recorded bit count. */
  function Total(c0: nat, c1: nat): nat { 0x1_0000_0000 * c1 + c0 }

  function LowAfter(c0: nat, len: nat): nat { (c0 + Bits(len)) % 0x1_0000_0000 }

  function HighAfter(c0: nat, c1: nat, len: nat): nat {
    (c1 + (if LowAfter(c0, len) < Bits(len) then 1 else 0) + len / 0x2000_0000) % 0x1_0000_0000
  }

  lemma LowOf(n: nat)
    ensures (n % 0x1_0000_0000_0000_0000) % 0x1_0000_0000 == n % 0x1_0000_0000
    ensures (n % 0x1_0000_0000_0000_0000) / 0x1_0000_0000 == n / 0x1_0000_0000 % 0x1_0000_0000
  {
    var a, q := n / 0x1_0000_0000, n % 0x1_0000_0000;
    var b, r := a / 0x1_0000_0000, a % 0x1_0000_0000;
    assert n == 0x1_0000_0000_0000_0000 * b + (0x1_0000_0000 * r + q);
    DivUnique(n, 0x1_0000_0000_0000_0000, b, 0x1_0000_0000 * r + q);
  }

  /** The low word is always right. */
  lemma LowRight(c0: nat, len: nat, before: nat)
    requires c0 == before % 0x1_0000_0000
    ensures LowAfter(c0, len) == (before + 8 * len) % 0x1_0000_0000
  {
    LowOf(8 * len);
    var q, b := before / 0x1_0000_0000, Bits(len);
    assert before == 0x1_0000_0000 * q + c0;
    var p := 8 * len / 0x1_0000_0000_0000_0000;
    assert 8 * len == 0x1_0000_0000_0000_0000 * p + b;
    var s := c0 + b;
    assert s == 0x1_0000_0000 * (s / 0x1_0000_0000) + s % 0x1_0000_0000;
    DivUnique(before + 8 * len, 0x1_0000_0000, q + 0x1_0000_0000 * p + s / 0x1_0000_0000, s % 0x1_0000_0000);
  }

  function RealCarry(c0: nat, len: nat): nat {
    if c0 + Bits(len) % 0x1_0000_0000 >= 0x1_0000_0000 then 1 else 0
  }

  lemma CarryRightIff(c0: nat, len: nat)
    requires c0 < 0x1_0000_0000
    ensures (if LowAfter(c0, len) < Bits(len) then 1 else 0) == RealCarry(c0, len) <==> CarriesRight(c0, len)
  {
    var b := Bits(len);
    var low, q := b % 0x1_0000_0000, b / 0x1_0000_0000;
    assert b == 0x1_0000_0000 * q + low;
    var r := RealCarry(c0, len);
    DivUnique(c0 + b, 0x1_0000_0000, q + r, c0 + low - 0x1_0000_0000 * r);
  }

  lemma ShiftedHigh(len: nat)
    ensures len / 0x2000_0000 == 8 * len / 0x1_0000_0000
  {
    var q, r := len / 0x2000_0000, len % 0x2000_0000;
    assert len == 0x2000_0000 * q + r;
    DivUnique(8 * len, 0x1_0000_0000, q, 8 * r);
  }

  lemma SameModulo(x: nat, a: nat, b: nat)
    requires a <= 1 && b <= 1
    ensures (x + a) % 0x1_0000_0000 == (x + b) % 0x1_0000_0000 <==> a == b
  {
    if a != b {
      var q, r := x / 0x1_0000_0000, x % 0x1_0000_0000;
      assert x == 0x1_0000_0000 * q + r;
      DivUnique(x, 0x1_0000_0000, q, r);
      if r + 1 < 0x1_0000_0000 {
        DivUnique(x + 1, 0x1_0000_0000, q, r + 1);
      } else {
        DivUnique(x + 1, 0x1_0000_0000, q + 1, 0);
      }
    }
  }

  lemma HighSum(before: nat, len: nat, c0: nat)
    requires c0 == before % 0x1_0000_0000
    ensures (before + 8 * len) / 0x1_0000_0000 == before / 0x1_0000_0000 + len / 0x2000_0000 + RealCarry(c0, len)
  {
    LowOf(8 * len);
    ShiftedHigh(len);
    var q, h, low := before / 0x1_0000_0000, 8 * len / 0x1_0000_0000, 8 * len % 0x1_0000_0000;
    assert before == 0x1_0000_0000 * q + c0 && 8 * len == 0x1_0000_0000 * h + low;
    var r := RealCarry(c0, len);
    DivUnique(before + 8 * len, 0x1_0000_0000, q + h + r, c0 + low - 0x1_0000_0000 * r);
  }

  /** The high word of the bit count of n bytes. */
  predicate HighRight(c1: nat, n: nat) { c1 == 8 * n / 0x1_0000_0000 % 0x1_0000_0000 }

  /** The high word stays right, as bytes are added to n bytes, if and only if the carry
      test is right. */
  lemma HighRightIff(c0: nat, c1: nat, len: nat, n: nat)
    requires c0 == 8 * n % 0x1_0000_0000 && HighRight(c1, n)
    ensures HighRight(HighAfter(c0, c1, len), n + len) <==> CarriesRight(c0, len)
  {
    var before := 8 * n;
    HighSum(before, len, c0);
    CarryRightIff(c0, len);
    var h, r := before / 0x1_0000_0000, RealCarry(c0, len);
    var a, carry := len / 0x2000_0000, if LowAfter(c0, len) < Bits(len) then 1 else 0;
    assert h == 0x1_0000_0000 * (h / 0x1_0000_0000) + c1;
    ModPeriod(h / 0x1_0000_0000, c1 + a + r);
    assert h + a + r == 0x1_0000_0000 * (h / 0x1_0000_0000) + (c1 + a + r);
    SameModulo(c1 + a, carry, r);
    assert 8 * (n + len) == before + 8 * len;
  }

  lemma ModPeriod(q: nat, x: nat)
    ensures (0x1_0000_0000 * q + x) % 0x1_0000_0000 == x % 0x1_0000_0000
  {
    DivUnique(0x1_0000_0000 * q + x, 0x1_0000_0000, q + x / 0x1_0000_0000, x % 0x1_0000_0000);
  }

  // ---- blocks ---------------------------------------------------------------------------------------

  /** The compression of a block by another, which the stream does not depend on. */
  type Compressor = (Regs, seq<Byte>) -> Regs

  function Fold(f: Compressor, m: seq<Byte>, n: nat): Regs
    requires 64 * n <= |m|
  {
    if n == 0 then Start else f(Fold(f, m, n - 1), m[64 * (n - 1)..64 * n])
  }

  /** f is the compression of SHA-1. */
  ghost predicate Compresses(f: Compressor) {
    forall h, b {:trigger Compress(h, b)} :: |b| == 64 ==> f(h, b) == Compress(h, b)
  }

  lemma {:induction false} FoldIsHash(f: Compressor, m: seq<Byte>, n: nat)
    requires Compresses(f) && 64 * n <= |m|
    ensures Fold(f, m, n) == HashBlocks(m, n)
  {
    if n > 0 {
      FoldIsHash(f, m, n - 1);
    }
  }

  lemma {:induction false} FoldPrefix(f: Compressor, m: seq<Byte>, d: seq<Byte>, n: nat)
    requires 64 * n <= |m|
    ensures Fold(f, m + d, n) == Fold(f, m, n)
  {
    if n > 0 {
      FoldPrefix(f, m, d, n - 1);
      assert (m + d)[64 * (n - 1)..64 * n] == m[64 * (n - 1)..64 * n];
    }
  }

  /** Padding with a length field that may be wrong. */
  function PadWith(m: seq<Byte>, bits: nat): seq<Byte> {
    m + [0x80] + Zeros((119 - |m| % 64) % 64) + BytesOf(bits, 8)
  }

  function DigestWith(m: seq<Byte>, bits: nat): seq<Byte> {
    DigestOf(HashBlocks(PadWith(m, bits), |PadWith(m, bits)| / 64))
  }

  lemma Padded(m: seq<Byte>, bits: nat, field: seq<Byte>, padded: seq<Byte>)
    requires field == BytesOf(bits, 8) && padded == m + [0x80] + Zeros((119 - |m| % 64) % 64) + field
    ensures padded == PadWith(m, bits)
  {
  }

  /** SHA1_CTX and the message it has taken in. */
  class Context {
    var state: array<Word>
    var count0: nat
    var count1: nat
    var buffer: array<Byte>
    ghost const f: Compressor
    ghost var Message: seq<Byte>

    ghost predicate Valid()
      reads this, state, buffer
    {
      Absorbed() && count0 == 8 * |Message| % 0x1_0000_0000 && count1 < 0x1_0000_0000
    }

    /** The whole blocks of the message are hashed, the rest is in the buffer. */
    ghost predicate Absorbed()
      reads this, state, buffer
    {
      && state.Length == 5 && buffer.Length == 64
      && Compresses(f) && RegsOf(state[..]) == Fold(f, Message, |Message| / 64)
      && buffer[..|Message| % 64] == Message[64 * (|Message| / 64)..]
    }

    /** sat_SHA1_Init */
    constructor ()
      ensures Valid() && Message == [] && fresh(state) && fresh(buffer)
      ensures count0 == 0 && count1 == 0
    {
      state := new Word[5];
      buffer := new Byte[64];
      count0, count1, Message := 0, 0, [];
      f := (h, b) => if |b| == 64 then Compress(h, b) else h;
      new;
      state[0], state[1], state[2], state[3], state[4] := Start.a, Start.b, Start.c, Start.d, Start.e;
    }

    /** Both counters when len bytes are added. */
    method Count(len: nat)
      modifies this`count0, this`count1
      ensures count0 == LowAfter(old(count0), len) && count1 == HighAfter(old(count0), old(count1), len)
    {
      count0 := (count0 + Bits(len)) % 0x1_0000_0000;
      var carry := 0;
      if count0 < Bits(len) {
        carry := 1;
      }
      count1 := (count1 + carry + len / 0x2000_0000) % 0x1_0000_0000;
    }

    /** memcpy into the buffer at j. */
    method Store(j: nat, part: seq<Byte>)
      requires buffer.Length == 64 && j + |part| <= 64
      modifies buffer
      ensures buffer[..j + |part|] == old(buffer[..j]) + part
    {
      forall k | 0 <= k < |part| {
        buffer[j + k] := part[k];
      }
      assert buffer[..j] == old(buffer[..j]);
      assert buffer[j..j + |part|] == part;
      assert buffer[..j + |part|] == buffer[..j] + buffer[j..j + |part|];
    }

    /** The loop over whole blocks of data, from i on: k blocks are hashed before it. */
    method HashWhole(data: seq<Byte>, start: nat, ghost m: seq<Byte>, ghost done: nat) returns (i: nat)
      requires state.Length == 5 && start <= |data| && |m| >= |data| && m[|m| - |data|..] == data
      requires 64 * done == |m| - |data| + start && Compresses(f) && RegsOf(state[..]) == Fold(f, m, done)
      modifies state
      ensures start <= i <= |data| < i + 64 && |m| / 64 == (|m| - |data| + i) / 64 && (|m| - |data| + i) % 64 == 0
      ensures RegsOf(state[..]) == Fold(f, m, |m| / 64)
    {
      i := start;
      ghost var k := done;
      while i + 63 < |data|
        invariant start <= i <= |data| && 64 * k == |m| - |data| + i
        invariant RegsOf(state[..]) == Fold(f, m, k)
      {
        BlockOfData(m, data, k, i);
        Transform(state, data[i..i + 64]);
        i, k := i + 64, k + 1;
      }
      DivUnique(|m|, 64, k, |data| - i);
    }

    /** The branch of sat_SHA1_Update for data that completes a block. */
    method AbsorbBlocks(j: nat, data: seq<Byte>)
      requires Absorbed() && j == |Message| % 64 && j + |data| > 63
      modifies this`Message, state, buffer
      ensures Absorbed() && Message == old(Message) + data
    {
      ghost var m, q := Message + data, |Message| / 64;
      FoldPrefix(f, Message, data, q);
      var i := 64 - j;
      FirstBlock(Message, data);
      Store(j, data[..i]);
      assert buffer[..] == buffer[..64];
      Transform(state, buffer[..]);
      i := HashWhole(data, i, m, q + 1);
      Tail(m, data, i);
      Store(0, data[i..]);
      Message := m;
    }

    /** The other branch. */
    method AbsorbPart(j: nat, data: seq<Byte>)
      requires Absorbed() && j == |Message| % 64 && j + |data| <= 63
      modifies this`Message, buffer
      ensures Absorbed() && Message == old(Message) + data
    {
      ghost var m, q := Message + data, |Message| / 64;
      FoldPrefix(f, Message, data, q);
      DivUnique(|m|, 64, q, j + |data|);
      assert m[64 * q..] == Message[64 * q..] + data;
      Store(j, data);
      Message := m;
    }

    /** sat_SHA1_Update */
    method Update(data: seq<Byte>)
      requires Valid()
      modifies this, state, buffer
      ensures Valid() && Message == old(Message) + data
      ensures state == old(state) && buffer == old(buffer)
      ensures count0 == LowAfter(old(count0), |data|) && count1 == HighAfter(old(count0), old(count1), |data|)
    {
      var j := count0 / 8 % 64;
      BufferFill(|Message|);
      LowRight(count0, |data|, 8 * |Message|);
      Count(|data|);
      if j + |data| > 63 {
        AbsorbBlocks(j, data);
      } else {
        AbsorbPart(j, data);
      }
    }

    /** finalcount: the recorded bit count, most significant byte first. */
    method FinalCount() returns (bytes: seq<Byte>)
      requires count0 < 0x1_0000_0000 && count1 < 0x1_0000_0000
      ensures bytes == BytesOf(Total(count0, count1), 8)
    {
      bytes := [];
      var i := 0;
      while i < 8
        invariant 0 <= i <= 8 && bytes == CountBytes(count0, count1, i)
      {
        NextCountByte(count0, count1, i);
        bytes := bytes + [CountByte(count0, count1, i)];
        i := i + 1;
      }
    }

    /** The zero bytes of the padding, after the byte 0x80. */
    method AddZeros(ghost m: seq<Byte>)
      requires Valid() && Message == m + [0x80]
      modifies this, state, buffer
      ensures Valid() && state == old(state) && buffer == old(buffer)
      ensures Message == m + [0x80] + Zeros((119 - |m| % 64) % 64)
    {
      ghost var k := (119 - |m| % 64) % 64;
      ghost var z := 0;
      assert Message == m + [0x80] + Zeros(0);
      ZerosLeft(|m|, z);
      while count0 / 8 % 64 != 56
        invariant Valid() && state == old(state) && buffer == old(buffer)
        invariant 0 <= z <= k && Message == m + [0x80] + Zeros(z)
        invariant count0 / 8 % 64 == 56 <==> z == k
        decreases k - z
      {
        OneMoreZero(m, z);
        Update([0]);
        z := z + 1;
        ZerosLeft(|m|, z);
      }
    }

    /** The bytes of the state, most significant first. */
    method Output() returns (digest: seq<Byte>)
      requires state.Length == 5
      ensures digest == DigestOf(RegsOf(state[..]))
    {
      digest := [];
      var i := 0;
      while i < 5
        invariant 0 <= i <= 5 && digest == WordsBytes(state[..i])
      {
        assert state[..i + 1][..i] == state[..i];
        digest := digest + WordBytes(state[i]);
        i := i + 1;
      }
      FiveWords(state[..]);
      assert state[..5] == state[..];
    }

    /** What sat_SHA1_Final adds to the message, with the bit count recorded before it. */
    method AddPadding()
      requires Valid()
      modifies this, state, buffer
      ensures Valid() && state == old(state)
      ensures Message == PadWith(old(Message), Total(old(count0), old(count1)))
    {
      ghost var m, bits := Message, Total(count0, count1);
      var finalcount := FinalCount();
      Update([0x80]);
      AddZeros(m);
      Update(finalcount);
      Padded(m, bits, finalcount, Message);
    }

    /** sat_SHA1_Final: the message, padded with the recorded bit count, is hashed. */
    method Final() returns (digest: seq<Byte>)
      requires Valid()
      modifies this, state, buffer
      ensures digest == DigestWith(old(Message), Total(old(count0), old(count1)))
    {
      ghost var m := PadWith(Message, Total(count0, count1));
      AddPadding();
      FoldIsHash(f, m, |m| / 64);
      digest := Output();
    }
  }

  /** n >> 8 * k */
  function Shifted(n: nat, k: nat): nat
    decreases k, n
  {
    if k == 0 then n else Shifted(n, k - 1) / 256
  }

  lemma ShiftLow(c0: nat, c1: nat)
    ensures var total := 0x1_0000_0000 * c1 + c0;
            && Shifted(total, 1) == 0x100_0000 * c1 + Shifted(c0, 1)
            && Shifted(total, 2) == 0x1_0000 * c1 + Shifted(c0, 2)
            && Shifted(total, 3) == 0x100 * c1 + Shifted(c0, 3)
            && Shifted(total, 4) == c1 + Shifted(c0, 4)
  {
    var total := 0x1_0000_0000 * c1 + c0;
    assert Shifted(total, 1) == 0x100_0000 * c1 + Shifted(c0, 1);
    assert Shifted(total, 2) == 0x1_0000 * c1 + Shifted(c0, 2);
    assert Shifted(total, 3) == 0x100 * c1 + Shifted(c0, 3);
  }

  lemma ShiftAll(c0: nat)
    requires c0 < 0x1_0000_0000
    ensures Shifted(c0, 4) == 0
  {
    assert Shifted(c0, 1) < 0x100_0000;
    assert Shifted(c0, 2) < 0x1_0000;
    assert Shifted(c0, 3) < 0x100;
  }

  lemma {:induction false} ShiftHigh(c0: nat, c1: nat, k: nat)
    requires c0 < 0x1_0000_0000
    ensures Shifted(0x1_0000_0000 * c1 + c0, k + 4) == Shifted(c1, k)
  {
    if k == 0 {
      ShiftLow(c0, c1);
      ShiftAll(c0);
    } else {
      ShiftHigh(c0, c1, k - 1);
    }
  }

  /** The bytes of both words are those of the 64-bit count. */
  lemma CountDigit(c0: nat, c1: nat, i: nat)
    requires c0 < 0x1_0000_0000 && c1 < 0x1_0000_0000 && i < 8
    ensures Shifted(0x1_0000_0000 * c1 + c0, 7 - i) % 256 == Shifted(if i >= 4 then c0 else c1, 3 - i % 4) % 256
  {
    if i < 4 {
      ShiftHigh(c0, c1, 3 - i);
    } else {
      ShiftLow(c0, c1);
      LowDigit(c0, c1, 7 - i);
    }
  }

  lemma LowDigit(c0: nat, c1: nat, k: nat)
    requires k <= 3
    ensures Shifted(0x1_0000_0000 * c1 + c0, k) % 256 == Shifted(c0, k) % 256
  {
    ShiftLow(c0, c1);
    if k == 0 {
      MultipleOf256(0x100_0000 * c1, c0);
    } else if k == 1 {
      MultipleOf256(0x1_0000 * c1, Shifted(c0, 1));
    } else if k == 2 {
      MultipleOf256(0x100 * c1, Shifted(c0, 2));
    } else {
      MultipleOf256(c1, Shifted(c0, 3));
    }
  }

  lemma MultipleOf256(q: nat, r: nat)
    ensures (256 * q + r) % 256 == r % 256
  {
    DivUnique(256 * q + r, 256, q + r / 256, r % 256);
  }

  /** finalcount[i] */
  function CountByte(c0: nat, c1: nat, i: nat): Byte
    requires i < 8
  {
    (Shifted(if i >= 4 then c0 else c1, 3 - i % 4) % 256) as Byte
  }

  /** The first i bytes of the 64-bit count. */
  function CountBytes(c0: nat, c1: nat, i: nat): seq<Byte>
    requires i <= 8
  {
    BytesOf(Shifted(Total(c0, c1), 8 - i), i)
  }

  lemma NextCountByte(c0: nat, c1: nat, i: nat)
    requires c0 < 0x1_0000_0000 && c1 < 0x1_0000_0000 && i < 8
    ensures CountBytes(c0, c1, i + 1) == CountBytes(c0, c1, i) + [CountByte(c0, c1, i)]
  {
    CountDigit(c0, c1, i);
  }

  function WordsBytes(s: seq<Word>): seq<Byte> {
    if s == [] then [] else WordsBytes(s[..|s| - 1]) + WordBytes(s[|s| - 1])
  }

  lemma FiveWords(s: seq<Word>)
    requires |s| == 5
    ensures WordsBytes(s) == DigestOf(RegsOf(s))
  {
    assert s[..1][..0] == [] && [] + WordBytes(s[0]) == WordBytes(s[0]);
    assert WordsBytes(s[..1]) == WordBytes(s[0]);
    assert s[..2][..1] == s[..1] && s[..3][..2] == s[..2] && s[..4][..3] == s[..3];
    assert WordsBytes(s[..3]) == WordBytes(s[0]) + WordBytes(s[1]) + WordBytes(s[2]);
  }

  lemma OneMoreZero(m: seq<Byte>, z: nat)
    ensures m + [0x80] + Zeros(z) + [0] == m + [0x80] + Zeros(z + 1)
  {
    Assoc(m + [0x80], Zeros(z), [0]);
    assert Zeros(z) + [0] == Zeros(z + 1);
  }

  /** Zero bytes are added while, and only while, the padding needs them: the test of the
      low word is one of the length modulo 64. */
  lemma ZerosLeft(n: nat, z: nat)
    requires z <= (119 - n % 64) % 64
    ensures 8 * (n + 1 + z) % 0x1_0000_0000 / 8 % 64 == 56 <==> z == (119 - n % 64) % 64
  {
    BufferFill(n + 1 + z);
    var q, r := n / 64, n % 64;
    assert n == 64 * q + r;
    var k := if r <= 55 then 55 - r else 119 - r;
    assert (119 - r) % 64 == k;
    if r + 1 + z < 64 {
      DivUnique(n + 1 + z, 64, q, r + 1 + z);
    } else {
      DivUnique(n + 1 + z, 64, q + 1, r + 1 + z - 64);
    }
  }

  /** (count[0] >> 3) & 63 */
  lemma BufferFill(n: nat)
    ensures 8 * n % 0x1_0000_0000 / 8 % 64 == n % 64
  {
    var q, r := n / 0x2000_0000, n % 0x2000_0000;
    assert n == 0x2000_0000 * q + r;
    DivUnique(8 * n, 0x1_0000_0000, q, 8 * r);
    var a, b := r / 64, r % 64;
    assert r == 64 * a + b;
    DivUnique(n, 64, 0x80_0000 * q + a, b);
  }

  lemma BlockOfData(m: seq<Byte>, data: seq<Byte>, k: nat, i: nat)
    requires |m| >= |data| && m[|m| - |data|..] == data && i + 64 <= |data| && 64 * k == |m| - |data| + i
    ensures m[64 * k..64 * (k + 1)] == data[i..i + 64]
  {
    assert data[i..i + 64] == m[|m| - |data|..][i..i + 64];
  }

  /** The block that data completes. */
  lemma FirstBlock(m: seq<Byte>, data: seq<Byte>)
    requires |m| % 64 + |data| > 63
    ensures var q, i := |m| / 64, 64 - |m| % 64;
            && 64 * (q + 1) == |m| + i
            && (m + data)[64 * q..64 * (q + 1)] == m[64 * q..] + data[..i]
  {
  }

  lemma Tail(m: seq<Byte>, data: seq<Byte>, i: nat)
    requires |m| >= |data| && m[|m| - |data|..] == data && i <= |data| < i + 64 && (|m| - |data| + i) % 64 == 0
    ensures |m| % 64 == |data| - i && m[64 * (|m| / 64)..] == data[i..]
  {
    var k := (|m| - |data| + i) / 64;
    DivUnique(|m|, 64, k, |data| - i);
    assert data[i..] == m[|m| - |data|..][i..];
  }

  // ---- digests -------------------------------------------------------------------------------------

  lemma SmallStaysRight(c0: nat, c1: nat, len: nat, n: nat, after: nat)
    requires len < 0x2000_0000 && c0 == 8 * n % 0x1_0000_0000 && HighRight(c1, n) && after == n + len
    ensures HighRight(HighAfter(c0, c1, len), after)
  {
    DivUnique(8 * len, 0x1_0000_0000_0000_0000, 0, 8 * len);
    HighRightIff(c0, c1, len, n);
  }

  /** While the length fits in 64 bits, counters that are right make the digest right. */
  lemma RightDigest(m: seq<Byte>, c0: nat, c1: nat)
    requires 8 * |m| < 0x1_0000_0000_0000_0000
    requires c0 == 8 * |m| % 0x1_0000_0000 && HighRight(c1, |m|)
    ensures DigestWith(m, Total(c0, c1)) == Sha1(m)
  {
    RealCount(|m|, c0, c1);
    SameDigest(m);
  }

  lemma SameDigest(m: seq<Byte>)
    ensures DigestWith(m, 8 * |m|) == Sha1(m)
  {
  }

  lemma RealCount(n: nat, c0: nat, c1: nat)
    requires 8 * n < 0x1_0000_0000_0000_0000
    requires c0 == 8 * n % 0x1_0000_0000 && c1 == 8 * n / 0x1_0000_0000 % 0x1_0000_0000
    ensures Total(c0, c1) == 8 * n
  {
    DivUnique(8 * n / 0x1_0000_0000, 0x1_0000_0000, 0, 8 * n / 0x1_0000_0000);
  }

  /** An update with a small piece keeps a right count right. */
  method UpdateSmall(c: Context, piece: seq<Byte>)
    requires c.Valid() && HighRight(c.count1, |c.Message|) && |piece| < 0x2000_0000
    modifies c, c.state, c.buffer
    ensures c.Valid() && HighRight(c.count1, |c.Message|) && c.Message == old(c.Message) + piece
    ensures c.state == old(c.state) && c.buffer == old(c.buffer)
  {
    ghost var c0, c1, n := c.count0, c.count1, |c.Message|;
    c.Update(piece);
    SmallStaysRight(c0, c1, |piece|, n, |c.Message|);
  }

  /** sat_SHA1_Init and an update for each piece. */
  method UpdateAll(pieces: seq<seq<Byte>>) returns (c: Context)
    requires forall p :: p in pieces ==> |p| < 0x2000_0000
    ensures fresh(c) && fresh(c.state) && fresh(c.buffer)
    ensures c.Valid() && c.Message == Concat(pieces) && HighRight(c.count1, |c.Message|)
    decreases |pieces|
  {
    if pieces == [] {
      c := new Context();
      return;
    }
    var n := |pieces| - 1;
    c := UpdateAll(pieces[..n]);
    UpdateSmall(c, pieces[n]);
  }

  /** Pieces of under 2^29 bytes, however many and however cut, give the digest of the
      message they make. */
  method DigestPieces(pieces: seq<seq<Byte>>) returns (digest: seq<Byte>)
    requires forall p :: p in pieces ==> |p| < 0x2000_0000
    requires |Concat(pieces)| < 0x2000_0000_0000_0000
    ensures digest == Sha1(Concat(pieces))
  {
    var c := UpdateAll(pieces);
    RightDigest(Concat(pieces), c.count0, c.count1);
    digest := c.Final();
  }

  /** The bit count that lsha1 records for a text. */
  function Recorded(len: nat): nat {
    Total(LowAfter(0, len), HighAfter(0, 0, len))
  }

  /** lsha1 takes the whole text at once. */
  method LuaSha1(text: seq<Byte>) returns (digest: seq<Byte>)
    ensures digest == DigestWith(text, Recorded(|text|))
  {
    var c := new Context();
    c.Update(text);
    assert c.Message == text;
    digest := c.Final();
  }

  /** So lsha1 gives the digest of the standard for every text below 2^29 bytes. */
  lemma LuaSha1Right(text: seq<Byte>)
    requires |text| < 0x2000_0000
    ensures DigestWith(text, Recorded(|text|)) == Sha1(text)
  {
    RecordedIs(|text|);
    SameDigest(text);
  }

  /** The length field of a text that exists in memory is right exactly below 2^29 bytes:
      from there on the carry test adds 2^32 too much. */
  lemma RecordedIs(len: nat)
    requires len < 0x1fff_ffff_0000_0000
    ensures Recorded(len) == (if len < 0x2000_0000 then 8 * len else 8 * len + 0x1_0000_0000)
  {
    var b := 8 * len;
    DivUnique(b, 0x1_0000_0000_0000_0000, 0, b);
    ShiftedHigh(len);
    assert b == 0x1_0000_0000 * (b / 0x1_0000_0000) + b % 0x1_0000_0000;
    var h := b / 0x1_0000_0000;
    if len < 0x2000_0000 {
      DivUnique(b, 0x1_0000_0000, 0, b);
    } else {
      DivUnique(h + 1, 0x1_0000_0000, 0, h + 1);
    }
  }
}
