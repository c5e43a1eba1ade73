/** The DES text functions of lua-crypt.c: permutations, sixteen rounds, paddings, and text
    encoding and decoding.  The S-boxes and the key schedule are arbitrary: encoding and
    decoding agree whatever they are. */
module Des {
  import opened Prelude

  type Word = bv32
  type Byte = bv8

  // ---- the permutations ----------------------------------------------------------------------

  datatype Pair<T> = Pair(x: T, y: T)

  type Halves = Pair<Word>

  /** The steps of DES_IP and DES_FP: bits of one half change places with bits of the other. */
  function Swap4(h: Halves): Halves {
    var t := ((h.x >> 4) ^ h.y) & 0x0F0F0F0F;
    Pair(h.x ^ (t << 4), h.y ^ t)
  }

  function Swap16(h: Halves): Halves {
    var t := ((h.x >> 16) ^ h.y) & 0x0000FFFF;
    Pair(h.x ^ (t << 16), h.y ^ t)
  }

  function Swap2(h: Halves): Halves {
    var t := ((h.y >> 2) ^ h.x) & 0x33333333;
    Pair(h.x ^ t, h.y ^ (t << 2))
  }

  function Swap8(h: Halves): Halves {
    var t := ((h.y >> 8) ^ h.x) & 0x00FF00FF;
    Pair(h.x ^ t, h.y ^ (t << 8))
  }

  function SwapOdd(h: Halves): Halves {
    var t := (h.x ^ h.y) & 0xAAAAAAAA;
    Pair(h.x ^ t, h.y ^ t)
  }

  function Rotl1(w: Word): Word { (w << 1) | (w >> 31) }

  function Rotr1(w: Word): Word { (w << 31) | (w >> 1) }

  function Rotr4(w: Word): Word { (w << 28) | (w >> 4) }

  lemma Swap4Twice(h: Halves)
    ensures Swap4(Swap4(h)) == h
  {
  }

  lemma Swap16Twice(h: Halves)
    ensures Swap16(Swap16(h)) == h
  {
  }

  lemma Swap2Twice(h: Halves)
    ensures Swap2(Swap2(h)) == h
  {
  }

  lemma Swap8Twice(h: Halves)
    ensures Swap8(Swap8(h)) == h
  {
  }

  lemma SwapOddTwice(h: Halves)
    ensures SwapOdd(SwapOdd(h)) == h
  {
  }

  lemma Rotations(w: Word)
    ensures Rotr1(Rotl1(w)) == w && Rotl1(Rotr1(w)) == w
  {
  }

  function Mixed(h: Halves): Halves { Swap8(Swap2(Swap16(Swap4(h)))) }

  function Unmixed(h: Halves): Halves { Swap4(Swap16(Swap2(Swap8(h)))) }

  function Turned(h: Halves): Halves {
    var o := SwapOdd(Pair(h.x, Rotl1(h.y)));
    Pair(Rotl1(o.x), o.y)
  }

  function Unturned(h: Halves): Halves {
    var o := SwapOdd(Pair(Rotr1(h.x), h.y));
    Pair(o.x, Rotr1(o.y))
  }

  /** DES_IP */
  function InitialPermutation(h: Halves): Halves { Turned(Mixed(h)) }

  /** DES_FP */
  function FinalPermutation(h: Halves): Halves { Unmixed(Unturned(h)) }

  lemma UnmixedMixed(h: Halves)
    ensures Unmixed(Mixed(h)) == h && Mixed(Unmixed(h)) == h
  {
    Swap4Twice(h);
    Swap16Twice(Swap4(h));
    Swap2Twice(Swap16(Swap4(h)));
    Swap8Twice(Swap2(Swap16(Swap4(h))));
    Swap8Twice(h);
    Swap2Twice(Swap8(h));
    Swap16Twice(Swap2(Swap8(h)));
    Swap4Twice(Swap16(Swap2(Swap8(h))));
  }

  lemma UnturnedTurned(h: Halves)
    ensures Unturned(Turned(h)) == h && Turned(Unturned(h)) == h
  {
    Rotations(h.x);
    Rotations(h.y);
    SwapOddTwice(Pair(h.x, Rotl1(h.y)));
    SwapOddTwice(Pair(Rotr1(h.x), h.y));
    var o, u := SwapOdd(Pair(h.x, Rotl1(h.y))), SwapOdd(Pair(Rotr1(h.x), h.y));
    Rotations(o.x);
    Rotations(u.y);
  }

  lemma PermutationsUndo(h: Halves)
    ensures FinalPermutation(InitialPermutation(h)) == h
    ensures InitialPermutation(FinalPermutation(h)) == h
  {
    UnmixedMixed(h);
    UnturnedTurned(Mixed(h));
    UnturnedTurned(h);
    UnmixedMixed(Unturned(h));
  }

  // ---- the rounds --------------------------------------------------------------------------------

  /** The eight tables SB1 to SB8, looked up by number and index. */
  type Boxes = (nat, Word) -> Word

  type Schedule = sk: seq<Word> | |sk| == 32 witness seq(32, _ => 0)

  /** What the tables give for the eight words cut out of two words t and u. */
  function Lookups(sb: Boxes, t8: Word, t6: Word, t4: Word, t2: Word, u7: Word, u5: Word, u3: Word, u1: Word): Word {
    (sb(8, t8) ^ sb(6, t6) ^ sb(4, t4) ^ sb(2, t2)) ^ (sb(7, u7) ^ sb(5, u5) ^ sb(3, u3) ^ sb(1, u1))
  }

  /** What DES_ROUND adds to Y for half x, with the two subkey words k0 and k1. */
  function Mix(sb: Boxes, k0: Word, k1: Word, x: Word): Word {
    var t, u := k0 ^ x, k1 ^ Rotr4(x);
    Lookups(sb, t & 0x3F, (t >> 8) & 0x3F, (t >> 16) & 0x3F, (t >> 24) & 0x3F,
            u & 0x3F, (u >> 8) & 0x3F, (u >> 16) & 0x3F, (u >> 24) & 0x3F)
  }

  /** A round's mixing of two subkey words with a half. */
  type Mixer = (Word, Word, Word) -> Word

  function MixerOf(sb: Boxes): Mixer { (k0, k1, x) => Mix(sb, k0, k1, x) }

  /** The mixing in each round, by round number. */
  function RoundsOf(mix: Mixer, sk: Schedule): (nat, Word) -> Word {
    (i: nat, x: Word) => if 2 * i + 1 < |sk| then mix(sk[2 * i], sk[2 * i + 1], x) else 0
  }

  function Xor(a: Word, b: Word): Word { a ^ b }

  lemma XorTwice(a: Word, b: Word)
    ensures Xor(Xor(a, b), b) == a
  {
  }

  /** The state after the first n rounds: DES_ROUND(Y, X) and DES_ROUND(X, Y) in turn, each
      adding what g makes of one half to the other.  What addition is does not matter here,
      as long as adding twice changes nothing. */
  function Rounds<T>(xor: (T, T) -> T, g: (nat, T) -> T, h: Pair<T>, n: nat): Pair<T>
    decreases n, h
  {
    if n == 0 then h
    else
      var p := Rounds(xor, g, h, n - 1);
      if (n - 1) % 2 == 0 then Pair(xor(p.x, g(n - 1, p.y)), p.y) else Pair(p.x, xor(p.y, g(n - 1, p.x)))
  }

  function Crossed<T>(h: Pair<T>): Pair<T> { Pair(h.y, h.x) }

  ghost predicate TwiceIsNothing<T(!new)>(xor: (T, T) -> T) {
    forall a, b :: xor(xor(a, b), b) == a
  }

  /** Rounds in reverse order take the crossed result back, one by one. */
  lemma {:induction false} RoundsUndo<T(!new)>(xor: (T, T) -> T, g: (nat, T) -> T, back: (nat, T) -> T, h: Pair<T>, n: nat)
    requires n <= 16 && TwiceIsNothing(xor)
    requires forall i, x :: 0 <= i < 16 ==> back(i, x) == g(15 - i, x)
    ensures Rounds(xor, back, Crossed(Rounds(xor, g, h, 16)), n) == Crossed(Rounds(xor, g, h, 16 - n))
  {
    if n > 0 {
      RoundsUndo(xor, g, back, h, n - 1);
      var r := 16 - n;
      var p := Rounds(xor, g, h, r);
      assert back(n - 1, p.x) == g(r, p.x) && back(n - 1, p.y) == g(r, p.y);
      assert Rounds(xor, g, h, r + 1) ==
             if r % 2 == 0 then Pair(xor(p.x, g(r, p.y)), p.y) else Pair(p.x, xor(p.y, g(r, p.x)));
    }
  }

  /** ldesdecode takes the subkey pairs in reverse order. */
  function Reversed(sk: Schedule): Schedule {
    seq(32, i requires 0 <= i < 32 => if i % 2 == 0 then sk[30 - i] else sk[32 - i])
  }

  lemma ReversedPairs(sk: Schedule, i: nat)
    requires i < 16
    ensures Reversed(sk)[2 * i] == sk[2 * (15 - i)] && Reversed(sk)[2 * i + 1] == sk[2 * (15 - i) + 1]
  {
  }

  lemma ReversedRounds(mix: Mixer, sk: Schedule, i: nat, x: Word)
    requires i < 16
    ensures RoundsOf(mix, Reversed(sk))(i, x) == RoundsOf(mix, sk)(15 - i, x)
  {
    ReversedPairs(sk, i);
  }

  lemma ReversedTwice(sk: Schedule)
    ensures Reversed(Reversed(sk)) == sk
  {
  }

  // ---- des_crypt ------------------------------------------------------------------------------------

  type Block = b: seq<Byte> | |b| == 8 witness [0, 0, 0, 0, 0, 0, 0, 0]

  /** GET_UINT32 */
  function GetWord(b0: Byte, b1: Byte, b2: Byte, b3: Byte): Word {
    (b0 as Word << 24) | (b1 as Word << 16) | (b2 as Word << 8) | (b3 as Word)
  }

  /** PUT_UINT32 */
  function PutWord(n: Word): (r: seq<Byte>)
    ensures |r| == 4
  {
    [(n >> 24) as Byte, ((n >> 16) & 0xFF) as Byte, ((n >> 8) & 0xFF) as Byte, (n & 0xFF) as Byte]
  }

  lemma PutGet(b0: Byte, b1: Byte, b2: Byte, b3: Byte)
    ensures PutWord(GetWord(b0, b1, b2, b3)) == [b0, b1, b2, b3]
  {
  }

  lemma GetPut(n: Word)
    ensures var r := PutWord(n); GetWord(r[0], r[1], r[2], r[3]) == n
  {
  }

  function Load(b: Block): Halves {
    Pair(GetWord(b[0], b[1], b[2], b[3]), GetWord(b[4], b[5], b[6], b[7]))
  }

  function Store(h: Halves): Block { PutWord(h.x) + PutWord(h.y) }

  lemma StoreLoad(b: Block)
    ensures Store(Load(b)) == b
  {
    PutGet(b[0], b[1], b[2], b[3]);
    PutGet(b[4], b[5], b[6], b[7]);
    assert [b[0], b[1], b[2], b[3]] + [b[4], b[5], b[6], b[7]] == b;
  }

  lemma LoadStore(h: Halves)
    ensures Load(Store(h)) == h
  {
    GetPut(h.x);
    GetPut(h.y);
    var b := Store(h);
    assert b[..4] == PutWord(h.x) && b[4..] == PutWord(h.y);
    assert forall i :: 0 <= i < 4 ==> b[i] == PutWord(h.x)[i] && b[4 + i] == PutWord(h.y)[i];
  }

  const XorOf: (Word, Word) -> Word := (a, b) => Xor(a, b)

  /** des_crypt */
  function Crypt(mix: Mixer, sk: Schedule, input: Block): Block {
    var h := Rounds(XorOf, RoundsOf(mix, sk), InitialPermutation(Load(input)), 16);
    Store(FinalPermutation(Crossed(h)))
  }

  /** With the subkeys reversed, des_crypt takes back what it did, whatever the mixing. */
  lemma CryptUndoes(mix: Mixer, sk: Schedule, input: Block)
    ensures Crypt(mix, Reversed(sk), Crypt(mix, sk, input)) == input
  {
    var g, back := RoundsOf(mix, sk), RoundsOf(mix, Reversed(sk));
    var start := InitialPermutation(Load(input));
    var crossed := Crossed(Rounds(XorOf, g, start, 16));
    LoadStore(FinalPermutation(crossed));
    PermutationsUndo(crossed);
    forall a, b ensures XorOf(XorOf(a, b), b) == a { XorTwice(a, b); }
    forall i, x | 0 <= i < 16 ensures back(i, x) == g(15 - i, x) { ReversedRounds(mix, sk, i, x); }
    RoundsUndo(XorOf, g, back, start, 16);
    PermutationsUndo(Load(input));
    StoreLoad(input);
  }

  /** In particular with the mixing of DES_ROUND, whatever the eight tables hold. */
  lemma DesUndoes(sb: Boxes, sk: Schedule, input: Block)
    ensures Crypt(MixerOf(sb), Reversed(sk), Crypt(MixerOf(sb), sk, input)) == input
  {
    CryptUndoes(MixerOf(sb), sk, input);
  }
}
