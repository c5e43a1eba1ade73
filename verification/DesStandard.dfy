/** des_crypt against the text of FIPS 46-3: the tables IP, IP^-1 and E, bit by bit, and
    the sixteen rounds as a sequence of states. */
module DesStandard {
  import opened Prelude
  import opened Des

  /** Rows of bit positions; bit 1 is the leftmost. */
  type Table = seq<seq<nat>>

  const IP: Table := [
    [58, 50, 42, 34, 26, 18, 10, 2],
    [60, 52, 44, 36, 28, 20, 12, 4],
    [62, 54, 46, 38, 30, 22, 14, 6],
    [64, 56, 48, 40, 32, 24, 16, 8],
    [57, 49, 41, 33, 25, 17, 9, 1],
    [59, 51, 43, 35, 27, 19, 11, 3],
    [61, 53, 45, 37, 29, 21, 13, 5],
    [63, 55, 47, 39, 31, 23, 15, 7]]

  const FP: Table := [
    [40, 8, 48, 16, 56, 24, 64, 32],
    [39, 7, 47, 15, 55, 23, 63, 31],
    [38, 6, 46, 14, 54, 22, 62, 30],
    [37, 5, 45, 13, 53, 21, 61, 29],
    [36, 4, 44, 12, 52, 20, 60, 28],
    [35, 3, 43, 11, 51, 19, 59, 27],
    [34, 2, 42, 10, 50, 18, 58, 26],
    [33, 1, 41, 9, 49, 17, 57, 25]]

  /** The groups of six bits that E makes of a half. */
  const E: Table := [
    [32, 1, 2, 3, 4, 5],
    [4, 5, 6, 7, 8, 9],
    [8, 9, 10, 11, 12, 13],
    [12, 13, 14, 15, 16, 17],
    [16, 17, 18, 19, 20, 21],
    [20, 21, 22, 23, 24, 25],
    [24, 25, 26, 27, 28, 29],
    [28, 29, 30, 31, 32, 1]]

  predicate WordBit(w: Word, n: nat) {
    match n
    case 1 => w & 0x80000000 != 0
    case 2 => w & 0x40000000 != 0
    case 3 => w & 0x20000000 != 0
    case 4 => w & 0x10000000 != 0
    case 5 => w & 0x08000000 != 0
    case 6 => w & 0x04000000 != 0
    case 7 => w & 0x02000000 != 0
    case 8 => w & 0x01000000 != 0
    case 9 => w & 0x00800000 != 0
    case 10 => w & 0x00400000 != 0
    case 11 => w & 0x00200000 != 0
    case 12 => w & 0x00100000 != 0
    case 13 => w & 0x00080000 != 0
    case 14 => w & 0x00040000 != 0
    case 15 => w & 0x00020000 != 0
    case 16 => w & 0x00010000 != 0
    case 17 => w & 0x00008000 != 0
    case 18 => w & 0x00004000 != 0
    case 19 => w & 0x00002000 != 0
    case 20 => w & 0x00001000 != 0
    case 21 => w & 0x00000800 != 0
    case 22 => w & 0x00000400 != 0
    case 23 => w & 0x00000200 != 0
    case 24 => w & 0x00000100 != 0
    case 25 => w & 0x00000080 != 0
    case 26 => w & 0x00000040 != 0
    case 27 => w & 0x00000020 != 0
    case 28 => w & 0x00000010 != 0
    case 29 => w & 0x00000008 != 0
    case 30 => w & 0x00000004 != 0
    case 31 => w & 0x00000002 != 0
    case _ => w & 0x00000001 != 0
  }

  /** Bit n of 64. */
  predicate PairBit(h: Halves, n: nat) {
    if n <= 32 then WordBit(h.x, n) else WordBit(h.y, n - 32)
  }

  predicate Square(t: Table) { |t| == 8 && forall r :: 0 <= r < 8 ==> |t[r]| == 8 }

  lemma TablesSquare()
    ensures Square(IP) && Square(FP)
  {
  }

  /** The code keeps the halves rotated left by one bit. */
  function Plain(h: Halves): Halves { Pair(Rotr1(h.x), Rotr1(h.y)) }

  lemma InitialAt(h: Halves, r: nat, c: nat)
    requires r < 8 && c < 8
    ensures Square(IP) && PairBit(Plain(InitialPermutation(h)), 8 * r + c + 1) == PairBit(h, IP[r][c])
  {
    assert r == 0 || r == 1 || r == 2 || r == 3 || r == 4 || r == 5 || r == 6 || r == 7;
    assert c == 0 || c == 1 || c == 2 || c == 3 || c == 4 || c == 5 || c == 6 || c == 7;
  }

  lemma FinalAt(h: Halves, r: nat, c: nat)
    requires r < 8 && c < 8
    ensures Square(FP) && PairBit(FinalPermutation(h), 8 * r + c + 1) == PairBit(Plain(h), FP[r][c])
  {
    assert r == 0 || r == 1 || r == 2 || r == 3 || r == 4 || r == 5 || r == 6 || r == 7;
    assert c == 0 || c == 1 || c == 2 || c == 3 || c == 4 || c == 5 || c == 6 || c == 7;
  }

  // ---- blocks ----------------------------------------------------------------------------------

  predicate ByteBit(b: Byte, n: nat) {
    match n
    case 1 => b & 0x80 != 0
    case 2 => b & 0x40 != 0
    case 3 => b & 0x20 != 0
    case 4 => b & 0x10 != 0
    case 5 => b & 0x08 != 0
    case 6 => b & 0x04 != 0
    case 7 => b & 0x02 != 0
    case _ => b & 0x01 != 0
  }

  /** Bit n of a block's 64. */
  predicate BlockBit(b: Block, n: nat)
    requires 1 <= n <= 64
  {
    ByteBit(b[(n - 1) / 8], (n - 1) % 8 + 1)
  }

  /** GET_UINT32 takes the bits in order. */
  lemma LoadBitAt(b: Block, r: nat, c: nat, n: nat)
    requires r < 8 && 1 <= c <= 8 && n == 8 * r + c
    ensures PairBit(Load(b), n) == ByteBit(b[r], c)
  {
    assert r == 0 || r == 1 || r == 2 || r == 3 || r == 4 || r == 5 || r == 6 || r == 7;
    assert c == 1 || c == 2 || c == 3 || c == 4 || c == 5 || c == 6 || c == 7 || c == 8;
  }

  lemma LoadBit(b: Block, n: nat)
    requires 1 <= n <= 64
    ensures PairBit(Load(b), n) == BlockBit(b, n)
  {
    LoadBitAt(b, (n - 1) / 8, (n - 1) % 8 + 1, n);
  }

  lemma StoreBit(h: Halves, n: nat)
    requires 1 <= n <= 64
    ensures BlockBit(Store(h), n) == PairBit(h, n)
  {
    LoadStore(h);
    LoadBit(Store(h), n);
  }

  // ---- the rounds ------------------------------------------------------------------------------

  /** A round's function of a half, without the rotation that the code keeps. */
  function Around(mix: Mixer, sk: Schedule, i: nat, r: Word): Word
    requires i < 16
  {
    Rotr1(mix(sk[2 * i], sk[2 * i + 1], Rotl1(r)))
  }

  /** The sixteen rounds, one after the other. */
  ghost predicate InRounds(mix: Mixer, sk: Schedule, states: seq<Halves>) {
    && |states| == 17
    && forall i :: 0 <= i < 16 ==>
         states[i + 1] == Pair(states[i].y, Xor(states[i].x, Around(mix, sk, i, states[i].y)))
  }

  lemma Rotated(a: Word, b: Word)
    ensures Rotr1(Xor(a, b)) == Xor(Rotr1(a), Rotr1(b))
  {
  }

  /** DES_ROUND leaves the halves where they are, so they stand crossed after odd rounds. */
  lemma {:induction false} RoundsAre(mix: Mixer, sk: Schedule, h: Halves, states: seq<Halves>, n: nat)
    requires n <= 16 && InRounds(mix, sk, states) && states[0] == Plain(h)
    ensures var p := Plain(Rounds(XorOf, RoundsOf(mix, sk), h, n));
            states[n] == if n % 2 == 0 then p else Crossed(p)
  {
    if n > 0 {
      RoundsAre(mix, sk, h, states, n - 1);
      var p, g := Rounds(XorOf, RoundsOf(mix, sk), h, n - 1), RoundsOf(mix, sk);
      Rotations(p.x);
      Rotations(p.y);
      Rotated(p.x, g(n - 1, p.y));
      Rotated(p.y, g(n - 1, p.x));
      assert states[n - 1 + 1] == Pair(states[n - 1].y, Xor(states[n - 1].x, Around(mix, sk, n - 1, states[n - 1].y)));
    }
  }

  // ---- the function of a round ------------------------------------------------------------------

  /** Bit c of the j-th group of six: a bit of the expanded half with one of the subkey,
      whose groups lie in the low six bits of the bytes of k1 and k0 in turn. */
  predicate GroupBit(k0: Word, k1: Word, r: Word, j: nat, c: nat)
    requires j < 8 && c < 6
  {
    |E[j]| == 6 && WordBit(r, E[j][c]) != WordBit(if j % 2 == 0 then k1 else k0, 8 * (j / 2) + 3 + c)
  }

  /** g is the j-th group: six bits, the others are clear. */
  ghost predicate IsGroup(g: Word, k0: Word, k1: Word, r: Word, j: nat)
    requires j < 8
  {
    g <= 0x3F && forall c :: 0 <= c < 6 ==> WordBit(g, 27 + c) == GroupBit(k0, k1, r, j, c)
  }

  /** What the eight tables give for their groups, added up. */
  function Tables(sb: Boxes, g: seq<Word>): Word
    requires |g| == 8
  {
    sb(1, g[0]) ^ sb(2, g[1]) ^ sb(3, g[2]) ^ sb(4, g[3]) ^ sb(5, g[4]) ^ sb(6, g[5]) ^ sb(7, g[6]) ^ sb(8, g[7])
  }

  /** The function of a round: the eight tables are looked up for the eight groups.  The
      tables hold the boxes' outputs permuted and rotated left by one bit. */
  ghost predicate IsFeistel(sb: Boxes, k0: Word, k1: Word, r: Word, f: Word) {
    exists g: seq<Word> ::
      && |g| == 8 && (forall j :: 0 <= j < 8 ==> IsGroup(g[j], k0, k1, r, j))
      && f == Rotr1(Tables(sb, g))
  }

  function CutOut(v: Word, i: nat): Word {
    match i
    case 0 => (v >> 24) & 0x3F
    case 1 => (v >> 16) & 0x3F
    case 2 => (v >> 8) & 0x3F
    case _ => v & 0x3F
  }

  /** What DES_ROUND cuts out of the half: out of it as it is, or turned back by four bits. */
  function Cut(k0: Word, k1: Word, x: Word, j: nat): Word {
    CutOut(if j % 2 == 0 then k1 ^ Rotr4(x) else k0 ^ x, j / 2)
  }

  lemma CutFirst(k0: Word, k1: Word, r: Word, j: nat, c: nat)
    requires 0 <= j <= 3 && c < 6
    ensures WordBit(Cut(k0, k1, Rotl1(r), j), 27 + c) == GroupBit(k0, k1, r, j, c)
  {
    assert j == 0 || j == 1 || j == 2 || j == 3;
    assert c == 0 || c == 1 || c == 2 || c == 3 || c == 4 || c == 5;
  }

  lemma CutLast(k0: Word, k1: Word, r: Word, j: nat, c: nat)
    requires 4 <= j <= 7 && c < 6
    ensures WordBit(Cut(k0, k1, Rotl1(r), j), 27 + c) == GroupBit(k0, k1, r, j, c)
  {
    assert j == 4 || j == 5 || j == 6 || j == 7;
    assert c == 0 || c == 1 || c == 2 || c == 3 || c == 4 || c == 5;
  }

  lemma CutShort(k0: Word, k1: Word, x: Word, j: nat)
    requires j < 8
    ensures Cut(k0, k1, x, j) <= 0x3F
  {
  }

  lemma CutIsGroup(k0: Word, k1: Word, r: Word, j: nat)
    requires j < 8
    ensures IsGroup(Cut(k0, k1, Rotl1(r), j), k0, k1, r, j)
  {
    CutShort(k0, k1, Rotl1(r), j);
    forall c | 0 <= c < 6 ensures WordBit(Cut(k0, k1, Rotl1(r), j), 27 + c) == GroupBit(k0, k1, r, j, c) {
      if j < 4 {
        CutFirst(k0, k1, r, j, c);
      } else {
        CutLast(k0, k1, r, j, c);
      }
    }
  }

  lemma EightWords(a: Word, b: Word, c: Word, d: Word, e: Word, f: Word, g: Word, h: Word)
    ensures (h ^ f ^ d ^ b) ^ (g ^ e ^ c ^ a) == a ^ b ^ c ^ d ^ e ^ f ^ g ^ h
  {
  }

  lemma LookupsAre(sb: Boxes, a: Word, b: Word, c: Word, d: Word, e: Word, f: Word, g: Word, h: Word)
    ensures Lookups(sb, h, f, d, b, g, e, c, a) ==
            sb(1, a) ^ sb(2, b) ^ sb(3, c) ^ sb(4, d) ^ sb(5, e) ^ sb(6, f) ^ sb(7, g) ^ sb(8, h)
  {
    EightWords(sb(1, a), sb(2, b), sb(3, c), sb(4, d), sb(5, e), sb(6, f), sb(7, g), sb(8, h));
  }

  lemma MixLooksUp(sb: Boxes, k0: Word, k1: Word, x: Word)
    ensures Mix(sb, k0, k1, x) ==
            Lookups(sb, Cut(k0, k1, x, 7), Cut(k0, k1, x, 5), Cut(k0, k1, x, 3), Cut(k0, k1, x, 1),
                    Cut(k0, k1, x, 6), Cut(k0, k1, x, 4), Cut(k0, k1, x, 2), Cut(k0, k1, x, 0))
  {
  }

  /** DES_ROUND adds what the j-th table gives for the j-th group of the expanded half with
      the subkey, for each of the eight groups. */
  lemma MixIsFeistel(sb: Boxes, k0: Word, k1: Word, r: Word)
    ensures IsFeistel(sb, k0, k1, r, Rotr1(Mix(sb, k0, k1, Rotl1(r))))
  {
    var g := seq(8, (j: nat) => Cut(k0, k1, Rotl1(r), j));
    forall j | 0 <= j < 8 ensures IsGroup(g[j], k0, k1, r, j) {
      CutIsGroup(k0, k1, r, j);
    }
    MixLooksUp(sb, k0, k1, Rotl1(r));
    LookupsAre(sb, g[0], g[1], g[2], g[3], g[4], g[5], g[6], g[7]);
  }

  // ---- des_crypt ---------------------------------------------------------------------------------

  /** The bits of b are those of h, taken at the positions of t. */
  ghost predicate BlockFrom(b: Block, h: Halves, t: Table)
    requires Square(t)
  {
    forall r, c :: 0 <= r < 8 && 0 <= c < 8 ==> BlockBit(b, 8 * r + c + 1) == PairBit(h, t[r][c])
  }

  /** The bits of h are those of b, taken at the positions of t. */
  ghost predicate HalvesFrom(h: Halves, b: Block, t: Table)
    requires Square(t)
  {
    forall r, c :: 0 <= r < 8 && 0 <= c < 8 ==>
      1 <= t[r][c] <= 64 && PairBit(h, 8 * r + c + 1) == BlockBit(b, t[r][c])
  }

  lemma StartIs(input: Block)
    ensures Square(IP) && HalvesFrom(Plain(InitialPermutation(Load(input))), input, IP)
  {
    TablesSquare();
    forall r, c | 0 <= r < 8 && 0 <= c < 8
      ensures 1 <= IP[r][c] <= 64 && PairBit(Plain(InitialPermutation(Load(input))), 8 * r + c + 1) == BlockBit(input, IP[r][c])
    {
      InitialAt(Load(input), r, c);
      LoadBit(input, IP[r][c]);
    }
  }

  lemma EndIs(h: Halves)
    ensures Square(FP) && BlockFrom(Store(FinalPermutation(h)), Plain(h), FP)
  {
    TablesSquare();
    forall r, c | 0 <= r < 8 && 0 <= c < 8
      ensures BlockBit(Store(FinalPermutation(h)), 8 * r + c + 1) == PairBit(Plain(h), FP[r][c])
    {
      StoreBit(FinalPermutation(h), 8 * r + c + 1);
      FinalAt(h, r, c);
    }
  }

  /** The first n states after the first. */
  function States(mix: Mixer, sk: Schedule, first: Halves, n: nat): (states: seq<Halves>)
    requires n <= 16
    ensures |states| == n + 1 && states[0] == first
    ensures forall i :: 0 <= i < n ==>
              states[i + 1] == Pair(states[i].y, Xor(states[i].x, Around(mix, sk, i, states[i].y)))
  {
    if n == 0 then [first]
    else
      var before := States(mix, sk, first, n - 1);
      before + [Pair(before[n - 1].y, Xor(before[n - 1].x, Around(mix, sk, n - 1, before[n - 1].y)))]
  }

  /** A round of the standard: the right half goes to the left, and to the right goes the
      left half with f added bit by bit. */
  predicate IsRound(h: Halves, h': Halves, f: Word) { h'.x == h.y && h'.y == h.x ^ f }

  ghost predicate AreRounds(mix: Mixer, sk: Schedule, states: seq<Halves>) {
    && |states| == 17
    && forall i :: 0 <= i < 16 ==> IsRound(states[i], states[i + 1], Around(mix, sk, i, states[i].y))
  }

  lemma RoundIs(h: Halves, f: Word)
    ensures IsRound(h, Pair(h.y, Xor(h.x, f)), f)
  {
  }

  /** What des_crypt computes, for any function of the rounds: the input bits permuted by
      IP are the first of seventeen states; each state is that before with its right half
      on the left and, on the right, the left half with what the next two subkey words make
      of the right half; and the output bits are those of the last state, its halves
      crossed, permuted by the inverse of IP. */
  lemma CryptIsStandard(mix: Mixer, sk: Schedule, input: Block)
    ensures Square(IP) && Square(FP)
    ensures exists states ::
              && AreRounds(mix, sk, states) && HalvesFrom(states[0], input, IP)
              && BlockFrom(Crypt(mix, sk, input), Crossed(states[16]), FP)
  {
    TablesSquare();
    var start := InitialPermutation(Load(input));
    StartIs(input);
    var states := States(mix, sk, Plain(start), 16);
    RoundsAre(mix, sk, start, states, 16);
    var last := Crossed(Rounds(XorOf, RoundsOf(mix, sk), start, 16));
    assert Plain(last) == Crossed(states[16]);
    EndIs(last);
    forall i | 0 <= i < 16 ensures IsRound(states[i], states[i + 1], Around(mix, sk, i, states[i].y)) {
      RoundIs(states[i], Around(mix, sk, i, states[i].y));
    }
  }

  ghost predicate AreDesRounds(sb: Boxes, sk: Schedule, states: seq<Halves>) {
    && |states| == 17
    && forall i :: 0 <= i < 16 ==> IsDesRound(sb, sk[2 * i], sk[2 * i + 1], states[i], states[i + 1])
  }

  ghost predicate IsDesRound(sb: Boxes, k0: Word, k1: Word, h: Halves, h': Halves) {
    exists f :: IsFeistel(sb, k0, k1, h.y, f) && IsRound(h, h', f)
  }

  /** In particular with DES_ROUND: each of the eight tables is looked up once a round, for
      its own group of six bits. */
  lemma DesIsStandard(sb: Boxes, sk: Schedule, input: Block)
    ensures Square(IP) && Square(FP)
    ensures exists states ::
              && AreDesRounds(sb, sk, states) && HalvesFrom(states[0], input, IP)
              && BlockFrom(Crypt(MixerOf(sb), sk, input), Crossed(states[16]), FP)
  {
    CryptIsStandard(MixerOf(sb), sk, input);
    var states: seq<Halves> :| AreRounds(MixerOf(sb), sk, states) && HalvesFrom(states[0], input, IP)
                  && BlockFrom(Crypt(MixerOf(sb), sk, input), Crossed(states[16]), FP);
    forall i | 0 <= i < 16 ensures IsDesRound(sb, sk[2 * i], sk[2 * i + 1], states[i], states[i + 1]) {
      MixIsFeistel(sb, sk[2 * i], sk[2 * i + 1], states[i].y);
      assert IsRound(states[i], states[i + 1], Around(MixerOf(sb), sk, i, states[i].y));
    }
  }
}
