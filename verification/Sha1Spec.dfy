/** SHA-1 as FIPS 180-4 defines it: padding in section 5.1.1, the constants of 4.2.1 and
    5.3.1, the functions of 4.1.1 and the hash computation of section 6.1.2. */
module Sha1Spec {

  type Word = bv32
  type Byte = bv8

  datatype Regs = Regs(a: Word, b: Word, c: Word, d: Word, e: Word)

  const Start := Regs(0x67452301, 0xEFCDAB89, 0x98BADCFE, 0x10325476, 0xC3D2E1F0)

  function Rotl1(w: Word): Word { (w << 1) | (w >> 31) }

  function Rotl5(w: Word): Word { (w << 5) | (w >> 27) }

  function Rotl30(w: Word): Word { (w << 30) | (w >> 2) }

  function Ch(x: Word, y: Word, z: Word): Word { (x & y) ^ (!x & z) }

  function Parity(x: Word, y: Word, z: Word): Word { x ^ y ^ z }

  function Maj(x: Word, y: Word, z: Word): Word { (x & y) ^ (x & z) ^ (y & z) }

  function F(t: nat, x: Word, y: Word, z: Word): Word {
    if t < 20 then Ch(x, y, z) else if t < 40 then Parity(x, y, z) else if t < 60 then Maj(x, y, z) else Parity(x, y, z)
  }

  function K(t: nat): Word {
    if t < 20 then 0x5A827999 else if t < 40 then 0x6ED9EBA1 else if t < 60 then 0x8F1BBCDC else 0xCA62C1D6
  }

  /** Four bytes as a word, most significant first. */
  function BigEndian(b0: Byte, b1: Byte, b2: Byte, b3: Byte): Word {
    (b0 as Word << 24) | (b1 as Word << 16) | (b2 as Word << 8) | (b3 as Word)
  }

  /** The message schedule of a block. */
  function W(block: seq<Byte>, t: nat): Word
    requires |block| == 64
    decreases t, |block|
  {
    if t < 16 then BigEndian(block[4 * t], block[4 * t + 1], block[4 * t + 2], block[4 * t + 3])
    else Rotl1(W(block, t - 3) ^ W(block, t - 8) ^ W(block, t - 14) ^ W(block, t - 16))
  }

  function Temp(a5: Word, f: Word, e: Word, k: Word, w: Word): Word { a5 + f + e + k + w }

  function Round(r: Regs, t: nat, w: Word): Regs {
    Regs(Temp(Rotl5(r.a), F(t, r.b, r.c, r.d), r.e, K(t), w), r.a, Rotl30(r.b), r.c, r.d)
  }

  function Rounds(r: Regs, block: seq<Byte>, t: nat): Regs
    requires |block| == 64
    decreases t, |block|
  {
    if t == 0 then r else Round(Rounds(r, block, t - 1), t - 1, W(block, t - 1))
  }

  function Compress(h: Regs, block: seq<Byte>): Regs
    requires |block| == 64
  {
    Added(h, Rounds(h, block, 80))
  }

  function Added(h: Regs, r: Regs): Regs {
    Regs(h.a + r.a, h.b + r.b, h.c + r.c, h.d + r.d, h.e + r.e)
  }

  /** The hash value after the first n blocks of m. */
  function HashBlocks(m: seq<Byte>, n: nat): Regs
    requires 64 * n <= |m|
  {
    if n == 0 then Start else Compress(HashBlocks(m, n - 1), m[64 * (n - 1)..64 * n])
  }

  /** The k bytes of n, most significant first. */
  function BytesOf(n: nat, k: nat): (r: seq<Byte>)
    ensures |r| == k
    decreases k, n
  {
    if k == 0 then [] else BytesOf(n / 256, k - 1) + [(n % 256) as Byte]
  }

  function Zeros(k: nat): (r: seq<Byte>)
    ensures |r| == k && forall i :: 0 <= i < k ==> r[i] == 0
  {
    seq(k, _ => 0)
  }

  /** A one bit, as few zero bits as bring the length to 448 modulo 512, and the bit count. */
  function Pad(m: seq<Byte>): seq<Byte> {
    m + [0x80] + Zeros((119 - |m| % 64) % 64) + BytesOf(8 * |m|, 8)
  }

  lemma PadLength(m: seq<Byte>)
    ensures |Pad(m)| % 64 == 0
  {
    PadSize(|m| / 64, |m| % 64);
  }

  lemma PadSize(q: nat, r: nat)
    requires r < 64
    ensures (64 * q + r + 1 + (119 - r) % 64 + 8) % 64 == 0
  {
    if r <= 55 {
      assert (119 - r) % 64 == 55 - r;
    } else {
      assert (119 - r) % 64 == 119 - r;
    }
  }

  function WordBytes(w: Word): seq<Byte> {
    [(w >> 24) as Byte, ((w >> 16) & 255) as Byte, ((w >> 8) & 255) as Byte, (w & 255) as Byte]
  }

  function DigestOf(h: Regs): seq<Byte> {
    WordBytes(h.a) + WordBytes(h.b) + WordBytes(h.c) + WordBytes(h.d) + WordBytes(h.e)
  }

  function Sha1(m: seq<Byte>): seq<Byte> {
    DigestOf(HashBlocks(Pad(m), |Pad(m)| / 64))
  }
}
