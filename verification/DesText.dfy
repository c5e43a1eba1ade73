/** Texts in DES (ldesencode and ldesdecode of lua-crypt.c): whole blocks and a padded tail,
    under the padding of ISO 7816-4 or that of section 6.3 of RFC 5652 (PKCS #7). */
module DesText {
  import opened Prelude
  import opened Des

  const ISO7816_4 := 0
  const PKCS7 := 1
  const ModeCount := 2

  datatype DesError = BadKeySize | BadMode | BadLength | BadText

  // ---- paddings ----------------------------------------------------------------------------

  /** The byte that PKCS #7 pads with. */
  function CountByte(n: nat): Byte
    requires n <= 8
  {
    n as Byte
  }

  lemma CountByteIs(n: nat, b: Byte)
    requires n <= 8
    ensures CountByte(n) as nat == n && (b as nat == n <==> b == CountByte(n))
  {
  }

  /** What add_padding puts after the last offset bytes of a text. */
  function Padding(mode: nat, offset: nat): (r: seq<Byte>)
    requires offset < 8
    ensures |r| == 8 - offset
  {
    if mode == ISO7816_4 then [0x80] + seq(7 - offset, _ => 0)
    else seq(8 - offset, _ => CountByte(8 - offset))
  }

  /** plain ends with the padding of length n. */
  predicate EndsWith(plain: seq<Byte>, mode: nat, n: nat) {
    1 <= n <= 8 && n <= |plain| && plain[|plain| - n..] == Padding(mode, 8 - n)
  }

  /** padding_remove_iso7816_4 */
  method RemoveIso(plain: seq<Byte>) returns (padding: nat)
    requires |plain| >= 8
    ensures padding == 0 <==> forall n :: !EndsWith(plain, ISO7816_4, n)
    ensures padding != 0 ==> EndsWith(plain, ISO7816_4, padding)
  {
    padding := 1;
    var i := 0;
    while i < 8
      invariant 0 <= i <= 8 && padding == i + 1
      invariant forall k :: |plain| - i <= k < |plain| ==> plain[k] == 0
      invariant forall n :: 1 <= n <= i ==> !EndsWith(plain, ISO7816_4, n)
    {
      var last := plain[|plain| - 1 - i];
      if last == 0 {
        NotHere(plain, i + 1);
        padding := padding + 1;
      } else if last == 0x80 {
        assert plain[|plain| - padding..] == Padding(ISO7816_4, 8 - padding);
        assert EndsWith(plain, ISO7816_4, padding);
        return;
      } else {
        NoIso(plain, i);
        break;
      }
      i := i + 1;
    }
    padding := 0;
  }

  lemma NotHere(plain: seq<Byte>, n: nat)
    requires 1 <= n <= |plain| && plain[|plain| - n] != 0x80
    ensures !EndsWith(plain, ISO7816_4, n)
  {
    assert plain[|plain| - n..][0] == plain[|plain| - n];
    assert n <= 8 ==> Padding(ISO7816_4, 8 - n)[0] == 0x80;
  }

  /** A byte that is neither zero nor the marker ends the search. */
  lemma NoIso(plain: seq<Byte>, i: nat)
    requires i < |plain| && plain[|plain| - 1 - i] != 0 && plain[|plain| - 1 - i] != 0x80
    requires forall n :: 1 <= n <= i ==> !EndsWith(plain, ISO7816_4, n)
    ensures forall n :: !EndsWith(plain, ISO7816_4, n)
  {
    forall n | i < n && n <= 8 && n <= |plain| ensures !EndsWith(plain, ISO7816_4, n) {
      assert plain[|plain| - n..][n - 1 - i] == plain[|plain| - 1 - i];
    }
  }

  /** padding_remove_pkcs7; a count above eight is refused whatever it returns. */
  method RemovePkcs7(plain: seq<Byte>) returns (padding: nat)
    requires |plain| >= 8
    ensures 1 <= padding <= 8 ==> EndsWith(plain, PKCS7, padding)
    ensures padding == 0 || padding > 8 ==> forall n :: !EndsWith(plain, PKCS7, n)
  {
    padding := plain[|plain| - 1] as nat;
    if padding > 8 {
      OnlyCount(plain);
      return;
    }
    CountByteIs(padding, plain[|plain| - 1]);
    OnlyCount(plain);
    var i := 1;
    while i < padding
      invariant 1 <= i && (padding > 0 ==> i <= padding)
      invariant forall k :: |plain| - i <= k < |plain| ==> plain[k] == CountByte(padding)
    {
      CountByteIs(padding, plain[|plain| - 1 - i]);
      if plain[|plain| - 1 - i] as nat != padding {
        NoPkcs7(plain, padding, i);
        return 0;
      }
      i := i + 1;
    }
    if padding > 0 {
      assert plain[|plain| - padding..] == Padding(PKCS7, 8 - padding);
    }
  }

  /** The last byte says how long the padding would be. */
  lemma OnlyCount(plain: seq<Byte>)
    requires |plain| >= 8
    ensures forall n :: EndsWith(plain, PKCS7, n) ==> n == plain[|plain| - 1] as nat
  {
    forall n | EndsWith(plain, PKCS7, n) ensures n == plain[|plain| - 1] as nat {
      assert plain[|plain| - n..][n - 1] == CountByte(n);
      CountByteIs(n, plain[|plain| - 1]);
    }
  }

  lemma NoPkcs7(plain: seq<Byte>, n: nat, i: nat)
    requires |plain| >= 8 && i < n <= 8 && n == plain[|plain| - 1] as nat
    requires plain[|plain| - 1 - i] != CountByte(n)
    ensures forall k :: !EndsWith(plain, PKCS7, k)
  {
    OnlyCount(plain);
    assert plain[|plain| - n..][n - 1 - i] == plain[|plain| - 1 - i];
    assert Padding(PKCS7, 8 - n)[n - 1 - i] == CountByte(n);
  }

  // ---- texts ---------------------------------------------------------------------------------

  /** des_crypt on each block. */
  function CryptAll(mix: Mixer, sk: Schedule, s: seq<Byte>): (r: seq<Byte>)
    requires |s| % 8 == 0
    ensures |r| == |s|
  {
    if s == [] then [] else CryptAll(mix, sk, s[..|s| - 8]) + Crypt(mix, sk, s[|s| - 8..])
  }

  lemma LastBlock(mix: Mixer, sk: Schedule, a: seq<Byte>, b: Block)
    requires |a| % 8 == 0
    ensures CryptAll(mix, sk, a + b) == CryptAll(mix, sk, a) + Crypt(mix, sk, b)
  {
    assert (a + b)[..|a + b| - 8] == a && (a + b)[|a + b| - 8..] == b;
  }

  lemma {:induction false} CryptAllUndoes(mix: Mixer, sk: Schedule, s: seq<Byte>)
    requires |s| % 8 == 0
    ensures CryptAll(mix, Reversed(sk), CryptAll(mix, sk, s)) == s
  {
    if s != [] {
      var front, last := s[..|s| - 8], s[|s| - 8..];
      var a, b := CryptAll(mix, sk, front), Crypt(mix, sk, last);
      assert s == front + last;
      LastBlock(mix, sk, front, last);
      CryptAllUndoes(mix, sk, front);
      CryptUndoes(mix, sk, last);
      LastBlock(mix, Reversed(sk), a, b);
    }
  }

  /** A text, padded to whole blocks. */
  function Padded(text: seq<Byte>, mode: nat): (r: seq<Byte>)
    ensures |r| % 8 == 0 && |r| > 0
  {
    text + Padding(mode, |text| % 8)
  }

  function Encoded(mix: Mixer, sk: Schedule, text: seq<Byte>, mode: nat): seq<Byte> {
    CryptAll(mix, sk, Padded(text, mode))
  }

  /** The text comes first; then 0x80 and zeros, or bytes that all are their number. */
  lemma PaddedBytes(text: seq<Byte>, mode: nat)
    ensures var r, n := Padded(text, mode), 8 - |text| % 8;
            && |r| == |text| + n && r[..|text|] == text
            && (mode == ISO7816_4 ==> r[|text|] == 0x80 && forall k :: |text| < k < |r| ==> r[k] == 0)
            && (mode != ISO7816_4 ==> forall k :: |text| <= k < |r| ==> r[k] as nat == n)
  {
    var r, n := Padded(text, mode), 8 - |text| % 8;
    forall k | |text| <= k < |r| ensures mode != ISO7816_4 ==> r[k] as nat == n {
      CountByteIs(n, r[k]);
    }
  }

  /** Block i of a code is des_crypt of block i of what is coded. */
  ghost predicate BlockCoded(mix: Mixer, sk: Schedule, s: seq<Byte>, code: seq<Byte>, i: nat) {
    8 * i + 8 <= |s| == |code| && code[8 * i..8 * i + 8] == Crypt(mix, sk, s[8 * i..8 * i + 8])
  }

  lemma {:induction false} CryptedBlock(mix: Mixer, sk: Schedule, s: seq<Byte>, i: nat)
    requires |s| % 8 == 0 && 8 * i < |s|
    ensures BlockCoded(mix, sk, s, CryptAll(mix, sk, s), i)
  {
    var front, last := s[..|s| - 8], s[|s| - 8..];
    if 8 * i == |s| - 8 {
      FinalBlock(mix, sk, s, i);
    } else {
      CryptedBlock(mix, sk, front, i);
      EarlierBlock(mix, sk, s, CryptAll(mix, sk, front), Crypt(mix, sk, last), i);
    }
  }

  lemma FinalBlock(mix: Mixer, sk: Schedule, s: seq<Byte>, i: nat)
    requires |s| == 8 * i + 8
    ensures BlockCoded(mix, sk, s, CryptAll(mix, sk, s), i)
  {
    var front, last := s[..|s| - 8], s[|s| - 8..];
    assert s[8 * i..8 * i + 8] == last;
    assert (CryptAll(mix, sk, front) + Crypt(mix, sk, last))[8 * i..8 * i + 8] == Crypt(mix, sk, last);
  }

  lemma EarlierBlock(mix: Mixer, sk: Schedule, s: seq<Byte>, code: seq<Byte>, more: Block, i: nat)
    requires |s| >= 8 && BlockCoded(mix, sk, s[..|s| - 8], code, i)
    ensures BlockCoded(mix, sk, s, code + more, i)
  {
    assert s[..|s| - 8][8 * i..8 * i + 8] == s[8 * i..8 * i + 8];
    assert (code + more)[8 * i..8 * i + 8] == code[8 * i..8 * i + 8];
  }

  lemma PaddedEnds(plain: seq<Byte>, mode: nat, n: nat)
    requires |plain| % 8 == 0 && EndsWith(plain, mode, n)
    ensures Padded(plain[..|plain| - n], mode) == plain
  {
    assert (|plain| - n) % 8 == 8 - n by {
      DivUnique(|plain| - n, 8, |plain| / 8 - 1, 8 - n);
    }
  }

  lemma EndsPadded(text: seq<Byte>, mode: nat)
    ensures EndsWith(Padded(text, mode), mode, 8 - |text| % 8)
  {
  }

  lemma OnePadding(plain: seq<Byte>, mode: nat, n: nat, k: nat)
    requires mode == ISO7816_4 || mode == PKCS7
    requires EndsWith(plain, mode, n) && EndsWith(plain, mode, k)
    ensures n == k
  {
    if mode == PKCS7 {
      PkcsByte(plain, n);
      PkcsByte(plain, k);
    } else {
      IsoBytes(plain, n);
      IsoBytes(plain, k);
    }
  }

  lemma PkcsByte(plain: seq<Byte>, n: nat)
    requires EndsWith(plain, PKCS7, n)
    ensures plain[|plain| - 1] as nat == n
  {
    assert plain[|plain| - n..][n - 1] == plain[|plain| - 1];
    CountByteIs(n, plain[|plain| - 1]);
  }

  lemma IsoBytes(plain: seq<Byte>, n: nat)
    requires EndsWith(plain, ISO7816_4, n)
    ensures plain[|plain| - n] == 0x80 && forall k :: |plain| - n < k < |plain| ==> plain[k] == 0
  {
    assert plain[|plain| - n..][0] == plain[|plain| - n];
    forall k | |plain| - n < k < |plain| ensures plain[k] == 0 {
      assert plain[|plain| - n..][k - (|plain| - n)] == plain[k];
    }
  }

  /** What is left of decrypted blocks without their padding. */
  ghost function Unpadded(plain: seq<Byte>, mode: nat): Result<seq<Byte>, DesError> {
    if n :| EndsWith(plain, mode, n) then Ok(plain[..|plain| - n]) else Err(BadText)
  }

  lemma UnpaddedIff(plain: seq<Byte>, text: seq<Byte>, mode: nat)
    requires |plain| % 8 == 0 && (mode == ISO7816_4 || mode == PKCS7)
    ensures Unpadded(plain, mode) == Ok(text) <==> plain == Padded(text, mode)
  {
    if plain == Padded(text, mode) {
      EndsPadded(text, mode);
      forall n | EndsWith(plain, mode, n) ensures plain[..|plain| - n] == text {
        OnePadding(plain, mode, n, 8 - |text| % 8);
      }
    }
    if Unpadded(plain, mode) == Ok(text) {
      var n :| EndsWith(plain, mode, n) && text == plain[..|plain| - n];
      PaddedEnds(plain, mode, n);
    }
  }

  lemma CodeIff(mix: Mixer, sk: Schedule, code: seq<Byte>, plain: seq<Byte>)
    requires |code| % 8 == 0 && |plain| % 8 == 0
    ensures CryptAll(mix, Reversed(sk), code) == plain <==> code == CryptAll(mix, sk, plain)
  {
    CryptAllUndoes(mix, sk, plain);
    CryptAllUndoes(mix, Reversed(sk), code);
    ReversedTwice(sk);
  }

  /** What ldesdecode makes of a code. */
  ghost function Decoded(mix: Mixer, sk: Schedule, code: seq<Byte>, mode: nat): Result<seq<Byte>, DesError> {
    if |code| % 8 != 0 || code == [] then Err(BadLength)
    else Unpadded(CryptAll(mix, Reversed(sk), code), mode)
  }

  /** A code decodes to a text if and only if it is the code of that text. */
  lemma DecodedIff(mix: Mixer, sk: Schedule, code: seq<Byte>, text: seq<Byte>, mode: nat)
    requires mode == ISO7816_4 || mode == PKCS7
    ensures Decoded(mix, sk, code, mode) == Ok(text) <==> code == Encoded(mix, sk, text, mode)
  {
    if |code| % 8 == 0 && code != [] {
      CodeIff(mix, sk, code, Padded(text, mode));
      UnpaddedIff(CryptAll(mix, Reversed(sk), code), text, mode);
    }
  }

  // ---- ldesencode and ldesdecode ------------------------------------------------------------------

  /** add_padding and des_crypt on the tail, then the whole code. */
  method LuaDesEncode(mix: Mixer, ks: seq<Byte> -> Schedule, key: seq<Byte>, text: seq<Byte>, mode: int)
    returns (r: Result<seq<Byte>, DesError>)
    ensures |key| != 8 ==> r == Err(BadKeySize)
    ensures |key| == 8 && !(0 <= mode < ModeCount) ==> r == Err(BadMode)
    ensures |key| == 8 && 0 <= mode < ModeCount ==> r == Ok(Encoded(mix, ks(key), text, mode))
  {
    if |key| != 8 {
      return Err(BadKeySize);
    }
    var sk := ks(key);
    var buffer, i := EncodeWhole(mix, sk, text);
    if mode < 0 || mode >= ModeCount {
      return Err(BadMode);
    }
    EncodedIs(mix, sk, text, mode, i);
    var tail := text[i..] + Padding(mode, |text| - i);
    r := Ok(buffer + Crypt(mix, sk, tail));
  }

  /** The loop over whole blocks. */
  method EncodeWhole(mix: Mixer, sk: Schedule, text: seq<Byte>) returns (buffer: seq<Byte>, i: nat)
    ensures i <= |text| < i + 8 && i % 8 == 0 && buffer == CryptAll(mix, sk, text[..i])
  {
    buffer, i := [], 0;
    while i < |text| - 7
      invariant 0 <= i <= |text| && i % 8 == 0
      invariant buffer == CryptAll(mix, sk, text[..i])
      decreases |text| - i
    {
      NextBlock(mix, sk, text, i);
      buffer := buffer + Crypt(mix, sk, text[i..i + 8]);
      i := i + 8;
    }
  }

  lemma EncodedIs(mix: Mixer, sk: Schedule, text: seq<Byte>, mode: nat, i: nat)
    requires i <= |text| < i + 8 && i % 8 == 0
    ensures Encoded(mix, sk, text, mode) ==
            CryptAll(mix, sk, text[..i]) + Crypt(mix, sk, text[i..] + Padding(mode, |text| - i))
  {
    var offset := |text| - i;
    DivUnique(|text|, 8, i / 8, offset);
    var padded := Padded(text, mode);
    assert padded[..i] == text[..i] && padded[i..i + 8] == text[i..] + Padding(mode, offset) && padded[..i + 8] == padded;
    NextBlock(mix, sk, padded, i);
  }

  lemma NextBlock(mix: Mixer, sk: Schedule, s: seq<Byte>, i: nat)
    requires i + 8 <= |s| && i % 8 == 0
    ensures (i + 8) % 8 == 0
    ensures CryptAll(mix, sk, s[..i + 8]) == CryptAll(mix, sk, s[..i]) + Crypt(mix, sk, s[i..i + 8])
  {
    assert s[..i + 8] == s[..i] + s[i..i + 8];
    LastBlock(mix, sk, s[..i], s[i..i + 8]);
  }

  /** The loop that reverses the schedule. */
  method ReverseSchedule(esk: Schedule) returns (sk: Schedule)
    ensures sk == Reversed(esk)
  {
    var a := new Word[32];
    var i := 0;
    while i < 32
      invariant 0 <= i <= 32 && i % 2 == 0
      invariant forall k :: 0 <= k < i ==> a[k] == Reversed(esk)[k]
    {
      a[i] := esk[30 - i];
      a[i + 1] := esk[31 - i];
      i := i + 2;
    }
    sk := a[..];
  }

  method LuaDesDecode(mix: Mixer, ks: seq<Byte> -> Schedule, key: seq<Byte>, code: seq<Byte>, mode: int)
    returns (r: Result<seq<Byte>, DesError>)
    ensures |key| != 8 ==> r == Err(BadKeySize)
    ensures |key| == 8 && (|code| % 8 != 0 || code == []) ==> r == Err(BadLength)
    ensures |key| == 8 && |code| % 8 == 0 && code != [] && !(0 <= mode < ModeCount) ==> r == Err(BadMode)
    ensures |key| == 8 && 0 <= mode < ModeCount ==> r == Decoded(mix, ks(key), code, mode)
  {
    if |key| != 8 {
      return Err(BadKeySize);
    }
    var sk := ReverseSchedule(ks(key));
    if |code| % 8 != 0 || code == [] {
      return Err(BadLength);
    }
    var buffer: seq<Byte> := [];
    var i := 0;
    while i < |code|
      invariant 0 <= i <= |code| && i % 8 == 0
      invariant buffer == CryptAll(mix, sk, code[..i])
    {
      NextBlock(mix, sk, code, i);
      buffer := buffer + Crypt(mix, sk, code[i..i + 8]);
      i := i + 8;
    }
    assert code[..i] == code;
    if mode < 0 || mode >= ModeCount {
      return Err(BadMode);
    }
    r := RemovePadding(buffer, mode);
  }

  method RemovePadding(plain: seq<Byte>, mode: nat) returns (r: Result<seq<Byte>, DesError>)
    requires |plain| >= 8 && mode < ModeCount
    ensures r == Unpadded(plain, mode)
  {
    var padding;
    if mode == ISO7816_4 {
      padding := RemoveIso(plain);
    } else {
      padding := RemovePkcs7(plain);
    }
    if padding <= 0 || padding > 8 {
      return Err(BadText);
    }
    forall n | EndsWith(plain, mode, n) ensures n == padding {
      OnePadding(plain, mode, n, padding);
    }
    r := Ok(plain[..|plain| - padding]);
  }
}
