/** The key exchange of lua-crypt.c: multiplication and exponentiation modulo the largest
    64-bit prime, in 64-bit arithmetic that wraps around. */
module DiffieHellman {
  import opened Prelude

  type Word64 = x: int | 0 <= x < 0x1_0000_0000_0000_0000

  const P: Word64 := 0xffff_ffff_ffff_ffc5

  function Add(x: Word64, y: Word64): Word64 { (x + y) % 0x1_0000_0000_0000_0000 }

  function Sub(x: Word64, y: Word64): Word64 { (x - y) % 0x1_0000_0000_0000_0000 }

  function Twice(x: Word64): Word64 { (x * 2) % 0x1_0000_0000_0000_0000 }

  function Pow(a: nat, b: nat): nat {
    if b == 0 then 1 else a * Pow(a, b - 1)
  }

  // ---- modular arithmetic, for any modulus ---------------------------------------------------

  /** x and y leave the same rest. */
  ghost predicate Same(x: int, y: int, p: int) {
    exists k :: Apart(x, y, p, k)
  }

  predicate Apart(x: int, y: int, p: int, k: int) { x == y + k * p }

  lemma SameRest(x: int, y: int, p: int)
    requires p > 0
    ensures Same(x, y, p) <==> x % p == y % p
  {
    if Same(x, y, p) {
      var k :| Apart(x, y, p, k);
      assert y == (y / p) * p + y % p;
      assert x == (y / p + k) * p + y % p by {
        assert (y / p + k) * p == (y / p) * p + k * p;
      }
      DivUnique(x, p, y / p + k, y % p);
    }
    if x % p == y % p {
      assert x == (x / p) * p + x % p && y == (y / p) * p + y % p;
      assert (x / p - y / p) * p == (x / p) * p - (y / p) * p;
      assert Apart(x, y, p, x / p - y / p);
    }
  }

  lemma SameRestOf(x: int, p: int)
    requires p > 0
    ensures Same(x % p, x, p)
  {
    assert x == (x / p) * p + x % p;
    assert (-(x / p)) * p == -((x / p) * p);
    assert Apart(x % p, x, p, -(x / p));
  }

  lemma SameTimes(a: int, b: int, c: int, d: int, p: int)
    requires Same(a, b, p) && Same(c, d, p)
    ensures Same(a * c, b * d, p)
  {
    var k :| Apart(a, b, p, k);
    var l :| Apart(c, d, p, l);
    assert a * c == b * d + (b * l) * p + (k * d) * p + (k * l * p) * p;
    assert (b * l + k * d + k * l * p) * p == (b * l) * p + (k * d) * p + (k * l * p) * p;
    assert Apart(a * c, b * d, p, b * l + k * d + k * l * p);
  }

  lemma SamePlus(a: int, b: int, c: int, d: int, p: int)
    requires Same(a, b, p) && Same(c, d, p)
    ensures Same(a + c, b + d, p)
  {
    var k :| Apart(a, b, p, k);
    var l :| Apart(c, d, p, l);
    assert (k + l) * p == k * p + l * p;
    assert Apart(a + c, b + d, p, k + l);
  }

  lemma SameSelf(x: int, p: int)
    ensures Same(x, x, p)
  {
    assert Apart(x, x, p, 0);
  }

  lemma SameTrans(x: int, y: int, z: int, p: int)
    requires Same(x, y, p) && Same(y, z, p)
    ensures Same(x, z, p)
  {
    var k :| Apart(x, y, p, k);
    var l :| Apart(y, z, p, l);
    assert (k + l) * p == k * p + l * p;
    assert Apart(x, z, p, k + l);
  }

  lemma {:induction false} SamePow(a: nat, c: nat, b: nat, p: int)
    requires Same(a, c, p)
    ensures Same(Pow(a, b), Pow(c, b), p)
  {
    if b == 0 {
      SameSelf(1, p);
    } else {
      SamePow(a, c, b - 1, p);
      SameTimes(a, c, Pow(a, b - 1), Pow(c, b - 1), p);
    }
  }

  lemma {:induction false} PowPlus(a: nat, b: nat, c: nat)
    ensures Pow(a, b + c) == Pow(a, b) * Pow(a, c)
  {
    if b > 0 {
      PowPlus(a, b - 1, c);
      MulAssoc(a, Pow(a, b - 1), Pow(a, c));
    }
  }

  lemma {:induction false} PowTimes(a: nat, b: nat, c: nat)
    ensures Pow(Pow(a, b), c) == Pow(a, b * c)
  {
    if c == 0 {
      assert b * c == 0;
    } else {
      PowTimes(a, b, c - 1);
      assert b * c == b + b * (c - 1);
      PowPlus(a, b, b * (c - 1));
    }
  }

  // ---- mul_mod_p --------------------------------------------------------------------------------

  /** One addition of a to m modulo P, as the loop does it. */
  function AddModP(m: Word64, a: Word64): Word64 {
    var t := Sub(P, a);
    if m >= t then Sub(m, t) else Add(m, a)
  }

  function DoubleModP(a: Word64): Word64 {
    if a >= Sub(P, a) then Sub(Twice(a), P) else Twice(a)
  }

  /** A difference of words that is not negative does not wrap. */
  lemma SubIs(x: Word64, y: Word64)
    ensures x >= y ==> Sub(x, y) == x - y
    ensures x < y ==> Sub(x, y) == x - y + 0x1_0000_0000_0000_0000
  {
    if x >= y {
      DivUnique(x - y, 0x1_0000_0000_0000_0000, 0, x - y);
    } else {
      DivUnique(x - y, 0x1_0000_0000_0000_0000, -1, x - y + 0x1_0000_0000_0000_0000);
    }
  }

  lemma TwiceIs(x: Word64)
    ensures Twice(x) == if 2 * x < 0x1_0000_0000_0000_0000 then 2 * x else 2 * x - 0x1_0000_0000_0000_0000
  {
    if 2 * x < 0x1_0000_0000_0000_0000 {
      DivUnique(x * 2, 0x1_0000_0000_0000_0000, 0, 2 * x);
    } else {
      DivUnique(x * 2, 0x1_0000_0000_0000_0000, 1, 2 * x - 0x1_0000_0000_0000_0000);
    }
  }

  lemma AddModPRight(m: Word64, a: Word64)
    requires m < P && a <= P
    ensures AddModP(m, a) < P && Same(AddModP(m, a), m + a, P)
  {
    SubIs(P, a);
    if m >= P - a {
      SubIs(m, P - a);
      assert Apart(m + a - P, m + a, P, -1);
    } else {
      DivUnique(m + a, 0x1_0000_0000_0000_0000, 0, m + a);
      SameSelf(m + a, P);
    }
  }

  lemma DoubleModPRight(a: Word64)
    requires a <= P
    ensures DoubleModP(a) <= P && Same(DoubleModP(a), 2 * a, P)
  {
    SubIs(P, a);
    TwiceIs(a);
    if a >= P - a {
      SubIs(Twice(a), P);
      assert Apart(2 * a - P, 2 * a, P, -1);
    } else {
      SameSelf(2 * a, P);
    }
  }

  lemma LoopStep(m: int, a: int, b: int, m': int, a': int, p: int)
    requires Same(m', if b % 2 == 1 then m + a else m, p) && Same(a', 2 * a, p)
    ensures Same(m' + a' * (b / 2), m + a * b, p)
  {
    var n := if b % 2 == 1 then m + a else m;
    SameSelf(b / 2, p);
    SameTimes(a', 2 * a, b / 2, b / 2, p);
    SamePlus(m', n, a' * (b / 2), 2 * a * (b / 2), p);
    var h := b / 2;
    assert b == 2 * h + b % 2;
    assert a * (2 * h) == 2 * a * h;
    if b % 2 == 1 {
      assert a * (2 * h + 1) == a * (2 * h) + a;
    }
  }

  /** What is still to compute stays the same, modulo P. */
  ghost predicate Pending(m: Word64, a: Word64, b: Word64, product: int) {
    m < P && a <= P && Same(m + a * b, product, P)
  }

  lemma PendingStep(m: Word64, a: Word64, b: Word64, product: int)
    requires Pending(m, a, b, product)
    ensures Pending(if b % 2 == 1 then AddModP(m, a) else m, DoubleModP(a), b / 2, product)
  {
    var m' := if b % 2 == 1 then AddModP(m, a) else m;
    AddModPRight(m, a);
    DoubleModPRight(a);
    SameSelf(m, P);
    LoopStep(m, a, b, m', DoubleModP(a), P);
    SameTrans(m' + DoubleModP(a) * (b / 2), m + a * b, product, P);
  }

  lemma PendingDone(m: Word64, a: Word64, product: int)
    requires Pending(m, a, 0, product)
    ensures m == product % P
  {
    SameRest(m, product, P);
    DivUnique(m, P, 0, m);
  }

  /** mul_mod_p: the steps that wrap around do no harm. */
  method MulModP(a0: Word64, b0: Word64) returns (m: Word64)
    requires a0 <= P
    ensures m == a0 * b0 % P
  {
    var a, b := a0, b0;
    m := 0;
    SameSelf(a0 * b0, P);
    while b != 0
      invariant Pending(m, a, b, a0 * b0)
      decreases b
    {
      PendingStep(m, a, b, a0 * b0);
      if b % 2 == 1 {
        m := AddModP(m, a);
      }
      a := DoubleModP(a);
      b := b / 2;
    }
    PendingDone(m, a, a0 * b0);
  }

  // ---- pow_mod_p ----------------------------------------------------------------------------------

  lemma PowStep(a: nat, b: nat, t: nat, p: int)
    requires p > 0 && Same(t, Pow(a, b / 2), p)
    ensures Same(t * t % p, Pow(a, 2 * (b / 2)), p)
    ensures b % 2 == 1 ==> Same((t * t % p) * a % p, Pow(a, b), p)
  {
    var h := b / 2;
    SameTimes(t, Pow(a, h), t, Pow(a, h), p);
    PowPlus(a, h, h);
    SameRestOf(t * t, p);
    SameTrans(t * t % p, t * t, Pow(a, 2 * h), p);
    if b % 2 == 1 {
      SameSelf(a, p);
      SameTimes(t * t % p, Pow(a, 2 * h), a, a, p);
      SameRestOf((t * t % p) * a, p);
      assert Pow(a, b) == a * Pow(a, 2 * h);
      SameTrans((t * t % p) * a % p, (t * t % p) * a, Pow(a, b), p);
    }
  }

  /** pow_mod_p; only an exponent of one gives a back as it is. */
  method PowModP(a: Word64, b: Word64) returns (r: Word64)
    requires a <= P && b >= 1
    ensures Same(r, Pow(a, b), P)
    ensures r <= P && (b > 1 ==> r < P) && (b == 1 ==> r == a)
    decreases b
  {
    if b == 1 {
      assert Pow(a, 1) == a * Pow(a, 0) == a;
      SameSelf(a, P);
      return a;
    }
    var t := PowModP(a, b / 2);
    PowStep(a, b, t, P);
    r := MulModP(t, t);
    if b % 2 == 1 {
      r := MulModP(r, a);
    }
  }

  /** powmodp: right except for one input, P to the power of one, which stays P. */
  method PowModp(a: Word64, b: Word64) returns (r: Word64)
    requires b >= 1
    ensures r == Pow(a, b) % P <==> !(a == P && b == 1)
    ensures a == P && b == 1 ==> r == P
  {
    var c := if a > P then a % P else a;
    SameRestOf(a, P);
    SameSelf(a, P);
    SamePow(c, a, b, P);
    r := PowModP(c, b);
    SameTrans(r, Pow(c, b), Pow(a, b), P);
    SameRest(r, Pow(a, b), P);
    if r < P {
      DivUnique(r, P, 0, r);
    }
  }

  // ---- the exchange ---------------------------------------------------------------------------------

  const Generator: Word64 := 5

  /** ldhexchange */
  method Exchange(x: Word64) returns (r: Option<Word64>)
    ensures r == None <==> x == 0
    ensures r.Some? ==> r.value == Pow(Generator, x) % P
  {
    if x == 0 {
      return None;
    }
    var e := PowModp(Generator, x);
    r := Some(e);
  }

  /** ldhsecret */
  method Secret(xx: Word64, yy: Word64) returns (r: Option<Word64>)
    ensures r == None <==> xx == 0 || yy == 0
    ensures r.Some? ==> (r.value == Pow(xx, yy) % P <==> !(xx == P && yy == 1))
  {
    if xx == 0 || yy == 0 {
      return None;
    }
    var s := PowModp(xx, yy);
    r := Some(s);
  }

  lemma PowOfRest(a: nat, x: nat, y: nat, p: int)
    requires p > 0
    ensures Pow(a, x) % p >= 0 && Pow(Pow(a, x) % p, y) % p == Pow(a, x * y) % p
  {
    SameRestOf(Pow(a, x), p);
    SamePow(Pow(a, x) % p, Pow(a, x), y, p);
    PowTimes(a, x, y);
    SameRest(Pow(Pow(a, x) % p, y), Pow(a, x * y), p);
  }

  /** The generator has an inverse, so none of its powers is zero modulo P. */
  lemma {:induction false} NeverZero(x: nat)
    ensures Pow(Generator, x) % P != 0
  {
    if Pow(Generator, x) % P == 0 {
      if x == 0 {
        DivUnique(1, P, 0, 1);
      } else {
        Cancel(Pow(Generator, x - 1));
        NeverZero(x - 1);
      }
    }
  }

  lemma Cancel(k: nat)
    requires 5 * k % P == 0
    ensures k % P == 0
  {
    var q := 5 * k / P;
    assert 5 * k == P * q;
  }

  /** Both sides of an exchange with non-zero 64-bit exponents come to the same secret. */
  method Agree(x: Word64, y: Word64) returns (left: Word64, right: Word64)
    requires x != 0 && y != 0
    ensures left == right == Pow(Generator, x * y) % P
  {
    var ex := Exchange(x);
    var ey := Exchange(y);
    NeverZero(x);
    NeverZero(y);
    PowOfRest(Generator, x, y, P);
    PowOfRest(Generator, y, x, P);
    var l := Secret(ey.value, x);
    var r := Secret(ex.value, y);
    assert x * y == y * x;
    left, right := l.value, r.value;
  }
}
