/** Types and lemmas shared by the models. */
module Prelude {

  datatype Option<+T> = None | Some(value: T)

  datatype Result<+T, +E> = Ok(value: T) | Err(error: E)

  // ---- division of naturals by a variable divisor ---------------------------------

  lemma DivUnique(x: int, d: int, q: int, r: int)
    requires 0 <= r < d && x == q * d + r
    ensures x / d == q && x % d == r
  {
    var q', r' := x / d, x % d;
    assert x == d * q' + r' && 0 <= r' < d;
    assert (q - q') * d == r' - r && (q' - q) * d == r - r';
    if q - q' >= 1 {
      MulAtLeast(q - q', d);
    } else if q' - q >= 1 {
      MulAtLeast(q' - q, d);
    }
  }

  lemma MulAtLeast(a: int, d: int)
    requires a >= 1 && d >= 0
    ensures a * d >= d
  {
  }

  lemma MulAssoc(a: int, b: int, c: int)
    ensures a * (b * c) == a * b * c
  {
  }

  lemma ModStep(x: int, d: int)
    requires 0 < d
    ensures (x + d) % d == x % d && (x + d) / d == x / d + 1
  {
    assert x + d == (x / d + 1) * d + x % d;
    DivUnique(x + d, d, x / d + 1, x % d);
  }

  lemma ModOfMultiple(x: int, q: int, k: int)
    requires k > 0 && q > 0
    ensures q * k > 0 && x % (q * k) % k == x % k
  {
    MulAtLeast(q, k);
    var n := q * k;
    var d, r := x / n, x % n;
    assert x == n * d + r;
    assert r == k * (r / k) + r % k;
    MulAssoc(k, q, d);
    assert k * (q * d) == n * d;
    assert (q * d + r / k) * k == k * (q * d) + k * (r / k);
    DivUnique(x, k, q * d + r / k, r % k);
  }

  lemma WholeBlocks(x: nat, a: nat, b: nat)
    requires a > 0 && b > 0 && x % a == 0
    ensures a * b > 0 && (x / a % b == 0 <==> x % (a * b) == 0)
  {
    MulAtLeast(a, b);
    var q := x / a;
    var d, r := q / b, q % b;
    assert x == a * q && q == b * d + r;
    MulAssoc(a, b, d);
    assert a * (b * d + r) == a * (b * d) + a * r;
    assert a * r < a * b;
    DivUnique(x, a * b, d, a * r);
  }

  lemma NestedDiv(n: nat, a: nat, b: nat)
    requires a > 0 && b > 0
    ensures a * b > 0 && n / (a * b) == n / a / b
  {
    MulAtLeast(a, b);
    var q, r := n / a / b, n / a % b;
    MulAssoc(a, b, q);
    assert n / a == b * q + r && n == a * (n / a) + n % a;
    assert a * (b * q + r) == a * (b * q) + a * r;
    assert a * r <= a * (b - 1);
    DivUnique(n, a * b, q, a * r + n % a);
  }

  function Pow2(e: nat): (r: nat)
    ensures r > 0
    decreases e, e
  {
    if e == 0 then 1 else 2 * Pow2(e - 1)
  }

  // ---- what steps keep ----------------------------------------------------------------

  lemma {:induction false} Along(p: nat -> bool, a: nat, b: nat)
    requires a <= b && p(a) && forall k: nat :: a <= k < b && p(k) ==> p(k + 1)
    ensures p(b)
  {
    if a < b {
      Along(p, a, b - 1);
    }
  }

  // ---- sequences ----------------------------------------------------------------------

  lemma Assoc<T>(a: seq<T>, b: seq<T>, c: seq<T>)
    ensures a + b + c == a + (b + c)
  {
  }

  function Concat<T>(parts: seq<seq<T>>): seq<T> {
    if parts == [] then [] else Concat(parts[..|parts| - 1]) + parts[|parts| - 1]
  }

  lemma {:induction false} ConcatFirst<T>(first: seq<T>, rest: seq<seq<T>>)
    ensures Concat([first] + rest) == first + Concat(rest)
  {
    var parts := [first] + rest;
    if rest == [] {
      assert parts[..0] == [] && Concat(parts) == [] + first;
    } else {
      var n := |rest| - 1;
      assert parts[..n + 1] == [first] + rest[..n];
      ConcatFirst(first, rest[..n]);
      Assoc(first, Concat(rest[..n]), rest[n]);
    }
  }
}

/** Counting the threads of a map that have a property, as they move one at a time. */
module Counting {

  function Bit(b: bool): nat { if b then 1 else 0 }

  function Those<T>(ts: map<nat, T>, p: T -> bool): set<nat> {
    set t | t in ts && p(ts[t])
  }

  lemma MovedOne<T>(ts: map<nat, T>, t: nat, x: T, p: T -> bool)
    ensures |Those(ts[t := x], p)| + Bit(t in ts && p(ts[t])) == |Those(ts, p)| + Bit(p(x))
  {
    var a, b := Those(ts, p), Those(ts[t := x], p);
    assert b == if p(x) then a + {t} else a - {t};
  }

  lemma SomeOne<T>(ts: map<nat, T>, t: nat, p: T -> bool)
    requires t in ts && p(ts[t])
    ensures |Those(ts, p)| >= 1
    ensures |Those(ts, p)| == 1 ==> forall u :: u in ts && p(ts[u]) ==> u == t
  {
    assert t in Those(ts, p);
    if |Those(ts, p)| == 1 {
      assert |Those(ts, p) - {t}| == 0;
      forall u | u in ts && p(ts[u]) ensures u == t {
        assert u in Those(ts, p);
      }
    }
  }

  lemma NoneOf<T>(ts: map<nat, T>, p: T -> bool)
    requires forall t :: t in ts ==> !p(ts[t])
    ensures Those(ts, p) == {}
  {
  }
}
