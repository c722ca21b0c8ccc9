/** Whole numbers as 64-bit floats: which are representable, and rounding of an
  integer to the nearest representable one, ties to even. */
module Float64 {

  const TWO_53: nat := 0x20_0000_0000_0000
  const TWO_52: nat := 0x10_0000_0000_0000

  function Pow2(e: nat): (p: nat)
    ensures p >= 1
  {
    if e == 0 then 1 else 2 * Pow2(e - 1)
  }

  /** 53 bits of significand, any exponent (overflow is far away from i64). */
  ghost predicate Representable(a: nat) {
    exists m: nat, e: nat :: IsScaled(a, m, e)
  }

  predicate IsScaled(a: nat, m: nat, e: nat) {
    a == m * Pow2(e) && m < TWO_53
  }

  /** How often `u` goes into `a`. */
  function Quotient(a: nat, u: nat): nat
    requires u >= 1
  {
    if a < u then 0 else 1 + Quotient(a - u, u)
  }

  lemma {:induction false} Split(a: nat, u: nat)
    requires u >= 1
    ensures Quotient(a, u) * u <= a < Quotient(a, u) * u + u
  {
    if a >= u {
      Split(a - u, u);
      OneMore(Quotient(a - u, u), u);
    }
  }

  /** Nearest multiple of the unit 2^k, ties to the even multiple. */
  function NearestMultiple(a: nat, k: nat): nat {
    var u := Pow2(k);
    var q := Quotient(a, u);
    var r := a - q * u;
    if 2 * r < u || (2 * r == u && q % 2 == 0) then q * u else (q + 1) * u
  }

  /** Doubles the unit until 53 bits are enough. */
  function RoundFrom(a: nat, k: nat): nat
    decreases a - TWO_53 * Pow2(k)
  {
    if a < TWO_53 * Pow2(k) then NearestMultiple(a, k) else RoundFrom(a, k + 1)
  }

  function RoundNat(a: nat): nat {
    RoundFrom(a, 0)
  }

  function Round(i: int): int {
    if i >= 0 then RoundNat(i) else -(RoundNat(-i) as int)
  }

  ghost predicate RepresentableInt(i: int) {
    Representable(if i >= 0 then i else -i)
  }

  /** The unit that rounding settles on. */
  lemma {:induction false} Unit(a: nat, k: nat) returns (t: nat)
    requires k == 0 || TWO_52 * Pow2(k) <= a
    ensures t >= k && a < TWO_53 * Pow2(t) && (t == 0 || TWO_52 * Pow2(t) <= a)
    ensures RoundFrom(a, k) == NearestMultiple(a, t)
    decreases a - TWO_53 * Pow2(k)
  {
    if a < TWO_53 * Pow2(k) {
      t := k;
    } else {
      t := Unit(a, k + 1);
    }
  }

  lemma {:induction false} Pow2Sum(a: nat, b: nat)
    ensures Pow2(a + b) == Pow2(a) * Pow2(b)
  {
    if a > 0 {
      Pow2Sum(a - 1, b);
    }
  }

  lemma {:induction false} Pow2Grows(a: nat, b: nat)
    requires a <= b
    ensures Pow2(a) <= Pow2(b)
  {
    if a < b {
      Pow2Grows(a, b - 1);
    }
  }

  lemma Scale(a: nat, b: nat, u: nat)
    requires a <= b
    ensures a * u <= b * u
  {}

  lemma OneMore(q: nat, u: nat)
    ensures (q + 1) * u == q * u + u
  {}

  lemma OneQuotient(c: nat, d: nat, r: nat, u: nat)
    requires c * u == d * u + r && r < u
    ensures c == d && r == 0
  {
    OneMore(c, u);
    OneMore(d, u);
    if c > d { Scale(d + 1, c, u); }
    if c < d { Scale(c + 1, d, u); }
  }

  lemma MultipleIsKept(a: nat, k: nat, c: nat)
    requires a == c * Pow2(k)
    ensures NearestMultiple(a, k) == a
  {
    Split(a, Pow2(k));
    OneQuotient(c, Quotient(a, Pow2(k)), a - Quotient(a, Pow2(k)) * Pow2(k), Pow2(k));
  }

  /** Representable numbers are not changed. */
  lemma RoundKeepsRepresentable(a: nat)
    requires Representable(a)
    ensures RoundNat(a) == a
  {
    var m: nat, e: nat :| IsScaled(a, m, e);
    var t := Unit(a, 0);
    if t > e {
      Pow2Sum(t - e - 1, e);
      Pow2Grows(e + 1, t);
      Products(m, TWO_53, Pow2(e));
      assert false;
    }
    Pow2Sum(e - t, t);
    assert a == (m * Pow2(e - t)) * Pow2(t) by { Associate(m, Pow2(e - t), Pow2(t)); }
    MultipleIsKept(a, t, m * Pow2(e - t));
  }

  lemma Products(m: nat, bound: nat, p: nat)
    requires m < bound && p >= 1
    ensures m * p < bound * p
  {}

  lemma Associate(a: nat, b: nat, c: nat)
    ensures a * (b * c) == (a * b) * c
  {}

  /** Rounding gives a representable number. */
  lemma RoundIsRepresentable(a: nat)
    ensures Representable(RoundNat(a))
  {
    var t := Unit(a, 0);
    var u := Pow2(t);
    var q := Quotient(a, u);
    assert q < TWO_53 by { QuotientBelow(a, u, TWO_53); }
    if RoundNat(a) == q * u {
      assert IsScaled(RoundNat(a), q, t);
    } else if q + 1 < TWO_53 {
      assert IsScaled(RoundNat(a), q + 1, t);
    } else {
      assert RoundNat(a) == TWO_53 * u == TWO_52 * Pow2(t + 1);
      assert IsScaled(RoundNat(a), TWO_52, t + 1);
    }
  }

  lemma QuotientBelow(a: nat, u: nat, bound: nat)
    requires u >= 1 && a < bound * u
    ensures Quotient(a, u) < bound
  {
    Split(a, u);
    if Quotient(a, u) >= bound { Scale(bound, Quotient(a, u), u); }
  }

  lemma ExactIff(i: int)
    ensures Round(i) == i <==> RepresentableInt(i)
  {
    var a := if i >= 0 then i else -i;
    if Representable(a) { RoundKeepsRepresentable(a); }
    RoundIsRepresentable(a);
  }

  function Distance(a: nat, b: nat): nat {
    if a < b then b - a else a - b
  }

  /** No representable number is nearer. */
  lemma RoundIsNearest(a: nat, y: nat)
    requires Representable(y)
    ensures Distance(RoundNat(a), a) <= Distance(y, a)
  {
    var m: nat, e: nat :| IsScaled(y, m, e);
    var t := Unit(a, 0);
    if e >= t {
      Pow2Sum(e - t, t);
      Associate(m, Pow2(e - t), Pow2(t));
      NearestOfMultiples(a, Pow2(t), m * Pow2(e - t), t);
    } else {
      Pow2Sum(t - 1 - e, e);
      Pow2Grows(e, t - 1);
      SmallerBinade(m, e, t);
      NearestOfMultiples(a, Pow2(t), TWO_52, t);
    }
  }

  lemma SmallerBinade(m: nat, e: nat, t: nat)
    requires m < TWO_53 && e < t
    ensures m * Pow2(e) <= TWO_52 * Pow2(t)
  {
    Pow2Grows(e, t - 1);
    Products(m, TWO_53, Pow2(e));
    assert TWO_53 * Pow2(e) <= TWO_53 * Pow2(t - 1) == TWO_52 * Pow2(t);
  }

  lemma NearestOfMultiples(a: nat, u: nat, c: nat, t: nat)
    requires u == Pow2(t)
    ensures Distance(NearestMultiple(a, t), a) <= Distance(c * u, a)
  {
    Split(a, u);
    var q := Quotient(a, u);
    var r := a - q * u;
    OneMore(q, u);
    if c <= q { Scale(c, q, u); } else { Scale(q + 1, c, u); }
    NearerNeighbour(a, q * u, (q + 1) * u, r, u, c * u, NearestMultiple(a, t));
  }

  lemma NearerNeighbour(a: nat, below: nat, above: nat, r: nat, u: nat, y: nat, near: nat)
    requires a == below + r && r < u && above == below + u
    requires near == below || near == above
    requires near == below ==> 2 * r <= u
    requires near == above ==> 2 * r >= u
    requires y <= below || y >= above
    ensures Distance(near, a) <= Distance(y, a)
  {}
  lemma SameQuotient(c: nat, d: nat, r: nat, s: nat, u: nat)
    requires c * u + r == d * u + s && r < u && s < u
    ensures c == d && r == s
  {
    OneMore(c, u);
    OneMore(d, u);
    if c > d { Scale(d + 1, c, u); }
    if c < d { Scale(c + 1, d, u); }
  }

  lemma OneUnit(a: nat, k: nat, t: nat)
    requires a < TWO_53 * Pow2(k) && (k == 0 || TWO_52 * Pow2(k) <= a)
    requires a < TWO_53 * Pow2(t) && TWO_52 * Pow2(t) <= a
    ensures k == t
  {
    if k < t { Pow2Grows(k + 1, t); }
  }

  lemma HalfWay(q: nat, t: nat)
    requires TWO_52 <= q < TWO_53
    ensures var a, u := (2 * q + 1) * Pow2(t), Pow2(t + 1);
      a == q * u + Pow2(t) && TWO_52 * u <= a < TWO_53 * u && u == 2 * Pow2(t)
  {
    var u := Pow2(t + 1);
    Associate(q, 2, Pow2(t));
    Scale(TWO_52, q, u);
    Scale(q + 1, TWO_53, u);
    OneMore(q, u);
  }

  /** Half-way between two neighbours with 53 bits, the even one is taken. */
  lemma TiesGoToEven(q: nat, t: nat)
    requires TWO_52 <= q < TWO_53
    ensures RoundNat((2 * q + 1) * Pow2(t)) == (if q % 2 == 0 then q else q + 1) * Pow2(t + 1)
  {
    var a, u := (2 * q + 1) * Pow2(t), Pow2(t + 1);
    HalfWay(q, t);
    var k := Unit(a, 0);
    OneUnit(a, k, t + 1);
    Split(a, u);
    SameQuotient(q, Quotient(a, u), Pow2(t), a - Quotient(a, u) * u, u);
  }
}
