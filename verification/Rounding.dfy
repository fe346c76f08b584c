/** Integer division with explicit rounding (packages/shared/src/money/decimal.ts, money.ts). */
module Rounding {
  import opened Basics

  datatype Mode = Floor | Ceil | HalfUp

  function Abs(x: int): nat {
    if x < 0 then -x else x
  }

  /** The source's bigint `/`, which truncates toward zero. */
  function TruncDiv(n: int, d: int): (q: int)
    requires d != 0
    ensures Abs(q * d) <= Abs(n) < Abs(q * d) + Abs(d)
    ensures q != 0 ==> ((q < 0) == ((n < 0) != (d < 0)))
  {
    var q := Abs(n) / Abs(d);
    var r := if (n < 0) != (d < 0) then -q else q;
    TruncMagnitude(n, d, q);
    r
  }

  lemma TruncMagnitude(n: int, d: int, q: int)
    requires d != 0 && q == Abs(n) / Abs(d)
    ensures q >= 0
    ensures Abs(q * d) == Abs(-q * d) == q * Abs(d) <= Abs(n) < q * Abs(d) + Abs(d)
  {
    var m, a := Abs(n), Abs(d);
    assert m == a * (m / a) + m % a;
    assert q * a == a * q;
    assert q >= 0;
    assert q * d == q * a || q * d == -(q * a);
    assert -q * d == -(q * d);
    assert q * a >= 0;
  }

  /** The source's bigint `%`: the remainder takes the sign of the numerator. */
  function TruncMod(n: int, d: int): int
    requires d != 0
  {
    n - TruncDiv(n, d) * d
  }

  function DivFloor(n: int, d: int): int
    requires d != 0
  {
    var q := TruncDiv(n, d);
    if TruncMod(n, d) != 0 && ((n < 0) != (d < 0)) then q - 1 else q
  }

  function DivCeil(n: int, d: int): int
    requires d != 0
  {
    var q := TruncDiv(n, d);
    if TruncMod(n, d) != 0 && ((n < 0) == (d < 0)) then q + 1 else q
  }

  function DivHalfUp(n: int, d: int): int
    requires d != 0
  {
    var q := TruncDiv(Abs(n), Abs(d));
    var r := TruncMod(Abs(n), Abs(d));
    var rounded := if r * 2 >= Abs(d) then q + 1 else q;
    if (n < 0) != (d < 0) then -rounded else rounded
  }

  function Divide(n: int, d: int, mode: Mode): int
    requires d != 0
  {
    match mode
    case Floor => DivFloor(n, d)
    case Ceil => DivCeil(n, d)
    case HalfUp => DivHalfUp(n, d)
  }

  /** `percentageBps(bps, 'floor')` on a units value. */
  function BpsFloor(units: int, bps: int): int {
    DivFloor(units * bps, 10000)
  }

  /** Sign normalisation: dividing by d is dividing the sign-adjusted numerator by |d|. */
  lemma TruncExact(n: int, d: int)
    requires d != 0
    ensures TruncMod(n, d) == 0 ==> n == TruncDiv(n, d) * d
    ensures Abs(TruncMod(n, d)) < Abs(d)
    ensures (n >= 0 ==> TruncMod(n, d) >= 0) && (n <= 0 ==> TruncMod(n, d) <= 0)
  {
    var q := TruncDiv(n, d);
    if q == 0 {
      assert q * d == 0;
    } else {
      SignOfProduct(q, d);
    }
  }

  lemma SignOfProduct(x: int, y: int)
    requires x != 0 && y != 0
    ensures (x * y < 0) == ((x < 0) != (y < 0)) && x * y != 0
  {
    if x < 0 && y < 0 { assert x * y == (-x) * (-y); }
    if x < 0 && y > 0 { assert x * y == -((-x) * y); }
    if x > 0 && y < 0 { assert x * y == -(x * (-y)); }
  }

  /** Floor really is the floor: the quotient times d is the nearest multiple not beyond n. */
  lemma FloorBrackets(n: int, d: int)
    requires d != 0
    ensures d > 0 ==> DivFloor(n, d) * d <= n < (DivFloor(n, d) + 1) * d
    ensures d < 0 ==> DivFloor(n, d) * d >= n > (DivFloor(n, d) + 1) * d
  {
    TruncExact(n, d);
    var q := TruncDiv(n, d);
    assert (q - 1) * d == q * d - d && (q + 1) * d == q * d + d;
  }

  lemma CeilBrackets(n: int, d: int)
    requires d != 0
    ensures d > 0 ==> (DivCeil(n, d) - 1) * d < n <= DivCeil(n, d) * d
    ensures d < 0 ==> (DivCeil(n, d) - 1) * d > n >= DivCeil(n, d) * d
  {
    TruncExact(n, d);
    var q := TruncDiv(n, d);
    assert (q - 1) * d == q * d - d && (q + 1) * d == q * d + d;
  }

  /** Half-up returns a nearest multiple, and of two nearest ones the one further from zero. */
  lemma HalfUpNearest(n: int, d: int)
    requires d != 0
    ensures 2 * Abs(n - DivHalfUp(n, d) * d) <= Abs(d)
    ensures 2 * Abs(n - DivHalfUp(n, d) * d) == Abs(d) ==> Abs(DivHalfUp(n, d) * d) > Abs(n)
  {
    var h := DivHalfUp(Abs(n), Abs(d));
    HalfUpNearestNat(Abs(n), Abs(d));
    assert DivHalfUp(n, d) == if (n < 0) != (d < 0) then -h else h;
    SignedMultiple(n, d, h);
  }

  lemma SignedMultiple(n: int, d: int, h: int)
    requires d != 0
    ensures (if (n < 0) != (d < 0) then -h else h) * d == if n < 0 then -(h * Abs(d)) else h * Abs(d)
  {
    assert (-h) * d == -(h * d);
    assert h * (-d) == -(h * d);
  }

  lemma HalfUpNearestNat(m: nat, a: nat)
    requires a > 0
    ensures DivHalfUp(m, a) >= 0 && DivHalfUp(m, a) * a >= 0
    ensures 2 * Abs(m - DivHalfUp(m, a) * a) <= a
    ensures 2 * Abs(m - DivHalfUp(m, a) * a) == a ==> DivHalfUp(m, a) * a > m
  {
    TruncExact(m, a);
    var q := TruncDiv(m, a);
    assert (q + 1) * a == q * a + a;
    assert m == q * a + TruncMod(m, a);
  }

  /** Non-negative numerators: floor is the ordinary quotient. */
  lemma FloorOfNat(n: int, d: int)
    requires n >= 0 && d > 0
    ensures DivFloor(n, d) == n / d
  {
    FloorBrackets(n, d);
    var q := DivFloor(n, d);
    QuotientUnique(n, d, q, n / d);
  }

  lemma QuotientUnique(n: int, d: int, p: int, q: int)
    requires d > 0
    requires p * d <= n < (p + 1) * d && q * d <= n < (q + 1) * d
    ensures p == q
  {
    if p < q { MulMono(p + 1, q, d); }
    if q < p { MulMono(q + 1, p, d); }
  }

  lemma MulMono(a: int, b: int, c: int)
    requires a <= b && c >= 0
    ensures a * c <= b * c
  {
    assert (b - a) * c >= 0;
    assert (b - a) * c == b * c - a * c;
  }

  /** A fee in [0, 100%) of a positive amount is non-negative and leaves something over. */
  lemma BpsBounds(units: int, bps: int)
    requires units >= 0 && 0 <= bps <= 10000
    ensures 0 <= BpsFloor(units, bps) <= units
    ensures units > 0 && bps < 10000 ==> BpsFloor(units, bps) < units
    ensures bps == 10000 ==> BpsFloor(units, bps) == units
    ensures bps == 0 ==> BpsFloor(units, bps) == 0
  {
    var p := units * bps;
    assert p >= 0;
    MulMono(bps, 10000, units);
    assert bps * units == units * bps;
    FloorOfNat(p, 10000);
    if units > 0 && bps < 10000 {
      MulMono(bps, 9999, units);
      assert 9999 * units < 10000 * units;
    }
  }

  function Sum(xs: seq<int>): int {
    if xs == [] then 0 else Sum(xs[..|xs| - 1]) + xs[|xs| - 1]
  }

  function FeeSum(xs: seq<int>, bps: int): int {
    if xs == [] then 0 else FeeSum(xs[..|xs| - 1], bps) + BpsFloor(xs[|xs| - 1], bps)
  }

  /** Flooring each of n transfers loses less than n - 1 units against flooring their total. */
  lemma {:induction false} FeesOnPartsVersusTotal(xs: seq<int>, bps: int)
    requires |xs| >= 1
    ensures BpsFloor(Sum(xs), bps) - (|xs| - 1) <= FeeSum(xs, bps) <= BpsFloor(Sum(xs), bps)
  {
    var last := xs[|xs| - 1];
    var init := xs[..|xs| - 1];
    if |xs| == 1 {
      assert init == [];
      assert Sum(init) == 0 && FeeSum(init, bps) == 0;
      assert Sum(xs) == last;
    } else {
      FeesOnPartsVersusTotal(init, bps);
      FeeOfSum(Sum(init), last, bps);
    }
  }

  lemma FeeOfSum(x: int, y: int, bps: int)
    ensures BpsFloor(x, bps) + BpsFloor(y, bps) <= BpsFloor(x + y, bps) <= BpsFloor(x, bps) + BpsFloor(y, bps) + 1
  {
    FloorOfSum(x * bps, y * bps, 10000);
    assert x * bps + y * bps == (x + y) * bps;
  }

  lemma FloorOfSum(x: int, y: int, d: int)
    requires d > 0
    ensures DivFloor(x, d) + DivFloor(y, d) <= DivFloor(x + y, d) <= DivFloor(x, d) + DivFloor(y, d) + 1
  {
    FloorBrackets(x, d);
    FloorBrackets(y, d);
    FloorBrackets(x + y, d);
    BracketsAdd(x, y, d, DivFloor(x, d), DivFloor(y, d), DivFloor(x + y, d));
  }

  lemma BracketsAdd(x: int, y: int, d: int, a: int, b: int, c: int)
    requires d > 0
    requires a * d <= x < (a + 1) * d && b * d <= y < (b + 1) * d && c * d <= x + y < (c + 1) * d
    ensures a + b <= c <= a + b + 1
  {
    assert (a + b) * d == a * d + b * d;
    assert (a + 1) * d == a * d + d && (b + 1) * d == b * d + d;
    if c + 1 <= a + b { MulMono(c + 1, a + b, d); }
    assert (a + b + 2) * d == a * d + b * d + 2 * d;
    if a + b + 2 <= c { MulMono(a + b + 2, c, d); }
  }
}
