/**
 Fixed-point decimals with 18 digits: LegacyDec of cosmossdk.io/math v1.5.3,
 as used by x/dao/keeper. The library's source is not part of the repository;
 its operations are stated here as definitions on integers scaled by 10^18.
 */
module LegacyDec {

  /** A value of x * 10^-18. */
  type Dec = int

  const ONE := 1_000_000_000_000_000_000
  const HALF := 500_000_000_000_000_000

  function Abs(x: int): nat {
    if x < 0 then -x else x
  }

  /** big.Int.Quo: division that truncates toward zero. */
  function TruncQuo(a: int, b: int): int
    requires b != 0
  {
    if (a < 0) == (b < 0) then Abs(a) / Abs(b) else -(Abs(a) / Abs(b))
  }

  /** Drops 18 digits of x >= 0, rounding to nearest and ties to even. */
  function ChopNonNegative(x: nat): nat {
    var q, r := x / ONE, x % ONE;
    if r < HALF || (r == HALF && q % 2 == 0) then q else q + 1
  }

  function ChopAndRound(x: int): int {
    if x < 0 then 0 - ChopNonNegative(-x) as int else ChopNonNegative(x)
  }

  function FromInt(n: int): Dec { n * ONE }

  function Mul(a: Dec, b: Dec): Dec { ChopAndRound(a * b) }

  /** Divides to 36 digits, truncating, and rounds to 18. */
  function Quo(a: Dec, b: Dec): Dec
    requires b != 0
  {
    ChopAndRound(TruncQuo(a * ONE * ONE, b))
  }

  function QuoInt64(a: Dec, i: int): Dec
    requires i != 0
  {
    TruncQuo(a, i)
  }

  function TruncateInt(a: Dec): int { TruncQuo(a, ONE) }

  // ---------- integer division ----------

  lemma DivUnique(x: nat, d: nat, q: nat)
    requires d > 0 && q * d <= x < (q + 1) * d
    ensures x / d == q
  {
    var k := x / d;
    assert k * d <= x < (k + 1) * d by { assert x == k * d + x % d; }
    MulLe(k + 1, q, d);
    MulLe(q + 1, k, d);
  }

  lemma MulAssoc(a: nat, b: nat, c: nat)
    ensures a * (b * c) == (a * b) * c
  {
  }

  lemma MulLe(a: nat, b: nat, d: nat)
    ensures a <= b ==> a * d <= b * d
  {
  }

  lemma MulSwap(a: nat, b: nat, c: nat)
    ensures (a * b) * c == (a * c) * b
  {
  }

  lemma MulCancel(a: nat, b: nat, d: nat)
    requires d > 0 && a * d <= b * d
    ensures a <= b
  {
  }

  lemma DivBounds(x: nat, d: nat)
    requires d > 0
    ensures (x / d) * d <= x < (x / d + 1) * d
  {
    assert x == (x / d) * d + x % d;
  }

  lemma DivAtLeast(x: nat, d: nat, q: nat)
    requires d > 0
    ensures q <= x / d <==> q * d <= x
  {
    DivBounds(x, d);
    var k := x / d;
    if q <= k { assert q * d <= k * d; }
    if k < q { assert (k + 1) * d <= q * d; }
  }

  /** a/b <= c/d as fractions gives the same order on the quotients. */
  lemma DivOrder(a: nat, b: nat, c: nat, d: nat)
    requires b > 0 && d > 0 && a * d <= c * b
    ensures a / b <= c / d
  {
    var k := a / b;
    DivBounds(a, b);
    MulLe(k * b, a, d);
    MulSwap(k, b, d);
    MulCancel(k * d, c, b);
    DivAtLeast(c, d, k);
  }

  lemma DivCancel(x: nat, d: nat, m: nat)
    requires d > 0 && m > 0
    ensures (x * m) / (d * m) == x / d
  {
    var k := x / d;
    DivBounds(x, d);
    MulLe(k * d, x, m);
    MulLe(x + 1, (k + 1) * d, m);
    MulAssoc(k, d, m);
    MulAssoc(k + 1, d, m);
    DivUnique(x * m, d * m, k);
  }

  // ---------- rounding ----------

  lemma ChopExact(k: nat)
    ensures ChopAndRound(k * ONE) == k
  {
  }

  /** Exactly when rounding reaches q: half a unit below, the tie going to even. */
  lemma ChopReaches(x: nat, q: nat)
    ensures
      ChopNonNegative(x) >= q <==>
        (x > q * ONE - HALF || (x == q * ONE - HALF && q % 2 == 0))
  {
  }

  lemma ChopMonotone(x: nat, y: nat)
    requires x <= y
    ensures ChopNonNegative(x) <= ChopNonNegative(y)
  {
    var q := ChopNonNegative(x);
    ChopReaches(x, q);
    ChopReaches(y, q);
  }

  // ---------- the ratio of two integers ----------

  /** y / t in decimals, as the tally computes it. */
  function Ratio(y: int, t: int): Dec
    requires t != 0
  {
    Quo(FromInt(y), FromInt(t))
  }

  lemma RatioIsRounded(y: nat, t: nat)
    requires t > 0
    ensures Ratio(y, t) == ChopNonNegative((y * ONE * ONE) / t)
  {
    var x := y * ONE * ONE;
    assert FromInt(y) * ONE * ONE == x * ONE;
    DivCancel(x, t, ONE);
    assert x * ONE >= 0 && t * ONE > 0;
  }

  lemma ScaleOrder(a: nat, b: nat, c: nat, d: nat, m: nat)
    requires a * b <= c * d
    ensures (a * m) * b <= (c * m) * d
  {
    assert (a * m) * b == (a * b) * m;
    assert (c * m) * d == (c * d) * m;
  }

  lemma RatioMonotone(y: nat, t: nat, y': nat, t': nat)
    requires t > 0 && t' > 0 && y * t' <= y' * t
    ensures Ratio(y, t) <= Ratio(y', t')
  {
    hide Ratio, ChopNonNegative;
    RatioIsRounded(y, t);
    RatioIsRounded(y', t');
    ScaleOrder(y, t', y', t, ONE);
    ScaleOrder(y * ONE, t', y' * ONE, t, ONE);
    DivOrder(y * ONE * ONE, t, y' * ONE * ONE, t');
    ChopMonotone((y * ONE * ONE) / t, (y' * ONE * ONE) / t');
  }

  lemma RatioOfItself(w: nat)
    requires w > 0
    ensures Ratio(w, w) == ONE
  {
    RatioIsRounded(w, w);
    DivCancel(ONE * ONE, 1, w);
    assert w * ONE * ONE == (ONE * ONE) * w;
    ChopExact(ONE);
  }

  /** y/t reaches q in whole numbers: 36 digits cut off, then half a unit of q forgiven, the tie only for an even q. */
  predicate Reaches(y: nat, t: nat, q: nat)
    requires t > 0
  {
    var x := 2 * (y * ONE * ONE / t);
    x > (2 * q - 1) * ONE || (x == (2 * q - 1) * ONE && q % 2 == 0)
  }

  lemma RatioReaches(y: nat, t: nat, q: nat)
    requires t > 0
    ensures Ratio(y, t) >= q <==> Reaches(y, t, q)
  {
    hide Ratio, ChopNonNegative;
    RatioIsRounded(y, t);
    ChopReaches(y * ONE * ONE / t, q);
  }

  /**
   How far the rounded ratio is from the exact comparison y/t >= q: never
   stricter, and more lenient by at most half a unit in the last digit.
   */
  lemma RatioBounds(y: nat, t: nat, q: nat)
    requires t > 0
    ensures y * ONE >= q * t ==> Ratio(y, t) >= q
    ensures Ratio(y, t) >= q ==> 2 * y * ONE >= (2 * q - 1) * t
  {
    hide Ratio, ChopNonNegative;
    RatioIsRounded(y, t);
    var x := (y * ONE * ONE) / t;
    ChopReaches(x, q);
    if y * ONE >= q * t {
      ScaleOrder(q, t, y, ONE, ONE);
      assert (q * ONE) * t <= y * ONE * ONE;
      DivAtLeast(y * ONE * ONE, t, q * ONE);
    }
    if Ratio(y, t) >= q && q > 0 {
      DivAtLeast(y * ONE * ONE, t, q * ONE - HALF);
      ReachedFraction(y, t, q);
    }
  }

  lemma ReachedFraction(y: nat, t: nat, q: nat)
    requires q > 0 && (q * ONE - HALF) * t <= y * ONE * ONE
    ensures 2 * y * ONE >= (2 * q - 1) * t
  {
    assert 2 * (q * ONE - HALF) == (2 * q - 1) * ONE;
    MulAssoc(2, q * ONE - HALF, t);
    assert ((2 * q - 1) * ONE) * t == ((2 * q - 1) * t) * ONE;
  }
}
