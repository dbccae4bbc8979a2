/** Numeric rounding used by the design engine, on exact reals: Python's
    `round` (round half to even), `round(x, 2)`, and `round_sig`, which rounds
    to a number of significant figures. */
module Rounding {

  function Abs(x: real): real { if x < 0.0 then -x else x }
  function Min(a: real, b: real): real { if a <= b then a else b }
  function Max(a: real, b: real): real { if a <= b then b else a }

  /** 10^n as an integer. */
  function Ten(n: nat): (r: nat)
    ensures r >= 1
  {
    if n == 0 then 1 else 10 * Ten(n - 1)
  }

  /** Python's built-in `round(y)`: the nearest integer, ties going to the even one. */
  function RoundHalfEven(y: real): (n: int)
    ensures y - 0.5 <= n as real <= y + 0.5
    ensures (n as real - y == 0.5 || y - n as real == 0.5) ==> n % 2 == 0
  {
    var f := y.Floor;
    var frac := y - f as real;
    if frac < 0.5 then f
    else if frac > 0.5 then f + 1
    else if f % 2 == 0 then f
    else f + 1
  }

  /** The two postconditions of RoundHalfEven single out one integer. */
  lemma RoundHalfEvenUnique(y: real, n: int)
    requires y - 0.5 <= n as real <= y + 0.5
    requires (n as real - y == 0.5 || y - n as real == 0.5) ==> n % 2 == 0
    ensures n == RoundHalfEven(y)
  {
  }

  lemma RoundHalfEvenOfInt(k: int)
    ensures RoundHalfEven(k as real) == k
  {
  }

  lemma RoundHalfEvenMonotone(x: real, y: real)
    requires x <= y
    ensures RoundHalfEven(x) <= RoundHalfEven(y)
  {
  }

  /** A value no larger than an integer k never rounds above k. */
  lemma RoundHalfEvenAtMost(y: real, k: int)
    requires y <= k as real
    ensures RoundHalfEven(y) <= k
  {
  }

  /** Python's `round(x, 2)`: the nearest multiple of 0.01, ties to even. */
  function RoundTwoPlaces(x: real): (r: real)
    ensures Abs(r - x) <= 0.005
    ensures (r * 100.0).Floor as real == r * 100.0
    ensures (r * 100.0 - x * 100.0 == 0.5 || x * 100.0 - r * 100.0 == 0.5) ==> (r * 100.0).Floor % 2 == 0
  {
    var n := RoundHalfEven(x * 100.0);
    assert (n as real / 100.0) * 100.0 == n as real;
    assert (n as real).Floor == n;
    n as real / 100.0
  }

  /** Rounding a value that already has at most two decimals changes nothing. */
  lemma RoundTwoPlacesExact(x: real, k: int)
    requires x * 100.0 == k as real
    ensures RoundTwoPlaces(x) == x
  {
  }

  /** `format(x, '.Pg')` treats a precision of 0 as 1. */
  function Precision(sig: nat): (p: nat)
    ensures p >= 1
  {
    if sig == 0 then 1 else sig
  }

  /** The decade [10^(p-1), 10^p) in which a value has exactly p digits before the point. */
  function Lo(p: nat): real requires p >= 1 { Ten(p - 1) as real }
  function Hi(p: nat): real requires p >= 1 { Ten(p) as real }

  /** Scaling a value below h / 10 up by ten lowers the measure floor(h / y). */
  lemma ScaleUpDecreases(h: real, y: real)
    requires y > 0.0 && 10.0 * y < h
    ensures (h / (10.0 * y)).Floor < (h / y).Floor
  {
    var z := h / y;
    assert z * y == h;
    assert z > 10.0;
    assert h / (10.0 * y) == z / 10.0;
  }

  lemma RoundHalfEvenAtLeast(y: real, k: int)
    requires y >= k as real
    ensures RoundHalfEven(y) >= k
  {
  }

  /** Rounding of a value that already has p digits before the point. */
  function RoundInDecade(y: real, p: nat): (r: real)
    requires p >= 1 && Lo(p) <= y < Hi(p)
    ensures Lo(p) <= r <= Hi(p)
    ensures Abs(r - y) <= 0.5
  {
    RoundHalfEvenAtMost(y, Ten(p));
    RoundHalfEvenAtLeast(y, Ten(p - 1));
    RoundHalfEven(y) as real
  }

  /** A value below the decade is scaled up by ten until it is in it. */
  function RoundUp(y: real, p: nat): (r: real)
    requires p >= 1 && 0.0 < y < Lo(p)
    ensures 0.0 < r <= Lo(p)
    decreases (Hi(p) / y).Floor
  {
    assert Hi(p) == 10.0 * Lo(p);
    if 10.0 * y >= Lo(p) then RoundInDecade(10.0 * y, p) / 10.0
    else
      ScaleUpDecreases(Hi(p), y);
      RoundUp(10.0 * y, p) / 10.0
  }

  /** A value above the decade is scaled down by ten until it is in it. */
  function RoundDown(y: real, p: nat): (r: real)
    requires p >= 1 && y >= Hi(p)
    ensures r >= Hi(p)
    decreases y.Floor
  {
    assert Hi(p) == 10.0 * Lo(p);
    assert (y / 10.0).Floor < y.Floor;
    if y / 10.0 < Hi(p) then 10.0 * RoundInDecade(y / 10.0, p)
    else 10.0 * RoundDown(y / 10.0, p)
  }

  /** Rounds y > 0 to p significant figures: y is scaled by powers of ten into
      [10^(p-1), 10^p), rounded half to even there, and scaled back. */
  function RoundPositive(y: real, p: nat): (r: real)
    requires y > 0.0 && p >= 1
    ensures r > 0.0
  {
    if y < Lo(p) then RoundUp(y, p)
    else if y < Hi(p) then RoundInDecade(y, p)
    else RoundDown(y, p)
  }

  /** round_sig: x rounded to sig significant figures (half to even), and 0 for 0. */
  function RoundSig(x: real, sig: nat): (r: real)
    ensures x == 0.0 ==> r == 0.0
    ensures x > 0.0 ==> r > 0.0
    ensures x < 0.0 ==> r < 0.0
  {
    if x == 0.0 then 0.0
    else if x > 0.0 then RoundPositive(x, Precision(sig))
    else -RoundPositive(-x, Precision(sig))
  }

  lemma RoundSigOdd(x: real, sig: nat)
    ensures RoundSig(-x, sig) == -RoundSig(x, sig)
  {
  }

  lemma {:induction false} RoundUpMonotone(x: real, y: real, p: nat)
    requires p >= 1 && 0.0 < x <= y < Lo(p)
    ensures RoundUp(x, p) <= RoundUp(y, p)
    decreases (Hi(p) / x).Floor
  {
    assert Hi(p) == 10.0 * Lo(p);
    if 10.0 * y >= Lo(p) {
      if 10.0 * x >= Lo(p) {
        RoundHalfEvenMonotone(10.0 * x, 10.0 * y);
      }
    } else {
      ScaleUpDecreases(Hi(p), x);
      RoundUpMonotone(10.0 * x, 10.0 * y, p);
    }
  }

  lemma {:induction false} RoundDownMonotone(x: real, y: real, p: nat)
    requires p >= 1 && Hi(p) <= x <= y
    ensures RoundDown(x, p) <= RoundDown(y, p)
    decreases x.Floor
  {
    assert (x / 10.0).Floor < x.Floor;
    if y / 10.0 < Hi(p) {
      RoundHalfEvenMonotone(x / 10.0, y / 10.0);
    } else if x / 10.0 >= Hi(p) {
      RoundDownMonotone(x / 10.0, y / 10.0, p);
    }
  }

  lemma RoundPositiveMonotone(x: real, y: real, p: nat)
    requires 0.0 < x <= y && p >= 1
    ensures RoundPositive(x, p) <= RoundPositive(y, p)
  {
    if y < Lo(p) {
      RoundUpMonotone(x, y, p);
    } else if x >= Hi(p) {
      RoundDownMonotone(x, y, p);
    } else if Lo(p) <= x && y < Hi(p) {
      RoundHalfEvenMonotone(x, y);
    }
  }

  /** round_sig never reverses the order of two values. */
  lemma RoundSigMonotone(x: real, y: real, sig: nat)
    requires x <= y
    ensures RoundSig(x, sig) <= RoundSig(y, sig)
  {
    var p := Precision(sig);
    if 0.0 < x {
      RoundPositiveMonotone(x, y, p);
    } else if y < 0.0 {
      RoundPositiveMonotone(-y, -x, p);
    }
  }
}
