/** Flexural reinforcement for every design moment: the strength coefficient
    Ru, the steel ratio rho, the required and minimum steel areas per foot of
    width, and the spacings of the main bars and of the #3 shrinkage bars. */
module Reinforcement {
  import opened Rounding
  import opened Results
  import opened Moments

  /** Strip width b, in inches. */
  const Width: real := 12.0
  /** Strength reduction factor for flexure. */
  const Phi: real := 0.9
  /** math.pi: the shortest decimal form of the double nearest to pi (that
      double is exactly 3.141592653589793115997963...). */
  const Pi: real := 3.141592653589793
  /** Area of one #3 shrinkage bar, in square inches. */
  const ShrinkBarArea: real := 0.11

  /** math.sqrt is a parameter of the design; this says it is the square root
      on the non-negative reals. */
  ghost predicate IsSqrt(sqrt: real -> real)
  {
    forall x :: 0.0 <= x ==> 0.0 <= sqrt(x) && sqrt(x) * sqrt(x) == x
  }

  /** Effective depth d = t - 1 in. */
  function Depth(t: int): real { (t - 1) as real }

  /** Ru in ksi: the moment in kip-in over b * d^2. */
  function Ru(mu: real, t: int): real
    requires t != 1
  {
    mu * 12.0 / (Width * (Depth(t) * Depth(t)))
  }

  /** Ru has the sign of the moment. */
  lemma RuSign(mu: real, t: int)
    requires t != 1
    ensures Ru(mu, t) > 0.0 <==> mu > 0.0
    ensures Ru(mu, t) == 0.0 <==> mu == 0.0
  {
  }

  /** The quantity under the square root is 1 - Term. */
  function Term(mu: real, t: int, fc: real): real
    requires t != 1 && fc != 0.0
  {
    2.0 * Ru(mu, t) / (0.85 * Phi * fc)
  }

  /** math.sqrt raises for a negative argument, that is for Term > 1. */
  predicate Feasible(mu: real, t: int, fc: real)
    requires t != 1 && fc != 0.0
  {
    Term(mu, t, fc) <= 1.0
  }

  /** The steel ratio; note the factor phi in front of the bracket. */
  function Rho(mu: real, t: int, fc: real, fy: real, sqrt: real -> real): real
    requires t != 1 && fc != 0.0 && fy != 0.0 && Feasible(mu, t, fc)
  {
    (0.85 * Phi * fc / fy) * (1.0 - sqrt(1.0 - Term(mu, t, fc)))
  }

  /** Required steel area As = rho * b * d, per foot of width. */
  function AsReq(rho: real, t: int): real
  {
    rho * Width * Depth(t)
  }

  /** Temperature and shrinkage minimum 0.0018 * b * t (ACI 318-19 section 24.4.3.2). */
  function AsMin(t: int): (a: real)
    ensures t > 0 ==> a > 0.0
  {
    0.0018 * Width * t as real
  }

  /** The governing area: the larger of required and minimum. */
  function AsFinal(asReq: real, asMin: real): (a: real)
    ensures a >= asReq && a >= asMin
    ensures a == asReq || a == asMin
  {
    if asReq >= asMin then asReq else asMin
  }

  /** Area of one main bar of size n (diameter n/8 in). */
  function BarArea(barSize: int): (a: real)
    ensures barSize != 0 ==> a > 0.0
  {
    var dia := barSize as real / 8.0;
    (Pi / 4.0) * (dia * dia)
  }

  /** Main bar spacing: the theoretical spacing capped at 2t, then rounded with
      Python's round (half to even). */
  function MainSpacing(barArea: real, asFinal: real, t: int): (s: int)
    requires asFinal != 0.0
    ensures s <= 2 * t
    ensures barArea / asFinal * 12.0 > (2 * t) as real ==> s == 2 * t
    ensures barArea / asFinal * 12.0 <= (2 * t) as real ==> Abs(s as real - barArea / asFinal * 12.0) <= 0.5
    ensures barArea / asFinal * 12.0 <= (2 * t) as real ==>
      (s as real - barArea / asFinal * 12.0 == 0.5 || barArea / asFinal * 12.0 - s as real == 0.5) ==> s % 2 == 0
  {
    var spacing1 := barArea / asFinal * 12.0;
    var limit := 2 * t;
    var spacing := if spacing1 > limit as real then limit as real else spacing1;
    RoundHalfEvenAtMost(spacing, limit);
    RoundHalfEvenOfInt(limit);
    RoundHalfEven(spacing)
  }

  /** Shrinkage bar spacing: #3 bars providing half the minimum area, capped at
      5t, then floored. */
  function ShrinkSpacing(t: int): (s: int)
    requires t != 0
    ensures s <= 5 * t
    ensures s as real <= ShrinkBarArea / (0.5 * AsMin(t)) * 12.0
    ensures s as real > ShrinkBarArea / (0.5 * AsMin(t)) * 12.0 - 1.0 || s == 5 * t
  {
    var asShrink := 0.5 * AsMin(t);
    var spacing := ShrinkBarArea / asShrink * 12.0;
    var capped := if spacing <= (5 * t) as real then spacing else (5 * t) as real;
    capped.Floor
  }

  /** The nine reported fields for one moment. */
  datatype KeyResult = KeyResult(
    mu: real, ru: real, rho: real, asReq: real, asMin: real, asFinal: real,
    barSize: int, mainSpacing: int, shrinkSpacing: int)

  /** The design of one moment, with the reported values rounded to three
      significant figures (four for rho). */
  function DesignKey(mu: real, t: int, fc: real, fy: real, barSize: int, sqrt: real -> real): (r: KeyResult)
    requires t > 1 && fc > 0.0 && fy > 0.0 && Feasible(mu, t, fc)
    ensures r.asFinal >= r.asMin > 0.0
    ensures r.mainSpacing <= 2 * t && r.shrinkSpacing <= 5 * t
    ensures r.barSize == barSize
    ensures mu >= 0.0 ==> r.mu >= 0.0 && r.ru >= 0.0
  {
    var rho := Rho(mu, t, fc, fy, sqrt);
    var asReq := AsReq(rho, t);
    var asMin := AsMin(t);
    var asFinal := AsFinal(asReq, asMin);
    RoundSigMonotone(asMin, asFinal, 3);
    RuSign(mu, t);
    KeyResult(
      RoundSig(mu, 3), RoundSig(Ru(mu, t), 3), RoundSig(rho, 4),
      RoundSig(asReq, 3), RoundSig(asMin, 3), RoundSig(asFinal, 3),
      barSize, MainSpacing(BarArea(barSize), asFinal, t), ShrinkSpacing(t))
  }

  predicate SpanFeasible(m: map<Location, real>, t: int, fc: real)
    requires t != 1 && fc != 0.0
  {
    forall loc :: loc in m ==> Feasible(m[loc], t, fc)
  }

  /** The design of every moment of one span, under the same keys. */
  function DesignSpan(m: map<Location, real>, t: int, fc: real, fy: real, barSize: int, sqrt: real -> real)
    : (r: map<Location, KeyResult>)
    requires t > 1 && fc > 0.0 && fy > 0.0 && SpanFeasible(m, t, fc)
    ensures r.Keys == m.Keys
  {
    map loc | loc in m :: DesignKey(m[loc], t, fc, fy, barSize, sqrt)
  }

  /** For a non-negative feasible moment the steel ratio lies between 0 and
      0.85 * phi * fc / fy. */
  lemma RhoBounds(mu: real, t: int, fc: real, fy: real, sqrt: real -> real)
    requires t > 1 && fc > 0.0 && fy > 0.0 && IsSqrt(sqrt)
    requires mu >= 0.0 && Feasible(mu, t, fc)
    ensures 0.0 <= Rho(mu, t, fc, fy, sqrt) <= 0.85 * Phi * fc / fy
  {
  }

  /** The steel ratio the design computes is a root of
      Ru = rho * fy * (1 - rho * fy / (1.7 * phi * fc)), the flexural
      strength equation with phi inside the bracket. */
  lemma RhoSolvesStrengthEquation(mu: real, t: int, fc: real, fy: real, sqrt: real -> real)
    requires t > 1 && fc > 0.0 && fy > 0.0 && IsSqrt(sqrt) && Feasible(mu, t, fc)
    ensures var rho := Rho(mu, t, fc, fy, sqrt);
      Ru(mu, t) == rho * fy * (1.0 - rho * fy / (1.7 * Phi * fc))
  {
  }

  /** For a non-negative feasible moment the reported steel ratio and required
      area are non-negative, like every other reported quantity. */
  lemma DesignKeyNonNegative(mu: real, t: int, fc: real, fy: real, barSize: int, sqrt: real -> real)
    requires t > 1 && fc > 0.0 && fy > 0.0 && IsSqrt(sqrt)
    requires mu >= 0.0 && Feasible(mu, t, fc)
    ensures DesignKey(mu, t, fc, fy, barSize, sqrt).rho >= 0.0
    ensures DesignKey(mu, t, fc, fy, barSize, sqrt).asReq >= 0.0
  {
    RhoBounds(mu, t, fc, fy, sqrt);
  }

  lemma SqrtMonotone(sqrt: real -> real, x: real, y: real)
    requires IsSqrt(sqrt) && 0.0 <= x <= y
    ensures sqrt(x) <= sqrt(y)
  {
    var a, b := sqrt(x), sqrt(y);
    assert (a - b) * (a + b) == x - y;
    assert a + b >= 0.0;
    if a + b == 0.0 {
      assert a == 0.0 && b == 0.0;
    } else {
      assert (a - b) * (a + b) <= 0.0;
    }
  }

  lemma TermMonotone(mu1: real, mu2: real, t: int, fc: real)
    requires t > 1 && fc > 0.0 && mu1 <= mu2
    ensures Term(mu1, t, fc) <= Term(mu2, t, fc)
  {
    RuSign(mu2 - mu1, t);
    var d2 := Depth(t) * Depth(t);
    assert Ru(mu1, t) == mu1 / d2 && Ru(mu2, t) == mu2 / d2 && Ru(mu2 - mu1, t) == (mu2 - mu1) / d2;
    assert Ru(mu2, t) - Ru(mu1, t) == Ru(mu2 - mu1, t);
  }

  /** A larger moment never needs a smaller steel ratio. */
  lemma RhoMonotone(mu1: real, mu2: real, t: int, fc: real, fy: real, sqrt: real -> real)
    requires t > 1 && fc > 0.0 && fy > 0.0 && IsSqrt(sqrt)
    requires mu1 <= mu2 && Feasible(mu2, t, fc)
    ensures Feasible(mu1, t, fc)
    ensures Rho(mu1, t, fc, fy, sqrt) <= Rho(mu2, t, fc, fy, sqrt)
  {
    TermMonotone(mu1, mu2, t, fc);
    var t1, t2 := Term(mu1, t, fc), Term(mu2, t, fc);
    SqrtMonotone(sqrt, 1.0 - t2, 1.0 - t1);
    var k := 0.85 * Phi * fc / fy;
    assert k > 0.0;
    assert k * (1.0 - sqrt(1.0 - t1)) <= k * (1.0 - sqrt(1.0 - t2));
  }

  /** A larger moment never reports less required or governing steel. */
  lemma DesignKeyMonotone(mu1: real, mu2: real, t: int, fc: real, fy: real, barSize: int,
                          sqrt: real -> real)
    requires t > 1 && fc > 0.0 && fy > 0.0 && IsSqrt(sqrt)
    requires mu1 <= mu2 && Feasible(mu2, t, fc)
    ensures Feasible(mu1, t, fc)
    ensures DesignKey(mu1, t, fc, fy, barSize, sqrt).asReq <= DesignKey(mu2, t, fc, fy, barSize, sqrt).asReq
    ensures DesignKey(mu1, t, fc, fy, barSize, sqrt).asFinal <= DesignKey(mu2, t, fc, fy, barSize, sqrt).asFinal
  {
    RhoMonotone(mu1, mu2, t, fc, fy, sqrt);
    var rho1, rho2 := Rho(mu1, t, fc, fy, sqrt), Rho(mu2, t, fc, fy, sqrt);
    var w := Width * Depth(t);
    assert w > 0.0;
    assert rho1 * w <= rho2 * w;
    assert AsReq(rho1, t) <= AsReq(rho2, t);
    RoundSigMonotone(AsReq(rho1, t), AsReq(rho2, t), 3);
    var a1 := AsFinal(AsReq(rho1, t), AsMin(t));
    var a2 := AsFinal(AsReq(rho2, t), AsMin(t));
    RoundSigMonotone(a1, a2, 3);
  }

  /** The shrinkage spacing depends on the thickness alone: the 5t cap governs
      up to t = 4 in, and from t = 5 in the spacing is floor(1100 / (9t)). */
  lemma ShrinkSpacingValue(t: int)
    requires t > 0
    ensures t <= 4 ==> ShrinkSpacing(t) == 5 * t
    ensures t >= 5 ==> ShrinkSpacing(t) == (1100.0 / (9.0 * t as real)).Floor
  {
  }

  /** The order in which the keys of a span are visited: the insertion order of
      every dictionary that design_moments builds. */
  const KeyOrder: seq<Location> := [A, B, C, D, E]

  function Rank(loc: Location): (k: nat)
    ensures k < |KeyOrder| && KeyOrder[k] == loc
  {
    match loc
    case A => 0
    case B => 1
    case C => 2
    case D => 3
    case E => 4
  }

  /** Why the design stopped: the square root of a negative number for the
      moment at this span index and location. */
  datatype Infeasible = SqrtDomain(span: nat, loc: Location)

  /** The inner loop of reinforcement_design: fills one span's result key by
      key and stops at the first location whose square root argument is
      negative. */
  method DesignSpanResult(span: map<Location, real>, t: int, fc: real, fy: real, barSize: int,
                          sqrt: real -> real)
    returns (r: Result<map<Location, KeyResult>, Location>)
    requires t > 1 && fc > 0.0 && fy > 0.0
    ensures r.Success? <==> SpanFeasible(span, t, fc)
    ensures r.Success? ==> r.value == DesignSpan(span, t, fc, fy, barSize, sqrt)
    ensures r.Failure? ==>
      r.error in span && !Feasible(span[r.error], t, fc) &&
      forall l :: l in span && Rank(l) < Rank(r.error) ==> Feasible(span[l], t, fc)
  {
    var spanResult: map<Location, KeyResult> := map[];
    for k := 0 to |KeyOrder|
      invariant forall l :: l in spanResult <==> l in span && Rank(l) < k
      invariant forall l :: l in span && Rank(l) < k ==> Feasible(span[l], t, fc)
      invariant forall l :: l in spanResult ==>
        spanResult[l] == DesignKey(span[l], t, fc, fy, barSize, sqrt)
    {
      var key := KeyOrder[k];
      if key in span {
        var mu := span[key];
        var ru := Ru(mu, t);
        var term := Term(mu, t, fc);
        if term > 1.0 {
          return Failure(key);
        }
        var rho := Rho(mu, t, fc, fy, sqrt);
        var asReq := AsReq(rho, t);
        var asMin := AsMin(t);
        var asFinal := AsFinal(asReq, asMin);
        var spacing := MainSpacing(BarArea(barSize), asFinal, t);
        var shrinkSpacing := ShrinkSpacing(t);
        var result := KeyResult(
          RoundSig(mu, 3), RoundSig(ru, 3), RoundSig(rho, 4),
          RoundSig(asReq, 3), RoundSig(asMin, 3), RoundSig(asFinal, 3),
          barSize, spacing, shrinkSpacing);
        assert result == DesignKey(mu, t, fc, fy, barSize, sqrt);
        spanResult := spanResult[key := result];
      }
    }
    assert spanResult == DesignSpan(span, t, fc, fy, barSize, sqrt);
    return Success(spanResult);
  }

  /** reinforcement_design: designs every moment of every span, span by span,
      and stops at the first moment whose square root argument is negative. */
  method ReinforcementDesign(M: seq<map<Location, real>>, t: int, fc: real, fy: real, barSize: int,
                             sqrt: real -> real)
    returns (r: Result<seq<map<Location, KeyResult>>, Infeasible>)
    requires t > 1 && fc > 0.0 && fy > 0.0
    ensures r.Success? <==> forall i :: 0 <= i < |M| ==> SpanFeasible(M[i], t, fc)
    ensures r.Success? ==> |r.value| == |M|
    ensures r.Success? ==>
      forall i :: 0 <= i < |M| ==> r.value[i] == DesignSpan(M[i], t, fc, fy, barSize, sqrt)
    ensures r.Failure? ==>
      var i, loc := r.error.span, r.error.loc;
      i < |M| && loc in M[i] && !Feasible(M[i][loc], t, fc) &&
      (forall j :: 0 <= j < i ==> SpanFeasible(M[j], t, fc)) &&
      (forall l :: l in M[i] && Rank(l) < Rank(loc) ==> Feasible(M[i][l], t, fc))
  {
    var results: seq<map<Location, KeyResult>> := [];
    for i := 0 to |M|
      invariant |results| == i
      invariant forall j :: 0 <= j < i ==> SpanFeasible(M[j], t, fc)
      invariant forall j :: 0 <= j < i ==> results[j] == DesignSpan(M[j], t, fc, fy, barSize, sqrt)
    {
      var spanResult := DesignSpanResult(M[i], t, fc, fy, barSize, sqrt);
      if spanResult.Failure? {
        return Failure(SqrtDomain(i, spanResult.error));
      }
      results := results + [spanResult.value];
    }
    return Success(results);
  }
}
