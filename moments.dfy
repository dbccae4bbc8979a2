/** Design moments per span from moment coefficients in the manner of
    ACI 318-19 section 6.5: each span gets coefficient * wu * L^2 at three
    locations, rounded to three significant figures. */
module Moments {
  import opened Rounding

  /** The dictionary keys 'Moment at A' .. 'Moment at E'. */
  datatype Location = A | B | C | D | E

  /** Which coefficient table a span uses. */
  datatype SpanRole = TwoSpan | First | Interior | Last

  /** A two-span slab uses one table for both spans; otherwise the first and
      the last span are end spans and the rest are interior. */
  function Role(n: nat, i: nat): SpanRole
  {
    if n == 2 then TwoSpan
    else if i == 0 then First
    else if i == n - 1 then Last
    else Interior
  }

  function Coefficients(role: SpanRole): map<Location, real>
  {
    match role
    case TwoSpan => map[A := 1.0 / 24.0, B := 1.0 / 14.0, C := 1.0 / 9.0]
    case First => map[A := 1.0 / 24.0, B := 1.0 / 14.0, C := 1.0 / 10.0]
    case Last => map[A := 1.0 / 24.0, B := 1.0 / 14.0, C := 1.0 / 10.0]
    case Interior => map[C := 1.0 / 10.0, D := 1.0 / 16.0, E := 1.0 / 11.0]
  }

  /** The moments of one span of length L under factored load wu. */
  function SpanMoments(role: SpanRole, L: real, wu: real): map<Location, real>
  {
    var coeffs := Coefficients(role);
    map loc | loc in coeffs :: Moment(coeffs[loc], wu * (L * L))
  }

  /** One dictionary entry: coefficient times wu * L^2, to three significant figures. */
  function Moment(coeff: real, mu: real): real
  {
    RoundSig(coeff * mu, 3)
  }

  function Display3(l1: Location, c1: real, l2: Location, c2: real, l3: Location, c3: real, mu: real): map<Location, real>
  {
    map[l1 := Moment(c1, mu), l2 := Moment(c2, mu), l3 := Moment(c3, mu)]
  }

  /** The dictionary display each branch of design_moments writes. */
  lemma SpanMomentsDisplay(role: SpanRole, L: real, wu: real)
    ensures role == TwoSpan ==>
      SpanMoments(role, L, wu) == Display3(A, 1.0 / 24.0, B, 1.0 / 14.0, C, 1.0 / 9.0, wu * (L * L))
    ensures role == First || role == Last ==>
      SpanMoments(role, L, wu) == Display3(A, 1.0 / 24.0, B, 1.0 / 14.0, C, 1.0 / 10.0, wu * (L * L))
    ensures role == Interior ==>
      SpanMoments(role, L, wu) == Display3(C, 1.0 / 10.0, D, 1.0 / 16.0, E, 1.0 / 11.0, wu * (L * L))
  {
  }

  /** The first and last spans of a slab with three or more spans share one
      table, so copying the first span's moments into an equal last span gives
      exactly the moments the last span would get on its own. */
  lemma EndSpansAgree(n: nat, L: real, wu: real)
    requires n >= 3
    ensures SpanMoments(Role(n, n - 1), L, wu) == SpanMoments(Role(n, 0), L, wu)
  {
  }

  /** design_moments: one dictionary per span, in span order. For three or more
      spans whose outer spans are equal, the last span reuses the first span's
      dictionary; the postcondition shows that this equals its own moments. */
  method DesignMoments(spans: seq<real>, wu: real) returns (M: seq<map<Location, real>>)
    ensures |M| == |spans|
    ensures forall i :: 0 <= i < |spans| ==> M[i] == SpanMoments(Role(|spans|, i), spans[i], wu)
  {
    M := [];
    var n := |spans|;
    if n == 2 {
      for k := 0 to n
        invariant |M| == k
        invariant forall i :: 0 <= i < k ==> M[i] == SpanMoments(TwoSpan, spans[i], wu)
      {
        var L := spans[k];
        var mu := wu * (L * L);
        var m := map[A := Moment(1.0 / 24.0, mu), B := Moment(1.0 / 14.0, mu), C := Moment(1.0 / 9.0, mu)];
        SpanMomentsDisplay(TwoSpan, L, wu);
        M := M + [m];
      }
    } else {
      for k := 0 to n
        invariant |M| == k
        invariant forall i :: 0 <= i < k ==> M[i] == SpanMoments(Role(n, i), spans[i], wu)
      {
        var L := spans[k];
        var mu := wu * (L * L);
        var m;
        if k == 0 {
          m := map[A := Moment(1.0 / 24.0, mu), B := Moment(1.0 / 14.0, mu), C := Moment(1.0 / 10.0, mu)];
        } else if k == n - 1 {
          if spans[0] == spans[n - 1] {
            EndSpansAgree(n, L, wu);
            m := M[0];
          } else {
            m := map[A := Moment(1.0 / 24.0, mu), B := Moment(1.0 / 14.0, mu), C := Moment(1.0 / 10.0, mu)];
          }
        } else {
          m := map[C := Moment(1.0 / 10.0, mu), D := Moment(1.0 / 16.0, mu), E := Moment(1.0 / 11.0, mu)];
        }
        SpanMomentsDisplay(Role(n, k), L, wu);
        assert m == SpanMoments(Role(n, k), L, wu);
        M := M + [m];
      }
    }
  }

  /** The key set of span i of n: {A, B, C} for both spans of a two-span slab
      and for the end spans otherwise, {C, D, E} for interior spans. */
  lemma MomentKeys(n: nat, i: nat, L: real, wu: real)
    requires i < n
    ensures n == 2 || i == 0 || i == n - 1 ==> SpanMoments(Role(n, i), L, wu).Keys == {A, B, C}
    ensures n != 2 && 0 < i < n - 1 ==> SpanMoments(Role(n, i), L, wu).Keys == {C, D, E}
  {
  }

  /** Numbering the spans from the other end gives every span the same table. */
  lemma MomentsMirror(n: nat, i: nat, L: real, wu: real)
    requires i < n
    ensures SpanMoments(Role(n, n - 1 - i), L, wu) == SpanMoments(Role(n, i), L, wu)
  {
  }

  /** With no load every moment is zero. */
  lemma ZeroLoadZeroMoments(role: SpanRole, L: real)
    ensures forall loc :: loc in SpanMoments(role, L, 0.0) ==> SpanMoments(role, L, 0.0)[loc] == 0.0
  {
  }

  /** A non-negative load gives non-negative moments. */
  lemma MomentsNonNegative(role: SpanRole, L: real, wu: real)
    requires wu >= 0.0
    ensures forall loc :: loc in SpanMoments(role, L, wu) ==> SpanMoments(role, L, wu)[loc] >= 0.0
  {
  }

  /** Under a non-negative load a longer span never has a smaller moment at
      any location, rounding included. */
  lemma MomentsMonotone(role: SpanRole, L1: real, L2: real, wu: real)
    requires wu >= 0.0 && 0.0 <= L1 <= L2
    ensures forall loc :: loc in SpanMoments(role, L1, wu) ==>
      SpanMoments(role, L1, wu)[loc] <= SpanMoments(role, L2, wu)[loc]
  {
    var coeffs := Coefficients(role);
    forall loc | loc in coeffs
      ensures Moment(coeffs[loc], wu * (L1 * L1)) <= Moment(coeffs[loc], wu * (L2 * L2))
    {
      assert coeffs[loc] * (wu * (L1 * L1)) <= coeffs[loc] * (wu * (L2 * L2));
      RoundSigMonotone(coeffs[loc] * (wu * (L1 * L1)), coeffs[loc] * (wu * (L2 * L2)), 3);
    }
  }

  lemma ScaledMonotone(c1: real, c2: real, mu: real)
    requires c1 <= c2 && mu >= 0.0
    ensures Moment(c1, mu) <= Moment(c2, mu)
  {
    assert c1 * mu <= c2 * mu;
    RoundSigMonotone(c1 * mu, c2 * mu, 3);
  }

  /** Location C, present in every table, carries the largest coefficient, so
      under a non-negative load it has the largest moment of its span. */
  lemma MomentAtCGoverns(role: SpanRole, L: real, wu: real)
    requires wu >= 0.0
    ensures C in SpanMoments(role, L, wu)
    ensures forall loc :: loc in SpanMoments(role, L, wu) ==>
      SpanMoments(role, L, wu)[loc] <= SpanMoments(role, L, wu)[C]
  {
    var coeffs := Coefficients(role);
    var mu := wu * (L * L);
    assert mu >= 0.0;
    forall loc | loc in coeffs
      ensures Moment(coeffs[loc], mu) <= Moment(coeffs[C], mu)
    {
      ScaledMonotone(coeffs[loc], coeffs[C], mu);
    }
  }
}
