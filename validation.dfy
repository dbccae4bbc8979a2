/** The two input checks that run before any design work: adjacent spans may
    differ by at most 20% of the shorter one, and the dead load must be non-zero
    with a live-to-dead ratio below 3. */
module Validation {
  import opened Rounding

  /** Adjacent spans a (earlier) and b (later) pass when their difference is at
      most 20% of the shorter of the two. */
  predicate WithinLimit(a: real, b: real)
  {
    Abs(b - a) <= 0.2 * Min(a, b)
  }

  /** Every adjacent pair of spans passes. */
  predicate SpansCompatible(spans: seq<real>)
  {
    forall i :: 1 <= i < |spans| ==> WithinLimit(spans[i - 1], spans[i])
  }

  /** check_span_limits: scans the adjacent pairs in order and stops at the
      first one that fails. On failure `pair` is the index of the later span of
      that pair; every earlier pair passed. */
  method CheckSpanLimits(spans: seq<real>) returns (ok: bool, pair: nat)
    ensures ok <==> SpansCompatible(spans)
    ensures !ok ==> 1 <= pair < |spans| && !WithinLimit(spans[pair - 1], spans[pair])
    ensures !ok ==> forall j :: 1 <= j < pair ==> WithinLimit(spans[j - 1], spans[j])
  {
    var i := 1;
    while i < |spans|
      invariant 1 <= i <= |spans| + 1
      invariant forall j :: 1 <= j < i && j < |spans| ==> WithinLimit(spans[j - 1], spans[j])
    {
      var diff := Abs(spans[i] - spans[i - 1]);
      if diff > 0.2 * Min(spans[i], spans[i - 1]) {
        return false, i;
      }
      i := i + 1;
    }
    return true, 0;
  }

  /** For positive spans the 20% rule says the longer span is at most 1.2
      times the shorter. */
  lemma WithinLimitRatio(a: real, b: real)
    requires a > 0.0 && b > 0.0
    ensures WithinLimit(a, b) <==> Max(a, b) <= 1.2 * Min(a, b)
  {
  }

  /** The rule does not depend on which span of the pair comes first. */
  lemma WithinLimitSymmetric(a: real, b: real)
    ensures WithinLimit(a, b) <==> WithinLimit(b, a)
  {
  }

  function Reverse(s: seq<real>): (r: seq<real>)
    ensures |r| == |s|
    ensures forall i :: 0 <= i < |s| ==> r[i] == s[|s| - 1 - i]
  {
    if s == [] then [] else Reverse(s[1..]) + [s[0]]
  }

  /** Listing the spans from the other end gives the same verdict. */
  lemma SpansCompatibleReverse(spans: seq<real>)
    ensures SpansCompatible(Reverse(spans)) <==> SpansCompatible(spans)
  {
    var r := Reverse(spans);
    var n := |spans|;
    if SpansCompatible(spans) {
      forall i | 1 <= i < n
        ensures WithinLimit(r[i - 1], r[i])
      {
        assert r[i - 1] == spans[n - i] && r[i] == spans[n - 1 - i];
        assert WithinLimit(spans[n - i - 1], spans[n - i]);
        WithinLimitSymmetric(r[i - 1], r[i]);
      }
    }
    if SpansCompatible(r) {
      forall i | 1 <= i < n
        ensures WithinLimit(spans[i - 1], spans[i])
      {
        assert spans[i - 1] == r[n - i] && spans[i] == r[n - 1 - i];
        assert WithinLimit(r[n - i - 1], r[n - i]);
        WithinLimitSymmetric(spans[i - 1], spans[i]);
      }
    }
  }

  /** check_load_ratio: a zero dead load is rejected before any division;
      otherwise the ratio live / dead must be below 3. */
  function CheckLoadRatio(dead: real, live: real): (ok: bool)
    ensures dead == 0.0 ==> !ok
    ensures dead > 0.0 ==> (ok <==> live < 3.0 * dead)
    ensures dead < 0.0 ==> (ok <==> live > 3.0 * dead)
  {
    if dead == 0.0 then false
    else if live / dead >= 3.0 then false
    else true
  }
}
