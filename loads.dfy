/** Slab sizing and loading: the minimum thickness from the longest span, the
    slab's self weight, and the factored load 1.2D + 1.6L in ksf. */
module Loads {
  import opened Rounding

  /** The longest span (Python's `max`). */
  function MaxSpan(spans: seq<real>): (m: real)
    requires |spans| > 0
    ensures m in spans
    ensures forall x :: x in spans ==> x <= m
  {
    if |spans| == 1 then spans[0]
    else
      var rest := MaxSpan(spans[1..]);
      assert forall x :: x in spans ==> x == spans[0] || x in spans[1..];
      if spans[0] >= rest then spans[0] else rest
  }

  /** math.ceil */
  function Ceil(x: real): (n: int)
    ensures n as real - 1.0 < x <= n as real
  {
    if x.Floor as real == x then x.Floor else x.Floor + 1
  }

  /** slab_thickness, in inches: the larger of the L/24 (end span) and L/28
      (interior span) minimum thicknesses of the longest span L, rounded up to a
      multiple of 3 in. */
  function SlabThickness(spans: seq<real>): (t: int)
    requires |spans| > 0
    ensures t % 3 == 0
    ensures MaxSpan(spans) * 12.0 / 24.0 <= t as real
    ensures MaxSpan(spans) * 12.0 / 28.0 <= t as real
    ensures (t - 3) as real < Max(MaxSpan(spans) * 12.0 / 24.0, MaxSpan(spans) * 12.0 / 28.0)
  {
    var maxL := MaxSpan(spans);
    var t1 := Max(maxL * 12.0 / 24.0, maxL * 12.0 / 28.0);
    Ceil(t1 / 3.0) * 3
  }

  /** For a non-negative longest span L the L/24 term always governs, so the
      thickness is ceil(L/6) * 3, lies in [L/2, L/2 + 3), and is at least 3 in
      for any positive span. */
  lemma ThicknessClosedForm(spans: seq<real>)
    requires |spans| > 0 && MaxSpan(spans) >= 0.0
    ensures SlabThickness(spans) == Ceil(MaxSpan(spans) / 6.0) * 3
    ensures MaxSpan(spans) / 2.0 <= SlabThickness(spans) as real < MaxSpan(spans) / 2.0 + 3.0
    ensures MaxSpan(spans) > 0.0 ==> SlabThickness(spans) >= 3
  {
    var L := MaxSpan(spans);
    assert L * 12.0 / 24.0 >= L * 12.0 / 28.0;
    assert L * 12.0 / 24.0 / 3.0 == L / 6.0;
  }

  /** A longer governing span never gives a thinner slab. */
  lemma ThicknessMonotone(spans1: seq<real>, spans2: seq<real>)
    requires |spans1| > 0 && |spans2| > 0
    requires 0.0 <= MaxSpan(spans1) <= MaxSpan(spans2)
    ensures SlabThickness(spans1) <= SlabThickness(spans2)
  {
  }

  /** self_weight_slab: 150 pcf over t/12 ft of depth, rounded to two
      decimals; for a whole number of inches that is exactly 12.5 psf per inch. */
  function SelfWeight(t: int): (w: real)
    ensures w == 12.5 * t as real
  {
    RoundTwoPlacesExact(150.0 * (t as real / 12.0), 1250 * t);
    RoundTwoPlaces(150.0 * (t as real / 12.0))
  }

  /** ultimate_load: the total dead load (superimposed plus self weight) and the
      factored load 1.2D + 1.6L converted from psf to ksf. */
  function UltimateLoad(dead: real, selfWt: real, live: real): (r: (real, real))
    ensures r.0 == dead + selfWt
    ensures r.1 * 1000.0 == 1.2 * r.0 + 1.6 * live
    ensures 0.0 <= dead && 0.0 <= selfWt && 0.0 <= live ==> 0.0 <= r.0 && 0.0 <= r.1
  {
    var totalDead := dead + selfWt;
    var wu := (1.2 * totalDead + 1.6 * live) / 1000.0;
    (totalDead, wu)
  }

  /** The factored load lies between 1.2 and 1.6 times the service load. */
  lemma UltimateLoadBounds(dead: real, selfWt: real, live: real)
    requires 0.0 <= dead && 0.0 <= selfWt && 0.0 <= live
    ensures 1.2 * (dead + selfWt + live) <= UltimateLoad(dead, selfWt, live).1 * 1000.0
    ensures UltimateLoad(dead, selfWt, live).1 * 1000.0 <= 1.6 * (dead + selfWt + live)
  {
  }

  /** More load of either kind never lowers the factored load. */
  lemma UltimateLoadMonotone(dead1: real, live1: real, dead2: real, live2: real, selfWt: real)
    requires dead1 <= dead2 && live1 <= live2
    ensures UltimateLoad(dead1, selfWt, live1).1 <= UltimateLoad(dead2, selfWt, live2).1
  {
  }

  /** A 9 in slab weighs 112.5 psf; with 20 psf superimposed dead load and
      40 psf live load the factored load is 0.223 ksf. */
  lemma NineInchSlab()
    ensures SelfWeight(9) == 112.5
    ensures UltimateLoad(20.0, SelfWeight(9), 40.0) == (132.5, 0.223)
  {
  }
}
