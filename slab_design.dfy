/** The design run behind the "Calculate Design" button: both input checks,
    then thickness, loads, moments and reinforcement, in that order. */
module SlabDesign {
  import opened Results
  import opened Validation
  import opened Loads
  import opened Moments
  import opened Reinforcement

  /** Why a run produced no design. */
  datatype Rejection =
    | SpanLimit(pair: nat)
    | LoadRatio
    | NoSection(cause: Infeasible)

  datatype Design = Design(
    thickness: int, selfWeight: real, totalDead: real, wu: real,
    moments: seq<map<Location, real>>, reinforcement: seq<map<Location, KeyResult>>)

  /** The thickness of a slab whose spans are all positive is at least 3 in. */
  lemma PositiveSpansThickness(spans: seq<real>)
    requires |spans| > 0 && forall i :: 0 <= i < |spans| ==> spans[i] > 0.0
    ensures SlabThickness(spans) >= 3
  {
  }

  /** The factored load a run designs for: the superimposed loads plus the self
      weight of the slab sized from the spans. */
  function FactoredLoad(spans: seq<real>, dead: real, live: real): real
    requires |spans| > 0
  {
    UltimateLoad(dead, SelfWeight(SlabThickness(spans)), live).1
  }

  /** The bending moments of span i under the factored load of a run. */
  function RunMoments(spans: seq<real>, dead: real, live: real, i: nat): map<Location, real>
    requires i < |spans|
  {
    SpanMoments(Role(|spans|, i), spans[i], FactoredLoad(spans, dead, live))
  }

  /** Whether the moment at loc of span i fits the thickness of a run. */
  predicate RunFeasibleAt(spans: seq<real>, dead: real, live: real, fc: real, i: nat, loc: Location)
    requires i < |spans| && fc > 0.0 && loc in RunMoments(spans, dead, live, i)
  {
    var t := SlabThickness(spans);
    assert t % 3 == 0;
    Feasible(RunMoments(spans, dead, live, i)[loc], t, fc)
  }

  /** Whether every moment of span i fits the thickness of a run. */
  predicate RunSpanFeasible(spans: seq<real>, dead: real, live: real, fc: real, i: nat)
    requires i < |spans| && fc > 0.0
  {
    var t := SlabThickness(spans);
    assert t % 3 == 0;
    SpanFeasible(RunMoments(spans, dead, live, i), t, fc)
  }

  /** One design run. The span check comes first, and the load ratio is only
      checked when the spans pass. The thickness computed from the spans is
      the one reinforcement_design is given. */
  method Run(spans: seq<real>, dead: real, live: real, fc: real, fy: real, barSize: int,
             sqrt: real -> real)
    returns (r: Result<Design, Rejection>)
    requires |spans| > 0 && forall i :: 0 <= i < |spans| ==> spans[i] > 0.0
    requires fc > 0.0 && fy > 0.0
    ensures r.Failure? && r.error.SpanLimit? <==> !SpansCompatible(spans)
    ensures r.Failure? && r.error.LoadRatio? <==> SpansCompatible(spans) && !CheckLoadRatio(dead, live)
    ensures r.Success? ==> SpansCompatible(spans) && CheckLoadRatio(dead, live)
    ensures r.Success? ==>
      var d := r.value;
      d.thickness == SlabThickness(spans) && d.thickness >= 3 &&
      d.selfWeight == 12.5 * d.thickness as real &&
      (d.totalDead, d.wu) == UltimateLoad(dead, d.selfWeight, live) &&
      |d.moments| == |spans| && |d.reinforcement| == |spans|
    ensures r.Success? ==>
      var d := r.value;
      forall i :: 0 <= i < |spans| ==>
        d.moments[i] == SpanMoments(Role(|spans|, i), spans[i], d.wu) &&
        SpanFeasible(d.moments[i], d.thickness, fc) &&
        d.reinforcement[i] == DesignSpan(d.moments[i], d.thickness, fc, fy, barSize, sqrt)
    ensures r.Failure? && r.error.NoSection? ==>
      SpansCompatible(spans) && CheckLoadRatio(dead, live)
    ensures SpansCompatible(spans) && CheckLoadRatio(dead, live) &&
      (forall i :: 0 <= i < |spans| ==> RunSpanFeasible(spans, dead, live, fc, i))
      ==> r.Success?
    ensures r.Failure? && r.error.NoSection? ==>
      var i, loc := r.error.cause.span, r.error.cause.loc;
      i < |spans| && loc in RunMoments(spans, dead, live, i) &&
      !RunFeasibleAt(spans, dead, live, fc, i, loc) &&
      (forall j :: 0 <= j < i ==> RunSpanFeasible(spans, dead, live, fc, j)) &&
      (forall l :: l in RunMoments(spans, dead, live, i) && Rank(l) < Rank(loc) ==>
        RunFeasibleAt(spans, dead, live, fc, i, l))
  {
    var spansOk, pair := CheckSpanLimits(spans);
    if !spansOk {
      return Failure(SpanLimit(pair));
    }
    if !CheckLoadRatio(dead, live) {
      return Failure(LoadRatio);
    }
    var t := SlabThickness(spans);
    PositiveSpansThickness(spans);
    var selfWt := SelfWeight(t);
    var (totalDead, wu) := UltimateLoad(dead, selfWt, live);
    assert wu == FactoredLoad(spans, dead, live);
    var M := DesignMoments(spans, wu);
    assert forall i :: 0 <= i < |spans| ==> M[i] == RunMoments(spans, dead, live, i);
    var asResults := ReinforcementDesign(M, t, fc, fy, barSize, sqrt);
    if asResults.Failure? {
      var i, loc := asResults.error.span, asResults.error.loc;
      assert forall j :: 0 <= j < i ==> RunSpanFeasible(spans, dead, live, fc, j);
      assert !RunSpanFeasible(spans, dead, live, fc, i);
      assert forall l :: l in M[i] && Rank(l) < Rank(loc) ==> RunFeasibleAt(spans, dead, live, fc, i, l);
      return Failure(NoSection(asResults.error));
    }
    return Success(Design(t, selfWt, totalDead, wu, M, asResults.value));
  }
}
