/**
 * HotspotAnalysis: the Getis-Ord Gi* statistic with binary distance weights
 * (computeGetisOrdGi, services/spatialAnalysis.ts lines 49-103).
 *
 * For each point i the neighbourhood is every point j (i itself included)
 * whose haversine distance from i is at most the bandwidth. The z-score
 * compares the neighbourhood's total value with what the global mean predicts,
 * scaled by the population standard deviation; it stays 0 whenever that
 * scale is 0.
 */
module HotspotAnalysis {
  import opened Wrappers
  import opened Js
  import opened GeoMath

  /** A reported damage observation; `value` is its severity weight (default 1). */
  datatype DamagePoint = DamagePoint(
    id: Option<string>,
    lat: real,
    lng: real,
    value: Option<real>,
    roadId: Option<string>)

  datatype HotspotType = Hotspot | Coldspot | NotSignificant

  datatype HotspotResult = HotspotResult(
    id: Option<string>,
    roadId: Option<string>,
    lat: real,
    lng: real,
    value: real,
    zScore: real,
    pValue: real,
    hotspotType: HotspotType)

  /** The caller's options; an absent field takes the default below. */
  datatype GiOptions = GiOptions(bandwidthMeters: Option<real>, significanceZ: Option<real>)

  const DEFAULT_GI_BANDWIDTH: real := 500.0
  const DEFAULT_SIGNIFICANCE_Z: real := 1.96

  /** `typeof p.value === 'number' ? p.value : 1` */
  function ValueOf(p: DamagePoint): real { p.value.GetOr(1.0) }

  function Values(ps: seq<DamagePoint>): (vs: seq<real>)
    ensures |vs| == |ps|
    ensures forall i :: 0 <= i < |ps| ==> vs[i] == ValueOf(ps[i])
  {
    seq(|ps|, i requires 0 <= i < |ps| => ValueOf(ps[i]))
  }

  /** Left-to-right sum, as `reduce((s, v) => s + v, 0)` computes it. */
  function Sum(xs: seq<real>): real {
    if xs == [] then 0.0 else Sum(xs[..|xs| - 1]) + xs[|xs| - 1]
  }

  /** Sum of squared deviations from `mean`. */
  function SquaredDeviations(xs: seq<real>, mean: real): real {
    if xs == [] then 0.0
    else SquaredDeviations(xs[..|xs| - 1], mean) + (xs[|xs| - 1] - mean) * (xs[|xs| - 1] - mean)
  }

  function Mean(xs: seq<real>): real
    requires |xs| > 0
  {
    Sum(xs) / |xs| as real
  }

  /** Population variance (denominator n, not n - 1). */
  function PopulationVariance(xs: seq<real>): real
    requires |xs| > 0
  {
    SquaredDeviations(xs, Mean(xs)) / |xs| as real
  }

  function PopulationStd(m: Trig, xs: seq<real>): real
    requires |xs| > 0
  {
    m.Sqrt(PopulationVariance(xs))
  }

  /** The accumulators sumW, sumWx and sumW2 of the inner loop. */
  datatype Sums = Sums(w: real, wx: real, w2: real)

  /** Binary spatial weight: 1 within the bandwidth (inclusive), else 0. */
  function Weight(m: Trig, a: DamagePoint, b: DamagePoint, bandwidth: real): real {
    if Haversine(m, a.lat, a.lng, b.lat, b.lng) <= bandwidth then 1.0 else 0.0
  }

  /** The accumulators after visiting points 0 .. j-1 from point `pi`. */
  function NeighbourSums(m: Trig, ps: seq<DamagePoint>, vals: seq<real>, pi: DamagePoint,
                         bandwidth: real, j: nat): Sums
    requires j <= |ps| == |vals|
  {
    if j == 0 then Sums(0.0, 0.0, 0.0)
    else
      var s := NeighbourSums(m, ps, vals, pi, bandwidth, j - 1);
      var w := Weight(m, pi, ps[j - 1], bandwidth);
      Sums(s.w + w, s.wx + w * vals[j - 1], s.w2 + w * w)
  }

  /** The radicand of the Gi* denominator: (n sumW2 - sumW^2) / (n - 1). */
  function WeightSpread(n: nat, sums: Sums): real
    requires n > 1
  {
    (n as real * sums.w2 - sums.w * sums.w) / (n - 1) as real
  }

  /** The Gi* denominator s * sqrt((n sumW2 - sumW^2) / (n - 1)). */
  function Denominator(m: Trig, n: nat, s: real, sums: Sums): real
    requires n > 1
  {
    s * m.Sqrt(WeightSpread(n, sums))
  }

  /** True when the z-score is actually computed (otherwise it stays 0 and p stays 1). */
  predicate Computed(m: Trig, n: nat, s: real, sums: Sums) {
    s > 0.0 && n > 1 && Denominator(m, n, s, sums) != 0.0
  }

  function ZScore(m: Trig, n: nat, meanX: real, s: real, sums: Sums): real {
    if Computed(m, n, s, sums) then (sums.wx - meanX * sums.w) / Denominator(m, n, s, sums)
    else 0.0
  }

  function Classify(z: real, significanceZ: real): HotspotType {
    if z >= significanceZ then Hotspot
    else if z <= -significanceZ then Coldspot
    else NotSignificant
  }

  /** The neighbourhood accumulators of point i over the whole input. */
  function SumsAt(m: Trig, ps: seq<DamagePoint>, i: nat, bandwidth: real): Sums
    requires i < |ps|
  {
    NeighbourSums(m, ps, Values(ps), ps[i], bandwidth, |ps|)
  }

  /** The result record of point `pt` from the global statistics and its accumulators. */
  function ResultFrom(m: Trig, pt: DamagePoint, n: nat, meanX: real, s: real, sums: Sums,
                      significanceZ: real): HotspotResult
  {
    var z := ZScore(m, n, meanX, s, sums);
    var p := if Computed(m, n, s, sums) then PValue(m, z) else 1.0;
    HotspotResult(pt.id, pt.roadId, pt.lat, pt.lng, ValueOf(pt), z, p, Classify(z, significanceZ))
  }

  /** The Gi* result of point i: the specification of one iteration of the outer map. */
  function GiAt(m: Trig, ps: seq<DamagePoint>, i: nat, bandwidth: real, significanceZ: real): HotspotResult
    requires i < |ps|
  {
    var vals := Values(ps);
    ResultFrom(m, ps[i], |ps|, Mean(vals), PopulationStd(m, vals), SumsAt(m, ps, i, bandwidth), significanceZ)
  }

  /** The j-loop of computeGetisOrdGi: weights, weighted values and squared weights around `pi`. */
  method AccumulateNeighbours(m: Trig, points: seq<DamagePoint>, values: seq<real>, pi: DamagePoint,
                              bandwidth: real)
    returns (sumW: real, sumWx: real, sumW2: real)
    requires |values| == |points|
    ensures Sums(sumW, sumWx, sumW2) == NeighbourSums(m, points, values, pi, bandwidth, |points|)
  {
    sumW, sumWx, sumW2 := 0.0, 0.0, 0.0;
    var j := 0;
    while j < |points|
      invariant 0 <= j <= |points|
      invariant Sums(sumW, sumWx, sumW2) == NeighbourSums(m, points, values, pi, bandwidth, j)
    {
      var pj := points[j];
      var d := Haversine(m, pi.lat, pi.lng, pj.lat, pj.lng);
      var w := if d <= bandwidth then 1.0 else 0.0;
      sumW := sumW + w;
      sumWx := sumWx + w * values[j];
      sumW2 := sumW2 + w * w;
      j := j + 1;
    }
  }

  /**
   * computeGetisOrdGi: one result per point, in input order, with the point's
   * id, roadId, position and (defaulted) value, its z-score and p-value, and
   * its classification against the significance threshold.
   */
  method ComputeGetisOrdGi(m: Trig, points: seq<DamagePoint>, options: GiOptions)
    returns (results: seq<HotspotResult>)
    ensures |results| == |points|
    ensures forall i :: 0 <= i < |points| ==>
      results[i] == GiAt(m, points, i, options.bandwidthMeters.GetOr(DEFAULT_GI_BANDWIDTH),
                         options.significanceZ.GetOr(DEFAULT_SIGNIFICANCE_Z))
    ensures forall i :: 0 <= i < |points| ==>
      && results[i].id == points[i].id && results[i].roadId == points[i].roadId
      && results[i].lat == points[i].lat && results[i].lng == points[i].lng
      && results[i].value == ValueOf(points[i])
    ensures forall i :: 0 <= i < |points| ==>
      results[i].hotspotType == Classify(results[i].zScore, options.significanceZ.GetOr(DEFAULT_SIGNIFICANCE_Z))
  {
    var bandwidth := options.bandwidthMeters.GetOr(DEFAULT_GI_BANDWIDTH);
    var significanceZ := options.significanceZ.GetOr(DEFAULT_SIGNIFICANCE_Z);
    var n := |points|;
    if n == 0 {
      return [];
    }
    var values := Values(points);
    var meanX := Mean(values);
    var s := PopulationStd(m, values);
    results := [];
    var i := 0;
    while i < n
      invariant 0 <= i <= n
      invariant |results| == i
      invariant forall k :: 0 <= k < i ==> results[k] == GiAt(m, points, k, bandwidth, significanceZ)
    {
      var pi := points[i];
      var sumW, sumWx, sumW2 := AccumulateNeighbours(m, points, values, pi, bandwidth);
      var r := ResultFrom(m, pi, n, meanX, s, Sums(sumW, sumWx, sumW2), significanceZ);
      assert r == GiAt(m, points, i, bandwidth, significanceZ);
      results := results + [r];
      i := i + 1;
    }
  }

  // ------------------------------------------------------------------ lemmas

  /** With a positive threshold the three classes are exactly the three z ranges. */
  lemma ClassifyIff(z: real, significanceZ: real)
    requires significanceZ > 0.0
    ensures Classify(z, significanceZ) == Hotspot <==> z >= significanceZ
    ensures Classify(z, significanceZ) == Coldspot <==> z <= -significanceZ
    ensures Classify(z, significanceZ) == NotSignificant <==> -significanceZ < z < significanceZ
  {
  }

  /** Weights are 0 or 1, so sumW2 equals sumW, and 0 <= sumW <= j. */
  lemma {:induction false} NeighbourSumsBinary(m: Trig, ps: seq<DamagePoint>, vals: seq<real>,
                                               pi: DamagePoint, bandwidth: real, j: nat)
    requires j <= |ps| == |vals|
    ensures NeighbourSums(m, ps, vals, pi, bandwidth, j).w2 == NeighbourSums(m, ps, vals, pi, bandwidth, j).w
    ensures 0.0 <= NeighbourSums(m, ps, vals, pi, bandwidth, j).w <= j as real
  {
    if j > 0 {
      NeighbourSumsBinary(m, ps, vals, pi, bandwidth, j - 1);
    }
  }

  /** Gi* includes the point itself: a point at index k < j counts as its own neighbour. */
  lemma NeighbourSumsSelf(m: Trig, ps: seq<DamagePoint>, vals: seq<real>,
                          k: nat, bandwidth: real, j: nat)
    requires Lawful(m) && bandwidth >= 0.0
    requires k < j <= |ps| == |vals|
    ensures NeighbourSums(m, ps, vals, ps[k], bandwidth, j).w >= 1.0
  {
    WeightSelf(m, ps[k], bandwidth);
    NeighbourSumsHit(m, ps, vals, ps[k], bandwidth, k, j);
  }

  /** Once a point within the bandwidth has been visited, sumW is at least 1. */
  lemma {:induction false} NeighbourSumsHit(m: Trig, ps: seq<DamagePoint>, vals: seq<real>,
                                            pi: DamagePoint, bandwidth: real, q: nat, j: nat)
    requires q < j <= |ps| == |vals|
    requires Weight(m, pi, ps[q], bandwidth) == 1.0
    ensures NeighbourSums(m, ps, vals, pi, bandwidth, j).w >= 1.0
  {
    if j - 1 == q {
      NeighbourSumsBinary(m, ps, vals, pi, bandwidth, j - 1);
    } else {
      NeighbourSumsHit(m, ps, vals, pi, bandwidth, q, j - 1);
      NeighbourSumsGrow(m, ps, vals, pi, bandwidth, j);
    }
  }

  /** Visiting one more point never lowers sumW. */
  lemma NeighbourSumsGrow(m: Trig, ps: seq<DamagePoint>, vals: seq<real>,
                          pi: DamagePoint, bandwidth: real, j: nat)
    requires 0 < j <= |ps| == |vals|
    ensures NeighbourSums(m, ps, vals, pi, bandwidth, j).w >= NeighbourSums(m, ps, vals, pi, bandwidth, j - 1).w
  {
  }

  /** A point is within any non-negative bandwidth of itself. */
  lemma WeightSelf(m: Trig, p: DamagePoint, bandwidth: real)
    requires Lawful(m) && bandwidth >= 0.0
    ensures Weight(m, p, p, bandwidth) == 1.0
  {
    HaversineSelf(m, p.lat, p.lng);
  }

  /** When every point lies within the bandwidth of `pi`, sumW is the number visited. */
  lemma {:induction false} NeighbourSumsAll(m: Trig, ps: seq<DamagePoint>, vals: seq<real>,
                                            pi: DamagePoint, bandwidth: real, j: nat)
    requires j <= |ps| == |vals|
    requires forall q :: 0 <= q < |ps| ==> Weight(m, pi, ps[q], bandwidth) == 1.0
    ensures NeighbourSums(m, ps, vals, pi, bandwidth, j).w == j as real
  {
    if j > 0 {
      NeighbourSumsAll(m, ps, vals, pi, bandwidth, j - 1);
    }
  }

  /** A single point is never significant: z = 0 and p = 1. */
  lemma GiSinglePoint(m: Trig, ps: seq<DamagePoint>, bandwidth: real, significanceZ: real)
    requires |ps| == 1 && significanceZ > 0.0
    ensures GiAt(m, ps, 0, bandwidth, significanceZ).zScore == 0.0
    ensures GiAt(m, ps, 0, bandwidth, significanceZ).pValue == 1.0
    ensures GiAt(m, ps, 0, bandwidth, significanceZ).hotspotType == NotSignificant
  {
  }

  lemma {:induction false} SumConstant(xs: seq<real>, c: real)
    requires forall k :: 0 <= k < |xs| ==> xs[k] == c
    ensures Sum(xs) == |xs| as real * c
  {
    if xs != [] {
      SumConstant(xs[..|xs| - 1], c);
    }
  }

  lemma {:induction false} SquaredDeviationsConstant(xs: seq<real>, c: real)
    requires forall k :: 0 <= k < |xs| ==> xs[k] == c
    ensures SquaredDeviations(xs, c) == 0.0
  {
    if xs != [] {
      SquaredDeviationsConstant(xs[..|xs| - 1], c);
    }
  }

  /** All values equal: the standard deviation is 0, so every z is 0 and every p is 1. */
  lemma GiConstantValues(m: Trig, ps: seq<DamagePoint>, i: nat, bandwidth: real, significanceZ: real)
    requires Lawful(m)
    requires i < |ps|
    requires forall k :: 0 <= k < |ps| ==> ValueOf(ps[k]) == ValueOf(ps[0])
    ensures GiAt(m, ps, i, bandwidth, significanceZ).zScore == 0.0
    ensures GiAt(m, ps, i, bandwidth, significanceZ).pValue == 1.0
  {
    var vals := Values(ps);
    var c := ValueOf(ps[0]);
    SumConstant(vals, c);
    assert Mean(vals) == c;
    SquaredDeviationsConstant(vals, c);
    assert PopulationStd(m, vals) == 0.0;
  }

  lemma DenominatorOfFullWeights(m: Trig, n: nat, s: real, sums: Sums)
    requires Lawful(m) && n > 1
    requires sums.w == n as real && sums.w2 == n as real
    ensures Denominator(m, n, s, sums) == 0.0
  {
    assert n as real * sums.w2 - sums.w * sums.w == 0.0;
    assert WeightSpread(n, sums) == 0.0;
  }

  /** A point whose neighbourhood is the whole input gets z = 0 (the denominator vanishes). */
  lemma GiWholeNeighbourhood(m: Trig, ps: seq<DamagePoint>, i: nat, bandwidth: real, significanceZ: real)
    requires Lawful(m)
    requires i < |ps|
    requires forall q :: 0 <= q < |ps| ==> Weight(m, ps[i], ps[q], bandwidth) == 1.0
    ensures GiAt(m, ps, i, bandwidth, significanceZ).zScore == 0.0
    ensures GiAt(m, ps, i, bandwidth, significanceZ).pValue == 1.0
  {
    var vals := Values(ps);
    var n := |ps|;
    var sums := SumsAt(m, ps, i, bandwidth);
    NeighbourSumsAll(m, ps, vals, ps[i], bandwidth, n);
    NeighbourSumsBinary(m, ps, vals, ps[i], bandwidth, n);
    assert sums.w == n as real && sums.w2 == n as real;
    if n > 1 {
      DenominatorOfFullWeights(m, n, PopulationStd(m, vals), sums);
    }
  }

  /**
   * The sign of a computed z-score says whether the neighbourhood's total value
   * is above (hotspot side) or below (coldspot side) what the mean predicts.
   */
  lemma GiSign(m: Trig, ps: seq<DamagePoint>, i: nat, bandwidth: real, significanceZ: real)
    requires Lawful(m)
    requires i < |ps|
    ensures var r := GiAt(m, ps, i, bandwidth, significanceZ);
            var sums := SumsAt(m, ps, i, bandwidth);
            && (r.zScore > 0.0 <==> r.zScore != 0.0 && sums.wx > Mean(Values(ps)) * sums.w)
            && (r.zScore < 0.0 <==> r.zScore != 0.0 && sums.wx < Mean(Values(ps)) * sums.w)
  {
    var vals := Values(ps);
    var n := |ps|;
    var s := PopulationStd(m, vals);
    var sums := SumsAt(m, ps, i, bandwidth);
    if Computed(m, n, s, sums) {
      var d := Denominator(m, n, s, sums);
      assert m.Sqrt(WeightSpread(n, sums)) >= 0.0;
      assert d > 0.0;
      var num := sums.wx - Mean(vals) * sums.w;
      assert num > 0.0 ==> num / d > 0.0;
      assert num < 0.0 ==> num / d < 0.0;
      assert num == 0.0 ==> num / d == 0.0;
    }
  }

  /** Every p-value lies in (0, 1]. */
  lemma GiPValueInRange(m: Trig, ps: seq<DamagePoint>, i: nat, bandwidth: real, significanceZ: real)
    requires Lawful(m)
    requires i < |ps|
    ensures 0.0 < GiAt(m, ps, i, bandwidth, significanceZ).pValue <= 1.0
  {
    PValueInUnitInterval(m, GiAt(m, ps, i, bandwidth, significanceZ).zScore);
  }
}
