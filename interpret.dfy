/**
 * HotspotReport: the user-facing reading of Gi* results (interpretHotspots,
 * services/spatialAnalysis.ts lines 111-250).
 *
 * The results are split by class, counted and turned into ratios; a chain of
 * thresholds on the hotspot ratio picks the area's health level and score; the
 * point-level diagnosis looks at the critical (z > 2.58) and high
 * (1.96 < z <= 2.58) hotspots; the maintenance list follows the health level.
 * Each sentence of the report is a tag of `Insight` or `Suggestion` carrying the
 * numbers the sentence interpolates.
 */
module HotspotReport {
  import opened Js
  import opened HotspotAnalysis

  /** 优良, 良好, 一般, 较差, 严重 */
  datatype HealthLevel = Excellent | Good | Fair | Poor | Severe

  /** The sentences of the area, point and line diagnoses. */
  datatype Insight =
    // area
    | NoReports
    | SystemicClustering(percent: int)
    | LaunchSpecialCampaign
    | HeavyMaintenancePressure(percent: int)
    | RepairInBatches
    | LocalHotspots(count: nat, percent: int)
    | PrioritiseHighZ
    | ScatteredHotspots(count: nat)
    | RoutineMaintenancePlan
    | NoSignificantHotspots
    | KeepPatrolFrequency
    | ColdspotReference(count: nat)
    // point
    | CriticalHotspots(count: nat)
    | StructuralFailure
    | PipelineLeak
    | HeavyVehicleDamage
    | SpecialSurvey
    | HighHotspots(count: nat)
    | AllModerate(count: nat)
    | RepairBySeverity
    // line
    | SeeRoadList

  /** The maintenance suggestions. */
  datatype Suggestion =
    | KeyRoadCampaign
    | UndergroundSurvey
    | StockRepairMaterials
    | RecheckWithinThreeMonths
    | MonthlyPlan
    | WatchSurroundings
    | DrainageCheckBeforeRain
    | RoutinePatrol
    | ShareColdspotExperience

  /** The numbers the summary sentence interpolates. */
  datatype Summary = Summary(total: nat, hotspotCount: nat, hotPercent: int, coldspotCount: nat,
                             normalCount: nat, level: HealthLevel, score: int)

  datatype Report = Report(
    hotspotCount: nat,
    coldspotCount: nat,
    normalCount: nat,
    hotRatio: real,
    coldRatio: real,
    avgHotZ: real,
    maxZ: real,
    hotspots: seq<HotspotResult>,
    coldspots: seq<HotspotResult>,
    areaHealthLevel: HealthLevel,
    areaHealthScore: int,
    summary: Summary,
    areaInsights: seq<Insight>,
    pointInsights: seq<Insight>,
    lineInsights: seq<Insight>,
    maintenanceSuggestions: seq<Suggestion>,
    legacyInsights: seq<Insight>)

  // ------------------------------------------------------------ filter / reduce

  /** The tests the report filters results by. */
  datatype Test = TypeIs(t: HotspotType) | ZAbove(bound: real) | ZWithin(low: real, high: real)

  predicate Keeps(test: Test, r: HotspotResult) {
    match test
    case TypeIs(t) => r.hotspotType == t
    case ZAbove(bound) => r.zScore > bound
    case ZWithin(low, high) => r.zScore > low && r.zScore <= high
  }

  /** `rs.filter(test)`: the kept results, in order. */
  function Filter(rs: seq<HotspotResult>, test: Test): (r: seq<HotspotResult>)
    ensures |r| <= |rs|
    ensures forall x :: x in r <==> x in rs && Keeps(test, x)
  {
    if rs == [] then []
    else
      var last := rs[|rs| - 1];
      var init := rs[..|rs| - 1];
      assert rs == init + [last];
      Filter(init, test) + (if Keeps(test, last) then [last] else [])
  }

  function OfType(rs: seq<HotspotResult>, t: HotspotType): seq<HotspotResult> {
    Filter(rs, TypeIs(t))
  }

  function ZScores(rs: seq<HotspotResult>): (zs: seq<real>)
    ensures |zs| == |rs|
    ensures forall i :: 0 <= i < |rs| ==> zs[i] == rs[i].zScore
  {
    seq(|rs|, i requires 0 <= i < |rs| => rs[i].zScore)
  }

  /** `count / total`, or 0 when there is nothing to divide by. */
  function Ratio(count: nat, total: nat): real {
    if total > 0 then count as real / total as real else 0.0
  }

  /** `Math.round(ratio * 100)`. */
  function Percent(ratio: real): int {
    Round(ratio * 100.0)
  }

  function AverageZ(hot: seq<HotspotResult>): real {
    if |hot| > 0 then Sum(ZScores(hot)) / |hot| as real else 0.0
  }

  function MaximumZ(hot: seq<HotspotResult>): real {
    if |hot| > 0 then MaxOf(ZScores(hot)) else 0.0
  }

  // ------------------------------------------------------------ the area chain

  datatype AreaAssessment = AreaAssessment(level: HealthLevel, score: int, insights: seq<Insight>)

  /** The threshold chain on the hotspot ratio, then the coldspot remark. */
  function AssessArea(total: nat, hotCount: nat, coldCount: nat): AreaAssessment {
    var hotRatio := Ratio(hotCount, total);
    var pct := Percent(hotRatio);
    var chain :=
      if total == 0 then AreaAssessment(Excellent, 100, [NoReports])
      else if hotRatio > 0.4 then AreaAssessment(Severe, 20, [SystemicClustering(pct), LaunchSpecialCampaign])
      else if hotRatio > 0.25 then AreaAssessment(Poor, 40, [HeavyMaintenancePressure(pct), RepairInBatches])
      else if hotRatio > 0.1 then AreaAssessment(Fair, 60, [LocalHotspots(hotCount, pct), PrioritiseHighZ])
      else if hotCount > 0 then AreaAssessment(Good, 80, [ScatteredHotspots(hotCount), RoutineMaintenancePlan])
      else AreaAssessment(Excellent, 95, [NoSignificantHotspots, KeepPatrolFrequency]);
    var cold := if coldCount > 0 && Ratio(coldCount, total) > 0.1 then [ColdspotReference(coldCount)] else [];
    AreaAssessment(chain.level, chain.score, chain.insights + cold)
  }

  /** The point-level diagnosis from the hotspots and their largest z. */
  function PointInsights(hot: seq<HotspotResult>, maxZ: real): seq<Insight> {
    var critical := Critical(hot);
    var high := High(hot);
    var criticalPart :=
      if |critical| > 0 then
        [CriticalHotspots(|critical|)]
        + (if maxZ > 3.5 then [StructuralFailure] else [])
        + (if maxZ > 3.0 then [PipelineLeak] else [])
        + [HeavyVehicleDamage, SpecialSurvey]
      else [];
    var highPart := if |high| > 0 then [HighHotspots(|high|)] else [];
    var moderatePart := if |hot| > 0 && |critical| == 0 then [AllModerate(|hot|), RepairBySeverity] else [];
    criticalPart + highPart + moderatePart
  }

  /** Hotspots significant at the 99% level. */
  function Critical(hot: seq<HotspotResult>): seq<HotspotResult> {
    Filter(hot, ZAbove(2.58))
  }

  /** Hotspots significant at the 95% but not the 99% level. */
  function High(hot: seq<HotspotResult>): seq<HotspotResult> {
    Filter(hot, ZWithin(1.96, 2.58))
  }

  function Maintenance(level: HealthLevel): seq<Suggestion> {
    if level == Severe || level == Poor then
      [KeyRoadCampaign, UndergroundSurvey, StockRepairMaterials, RecheckWithinThreeMonths]
    else if level == Fair then
      [MonthlyPlan, WatchSurroundings, DrainageCheckBeforeRain]
    else
      [RoutinePatrol, ShareColdspotExperience]
  }

  /** interpretHotspots. */
  function InterpretHotspots(giResults: seq<HotspotResult>): (r: Report)
    ensures r.hotspotCount + r.coldspotCount + r.normalCount == |giResults|
    ensures 0.0 <= r.hotRatio <= 1.0 && 0.0 <= r.coldRatio <= 1.0
    ensures forall x :: x in r.hotspots <==> x in giResults && x.hotspotType == Hotspot
    ensures forall x :: x in r.coldspots <==> x in giResults && x.hotspotType == Coldspot
    ensures r.hotspotCount == |r.hotspots| && r.coldspotCount == |r.coldspots|
    ensures r.hotRatio == Ratio(r.hotspotCount, |giResults|) && r.coldRatio == Ratio(r.coldspotCount, |giResults|)
    ensures r.areaHealthLevel == AssessArea(|giResults|, r.hotspotCount, r.coldspotCount).level
    ensures r.areaHealthScore == AssessArea(|giResults|, r.hotspotCount, r.coldspotCount).score
    ensures r.areaInsights == AssessArea(|giResults|, r.hotspotCount, r.coldspotCount).insights
    ensures r.maintenanceSuggestions == Maintenance(r.areaHealthLevel)
    ensures r.legacyInsights == r.areaInsights + r.pointInsights[..if |r.pointInsights| < 2 then |r.pointInsights| else 2]
  {
    var hot := OfType(giResults, Hotspot);
    var cold := OfType(giResults, Coldspot);
    var normal := OfType(giResults, NotSignificant);
    PartitionCounts(giResults);
    var total := |giResults|;
    var hotRatio := Ratio(|hot|, total);
    var coldRatio := Ratio(|cold|, total);
    RatioInUnitInterval(|hot|, total);
    RatioInUnitInterval(|cold|, total);
    var maxZ := MaximumZ(hot);
    var area := AssessArea(total, |hot|, |cold|);
    var points := PointInsights(hot, maxZ);
    Report(
      |hot|, |cold|, |normal|, hotRatio, coldRatio, AverageZ(hot), maxZ, hot, cold,
      area.level, area.score,
      Summary(total, |hot|, Percent(hotRatio), |cold|, |normal|, area.level, area.score),
      area.insights, points, [SeeRoadList], Maintenance(area.level),
      area.insights + points[..if |points| < 2 then |points| else 2])
  }

  // ------------------------------------------------------------------ lemmas

  lemma {:induction false} FilterSplit(a: seq<HotspotResult>, b: seq<HotspotResult>, test: Test)
    ensures Filter(a + b, test) == Filter(a, test) + Filter(b, test)
    decreases |b|
  {
    if b != [] {
      var init := b[..|b| - 1];
      var last := b[|b| - 1];
      assert a + b == (a + init) + [last];
      assert (a + b)[..|a + b| - 1] == a + init;
      FilterSplit(a, init, test);
    } else {
      assert a + b == a;
    }
  }

  /** Every result is exactly one of hotspot, coldspot, not significant. */
  lemma {:induction false} PartitionCounts(rs: seq<HotspotResult>)
    ensures |OfType(rs, Hotspot)| + |OfType(rs, Coldspot)| + |OfType(rs, NotSignificant)| == |rs|
  {
    if rs != [] {
      var init := rs[..|rs| - 1];
      PartitionCounts(init);
      assert rs == init + [rs[|rs| - 1]];
      FilterSplit(init, [rs[|rs| - 1]], TypeIs(Hotspot));
      FilterSplit(init, [rs[|rs| - 1]], TypeIs(Coldspot));
      FilterSplit(init, [rs[|rs| - 1]], TypeIs(NotSignificant));
    }
  }

  /** Two filters with disjoint tests keep at most as many results as there are. */
  lemma {:induction false} DisjointFiltersCount(rs: seq<HotspotResult>, f: Test, g: Test)
    requires forall x :: !(Keeps(f, x) && Keeps(g, x))
    ensures |Filter(rs, f)| + |Filter(rs, g)| <= |rs|
  {
    if rs != [] {
      var init := rs[..|rs| - 1];
      DisjointFiltersCount(init, f, g);
    }
  }

  lemma RatioInUnitInterval(count: nat, total: nat)
    requires count <= total
    ensures 0.0 <= Ratio(count, total) <= 1.0
  {
    if total > 0 {
      assert count as real / total as real <= total as real / total as real;
    }
  }

  /**
   * The critical and high groups are disjoint subsets of the hotspots, so
   * together they never outnumber them.
   */
  lemma CriticalHighDisjoint(hot: seq<HotspotResult>)
    ensures forall x :: x in Critical(hot) ==> x in hot && x.zScore > 2.58
    ensures forall x :: x in High(hot) ==> x in hot && 1.96 < x.zScore <= 2.58
    ensures forall x :: !(x in Critical(hot) && x in High(hot))
    ensures |Critical(hot)| + |High(hot)| <= |hot|
  {
    DisjointFiltersCount(hot, ZAbove(2.58), ZWithin(1.96, 2.58));
  }

  /** The health level as a statement about counts: the chain's thresholds are 40%, 25% and 10%. */
  lemma HealthLevelIff(total: nat, hotCount: nat, coldCount: nat)
    requires total > 0 && hotCount <= total
    ensures AssessArea(total, hotCount, coldCount).level == Severe <==> 5 * hotCount > 2 * total
    ensures AssessArea(total, hotCount, coldCount).level == Poor <==>
      5 * hotCount <= 2 * total && 4 * hotCount > total
    ensures AssessArea(total, hotCount, coldCount).level == Fair <==>
      4 * hotCount <= total && 10 * hotCount > total
    ensures AssessArea(total, hotCount, coldCount).level == Good <==>
      10 * hotCount <= total && hotCount > 0
    ensures AssessArea(total, hotCount, coldCount).level == Excellent <==> hotCount == 0
  {
    RatioExceeds(hotCount, total, 0.4);
    RatioExceeds(hotCount, total, 0.25);
    RatioExceeds(hotCount, total, 0.1);
  }

  /** A ratio exceeds `c` exactly when the count exceeds `c` times the total. */
  lemma RatioExceeds(count: nat, total: nat, c: real)
    requires total > 0
    ensures Ratio(count, total) > c <==> count as real > c * total as real
  {
    var r := Ratio(count, total);
    var t := total as real;
    assert r * t == count as real;
    if r > c {
      assert r * t > c * t;
    } else {
      assert r * t <= c * t;
    }
  }

  /** The score belongs to the level: 20, 40, 60, 80, and 95 (100 for an empty area). */
  lemma HealthScoreOfLevel(total: nat, hotCount: nat, coldCount: nat)
    ensures var a := AssessArea(total, hotCount, coldCount);
      && (a.level == Severe <==> a.score == 20)
      && (a.level == Poor <==> a.score == 40)
      && (a.level == Fair <==> a.score == 60)
      && (a.level == Good <==> a.score == 80)
      && (a.level == Excellent <==> a.score == 95 || a.score == 100)
      && (a.score == 100 <==> total == 0)
  {
  }

  /** More hotspots among the same number of reports never improve the score. */
  lemma HealthScoreAntitone(total: nat, hot1: nat, hot2: nat, coldCount: nat)
    requires total > 0 && hot1 <= hot2 <= total
    ensures AssessArea(total, hot2, coldCount).score <= AssessArea(total, hot1, coldCount).score
  {
    HealthLevelIff(total, hot1, coldCount);
    HealthLevelIff(total, hot2, coldCount);
    HealthScoreOfLevel(total, hot1, coldCount);
    HealthScoreOfLevel(total, hot2, coldCount);
  }

  /** 严重 and 较差 get four suggestions, 一般 three, the others two. */
  lemma MaintenanceCount(level: HealthLevel)
    ensures |Maintenance(level)| == (if level == Severe || level == Poor then 4 else if level == Fair then 3 else 2)
  {
  }

  /** The coldspot remark is added exactly when more than 10% of the reports are coldspots. */
  lemma ColdspotRemark(total: nat, hotCount: nat, coldCount: nat)
    requires total > 0
    ensures var a := AssessArea(total, hotCount, coldCount);
      ColdspotReference(coldCount) in a.insights <==> 10 * coldCount > total
  {
    RatioExceeds(coldCount, total, 0.1);
  }

  lemma {:induction false} SumAtMost(xs: seq<real>, b: real)
    requires forall i :: 0 <= i < |xs| ==> xs[i] <= b
    ensures Sum(xs) <= |xs| as real * b
  {
    if xs != [] {
      SumAtMost(xs[..|xs| - 1], b);
    }
  }

  lemma {:induction false} SumAtLeast(xs: seq<real>, b: real)
    requires forall i :: 0 <= i < |xs| ==> xs[i] >= b
    ensures Sum(xs) >= |xs| as real * b
  {
    if xs != [] {
      SumAtLeast(xs[..|xs| - 1], b);
    }
  }

  /** A total of at most `n` times a bound, divided by `n`, is at most that bound. */
  lemma DivideBounded(total: real, n: real, bound: real)
    requires n > 0.0 && total <= n * bound
    ensures total / n <= bound
  {
    var q := total / n;
    assert q * n == total;
    assert (q - bound) * n <= 0.0;
  }

  /** The mean hotspot z never exceeds the largest one. */
  lemma AverageAtMostMaximum(hot: seq<HotspotResult>)
    ensures AverageZ(hot) <= MaximumZ(hot)
  {
    if |hot| > 0 {
      var zs := ZScores(hot);
      var mx := MaxOf(zs);
      SumAtMost(zs, mx);
      var n := |hot| as real;
      DivideBounded(Sum(zs), n, mx);
    }
  }

  /**
   * When the results were classified against a threshold `sig`, every reported
   * hotspot has z >= sig, so the mean and the largest hotspot z are at least `sig`.
   */
  lemma HotspotZAtLeastThreshold(giResults: seq<HotspotResult>, sig: real)
    requires forall k :: 0 <= k < |giResults| ==>
      giResults[k].hotspotType == Classify(giResults[k].zScore, sig)
    requires |OfType(giResults, Hotspot)| > 0
    ensures AverageZ(OfType(giResults, Hotspot)) >= sig
    ensures MaximumZ(OfType(giResults, Hotspot)) >= sig
  {
    var zs := ZScores(OfType(giResults, Hotspot));
    HotspotsReachThreshold(giResults, sig);
    MeanAtLeast(zs, sig);
    assert zs[0] <= MaxOf(zs);
  }

  /** Every result kept as a hotspot has z >= sig. */
  lemma HotspotsReachThreshold(giResults: seq<HotspotResult>, sig: real)
    requires forall k :: 0 <= k < |giResults| ==>
      giResults[k].hotspotType == Classify(giResults[k].zScore, sig)
    ensures forall i :: 0 <= i < |OfType(giResults, Hotspot)| ==> OfType(giResults, Hotspot)[i].zScore >= sig
  {
    var hot := OfType(giResults, Hotspot);
    forall i | 0 <= i < |hot|
      ensures hot[i].zScore >= sig
    {
      assert hot[i] in hot;
      var k :| 0 <= k < |giResults| && giResults[k] == hot[i];
    }
  }

  /** The mean of values that are all at least b is at least b. */
  lemma MeanAtLeast(xs: seq<real>, b: real)
    requires |xs| > 0
    requires forall i :: 0 <= i < |xs| ==> xs[i] >= b
    ensures Sum(xs) / |xs| as real >= b
  {
    SumAtLeast(xs, b);
    var n := |xs| as real;
    assert Sum(xs) >= n * b;
  }

  /** The area insights always open with one of the chain's sentences. */
  lemma LegacyKeepsAreaInsights(giResults: seq<HotspotResult>)
    ensures var r := InterpretHotspots(giResults);
      && |r.legacyInsights| <= |r.areaInsights| + 2
      && r.legacyInsights[..|r.areaInsights|] == r.areaInsights
  {
  }

  /** The percentage of a ratio in [0, 1] lies in [0, 100]. */
  lemma PercentInRange(ratio: real)
    requires 0.0 <= ratio <= 1.0
    ensures 0 <= Percent(ratio) <= 100
  {
  }

  /**
   * The "all moderate" remark appears exactly when there are hotspots and none
   * of them is critical.
   */
  lemma ModerateRemarkIff(hot: seq<HotspotResult>, maxZ: real)
    ensures AllModerate(|hot|) in PointInsights(hot, maxZ) <==> |hot| > 0 && |Critical(hot)| == 0
  {
    var ins := PointInsights(hot, maxZ);
    if |hot| > 0 && |Critical(hot)| == 0 {
      assert ins[|ins| - 2] == AllModerate(|hot|);
    }
  }
}
