/**
 * AnalysisPolicy: the caller-side policy that feeds the selected-area analysis
 * (App.tsx, lines 876-992): condition weights, the conversion of the lanes'
 * damage points into analysis points, the adaptive bandwidth and cell-size
 * loop capped at 5e6 kernel operations, and the even-stride subsampling that
 * is used when the cap cannot be met.
 */
module AnalysisPolicy {
  import opened Wrappers
  import opened Js
  import opened GeoMath
  import opened HotspotAnalysis
  import RoadAggregate
  import KernelDensity

  /** A damage point as a lane stores it; `id` is the `String` form of its id when it has one. */
  datatype LanePoint = LanePoint(id: Option<string>, lat: real, lng: real, value: Option<real>)

  /** A selected lane: its id, its condition and its damage-point array, if it has one. */
  datatype Lane = Lane(id: string, condition: Option<string>, damagePoints: Option<seq<LanePoint>>)

  // ------------------------------------------------------------ weights and points

  /** conditionWeight */
  function ConditionWeight(cond: Option<string>): real {
    if cond == Some("Poor") then 1.8
    else if cond == Some("Fair") then 1.4
    else if cond == Some("Good") then 1.0
    else if cond == Some("Excellent") then 0.8
    else 1.0
  }

  /** The conditions that have a weight of their own, from best to worst. */
  function ConditionRank(cond: string): int {
    if cond == "Excellent" then 0
    else if cond == "Good" then 1
    else if cond == "Fair" then 2
    else if cond == "Poor" then 3
    else -1
  }

  /** `${laneId}-d-${p.id ?? idx}` */
  function PointId(laneId: string, p: LanePoint, idx: nat): string {
    laneId + "-d-" + (if p.id.Some? then p.id.value else NatToString(idx))
  }

  /** The analysis point made from the idx-th damage point of a lane. */
  function ToAnalysisPoint(lane: Lane, p: LanePoint, idx: nat): (q: DamagePoint)
    ensures q.id == Some(lane.id + "-d-" + (if p.id.Some? then p.id.value else NatToString(idx)))
    ensures q.roadId == Some(lane.id) && q.lat == p.lat && q.lng == p.lng
    ensures q.value == Some(p.value.GetOr(1.5) * ConditionWeight(lane.condition))
  {
    DamagePoint(Some(PointId(lane.id, p, idx)), p.lat, p.lng,
                Some(p.value.GetOr(1.5) * ConditionWeight(lane.condition)), Some(lane.id))
  }

  /** The `damagePoints.map` of one lane; a lane without an array gives none. */
  function LanePoints(lane: Lane): (ps: seq<DamagePoint>)
    ensures var dps := lane.damagePoints.GetOr([]);
      && |ps| == |dps|
      && forall i :: 0 <= i < |ps| ==> ps[i] == ToAnalysisPoint(lane, dps[i], i)
  {
    var dps := lane.damagePoints.GetOr([]);
    seq(|dps|, i requires 0 <= i < |dps| => ToAnalysisPoint(lane, dps[i], i))
  }

  /** `selectedLanes.flatMap(...)`: every lane's points, lane after lane. */
  function AnalysisPoints(lanes: seq<Lane>): seq<DamagePoint> {
    if lanes == [] then [] else AnalysisPoints(lanes[..|lanes| - 1]) + LanePoints(lanes[|lanes| - 1])
  }

  function DamageCount(lanes: seq<Lane>): nat {
    if lanes == [] then 0 else DamageCount(lanes[..|lanes| - 1]) + |lanes[|lanes| - 1].damagePoints.GetOr([])|
  }

  // ------------------------------------------------------------ the sizing loop

  const MAX_OPS: int := 5000000
  const SIZE_CAP: real := 400.0
  const SIZE_GROWTH: real := 1.4
  const METERS_PER_DEG: real := 111320.0

  /** The extent of the points: spans in degrees and meters per degree of longitude. */
  datatype Frame = Frame(minLng: real, minLat: real, maxLng: real, maxLat: real, lngScale: real)

  function FrameOf(m: Trig, points: seq<DamagePoint>): Frame
    requires |points| > 0
  {
    var lats := KernelDensity.Lats(points);
    var lngs := KernelDensity.Lngs(points);
    var minLat := MinOf(lats);
    var maxLat := MaxOf(lats);
    Frame(MinOf(lngs), minLat, MaxOf(lngs), maxLat, METERS_PER_DEG * m.Cos(ToRad((minLat + maxLat) / 2.0)))
  }

  /** The squared diagonal of the frame in square meters. */
  function SquaredDiagonal(f: Frame): real {
    var dx := (f.maxLng - f.minLng) * f.lngScale;
    var dy := (f.maxLat - f.minLat) * METERS_PER_DEG;
    dx * dx + dy * dy
  }

  /** `clamp(v, lo, hi)` = `Math.max(lo, Math.min(hi, v))` */
  function Clamp(v: real, lo: real, hi: real): (r: real)
    requires lo <= hi
    ensures lo <= r <= hi
    ensures lo <= v <= hi ==> r == v
  {
    Max(lo, Min(hi, v))
  }

  /** `clamp(diag / 4, 80, 600)` */
  function InitialBandwidth(m: Trig, f: Frame): real {
    Clamp(m.Sqrt(SquaredDiagonal(f)) / 4.0, 80.0, 600.0)
  }

  /** `clamp(bandwidth / 3, 25, 200)` */
  function InitialCellSize(bandwidth: real): real {
    Clamp(bandwidth / 3.0, 25.0, 200.0)
  }

  function AtLeastOne(x: int): (r: int)
    ensures r >= 1 && r >= x
  {
    if x >= 1 then x else 1
  }

  function GridRows(f: Frame, cellSize: real): int
    requires cellSize > 0.0
  {
    AtLeastOne(Ceil((f.maxLat - f.minLat) / (cellSize / METERS_PER_DEG)))
  }

  function GridCols(f: Frame, cellSize: real): int
    requires cellSize > 0.0 && f.lngScale > 0.0
  {
    AtLeastOne(Ceil((f.maxLng - f.minLng) / (cellSize / f.lngScale)))
  }

  function GridCells(f: Frame, cellSize: real): int
    requires cellSize > 0.0 && f.lngScale > 0.0
  {
    AtLeastOne(GridRows(f, cellSize) * GridCols(f, cellSize))
  }

  /** The kernel operations of a grid: cells times points. */
  function Ops(f: Frame, n: nat, cellSize: real): int
    requires cellSize > 0.0 && f.lngScale > 0.0
  {
    GridCells(f, cellSize) * n
  }

  /** The loop's exit condition: few enough operations, or the cell size cap reached. */
  predicate Settled(f: Frame, n: nat, cellSize: real)
    requires cellSize > 0.0 && f.lngScale > 0.0
  {
    Ops(f, n, cellSize) <= MAX_OPS || cellSize >= SIZE_CAP
  }

  /** The cell size after k steps of `cellSize *= 1.4`. */
  function SizeAfter(cellSize0: real, k: nat): (s: real)
    requires cellSize0 > 0.0
    ensures s >= cellSize0
  {
    KernelDensity.PowAtLeastOne(SIZE_GROWTH, k);
    cellSize0 * KernelDensity.Pow(SIZE_GROWTH, k)
  }

  /** The bandwidth after k steps of `bandwidth = clamp(bandwidth * 1.2, 80, 800)`. */
  function BandwidthAfter(bandwidth0: real, k: nat): real {
    if k == 0 then bandwidth0 else Clamp(BandwidthAfter(bandwidth0, k - 1) * 1.2, 80.0, 800.0)
  }

  /** The loop stops after exactly k steps: the k-th size is settled and no earlier one is. */
  ghost predicate FirstSettled(f: Frame, n: nat, cellSize0: real, k: nat)
    requires cellSize0 > 0.0 && f.lngScale > 0.0
  {
    && Settled(f, n, SizeAfter(cellSize0, k))
    && forall j: nat :: j < k ==> !Settled(f, n, SizeAfter(cellSize0, j))
  }

  datatype Sizing = Sizing(bandwidth: real, cellSize: real, rows: int, cols: int, cells: int, ops: int)

  /** The `while (ops > MAX_OPS && cellSize < 400)` loop, from the initial bandwidth and cell size. */
  method AdaptiveSizing(f: Frame, n: nat, bandwidth0: real, cellSize0: real) returns (s: Sizing, ghost steps: nat)
    requires f.lngScale > 0.0 && cellSize0 >= 25.0 && 80.0 <= bandwidth0 <= 800.0
    ensures FirstSettled(f, n, cellSize0, steps)
    ensures s.cellSize == SizeAfter(cellSize0, steps) && s.bandwidth == BandwidthAfter(bandwidth0, steps)
    ensures s.rows == GridRows(f, s.cellSize) && s.cols == GridCols(f, s.cellSize)
    ensures s.cells == GridCells(f, s.cellSize) && s.ops == Ops(f, n, s.cellSize)
    ensures 80.0 <= s.bandwidth <= 800.0 && s.cellSize >= cellSize0
    ensures s.rows >= 1 && s.cols >= 1 && s.cells >= 1
  {
    var bandwidth := bandwidth0;
    var cellSize := cellSize0;
    var dLat := cellSize / METERS_PER_DEG;
    var dLng := cellSize / f.lngScale;
    var rows := AtLeastOne(Ceil((f.maxLat - f.minLat) / dLat));
    var cols := AtLeastOne(Ceil((f.maxLng - f.minLng) / dLng));
    var cells := AtLeastOne(rows * cols);
    var ops := cells * n;
    steps := 0;
    while ops > MAX_OPS && cellSize < SIZE_CAP
      invariant cellSize == SizeAfter(cellSize0, steps) && bandwidth == BandwidthAfter(bandwidth0, steps)
      invariant cellSize >= cellSize0 + 10.0 * steps as real
      invariant 80.0 <= bandwidth <= 800.0
      invariant rows == GridRows(f, cellSize) && cols == GridCols(f, cellSize)
      invariant cells == GridCells(f, cellSize) && ops == Ops(f, n, cellSize)
      invariant forall j: nat :: j < steps ==> !Settled(f, n, SizeAfter(cellSize0, j))
      decreases 40 - steps
    {
      SizeAfterStep(cellSize0, steps);
      cellSize := cellSize * SIZE_GROWTH;
      bandwidth := Clamp(bandwidth * 1.2, 80.0, 800.0);
      dLat := cellSize / METERS_PER_DEG;
      dLng := cellSize / f.lngScale;
      rows := AtLeastOne(Ceil((f.maxLat - f.minLat) / dLat));
      cols := AtLeastOne(Ceil((f.maxLng - f.minLng) / dLng));
      cells := AtLeastOne(rows * cols);
      ops := cells * n;
      steps := steps + 1;
    }
    s := Sizing(bandwidth, cellSize, rows, cols, cells, ops);
  }

  // ------------------------------------------------------------ subsampling

  /** `Math.max(200, Math.floor(MAX_OPS / cells))` */
  function MaxPoints(cells: int): int
    requires cells >= 1
  {
    if MAX_OPS / cells > 200 then MAX_OPS / cells else 200
  }

  /** `Math.floor(i * factor)` with `factor = n / maxPoints`, over exact numbers. */
  function SampleIndex(i: nat, n: nat, maxPoints: nat): nat
    requires maxPoints > 0
  {
    (i * n) / maxPoints
  }

  /** The `for (let i = 0; i < maxPoints; i++) sampled.push(points[Math.floor(i * factor)])` loop. */
  method Subsample(points: seq<DamagePoint>, maxPoints: nat) returns (sampled: seq<DamagePoint>)
    requires 0 < maxPoints < |points|
    ensures |sampled| == maxPoints
    ensures forall i :: 0 <= i < maxPoints ==>
      SampleIndex(i, |points|, maxPoints) < |points| && sampled[i] == points[SampleIndex(i, |points|, maxPoints)]
  {
    sampled := [];
    var i := 0;
    while i < maxPoints
      invariant 0 <= i <= maxPoints
      invariant |sampled| == i
      invariant forall k :: 0 <= k < i ==>
        SampleIndex(k, |points|, maxPoints) < |points| && sampled[k] == points[SampleIndex(k, |points|, maxPoints)]
    {
      SampleIndexBelow(i, |points|, maxPoints);
      sampled := sampled + [points[(i * |points|) / maxPoints]];
      i := i + 1;
    }
  }

  /** What the handler hands to the analyses. */
  datatype Plan = Plan(
    bandwidth: real,
    cellSize: real,
    usedPoints: seq<DamagePoint>,
    degraded: bool,
    bbox: KernelDensity.BBox)

  /**
   * The sizing and subsampling of the selected-area handler: the loop settles,
   * the points are thinned to an even-stride subsequence only when the cap is
   * still exceeded and a thinner set helps, and the degrade note is set exactly
   * when the cap is exceeded.
   */
  method PlanAnalysis(m: Trig, points: seq<DamagePoint>) returns (plan: Plan, ghost steps: nat)
    requires |points| > 0 && FrameOf(m, points).lngScale > 0.0
    ensures var f := FrameOf(m, points);
      var bandwidth0 := InitialBandwidth(m, f);
      var cellSize0 := InitialCellSize(bandwidth0);
      && cellSize0 >= 25.0
      && FirstSettled(f, |points|, cellSize0, steps)
      && plan.cellSize == SizeAfter(cellSize0, steps)
      && plan.bandwidth == BandwidthAfter(bandwidth0, steps)
    ensures var f := FrameOf(m, points);
      && plan.bbox == KernelDensity.BBox(f.minLng, f.minLat, f.maxLng, f.maxLat)
      && 80.0 <= plan.bandwidth <= 800.0
      && plan.cellSize >= 25.0
      && Settled(f, |points|, plan.cellSize)
      && (plan.degraded <==> Ops(f, |points|, plan.cellSize) > MAX_OPS)
      && var maxPoints := MaxPoints(GridCells(f, plan.cellSize));
         if plan.degraded && maxPoints < |points| then
           && |plan.usedPoints| == maxPoints
           && forall i :: 0 <= i < maxPoints ==>
                SampleIndex(i, |points|, maxPoints) < |points|
                && plan.usedPoints[i] == points[SampleIndex(i, |points|, maxPoints)]
         else
           plan.usedPoints == points
  {
    var f := FrameOf(m, points);
    var bandwidth0 := InitialBandwidth(m, f);
    var cellSize0 := InitialCellSize(bandwidth0);
    var s;
    s, steps := AdaptiveSizing(f, |points|, bandwidth0, cellSize0);
    var usedPoints := points;
    if s.ops > MAX_OPS {
      var maxPoints := MaxPoints(s.cells);
      if maxPoints < |points| {
        usedPoints := Subsample(points, maxPoints);
      }
    }
    plan := Plan(s.bandwidth, s.cellSize, usedPoints, s.ops > MAX_OPS,
                 KernelDensity.BBox(f.minLng, f.minLat, f.maxLng, f.maxLat));
  }

  // ------------------------------------------------------------------ lemmas

  /** A worse condition never weighs less, and every weight lies in [0.8, 1.8]. */
  lemma WeightFollowsCondition(a: string, b: string)
    requires 0 <= ConditionRank(a) <= ConditionRank(b)
    ensures 0.8 <= ConditionWeight(Some(a)) <= ConditionWeight(Some(b)) <= 1.8
  {
  }

  /** Conditions without a weight of their own (and a missing one) weigh like Good. */
  lemma UnrankedWeighsLikeGood(cond: Option<string>)
    requires cond.None? || ConditionRank(cond.value) < 0
    ensures ConditionWeight(cond) == ConditionWeight(Some("Good")) == 1.0
  {
  }

  /** The conversion makes one point per lane damage point, lane after lane. */
  lemma {:induction false} AnalysisPointsCount(lanes: seq<Lane>)
    ensures |AnalysisPoints(lanes)| == DamageCount(lanes)
  {
    if lanes != [] {
      AnalysisPointsCount(lanes[..|lanes| - 1]);
    }
  }

  /** Every converted point carries the id of a selected lane as its road id. */
  lemma {:induction false} AnalysisPointsFromLanes(lanes: seq<Lane>)
    ensures forall q :: q in AnalysisPoints(lanes) ==> exists l :: l in lanes && q.roadId == Some(l.id)
  {
    if lanes != [] {
      var init := lanes[..|lanes| - 1];
      var last := lanes[|lanes| - 1];
      AnalysisPointsFromLanes(init);
      forall q | q in AnalysisPoints(lanes)
        ensures exists l :: l in lanes && q.roadId == Some(l.id)
      {
        if q in AnalysisPoints(init) {
          var l :| l in init && q.roadId == Some(l.id);
          assert l in lanes;
        } else {
          assert q in LanePoints(last);
          var i :| 0 <= i < |LanePoints(last)| && LanePoints(last)[i] == q;
          assert q.roadId == Some(last.id);
        }
      }
    }
  }

  /**
   * For lane ids such as "osm-123" that contain no 'd', the corrected id parse
   * gives back the lane of a converted point, while the parse as written gives
   * what it gives for the bare lane id: the id with a trailing number stripped.
   * (The handler always sets `roadId`, so the aggregate never needs either.)
   */
  lemma ConvertedIdNamesItsLane(lane: Lane, p: LanePoint, idx: nat)
    requires |lane.id| > 0 && 'd' !in lane.id
    ensures RoadAggregate.RoadIdFromPointId(ToAnalysisPoint(lane, p, idx).id.value) == lane.id
    ensures RoadAggregate.AsWrittenRoadId(ToAnalysisPoint(lane, p, idx).id.value) == RoadAggregate.AsWrittenRoadId(lane.id)
  {
    var suffix := if p.id.Some? then p.id.value else NatToString(idx);
    var s := lane.id + "-d-" + suffix;
    assert PointId(lane.id, p, idx) == s;
    RoadAggregate.RoadIdOfDamageId(lane.id, suffix);
    RoadAggregate.SeparatorAfterPrefix(lane.id, suffix);
    assert s[..|lane.id|] == lane.id;
    assert RoadAggregate.SplitHead(s) == lane.id;
    RoadAggregate.NoSeparatorWithoutD(lane.id);
    assert RoadAggregate.SplitHead(lane.id) == lane.id;
  }

  /** The initial bandwidth lies in [80, 600] and the initial cell size in [25, 200]. */
  lemma InitialRanges(m: Trig, f: Frame)
    ensures 80.0 <= InitialBandwidth(m, f) <= 600.0
    ensures 25.0 <= InitialCellSize(InitialBandwidth(m, f)) <= 200.0
  {
  }

  /** Every bandwidth the loop produces lies in [80, 800]. */
  lemma {:induction false} BandwidthInRange(bandwidth0: real, k: nat)
    requires 80.0 <= bandwidth0 <= 800.0
    ensures 80.0 <= BandwidthAfter(bandwidth0, k) <= 800.0
  {
    if k > 0 {
      BandwidthInRange(bandwidth0, k - 1);
    }
  }

  lemma SizeAfterStep(cellSize0: real, k: nat)
    requires cellSize0 > 0.0
    ensures SizeAfter(cellSize0, k + 1) == SizeAfter(cellSize0, k) * SIZE_GROWTH
  {
  }

  /** From a cell size of at least 25 the loop stops after at most 9 steps. */
  lemma AtMostNineSteps(f: Frame, n: nat, cellSize0: real, k: nat)
    requires f.lngScale > 0.0 && cellSize0 >= 25.0
    requires FirstSettled(f, n, cellSize0, k)
    ensures k <= 9
  {
    var p := KernelDensity.Pow(SIZE_GROWTH, 9);
    assert p > 16.0;
    assert SizeAfter(cellSize0, 9) >= SIZE_CAP;
    assert Settled(f, n, SizeAfter(cellSize0, 9));
  }

  /** The i-th sample index is below the number of points. */
  lemma SampleIndexBelow(i: nat, n: nat, maxPoints: nat)
    requires i < maxPoints
    ensures SampleIndex(i, n, maxPoints) < n || n == 0
  {
    if n > 0 {
      assert i * n < maxPoints * n;
      DivBelow(i * n, maxPoints, n);
    }
  }

  /** a < d * b gives a / d < b. */
  lemma DivBelow(a: nat, d: nat, b: nat)
    requires d > 0 && a < d * b
    ensures a / d < b
  {
    var q := a / d;
    assert q * d <= a;
  }

  /**
   * When there are more points than samples, the sample indices strictly
   * increase, so the samples are an order-preserving subsequence.
   */
  lemma SampleIndicesIncrease(i: nat, j: nat, n: nat, maxPoints: nat)
    requires 0 < maxPoints <= n && i < j
    ensures SampleIndex(i, n, maxPoints) < SampleIndex(j, n, maxPoints)
  {
    MultiplyMonotone(1, j - i, n);
    assert j * n - i * n == (j - i) * n;
    DivStrictlyIncreases(i * n, j * n, maxPoints);
  }

  /** b >= a + d gives b / d > a / d. */
  lemma DivStrictlyIncreases(a: nat, b: nat, d: nat)
    requires d > 0 && b >= a + d
    ensures a / d < b / d
  {
    var qa := a / d;
    var qb := b / d;
    assert a == qa * d + a % d;
    assert b == qb * d + b % d;
    if qb <= qa {
      MultiplyMonotone(qb, qa, d);
    }
  }

  lemma MultiplyMonotone(x: int, y: int, d: nat)
    requires x <= y
    ensures x * d <= y * d
  {
    assert y * d - x * d == (y - x) * d;
  }
}
