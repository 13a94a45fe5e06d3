/**
 * KernelDensity: the gridded Gaussian kernel density of damage points
 * (computeKernelDensity and its toGeoJSON, services/spatialAnalysis.ts lines 303-399).
 *
 * The grid covers the points' bounding box (padded by 0.001 degrees) or the
 * caller's box. Its cell size starts at the requested size and grows by half
 * until rows * cols fits under maxCells. Cells are produced row by row; each
 * holds the sum over all points of value * exp(-d^2 / 2h^2). When asked to,
 * the values are then divided in place by the largest one.
 */
module KernelDensity {
  import opened Wrappers
  import opened Js
  import opened GeoMath
  import opened HotspotAnalysis

  /** `[minLng, minLat, maxLng, maxLat]` */
  datatype BBox = BBox(minLng: real, minLat: real, maxLng: real, maxLat: real)

  datatype KdeOptions = KdeOptions(
    bandwidthMeters: Option<real>,
    cellSizeMeters: Option<real>,
    bbox: Option<BBox>,
    normalize: Option<bool>,
    maxCells: Option<int>)

  const DEFAULT_KDE_BANDWIDTH: real := 100.0
  const DEFAULT_CELL_SIZE: real := 50.0
  const DEFAULT_MAX_CELLS: int := 5000
  const BBOX_PAD: real := 0.001
  const METERS_PER_DEG_LAT: real := 111320.0
  const GROWTH: real := 1.5

  datatype Cell = Cell(lat: real, lng: real, value: real)

  datatype KdeResult =
    | NoPoints
    | Density(cells: seq<Cell>, bbox: BBox, rows: int, cols: int, cellSizeMeters: real, maxValue: real)

  // ------------------------------------------------------------ the frame

  function Lats(ps: seq<DamagePoint>): (r: seq<real>)
    ensures |r| == |ps| && forall i :: 0 <= i < |ps| ==> r[i] == ps[i].lat
  {
    seq(|ps|, i requires 0 <= i < |ps| => ps[i].lat)
  }

  function Lngs(ps: seq<DamagePoint>): (r: seq<real>)
    ensures |r| == |ps| && forall i :: 0 <= i < |ps| ==> r[i] == ps[i].lng
  {
    seq(|ps|, i requires 0 <= i < |ps| => ps[i].lng)
  }

  /** The caller's box, or the points' extent padded by 0.001 degrees on every side. */
  function Bounds(points: seq<DamagePoint>, options: KdeOptions): BBox
    requires |points| > 0
  {
    if options.bbox.Some? then options.bbox.value
    else BBox(MinOf(Lngs(points)) - BBOX_PAD, MinOf(Lats(points)) - BBOX_PAD,
              MaxOf(Lngs(points)) + BBOX_PAD, MaxOf(Lats(points)) + BBOX_PAD)
  }

  function MeanLatRad(b: BBox): real {
    ToRad((b.minLat + b.maxLat) / 2.0)
  }

  /** Meters per degree of longitude at the box's mean latitude. */
  function MetersPerDegLng(m: Trig, b: BBox): real {
    METERS_PER_DEG_LAT * m.Cos(MeanLatRad(b))
  }

  function RowsAt(b: BBox, cellSize: real): int
    requires cellSize > 0.0
  {
    Ceil((b.maxLat - b.minLat) / (cellSize / METERS_PER_DEG_LAT))
  }

  function ColsAt(b: BBox, lngScale: real, cellSize: real): int
    requires cellSize > 0.0 && lngScale > 0.0
  {
    Ceil((b.maxLng - b.minLng) / (cellSize / lngScale))
  }

  function CellCount(b: BBox, lngScale: real, cellSize: real): int
    requires cellSize > 0.0 && lngScale > 0.0
  {
    RowsAt(b, cellSize) * ColsAt(b, lngScale, cellSize)
  }

  function Pow(x: real, k: nat): real {
    if k == 0 then 1.0 else x * Pow(x, k - 1)
  }

  /** The cell size after k growth steps from `cellSize0`. */
  function SizeAfter(cellSize0: real, k: nat): (s: real)
    requires cellSize0 > 0.0
    ensures s >= cellSize0
  {
    PowAtLeastOne(GROWTH, k);
    cellSize0 * Pow(GROWTH, k)
  }

  /**
   * `cellSize` is the first of cellSize0, 1.5 cellSize0, 1.5^2 cellSize0, ...
   * whose grid has at most maxCells cells.
   */
  ghost predicate FirstFit(b: BBox, lngScale: real, cellSize0: real, maxCells: int, cellSize: real)
    requires cellSize0 > 0.0 && lngScale > 0.0
  {
    exists k: nat ::
      && cellSize == SizeAfter(cellSize0, k)
      && CellCount(b, lngScale, cellSize) <= maxCells
      && forall j: nat :: j < k ==> CellCount(b, lngScale, SizeAfter(cellSize0, j)) > maxCells
  }

  // ------------------------------------------------------------ the cells

  /** The grid the cells are laid on: origin, steps, size and the kernel bandwidth h. */
  datatype Grid = Grid(bbox: BBox, dLat: real, dLng: real, rows: int, cols: int, bandwidth: real)

  /** The Gaussian exponent -d^2 / 2h^2. */
  function KernelExponent(d: real, h: real): real
    requires h != 0.0
  {
    -(d * d) / (2.0 * h * h)
  }

  /** One point's contribution at (lat, lng). */
  function Kernel(m: Trig, p: DamagePoint, lat: real, lng: real, h: real): real
    requires h != 0.0
  {
    ValueOf(p) * m.Exp(KernelExponent(Haversine(m, lat, lng, p.lat, p.lng), h))
  }

  /** The density at (lat, lng): contributions summed in point order. */
  function DensityAt(m: Trig, ps: seq<DamagePoint>, lat: real, lng: real, h: real): real
    requires h != 0.0
  {
    if ps == [] then 0.0
    else DensityAt(m, ps[..|ps| - 1], lat, lng, h) + Kernel(m, ps[|ps| - 1], lat, lng, h)
  }

  /** The grid of a run: steps of cellSize metres, bandwidth h. */
  function KdeGrid(b: BBox, lngScale: real, cellSize: real, rows: int, cols: int, h: real): Grid
    requires lngScale > 0.0
  {
    Grid(b, cellSize / METERS_PER_DEG_LAT, cellSize / lngScale, rows, cols, h)
  }

  /** `minLat + (r + 0.5) * dLat`: the centre of row r. */
  function CellLat(g: Grid, r: int): real { g.bbox.minLat + (r as real + 0.5) * g.dLat }

  /** The centre of column c. */
  function CellLng(g: Grid, c: int): real { g.bbox.minLng + (c as real + 0.5) * g.dLng }

  /** The cell of row r and column c. */
  function CellAt(m: Trig, ps: seq<DamagePoint>, g: Grid, r: int, c: int): Cell
    requires g.bandwidth != 0.0
  {
    Cell(CellLat(g, r), CellLng(g, c), DensityAt(m, ps, CellLat(g, r), CellLng(g, c), g.bandwidth))
  }

  function NonNeg(x: int): nat { if x < 0 then 0 else x }

  /** The cells in row-major order, before any normalisation. */
  function RawCells(m: Trig, ps: seq<DamagePoint>, g: Grid): (cells: seq<Cell>)
    requires g.bandwidth != 0.0
    ensures |cells| == GridSize(g)
  {
    seq(GridSize(g), k requires 0 <= k < GridSize(g) => CellAtIndex(m, ps, g, k))
  }

  /** The number of cells the loops produce: rows * cols when both are positive. */
  function GridSize(g: Grid): nat {
    NonNeg(g.rows) * NonNeg(g.cols)
  }

  /** The k-th cell in row-major order. */
  function CellAtIndex(m: Trig, ps: seq<DamagePoint>, g: Grid, k: nat): Cell
    requires g.bandwidth != 0.0 && k < GridSize(g)
  {
    CellAt(m, ps, g, k / NonNeg(g.cols), k % NonNeg(g.cols))
  }

  /** The running maximum of the values, starting from 0. */
  function MaxValue(cells: seq<Cell>): real {
    if cells == [] then 0.0
    else
      var mx := MaxValue(cells[..|cells| - 1]);
      if cells[|cells| - 1].value > mx then cells[|cells| - 1].value else mx
  }

  /** Every value divided by `divisor`. */
  function Scaled(cells: seq<Cell>, divisor: real): (r: seq<Cell>)
    requires divisor != 0.0
    ensures |r| == |cells|
    ensures forall k :: 0 <= k < |r| ==>
      r[k].lat == cells[k].lat && r[k].lng == cells[k].lng && r[k].value == cells[k].value / divisor
  {
    seq(|cells|, k requires 0 <= k < |cells| => cells[k].(value := cells[k].value / divisor))
  }

  // ------------------------------------------------------------ the methods

  /** The `while (rows * cols > maxCells)` loop. */
  method FitGrid(b: BBox, lngScale: real, cellSize0: real, maxCells: int)
    returns (cellSize: real, rows: int, cols: int)
    requires lngScale > 0.0 && cellSize0 > 0.0 && maxCells >= 1
    ensures cellSize > 0.0
    ensures rows == RowsAt(b, cellSize) && cols == ColsAt(b, lngScale, cellSize)
    ensures rows * cols <= maxCells
    ensures FirstFit(b, lngScale, cellSize0, maxCells, cellSize)
  {
    cellSize := cellSize0;
    rows := RowsAt(b, cellSize);
    cols := ColsAt(b, lngScale, cellSize);
    ghost var k: nat := 0;
    ghost var half := cellSize0 / 2.0;
    ghost var coarse := Max(AbsReal(b.maxLat - b.minLat) * METERS_PER_DEG_LAT,
                            AbsReal(b.maxLng - b.minLng) * lngScale);
    while rows * cols > maxCells
      invariant cellSize == SizeAfter(cellSize0, k)
      invariant cellSize - cellSize0 >= k as real * half
      invariant rows == RowsAt(b, cellSize) && cols == ColsAt(b, lngScale, cellSize)
      invariant forall j: nat :: j < k ==> CellCount(b, lngScale, SizeAfter(cellSize0, j)) > maxCells
      decreases NonNeg(Ceil(coarse / half) - k)
    {
      FitStep(b, lngScale, cellSize0, maxCells, k, cellSize, half, coarse);
      cellSize := cellSize * 1.5;
      rows := RowsAt(b, cellSize);
      cols := ColsAt(b, lngScale, cellSize);
      k := k + 1;
    }
  }

  /** One pass of the growth loop keeps its invariant and makes progress. */
  lemma FitStep(b: BBox, lngScale: real, cellSize0: real, maxCells: int, k: nat, cellSize: real,
                half: real, coarse: real)
    requires lngScale > 0.0 && cellSize0 > 0.0 && maxCells >= 1
    requires half == cellSize0 / 2.0
    requires coarse == Max(AbsReal(b.maxLat - b.minLat) * METERS_PER_DEG_LAT,
                           AbsReal(b.maxLng - b.minLng) * lngScale)
    requires cellSize == SizeAfter(cellSize0, k)
    requires cellSize - cellSize0 >= k as real * half
    requires CellCount(b, lngScale, cellSize) > maxCells
    requires forall j: nat :: j < k ==> CellCount(b, lngScale, SizeAfter(cellSize0, j)) > maxCells
    ensures cellSize * 1.5 == SizeAfter(cellSize0, k + 1)
    ensures cellSize * 1.5 - cellSize0 >= (k + 1) as real * half
    ensures forall j: nat :: j < k + 1 ==> CellCount(b, lngScale, SizeAfter(cellSize0, j)) > maxCells
    ensures k < Ceil(coarse / half)
  {
    if cellSize >= coarse {
      CoarseGridFits(b, lngScale, cellSize, coarse);
    }
    StepBound(k, half, cellSize - cellSize0, coarse);
    SizeAfterStep(cellSize0, k);
    GrowthProgress(k, half, cellSize0, cellSize);
  }

  /** The density loop `for (const p of points)`. */
  method CellDensity(m: Trig, points: seq<DamagePoint>, lat: real, lng: real, h: real)
    returns (density: real)
    requires h != 0.0
    ensures density == DensityAt(m, points, lat, lng, h)
  {
    density := 0.0;
    var i := 0;
    while i < |points|
      invariant 0 <= i <= |points|
      invariant density == DensityAt(m, points[..i], lat, lng, h)
    {
      var p := points[i];
      var d := Haversine(m, lat, lng, p.lat, p.lng);
      density := density + ValueOf(p) * m.Exp(KernelExponent(d, h));
      assert points[..i + 1][..i] == points[..i];
      i := i + 1;
    }
    assert points[..i] == points;
  }

  /** The nested row and column loops pushing one cell each. */
  method BuildCells(m: Trig, points: seq<DamagePoint>, g: Grid) returns (cells: seq<Cell>)
    requires g.bandwidth != 0.0
    ensures cells == RawCells(m, points, g)
  {
    ghost var raw := RawCells(m, points, g);
    cells := [];
    var r := 0;
    ghost var done := 0;
    while r < g.rows
      invariant 0 <= r <= NonNeg(g.rows)
      invariant done == r * NonNeg(g.cols) && done <= |raw|
      invariant cells == raw[..done]
    {
      RowInRange(g, r);
      cells := BuildRow(m, points, g, r, cells);
      done := done + NonNeg(g.cols);
      r := r + 1;
    }
    assert done == |raw|;
  }

  /** One pass of the column loop: the cells of row r pushed after `cells0`. */
  method BuildRow(m: Trig, points: seq<DamagePoint>, g: Grid, r: int, cells0: seq<Cell>) returns (cells: seq<Cell>)
    requires g.bandwidth != 0.0 && 0 <= r < g.rows
    requires r * NonNeg(g.cols) + NonNeg(g.cols) <= |RawCells(m, points, g)|
    requires cells0 == RawCells(m, points, g)[..r * NonNeg(g.cols)]
    ensures cells == RawCells(m, points, g)[..r * NonNeg(g.cols) + NonNeg(g.cols)]
  {
    ghost var raw := RawCells(m, points, g);
    ghost var start := r * NonNeg(g.cols);
    var lat := CellLat(g, r);
    cells := cells0;
    var c := 0;
    while c < g.cols
      invariant 0 <= c <= NonNeg(g.cols)
      invariant start + c <= |raw|
      invariant cells == raw[..start + c]
    {
      cells := PushCell(m, points, g, r, c, lat, cells);
      c := c + 1;
    }
  }

  /** One pass of the innermost loop: the density of cell (r, c) pushed after the cells before it. */
  method PushCell(m: Trig, points: seq<DamagePoint>, g: Grid, r: int, c: int, lat: real, cells0: seq<Cell>)
    returns (cells: seq<Cell>)
    requires g.bandwidth != 0.0 && 0 <= r < g.rows && 0 <= c < g.cols && lat == CellLat(g, r)
    requires r * NonNeg(g.cols) + c <= |RawCells(m, points, g)|
    requires cells0 == RawCells(m, points, g)[..r * NonNeg(g.cols) + c]
    ensures r * NonNeg(g.cols) + c + 1 <= |RawCells(m, points, g)|
    ensures cells == RawCells(m, points, g)[..r * NonNeg(g.cols) + c + 1]
  {
    var lng := CellLng(g, c);
    var density := CellDensity(m, points, lat, lng, g.bandwidth);
    PushRawCell(m, points, g, r, c, cells0);
    cells := cells0 + [Cell(lat, lng, density)];
  }

  /** `for (const cell of cells) if (cell.value > maxVal) maxVal = cell.value;` */
  method LargestValue(a: array<Cell>) returns (maxVal: real)
    ensures maxVal == MaxValue(a[..])
  {
    maxVal := 0.0;
    var i := 0;
    while i < a.Length
      invariant 0 <= i <= a.Length
      invariant maxVal == MaxValue(a[..i])
    {
      assert a[..i + 1][..i] == a[..i];
      if a[i].value > maxVal {
        maxVal := a[i].value;
      }
      i := i + 1;
    }
    assert a[..i] == a[..];
  }

  /** `for (const cell of cells) cell.value = cell.value / maxVal;` */
  method Normalise(a: array<Cell>, maxVal: real)
    requires maxVal > 0.0
    modifies a
    ensures a[..] == Scaled(old(a[..]), maxVal)
  {
    var i := 0;
    while i < a.Length
      invariant 0 <= i <= a.Length
      invariant forall k :: 0 <= k < i ==> a[k] == old(a[k]).(value := old(a[k]).value / maxVal)
      invariant forall k :: i <= k < a.Length ==> a[k] == old(a[k])
    {
      a[i] := a[i].(value := a[i].value / maxVal);
      i := i + 1;
    }
  }

  /** What the density run needs of its inputs when there are points. */
  predicate ValidDensityInputs(m: Trig, points: seq<DamagePoint>, options: KdeOptions)
    requires |points| > 0
  {
    && options.bandwidthMeters.GetOr(DEFAULT_KDE_BANDWIDTH) != 0.0
    && options.cellSizeMeters.GetOr(DEFAULT_CELL_SIZE) > 0.0
    && options.maxCells.GetOr(DEFAULT_MAX_CELLS) >= 1
    && MetersPerDegLng(m, Bounds(points, options)) > 0.0
  }

  /**
   * computeKernelDensity: no points give no grid; otherwise the grid is the
   * first size that fits, the cells are the row-major densities, and when
   * normalising with a positive maximum every value is divided by it and the
   * reported maximum is 1.
   */
  method ComputeKernelDensity(m: Trig, points: seq<DamagePoint>, options: KdeOptions) returns (res: KdeResult)
    requires |points| > 0 ==> ValidDensityInputs(m, points, options)
    ensures |points| == 0 <==> res == NoPoints
    ensures |points| > 0 ==>
      var b := Bounds(points, options);
      var lngScale := MetersPerDegLng(m, b);
      var maxCells := options.maxCells.GetOr(DEFAULT_MAX_CELLS);
      var h := options.bandwidthMeters.GetOr(DEFAULT_KDE_BANDWIDTH);
      && res.Density?
      && res.bbox == b
      && res.cellSizeMeters > 0.0
      && FirstFit(b, lngScale, options.cellSizeMeters.GetOr(DEFAULT_CELL_SIZE), maxCells, res.cellSizeMeters)
      && res.rows == RowsAt(b, res.cellSizeMeters)
      && res.cols == ColsAt(b, lngScale, res.cellSizeMeters)
      && res.rows * res.cols <= maxCells
      && var raw := RawCells(m, points, KdeGrid(b, lngScale, res.cellSizeMeters, res.rows, res.cols, h));
         if options.normalize.GetOr(true) && MaxValue(raw) > 0.0 then
           res.cells == Scaled(raw, MaxValue(raw)) && res.maxValue == 1.0
         else
           res.cells == raw && res.maxValue == MaxValue(raw)
  {
    var bandwidth := options.bandwidthMeters.GetOr(DEFAULT_KDE_BANDWIDTH);
    var cellSize0 := options.cellSizeMeters.GetOr(DEFAULT_CELL_SIZE);
    var normalize := options.normalize.GetOr(true);
    var maxCells := options.maxCells.GetOr(DEFAULT_MAX_CELLS);
    if |points| == 0 {
      return NoPoints;
    }
    var b := Bounds(points, options);
    var lngScale := MetersPerDegLng(m, b);
    var cellSize, rows, cols := FitGrid(b, lngScale, cellSize0, maxCells);
    var g := KdeGrid(b, lngScale, cellSize, rows, cols, bandwidth);
    var cells, maxVal := DensityOnGrid(m, points, g, normalize);
    res := Density(cells, b, rows, cols, cellSize, maxVal);
  }

  /** The cell loops, the maximum scan and the optional in-place normalisation. */
  method DensityOnGrid(m: Trig, points: seq<DamagePoint>, g: Grid, normalize: bool)
    returns (cells: seq<Cell>, maxVal: real)
    requires g.bandwidth != 0.0
    ensures var raw := RawCells(m, points, g);
      if normalize && MaxValue(raw) > 0.0 then
        cells == Scaled(raw, MaxValue(raw)) && maxVal == 1.0
      else
        cells == raw && maxVal == MaxValue(raw)
  {
    var raw := BuildCells(m, points, g);
    var a := new Cell[|raw|](k requires 0 <= k < |raw| => raw[k]);
    assert a[..] == raw;
    maxVal := LargestValue(a);
    if normalize && maxVal > 0.0 {
      Normalise(a, maxVal);
      maxVal := 1.0;
    }
    cells := a[..];
  }

  // ------------------------------------------------------------ GeoJSON

  /** A GeoJSON Point feature: `coordinates` is `[lng, lat]` and the property is the value. */
  datatype Feature = Feature(coordinates: seq<real>, value: real)

  datatype FeatureCollection = FeatureCollection(features: seq<Feature>)

  /** toGeoJSON: one Point feature per cell, in cell order. */
  function ToGeoJson(cells: seq<Cell>): (fc: FeatureCollection)
    ensures |fc.features| == |cells|
    ensures forall k :: 0 <= k < |cells| ==>
      fc.features[k].coordinates == [cells[k].lng, cells[k].lat] && fc.features[k].value == cells[k].value
  {
    FeatureCollection(seq(|cells|, k requires 0 <= k < |cells| => Feature([cells[k].lng, cells[k].lat], cells[k].value)))
  }

  /** Reading cells back from Point features (position `[lng, lat]`). */
  function FromGeoJson(fc: FeatureCollection): (cells: seq<Cell>)
    requires forall k :: 0 <= k < |fc.features| ==> |fc.features[k].coordinates| == 2
    ensures |cells| == |fc.features|
  {
    seq(|fc.features|, k requires 0 <= k < |fc.features| =>
      Cell(fc.features[k].coordinates[1], fc.features[k].coordinates[0], fc.features[k].value))
  }

  // ------------------------------------------------------------------ lemmas

  /** The export loses nothing: the cells can be read back from the features. */
  lemma GeoJsonRoundTrip(cells: seq<Cell>)
    ensures forall k :: 0 <= k < |ToGeoJson(cells).features| ==> |ToGeoJson(cells).features[k].coordinates| == 2
    ensures FromGeoJson(ToGeoJson(cells)) == cells
  {
  }

  lemma {:induction false} PowAtLeastOne(x: real, k: nat)
    requires x >= 1.0
    ensures Pow(x, k) >= 1.0
  {
    if k > 0 {
      PowAtLeastOne(x, k - 1);
    }
  }

  lemma SizeAfterStep(cellSize0: real, k: nat)
    requires cellSize0 > 0.0
    ensures SizeAfter(cellSize0, k + 1) == SizeAfter(cellSize0, k) * GROWTH
  {
  }

  /** Each growth step adds at least half of the first size. */
  lemma GrowthProgress(k: nat, half: real, cellSize0: real, cellSize: real)
    requires half == cellSize0 / 2.0 && cellSize >= cellSize0
    requires cellSize - cellSize0 >= k as real * half
    ensures cellSize * 1.5 - cellSize0 >= (k + 1) as real * half
  {
    assert (k + 1) as real * half == k as real * half + half;
  }

  /** While the size is below `coarse`, fewer than coarse / half steps have been taken. */
  lemma StepBound(k: nat, half: real, grown: real, coarse: real)
    requires half > 0.0 && k as real * half <= grown < coarse
    ensures k < Ceil(coarse / half)
  {
    var q := coarse / half;
    assert (q - k as real) * half == coarse - k as real * half;
    PositiveFactor(q - k as real, half);
  }

  lemma PositiveFactor(a: real, b: real)
    requires b > 0.0 && a * b > 0.0
    ensures a > 0.0
  {
  }

  /** -1 <= x <= 1 gives a ceiling of -1, 0 or 1. */
  lemma CeilSmall(x: real)
    requires -1.0 <= x <= 1.0
    ensures -1 <= Ceil(x) <= 1
  {
  }

  /** An extent no larger than the cell gives a ceiling of -1, 0 or 1 cells. */
  lemma SpanOverStep(span: real, scale: real, cellSize: real)
    requires scale > 0.0 && cellSize > 0.0
    requires cellSize >= AbsReal(span) * scale
    ensures -1 <= Ceil(span / (cellSize / scale)) <= 1
  {
    var x := span * scale;
    assert span / (cellSize / scale) == x / cellSize;
    if span >= 0.0 {
      assert x == AbsReal(span) * scale;
    } else {
      assert -x == AbsReal(span) * scale;
    }
    DivWithin(x, cellSize);
    CeilSmall(x / cellSize);
  }

  /** A value no larger than d in magnitude, divided by d, lies in [-1, 1]. */
  lemma DivWithin(x: real, d: real)
    requires d > 0.0 && -d <= x <= d
    ensures -1.0 <= x / d <= 1.0
  {
    var q := x / d;
    assert q * d == x;
    assert (q - 1.0) * d == x - d;
    NonPositiveFactor(q - 1.0, d);
    assert (-1.0 - q) * d == -d - x;
    NonPositiveFactor(-1.0 - q, d);
  }

  lemma NonPositiveFactor(a: real, b: real)
    requires b > 0.0 && a * b <= 0.0
    ensures a <= 0.0
  {
  }

  lemma SmallProduct(r: int, c: int)
    requires -1 <= r <= 1 && -1 <= c <= 1
    ensures r * c <= 1
  {
  }

  /** Once the cell is as large as both extents, the grid has at most one cell. */
  lemma CoarseGridFits(b: BBox, lngScale: real, cellSize: real, coarse: real)
    requires lngScale > 0.0 && cellSize > 0.0
    requires coarse == Max(AbsReal(b.maxLat - b.minLat) * METERS_PER_DEG_LAT, AbsReal(b.maxLng - b.minLng) * lngScale)
    requires cellSize >= coarse
    ensures CellCount(b, lngScale, cellSize) <= 1
  {
    SpanOverStep(b.maxLat - b.minLat, METERS_PER_DEG_LAT, cellSize);
    SpanOverStep(b.maxLng - b.minLng, lngScale, cellSize);
    SmallProduct(RowsAt(b, cellSize), ColsAt(b, lngScale, cellSize));
  }

  lemma RowMajorIndex(r: int, c: int, cols: nat)
    requires 0 <= r && 0 <= c < cols
    ensures (r * cols + c) / cols == r && (r * cols + c) % cols == c
  {
    var n := r * cols + c;
    var q := n / cols;
    var rem := n % cols;
    assert n == q * cols + rem;
    assert (r - q) * cols == rem - c;
    MultipleWithinWidth(r - q, cols, rem - c);
  }

  /** Row r of the grid ends within the cells. */
  lemma RowInRange(g: Grid, r: int)
    requires 0 <= r < g.rows
    ensures r * NonNeg(g.cols) + NonNeg(g.cols) <= NonNeg(g.rows) * NonNeg(g.cols)
    ensures (r + 1) * NonNeg(g.cols) == r * NonNeg(g.cols) + NonNeg(g.cols)
  {
    assert r * NonNeg(g.cols) + NonNeg(g.cols) == (r + 1) * NonNeg(g.cols);
    if NonNeg(g.cols) > 0 {
      MultipleAtLeast(g.rows - r, NonNeg(g.cols));
    }
  }

  /** Pushing the cell of row r, column c extends the row-major prefix by one. */
  lemma PushRawCell(m: Trig, ps: seq<DamagePoint>, g: Grid, r: int, c: int, cells: seq<Cell>)
    requires g.bandwidth != 0.0 && 0 <= r < g.rows && 0 <= c < g.cols
    requires r * NonNeg(g.cols) + c <= |RawCells(m, ps, g)|
    requires cells == RawCells(m, ps, g)[..r * NonNeg(g.cols) + c]
    ensures r * NonNeg(g.cols) + c + 1 <= |RawCells(m, ps, g)|
    ensures cells + [CellAt(m, ps, g, r, c)] == RawCells(m, ps, g)[..r * NonNeg(g.cols) + c + 1]
  {
    var raw := RawCells(m, ps, g);
    var i := r * NonNeg(g.cols) + c;
    RawCellAt(m, ps, g, r, c);
    assert raw[..i + 1] == raw[..i] + [raw[i]];
  }

  /** Row r, column c sits at index r * cols + c of the row-major cells. */
  lemma RawCellAt(m: Trig, ps: seq<DamagePoint>, g: Grid, r: int, c: int)
    requires g.bandwidth != 0.0 && 0 <= r < g.rows && 0 <= c < g.cols
    ensures r * NonNeg(g.cols) + c < |RawCells(m, ps, g)|
    ensures RawCells(m, ps, g)[r * NonNeg(g.cols) + c] == CellAt(m, ps, g, r, c)
  {
    RowMajorIndex(r, c, g.cols);
    MultipleAtLeast(g.rows - r, g.cols);
    assert r * g.cols + c < g.rows * g.cols;
  }

  /** The only multiple of w strictly between -w and w is 0. */
  lemma MultipleWithinWidth(d: int, w: int, e: int)
    requires w > 0 && -w < e < w && d * w == e
    ensures d == 0
  {
    if d > 0 {
      MultipleAtLeast(d, w);
    } else if d < 0 {
      MultipleAtLeast(-d, w);
    }
  }

  lemma MultipleAtLeast(a: int, w: int)
    requires a >= 1 && w > 0
    ensures a * w >= w
  {
    assert a * w == (a - 1) * w + w;
  }

  lemma SelfQuotient(x: real)
    requires x > 0.0
    ensures x / x == 1.0
  {
  }

  lemma FractionOfMaximum(v: real, mx: real)
    requires 0.0 <= v <= mx && mx > 0.0
    ensures 0.0 <= v / mx <= 1.0
  {
  }

  /** With non-negative values and a lawful exp every density is non-negative. */
  lemma {:induction false} DensityNonNegative(m: Trig, ps: seq<DamagePoint>, lat: real, lng: real, h: real)
    requires Lawful(m) && h != 0.0
    requires forall i :: 0 <= i < |ps| ==> ValueOf(ps[i]) >= 0.0
    ensures DensityAt(m, ps, lat, lng, h) >= 0.0
  {
    if ps != [] {
      DensityNonNegative(m, ps[..|ps| - 1], lat, lng, h);
      var p := ps[|ps| - 1];
      var e := m.Exp(KernelExponent(Haversine(m, lat, lng, p.lat, p.lng), h));
      assert e > 0.0;
      assert ValueOf(p) * e >= 0.0;
    }
  }

  /** The maximum is non-negative, bounds every value, and is a value when positive. */
  lemma {:induction false} MaxValueBounds(cells: seq<Cell>)
    ensures MaxValue(cells) >= 0.0
    ensures forall k :: 0 <= k < |cells| ==> cells[k].value <= MaxValue(cells)
    ensures MaxValue(cells) > 0.0 ==> exists k :: 0 <= k < |cells| && cells[k].value == MaxValue(cells)
  {
    if cells != [] {
      MaxValueBounds(cells[..|cells| - 1]);
      var mx := MaxValue(cells[..|cells| - 1]);
      if MaxValue(cells) > 0.0 && cells[|cells| - 1].value <= mx {
        var k :| 0 <= k < |cells| - 1 && cells[..|cells| - 1][k].value == mx;
        assert cells[k].value == MaxValue(cells);
      }
    }
  }

  /**
   * Dividing non-negative values by their positive maximum puts every value in
   * [0, 1] and at least one value at exactly 1.
   */
  lemma NormalisedInUnitInterval(cells: seq<Cell>)
    requires forall k :: 0 <= k < |cells| ==> cells[k].value >= 0.0
    requires MaxValue(cells) > 0.0
    ensures forall k :: 0 <= k < |cells| ==> 0.0 <= Scaled(cells, MaxValue(cells))[k].value <= 1.0
    ensures exists k :: 0 <= k < |cells| && Scaled(cells, MaxValue(cells))[k].value == 1.0
  {
    MaxValueBounds(cells);
    var mx := MaxValue(cells);
    var s := Scaled(cells, mx);
    forall k | 0 <= k < |cells|
      ensures 0.0 <= s[k].value <= 1.0
    {
      FractionOfMaximum(cells[k].value, mx);
    }
    var k :| 0 <= k < |cells| && cells[k].value == mx;
    SelfQuotient(mx);
    assert s[k].value == mx / mx == 1.0;
    assert 0 <= k < |cells| && Scaled(cells, MaxValue(cells))[k].value == 1.0;
  }

  /** Without a caller's box every point lies strictly inside the padded box. */
  lemma BoundsContainPoints(points: seq<DamagePoint>, options: KdeOptions)
    requires |points| > 0 && options.bbox.None?
    ensures var b := Bounds(points, options);
      forall i :: 0 <= i < |points| ==>
        b.minLat < points[i].lat < b.maxLat && b.minLng < points[i].lng < b.maxLng
  {
    var lats := Lats(points);
    var lngs := Lngs(points);
    forall i | 0 <= i < |points|
      ensures MinOf(lats) <= points[i].lat <= MaxOf(lats) && MinOf(lngs) <= points[i].lng <= MaxOf(lngs)
    {
      assert lats[i] == points[i].lat && lngs[i] == points[i].lng;
    }
  }
}
