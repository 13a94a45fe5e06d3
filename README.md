# Road damage analysis: a Dafny model

This project models the analytic core of a road-condition map application,
whose code is TypeScript. It covers three parts.

- **The spatial analysis service** (`services/spatialAnalysis.ts`):
  - the haversine distance and the erf-based normal CDF;
  - the Getis-Ord Gi* hotspot statistic with binary distance weights;
  - the natural-language hotspot report;
  - the per-road aggregation of hotspot results, including the id parse that recovers a road from a damage-point id;
  - the gridded Gaussian kernel density with its GeoJSON export;
  - the single-lane diagnosis.
- **The caller-side analysis policy** (`App.tsx`):
  - the condition weights;
  - the conversion of lane damage points into analysis points;
  - the adaptive bandwidth and cell-size loop that keeps the work under 5e6 kernel operations;
  - the even-stride subsampling used when that cap cannot be met.
- **The lane state** (`App.tsx` and `services/laneService.ts`):
  - the merge of OpenStreetMap lanes with database records, with its exact and fuzzy id matching;
  - the delete and append handlers for damage points;
  - the conversion of Overpass ways into lanes: road class, the smoothness-to-condition mapping with its two fallback buckets (id remainder and 32-bit string hash), name, lane count, direction, id, and the dropping of ways without geometry;
  - the bounding-box area guard.

Numbers are exact reals, and integers are unbounded. Where JavaScript integer
semantics matter (the truncating `%`, `| 0`, `<<`), the module `Js` writes them
out. `Math.sin`, `Math.cos`, `Math.atan2`, `Math.sqrt` and `Math.exp` are
opaque functions passed in as a `Trig` bundle. The lemmas that need facts about
them assume only the few laws that `GeoMath.Lawful` collects. The network
requests become parameters: the rows and replies they produced.

One module per component:

| module | file | models |
|---|---|---|
| `Wrappers` | wrappers.dfy | `Option` |
| `Js` | js.dfy | JavaScript number and string built-ins |
| `GeoMath` | geo_math.dfy | haversine, stdNormalCDF |
| `HotspotAnalysis` | hotspot.dfy | computeGetisOrdGi |
| `HotspotReport` | interpret.dfy | interpretHotspots |
| `RoadAggregate` | road_aggregate.dfy | aggregateHotspotsByRoad |
| `KernelDensity` | kernel_density.dfy | computeKernelDensity, toGeoJSON |
| `LaneSummary` | lane_summary.dfy | analyzeLaneSummary |
| `AnalysisPolicy` | analysis_policy.dfy | the selected-area analysis set-up in App.tsx |
| `LaneState` | lane_state.dfy | the lane merge and damage-point handlers in App.tsx |
| `LaneService` | lane_service.dfy | fetchRealLanes, fetchRealLanesByBbox |

Where the code works step by step, the model does too:

- The Gi* neighbour loop, the kernel-density grid search, row building, maximum and in-place normalisation, and the adaptive sizing loop are methods with loop invariants. So are the per-road tally, the subsampling loop, the lane-length loop, the string hash loop and the dictionary-building loops of the merge.
- Each of these methods is proved equal to a specification function, and the properties are proved about that function.
- The per-road sort and the normalisation work in place on an `array`.

## Model

| member | source | states |
|---|---|---|
| Js.Ceil | services/spatialAnalysis.ts:343 | `Math.ceil(x)` is the least integer at or above x |
| Js.Round | services/spatialAnalysis.ts:140 | `Math.round(x)` lies within half of x, halves rounding up |
| Js.MaxOf | services/spatialAnalysis.ts:125 | `Math.max(...xs)` is an element of xs and at least every element |
| Js.MinOf | services/spatialAnalysis.ts:322 | `Math.min(...xs)` is an element of xs and at most every element |
| Js.TruncRem | services/laneService.ts:63 | JavaScript `%` is smaller in magnitude than the divisor and takes the dividend's sign |
| Js.ToInt32 | services/laneService.ts:145-146 | `x \| 0` is a signed 32-bit integer congruent to x modulo 2^32 |
| Js.ToInt32Congruent | services/laneService.ts:145-146 | numbers congruent modulo 2^32 have the same `\| 0` |
| Js.ToInt32OfInt32 | services/laneService.ts:146 | `\| 0` leaves a 32-bit value unchanged |
| Js.IntToString | services/laneService.ts:71 | `String(n)` is non-empty, all digits, with a leading '-' exactly for negative n |
| Js.NatToStringInjective | App.tsx:898 | different indices are written as different strings |
| Js.ParseIntOfNatToString | services/laneService.ts:73 | `parseInt(String(n))` gives n back |
| GeoMath.HaversineNonNegative | services/spatialAnalysis.ts:17-28 | the haversine distance is never negative |
| GeoMath.HaversineSelf | services/spatialAnalysis.ts:17-28 | a point is at distance 0 from itself |
| GeoMath.HaversineSymmetric | services/spatialAnalysis.ts:17-28 | the distance from a to b equals the distance from b to a |
| GeoMath.DistanceNonNegative | services/spatialAnalysis.ts:17-28 | the distance between two coordinates is never negative |
| GeoMath.DistanceSelf | services/spatialAnalysis.ts:17-28 | a coordinate is at distance 0 from itself |
| GeoMath.ErfT | services/spatialAnalysis.ts:32 | `t = 1 / (1 + 0.3275911 \|z\|)` lies in (0, 1] |
| GeoMath.ErfPolyBounds | services/spatialAnalysis.ts:33-38 | the coefficient polynomial lies in (0, 1] for every t in (0, 1] |
| GeoMath.PValueInUnitInterval | services/spatialAnalysis.ts:31-43 | `2 * (1 - stdNormalCDF(\|z\|))` lies in (0, 1] for every z |
| HotspotAnalysis.Values | services/spatialAnalysis.ts:57 | one value per point, in order: the point's value, or 1 when it has none |
| HotspotAnalysis.AccumulateNeighbours | services/spatialAnalysis.ts:63-73 | the neighbour loop's sumW, sumWx and sumW2 are the weight sums over all points |
| HotspotAnalysis.ComputeGetisOrdGi | services/spatialAnalysis.ts:49-103 | one result per point, in order: the point's id, road, position and default-1 value, its Gi* z-score and p-value, and the class of that z-score at the given (default 1.96) significance; bandwidth defaults to 500 |
| HotspotAnalysis.ClassifyIff | services/spatialAnalysis.ts:86-88 | hotspot exactly when z >= the significance, coldspot exactly when z <= minus it, and not significant exactly in between |
| HotspotAnalysis.NeighbourSumsBinary | services/spatialAnalysis.ts:66-73 | with 0/1 weights, sumW2 equals sumW and lies between 0 and the number of points visited |
| HotspotAnalysis.NeighbourSumsSelf | services/spatialAnalysis.ts:66-73 | a point is its own neighbour, so sumW >= 1 |
| HotspotAnalysis.NeighbourSumsHit | services/spatialAnalysis.ts:66-73 | once a point within the bandwidth has been visited, sumW is at least 1 |
| HotspotAnalysis.NeighbourSumsGrow | services/spatialAnalysis.ts:69-70 | visiting one more point never lowers sumW |
| HotspotAnalysis.WeightSelf | services/spatialAnalysis.ts:68-69 | a point lies within any non-negative bandwidth of itself (distance 0) |
| HotspotAnalysis.NeighbourSumsAll | services/spatialAnalysis.ts:66-73 | when every point is within the bandwidth, sumW is the number of points |
| HotspotAnalysis.GiSinglePoint | services/spatialAnalysis.ts:75-84 | a single point gets z = 0, p = 1 and is not significant |
| HotspotAnalysis.SumConstant | services/spatialAnalysis.ts:58 | the sum of n equal values c is n * c |
| HotspotAnalysis.SquaredDeviationsConstant | services/spatialAnalysis.ts:60 | equal values have no squared deviation from their mean |
| HotspotAnalysis.GiConstantValues | services/spatialAnalysis.ts:60-84 | when all values are equal the standard deviation is 0, so every z is 0 and every p is 1 |
| HotspotAnalysis.DenominatorOfFullWeights | services/spatialAnalysis.ts:79 | when every weight is 1 the denominator is 0 |
| HotspotAnalysis.GiWholeNeighbourhood | services/spatialAnalysis.ts:77-83 | a point whose neighbourhood is every point gets z = 0 and p = 1 |
| HotspotAnalysis.GiSign | services/spatialAnalysis.ts:78-81 | a non-zero z has the sign of sumWx - meanX * sumW: positive exactly when the neighbourhood total exceeds what the mean predicts, negative exactly when it falls short |
| HotspotAnalysis.GiPValueInRange | services/spatialAnalysis.ts:76-82 | every p-value lies in (0, 1] |
| HotspotReport.Filter | services/spatialAnalysis.ts:115-117 | the filtered results are exactly the input results that pass the test |
| HotspotReport.ZScores | services/spatialAnalysis.ts:125 | the z-scores of the hotspots, one per hotspot, in order |
| HotspotReport.InterpretHotspots | services/spatialAnalysis.ts:111-250 | the three counts add up to the number of results, the hotspot and coldspot lists hold exactly the results of that class and their lengths are the counts, each ratio is its count over the total (0 for no results, so in [0, 1]), the health level, score and area insights are those of the threshold chain on these counts (so `HealthLevelIff` and `HealthScoreOfLevel` apply to the report), the maintenance list is the one for the report's level (so `MaintenanceCount` applies), and the legacy list is the area insights followed by at most two point insights |
| HotspotReport.FilterSplit | services/spatialAnalysis.ts:115-117 | filtering a concatenation filters each part |
| HotspotReport.PartitionCounts | services/spatialAnalysis.ts:222-224 | hotspot, coldspot and normal counts add up to the total |
| HotspotReport.DisjointFiltersCount | services/spatialAnalysis.ts:171-172 | two filters that never both pass keep at most the total between them |
| HotspotReport.RatioInUnitInterval | services/spatialAnalysis.ts:120-121 | a count over a total lies in [0, 1], and is 0 when the total is 0 |
| HotspotReport.CriticalHighDisjoint | services/spatialAnalysis.ts:171-172 | critical points have z > 2.58, high points 1.96 < z <= 2.58, no point is both, and together they are at most the hotspots |
| HotspotReport.HealthLevelIff | services/spatialAnalysis.ts:134-162 | the level is 严重 exactly above 40% hotspots, 较差 above 25%, 一般 above 10%, 良好 with some hotspots, 优良 with none |
| HotspotReport.RatioExceeds | services/spatialAnalysis.ts:137 | a ratio exceeds c exactly when count > c * total |
| HotspotReport.HealthScoreOfLevel | services/spatialAnalysis.ts:131-162 | each level carries its score (20, 40, 60, 80, 95), and 100 only for an empty area |
| HotspotReport.HealthScoreAntitone | services/spatialAnalysis.ts:137-162 | more hotspots in the same area never raise the score |
| HotspotReport.MaintenanceCount | services/spatialAnalysis.ts:200-213 | 4 suggestions for 严重 or 较差, 3 for 一般, 2 otherwise |
| HotspotReport.ColdspotRemark | services/spatialAnalysis.ts:165-167 | the coldspot remark appears exactly when coldspots exceed 10% of the points |
| HotspotReport.SumAtMost | services/spatialAnalysis.ts:123 | a sum of values each at most b is at most n * b |
| HotspotReport.SumAtLeast | services/spatialAnalysis.ts:123 | a sum of values each at least b is at least n * b |
| HotspotReport.AverageAtMostMaximum | services/spatialAnalysis.ts:122-125 | the average hotspot z never exceeds the maximum |
| HotspotReport.HotspotZAtLeastThreshold | services/spatialAnalysis.ts:122-125 | when hotspots were classified at a significance, their average and maximum z are at least it |
| HotspotReport.HotspotsReachThreshold | services/spatialAnalysis.ts:116 | every result kept as a hotspot has z at least the significance it was classified at |
| HotspotReport.LegacyKeepsAreaInsights | services/spatialAnalysis.ts:248 | the legacy list starts with all area insights and adds at most two more |
| HotspotReport.PercentInRange | services/spatialAnalysis.ts:140 | the rounded percentage of a ratio in [0, 1] lies in [0, 100] |
| HotspotReport.ModerateRemarkIff | services/spatialAnalysis.ts:190-193 | the all-moderate remark appears exactly when there are hotspots and none is critical |
| RoadAggregate.FirstDamageSeparator | services/spatialAnalysis.ts:268 | the first position where `/[-_]d[-_]/` matches, or none exactly when it matches nowhere |
| RoadAggregate.SplitHead | services/spatialAnalysis.ts:268 | the first piece of the split is a prefix of the id |
| RoadAggregate.LazyCapture | services/spatialAnalysis.ts:271 | the lazy capture of `/^(.+?)(?:[-_]\d+)?$/` is a non-empty prefix of the string |
| RoadAggregate.Unsorted | services/spatialAnalysis.ts:283-290 | one record per road of the key order, the i-th being the summary of the i-th road's counters; no two records share a road id |
| RoadAggregate.TallyResults | services/spatialAnalysis.ts:261-281 | the loop builds the per-road counters and the first-seen key order of the fold, a result without `roadId` being keyed by the parse as written |
| RoadAggregate.CountResult | services/spatialAnalysis.ts:262-280 | a result without an id is skipped; otherwise its road (`roadId`, or the parse as written of its id) gets its counters updated (total, hotspot, coldspot, z sum) and joins the key order when new |
| RoadAggregate.SortByHotspots | services/spatialAnalysis.ts:293 | the array ends sorted by hotspot count, then ratio, both descending, and is a permutation of what it held |
| RoadAggregate.AggregateHotspotsByRoad | services/spatialAnalysis.ts:256-296 | the records are a sorted permutation of the per-road summaries (roads keyed by `roadId` or the parse as written, in a dictionary without inherited keys; see Left out), their totals add up to the number of results with an id, and each record has a total >= 1, hotspot + coldspot <= total, and a ratio in [0, 1] |
| RoadAggregate.KeyOrderMatchesTallies | services/spatialAnalysis.ts:274 | every road appears once in the key order, exactly the roads that have counters |
| RoadAggregate.TotalsCountResults | services/spatialAnalysis.ts:261-281 | the per-road totals add up to the number of results with an id |
| RoadAggregate.SumPointsOfSummaries | services/spatialAnalysis.ts:283-290 | the records carry the counters' totals |
| RoadAggregate.UnsortedTotals | services/spatialAnalysis.ts:283-290 | the unsorted records' totals add up to the number of results with an id |
| RoadAggregate.UnsortedRecordsConsistent | services/spatialAnalysis.ts:283-290 | each record has a total >= 1, hotspot + coldspot <= total, and a ratio in [0, 1] |
| RoadAggregate.SumPointsPermutation | services/spatialAnalysis.ts:293 | sorting does not change the total number of points |
| RoadAggregate.NoSeparatorWithoutD | services/spatialAnalysis.ts:268 | an id without 'd' has no damage separator |
| RoadAggregate.SeparatorAfterPrefix | services/spatialAnalysis.ts:268 | in `road + "-d-" + k` with no 'd' in road, the first separator is right after road |
| RoadAggregate.LazyCaptureFinds | services/spatialAnalysis.ts:271 | the lazy capture stops at the first point where the rest is a trailing number or empty |
| RoadAggregate.LazyCaptureStripsNumber | services/spatialAnalysis.ts:271-272 | `road + "-" + n` is stripped back to road |
| RoadAggregate.RoadIdOfDamageId | services/spatialAnalysis.ts:264-273 | the corrected parse reads `road-d-suffix` back as road, for any suffix |
| RoadAggregate.RoadIdOfIndexedId | services/spatialAnalysis.ts:264-273 | the corrected parse reads `road-n` back as road (the parse as written does the same here, as `LazyCaptureStripsNumber` shows) |
| RoadAggregate.AsWrittenDropsRoadNumber | services/spatialAnalysis.ts:268-272 | the parse as written strips the road's own number from `base-n-d-suffix`, while the corrected parse keeps `base-n` |
| RoadAggregate.AggregateMergesNumberedRoads | services/spatialAnalysis.ts:256-296 | the aggregate turns results "osm-1-d-1" and "osm-2-d-1" without `roadId` into a single record, road "osm" with two points |
| RoadAggregate.AsWrittenCollapsesRoads | services/spatialAnalysis.ts:268-272 | as written, "osm-1-d-123" and "osm-2-d-7" both go to road "osm"; corrected, to "osm-1" and "osm-2" |
| KernelDensity.Lats | services/spatialAnalysis.ts:320 | the latitudes of the points, in order |
| KernelDensity.Lngs | services/spatialAnalysis.ts:321 | the longitudes of the points, in order |
| KernelDensity.SizeAfter | services/spatialAnalysis.ts:346-347 | the cell size after k growth steps is never below the initial one |
| KernelDensity.RawCells | services/spatialAnalysis.ts:354-369 | one cell per grid position, rows * cols of them |
| KernelDensity.Scaled | services/spatialAnalysis.ts:375 | each cell keeps its position, and its value is divided by the divisor |
| KernelDensity.FitGrid | services/spatialAnalysis.ts:341-352 | the loop ends with the first grown cell size whose rows * cols fits under maxCells |
| KernelDensity.FitStep | services/spatialAnalysis.ts:346-352 | one growth step: the size is the next power-of-1.5 multiple, every size so far was too fine, and the step count stays below the bound that ends the loop |
| KernelDensity.CellDensity | services/spatialAnalysis.ts:362-366 | the density at a cell centre is the sum of value * exp(-d^2 / 2h^2) over the points |
| KernelDensity.BuildCells | services/spatialAnalysis.ts:358-369 | the nested loops push the cells in row-major order |
| KernelDensity.BuildRow | services/spatialAnalysis.ts:360-368 | one row of cells extends the row-major prefix by that row |
| KernelDensity.PushCell | services/spatialAnalysis.ts:361-367 | pushing cell (r, c) extends the row-major prefix by exactly that cell |
| KernelDensity.LargestValue | services/spatialAnalysis.ts:371-372 | the loop finds the largest value, or 0 when none is positive |
| KernelDensity.Normalise | services/spatialAnalysis.ts:374-375 | the array in place becomes its cells with values divided by the maximum |
| KernelDensity.ComputeKernelDensity | services/spatialAnalysis.ts:303-399 | no points give no grid. Otherwise the box is the padded point box or the given one, the grid is the first size that fits, and the cells are the row-major densities. With normalisation and a positive maximum, they are divided by that maximum, which becomes 1 |
| KernelDensity.DensityOnGrid | services/spatialAnalysis.ts:354-377 | the cells and maximum with and without normalisation |
| KernelDensity.ToGeoJson | services/spatialAnalysis.ts:387-396 | one Point feature per cell, at `[lng, lat]`, with the cell's value |
| KernelDensity.FromGeoJson | services/spatialAnalysis.ts:387-396 | one cell per feature |
| KernelDensity.GeoJsonRoundTrip | services/spatialAnalysis.ts:387-396 | reading the GeoJSON back gives the cells again |
| KernelDensity.SizeAfterStep | services/spatialAnalysis.ts:347 | each step multiplies the cell size by 1.5 |
| KernelDensity.CoarseGridFits | services/spatialAnalysis.ts:346-352 | a cell as large as the box gives at most one cell, so the loop ends |
| KernelDensity.RowInRange | services/spatialAnalysis.ts:358-368 | row r of the grid fits inside the cell list |
| KernelDensity.PushRawCell | services/spatialAnalysis.ts:367 | pushing cell (r, c) extends the row-major prefix by one |
| KernelDensity.RawCellAt | services/spatialAnalysis.ts:358-368 | cell (r, c) is at index r * cols + c |
| KernelDensity.DensityNonNegative | services/spatialAnalysis.ts:362-366 | non-negative values give a non-negative density |
| KernelDensity.MaxValueBounds | services/spatialAnalysis.ts:371-372 | the maximum is >= 0, at least every value, and a positive maximum is some cell's value |
| KernelDensity.NormalisedInUnitInterval | services/spatialAnalysis.ts:374-377 | after normalisation every value lies in [0, 1] and some value is 1 |
| KernelDensity.BoundsContainPoints | services/spatialAnalysis.ts:320-335 | every point lies strictly inside the padded box |
| LaneSummary.PerKm | services/spatialAnalysis.ts:419-423 | 0 for a non-positive length; otherwise a non-negative r with r * length = count * 1000 |
| LaneSummary.Severity | services/spatialAnalysis.ts:425 | `p.value \|\| 1` is never 0, and is the value when that is non-zero |
| LaneSummary.ConditionLabel | services/spatialAnalysis.ts:428 | `cond \|\| '未知'` is never empty, and is the condition when that is non-empty |
| LaneSummary.LaneLength | services/spatialAnalysis.ts:413-417 | the loop's length is the polyline's length |
| LaneSummary.AnalyzeLaneSummary | services/spatialAnalysis.ts:407-472 | length, vertex count, both densities, average severity, condition, urgency, suggestions and road name are those of the diagnosis functions |
| LaneSummary.PathLengthNonNegative | services/spatialAnalysis.ts:414-417 | the length is never negative, and 0 for fewer than 2 vertices |
| LaneSummary.PathLengthOfStationary | services/spatialAnalysis.ts:414-417 | a polyline that never moves has length 0 |
| LaneSummary.AverageOfDefaultSeverities | services/spatialAnalysis.ts:424-426 | points without a (non-zero) value average 1 |
| LaneSummary.DefaultSeveritySum | services/spatialAnalysis.ts:425 | points without a (non-zero) value sum to their count |
| LaneSummary.AverageSeverityAtLeastOne | services/spatialAnalysis.ts:424-426 | when every value is missing, 0 or at least 1, the average is at least 1 |
| LaneSummary.SeveritySumAtLeastCount | services/spatialAnalysis.ts:425 | the same values sum to at least their count |
| LaneSummary.NeverCritical | services/spatialAnalysis.ts:430-457 | the diagnosis never answers 'critical' |
| LaneSummary.AdjustmentsOnlyRaise | services/spatialAnalysis.ts:447-457 | the density adjustments never lower the table's urgency |
| LaneSummary.SuggestionCount | services/spatialAnalysis.ts:429-457 | one suggestion from the table first, plus one per adjustment that fired |
| LaneSummary.LowIff | services/spatialAnalysis.ts:430-457 | urgency is low exactly when the table reaches its third row and neither adjustment fires |
| LaneSummary.HighIff | services/spatialAnalysis.ts:430-457 | urgency is high exactly for a Poor condition, an average severity over 2.5, or a short dense road |
| AnalysisPolicy.ToAnalysisPoint | App.tsx:897-903 | a converted point has id `laneId-d-(id or index)`, the lane as road, the damage point's position, and value (value or 1.5) * the lane's condition weight |
| AnalysisPolicy.LanePoints | App.tsx:896-907 | one analysis point per damage point of the lane, in order, the i-th converted with index i; none when the lane has no damage-point array |
| AnalysisPolicy.Clamp | App.tsx:947 | the result lies in [lo, hi] and is v when v is in range |
| AnalysisPolicy.AtLeastOne | App.tsx:953-955 | `Math.max(1, x)` is at least 1 and at least x |
| AnalysisPolicy.SizeAfter | App.tsx:959-960 | the cell size after k steps is never below the initial one |
| AnalysisPolicy.AdaptiveSizing | App.tsx:950-968 | the loop stops at the first step where ops <= 5e6 or the cell size reached 400, with that step's grid, bandwidth in [80, 800], and rows, cols and cells >= 1 |
| AnalysisPolicy.Subsample | App.tsx:973-977 | maxPoints points, the i-th being point floor(i * n / maxPoints) |
| AnalysisPolicy.PlanAnalysis | App.tsx:936-979 | the box of the points; the cell size and bandwidth are those of the first settled step of the loop started from the initial bandwidth clamp(sqrt(diag)/4, 80, 600) and cell size clamp(bandwidth/3, 25, 200), so bandwidth in [80, 800] and a settled cell size >= 25; degraded exactly when ops still exceed 5e6, and the used points subsampled exactly when degraded and too many |
| AnalysisPolicy.WeightFollowsCondition | App.tsx:879-885 | a worse condition never weighs less; the weights lie in [0.8, 1.8] |
| AnalysisPolicy.UnrankedWeighsLikeGood | App.tsx:884 | a missing or unknown condition weighs 1, like Good |
| AnalysisPolicy.AnalysisPointsCount | App.tsx:893-909 | the flat list has one point per lane damage point |
| AnalysisPolicy.AnalysisPointsFromLanes | App.tsx:893-909 | every point's road is one of the selected lanes |
| AnalysisPolicy.ConvertedIdNamesItsLane | App.tsx:898-899 | for lane ids without 'd', the corrected parse reads a converted point's id back as its lane, while the parse as written reads it as it reads the bare lane id (trailing number stripped); the handler sets `roadId` at App.tsx:899, so the aggregate never falls back to either |
| AnalysisPolicy.InitialRanges | App.tsx:946-949 | the initial bandwidth lies in [80, 600] and cell size in [25, 200] |
| AnalysisPolicy.BandwidthInRange | App.tsx:961 | every bandwidth of the loop lies in [80, 800] |
| AnalysisPolicy.SizeAfterStep | App.tsx:960 | each step multiplies the cell size by 1.4 |
| AnalysisPolicy.AtMostNineSteps | App.tsx:959 | from a cell size of at least 25 the loop runs at most nine times |
| AnalysisPolicy.SampleIndexBelow | App.tsx:976 | every sampled index is a valid index |
| AnalysisPolicy.SampleIndicesIncrease | App.tsx:975-976 | the sampled indices strictly increase, so no point is taken twice |
| LaneState.LastWithId | App.tsx:451-452 | the record a road id keeps in the map is the last row with that id, and none exactly when no row has it |
| LaneState.Candidates | App.tsx:481 | the fuzzy candidates are exactly the rows whose road id matches the lane's |
| LaneState.MessagesFor | App.tsx:454-467 | every message point has value 1 |
| LaneState.IndexRows | App.tsx:451-452 | the map holds, for each road id, the last row with that id, and nothing else |
| LaneState.GroupMessages | App.tsx:454-467 | the map holds, for each road id in it, its messages in order; an id without an entry has no messages |
| LaneState.MergeLanes | App.tsx:476-499 | one merged lane per lane, in order |
| LaneState.MatchIdIff | App.tsx:469-475 | two ids match exactly when both are non-empty and one ends with the other |
| LaneState.SuffixIff | App.tsx:472-473 | `s.endsWith(t)` exactly when s is some string followed by t |
| LaneState.MatchIdSymmetric | App.tsx:469-475 | matching does not depend on the order of the ids |
| LaneState.ExactRecordWins | App.tsx:478 | a row with the lane's own id is always the record used |
| LaneState.FuzzyRecordIsSingle | App.tsx:479-485 | a fuzzy record is used only when no exact row exists, it is the single candidate, it matches, and its id is longer than 6 |
| LaneState.AmbiguousGetsNothing | App.tsx:486-490 | with no exact row and zero or several candidates, no record is used |
| LaneState.MessagesCount | App.tsx:454-467 | a lane gets as many points as messages filed under its id |
| LaneState.WithoutId | App.tsx:115 | the kept points are exactly those whose `String` id differs |
| LaneState.DeleteDamagePoint | App.tsx:111-117 | lanes keep id and condition; targeted lanes with a point array lose exactly the points with that id; the others are unchanged |
| LaneState.AppendDamagePoint | App.tsx:761-768 | the lane with the reported road id gets the new point at the end of its array (a fresh one when it had none); the other lanes are unchanged |
| LaneState.WithoutIdIsSubsequence | App.tsx:115 | the kept points and the removed ones add up to the original count, and the kept points are the points at strictly increasing positions, in order |
| LaneState.KeptPositionsExactly | App.tsx:115 | the kept positions are exactly those whose `String` id differs from the deleted one |
| LaneState.WithoutIdIdempotent | App.tsx:115 | deleting the same id twice is the same as once |
| LaneState.WithoutIdKeepsClean | App.tsx:115 | deleting an id no point has changes nothing |
| LaneState.AppendCount | App.tsx:761-768 | a report adds one point to every lane with its road id, and none to any other |
| LaneState.ReportedValueNonZero | App.tsx:764 | a reported point's value `severity \|\| 1` is never 0 |
| LaneService.IdRemainder | services/laneService.ts:63 | `el.id % 100` lies strictly between -100 and 100 |
| LaneService.StringHash | services/laneService.ts:142-147 | the hash loop computes the 32-bit wrap of the polynomial sum of code * 31^k |
| LaneService.HashBucket | services/laneService.ts:148 | `Math.abs(hash) % 100` lies in [0, 99] |
| LaneService.ToLanes | services/laneService.ts:43-81 | at most one lane per element, and every lane kept has coordinates |
| LaneService.RoadClassesDistinguished | services/laneService.ts:47-52 | the five highway classes get five different descriptions, none the default |
| LaneService.OtherRoadsAreRegular | services/laneService.ts:47-52 | any other or missing highway class gets 常规车道 |
| LaneService.SmoothnessRecognisedIff | services/laneService.ts:55-60 | a smoothness tag decides the condition exactly when it is on the OpenStreetMap smoothness scale |
| LaneService.SmoothnessMonotone | services/laneService.ts:57-60 | a rougher smoothness value never maps to a better condition |
| LaneService.BucketThresholds | services/laneService.ts:63-67 | the bucket gives Poor exactly above 90, Fair above 70, Excellent above 40, Good otherwise |
| LaneService.NegativeIdIsGood | services/laneService.ts:63-67 | a non-positive id always falls in the Good bucket |
| LaneService.ConditionAlwaysRanked | services/laneService.ts:55-68 | every way gets one of the four ranked conditions, never 未知 |
| LaneService.HashStepWraps | services/laneService.ts:145-146 | one step is `31 * hash + code` wrapped to 32 bits |
| LaneService.HashIsWrappedPolynomial | services/laneService.ts:142-147 | the hash is the polynomial sum of the character codes, wrapped to 32 bits |
| LaneService.HashIsInt32 | services/laneService.ts:146 | the hash is a signed 32-bit integer |
| LaneService.RoadNameNonEmpty | services/laneService.ts:72 | the road name is never empty; the name tag wins, the class description is the last resort |
| LaneService.LaneCountFromTag | services/laneService.ts:73 | a positive decimal lanes tag is taken as it stands |
| LaneService.LaneCountDefault | services/laneService.ts:73-74 | without a usable lanes tag, a one-way road has 3 lanes and any other 6 |
| LaneService.LaneCountNonZero | services/laneService.ts:73 | the lane count is never 0 |
| LaneService.LaneIdInjective | services/laneService.ts:71 | different way ids give different lane ids |
| LaneService.LaneIdSurvivesPointIds | services/laneService.ts:71 | the corrected parse reads the damage points of an `osm-<id>` lane back as that lane; the parse as written reads those of every lane with a non-negative id as "osm" |
| LaneService.AsWrittenOsmLane | services/spatialAnalysis.ts:268-272 | as written, the parse reads a bare lane id `osm-<n>` as "osm" |
| LaneService.CoordinatesKeepVertices | services/laneService.ts:79 | the coordinates keep every vertex in order, with `lon` as `lng` |
| LaneService.CoordinatesNonEmptyIff | services/laneService.ts:80-81 | an element has coordinates exactly when it has a geometry with at least one vertex |
| LaneService.ToLanesCount | services/laneService.ts:43-81 | one lane is kept per element that has a vertex, no more and no fewer |
| LaneService.ToLanesMembers | services/laneService.ts:43-81 | a lane is kept exactly when it is the conversion of some element and has coordinates |
| LaneService.FetchedLanesHaveCoordinates | services/laneService.ts:31-87 | whichever mirror answers, no lane without coordinates is returned |
| LaneService.FirstAnswerDecides | services/laneService.ts:31-43 | failed mirrors are skipped and the first that answers decides the result |
| LaneService.BboxAcceptedIff | services/laneService.ts:104-106 | a box is accepted exactly when its area is at most 1 and at most a given non-zero limit |
| LaneService.RefusedBoxIsEmpty | services/laneService.ts:104-106 | a refused box yields no lane whatever the mirrors answer |
| LaneService.InnerBoxAccepted | services/laneService.ts:104-106 | a box inside an accepted box is accepted too |

## Left out

- The network, the database, timers, `Date`, the map and the UI are not modelled. Requests become the rows or mirror replies they returned. The retry-with-backoff helper, mirror-level error handling other than skipping a failed mirror, and the abort signal are left out.
- Floating point is not modelled: numbers are exact reals, so rounding, overflow to infinity and NaN do not occur. In particular, `diag / 4 || 0` (which guards against NaN) is modelled as `diag / 4`.
- The `Math` functions are opaque, and only a few laws are assumed of them (`GeoMath.Lawful`). The accuracy of the haversine formula and of the erf approximation is not stated.
- GeoMath.PValueInUnitInterval: the CDF is modelled exactly as written, and only its range is proved. The code's polynomial lacks the leading factor `t` of the Abramowitz–Stegun formula 7.1.26, and it evaluates erf(z) rather than erf(z/√2). The value is therefore not the standard normal CDF, and the model does not claim it is.
- KernelDensity.ComputeKernelDensity: requires a non-zero bandwidth, a positive cell size, `maxCells >= 1` and a positive cos(meanLat). The code has no guard for these, and would produce NaN, infinity or a loop that never ends.
- AnalysisPolicy.PlanAnalysis: requires at least one point and a positive cos(meanLat). The caller returns early when there are no points; the cosine is positive for any latitude inside (-90, 90).
- AnalysisPolicy.Subsample: the index `Math.floor(i * (n / maxPoints))` is computed exactly as floor(i * n / maxPoints), since reals are exact. Float rounding of the factor is not modelled.
- AnalysisPolicy.LanePoints: the extra point fields `source`, `severity` and `damageType` are not modelled; no analysis reads them. The pseudo-point generator `makePseudoPoints` is never called and is not modelled.
- LaneState.MergeLanes: the `lastUpdated` merge through `formatDateShort` is not modelled, because it is date formatting. The message fields `type`, `description` and `photos` are not modelled either.
- LaneState.AppendDamagePoint: the clock reading `Date.now()` is a parameter, and the point's `type`, `description` and `photos` are not modelled.
- LaneService.ToLanes: `width` (via `parseFloat`), `type` and `lastUpdated` are not modelled.
- LaneService.HashBucket: a character code is taken as the character's code point. This equals `charCodeAt` for the ASCII characters of `String(el.id)`.
- RoadAggregate.AggregateHotspotsByRoad: the per-road dictionary is a Dafny `map`, which has no inherited keys. The code's `{}` inherits the names of `Object.prototype`. So a road named "constructor", "toString", "hasOwnProperty" and the like (given as `roadId`, or parsed from an id such as "toString-5") finds a truthy entry at spatialAnalysis.ts:274. Its counters are then written onto the inherited function, and `Object.values` skips them, so the code drops that road while the model reports it. For "__proto__" the code writes onto `Object.prototype` itself. The app's own road ids are always `osm-<n>`, so it never meets these names.
- LaneState.MergeLanes: `dbMap` and `msgMap` are Dafny maps without inherited keys, while the code's `{}` objects inherit the names of `Object.prototype`. Here is what the code does with such a name that the model does not:
  - A message whose `road_id` is "constructor" (or another inherited name) makes App.tsx:457 call `push` on a function. That throws, and the catch at App.tsx:503-504 abandons the whole merge and keeps the plain lanes.
  - A lane whose id is such a name finds a truthy `rec` at App.tsx:478. It therefore skips the fuzzy match and keeps its own condition, and its `damagePoints` is the inherited function.
  - A `road_id` of "__proto__" replaces the dictionary's prototype.
  
  The app's lane ids are always `osm-<n>`, so none of these arise there.
- RoadAggregate.Unsorted: the records follow the roads' first-seen order. `Object.values` lists integer-like keys (a `roadId` such as "42") first, in ascending numeric order, and only then the others in insertion order. The order reaches the result only through ties of the sort, and `SortByHotspots` does not state the order of ties (the code's `sort` is stable), so no stated property depends on it.
- HotspotReport.InterpretHotspots: the sentences are tags carrying the numbers they interpolate; the Chinese text itself and the `summaryText` string concatenation are not modelled.
- LaneSummary.AnalyzeLaneSummary: the summary string with `toFixed(2)` is modelled only by the road-name part it shows.
- The report's `options` (roadNames, areaName) and the Gi* `valueField` option are not modelled, because the code never reads them.

## Findings

The aggregate is modelled as the code runs it, with the parse as written; the corrected parse `RoadIdFromPointId` stands beside it with its round trip proved. The fallback parse matters only for results without a `roadId`, and the handler always sets one (App.tsx:899).

| source | as written | input that shows it | evidently intended | confidence | as-written member | corrected member |
|---|---|---|---|---|---|---|
| services/spatialAnalysis.ts:268-272 | after splitting at the damage separator, the lazy pattern `/^(.+?)(?:[-_]\d+)?$/` also strips the road's own trailing number | a result without `roadId` and with id "osm-1-d-123" goes to road "osm", and so does "osm-2-d-7", so all OpenStreetMap roads collapse into one | the part before the damage separator, "osm-1", is the road; only an id without a damage separator has a trailing index stripped | not executed | RoadAggregate.AggregateMergesNumberedRoads | RoadAggregate.RoadIdOfDamageId |
