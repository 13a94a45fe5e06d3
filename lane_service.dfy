/**
 * The conversion of OpenStreetMap ways, as the Overpass service returns them,
 * into the lanes the application displays and analyses: road-class
 * descriptions, the smoothness-to-condition mapping with its two fallback
 * buckets (the id remainder and the 32-bit string hash), the derived name,
 * lane count, direction and id, the dropping of ways without geometry, and the
 * bounding-box area guard. The network requests themselves are replaced by
 * the replies they produced.
 */
module LaneService {
  import opened Wrappers
  import opened Js
  import opened GeoMath
  import AnalysisPolicy
  import RoadAggregate

  // ---------------------------------------------------------------- data

  /** The tags of a way the conversion reads (a missing tag is `None`). */
  datatype Tags = Tags(
    highway: Option<string>,
    smoothness: Option<string>,
    name: Option<string>,
    roadRef: Option<string>,
    lanes: Option<string>,
    oneway: Option<string>)

  /** `el.tags || {}` */
  const NO_TAGS: Tags := Tags(None, None, None, None, None, None)

  /** One vertex of a way's geometry, with Overpass's `lon`. */
  datatype GeomPoint = GeomPoint(lat: real, lon: real)

  /** One element of the Overpass reply. */
  datatype OsmElement = OsmElement(id: int, tags: Option<Tags>, geometry: Option<seq<GeomPoint>>)

  datatype Direction = North | Bidirectional

  /** The fields of a lane the conversion derives from a way. */
  datatype OsmLane = OsmLane(
    id: string,
    roadName: string,
    laneCount: int,
    direction: Direction,
    condition: string,
    coordinates: seq<LatLng>)

  /** Which fallback decides the condition of a way without a known smoothness. */
  datatype FallbackRule =
    | ByIdRemainder  // the search around a point: `el.id % 100`
    | ByIdHash       // the bounding-box search: a hash of `String(el.id)`

  /** What one Overpass mirror gave back. */
  datatype MirrorReply =
    | Failed                          // the request threw, was not ok, or was not JSON
    | NoElements                      // JSON without `elements`
    | Elements(elements: seq<OsmElement>)

  // ---------------------------------------------------------------- road class

  const DEFAULT_ROAD_DESC: string := "常规车道"

  /** The five highway classes the query asks for, from the highest. */
  const HIGHWAY_CLASSES: seq<string> := ["motorway", "trunk", "primary", "secondary", "tertiary"]

  /** The description of a way's highway class. */
  function RoadTypeDesc(highway: Option<string>): string {
    if highway == Some("motorway") then "高速公路"
    else if highway == Some("trunk") then "城市快速路"
    else if highway == Some("primary") then "一级主干道"
    else if highway == Some("secondary") then "二级干道"
    else if highway == Some("tertiary") then "三级干道"
    else DEFAULT_ROAD_DESC
  }

  // ---------------------------------------------------------------- condition

  /** The OpenStreetMap smoothness scale, from the best surface to the worst. */
  const SMOOTHNESS_SCALE: seq<string> :=
    ["excellent", "good", "intermediate", "bad", "very_bad", "horrible", "very_horrible", "impassable"]

  /** The condition a recognised smoothness tag names; `None` for any other value. */
  function SmoothnessCondition(smoothness: Option<string>): Option<string> {
    if smoothness == Some("excellent") then Some("Excellent")
    else if smoothness == Some("good") || smoothness == Some("intermediate") then Some("Good")
    else if smoothness == Some("bad") || smoothness == Some("very_bad") then Some("Fair")
    else if smoothness == Some("horrible") || smoothness == Some("very_horrible")
         || smoothness == Some("impassable") then Some("Poor")
    else None
  }

  /** The condition of a bucket in (-100, 100): `rand = bucket / 100` against 0.9, 0.7, 0.4. */
  function BucketCondition(bucket: int): string {
    var rand := bucket as real / 100.0;
    if rand > 0.9 then "Poor"
    else if rand > 0.7 then "Fair"
    else if rand > 0.4 then "Excellent"
    else "Good"
  }

  /** `el.id % 100`, with JavaScript's remainder. */
  function IdRemainder(id: int): (r: int)
    ensures -100 < r < 100
  {
    TruncRem(id, 100)
  }

  /** One step of the hash: `hash = (hash << 5) - hash + code; hash |= 0`. */
  function HashStep(hash: int, code: int): int {
    ToInt32(ToInt32(hash * 32) - hash + code)
  }

  /** The hash of a string, character after character from 0. */
  function HashOf(s: string): int {
    if s == [] then 0 else HashStep(HashOf(s[..|s| - 1]), s[|s| - 1] as int)
  }

  /** The polynomial the hash computes before wrapping: the sum of code * 31^k. */
  function PolyHash(s: string): int {
    if s == [] then 0 else 31 * PolyHash(s[..|s| - 1]) + s[|s| - 1] as int
  }

  /** The hash loop over `String(el.id)`. */
  method StringHash(s: string) returns (hash: int)
    ensures hash == HashOf(s)
    ensures hash == ToInt32(PolyHash(s))
  {
    hash := 0;
    var i := 0;
    while i < |s|
      invariant 0 <= i <= |s|
      invariant hash == HashOf(s[..i])
    {
      assert s[..i + 1][..i] == s[..i];
      hash := ToInt32(ToInt32(hash * 32) - hash + s[i] as int);
      i := i + 1;
    }
    assert s[..i] == s;
    HashIsWrappedPolynomial(s);
  }

  /** `Math.abs(hash) % 100` */
  function HashBucket(id: int): (r: int)
    ensures 0 <= r < 100
  {
    Abs(HashOf(IntToString(id))) % 100
  }

  /** The condition a way without a recognised smoothness tag gets. */
  function FallbackCondition(rule: FallbackRule, id: int): string {
    match rule
    case ByIdRemainder => BucketCondition(IdRemainder(id))
    case ByIdHash => BucketCondition(HashBucket(id))
  }

  /** The condition of a way: its smoothness tag first, the fallback bucket otherwise. */
  function LaneCondition(rule: FallbackRule, id: int, tags: Tags): string {
    match SmoothnessCondition(tags.smoothness)
    case Some(c) => c
    case None => FallbackCondition(rule, id)
  }

  // ---------------------------------------------------------------- other fields

  /** A JavaScript string is truthy when it is present and not empty. */
  predicate Truthy(s: Option<string>) { s.Some? && s.value != "" }

  /** `tags.name || tags.ref || roadTypeDesc` */
  function RoadName(tags: Tags): string {
    if Truthy(tags.name) then tags.name.value
    else if Truthy(tags.roadRef) then tags.roadRef.value
    else RoadTypeDesc(tags.highway)
  }

  predicate IsOneWay(tags: Tags) { tags.oneway == Some("yes") }

  /** `parseInt(tags.lanes) || (oneway ? 3 : 6)`: NaN and 0 fall through to the default. */
  function LaneCount(tags: Tags): int {
    var parsed := if tags.lanes.Some? then ParseInt(tags.lanes.value) else None;
    if parsed.Some? && parsed.value != 0 then parsed.value
    else if IsOneWay(tags) then 3
    else 6
  }

  function LaneDirection(tags: Tags): Direction {
    if IsOneWay(tags) then North else Bidirectional
  }

  /** `osm-${el.id}` */
  function LaneId(id: int): string {
    "osm-" + IntToString(id)
  }

  /** The geometry with `lon` renamed to `lng`; no geometry gives no coordinates. */
  function Coordinates(geometry: Option<seq<GeomPoint>>): seq<LatLng> {
    if geometry.None? then []
    else seq(|geometry.value|, i requires 0 <= i < |geometry.value| =>
               LatLng(geometry.value[i].lat, geometry.value[i].lon))
  }

  function TagsOf(el: OsmElement): Tags {
    el.tags.GetOr(NO_TAGS)
  }

  /** The lane one element maps to. */
  function ToLane(rule: FallbackRule, el: OsmElement): OsmLane {
    var tags := TagsOf(el);
    OsmLane(LaneId(el.id), RoadName(tags), LaneCount(tags), LaneDirection(tags),
            LaneCondition(rule, el.id, tags), Coordinates(el.geometry))
  }

  /** `elements.map(toLane).filter(lane => lane.coordinates.length > 0)` */
  function ToLanes(rule: FallbackRule, elements: seq<OsmElement>): (r: seq<OsmLane>)
    ensures |r| <= |elements|
    ensures forall i :: 0 <= i < |r| ==> |r[i].coordinates| > 0
  {
    if elements == [] then []
    else
      var lane := ToLane(rule, elements[|elements| - 1]);
      ToLanes(rule, elements[..|elements| - 1]) + (if |lane.coordinates| > 0 then [lane] else [])
  }

  /** The number of elements with at least one vertex. */
  function WithGeometry(elements: seq<OsmElement>): nat {
    if elements == [] then 0
    else
      var el := elements[|elements| - 1];
      WithGeometry(elements[..|elements| - 1])
      + (if el.geometry.Some? && |el.geometry.value| > 0 then 1 else 0)
  }

  // ---------------------------------------------------------------- fetching

  /** The mirrors are tried in order; the first one that answers decides. */
  function FromReplies(rule: FallbackRule, replies: seq<MirrorReply>): seq<OsmLane> {
    if replies == [] then []
    else match replies[0]
      case Failed => FromReplies(rule, replies[1..])
      case NoElements => []
      case Elements(els) => ToLanes(rule, els)
  }

  /** The lanes around a point. */
  function FetchRealLanes(replies: seq<MirrorReply>): seq<OsmLane> {
    FromReplies(ByIdRemainder, replies)
  }

  /** `|north - south| * |east - west|`, in square degrees. */
  function AreaDeg(south: real, west: real, north: real, east: real): real {
    AbsReal(north - south) * AbsReal(east - west)
  }

  /** The guard: a limit that is given and not 0 caps the area; 1 square degree always does. */
  predicate BboxAccepted(south: real, west: real, north: real, east: real, maxAreaDeg: Option<real>) {
    var areaDeg := AreaDeg(south, west, north, east);
    if maxAreaDeg.Some? && maxAreaDeg.value != 0.0 && areaDeg > maxAreaDeg.value then false
    else if areaDeg > 1.0 then false
    else true
  }

  /** The lanes in a bounding box; nothing at all for a box the guard refuses. */
  function FetchRealLanesByBbox(south: real, west: real, north: real, east: real,
                                maxAreaDeg: Option<real>, replies: seq<MirrorReply>): seq<OsmLane> {
    if !BboxAccepted(south, west, north, east, maxAreaDeg) then []
    else FromReplies(ByIdHash, replies)
  }

  // ---------------------------------------------------------------- lemmas

  /** The five highway classes get five different descriptions, none of them the default. */
  lemma RoadClassesDistinguished(i: int, j: int)
    requires 0 <= i < |HIGHWAY_CLASSES| && 0 <= j < |HIGHWAY_CLASSES| && i != j
    ensures RoadTypeDesc(Some(HIGHWAY_CLASSES[i])) != RoadTypeDesc(Some(HIGHWAY_CLASSES[j]))
    ensures RoadTypeDesc(Some(HIGHWAY_CLASSES[i])) != DEFAULT_ROAD_DESC
  {
  }

  /** Any other highway value, and a missing one, gets the default description. */
  lemma OtherRoadsAreRegular(highway: Option<string>)
    requires highway.None? || highway.value !in HIGHWAY_CLASSES
    ensures RoadTypeDesc(highway) == DEFAULT_ROAD_DESC
  {
  }

  /** A smoothness tag is recognised exactly when it is on the scale. */
  lemma SmoothnessRecognisedIff(s: string)
    ensures SmoothnessCondition(Some(s)).Some? <==> s in SMOOTHNESS_SCALE
    ensures SmoothnessCondition(None).None?
  {
  }

  /** A rougher surface never maps to a better condition. */
  lemma SmoothnessMonotone(i: int, j: int)
    requires 0 <= i <= j < |SMOOTHNESS_SCALE|
    ensures SmoothnessCondition(Some(SMOOTHNESS_SCALE[i])).Some?
    ensures SmoothnessCondition(Some(SMOOTHNESS_SCALE[j])).Some?
    ensures 0 <= AnalysisPolicy.ConditionRank(SmoothnessCondition(Some(SMOOTHNESS_SCALE[i])).value)
                <= AnalysisPolicy.ConditionRank(SmoothnessCondition(Some(SMOOTHNESS_SCALE[j])).value)
  {
  }

  /** The thresholds on `bucket / 100` are the integer thresholds 90, 70 and 40. */
  lemma BucketThresholds(bucket: int)
    ensures BucketCondition(bucket) == "Poor" <==> bucket > 90
    ensures BucketCondition(bucket) == "Fair" <==> 70 < bucket <= 90
    ensures BucketCondition(bucket) == "Excellent" <==> 40 < bucket <= 70
    ensures BucketCondition(bucket) == "Good" <==> bucket <= 40
  {
  }

  /** A way with a negative id (a remainder of at most 0) always falls in the Good bucket. */
  lemma NegativeIdIsGood(id: int)
    requires id <= 0
    ensures FallbackCondition(ByIdRemainder, id) == "Good"
  {
  }

  /** Every way gets one of the four ranked conditions; the initial "未知" never survives. */
  lemma {:induction false} ConditionAlwaysRanked(rule: FallbackRule, id: int, tags: Tags)
    ensures 0 <= AnalysisPolicy.ConditionRank(LaneCondition(rule, id, tags)) <= 3
    ensures LaneCondition(rule, id, tags) != "未知"
  {
    if SmoothnessCondition(tags.smoothness).None? {
      var bucket := if rule.ByIdRemainder? then IdRemainder(id) else HashBucket(id);
      BucketThresholds(bucket);
    }
  }

  lemma MultipleOfWordSize(k: int)
    ensures (k * TWO_POW_32) % TWO_POW_32 == 0
  {
  }

  /** One hash step is `31 * hash + code`, wrapped to 32 bits. */
  lemma {:induction false} HashStepWraps(hash: int, poly: int, code: int)
    requires hash == ToInt32(poly)
    ensures HashStep(hash, code) == ToInt32(31 * poly + code)
  {
    var shifted := ToInt32(hash * 32);
    var k1 := (hash * 32 - shifted) / TWO_POW_32;
    var k2 := (poly - hash) / TWO_POW_32;
    assert hash * 32 - shifted == k1 * TWO_POW_32;
    assert poly - hash == k2 * TWO_POW_32;
    var v := shifted - hash + code;
    assert v - (31 * poly + code) == (-(31 * k2 + k1)) * TWO_POW_32;
    MultipleOfWordSize(-(31 * k2 + k1));
    ToInt32Congruent(v, 31 * poly + code);
  }

  /** The hash is the polynomial sum of the character codes, wrapped to 32 bits. */
  lemma {:induction false} HashIsWrappedPolynomial(s: string)
    ensures HashOf(s) == ToInt32(PolyHash(s))
  {
    if s == [] {
      ToInt32OfInt32(0);
    } else {
      var p := s[..|s| - 1];
      HashIsWrappedPolynomial(p);
      HashStepWraps(HashOf(p), PolyHash(p), s[|s| - 1] as int);
    }
  }

  /** The hash is always a 32-bit integer. */
  lemma HashIsInt32(s: string)
    ensures IsInt32(HashOf(s))
  {
    HashIsWrappedPolynomial(s);
  }

  /** A road name is never empty: the class description is the last resort. */
  lemma RoadNameNonEmpty(tags: Tags)
    ensures RoadName(tags) != ""
    ensures Truthy(tags.name) ==> RoadName(tags) == tags.name.value
    ensures !Truthy(tags.name) && !Truthy(tags.roadRef) ==> RoadName(tags) == RoadTypeDesc(tags.highway)
  {
  }

  /** A lanes tag holding a positive decimal number is taken as it stands. */
  lemma LaneCountFromTag(tags: Tags, n: nat)
    requires n > 0 && tags.lanes == Some(NatToString(n))
    ensures LaneCount(tags) == n
  {
    ParseIntOfNatToString(n);
  }

  /** Without a usable lanes tag a one-way road has 3 lanes and any other road 6. */
  lemma LaneCountDefault(tags: Tags)
    requires tags.lanes.None? || ParseInt(tags.lanes.value).None? || ParseInt(tags.lanes.value) == Some(0)
    ensures LaneCount(tags) == (if LaneDirection(tags) == North then 3 else 6)
  {
  }

  /** The lane count is never 0. */
  lemma LaneCountNonZero(tags: Tags)
    ensures LaneCount(tags) != 0
  {
  }

  /** Different way ids give different lane ids. */
  lemma {:induction false} LaneIdInjective(a: int, b: int)
    requires LaneId(a) == LaneId(b)
    ensures a == b
  {
    var sa := IntToString(a);
    var sb := IntToString(b);
    assert sa == LaneId(a)[4..] && sb == LaneId(b)[4..];
    if a < 0 && b < 0 {
      assert sa[1..] == NatToString(-a) && sb[1..] == NatToString(-b);
      NatToStringInjective(-a, -b);
    } else if a >= 0 && b >= 0 {
      NatToStringInjective(a, b);
    }
  }

  /**
   * A lane id contains no 'd', so the corrected parse reads the road of a damage
   * point converted from one of its points back as the lane id itself; the
   * parse as written reads every such point of a non-negative `osm-<id>` lane
   * as "osm".
   */
  lemma LaneIdSurvivesPointIds(id: int, p: AnalysisPolicy.LanePoint, idx: nat, lane: AnalysisPolicy.Lane)
    requires lane.id == LaneId(id)
    ensures RoadAggregate.RoadIdFromPointId(AnalysisPolicy.ToAnalysisPoint(lane, p, idx).id.value) == lane.id
    ensures id >= 0 ==> RoadAggregate.AsWrittenRoadId(AnalysisPolicy.ToAnalysisPoint(lane, p, idx).id.value) == "osm"
  {
    var s := IntToString(id);
    assert forall i :: 0 <= i < |s| ==> s[i] == '-' || IsDigit(s[i]);
    assert LaneId(id) == "osm-" + s;
    AnalysisPolicy.ConvertedIdNamesItsLane(lane, p, idx);
    if id >= 0 {
      AsWrittenOsmLane(id);
    }
  }

  /** As written, the parse strips the element id from a bare `osm-<n>` lane id. */
  lemma AsWrittenOsmLane(n: nat)
    ensures RoadAggregate.AsWrittenRoadId(LaneId(n)) == "osm"
  {
    var digits := NatToString(n);
    var s := "osm-" + digits;
    assert LaneId(n) == s == "osm" + "-" + digits;
    assert 'd' !in s by {
      forall i | 0 <= i < |s|
        ensures s[i] != 'd'
      {
        if i >= 4 {
          assert s[i] == digits[i - 4];
        }
      }
    }
    RoadAggregate.NoSeparatorWithoutD(s);
    assert RoadAggregate.SplitHead(s) == s;
    RoadAggregate.LazyCaptureStripsNumber("osm", n);
  }

  /** Coordinates keep every vertex, in order, with `lon` as `lng`. */
  lemma CoordinatesKeepVertices(geometry: seq<GeomPoint>)
    ensures |Coordinates(Some(geometry))| == |geometry|
    ensures forall i :: 0 <= i < |geometry| ==>
              Coordinates(Some(geometry))[i] == LatLng(geometry[i].lat, geometry[i].lon)
  {
  }

  /** A way converts to a lane with coordinates exactly when it has a geometry with a vertex. */
  lemma CoordinatesNonEmptyIff(geometry: Option<seq<GeomPoint>>)
    ensures |Coordinates(geometry)| > 0 <==> geometry.Some? && |geometry.value| > 0
  {
  }

  /** One lane is kept per element that has a vertex. */
  lemma {:induction false} ToLanesCount(rule: FallbackRule, elements: seq<OsmElement>)
    ensures |ToLanes(rule, elements)| == WithGeometry(elements)
  {
    if elements != [] {
      ToLanesCount(rule, elements[..|elements| - 1]);
      CoordinatesNonEmptyIff(elements[|elements| - 1].geometry);
    }
  }

  /** The lanes kept are exactly the converted elements that have coordinates. */
  lemma {:induction false} ToLanesMembers(rule: FallbackRule, elements: seq<OsmElement>)
    ensures forall lane :: lane in ToLanes(rule, elements) <==>
              exists el :: el in elements && ToLane(rule, el) == lane && |lane.coordinates| > 0
  {
    if elements != [] {
      var prefix := elements[..|elements| - 1];
      var last := elements[|elements| - 1];
      ToLanesMembers(rule, prefix);
      assert elements == prefix + [last];
      var lanes := ToLanes(rule, elements);
      var kept := if |ToLane(rule, last).coordinates| > 0 then [ToLane(rule, last)] else [];
      assert lanes == ToLanes(rule, prefix) + kept;
      forall lane | lane in lanes
        ensures exists el :: el in elements && ToLane(rule, el) == lane && |lane.coordinates| > 0
      {
        if lane in ToLanes(rule, prefix) {
          var el :| el in prefix && ToLane(rule, el) == lane && |lane.coordinates| > 0;
          assert el in elements;
        } else {
          assert lane == ToLane(rule, last) && last in elements;
        }
      }
      forall lane, el | el in elements && ToLane(rule, el) == lane && |lane.coordinates| > 0
        ensures lane in lanes
      {
        if el in prefix {
          assert lane in ToLanes(rule, prefix);
        } else {
          assert el == last;
        }
      }
    }
  }

  /** Whichever mirror answers, a way without geometry never becomes a lane. */
  lemma {:induction false} FetchedLanesHaveCoordinates(rule: FallbackRule, replies: seq<MirrorReply>)
    ensures forall lane :: lane in FromReplies(rule, replies) ==> |lane.coordinates| > 0
  {
    if replies != [] && replies[0].Failed? {
      FetchedLanesHaveCoordinates(rule, replies[1..]);
    }
  }

  /** The first mirror that answers decides; failed mirrors before it do not matter. */
  lemma {:induction false} FirstAnswerDecides(rule: FallbackRule, failed: nat, reply: MirrorReply, rest: seq<MirrorReply>)
    requires !reply.Failed?
    ensures FromReplies(rule, seq(failed, _ => Failed) + [reply] + rest)
            == (if reply.Elements? then ToLanes(rule, reply.elements) else [])
  {
    var replies := seq(failed, _ => Failed) + [reply] + rest;
    if failed > 0 {
      assert replies[1..] == seq(failed - 1, _ => Failed) + [reply] + rest;
      FirstAnswerDecides(rule, failed - 1, reply, rest);
    } else {
      assert replies[0] == reply;
    }
  }

  /** The guard accepts a box exactly when its area is within 1 and within a given, non-zero limit. */
  lemma BboxAcceptedIff(south: real, west: real, north: real, east: real, maxAreaDeg: Option<real>)
    ensures BboxAccepted(south, west, north, east, maxAreaDeg) <==>
              AreaDeg(south, west, north, east) <= 1.0
              && (maxAreaDeg.None? || maxAreaDeg.value == 0.0
                  || AreaDeg(south, west, north, east) <= maxAreaDeg.value)
  {
  }

  /** A refused box yields no lane, whatever the mirrors would have answered. */
  lemma RefusedBoxIsEmpty(south: real, west: real, north: real, east: real,
                          maxAreaDeg: Option<real>, replies: seq<MirrorReply>)
    requires AreaDeg(south, west, north, east) > 1.0
             || (maxAreaDeg.Some? && maxAreaDeg.value != 0.0
                 && AreaDeg(south, west, north, east) > maxAreaDeg.value)
    ensures FetchRealLanesByBbox(south, west, north, east, maxAreaDeg, replies) == []
  {
  }

  lemma ProductMonotone(a: real, b: real, c: real, d: real)
    requires 0.0 <= a <= c && 0.0 <= b <= d
    ensures a * b <= c * d
  {
    assert a * b <= c * b;
    assert c * b <= c * d;
  }

  /** A box inside an accepted box is accepted too. */
  lemma {:induction false} InnerBoxAccepted(south: real, west: real, north: real, east: real,
                                            s: real, w: real, n: real, e: real, maxAreaDeg: Option<real>)
    requires south <= s <= n <= north && west <= w <= e <= east
    requires BboxAccepted(south, west, north, east, maxAreaDeg)
    ensures BboxAccepted(s, w, n, e, maxAreaDeg)
  {
    ProductMonotone(n - s, e - w, north - south, east - west);
  }
}
