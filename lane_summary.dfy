/**
 * LaneSummary: the single-road diagnosis analyzeLaneSummary
 * (services/spatialAnalysis.ts, lines 404-473).
 *
 * The polyline length is the sum of its segment distances; the vertex and
 * damage densities are per kilometre of that length (0 for a zero length); the
 * average severity counts a missing or zero value as 1. Urgency is picked by a
 * first-match table on the condition, the average severity and the damage
 * density, and then two adjustments may only raise it, each adding one
 * suggestion to the table's one.
 */
module LaneSummary {
  import opened Wrappers
  import opened GeoMath
  import opened HotspotAnalysis

  /** The lane as the summary reads it. */
  datatype LaneInput = LaneInput(
    coordinates: seq<LatLng>,
    condition: Option<string>,
    roadName: Option<string>,
    damagePoints: Option<seq<DamagePoint>>)

  /** `'low' | 'medium' | 'high' | 'critical'`; the summary never picks `critical`. */
  datatype Urgency = Low | Medium | High | Critical

  /** The suggestion sentences, by meaning. */
  datatype Advice =
    | EmergencyRepair        // structural damage, act within 7-15 days
    | MaintenancePlan        // moderate damage, plan within 1-3 months
    | RoutineInspection      // good state, routine patrols
    | ManualCheck            // unclear state, inspect on site
    | DenseDamageWarning     // more than 20 damage points per km
    | ShortSegmentPriority   // short segment with concentrated damage

  datatype LaneReport = LaneReport(
    lengthMeters: real,
    numPoints: nat,
    densityPerKm: real,
    damageDensityPerKm: real,
    avgSeverity: real,
    condition: string,
    urgency: Urgency,
    suggestions: seq<Advice>,
    roadName: string)

  const UNKNOWN: string := "未知"

  /** The rank used to compare urgencies. */
  function Rank(u: Urgency): nat {
    match u
    case Low => 0
    case Medium => 1
    case High => 2
    case Critical => 3
  }

  // ------------------------------------------------------------ measures

  /** The polyline length: the sum of the distances between consecutive vertices. */
  function PathLength(m: Trig, cs: seq<LatLng>): real {
    if |cs| < 2 then 0.0
    else PathLength(m, cs[..|cs| - 1]) + Distance(m, cs[|cs| - 2], cs[|cs| - 1])
  }

  /** `count / (length / 1000)` when the length is positive, else 0. */
  function PerKm(count: nat, length: real): (r: real)
    ensures length <= 0.0 ==> r == 0.0
    ensures length > 0.0 ==> r * length == count as real * 1000.0 && r >= 0.0
  {
    if length > 0.0 then count as real / (length / 1000.0) else 0.0
  }

  /** `p.value || 1`: a missing or zero value counts as 1. */
  function Severity(p: DamagePoint): (r: real)
    ensures r != 0.0
    ensures p.value.Some? && p.value.value != 0.0 ==> r == p.value.value
  {
    if p.value.Some? && p.value.value != 0.0 then p.value.value else 1.0
  }

  function SeveritySum(ps: seq<DamagePoint>): real {
    if ps == [] then 0.0 else SeveritySum(ps[..|ps| - 1]) + Severity(ps[|ps| - 1])
  }

  /** The mean severity, 0 without damage points. */
  function AverageSeverity(ps: seq<DamagePoint>): real {
    if |ps| > 0 then SeveritySum(ps) / |ps| as real else 0.0
  }

  /** `lane.condition || '未知'` */
  function ConditionLabel(c: Option<string>): (r: string)
    ensures r != ""
    ensures c.Some? && c.value != "" ==> r == c.value
  {
    if c.Some? && c.value != "" then c.value else UNKNOWN
  }

  // ------------------------------------------------------------ the decision

  /** The first-match table: its urgency and its one suggestion. */
  function Triage(cond: string, avgSeverity: real, damageDensity: real): (Urgency, Advice) {
    if cond == "Poor" || avgSeverity > 2.5 then (High, EmergencyRepair)
    else if cond == "Fair" || (damageDensity > 10.0 && avgSeverity > 1.5) then (Medium, MaintenancePlan)
    else if cond == "Good" || damageDensity < 5.0 then (Low, RoutineInspection)
    else (Medium, ManualCheck)
  }

  predicate DenseDamage(damageDensity: real) { damageDensity > 20.0 }

  predicate ShortAndDense(length: real, damageDensity: real) { length < 200.0 && damageDensity > 15.0 }

  /** The urgency after both adjustments. */
  function FinalUrgency(cond: string, avgSeverity: real, damageDensity: real, length: real): Urgency {
    var base := Triage(cond, avgSeverity, damageDensity).0;
    if ShortAndDense(length, damageDensity) then High
    else if DenseDamage(damageDensity) && base == Low then Medium
    else base
  }

  /** The table's suggestion, then one per adjustment that fired. */
  function Suggestions(cond: string, avgSeverity: real, damageDensity: real, length: real): seq<Advice> {
    [Triage(cond, avgSeverity, damageDensity).1]
      + (if DenseDamage(damageDensity) then [DenseDamageWarning] else [])
      + (if ShortAndDense(length, damageDensity) then [ShortSegmentPriority] else [])
  }

  // ------------------------------------------------------------ the methods

  /** The `for (let i = 1; i < coords.length; i++)` length loop. */
  method LaneLength(m: Trig, coords: seq<LatLng>) returns (length: real)
    ensures length == PathLength(m, coords)
  {
    length := 0.0;
    var i := 1;
    while i < |coords|
      invariant 1 <= i
      invariant |coords| == 0 ==> length == 0.0
      invariant |coords| > 0 ==> i <= |coords| && length == PathLength(m, coords[..i])
    {
      assert coords[..i + 1][..i] == coords[..i];
      length := length + Distance(m, coords[i - 1], coords[i]);
      i := i + 1;
    }
    if |coords| > 0 {
      assert coords[..i] == coords;
    }
  }

  /** analyzeLaneSummary */
  method AnalyzeLaneSummary(m: Trig, lane: LaneInput) returns (r: LaneReport)
    ensures r.lengthMeters == PathLength(m, lane.coordinates)
    ensures r.numPoints == |lane.coordinates|
    ensures r.densityPerKm == PerKm(|lane.coordinates|, r.lengthMeters)
    ensures var dps := lane.damagePoints.GetOr([]);
      && r.damageDensityPerKm == PerKm(|dps|, r.lengthMeters)
      && r.avgSeverity == AverageSeverity(dps)
    ensures r.condition == ConditionLabel(lane.condition)
    ensures r.urgency == FinalUrgency(r.condition, r.avgSeverity, r.damageDensityPerKm, r.lengthMeters)
    ensures r.suggestions == Suggestions(r.condition, r.avgSeverity, r.damageDensityPerKm, r.lengthMeters)
    ensures r.roadName == ConditionLabel(lane.roadName)
  {
    var coords := lane.coordinates;
    var length := LaneLength(m, coords);
    var numPoints := |coords|;
    var density := PerKm(numPoints, length);
    var damagePoints := lane.damagePoints.GetOr([]);
    var damageDensity := PerKm(|damagePoints|, length);
    var avgSeverity := AverageSeverity(damagePoints);
    var cond := ConditionLabel(lane.condition);
    var suggestions: seq<Advice> := [];
    var urgency := Low;
    if cond == "Poor" || avgSeverity > 2.5 {
      urgency := High;
      suggestions := suggestions + [EmergencyRepair];
    } else if cond == "Fair" || (damageDensity > 10.0 && avgSeverity > 1.5) {
      urgency := Medium;
      suggestions := suggestions + [MaintenancePlan];
    } else if cond == "Good" || damageDensity < 5.0 {
      urgency := Low;
      suggestions := suggestions + [RoutineInspection];
    } else {
      urgency := Medium;
      suggestions := suggestions + [ManualCheck];
    }
    if damageDensity > 20.0 {
      suggestions := suggestions + [DenseDamageWarning];
      if urgency == Low {
        urgency := Medium;
      }
    }
    if length < 200.0 && damageDensity > 15.0 {
      suggestions := suggestions + [ShortSegmentPriority];
      urgency := High;
    }
    r := LaneReport(length, numPoints, density, damageDensity, avgSeverity, cond, urgency, suggestions,
                    ConditionLabel(lane.roadName));
  }

  // ------------------------------------------------------------------ lemmas

  /** With lawful trigonometry the length is never negative, and it is 0 below two vertices. */
  lemma {:induction false} PathLengthNonNegative(m: Trig, cs: seq<LatLng>)
    requires Lawful(m)
    ensures PathLength(m, cs) >= 0.0
    ensures |cs| < 2 ==> PathLength(m, cs) == 0.0
  {
    if |cs| >= 2 {
      PathLengthNonNegative(m, cs[..|cs| - 1]);
      DistanceNonNegative(m, cs[|cs| - 2], cs[|cs| - 1]);
    }
  }

  /** A polyline that stays at one position has length 0. */
  lemma {:induction false} PathLengthOfStationary(m: Trig, cs: seq<LatLng>)
    requires Lawful(m)
    requires forall i :: 0 <= i < |cs| ==> cs[i] == cs[0]
    ensures PathLength(m, cs) == 0.0
  {
    if |cs| >= 2 {
      PathLengthOfStationary(m, cs[..|cs| - 1]);
      DistanceSelf(m, cs[0]);
    }
  }

  /** Points without a usable value each count as 1, so their average severity is 1. */
  lemma {:induction false} AverageOfDefaultSeverities(ps: seq<DamagePoint>)
    requires |ps| > 0
    requires forall i :: 0 <= i < |ps| ==> ps[i].value.None? || ps[i].value == Some(0.0)
    ensures AverageSeverity(ps) == 1.0
  {
    DefaultSeveritySum(ps);
  }

  lemma {:induction false} DefaultSeveritySum(ps: seq<DamagePoint>)
    requires forall i :: 0 <= i < |ps| ==> ps[i].value.None? || ps[i].value == Some(0.0)
    ensures SeveritySum(ps) == |ps| as real
  {
    if ps != [] {
      DefaultSeveritySum(ps[..|ps| - 1]);
    }
  }

  /** With every value at least 1 (or missing, or 0), the average severity is at least 1. */
  lemma AverageSeverityAtLeastOne(ps: seq<DamagePoint>)
    requires |ps| > 0
    requires forall i :: 0 <= i < |ps| ==> ps[i].value.None? || ps[i].value.value >= 1.0 || ps[i].value.value == 0.0
    ensures AverageSeverity(ps) >= 1.0
  {
    SeveritySumAtLeastCount(ps);
    var n := |ps| as real;
    assert SeveritySum(ps) / n >= n / n;
  }

  lemma {:induction false} SeveritySumAtLeastCount(ps: seq<DamagePoint>)
    requires forall i :: 0 <= i < |ps| ==> ps[i].value.None? || ps[i].value.value >= 1.0 || ps[i].value.value == 0.0
    ensures SeveritySum(ps) >= |ps| as real
  {
    if ps != [] {
      SeveritySumAtLeastCount(ps[..|ps| - 1]);
    }
  }

  /** The summary never reports `critical`. */
  lemma NeverCritical(cond: string, avgSeverity: real, damageDensity: real, length: real)
    ensures FinalUrgency(cond, avgSeverity, damageDensity, length) != Critical
  {
  }

  /** The adjustments only raise the table's urgency. */
  lemma AdjustmentsOnlyRaise(cond: string, avgSeverity: real, damageDensity: real, length: real)
    ensures Rank(FinalUrgency(cond, avgSeverity, damageDensity, length))
         >= Rank(Triage(cond, avgSeverity, damageDensity).0)
  {
  }

  /** One suggestion from the table plus one per adjustment that fired, the table's first. */
  lemma SuggestionCount(cond: string, avgSeverity: real, damageDensity: real, length: real)
    ensures var s := Suggestions(cond, avgSeverity, damageDensity, length);
      && |s| == 1 + (if damageDensity > 20.0 then 1 else 0) + (if length < 200.0 && damageDensity > 15.0 then 1 else 0)
      && s[0] == Triage(cond, avgSeverity, damageDensity).1
  {
  }

  /**
   * The urgency is `low` exactly when the table says low by its third rule and
   * neither adjustment fires.
   */
  lemma LowIff(cond: string, avgSeverity: real, damageDensity: real, length: real)
    ensures FinalUrgency(cond, avgSeverity, damageDensity, length) == Low <==>
      && !(cond == "Poor" || avgSeverity > 2.5)
      && !(cond == "Fair" || (damageDensity > 10.0 && avgSeverity > 1.5))
      && (cond == "Good" || damageDensity < 5.0)
      && damageDensity <= 20.0
      && !(length < 200.0 && damageDensity > 15.0)
  {
  }

  /**
   * The urgency is `high` exactly when the condition is Poor, the average
   * severity exceeds 2.5, or a short segment is densely damaged.
   */
  lemma HighIff(cond: string, avgSeverity: real, damageDensity: real, length: real)
    ensures FinalUrgency(cond, avgSeverity, damageDensity, length) == High <==>
      cond == "Poor" || avgSeverity > 2.5 || (length < 200.0 && damageDensity > 15.0)
  {
  }
}
