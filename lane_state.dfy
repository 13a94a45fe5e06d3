/**
 * LaneState: how the lane list is merged with the database rows and updated
 * by the damage-point handlers (App.tsx, lines 111-117, 451-499 and 761-768).
 *
 * A lane takes the database record whose road id equals its own; failing
 * that, a record whose id is a suffix of the lane's (or the other way round)
 * is used only when it is the single such record and its id is longer than 6
 * characters. Its damage points are the messages filed under its id. The
 * delete handler filters points out by their `String` id, in one lane or in
 * all; the report handler appends one point to the lane with the reported
 * road id.
 */
module LaneState {
  import opened Wrappers
  import opened Js
  import opened AnalysisPolicy

  /** A `road_conditions` row: `road_id` in its `String` form and the condition. */
  datatype DbRow = DbRow(roadId: string, condition: Option<string>)

  /** A message row: its id and road id in their `String` form, and its position. */
  datatype MsgRow = MsgRow(id: string, roadId: string, lat: real, lng: real)

  // ------------------------------------------------------------ matching

  /** matchId: non-empty ids that are equal or of which one ends with the other. */
  predicate MatchId(lId: string, rId: string) {
    if lId == "" || rId == "" then false
    else if lId == rId then true
    else if EndsWith(lId, rId) then true
    else if EndsWith(rId, lId) then true
    else false
  }

  /** The row `dbMap[id]` holds after the `forEach`: the last row with that id. */
  function LastWithId(rows: seq<DbRow>, id: string): (r: Option<DbRow>)
    ensures r.None? <==> forall i :: 0 <= i < |rows| ==> rows[i].roadId != id
    ensures r.Some? ==> exists i :: 0 <= i < |rows| && rows[i] == r.value && rows[i].roadId == id
                          && forall j :: i < j < |rows| ==> rows[j].roadId != id
  {
    if rows == [] then None
    else if rows[|rows| - 1].roadId == id then Some(rows[|rows| - 1])
    else LastWithId(rows[..|rows| - 1], id)
  }

  /** `dbRows.filter(d => matchId(laneId, d.road_id))` */
  function Candidates(rows: seq<DbRow>, laneId: string): (c: seq<DbRow>)
    ensures |c| <= |rows|
    ensures forall row :: row in c <==> row in rows && MatchId(laneId, row.roadId)
  {
    if rows == [] then []
    else
      var init := Candidates(rows[..|rows| - 1], laneId);
      var last := rows[|rows| - 1];
      assert rows == rows[..|rows| - 1] + [last];
      if MatchId(laneId, last.roadId) then init + [last] else init
  }

  /** The record attached to a lane: exact first, then a single long fuzzy candidate. */
  function MergeRecord(laneId: string, rows: seq<DbRow>): Option<DbRow> {
    match LastWithId(rows, laneId)
    case Some(rec) => Some(rec)
    case None =>
      var c := Candidates(rows, laneId);
      if |c| == 1 && |c[0].roadId| > 6 then Some(c[0]) else None
  }

  /** The messages filed under a road id, in order, as damage points of value 1. */
  function MessagesFor(msgs: seq<MsgRow>, roadId: string): (ps: seq<LanePoint>)
    ensures forall p :: p in ps ==> p.value == Some(1.0)
  {
    if msgs == [] then []
    else
      var last := msgs[|msgs| - 1];
      MessagesFor(msgs[..|msgs| - 1], roadId)
        + (if last.roadId == roadId then [LanePoint(Some(last.id), last.lat, last.lng, Some(1.0))] else [])
  }

  function CountForRoad(msgs: seq<MsgRow>, roadId: string): nat {
    if msgs == [] then 0
    else CountForRoad(msgs[..|msgs| - 1], roadId) + (if msgs[|msgs| - 1].roadId == roadId then 1 else 0)
  }

  /** One merged lane: the record's condition when it has one, and the lane's messages. */
  function MergedLane(lane: Lane, rows: seq<DbRow>, msgs: seq<MsgRow>): Lane {
    var rec := MergeRecord(lane.id, rows);
    var condition :=
      if rec.Some? && rec.value.condition.Some? && rec.value.condition.value != "" then rec.value.condition
      else lane.condition;
    Lane(lane.id, condition, Some(MessagesFor(msgs, lane.id)))
  }

  /** `dbRows.forEach(r => { dbMap[String(r.road_id)] = r; })` */
  method IndexRows(rows: seq<DbRow>) returns (index: map<string, DbRow>)
    ensures forall id :: id in index <==> LastWithId(rows, id).Some?
    ensures forall id :: id in index ==> index[id] == LastWithId(rows, id).value
  {
    index := map[];
    var i := 0;
    while i < |rows|
      invariant 0 <= i <= |rows|
      invariant forall id :: id in index <==> LastWithId(rows[..i], id).Some?
      invariant forall id :: id in index ==> index[id] == LastWithId(rows[..i], id).value
    {
      assert rows[..i + 1][..i] == rows[..i];
      index := index[rows[i].roadId := rows[i]];
      i := i + 1;
    }
    assert rows[..i] == rows;
  }

  /** The `msgRows.forEach` that groups messages into `msgMap` by road id. */
  method GroupMessages(msgs: seq<MsgRow>) returns (groups: map<string, seq<LanePoint>>)
    ensures forall id :: id in groups ==> groups[id] == MessagesFor(msgs, id)
    ensures forall id :: id !in groups ==> MessagesFor(msgs, id) == []
  {
    groups := map[];
    var i := 0;
    while i < |msgs|
      invariant 0 <= i <= |msgs|
      invariant forall id :: id in groups ==> groups[id] == MessagesFor(msgs[..i], id)
      invariant forall id :: id !in groups ==> MessagesFor(msgs[..i], id) == []
    {
      assert msgs[..i + 1][..i] == msgs[..i];
      var m := msgs[i];
      var existing := if m.roadId in groups then groups[m.roadId] else [];
      groups := groups[m.roadId := existing + [LanePoint(Some(m.id), m.lat, m.lng, Some(1.0))]];
      i := i + 1;
    }
    assert msgs[..i] == msgs;
  }

  /** `realData.map(r => ...)`: every lane merged with its record and its messages. */
  method MergeLanes(lanes: seq<Lane>, rows: seq<DbRow>, msgs: seq<MsgRow>) returns (merged: seq<Lane>)
    ensures |merged| == |lanes|
    ensures forall i :: 0 <= i < |lanes| ==> merged[i] == MergedLane(lanes[i], rows, msgs)
  {
    var index := IndexRows(rows);
    var groups := GroupMessages(msgs);
    merged := [];
    var i := 0;
    while i < |lanes|
      invariant 0 <= i <= |lanes|
      invariant |merged| == i
      invariant forall k :: 0 <= k < i ==> merged[k] == MergedLane(lanes[k], rows, msgs)
    {
      var r := lanes[i];
      var rec: Option<DbRow>;
      if r.id in index {
        rec := Some(index[r.id]);
      } else {
        var candidates := Candidates(rows, r.id);
        if |candidates| == 1 && |candidates[0].roadId| > 6 {
          rec := Some(candidates[0]);
        } else {
          rec := None;
        }
      }
      var damagePoints := if r.id in groups then groups[r.id] else [];
      var condition :=
        if rec.Some? && rec.value.condition.Some? && rec.value.condition.value != "" then rec.value.condition
        else r.condition;
      merged := merged + [Lane(r.id, condition, Some(damagePoints))];
      i := i + 1;
    }
  }

  // ------------------------------------------------------------ the handlers

  /** `String(dp.id)`: a missing id reads as "undefined". */
  function IdText(p: LanePoint): string {
    if p.id.Some? then p.id.value else "undefined"
  }

  /** `damagePoints.filter(dp => String(dp.id) !== String(id))` */
  function WithoutId(dps: seq<LanePoint>, id: string): (r: seq<LanePoint>)
    ensures |r| <= |dps|
    ensures forall p :: p in r <==> p in dps && IdText(p) != id
  {
    if dps == [] then []
    else
      var last := dps[|dps| - 1];
      assert dps == dps[..|dps| - 1] + [last];
      WithoutId(dps[..|dps| - 1], id) + (if IdText(last) != id then [last] else [])
  }

  /** A lane the delete handler looks at: all of them when no road id (or an empty one) is given. */
  predicate Targeted(l: Lane, roadId: Option<string>) {
    roadId.None? || roadId.value == "" || l.id == roadId.value
  }

  /** The delete handler's `setLanes(prev => prev.map(...))`. */
  function DeleteDamagePoint(lanes: seq<Lane>, roadId: Option<string>, id: string): (r: seq<Lane>)
    ensures |r| == |lanes|
    ensures forall i :: 0 <= i < |lanes| ==>
      && r[i].id == lanes[i].id && r[i].condition == lanes[i].condition
      && (!Targeted(lanes[i], roadId) || lanes[i].damagePoints.None? ==> r[i] == lanes[i])
      && (Targeted(lanes[i], roadId) && lanes[i].damagePoints.Some? ==>
            r[i].damagePoints == Some(WithoutId(lanes[i].damagePoints.value, id)))
  {
    seq(|lanes|, i requires 0 <= i < |lanes| =>
      var l := lanes[i];
      if !Targeted(l, roadId) || l.damagePoints.None? then l
      else l.(damagePoints := Some(WithoutId(l.damagePoints.value, id))))
  }

  /** A damage report as the `damage-reported` event carries it. */
  datatype DamageReport = DamageReport(id: Option<string>, roadId: Option<string>, lat: real, lng: real, severity: Option<real>)

  /** The point a report adds to lane `laneId`; `now` stands for `Date.now()`. */
  function ReportedPoint(laneId: string, d: DamageReport, now: nat): LanePoint {
    var dpId := if d.id.Some? && d.id.value != "" then d.id.value else laneId + "-report-" + NatToString(now);
    var value := if d.severity.Some? && d.severity.value != 0.0 then d.severity.value else 1.0;
    LanePoint(Some(dpId), d.lat, d.lng, Some(value))
  }

  /** The report handler's `setLanes(prev => prev.map(...))`. */
  function AppendDamagePoint(lanes: seq<Lane>, d: DamageReport, now: nat): (r: seq<Lane>)
    ensures |r| == |lanes|
    ensures forall i :: 0 <= i < |lanes| ==>
      if d.roadId == Some(lanes[i].id) then
        && r[i].id == lanes[i].id && r[i].condition == lanes[i].condition
        && r[i].damagePoints == Some(lanes[i].damagePoints.GetOr([]) + [ReportedPoint(lanes[i].id, d, now)])
      else
        r[i] == lanes[i]
  {
    seq(|lanes|, i requires 0 <= i < |lanes| =>
      var l := lanes[i];
      if d.roadId == Some(l.id) then l.(damagePoints := Some(l.damagePoints.GetOr([]) + [ReportedPoint(l.id, d, now)]))
      else l)
  }

  function PointCount(lanes: seq<Lane>): nat {
    if lanes == [] then 0 else PointCount(lanes[..|lanes| - 1]) + |lanes[|lanes| - 1].damagePoints.GetOr([])|
  }

  function LanesWithId(lanes: seq<Lane>, id: string): nat {
    if lanes == [] then 0 else LanesWithId(lanes[..|lanes| - 1], id) + (if lanes[|lanes| - 1].id == id then 1 else 0)
  }

  // ------------------------------------------------------------------ lemmas

  /** matchId holds exactly for two non-empty ids of which one is the other with a prefix added. */
  lemma MatchIdIff(a: string, b: string)
    ensures MatchId(a, b) <==> a != "" && b != "" && ((exists p :: a == p + b) || (exists p :: b == p + a))
  {
    if a != "" && b != "" {
      SuffixIff(a, b);
      SuffixIff(b, a);
      if a == b {
        assert a == "" + b;
      }
    }
  }

  lemma SuffixIff(s: string, suffix: string)
    ensures EndsWith(s, suffix) <==> exists p :: s == p + suffix
  {
    if EndsWith(s, suffix) {
      assert s == s[..|s| - |suffix|] + suffix;
    }
    if exists p :: s == p + suffix {
      var p :| s == p + suffix;
      assert s[|s| - |suffix|..] == suffix;
    }
  }

  /** matchId does not depend on the order of its arguments. */
  lemma MatchIdSymmetric(a: string, b: string)
    ensures MatchId(a, b) == MatchId(b, a)
  {
  }

  /** A record with exactly the lane's id is preferred to every fuzzy one, the last such row winning. */
  lemma ExactRecordWins(laneId: string, rows: seq<DbRow>, i: nat)
    requires i < |rows| && rows[i].roadId == laneId
    ensures MergeRecord(laneId, rows).Some?
    ensures MergeRecord(laneId, rows).value.roadId == laneId
  {
  }

  /**
   * A record whose id differs from the lane's is attached only when no row has
   * the lane's id, it is the only fuzzy candidate, it matches, and its id is
   * longer than 6 characters.
   */
  lemma FuzzyRecordIsSingle(laneId: string, rows: seq<DbRow>)
    requires MergeRecord(laneId, rows).Some? && MergeRecord(laneId, rows).value.roadId != laneId
    ensures forall i :: 0 <= i < |rows| ==> rows[i].roadId != laneId
    ensures Candidates(rows, laneId) == [MergeRecord(laneId, rows).value]
    ensures MatchId(laneId, MergeRecord(laneId, rows).value.roadId)
    ensures |MergeRecord(laneId, rows).value.roadId| > 6
  {
    var c := Candidates(rows, laneId);
    assert c[0] in c;
  }

  /** With two or more fuzzy candidates and no exact row, no record is attached. */
  lemma AmbiguousGetsNothing(laneId: string, rows: seq<DbRow>)
    requires forall i :: 0 <= i < |rows| ==> rows[i].roadId != laneId
    requires |Candidates(rows, laneId)| != 1
    ensures MergeRecord(laneId, rows).None?
  {
  }

  /** The merged lane's damage points are its messages, one per message filed under its id. */
  lemma {:induction false} MessagesCount(msgs: seq<MsgRow>, roadId: string)
    ensures |MessagesFor(msgs, roadId)| == CountForRoad(msgs, roadId)
  {
    if msgs != [] {
      MessagesCount(msgs[..|msgs| - 1], roadId);
    }
  }

  /**
   * Deleting removes exactly the points with that id, keeping the others in
   * order: the kept points are the points at the increasing positions
   * `KeptPositions`, which are exactly the positions whose id differs.
   */
  lemma {:induction false} WithoutIdIsSubsequence(dps: seq<LanePoint>, id: string)
    ensures |WithoutId(dps, id)| + CountWithId(dps, id) == |dps|
    ensures |KeptPositions(dps, id)| == |WithoutId(dps, id)|
    ensures forall k :: 0 <= k < |KeptPositions(dps, id)| ==>
      KeptPositions(dps, id)[k] < |dps| && WithoutId(dps, id)[k] == dps[KeptPositions(dps, id)[k]]
    ensures forall k, l :: 0 <= k < l < |KeptPositions(dps, id)| ==> KeptPositions(dps, id)[k] < KeptPositions(dps, id)[l]
  {
    if dps != [] {
      var init := dps[..|dps| - 1];
      var last := dps[|dps| - 1];
      WithoutIdIsSubsequence(init, id);
      var w0, k0 := WithoutId(init, id), KeptPositions(init, id);
      var tail := if IdText(last) != id then [last] else [];
      var tailK := if IdText(last) != id then [|dps| - 1] else [];
      var w, ks := WithoutId(dps, id), KeptPositions(dps, id);
      assert w == w0 + tail;
      assert ks == k0 + tailK;
      forall k | 0 <= k < |ks|
        ensures ks[k] < |dps| && w[k] == dps[ks[k]]
      {
        if k < |k0| {
          assert ks[k] == k0[k] && w[k] == w0[k] && dps[k0[k]] == init[k0[k]];
        }
      }
    }
  }

  /** The kept positions are exactly the positions whose id differs. */
  lemma {:induction false} KeptPositionsExactly(dps: seq<LanePoint>, id: string)
    ensures forall i :: 0 <= i < |dps| ==> (i in KeptPositions(dps, id) <==> IdText(dps[i]) != id)
  {
    if dps != [] {
      var init := dps[..|dps| - 1];
      KeptPositionsExactly(init, id);
      KeptPositionsBelow(init, id);
      forall i | 0 <= i < |dps|
        ensures i in KeptPositions(dps, id) <==> IdText(dps[i]) != id
      {
        if i < |init| {
          assert dps[i] == init[i];
        }
      }
    }
  }

  lemma {:induction false} KeptPositionsBelow(dps: seq<LanePoint>, id: string)
    ensures forall i :: i in KeptPositions(dps, id) ==> i < |dps|
  {
    if dps != [] {
      KeptPositionsBelow(dps[..|dps| - 1], id);
    }
  }

  /** The positions of the points a delete keeps, in increasing order. */
  function KeptPositions(dps: seq<LanePoint>, id: string): seq<nat> {
    if dps == [] then []
    else KeptPositions(dps[..|dps| - 1], id) + (if IdText(dps[|dps| - 1]) != id then [|dps| - 1] else [])
  }

  function CountWithId(dps: seq<LanePoint>, id: string): nat {
    if dps == [] then 0 else CountWithId(dps[..|dps| - 1], id) + (if IdText(dps[|dps| - 1]) == id then 1 else 0)
  }

  /** Deleting twice is deleting once. */
  lemma WithoutIdIdempotent(dps: seq<LanePoint>, id: string)
    ensures WithoutId(WithoutId(dps, id), id) == WithoutId(dps, id)
  {
    var r := WithoutId(dps, id);
    assert forall i :: 0 <= i < |r| ==> r[i] in r;
    WithoutIdKeepsClean(r, id);
  }

  /** A list without the id is left as it is. */
  lemma {:induction false} WithoutIdKeepsClean(dps: seq<LanePoint>, id: string)
    requires forall i :: 0 <= i < |dps| ==> IdText(dps[i]) != id
    ensures WithoutId(dps, id) == dps
  {
    if dps != [] {
      var init := dps[..|dps| - 1];
      var last := dps[|dps| - 1];
      assert IdText(last) != id;
      calc {
        WithoutId(dps, id);
        WithoutId(init, id) + [last];
        { WithoutIdKeepsClean(init, id); }
        init + [last];
        dps;
      }
    }
  }

  /** A report adds one point for every lane with its road id, and no other point. */
  lemma {:induction false} AppendCount(lanes: seq<Lane>, d: DamageReport, now: nat)
    requires d.roadId.Some?
    ensures PointCount(AppendDamagePoint(lanes, d, now)) == PointCount(lanes) + LanesWithId(lanes, d.roadId.value)
  {
    if lanes != [] {
      var init := lanes[..|lanes| - 1];
      AppendCount(init, d, now);
      assert AppendDamagePoint(lanes, d, now)[..|lanes| - 1] == AppendDamagePoint(init, d, now);
    }
  }

  /** A reported point's value is `severity || 1`: never 0. */
  lemma ReportedValueNonZero(laneId: string, d: DamageReport, now: nat)
    ensures ReportedPoint(laneId, d, now).value.Some? && ReportedPoint(laneId, d, now).value.value != 0.0
  {
  }
}
