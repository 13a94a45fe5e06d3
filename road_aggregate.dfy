/**
 * RoadAggregate: per-road totals of Gi* results (aggregateHotspotsByRoad,
 * services/spatialAnalysis.ts lines 256-296).
 *
 * Results without an id are skipped. A result's road is its `roadId` when that
 * is non-empty, and is otherwise recovered from the point id: the id is cut at
 * the first `-d-`-like separator (`/[-_]d[-_]/`) and one trailing `[-_]digits`
 * is stripped with the lazy pattern `/^(.+?)(?:[-_]\d+)?$/`. The per-road
 * counters are kept in a dictionary, turned into one record per road, and
 * sorted by hotspot count, then hotspot ratio, both descending.
 */
module RoadAggregate {
  import opened Wrappers
  import opened Js
  import opened HotspotAnalysis

  // --------------------------------------------------------- the road-id parse

  predicate IsSeparator(c: char) { c == '-' || c == '_' }

  /** The characters JavaScript's `.` does not match. */
  predicate IsLineTerminator(c: char) {
    c == '\n' || c == '\r' || c == '\U{2028}' || c == '\U{2029}'
  }

  /** `/[-_]d[-_]/` matches at position i. */
  predicate DamageSeparatorAt(s: string, i: nat)
    requires i + 3 <= |s|
  {
    IsSeparator(s[i]) && s[i + 1] == 'd' && IsSeparator(s[i + 2])
  }

  /** The leftmost match of `/[-_]d[-_]/` at or after `from`. */
  function FirstDamageSeparator(s: string, from: nat): (r: Option<nat>)
    requires from <= |s|
    ensures r.Some? ==> from <= r.value && r.value + 3 <= |s| && DamageSeparatorAt(s, r.value)
    ensures r.Some? ==> forall i :: from <= i < r.value ==> !DamageSeparatorAt(s, i)
    ensures r.None? ==> forall i :: from <= i && i + 3 <= |s| ==> !DamageSeparatorAt(s, i)
    decreases |s| - from
  {
    if from + 3 > |s| then None
    else if DamageSeparatorAt(s, from) then Some(from)
    else FirstDamageSeparator(s, from + 1)
  }

  /** `s.split(/[-_]d[-_]/)[0]`: everything before the first separator. */
  function SplitHead(s: string): (h: string)
    ensures |h| <= |s| && h == s[..|h|]
  {
    match FirstDamageSeparator(s, 0)
    case None => s
    case Some(i) => s[..i]
  }

  /** `[-_]\d+` spanning the whole of `t`. */
  predicate TrailingNumber(t: string) {
    |t| >= 2 && IsSeparator(t[0]) && AllDigits(t[1..])
  }

  /**
   * The lazy search of `/^(.+?)(?:[-_]\d+)?$/`: the capture is the shortest
   * non-empty prefix s[..k] (k >= from) that `.` can match and after which the
   * rest is empty or one `[-_]digits`. `None` means the pattern does not match.
   */
  function LazyCapture(s: string, k: nat): (r: Option<string>)
    requires k >= 1
    ensures r.Some? ==> k <= |r.value| <= |s| && r.value == s[..|r.value|]
    decreases |s| + 1 - k
  {
    if k > |s| then None
    else if IsLineTerminator(s[k - 1]) then None
    else if k == |s| || TrailingNumber(s[k..]) then Some(s[..k])
    else LazyCapture(s, k + 1)
  }

  /** Lines 267-272 as written: split, fall back to the whole id, then strip. */
  function AsWrittenRoadId(idStr: string): string {
    var head := SplitHead(idStr);
    var roadId := if head == "" then idStr else head;
    match LazyCapture(roadId, 1)
    case None => roadId
    case Some(c) => c
  }

  /**
   * The road id the parse evidently means to recover: the part before a
   * damage separator when there is one, and otherwise the id with one trailing
   * `[-_]digits` stripped.
   */
  function RoadIdFromPointId(idStr: string): string {
    match FirstDamageSeparator(idStr, 0)
    case Some(i) => if i > 0 then idStr[..i] else AsWrittenRoadId(idStr)
    case None => AsWrittenRoadId(idStr)
  }

  // ------------------------------------------------------- the dictionary fold

  /** The counters the source keeps per road. */
  datatype Tally = Tally(total: nat, hotspotCount: nat, coldspotCount: nat, zSum: real)

  const EMPTY_TALLY: Tally := Tally(0, 0, 0, 0.0)

  /** One result counted into its road's counters. */
  function CountInto(t: Tally, r: HotspotResult): Tally {
    Tally(t.total + 1,
          if r.hotspotType == Hotspot then t.hotspotCount + 1 else t.hotspotCount,
          if r.hotspotType == Coldspot then t.coldspotCount + 1 else t.coldspotCount,
          if r.hotspotType == Hotspot then t.zSum + r.zScore else t.zSum)
  }

  predicate HasId(r: HotspotResult) { r.id.Some? && r.id.value != "" }

  /**
   * The road a result is counted under, or `None` when it is skipped. Without
   * a `roadId` the id goes through the parse as written, `AsWrittenRoadId`.
   */
  function RoadKey(r: HotspotResult): Option<string> {
    if !HasId(r) then None
    else if r.roadId.Some? && r.roadId.value != "" then Some(r.roadId.value)
    else Some(AsWrittenRoadId(r.id.value))
  }

  /** The dictionary after one more result. */
  function TallyStep(t: map<string, Tally>, r: HotspotResult): map<string, Tally> {
    match RoadKey(r)
    case None => t
    case Some(k) => t[k := CountInto(if k in t then t[k] else EMPTY_TALLY, r)]
  }

  /** The key order after one more result: a road met for the first time goes last. */
  function KeyStep(keys: seq<string>, t: map<string, Tally>, r: HotspotResult): seq<string> {
    match RoadKey(r)
    case None => keys
    case Some(k) => if k in t then keys else keys + [k]
  }

  /** The dictionary after the loop has visited `rs`. */
  function Tallies(rs: seq<HotspotResult>): map<string, Tally> {
    if rs == [] then map[] else TallyStep(Tallies(rs[..|rs| - 1]), rs[|rs| - 1])
  }

  /** The roads in the order they were first met. */
  function KeyOrder(rs: seq<HotspotResult>): seq<string> {
    if rs == [] then []
    else KeyStep(KeyOrder(rs[..|rs| - 1]), Tallies(rs[..|rs| - 1]), rs[|rs| - 1])
  }

  /** The number of results that are counted at all. */
  function CountWithId(rs: seq<HotspotResult>): nat {
    if rs == [] then 0 else CountWithId(rs[..|rs| - 1]) + (if HasId(rs[|rs| - 1]) then 1 else 0)
  }

  // ------------------------------------------------------------ the records

  datatype RoadAggregate = RoadAggregate(
    roadId: string,
    totalPoints: nat,
    hotspotCount: nat,
    coldspotCount: nat,
    avgHotZ: real,
    hotRatio: real)

  function Summarise(roadId: string, t: Tally): RoadAggregate {
    RoadAggregate(roadId, t.total, t.hotspotCount, t.coldspotCount,
                  if t.hotspotCount > 0 then t.zSum / t.hotspotCount as real else 0.0,
                  t.hotspotCount as real / Max(1.0, t.total as real))
  }

  /** `Object.values(map).map(...)` before sorting, one record per road. */
  function Unsorted(rs: seq<HotspotResult>): (agg: seq<RoadAggregate>)
    ensures |agg| == |KeyOrder(rs)|
    ensures forall i :: 0 <= i < |agg| ==>
      KeyOrder(rs)[i] in Tallies(rs) && agg[i] == Summarise(KeyOrder(rs)[i], Tallies(rs)[KeyOrder(rs)[i]])
    ensures forall i, j :: 0 <= i < j < |agg| ==> agg[i].roadId != agg[j].roadId
  {
    var keys := KeyOrder(rs);
    var t := Tallies(rs);
    KeyOrderMatchesTallies(rs);
    seq(|keys|, i requires 0 <= i < |keys| => Summarise(keys[i], t[keys[i]]))
  }

  /** The sort's order: more hotspots first, then the higher hotspot ratio. */
  predicate Precedes(a: RoadAggregate, b: RoadAggregate) {
    a.hotspotCount > b.hotspotCount || (a.hotspotCount == b.hotspotCount && a.hotRatio >= b.hotRatio)
  }

  predicate Sorted(s: seq<RoadAggregate>) {
    forall p, q :: 0 <= p < q < |s| ==> Precedes(s[p], s[q])
  }

  function SumPoints(s: seq<RoadAggregate>): nat {
    if s == [] then 0 else SumPoints(s[..|s| - 1]) + s[|s| - 1].totalPoints
  }

  // ------------------------------------------------------------ the methods

  /** The `for (const r of giResults)` loop. */
  method TallyResults(giResults: seq<HotspotResult>) returns (tallies: map<string, Tally>, keys: seq<string>)
    ensures tallies == Tallies(giResults)
    ensures keys == KeyOrder(giResults)
  {
    tallies := map[];
    keys := [];
    var i := 0;
    while i < |giResults|
      invariant 0 <= i <= |giResults|
      invariant tallies == Tallies(giResults[..i])
      invariant keys == KeyOrder(giResults[..i])
    {
      assert giResults[..i + 1][..i] == giResults[..i];
      tallies, keys := CountResult(tallies, keys, giResults[i]);
      i := i + 1;
    }
    assert giResults[..i] == giResults;
  }

  /** One iteration of the loop: the result's road is created if new, then counted. */
  method CountResult(tallies: map<string, Tally>, keys: seq<string>, r: HotspotResult)
    returns (tallies': map<string, Tally>, keys': seq<string>)
    ensures tallies' == TallyStep(tallies, r)
    ensures keys' == KeyStep(keys, tallies, r)
  {
    tallies', keys' := tallies, keys;
    if !HasId(r) {
      return;
    }
    var idStr := r.id.value;
    var roadId := if r.roadId.Some? && r.roadId.value != "" then r.roadId.value else AsWrittenRoadId(idStr);
    if roadId !in tallies' {
      tallies' := tallies'[roadId := EMPTY_TALLY];
      keys' := keys' + [roadId];
    }
    var t := tallies'[roadId];
    tallies' := tallies'[roadId := Tally(
      t.total + 1,
      if r.hotspotType == Hotspot then t.hotspotCount + 1 else t.hotspotCount,
      if r.hotspotType == Coldspot then t.coldspotCount + 1 else t.coldspotCount,
      if r.hotspotType == Hotspot then t.zSum + r.zScore else t.zSum)];
  }

  /** `arr.sort(...)`: an insertion sort, in place. */
  method SortByHotspots(a: array<RoadAggregate>)
    modifies a
    ensures Sorted(a[..])
    ensures multiset(a[..]) == multiset(old(a[..]))
  {
    var i := 0;
    while i < a.Length
      invariant 0 <= i <= a.Length
      invariant SortedBelow(a[..], i)
      invariant multiset(a[..]) == multiset(old(a[..]))
    {
      StartSinking(a[..], i);
      var j := i;
      while j > 0 && !Precedes(a[j - 1], a[j])
        invariant 0 <= j <= i
        invariant Sinking(a[..], i, j)
        invariant multiset(a[..]) == multiset(old(a[..]))
      {
        ghost var s := a[..];
        a[j - 1], a[j] := a[j], a[j - 1];
        assert a[..] == s[j - 1 := s[j]][j := s[j - 1]];
        SinkStep(s, i, j);
        j := j - 1;
      }
      SinkDone(a[..], i, j);
      i := i + 1;
    }
  }

  /** The first n records are in order. */
  predicate SortedBelow(s: seq<RoadAggregate>, n: int)
    requires n <= |s|
  {
    forall p, q :: 0 <= p < q < n ==> Precedes(s[p], s[q])
  }

  /**
   * The state of the inner loop: record j is being moved down through 0 .. i;
   * the others are in order, and record j precedes every record after it.
   */
  predicate Sinking(s: seq<RoadAggregate>, i: int, j: int)
    requires 0 <= j <= i < |s|
  {
    && (forall p, q :: 0 <= p < q <= i && p != j && q != j ==> Precedes(s[p], s[q]))
    && (forall q :: j < q <= i ==> Precedes(s[j], s[q]))
  }

  lemma StartSinking(s: seq<RoadAggregate>, i: int)
    requires 0 <= i < |s| && SortedBelow(s, i)
    ensures Sinking(s, i, i)
  {
  }

  /** Swapping record j with an out-of-order predecessor keeps the inner-loop state. */
  lemma SinkStep(s: seq<RoadAggregate>, i: int, j: int)
    requires 0 < j <= i < |s| && Sinking(s, i, j) && !Precedes(s[j - 1], s[j])
    ensures Sinking(s[j - 1 := s[j]][j := s[j - 1]], i, j - 1)
  {
    var t := s[j - 1 := s[j]][j := s[j - 1]];
    forall p, q | 0 <= p < q <= i && p != j - 1 && q != j - 1
      ensures Precedes(t[p], t[q])
    {
      if q == j {
        assert Precedes(s[p], s[j - 1]);
      } else if p == j {
        assert Precedes(s[j - 1], s[q]);
      } else {
        assert Precedes(s[p], s[q]);
      }
    }
    forall q | j - 1 < q <= i
      ensures Precedes(t[j - 1], t[q])
    {
      if q > j {
        assert Precedes(s[j], s[q]);
      }
    }
  }

  /** Once record j follows its predecessor, records 0 .. i are in order. */
  lemma SinkDone(s: seq<RoadAggregate>, i: int, j: int)
    requires 0 <= j <= i < |s| && Sinking(s, i, j)
    requires j == 0 || Precedes(s[j - 1], s[j])
    ensures SortedBelow(s, i + 1)
  {
    forall p, q | 0 <= p < q <= i
      ensures Precedes(s[p], s[q])
    {
      if q == j && p < j - 1 {
        assert Precedes(s[p], s[j - 1]);
        PrecedesTransitive(s[p], s[j - 1], s[j]);
      }
    }
  }

  lemma PrecedesTransitive(x: RoadAggregate, y: RoadAggregate, z: RoadAggregate)
    requires Precedes(x, y) && Precedes(y, z)
    ensures Precedes(x, z)
  {
  }

  /**
   * aggregateHotspotsByRoad: one record per road (a permutation of the
   * unsorted records), sorted by hotspot count, then hotspot ratio.
   */
  method AggregateHotspotsByRoad(giResults: seq<HotspotResult>) returns (result: seq<RoadAggregate>)
    ensures multiset(result) == multiset(Unsorted(giResults))
    ensures Sorted(result)
    ensures SumPoints(result) == CountWithId(giResults)
    ensures forall x :: x in result ==>
      && x.totalPoints >= 1
      && x.hotspotCount + x.coldspotCount <= x.totalPoints
      && 0.0 <= x.hotRatio <= 1.0
  {
    var tallies, keys := TallyResults(giResults);
    KeyOrderMatchesTallies(giResults);
    var unsorted := seq(|keys|, i requires 0 <= i < |keys| => Summarise(keys[i], tallies[keys[i]]));
    assert unsorted == Unsorted(giResults);
    var a := new RoadAggregate[|unsorted|](k requires 0 <= k < |unsorted| => unsorted[k]);
    assert a[..] == unsorted;
    SortByHotspots(a);
    result := a[..];
    SumPointsPermutation(result, unsorted);
    UnsortedTotals(giResults);
    forall x | x in result
      ensures x.totalPoints >= 1 && x.hotspotCount + x.coldspotCount <= x.totalPoints && 0.0 <= x.hotRatio <= 1.0
    {
      assert x in multiset(unsorted);
      UnsortedRecordsConsistent(giResults, x);
    }
  }

  // ------------------------------------------------------------------ lemmas

  predicate Distinct(keys: seq<string>) {
    forall p, q :: 0 <= p < q < |keys| ==> keys[p] != keys[q]
  }

  predicate ConsistentTally(t: Tally) {
    t.total >= 1 && t.hotspotCount + t.coldspotCount <= t.total
  }

  /** The key order lists every road of the dictionary once, and every road is consistent. */
  lemma {:induction false} KeyOrderMatchesTallies(rs: seq<HotspotResult>)
    ensures Distinct(KeyOrder(rs))
    ensures forall k :: k in KeyOrder(rs) <==> k in Tallies(rs)
    ensures forall k :: k in Tallies(rs) ==> ConsistentTally(Tallies(rs)[k])
  {
    if rs != [] {
      KeyOrderMatchesTallies(rs[..|rs| - 1]);
    }
  }

  lemma {:induction false} SumTotalsUnchanged(keys: seq<string>, t: map<string, Tally>, k: string, v: Tally)
    requires forall x :: x in keys ==> x in t
    requires k !in keys
    ensures SumTotals(keys, t[k := v]) == SumTotals(keys, t)
  {
    if keys != [] {
      SumTotalsUnchanged(keys[..|keys| - 1], t, k, v);
    }
  }

  lemma {:induction false} SumTotalsBump(keys: seq<string>, t: map<string, Tally>, k: string, v: Tally)
    requires forall x :: x in keys ==> x in t
    requires Distinct(keys) && k in keys
    requires v.total == t[k].total + 1
    ensures SumTotals(keys, t[k := v]) == SumTotals(keys, t) + 1
  {
    var init := keys[..|keys| - 1];
    if keys[|keys| - 1] == k {
      assert k !in init;
      SumTotalsUnchanged(init, t, k, v);
    } else {
      assert k in init;
      SumTotalsBump(init, t, k, v);
    }
  }

  /** The totals of the roads, added up in key order. */
  function SumTotals(keys: seq<string>, t: map<string, Tally>): nat
    requires forall x :: x in keys ==> x in t
  {
    if keys == [] then 0 else SumTotals(keys[..|keys| - 1], t) + t[keys[|keys| - 1]].total
  }

  /** Every counted result adds one to exactly one road's total. */
  lemma {:induction false} TotalsCountResults(rs: seq<HotspotResult>)
    ensures forall x :: x in KeyOrder(rs) ==> x in Tallies(rs)
    ensures SumTotals(KeyOrder(rs), Tallies(rs)) == CountWithId(rs)
  {
    KeyOrderMatchesTallies(rs);
    if rs != [] {
      var init := rs[..|rs| - 1];
      var r := rs[|rs| - 1];
      TotalsCountResults(init);
      KeyOrderMatchesTallies(init);
      var keys := KeyOrder(init);
      var t := Tallies(init);
      match RoadKey(r)
      case None =>
      case Some(k) =>
        var v := CountInto(if k in t then t[k] else EMPTY_TALLY, r);
        if k in t {
          SumTotalsBump(keys, t, k, v);
        } else {
          SumTotalsUnchanged(keys, t, k, v);
          assert (keys + [k])[..|keys|] == keys;
        }
    }
  }

  lemma {:induction false} SumPointsOfSummaries(keys: seq<string>, t: map<string, Tally>, agg: seq<RoadAggregate>)
    requires forall x :: x in keys ==> x in t
    requires |agg| == |keys|
    requires forall i :: 0 <= i < |keys| ==> agg[i] == Summarise(keys[i], t[keys[i]])
    ensures SumPoints(agg) == SumTotals(keys, t)
  {
    if keys != [] {
      SumPointsOfSummaries(keys[..|keys| - 1], t, agg[..|agg| - 1]);
    }
  }

  /** The unsorted records account for every result that has an id. */
  lemma UnsortedTotals(rs: seq<HotspotResult>)
    ensures SumPoints(Unsorted(rs)) == CountWithId(rs)
  {
    TotalsCountResults(rs);
    SumPointsOfSummaries(KeyOrder(rs), Tallies(rs), Unsorted(rs));
  }

  /** Every record has at least one point, no more hotspots and coldspots than points, and a ratio in [0, 1]. */
  lemma UnsortedRecordsConsistent(rs: seq<HotspotResult>, x: RoadAggregate)
    requires x in Unsorted(rs)
    ensures x.totalPoints >= 1
    ensures x.hotspotCount + x.coldspotCount <= x.totalPoints
    ensures 0.0 <= x.hotRatio <= 1.0
  {
    KeyOrderMatchesTallies(rs);
    var agg := Unsorted(rs);
    var i :| 0 <= i < |agg| && agg[i] == x;
    var k := KeyOrder(rs)[i];
    assert k in Tallies(rs);
    SummaryConsistent(k, Tallies(rs)[k]);
  }

  /** The record of a consistent tally has a point, bounded counts and a ratio in [0, 1]. */
  lemma SummaryConsistent(roadId: string, t: Tally)
    requires ConsistentTally(t)
    ensures Summarise(roadId, t).totalPoints >= 1
    ensures Summarise(roadId, t).hotspotCount + Summarise(roadId, t).coldspotCount <= Summarise(roadId, t).totalPoints
    ensures 0.0 <= Summarise(roadId, t).hotRatio <= 1.0
  {
    var n := t.total as real;
    assert Summarise(roadId, t).hotRatio == t.hotspotCount as real / n;
    assert t.hotspotCount as real / n <= n / n;
  }

  lemma {:induction false} SumPointsAppend(a: seq<RoadAggregate>, b: seq<RoadAggregate>)
    ensures SumPoints(a + b) == SumPoints(a) + SumPoints(b)
    decreases |b|
  {
    if b == [] {
      assert a + b == a;
    } else {
      var init := b[..|b| - 1];
      assert (a + b)[..|a + b| - 1] == a + init;
      SumPointsAppend(a, init);
    }
  }

  /** Reordering the records does not change the total. */
  lemma {:induction false} SumPointsPermutation(a: seq<RoadAggregate>, b: seq<RoadAggregate>)
    requires multiset(a) == multiset(b)
    ensures SumPoints(a) == SumPoints(b)
    decreases |a|
  {
    if a == [] {
      assert |b| == |multiset(b)| == 0;
    } else {
      var x := a[|a| - 1];
      var init := a[..|a| - 1];
      assert a == init + [x];
      assert multiset(init) == multiset(a) - multiset{x};
      assert x in multiset(b);
      var i :| 0 <= i < |b| && b[i] == x;
      assert b == b[..i] + [x] + b[i + 1..];
      MultisetRemove(b, i);
      SumPointsSplice(b[..i], x, b[i + 1..]);
      SumPointsPermutation(init, b[..i] + b[i + 1..]);
    }
  }

  /** Removing the record at index i takes exactly that record out of the multiset. */
  lemma MultisetRemove(b: seq<RoadAggregate>, i: nat)
    requires i < |b|
    ensures multiset(b[..i] + b[i + 1..]) == multiset(b) - multiset{b[i]}
  {
    assert b == b[..i] + [b[i]] + b[i + 1..];
    assert multiset(b) == multiset(b[..i]) + multiset([b[i]]) + multiset(b[i + 1..]);
  }

  /** A record spliced between two runs adds exactly its points to their total. */
  lemma SumPointsSplice(pre: seq<RoadAggregate>, r: RoadAggregate, post: seq<RoadAggregate>)
    ensures SumPoints(pre + [r] + post) == SumPoints(pre + post) + r.totalPoints
  {
    SumPointsAppend(pre + [r], post);
    SumPointsAppend(pre, [r]);
    SumPointsAppend(pre, post);
    SumPointsSingle(r);
  }

  lemma SumPointsSingle(r: RoadAggregate)
    ensures SumPoints([r]) == r.totalPoints
  {
    assert [r][..0] == [];
  }

  // ------------------------------------------------------- the road-id parse

  predicate NoLineTerminator(s: string) {
    forall i :: 0 <= i < |s| ==> !IsLineTerminator(s[i])
  }

  /** Without a `d` there is no damage separator. */
  lemma NoSeparatorWithoutD(s: string)
    requires 'd' !in s
    ensures FirstDamageSeparator(s, 0) == None
  {
  }

  /** The first damage separator of `r + "-d-" + k` is the one written after `r`. */
  lemma SeparatorAfterPrefix(r: string, k: string)
    requires 'd' !in r
    ensures FirstDamageSeparator(r + "-d-" + k, 0) == Some(|r|)
  {
    var s := r + "-d-" + k;
    assert DamageSeparatorAt(s, |r|);
  }

  /** The lazy search stops at the first admissible cut. */
  lemma {:induction false} LazyCaptureFinds(s: string, k: nat, target: nat)
    requires 1 <= k <= target <= |s|
    requires forall j :: k - 1 <= j < target ==> !IsLineTerminator(s[j])
    requires forall j :: k <= j < target ==> !TrailingNumber(s[j..])
    requires target == |s| || TrailingNumber(s[target..])
    ensures LazyCapture(s, k) == Some(s[..target])
    decreases target - k
  {
    if k < target {
      LazyCaptureFinds(s, k + 1, target);
    }
  }

  /** The pattern strips exactly one `-digits` written after a prefix without terminators. */
  lemma LazyCaptureStripsNumber(r: string, n: nat)
    requires |r| > 0 && NoLineTerminator(r)
    ensures LazyCapture(r + "-" + NatToString(n), 1) == Some(r)
  {
    var digits := NatToString(n);
    var s := r + "-" + digits;
    assert s[|r|..] == "-" + digits;
    assert ("-" + digits)[1..] == digits;
    forall j | 1 <= j < |r|
      ensures !TrailingNumber(s[j..])
    {
      assert s[j..][1..][|r| - j - 1] == s[|r|] == '-';
    }
    LazyCaptureFinds(s, 1, |r|);
    assert s[..|r|] == r;
  }

  /** Corrected parse: an id `road + "-d-" + anything` gives back `road`. */
  lemma RoadIdOfDamageId(road: string, suffix: string)
    requires |road| > 0 && 'd' !in road
    ensures RoadIdFromPointId(road + "-d-" + suffix) == road
  {
    SeparatorAfterPrefix(road, suffix);
    assert (road + "-d-" + suffix)[..|road|] == road;
  }

  /** Corrected parse: an id `road + "-" + index` gives back `road`. */
  lemma RoadIdOfIndexedId(road: string, n: nat)
    requires |road| > 0 && 'd' !in road && NoLineTerminator(road)
    ensures RoadIdFromPointId(road + "-" + NatToString(n)) == road
  {
    var s := road + "-" + NatToString(n);
    assert 'd' !in s by {
      forall i | 0 <= i < |s|
        ensures s[i] != 'd'
      {
        if i < |road| {
          assert s[i] == road[i] && road[i] in road;
        } else if i > |road| {
          assert s[i] == NatToString(n)[i - |road| - 1];
        }
      }
    }
    NoSeparatorWithoutD(s);
    LazyCaptureStripsNumber(road, n);
  }

  /**
   * As written, the id `base-N-d-K` of a damage point on road `base-N` gives
   * `base`: the trailing-number strip runs after the split as well, so the
   * roads `base-1`, `base-2`, ... all collapse onto `base`.
   */
  lemma AsWrittenDropsRoadNumber(base: string, n: nat, suffix: string)
    requires |base| > 0 && 'd' !in base && NoLineTerminator(base)
    ensures AsWrittenRoadId(base + "-" + NatToString(n) + "-d-" + suffix) == base
    ensures RoadIdFromPointId(base + "-" + NatToString(n) + "-d-" + suffix) == base + "-" + NatToString(n)
  {
    var road := base + "-" + NatToString(n);
    assert 'd' !in road by {
      forall i | 0 <= i < |road|
        ensures road[i] != 'd'
      {
        if i < |base| {
          assert road[i] == base[i] && base[i] in base;
        } else if i > |base| {
          assert road[i] == NatToString(n)[i - |base| - 1];
        }
      }
    }
    var s := road + "-d-" + suffix;
    SeparatorAfterPrefix(road, suffix);
    assert s[..|road|] == road;
    assert SplitHead(s) == road;
    LazyCaptureStripsNumber(base, n);
    RoadIdOfDamageId(road, suffix);
  }

  /** The example of the comment: `osm-1-d-123` and `osm-2-d-7` both land on `osm`. */
  lemma AsWrittenCollapsesRoads()
    ensures AsWrittenRoadId("osm-1-d-123") == "osm"
    ensures AsWrittenRoadId("osm-2-d-7") == "osm"
    ensures RoadIdFromPointId("osm-1-d-123") == "osm-1"
    ensures RoadIdFromPointId("osm-2-d-7") == "osm-2"
  {
    OsmRoadCollapses(1, "123", "osm-1-d-123", "osm-1");
    OsmRoadCollapses(2, "7", "osm-2-d-7", "osm-2");
  }

  /**
   * The aggregate itself merges the roads: two results without a `roadId` on
   * "osm-1" and "osm-2" give one record, road "osm" with both points, whatever
   * order the sort leaves.
   */
  lemma AggregateMergesNumberedRoads(r1: HotspotResult, r2: HotspotResult, result: seq<RoadAggregate>)
    requires r1.id == Some("osm-1-d-1") && r2.id == Some("osm-2-d-1")
    requires r1.roadId.None? && r2.roadId.None?
    requires multiset(result) == multiset(Unsorted([r1, r2]))
    ensures |result| == 1 && result[0].roadId == "osm" && result[0].totalPoints == 2
  {
    SameRoadMerges(r1, r2);
    var agg := Unsorted([r1, r2]);
    assert agg == [agg[0]];
    assert |result| == |multiset(result)| == 1;
    assert result[0] in multiset(agg);
  }

  /** Both results are keyed "osm", so the fold makes one road with two points. */
  lemma SameRoadMerges(r1: HotspotResult, r2: HotspotResult)
    requires r1.id == Some("osm-1-d-1") && r2.id == Some("osm-2-d-1")
    requires r1.roadId.None? && r2.roadId.None?
    ensures KeyOrder([r1, r2]) == ["osm"] && "osm" in Tallies([r1, r2]) && Tallies([r1, r2])["osm"].total == 2
  {
    OsmRoadCollapses(1, "1", "osm-1-d-1", "osm-1");
    OsmRoadCollapses(2, "1", "osm-2-d-1", "osm-2");
    assert RoadKey(r1) == Some("osm") && RoadKey(r2) == Some("osm");
    var rs := [r1, r2];
    assert rs[..1] == [r1] && [r1][..0] == [];
    assert KeyOrder([r1]) == ["osm"] && Tallies([r1]) == map["osm" := CountInto(EMPTY_TALLY, r1)];
  }

  /** One damage id on road `osm-<n>`, written out. */
  lemma OsmRoadCollapses(n: nat, suffix: string, id: string, road: string)
    requires n < 10 && road == "osm-" + [NatToString(n)[0]] && id == road + "-d-" + suffix
    ensures AsWrittenRoadId(id) == "osm"
    ensures RoadIdFromPointId(id) == road
  {
    assert |NatToString(n)| == 1;
    assert "osm" + "-" + NatToString(n) == road;
    AsWrittenDropsRoadNumber("osm", n, suffix);
  }
}
