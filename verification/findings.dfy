/**
  The findings of the assessment: peak hour, busiest and stagger hour, dominant stage and
  hotspots.  Go iterates its maps in no particular order, so the loops here take keys in any
  order and promise only what holds for all of them.
 */
module Findings {
  import opened Wrappers
  import opened Sorting
  import opened Spans
  import opened Sums
  import opened Quotients
  import opened Hours
  import opened Assessment

  /** part / total in percent, rounded half up. */
  function Pct(part: int, total: int): int {
    if total <= 0 then 0 else (200 * part + total) / (2 * total)
  }

  lemma PctInRange(part: int, total: int)
    requires 0 <= part <= total
    ensures 0 <= Pct(part, total) <= 100
  {
    if total > 0 {
      QuotientIsNonNegative(200 * part + total, 2 * total);
      var q := (200 * part + total) / (2 * total);
      FloorBound(200 * part + total, 2 * total);
      if q >= 101 {
        Times(2 * total, 101, q);
      }
    }
  }

  /** A set that is not empty has an hour to take next. */
  lemma HasHour(hours: set<int>)
    ensures hours != {} ==> exists h: int :: h in hours
  {
    if forall h: int :: h !in hours {
      assert hours == {};
    }
  }

  // --- hours --------------------------------------------------------------------------

  predicate Loaded(buckets: map<int, Bucket>, t: int) {
    t in buckets && buckets[t].bytes >= LOW_FLOOR
  }

  /** The loaded clock hours that fall on hour `h` of the day. */
  function LoadedAt(buckets: map<int, Bucket>, h: int): set<int> {
    set t | t in buckets && Loaded(buckets, t) && HourOfDay(t) == h
  }

  /** `peak` is a loaded hour of `seen` that no other exceeds, if there is any. */
  ghost predicate IsPeak(buckets: map<int, Bucket>, seen: set<int>, peak: Option<int>) {
    match peak
    case None => forall t :: t in seen ==> !Loaded(buckets, t)
    case Some(p) =>
      p in seen && Loaded(buckets, p) && forall t :: t in seen && t in buckets ==> buckets[t].bytes <= buckets[p].bytes
  }

  /** The bytes of the loaded hours in `seen`, per hour of the day. */
  ghost predicate LoadsAre(buckets: map<int, Bucket>, seen: set<int>, hourBytes: map<int, int>) {
    && (forall h :: h in hourBytes ==> 0 <= h < 24)
    && forall h :: At(hourBytes, h) == SumOver(LoadedAt(buckets, h) * seen, BytesOf(buckets))
  }

  predicate ActiveIn(buckets: map<int, Bucket>, seen: set<int>, h: int, job: string) {
    exists t :: t in LoadedAt(buckets, h) * seen && job in buckets[t].jobs
  }

  /** The jobs running in the loaded hours in `seen`, per hour of the day. */
  ghost predicate ActiveAre(buckets: map<int, Bucket>, seen: set<int>, hourActive: map<int, set<string>>) {
    forall h, job :: job in JobsAt(hourActive, h) <==> ActiveIn(buckets, seen, h, job)
  }

  /** Those of one hour of the day. */
  ghost function ActiveJobs(buckets: map<int, Bucket>, h: int): set<string> {
    set t, job | t in LoadedAt(buckets, h) && t in buckets && job in buckets[t].jobs :: job
  }

  lemma ActiveAreTheJobs(buckets: map<int, Bucket>, hourActive: map<int, set<string>>, h: int)
    requires ActiveAre(buckets, buckets.Keys, hourActive)
    ensures JobsAt(hourActive, h) == ActiveJobs(buckets, h)
  {
    forall job ensures job in JobsAt(hourActive, h) <==> job in ActiveJobs(buckets, h) {
      assert LoadedAt(buckets, h) * buckets.Keys == LoadedAt(buckets, h);
      assert job in JobsAt(hourActive, h) <==> ActiveIn(buckets, buckets.Keys, h, job);
    }
  }

  method HourLoads(buckets: map<int, Bucket>)
    returns (peak: Option<int>, hourBytes: map<int, int>, hourActive: map<int, set<string>>)
    ensures IsPeak(buckets, buckets.Keys, peak)
    ensures LoadsAre(buckets, buckets.Keys, hourBytes)
    ensures ActiveAre(buckets, buckets.Keys, hourActive)
  {
    peak, hourBytes, hourActive := None, map[], map[];
    var todo := buckets.Keys;
    NothingSeen(buckets);
    while todo != {}
      invariant todo <= buckets.Keys
      invariant IsPeak(buckets, buckets.Keys - todo, peak)
      invariant LoadsAre(buckets, buckets.Keys - todo, hourBytes)
      invariant ActiveAre(buckets, buckets.Keys - todo, hourActive)
      decreases |todo|
    {
      HasHour(todo);
      var t :| t in todo;
      ghost var seen := buckets.Keys - todo;
      todo := todo - {t};
      assert buckets.Keys - todo == seen + {t};
      LoadTaken(buckets, seen, t, hourBytes);
      ActiveTaken(buckets, seen, t, hourActive);
      if buckets[t].bytes < LOW_FLOOR {
        continue;
      }
      if peak.None? || buckets[t].bytes > buckets[peak.value].bytes {
        peak := Some(t);
      }
      var h := HourOfDay(t);
      hourBytes := AddTo(hourBytes, h, buckets[t].bytes);
      hourActive := hourActive[h := JobsAt(hourActive, h) + buckets[t].jobs];
    }
    assert buckets.Keys - todo == buckets.Keys;
  }

  lemma NothingSeen(buckets: map<int, Bucket>)
    ensures LoadsAre(buckets, buckets.Keys - buckets.Keys, map[])
    ensures ActiveAre(buckets, buckets.Keys - buckets.Keys, map[])
  {
    forall h ensures LoadedAt(buckets, h) * (buckets.Keys - buckets.Keys) == {} {}
  }

  lemma LoadTaken(buckets: map<int, Bucket>, seen: set<int>, t: int, hourBytes: map<int, int>)
    requires t in buckets && t !in seen && LoadsAre(buckets, seen, hourBytes)
    ensures LoadsAre(buckets, seen + {t},
      if Loaded(buckets, t) then AddTo(hourBytes, HourOfDay(t), buckets[t].bytes) else hourBytes)
  {
    var next := if Loaded(buckets, t) then AddTo(hourBytes, HourOfDay(t), buckets[t].bytes) else hourBytes;
    forall h ensures At(next, h) == SumOver(LoadedAt(buckets, h) * (seen + {t}), BytesOf(buckets)) {
      assert At(hourBytes, h) == SumOver(LoadedAt(buckets, h) * seen, BytesOf(buckets));
      var now := LoadedAt(buckets, h) * (seen + {t});
      if t in LoadedAt(buckets, h) {
        TakeOut(now, BytesOf(buckets), t);
        assert now - {t} == LoadedAt(buckets, h) * seen;
      } else {
        assert now == LoadedAt(buckets, h) * seen;
      }
    }
  }

  lemma ActiveTaken(buckets: map<int, Bucket>, seen: set<int>, t: int, hourActive: map<int, set<string>>)
    requires t in buckets && ActiveAre(buckets, seen, hourActive)
    ensures ActiveAre(buckets, seen + {t},
      if Loaded(buckets, t) then hourActive[HourOfDay(t) := JobsAt(hourActive, HourOfDay(t)) + buckets[t].jobs]
      else hourActive)
  {
    var next :=
      if Loaded(buckets, t) then hourActive[HourOfDay(t) := JobsAt(hourActive, HourOfDay(t)) + buckets[t].jobs]
      else hourActive;
    forall h, job ensures job in JobsAt(next, h) <==> ActiveIn(buckets, seen + {t}, h, job) {
      ActiveOneMore(buckets, seen, t, h, job);
      assert job in JobsAt(hourActive, h) <==> ActiveIn(buckets, seen, h, job);
    }
  }

  lemma ActiveOneMore(buckets: map<int, Bucket>, seen: set<int>, t: int, h: int, job: string)
    requires t in buckets
    ensures ActiveIn(buckets, seen + {t}, h, job)
       <==> ActiveIn(buckets, seen, h, job) || (t in LoadedAt(buckets, h) && job in buckets[t].jobs)
  {
    if ActiveIn(buckets, seen, h, job) {
      var u :| u in LoadedAt(buckets, h) * seen && job in buckets[u].jobs;
      assert u in LoadedAt(buckets, h) * (seen + {t});
    }
    if t in LoadedAt(buckets, h) && job in buckets[t].jobs {
      assert t in LoadedAt(buckets, h) * (seen + {t});
    }
    if ActiveIn(buckets, seen + {t}, h, job) {
      var u :| u in LoadedAt(buckets, h) * (seen + {t}) && job in buckets[u].jobs;
      if u != t { assert u in LoadedAt(buckets, h) * seen; }
    }
  }

  /** The key with the largest positive value, or -1: the shape of every "busiest" loop. */
  method Largest(m: map<int, int>) returns (key: int, value: int)
    requires forall k :: k in m ==> k >= 0
    ensures value == if key == -1 then 0 else At(m, key)
    ensures key == -1 || (key in m && value > 0)
    ensures forall k :: k in m ==> m[k] <= value
  {
    key, value := -1, 0;
    var todo := m.Keys;
    while todo != {}
      invariant todo <= m.Keys
      invariant value == if key == -1 then 0 else At(m, key)
      invariant key == -1 || (key in m && value > 0)
      invariant forall k :: k in m && k !in todo ==> m[k] <= value
      decreases |todo|
    {
      HasHour(todo);
      var k :| k in todo;
      todo := todo - {k};
      if m[k] > value {
        key, value := k, m[k];
      }
    }
  }

  // --- stages and resources -------------------------------------------------------------

  method TopStage(stageBytes: map<string, int>) returns (top: string)
    requires "" !in stageBytes && forall st :: st in stageBytes ==> stageBytes[st] > 0
    ensures stageBytes == map[] <==> top == ""
    ensures top != "" ==> top in stageBytes && forall st :: st in stageBytes ==> stageBytes[st] <= stageBytes[top]
  {
    top := "";
    var todo := stageBytes.Keys;
    while todo != {}
      invariant todo <= stageBytes.Keys
      invariant top == "" ==> todo == stageBytes.Keys
      invariant top != "" ==>
        top in stageBytes && forall st :: st in stageBytes && st !in todo ==> stageBytes[st] <= stageBytes[top]
      decreases |todo|
    {
      var st :| st in todo;
      todo := todo - {st};
      if stageBytes[st] > At(stageBytes, top) || top == "" {
        top := st;
      }
    }
    if top == "" { assert stageBytes.Keys == {}; }
  }

  datatype Hotspot = Hotspot(res: Res, runs: int, bytes: int, sharePct: int, stage: string, busySec: int)

  function ByBytes(h: Hotspot): Key {
    (-h.bytes, 0)
  }

  predicate Listed(rows: seq<Hotspot>, k: Res) {
    exists i :: 0 <= i < |rows| && rows[i].res == k
  }

  predicate AllWellFormed(spans: map<Res, seq<Span>>) {
    forall k :: k in spans ==> WellFormed(spans[k])
  }

  /** One row per charged resource. */
  method HotspotRows(b: Binding) returns (rows: seq<Hotspot>)
    requires AllWellFormed(b.resSpans) && b.resStage.Keys == b.resBytes.Keys
    ensures |rows| == |b.resBytes|
    ensures forall i :: 0 <= i < |rows| ==> RowOf(b, rows[i])
    ensures forall k :: k in b.resBytes ==> Listed(rows, k)
    ensures DistinctRows(rows)
  {
    rows := [];
    var todo := b.resBytes.Keys;
    while todo != {}
      invariant todo <= b.resBytes.Keys && |rows| + |todo| == |b.resBytes|
      invariant forall i :: 0 <= i < |rows| ==> RowOf(b, rows[i]) && rows[i].res !in todo
      invariant DistinctRows(rows)
      invariant forall k :: k in b.resBytes && k !in todo ==> Listed(rows, k)
      decreases |todo|
    {
      var k :| k in todo;
      todo := todo - {k};
      var d := UnionSeconds(SpansAt(b.resSpans, k));
      var row := Hotspot(k, At(b.resRuns, k), b.resBytes[k], Pct(b.resBytes[k], b.total), b.resStage[k], d);
      ghost var before := rows;
      rows := rows + [row];
      forall x | x in b.resBytes && x !in todo ensures Listed(rows, x) {
        if x == k {
          assert rows[|rows| - 1].res == k;
        } else {
          var i :| 0 <= i < |before| && before[i].res == x;
          assert rows[i].res == x;
        }
      }
    }
  }

  predicate DistinctRows(rows: seq<Hotspot>) {
    forall i, j :: 0 <= i < j < |rows| ==> rows[i].res != rows[j].res
  }

  /** The row of a charged resource: its bytes, runs and last stage, and the time some run was busy on it. */
  predicate RowOf(b: Binding, h: Hotspot) {
    && h.res in b.resBytes && h.bytes == b.resBytes[h.res]
    && h.res in b.resStage && h.stage == b.resStage[h.res]
    && h.runs == At(b.resRuns, h.res)
    && h.sharePct == Pct(h.bytes, b.total)
    && h.busySec == |Covered(SpansAt(b.resSpans, h.res))|
  }

  /** The five largest rows, largest first: no resource twice, and none left out is larger. */
  ghost predicate LargestFive(b: Binding, top: seq<Hotspot>) {
    && |top| == (if |b.resBytes| > 5 then 5 else |b.resBytes|)
    && (forall i :: 0 <= i < |top| ==> RowOf(b, top[i]))
    && DistinctRows(top)
    && (forall i, j :: 0 <= i < j < |top| ==> top[i].bytes >= top[j].bytes)
    && (forall k, i :: k in b.resBytes && 0 <= i < |top| && !Listed(top, k) ==> b.resBytes[k] <= top[i].bytes)
  }

  method Hotspots(b: Binding) returns (top: seq<Hotspot>)
    requires AllWellFormed(b.resSpans) && b.resStage.Keys == b.resBytes.Keys
    ensures LargestFive(b, top)
  {
    var rows := HotspotRows(b);
    var sorted := StableSort(rows, ByBytes);
    top := if |sorted| > 5 then sorted[..5] else sorted;
    LargestFirst(sorted, rows);
    forall i | 0 <= i < |sorted| ensures RowOf(b, sorted[i]) { assert sorted[i] in rows; }
    SortingKeepsRowsDistinct(b, rows, sorted);
    LeftOutAreSmaller(b, rows, sorted, top);
  }

  lemma SortingKeepsRowsDistinct(b: Binding, rows: seq<Hotspot>, sorted: seq<Hotspot>)
    requires StableSortOf(sorted, rows, ByBytes) && DistinctRows(rows)
    requires forall i :: 0 <= i < |sorted| ==> RowOf(b, sorted[i])
    ensures DistinctRows(sorted)
  {
    SortingKeepsDistinct(sorted, rows, ByBytes);
    forall i, j | 0 <= i < j < |sorted| ensures sorted[i].res != sorted[j].res {
      assert sorted[i] != sorted[j];
    }
  }

  lemma LeftOutAreSmaller(b: Binding, rows: seq<Hotspot>, sorted: seq<Hotspot>, top: seq<Hotspot>)
    requires forall i :: 0 <= i < |rows| ==> RowOf(b, rows[i])
    requires forall k :: k in b.resBytes ==> Listed(rows, k)
    requires forall x :: x in sorted <==> x in rows
    requires forall p, q :: 0 <= p < q < |sorted| ==> sorted[p].bytes >= sorted[q].bytes
    requires top <= sorted
    ensures forall k, i :: k in b.resBytes && 0 <= i < |top| && !Listed(top, k) ==>
              b.resBytes[k] <= top[i].bytes
  {
    forall k, i | k in b.resBytes && 0 <= i < |top| && !Listed(top, k)
      ensures b.resBytes[k] <= top[i].bytes
    {
      var m :| 0 <= m < |rows| && rows[m].res == k;
      assert RowOf(b, rows[m]);
      forall j | 0 <= j < |top| ensures sorted[j].res != k { assert top[j] == sorted[j]; }
      LeftOutIsSmaller(b, rows, sorted, |top|, k, i);
    }
  }

  lemma LeftOutIsSmaller(b: Binding, rows: seq<Hotspot>, sorted: seq<Hotspot>, n: nat, k: Res, i: nat)
    requires i < n <= |sorted| && k in b.resBytes
    requires forall j :: 0 <= j < n ==> sorted[j].res != k
    requires forall x :: x in sorted <==> x in rows
    requires forall p, q :: 0 <= p < q < |sorted| ==> sorted[p].bytes >= sorted[q].bytes
    requires exists m :: 0 <= m < |rows| && rows[m].res == k && RowOf(b, rows[m])
    ensures b.resBytes[k] <= sorted[i].bytes
  {
    var m :| 0 <= m < |rows| && rows[m].res == k && RowOf(b, rows[m]);
    assert rows[m] in sorted;
    var q :| 0 <= q < |sorted| && sorted[q] == rows[m];
  }

  lemma LargestFirst(sorted: seq<Hotspot>, rows: seq<Hotspot>)
    requires StableSortOf(sorted, rows, ByBytes)
    ensures forall i, j :: 0 <= i < j < |sorted| ==> sorted[i].bytes >= sorted[j].bytes
  {
    forall i, j | 0 <= i < j < |sorted| ensures sorted[i].bytes >= sorted[j].bytes {
      assert !Before(ByBytes(sorted[j]), ByBytes(sorted[i]));
    }
  }
}
