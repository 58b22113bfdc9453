/**
  What the hour table holds, read off the runs: for every full clock hour its bytes, its jobs
  and the seconds in which something ran.
 */
module Activity {
  import opened Spans
  import opened Hours
  import opened Assessment

  /** The run has a duration and bytes, so they are spread over the hours it covers. */
  predicate Spreads(r: Record) {
    r.creation.Some? && r.end.Some? && r.end.value > r.creation.value && r.bytes > 0
  }

  predicate RunsAt(r: Record, t: int) {
    Spreads(r) && r.creation.value <= t < r.end.value
  }

  /** The run covers part of [h, h + 3600), or is booked whole on the hour it starts in. */
  predicate Touches(r: Record, h: int) {
    if Spreads(r) then r.creation.value < h + 3600 && h < r.end.value
    else r.creation.Some? && h <= r.creation.value < h + 3600
  }

  function Min(a: int, b: int): int { if a < b then a else b }
  function Max(a: int, b: int): int { if a < b then b else a }

  /** What the run brings to the hour: the share of its bytes that falls into it, or all of them. */
  function BytesIn(r: Record, h: int): int {
    if !Touches(r, h) then 0
    else if !Spreads(r) then r.bytes
    else r.bytes * (Min(r.end.value, h + 3600) - Max(r.creation.value, h)) / (r.end.value - r.creation.value)
  }

  function HourBytes(recs: seq<Record>, h: int): int {
    if recs == [] then 0 else HourBytes(recs[..|recs| - 1], h) + BytesIn(recs[|recs| - 1], h)
  }

  function HourJobs(recs: seq<Record>, h: int): set<string> {
    set r | r in recs && Touches(r, h) :: r.job
  }

  /** The seconds of the hour in which some run was active. */
  function BusySeconds(recs: seq<Record>, h: int): set<int> {
    set t | h <= t < h + 3600 && Active(recs, t)
  }

  predicate Active(recs: seq<Record>, t: int) {
    exists r :: r in recs && RunsAt(r, t)
  }

  predicate FullHour(h: int) {
    h % 3600 == 0
  }

  // --- one run ----------------------------------------------------------------------------

  lemma HourStartIsFull(t: int)
    ensures FullHour(HourStart(t)) && HourStart(t) <= t < HourStart(t) + 3600
  {
  }

  lemma FullHoursApart(g: int, h: int)
    requires FullHour(g) && FullHour(h) && g != h
    ensures g + 3600 <= h || h + 3600 <= g
  {
  }

  /** Bucket `h` once the pieces from `hour` on are added: it gets the one piece that falls into it. */
  lemma {:induction false} PiecesAt(
    b: map<int, Bucket>, hour: int, start: int, end: int, bytes: int, total: int, job: string, h: int)
    requires total > 0 && FullHour(hour) && FullHour(h) && hour <= start < hour + HOUR && start < end
    ensures var c, old_ := AddPieces(b, Pieces(hour, start, end), bytes, total, job), BucketAt(b, h);
      if hour <= h < end then
        var x := Span(Max(start, h), Min(end, h + 3600));
        h in c && c[h] == Bucket(old_.bytes + bytes * (x.to - x.from) / total, old_.spans + [x], old_.jobs + {job})
      else
        (h in c <==> h in b) && BucketAt(c, h) == old_
    decreases end - hour
  {
    var xs := Pieces(hour, start, end);
    var b1 := AddPiece(b, xs[0], bytes, total, job);
    if hour != h { FullHoursApart(hour, h); }
    if hour + HOUR < end {
      assert xs[1..] == Pieces(hour + HOUR, hour + HOUR, end);
      PiecesAt(b1, hour + HOUR, hour + HOUR, end, bytes, total, job, h);
    } else {
      assert xs[1..] == [];
    }
  }

  /** Bucket `h` after one more run. */
  lemma OneRunAt(b: map<int, Bucket>, r: Record, h: int)
    requires FullHour(h)
    ensures var c, old_ := BucketStep(b, r), BucketAt(b, h);
      && (h in c <==> h in b || Touches(r, h))
      && BucketAt(c, h) == Bucket(
           old_.bytes + BytesIn(r, h),
           old_.spans + (if Spreads(r) && Touches(r, h)
                         then [Span(Max(r.creation.value, h), Min(r.end.value, h + 3600))] else []),
           old_.jobs + if Touches(r, h) then {r.job} else {})
  {
    if r.creation.Some? {
      var t := r.creation.value;
      HourStartIsFull(t);
      if HourStart(t) != h { FullHoursApart(HourStart(t), h); }
      if Spreads(r) {
        PiecesAt(b, HourStart(t), t, r.end.value, r.bytes, r.end.value - t, r.job, h);
      }
    }
  }

  lemma FullKeys(b: map<int, Bucket>, hour: int, start: int, end: int, bytes: int, total: int, job: string)
    requires total > 0 && FullHour(hour) && hour <= start <= hour + HOUR
    requires forall h :: h in b ==> FullHour(h)
    ensures forall h :: h in AddPieces(b, Pieces(hour, start, end), bytes, total, job) ==> FullHour(h)
    decreases end - hour
  {
    if start < end {
      var xs := Pieces(hour, start, end);
      var b1 := AddPiece(b, xs[0], bytes, total, job);
      if hour + HOUR < end {
        assert xs[1..] == Pieces(hour + HOUR, hour + HOUR, end);
        FullKeys(b1, hour + HOUR, hour + HOUR, end, bytes, total, job);
      } else {
        assert xs[1..] == [];
      }
    }
  }

  // --- all runs ---------------------------------------------------------------------------

  lemma {:induction false} AllKeysAreFull(recs: seq<Record>)
    ensures forall h :: h in BucketsOf(recs) ==> FullHour(h)
  {
    if recs != [] {
      var init, r := recs[..|recs| - 1], recs[|recs| - 1];
      AllKeysAreFull(init);
      if r.creation.Some? {
        var t := r.creation.value;
        HourStartIsFull(t);
        if Spreads(r) {
          FullKeys(BucketsOf(init), HourStart(t), t, r.end.value, r.bytes, r.end.value - t, r.job);
        }
      }
    }
  }

  /** Bytes and jobs of every full hour, and which hours are listed at all. */
  lemma {:induction false} HourHolds(recs: seq<Record>, h: int)
    requires FullHour(h)
    ensures h in BucketsOf(recs) <==> exists r :: r in recs && Touches(r, h)
    ensures BucketAt(BucketsOf(recs), h).bytes == HourBytes(recs, h)
    ensures BucketAt(BucketsOf(recs), h).jobs == HourJobs(recs, h)
  {
    if recs != [] {
      var init, r := recs[..|recs| - 1], recs[|recs| - 1];
      HourHolds(init, h);
      OneRunAt(BucketsOf(init), r, h);
      assert recs == init + [r];
    }
  }

  /** A second of the hour is busy exactly when some run was active then. */
  lemma {:induction false} HourIsBusy(recs: seq<Record>, h: int, t: int)
    requires FullHour(h) && h <= t < h + 3600
    ensures t in Covered(BucketAt(BucketsOf(recs), h).spans) <==> Active(recs, t)
  {
    if recs == [] {
      CoveredIff([], t);
    } else {
      var init, r := recs[..|recs| - 1], recs[|recs| - 1];
      HourIsBusy(init, h, t);
      BusyWithOneMore(BucketsOf(init), r, h, t);
      assert recs == init + [r];
      assert Active(recs, t) <==> Active(init, t) || RunsAt(r, t);
    }
  }

  lemma BusyWithOneMore(b: map<int, Bucket>, r: Record, h: int, t: int)
    requires FullHour(h) && h <= t < h + 3600
    ensures t in Covered(BucketAt(BucketStep(b, r), h).spans) <==> t in Covered(BucketAt(b, h).spans) || RunsAt(r, t)
  {
    OneRunAt(b, r, h);
    OneMoreSpan(BucketAt(b, h).spans, BucketAt(BucketStep(b, r), h).spans, t);
  }

  lemma OneMoreSpan(before: seq<Span>, after: seq<Span>, t: int)
    requires before <= after && |after| <= |before| + 1
    ensures t in Covered(after) <==>
      t in Covered(before) || (|after| > |before| && after[|before|].from <= t < after[|before|].to)
  {
    CoveredIff(before, t);
    CoveredIff(after, t);
    if t in Covered(before) {
      var i :| 0 <= i < |before| && before[i].from <= t < before[i].to;
      assert after[i] == before[i];
    }
  }

  /** The busy time of a bucket is the number of seconds of its hour in which a run was active. */
  lemma BusyTimeIsTheRuns(recs: seq<Record>, h: int)
    requires NonNegative(recs) && FullHour(h)
    ensures Covered(BucketAt(BucketsOf(recs), h).spans) == BusySeconds(recs, h)
  {
    var spans := BucketAt(BucketsOf(recs), h).spans;
    BucketsHoldAtMostTheTotal(recs);
    forall t ensures t in Covered(spans) <==> t in BusySeconds(recs, h) {
      if h <= t < h + 3600 {
        HourIsBusy(recs, h, t);
      } else {
        CoveredIff(spans, t);
        if h in BucketsOf(recs) { assert BucketOk(h, BucketsOf(recs)[h]); }
      }
    }
  }
}
