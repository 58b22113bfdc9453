/**
  Activity per absolute clock hour: how a run's bytes and busy time are spread over the hours
  it touches.  Bytes are integers: a share is the floor of bytes * seconds / total.
 */
module Hours {
  import opened Spans
  import opened Sums
  import opened Quotients

  const HOUR := 3600

  /** The clock hour that holds second `t`. */
  function HourStart(t: int): (h: int)
    ensures h <= t < h + HOUR
  {
    t - t % HOUR
  }

  function HourOfDay(t: int): (h: int)
    ensures 0 <= h < 24
  {
    t / HOUR % 24
  }

  datatype Bucket = Bucket(bytes: int, spans: seq<Span>, jobs: set<string>)

  function BucketAt(buckets: map<int, Bucket>, h: int): Bucket {
    if h in buckets then buckets[h] else Bucket(0, [], {})
  }

  /** The part of a run that falls into one clock hour. */
  datatype Piece = Piece(hour: int, busy: Span)

  /** [start, end) cut at every full hour, where `hour` is the clock hour of `start`. */
  function Pieces(hour: int, start: int, end: int): seq<Piece>
    requires hour <= start <= hour + HOUR
    decreases end - hour
  {
    if start >= end then []
    else
      var hi := if hour + HOUR < end then hour + HOUR else end;
      [Piece(hour, Span(start, hi))] + if hi == end then [] else Pieces(hour + HOUR, hi, end)
  }

  function PiecesOf(start: int, end: int): seq<Piece> {
    Pieces(HourStart(start), start, end)
  }

  function Share(bytes: int, x: Span, total: int): int
    requires total > 0
  {
    bytes * (x.to - x.from) / total
  }

  function AddPiece(buckets: map<int, Bucket>, p: Piece, bytes: int, total: int, job: string): map<int, Bucket>
    requires total > 0
  {
    var bk := BucketAt(buckets, p.hour);
    buckets[p.hour := Bucket(bk.bytes + Share(bytes, p.busy, total), bk.spans + [p.busy], bk.jobs + {job})]
  }

  function AddPieces(buckets: map<int, Bucket>, xs: seq<Piece>, bytes: int, total: int, job: string): map<int, Bucket>
    requires total > 0
    decreases |xs|
  {
    if xs == [] then buckets
    else AddPieces(AddPiece(buckets, xs[0], bytes, total, job), xs[1..], bytes, total, job)
  }

  /** All bytes and the job to one hour, with no busy time. */
  function AddWhole(buckets: map<int, Bucket>, t: int, bytes: int, job: string): map<int, Bucket> {
    var bk := BucketAt(buckets, HourStart(t));
    buckets[HourStart(t) := bk.(bytes := bk.bytes + bytes, jobs := bk.jobs + {job})]
  }

  function SpreadOver(buckets: map<int, Bucket>, start: int, end: int, bytes: int, job: string): map<int, Bucket> {
    if end <= start then AddWhole(buckets, start, bytes, job)
    else AddPieces(buckets, PiecesOf(start, end), bytes, end - start, job)
  }

  /** The activity table of one assessment. */
  class HourTable {
    var buckets: map<int, Bucket>

    constructor ()
      ensures buckets == map[]
    {
      buckets := map[];
    }

    method AddAt(t: int, bytes: int, job: string)
      modifies this
      ensures buckets == AddWhole(old(buckets), t, bytes, job)
    {
      var bk := BucketAt(buckets, HourStart(t));
      buckets := buckets[HourStart(t) := bk.(bytes := bk.bytes + bytes, jobs := bk.jobs + {job})];
    }

    /** Hour by hour from the hour of `start`, each clipped to the run. */
    method Spread(start: int, end: int, bytes: int, job: string)
      modifies this
      ensures buckets == SpreadOver(old(buckets), start, end, bytes, job)
    {
      var total := end - start;
      if total <= 0 {
        AddAt(start, bytes, job);
        return;
      }
      var t := HourStart(start);
      while t < end
        invariant HourStart(start) <= t
        invariant t < end ==> t <= Later(start, t) <= t + HOUR
        invariant AddPieces(buckets, if t < end then Pieces(t, Later(start, t), end) else [], bytes, total, job)
               == AddPieces(old(buckets), PiecesOf(start, end), bytes, total, job)
        decreases end - t
      {
        var lo, hi := t, t + HOUR;
        if lo < start {
          lo := start;
        }
        if hi > end {
          hi := end;
        }
        if hi - lo > 0 {
          ghost var xs := Pieces(t, lo, end);
          assert xs[0] == Piece(t, Span(lo, hi)) && xs[1..] == if hi == end then [] else Pieces(t + HOUR, hi, end);
          var bk := BucketAt(buckets, t);
          buckets :=
            buckets[t := Bucket(bk.bytes + bytes * (hi - lo) / total, bk.spans + [Span(lo, hi)], bk.jobs + {job})];
        }
        t := t + HOUR;
      }
    }
  }

  function Later(a: int, b: int): int {
    if a < b then b else a
  }

  function Earlier(a: int, b: int): int {
    if a < b then a else b
  }

  // --- what a spread is -----------------------------------------------------------

  function PieceDurations(xs: seq<Piece>): int {
    if xs == [] then 0 else xs[0].busy.to - xs[0].busy.from + PieceDurations(xs[1..])
  }

  /** One piece per clock hour touched, in order: the run clipped to that hour. */
  lemma {:induction false} PiecesFrom(hour: int, start: int, end: int)
    requires hour <= start < hour + HOUR && start < end
    ensures var xs := Pieces(hour, start, end);
      && (forall i :: 0 <= i < |xs| ==>
            xs[i] == Piece(hour + HOUR * i, Span(Later(start, hour + HOUR * i), Earlier(end, hour + HOUR * (i + 1)))))
      && hour + HOUR * (|xs| - 1) < end <= hour + HOUR * |xs|
      && PieceDurations(xs) == end - start
    decreases end - hour
  {
    var xs := Pieces(hour, start, end);
    if hour + HOUR < end {
      PiecesFrom(hour + HOUR, hour + HOUR, end);
      assert xs[1..] == Pieces(hour + HOUR, hour + HOUR, end);
      forall i | 0 <= i < |xs|
        ensures xs[i] ==
          Piece(hour + HOUR * i, Span(Later(start, hour + HOUR * i), Earlier(end, hour + HOUR * (i + 1))))
      {
        if i > 0 { assert xs[i] == xs[1..][i - 1]; }
      }
    } else {
      assert xs[1..] == [];
    }
  }

  /** A run is cut into consecutive non-empty pieces, each inside its own clock hour, none missing. */
  lemma PiecesPartitionTheRun(start: int, end: int)
    requires start < end
    ensures var xs := PiecesOf(start, end);
      && xs != [] && xs[0].busy.from == start && xs[|xs| - 1].busy.to == end
      && (forall i :: 0 <= i < |xs| ==> InsideItsHour(xs[i]) && xs[i].hour == HourStart(start) + HOUR * i)
      && (forall i :: 0 <= i < |xs| - 1 ==> xs[i].busy.to == xs[i + 1].busy.from)
      && PieceDurations(xs) == end - start
  {
    PiecesFrom(HourStart(start), start, end);
  }

  predicate InsideItsHour(p: Piece) {
    p.hour <= p.busy.from < p.busy.to <= p.hour + HOUR
  }

  function SumShares(bytes: int, xs: seq<Piece>, total: int): int
    requires total > 0
  {
    if xs == [] then 0 else Share(bytes, xs[0].busy, total) + SumShares(bytes, xs[1..], total)
  }

  /** Rounding down loses less than one byte per hour touched and never adds one. */
  lemma SpreadConservesBytes(start: int, end: int, bytes: int)
    requires start < end && bytes >= 0
    ensures var xs := PiecesOf(start, end);
      bytes - |xs| < SumShares(bytes, xs, end - start) <= bytes
  {
    var xs, total := PiecesOf(start, end), end - start;
    PiecesPartitionTheRun(start, end);
    SharesBound(bytes, xs, total);
    var sum := SumShares(bytes, xs, total);
    assert total * sum <= bytes * total < total * (sum + |xs|);
    Cancel(total, sum, bytes);
    Cancel(total, bytes, sum + |xs|);
  }

  lemma {:induction false} SharesBound(bytes: int, xs: seq<Piece>, total: int)
    requires total > 0
    ensures total * SumShares(bytes, xs, total) <= bytes * PieceDurations(xs)
    ensures bytes * PieceDurations(xs) <= total * (SumShares(bytes, xs, total) + |xs|)
    ensures xs != [] ==> bytes * PieceDurations(xs) < total * (SumShares(bytes, xs, total) + |xs|)
  {
    if xs != [] {
      var d, rest := xs[0].busy.to - xs[0].busy.from, PieceDurations(xs[1..]);
      SharesBound(bytes, xs[1..], total);
      FloorBound(bytes * d, total);
      AddBounds(bytes, d, rest, total, bytes * d / total, SumShares(bytes, xs[1..], total), |xs| - 1);
    }
  }

  lemma AddBounds(bytes: int, d: int, rest: int, total: int, share: int, shares: int, n: int)
    requires total * share <= bytes * d < total * (share + 1)
    requires total * shares <= bytes * rest <= total * (shares + n)
    ensures total * (share + shares) <= bytes * (d + rest) < total * (share + shares + (n + 1))
  {
    assert bytes * (d + rest) == bytes * d + bytes * rest;
    assert total * (share + shares) == total * share + total * shares;
    assert total * (share + shares + (n + 1)) == total * (share + 1) + total * (shares + n);
  }

  // --- what every table built by spreading keeps ------------------------------------

  function BytesOf(buckets: map<int, Bucket>): map<int, int> {
    map h | h in buckets :: buckets[h].bytes
  }

  /** Busy intervals stay inside their clock hour and no hour holds a negative amount. */
  ghost predicate TableOk(buckets: map<int, Bucket>) {
    forall h :: h in buckets ==> BucketOk(h, buckets[h])
  }

  predicate BucketOk(h: int, bk: Bucket) {
    && bk.bytes >= 0
    && forall i :: 0 <= i < |bk.spans| ==> h <= bk.spans[i].from < bk.spans[i].to <= h + HOUR
  }

  lemma BusyTimeFitsTheHour(buckets: map<int, Bucket>, h: int)
    requires TableOk(buckets) && h in buckets
    ensures WellFormed(buckets[h].spans) && |Covered(buckets[h].spans)| <= HOUR
  {
    CoverInsideWindow(buckets[h].spans, h, h + HOUR);
  }

  lemma AddWholeKeeps(buckets: map<int, Bucket>, t: int, bytes: int, job: string)
    requires TableOk(buckets) && bytes >= 0
    ensures TableOk(AddWhole(buckets, t, bytes, job))
    ensures SumMap(BytesOf(AddWhole(buckets, t, bytes, job))) == SumMap(BytesOf(buckets)) + bytes
  {
    var b := AddWhole(buckets, t, bytes, job);
    assert BytesOf(b) == AddTo(BytesOf(buckets), HourStart(t), bytes);
    SumAddTo(BytesOf(buckets), HourStart(t), bytes);
  }

  lemma ShareIsNonNegative(bytes: int, x: Span, total: int)
    requires bytes >= 0 && x.from <= x.to && total > 0
    ensures Share(bytes, x, total) >= 0
  {
    Times(bytes, 0, x.to - x.from);
    QuotientIsNonNegative(bytes * (x.to - x.from), total);
  }

  lemma AddPieceKeeps(buckets: map<int, Bucket>, p: Piece, bytes: int, total: int, job: string)
    requires TableOk(buckets) && bytes >= 0 && total > 0 && InsideItsHour(p)
    ensures TableOk(AddPiece(buckets, p, bytes, total, job))
    ensures SumMap(BytesOf(AddPiece(buckets, p, bytes, total, job))) ==
      SumMap(BytesOf(buckets)) + Share(bytes, p.busy, total)
  {
    var b, s := AddPiece(buckets, p, bytes, total, job), Share(bytes, p.busy, total);
    ShareIsNonNegative(bytes, p.busy, total);
    assert p.hour in buckets ==> BucketOk(p.hour, buckets[p.hour]);
    assert BytesOf(b) == AddTo(BytesOf(buckets), p.hour, s);
    SumAddTo(BytesOf(buckets), p.hour, s);
  }

  lemma {:induction false} AddPiecesKeeps(buckets: map<int, Bucket>, xs: seq<Piece>, bytes: int, total: int,
                                          job: string)
    requires TableOk(buckets) && bytes >= 0 && total > 0
    requires forall i :: 0 <= i < |xs| ==> InsideItsHour(xs[i])
    ensures TableOk(AddPieces(buckets, xs, bytes, total, job))
    ensures SumMap(BytesOf(AddPieces(buckets, xs, bytes, total, job))) ==
      SumMap(BytesOf(buckets)) + SumShares(bytes, xs, total)
    decreases |xs|
  {
    if xs != [] {
      AddPieceKeeps(buckets, xs[0], bytes, total, job);
      AddPiecesKeeps(AddPiece(buckets, xs[0], bytes, total, job), xs[1..], bytes, total, job);
    }
  }

  /** A spread keeps the table in order and adds at most the run's bytes to it. */
  lemma SpreadKeeps(buckets: map<int, Bucket>, start: int, end: int, bytes: int, job: string)
    requires TableOk(buckets) && bytes >= 0
    ensures var b := SpreadOver(buckets, start, end, bytes, job);
      && TableOk(b)
      && SumMap(BytesOf(buckets)) <= SumMap(BytesOf(b)) <= SumMap(BytesOf(buckets)) + bytes
  {
    if end <= start {
      AddWholeKeeps(buckets, start, bytes, job);
    } else {
      PiecesPartitionTheRun(start, end);
      AddPiecesKeeps(buckets, PiecesOf(start, end), bytes, end - start, job);
      SpreadConservesBytes(start, end, bytes);
      SharesAreNonNegative(bytes, PiecesOf(start, end), end - start);
    }
  }

  lemma {:induction false} SharesAreNonNegative(bytes: int, xs: seq<Piece>, total: int)
    requires bytes >= 0 && total > 0 && forall i :: 0 <= i < |xs| ==> InsideItsHour(xs[i])
    ensures SumShares(bytes, xs, total) >= 0
  {
    if xs != [] {
      SharesAreNonNegative(bytes, xs[1..], total);
      ShareIsNonNegative(bytes, xs[0].busy, total);
    }
  }
}
