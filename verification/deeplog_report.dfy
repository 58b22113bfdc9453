/** What the parser reports on a log, told by positions in the log. */
module DeepLogReport {
  import opened Wrappers
  import opened DeepLog

  /** The newest run starts at `from`: behind the last load but one, or at the start when there are fewer. */
  ghost predicate RunStartsAt(log: Log, from: int) {
    && 0 <= from <= |log|
    && (forall i, j :: from <= i < j < |log| ==> !(log[i].Load? && log[j].Load?))
    && (from > 0 ==> log[from - 1].Load? && exists k :: from <= k < |log| && log[k].Load?)
  }

  // What is looked for: the lines of a kind, or the durations of one machine.
  datatype Wanted = ALoad | APrimary | ADedup | ACompression | ABlockSize | ATime(thread: string)

  predicate Fits(w: Wanted, t: Token) {
    match w
    case ALoad => t.Load?
    case APrimary => t.Primary?
    case ADedup => t.Dedup?
    case ACompression => t.Compression?
    case ABlockSize => t.BlockSize?
    case ATime(thread) => t.Finished? && t.thread == thread
  }

  /** From `from` on, the last of the tokens in question is `t`. */
  ghost predicate IsLast(log: Log, from: int, w: Wanted, t: Token) {
    exists k :: 0 <= from <= k < |log| && log[k] == t && Fits(w, t) && NoneBehind(log, k, w)
  }

  ghost predicate NoneBehind(log: Log, k: int, w: Wanted) {
    forall j :: 0 <= j < |log| && k < j ==> !Fits(w, log[j])
  }

  ghost predicate NoneFrom(log: Log, from: int, w: Wanted) {
    forall k :: 0 <= from <= k < |log| ==> !Fits(w, log[k])
  }

  ghost predicate OccursFrom(log: Log, from: int, t: Token) {
    exists k :: 0 <= from <= k < |log| && log[k] == t
  }

  /** A value reported is that of the last such token; none when there is none. */
  ghost predicate Reports<T(!new)>(log: Log, from: int, w: Wanted, v: Option<T>, of: T -> Token) {
    match v
    case Some(x) => IsLast(log, from, w, of(x))
    case None => NoneFrom(log, from, w)
  }

  /** The text reads `part` from position `i` on. */
  predicate PartAt(s: string, i: int, part: string) {
    0 <= i <= i + |part| <= |s| && s[i..i + |part|] == part
  }

  /** Threads of the engine begin with "VBR." or have "Pipeline" in their name. */
  predicate OfTheEngine(thread: string) {
    PartAt(thread, 0, "VBR.") || exists i :: 0 <= i < |thread| && PartAt(thread, i, "Pipeline")
  }

  ghost predicate ReportsTimes(log: Log, from: int, times: map<string, int>) {
    forall m: string ::
      if m in times then !OfTheEngine(m) && IsLast(log, from, ATime(m), Finished(m, times[m]))
      else OfTheEngine(m) || NoneFrom(log, from, ATime(m))
  }

  /** The line of the token at `at` starts at `start`. */
  ghost predicate LineOf(log: Log, at: int, start: int) {
    && 0 <= start <= at <= |log|
    && (start == 0 || log[start - 1] == Newline)
    && forall k :: start <= k < at ==> log[k] != Newline
  }

  /** The first stamp on that line in front of `at`, if there is one. */
  ghost predicate IsLabel(log: Log, start: int, at: int, runAt: Option<string>)
    requires 0 <= start <= at <= |log|
  {
    match runAt
    case None => forall k :: start <= k < at ==> !log[k].Stamp?
    case Some(text) =>
      exists k :: start <= k < at && log[k] == Stamp(text) && forall j :: start <= j < k ==> !log[j].Stamp?
  }

  /** The label is read off the line of the last load. */
  ghost predicate ReportsLabel(log: Log, runAt: Option<string>) {
    if forall k :: 0 <= k < |log| ==> !log[k].Load? then runAt == None
    else exists at, start ::
      && 0 <= at < |log| && log[at].Load? && NoneBehind(log, at, ALoad)
      && LineOf(log, at, start) && IsLabel(log, start, at, runAt)
  }

  /** Load, bottleneck and options are the last ones stated. */
  ghost predicate ReportsLast(log: Log, from: int, r: JobResult) {
    && Reports(log, from, ALoad, r.aggregate, b => Load(b))
    && Reports(log, from, APrimary, r.primary, s => Primary(s))
    && Reports(log, from, ADedup, r.dedup, on => Dedup(on))
    && Reports(log, from, ACompression, r.compression, n => Compression(n))
    && Reports(log, from, ABlockSize, r.blockSize, kb => BlockSize(kb))
  }

  /** The report on a log whose newest run starts at `from`. */
  ghost predicate ReportReads(log: Log, from: int, r: JobResult) {
    && ReportsLabel(log, r.runAt)
    && ReportsLast(log, from, r)
    && (forall m :: m in r.modes <==> OccursFrom(log, from, Mode(m)))
    && (r.hotaddNote <==> OccursFrom(log, from, Mode("nbd")) && OccursFrom(log, from, NoHotadd))
    && ReportsTimes(log, from, r.durations)
  }

  // --- the parser reports this ------------------------------------------------------------------

  lemma {:induction false} LastByPosition<T(!new)>(log: Log, pick: Token -> Option<T>, w: Wanted, of: T -> Token)
    requires forall t: Token :: (pick(t).Some? <==> Fits(w, t)) && (Fits(w, t) ==> of(pick(t).value) == t)
    ensures Reports(log, 0, w, LastOf(log, pick), of)
  {
    if log != [] {
      var n := |log| - 1;
      if Fits(w, log[n]) {
        assert NoneBehind(log, n, w);
      } else {
        LastByPosition(log[..n], pick, w, of);
        if LastOf(log[..n], pick).Some? {
          var t := of(LastOf(log[..n], pick).value);
          var k :| 0 <= k < n && log[..n][k] == t && Fits(w, t) && NoneBehind(log[..n], k, w);
          assert forall j :: 0 <= j < n ==> log[..n][j] == log[j];
          assert NoneBehind(log, k, w);
        } else {
          forall k | 0 <= k < |log| ensures !Fits(w, log[k]) {
            if k < n { assert log[..n][k] == log[k]; }
          }
        }
      }
    }
  }

  /** What is last in a part at the end is last in the whole from there on. */
  lemma InTheWhole<T(!new)>(log: Log, from: nat, w: Wanted, v: Option<T>, of: T -> Token)
    requires from <= |log| && Reports(log[from..], 0, w, v, of)
    ensures Reports(log, from, w, v, of)
  {
    var s := log[from..];
    match v
    case Some(x) =>
      LastInTheWhole(log, from, w, of(x));
    case None =>
      forall k | from <= k < |log| ensures !Fits(w, log[k]) { assert s[k - from] == log[k]; }
  }

  lemma LastInTheWhole(log: Log, from: nat, w: Wanted, t: Token)
    requires from <= |log| && IsLast(log[from..], 0, w, t)
    ensures IsLast(log, from, w, t)
  {
    var s := log[from..];
    var k :| 0 <= k < |s| && s[k] == t && Fits(w, t) && NoneBehind(s, k, w);
    forall j | 0 <= j < |log| && from + k < j ensures !Fits(w, log[j]) { assert s[j - from] == log[j]; }
    assert log[from + k] == t && NoneBehind(log, from + k, w);
  }

  lemma OccursInTheWhole(log: Log, from: nat, t: Token)
    requires from <= |log|
    ensures t in log[from..] <==> OccursFrom(log, from, t)
  {
    var s := log[from..];
    if t in s {
      var k :| 0 <= k < |s| && s[k] == t;
      assert log[from + k] == t;
    }
    if OccursFrom(log, from, t) {
      var k :| from <= k < |log| && log[k] == t;
      assert s[k - from] == t;
    }
  }

  lemma {:induction false} ContainsByPosition(s: string, part: string)
    requires part != []
    ensures Contains(s, part) <==> exists i :: 0 <= i < |s| && PartAt(s, i, part)
  {
    if part <= s {
      assert PartAt(s, 0, part);
    } else if s != [] {
      ContainsByPosition(s[1..], part);
      if i :| 0 <= i < |s[1..]| && PartAt(s[1..], i, part) {
        assert s[i + 1..i + 1 + |part|] == s[1..][i..i + |part|];
        assert PartAt(s, i + 1, part);
      }
      if i :| 0 <= i < |s| && PartAt(s, i, part) {
        assert s[0..|part|] == s[..|part|];
        assert s[1..][i - 1..i - 1 + |part|] == s[i..i + |part|];
        assert PartAt(s[1..], i - 1, part);
      }
    }
  }

  lemma InternalIff(thread: string)
    ensures Internal(thread) <==> OfTheEngine(thread)
  {
    ContainsByPosition(thread, "Pipeline");
    assert |thread| >= 4 ==> thread[0..4] == thread[..4];
  }

  ghost predicate TimeOf(log: Log, times: map<string, int>, m: string) {
    if m in times then !OfTheEngine(m) && IsLast(log, 0, ATime(m), Finished(m, times[m]))
    else OfTheEngine(m) || NoneFrom(log, 0, ATime(m))
  }

  lemma {:induction false} TimesByPosition(log: Log, m: string)
    ensures TimeOf(log, Durations(log), m)
  {
    if log != [] {
      var n := |log| - 1;
      var w := ATime(m);
      TimesByPosition(log[..n], m);
      InternalIff(m);
      if Fits(w, log[n]) {
        if !OfTheEngine(m) { assert NoneBehind(log, n, w) && log[n] == Finished(m, Durations(log)[m]); }
      } else {
        assert m in Durations(log) <==> m in Durations(log[..n]);
        OneMoreToken(log, w);
      }
    }
  }

  /** A last token that is not in question changes nothing. */
  lemma OneMoreToken(log: Log, w: Wanted)
    requires log != [] && !Fits(w, log[|log| - 1])
    ensures forall t :: IsLast(log[..|log| - 1], 0, w, t) ==> IsLast(log, 0, w, t)
    ensures NoneFrom(log[..|log| - 1], 0, w) ==> NoneFrom(log, 0, w)
  {
    var init := log[..|log| - 1];
    assert forall k :: 0 <= k < |init| ==> init[k] == log[k];
    forall t | IsLast(init, 0, w, t) ensures IsLast(log, 0, w, t) {
      var k :| 0 <= k < |init| && init[k] == t && Fits(w, t) && NoneBehind(init, k, w);
      assert log[k] == t && NoneBehind(log, k, w);
    }
  }

  lemma TimesInTheWhole(log: Log, from: nat)
    requires from <= |log|
    ensures ReportsTimes(log, from, Durations(log[from..]))
  {
    var s := log[from..];
    forall m: string
      ensures if m in Durations(s) then !OfTheEngine(m) && IsLast(log, from, ATime(m), Finished(m, Durations(s)[m]))
              else OfTheEngine(m) || NoneFrom(log, from, ATime(m))
    {
      TimesByPosition(s, m);
      if m in Durations(s) {
        LastInTheWhole(log, from, ATime(m), Finished(m, Durations(s)[m]));
      } else if !OfTheEngine(m) {
        assert NoneFrom(s, 0, ATime(m));
        forall k | from <= k < |log| ensures !Fits(ATime(m), log[k]) { assert s[k - from] == log[k]; }
      }
    }
  }

  lemma ModesInTheWhole(log: Log, from: nat)
    requires from <= |log|
    ensures forall m :: m in Modes(log[from..]) <==> OccursFrom(log, from, Mode(m))
  {
    forall m ensures m in Modes(log[from..]) <==> OccursFrom(log, from, Mode(m)) {
      OccursInTheWhole(log, from, Mode(m));
      if m in Modes(log[from..]) {
        var t :| t in log[from..] && t.Mode? && t.name == m;
        assert t == Mode(m);
      }
    }
  }

  lemma {:induction false} LineStartIs(log: Log, at: nat)
    requires at <= |log|
    ensures LineOf(log, at, LineStart(log, at))
  {
    if at > 0 && log[at - 1] != Newline { LineStartIs(log, at - 1); }
  }

  lemma {:induction false} FirstStampIs(s: Log)
    ensures IsLabel(s, 0, |s|, FirstStamp(s))
  {
    if s != [] && !s[0].Stamp? {
      FirstStampIs(s[1..]);
      if FirstStamp(s).Some? {
        var k :| 0 <= k < |s| - 1 && s[1..][k] == Stamp(FirstStamp(s).value)
              && forall j :: 0 <= j < k ==> !s[1..][j].Stamp?;
        assert s[k + 1] == s[1..][k];
        forall j | 0 <= j < k + 1 ensures !s[j].Stamp? { if j > 0 { assert s[1..][j - 1] == s[j]; } }
      } else {
        forall j | 0 <= j < |s| ensures !s[j].Stamp? { if j > 0 { assert s[1..][j - 1] == s[j]; } }
      }
    } else if s != [] {
      assert s[0] == Stamp(s[0].text);
    }
  }

  lemma LabelInTheWhole(log: Log, start: nat, at: nat)
    requires start <= at <= |log|
    ensures IsLabel(log, start, at, FirstStamp(log[start..at]))
  {
    var s := log[start..at];
    FirstStampIs(s);
    assert forall k :: 0 <= k < |s| ==> s[k] == log[start + k];
    if FirstStamp(s).Some? {
      var k :| 0 <= k < |s| && s[k] == Stamp(FirstStamp(s).value) && forall j :: 0 <= j < k ==> !s[j].Stamp?;
      assert log[start + k] == Stamp(FirstStamp(s).value);
      forall j | start <= j < start + k ensures !log[j].Stamp? { assert s[j - start] == log[j]; }
    } else {
      forall j | start <= j < at ensures !log[j].Stamp? { assert s[j - start] == log[j]; }
    }
  }

  lemma LabelIsRead(log: Log)
    ensures ReportsLabel(log, RunAtOf(log))
  {
    LastLoadIsALoad(log);
    var at := LastLoadAt(log);
    if at >= 0 {
      assert log[at].Load? && NoneBehind(log, at, ALoad);
      LineStartIs(log, at);
      LabelInTheWhole(log, LineStart(log, at), at);
    }
  }

  lemma {:induction false} TwoLoadsCount(log: Log, i: nat, j: nat)
    requires i < j < |log| && log[i].Load? && log[j].Load?
    ensures Loads(log) >= 2
  {
    if j < |log| - 1 {
      TwoLoadsCount(log[..|log| - 1], i, j);
    } else {
      OneLoadCounts(log[..|log| - 1], i);
    }
  }

  lemma {:induction false} OneLoadCounts(log: Log, i: nat)
    requires i < |log| && log[i].Load?
    ensures Loads(log) >= 1
  {
    if i < |log| - 1 { OneLoadCounts(log[..|log| - 1], i); }
  }

  lemma SegmentStarts(log: Log) returns (from: nat)
    ensures RunStartsAt(log, from) && LastRunSegment(log) == log[from..]
  {
    SegmentHoldsTheLastLoad(log);
    var s := LastRunSegment(log);
    from := |log| - |s|;
    forall i, j | from <= i < j < |log| ensures !(log[i].Load? && log[j].Load?) {
      if log[i].Load? && log[j].Load? {
        assert s[i - from] == log[i] && s[j - from] == log[j];
        TwoLoadsCount(s, i - from, j - from);
      }
    }
    LastLoadIsALoad(log);
    if from > 0 {
      OneLoadCounts(log, from - 1);
      assert log[LastLoadAt(log)].Load? && LastLoadAt(log) >= from by { LastLoadIsALoad(s); }
    }
  }

  lemma LastFrom<T(!new)>(log: Log, from: nat, pick: Token -> Option<T>, w: Wanted, of: T -> Token)
    requires from <= |log|
    requires forall t: Token :: (pick(t).Some? <==> Fits(w, t)) && (Fits(w, t) ==> of(pick(t).value) == t)
    ensures Reports(log, from, w, LastOf(log[from..], pick), of)
  {
    LastByPosition(log[from..], pick, w, of);
    InTheWhole(log, from, w, LastOf(log[from..], pick), of);
  }

  lemma LastAreRead(log: Log, from: nat)
    requires from <= |log| && LastRunSegment(log) == log[from..]
    ensures ReportsLast(log, from, JobOf(log))
  {
    LastFrom(log, from, AsLoad, ALoad, b => Load(b));
    LastFrom(log, from, AsPrimary, APrimary, s => Primary(s));
    LastFrom(log, from, AsDedup, ADedup, on => Dedup(on));
    LastFrom(log, from, AsCompression, ACompression, n => Compression(n));
    LastFrom(log, from, AsBlockSize, ABlockSize, kb => BlockSize(kb));
  }

  /** The report on every log, by positions. */
  lemma ReportIsAsItReads(log: Log)
    ensures exists from :: RunStartsAt(log, from) && ReportReads(log, from, JobOf(log))
  {
    var from := SegmentStarts(log);
    LabelIsRead(log);
    LastAreRead(log, from);
    ModesInTheWhole(log, from);
    OccursInTheWhole(log, from, NoHotadd);
    TimesInTheWhole(log, from);
    assert ReportReads(log, from, JobOf(log));
  }
}
