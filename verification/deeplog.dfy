/**
  Job logs hold many runs in one file; the parser reports on the newest one.

  A log is a sequence of tokens: what each pattern of the parser recognises, line ends, and
  the rest.  A `Load` token is one match of the per-stage load pattern, which a run writes
  when it closes.
 */
module DeepLog {
  import opened Wrappers

  datatype Stage4 = Stage4(source: int, proxy: int, network: int, target: int)

  datatype Token =
    | Newline
    | Stamp(text: string)
    | Load(busy: Stage4)
    | Primary(stage: string)
    | Mode(name: string)
    | NoHotadd
    | Finished(thread: string, seconds: int)
    | Dedup(on: bool)
    | Compression(level: int)
    | BlockSize(kb: int)
    | Text

  type Log = seq<Token>

  /** How often the load pattern matches. */
  function Loads(log: Log): nat {
    if log == [] then 0
    else Loads(log[..|log| - 1]) + if log[|log| - 1].Load? then 1 else 0
  }

  /** Where it matches last, -1 if it does not. */
  function LastLoadAt(log: Log): (at: int)
    ensures -1 <= at < |log|
  {
    if log == [] then -1
    else if log[|log| - 1].Load? then |log| - 1
    else LastLoadAt(log[..|log| - 1])
  }

  /** What follows the `n`-th last match. */
  function AfterLoad(log: Log, n: nat): Log
    requires 1 <= n <= Loads(log)
  {
    var init, last := log[..|log| - 1], log[|log| - 1];
    if last.Load? then if n == 1 then [] else AfterLoad(init, n - 1) + [last]
    else AfterLoad(init, n) + [last]
  }

  /** Everything after the last load but one; the whole log when there are fewer. */
  function LastRunSegment(log: Log): Log {
    if Loads(log) < 2 then log else AfterLoad(log, 2)
  }

  /** The last match of a pattern. */
  function LastOf<T>(log: Log, pick: Token -> Option<T>): Option<T> {
    if log == [] then None
    else
      var n := |log| - 1;
      if pick(log[n]).Some? then pick(log[n]) else LastOf(log[..n], pick)
  }

  function AsLoad(t: Token): Option<Stage4> { if t.Load? then Some(t.busy) else None }
  function AsPrimary(t: Token): Option<string> { if t.Primary? then Some(t.stage) else None }
  function AsDedup(t: Token): Option<bool> { if t.Dedup? then Some(t.on) else None }
  function AsCompression(t: Token): Option<int> { if t.Compression? then Some(t.level) else None }
  function AsBlockSize(t: Token): Option<int> { if t.BlockSize? then Some(t.kb) else None }

  function LineStart(log: Log, at: nat): (start: nat)
    requires at <= |log|
    ensures start <= at
  {
    if at == 0 || log[at - 1] == Newline then at else LineStart(log, at - 1)
  }

  function FirstStamp(log: Log): Option<string> {
    if log == [] then None
    else if log[0].Stamp? then Some(log[0].text)
    else FirstStamp(log[1..])
  }

  /** The first stamp on the line of the last load, in front of it. */
  function RunAtOf(log: Log): Option<string> {
    if Loads(log) == 0 then None else StampBefore(log, LastLoadAt(log))
  }

  function StampBefore(log: Log, at: int): Option<string>
    requires -1 <= at <= |log|
  {
    if at < 0 then None else FirstStamp(log[LineStart(log, at)..at])
  }

  function Modes(log: Log): set<string> {
    set t | t in log && t.Mode? :: t.name
  }

  /** Threads of the backup engine itself are not machines. */
  predicate Internal(thread: string) {
    "VBR." <= thread || Contains(thread, "Pipeline")
  }

  predicate Contains(s: string, part: string) {
    part <= s || (s != [] && Contains(s[1..], part))
  }

  function Durations(log: Log): map<string, int> {
    if log == [] then map[]
    else
      var t, before := log[|log| - 1], Durations(log[..|log| - 1]);
      if t.Finished? && !Internal(t.thread) then before[t.thread := t.seconds] else before
  }

  datatype JobResult = JobResult(
    runAt: Option<string>, modes: set<string>, hotaddNote: bool,
    aggregate: Option<Stage4>, primary: Option<string>, durations: map<string, int>,
    dedup: Option<bool>, compression: Option<int>, blockSize: Option<int>)

  /** What the parser reports for a log, read off the segment of its newest run. */
  function JobOf(full: Log): JobResult {
    var s := LastRunSegment(full);
    JobResult(RunAtOf(full), Modes(s), "nbd" in Modes(s) && NoHotadd in s,
      LastOf(s, AsLoad), LastOf(s, AsPrimary), Durations(s),
      LastOf(s, AsDedup), LastOf(s, AsCompression), LastOf(s, AsBlockSize))
  }

  method ParseJob(full: Log) returns (r: JobResult)
    ensures r == JobOf(full)
  {
    var s := LastRunSegment(full);
    var modes := {};
    for i := 0 to |s|
      invariant modes == Modes(s[..i])
    {
      assert s[..i + 1] == s[..i] + [s[i]];
      if s[i].Mode? {
        modes := modes + {s[i].name};
      }
    }
    var durs := map[];
    for i := 0 to |s|
      invariant durs == Durations(s[..i])
    {
      assert s[..i + 1][..i] == s[..i];
      if s[i].Finished? && !Internal(s[i].thread) {
        durs := durs[s[i].thread := s[i].seconds];
      }
    }
    assert s[..|s|] == s;
    r := JobResult(RunAtOf(full), modes, "nbd" in modes && NoHotadd in s,
      LastOf(s, AsLoad), LastOf(s, AsPrimary), durs,
      LastOf(s, AsDedup), LastOf(s, AsCompression), LastOf(s, AsBlockSize));
  }

  // --- where the loads are ------------------------------------------------------------

  lemma {:induction false} LoadsConcat(a: Log, b: Log)
    ensures Loads(a + b) == Loads(a) + Loads(b)
    decreases |b|
  {
    if b == [] {
      assert a + b == a;
    } else {
      LoadsConcat(a, b[..|b| - 1]);
      assert (a + b)[..|a + b| - 1] == a + b[..|b| - 1];
    }
  }

  /** The last load of a text is the last load of its second part, if that has one. */
  lemma {:induction false} LastLoadConcat(a: Log, b: Log)
    ensures LastLoadAt(a + b) == if Loads(b) > 0 then |a| + LastLoadAt(b) else LastLoadAt(a)
    decreases |b|
  {
    if b == [] {
      assert a + b == a;
    } else {
      LastLoadConcat(a, b[..|b| - 1]);
      assert (a + b)[..|a + b| - 1] == a + b[..|b| - 1];
    }
  }

  lemma {:induction false} AfterLoadConcat(a: Log, b: Log, n: nat)
    requires 1 <= n <= Loads(a) + Loads(b)
    ensures Loads(a + b) == Loads(a) + Loads(b)
    ensures AfterLoad(a + b, n) == if n <= Loads(b) then AfterLoad(b, n) else AfterLoad(a, n - Loads(b)) + b
    decreases |b|
  {
    LoadsConcat(a, b);
    if b == [] {
      assert a + b == a;
    } else {
      var init, last := b[..|b| - 1], b[|b| - 1];
      assert (a + b)[..|a + b| - 1] == a + init && (a + b)[|a + b| - 1] == last;
      assert init + [last] == b;
      if !last.Load? {
        AfterLoadConcat(a, init, n);
      } else if n > 1 {
        AfterLoadConcat(a, init, n - 1);
      }
    }
  }

  /** What follows the `n`-th last load does follow a load, and holds the `n - 1` later ones. */
  lemma {:induction false} AfterLoadFollowsALoad(log: Log, n: nat) returns (k: nat)
    requires 1 <= n <= Loads(log)
    ensures k < |log| && log[k].Load? && AfterLoad(log, n) == log[k + 1..]
    ensures Loads(AfterLoad(log, n)) == n - 1
  {
    var init, last := log[..|log| - 1], log[|log| - 1];
    if last.Load? && n == 1 {
      k := |log| - 1;
    } else {
      k := AfterLoadFollowsALoad(init, if last.Load? then n - 1 else n);
      assert log[k + 1..] == init[k + 1..] + [last];
      assert (init[k + 1..] + [last])[..|init[k + 1..]|] == init[k + 1..];
    }
  }

  lemma {:induction false} LastLoadIsALoad(log: Log)
    ensures LastLoadAt(log) == -1 <==> Loads(log) == 0
    ensures LastLoadAt(log) >= 0 ==> log[LastLoadAt(log)].Load?
    ensures forall k :: LastLoadAt(log) < k < |log| ==> !log[k].Load?
    ensures LastOf(log, AsLoad) == if LastLoadAt(log) >= 0 then Some(log[LastLoadAt(log)].busy) else None
  {
    if log != [] {
      var init := log[..|log| - 1];
      LastLoadIsALoad(init);
      assert forall k :: 0 <= k < |init| ==> init[k] == log[k];
    }
  }

  /** What follows the last load of a log, or all of it when there is none. */
  function Tail(log: Log): Log {
    if Loads(log) == 0 then log else AfterLoad(log, 1)
  }

  /**
    The segment is the end of the log, holds its last load and no other, and starts right after
    a load if it is cut.
   */
  lemma SegmentHoldsTheLastLoad(log: Log)
    ensures var s := LastRunSegment(log);
      && |s| <= |log| && s == log[|log| - |s|..]
      && Loads(s) == (if Loads(log) == 0 then 0 else 1)
      && (s == log || (|s| < |log| && log[|log| - |s| - 1].Load?))
      && (Loads(log) > 0 ==> LastLoadAt(log) == |log| - |s| + LastLoadAt(s))
  {
    if Loads(log) >= 2 {
      var k := AfterLoadFollowsALoad(log, 2);
      var s := LastRunSegment(log);
      assert log == log[..k + 1] + s;
      LastLoadConcat(log[..k + 1], s);
    }
  }

  lemma SegmentIsIdempotent(log: Log)
    ensures LastRunSegment(LastRunSegment(log)) == LastRunSegment(log)
  {
    SegmentHoldsTheLastLoad(log);
  }

  /** Once a log holds two loads, nothing in front of it changes its newest run. */
  lemma PrefixIsIrrelevant(older: Log, log: Log)
    requires Loads(log) >= 2
    ensures LastRunSegment(older + log) == LastRunSegment(log)
  {
    AfterLoadConcat(older, log, 2);
  }

  /**
    What older text leaves in the segment in front of a newer text: nothing before two loads,
    what follows its last load before one closed run, its own segment before a run that has
    not written its load.
   */
  function Kept(older: Log, newest: Log): Log {
    if Loads(newest) >= 2 then []
    else if Loads(newest) == 1 then Tail(older)
    else LastRunSegment(older)
  }

  lemma OlderRunsLeaveTheirTail(older: Log, newest: Log)
    ensures LastRunSegment(older + newest) == Kept(older, newest) + LastRunSegment(newest)
  {
    LoadsConcat(older, newest);
    if Loads(older) + Loads(newest) >= 2 {
      AfterLoadConcat(older, newest, 2);
    }
  }

  // --- the label and the data -----------------------------------------------------------

  /** The reported load is the last one in the whole log, and the label is read off its line. */
  lemma RunLabelMatchesData(full: Log)
    ensures var at := LastLoadAt(full);
      if Loads(full) == 0 then JobOf(full).aggregate == None && JobOf(full).runAt == None
      else
        && 0 <= at && full[at].Load? && (forall k :: at < k < |full| ==> !full[k].Load?)
        && JobOf(full).aggregate == Some(full[at].busy)
        && JobOf(full).runAt == StampBefore(full, at)
  {
    SegmentHoldsTheLastLoad(full);
    LastLoadIsALoad(full);
    LastLoadIsALoad(LastRunSegment(full));
  }

  // --- isolation of the newest run --------------------------------------------------------

  lemma {:induction false} LastOfConcat<T>(a: Log, b: Log, pick: Token -> Option<T>)
    ensures LastOf(a + b, pick) == if LastOf(b, pick).Some? then LastOf(b, pick) else LastOf(a, pick)
    decreases |b|
  {
    if b == [] {
      assert a + b == a;
    } else {
      LastOfConcat(a, b[..|b| - 1], pick);
      assert (a + b)[..|a + b| - 1] == a + b[..|b| - 1];
    }
  }

  lemma {:induction false} DurationsConcat(a: Log, b: Log)
    ensures Durations(a + b) == Durations(a) + Durations(b)
    decreases |b|
  {
    if b == [] {
      assert a + b == a;
    } else {
      DurationsConcat(a, b[..|b| - 1]);
      assert (a + b)[..|a + b| - 1] == a + b[..|b| - 1];
    }
  }

  /** The label is that of the newer text, or of the older one while the newer has no load. */
  lemma LabelIgnoresFullLines(older: Log, log: Log)
    requires older == [] || older[|older| - 1] == Newline
    ensures RunAtOf(older + log) == if Loads(log) > 0 then RunAtOf(log) else RunAtOf(older)
  {
    if Loads(log) > 0 { NewerLabel(older, log); } else { OlderLabel(older, log); }
  }

  lemma NewerLabel(older: Log, log: Log)
    requires Loads(log) > 0 && (older == [] || older[|older| - 1] == Newline)
    ensures RunAtOf(older + log) == RunAtOf(log)
  {
    LoadsConcat(older, log);
    LastLoadConcat(older, log);
    LastLoadIsALoad(log);
    StampShifts(older, log, LastLoadAt(log));
  }

  lemma OlderLabel(older: Log, log: Log)
    requires Loads(log) == 0
    ensures RunAtOf(older + log) == RunAtOf(older)
  {
    LoadsConcat(older, log);
    LastLoadConcat(older, log);
    LastLoadIsALoad(older);
    if Loads(older) > 0 { StampStays(older, log, LastLoadAt(older)); }
  }

  lemma StampStays(older: Log, log: Log, at: nat)
    requires at <= |older|
    ensures StampBefore(older + log, at) == StampBefore(older, at)
  {
    LineStartStays(older, log, at);
    assert (older + log)[LineStart(older, at)..at] == older[LineStart(older, at)..at];
  }

  lemma {:induction false} LineStartStays(older: Log, log: Log, at: nat)
    requires at <= |older|
    ensures LineStart(older + log, at) == LineStart(older, at)
  {
    if at > 0 && older[at - 1] != Newline {
      LineStartStays(older, log, at - 1);
    }
  }

  lemma StampShifts(older: Log, log: Log, at: nat)
    requires at <= |log| && (older == [] || older[|older| - 1] == Newline)
    ensures StampBefore(older + log, |older| + at) == StampBefore(log, at)
  {
    LineStartShifts(older, log, at);
    SliceShifts(older, log, LineStart(log, at), at);
  }

  lemma SliceShifts(older: Log, log: Log, i: nat, j: nat)
    requires i <= j <= |log|
    ensures (older + log)[|older| + i..|older| + j] == log[i..j]
  {}

  lemma {:induction false} LineStartShifts(older: Log, log: Log, at: nat)
    requires at <= |log| && (older == [] || older[|older| - 1] == Newline)
    ensures LineStart(older + log, |older| + at) == |older| + LineStart(log, at)
  {
    if at > 0 && log[at - 1] != Newline {
      LineStartShifts(older, log, at - 1);
    }
  }

  /** What text between an older load and the newest run may say without being noticed. */
  predicate LeavesNoTrace(tail: Log, newest: Log) {
    && Modes(tail) <= Modes(newest)
    && (NoHotadd in tail && "nbd" in Modes(newest) ==> NoHotadd in newest)
    && Durations(tail).Keys <= Durations(newest).Keys
    && (LastOf(tail, AsPrimary).Some? ==> LastOf(newest, AsPrimary).Some?)
    && (LastOf(tail, AsDedup).Some? ==> LastOf(newest, AsDedup).Some?)
    && (LastOf(tail, AsCompression).Some? ==> LastOf(newest, AsCompression).Some?)
    && (LastOf(tail, AsBlockSize).Some? ==> LastOf(newest, AsBlockSize).Some?)
  }

  /** The report on any text after any older text, field by field. */
  lemma NewestRunDecides(older: Log, newest: Log)
    requires older == [] || older[|older| - 1] == Newline
    ensures var r, n, kept := JobOf(older + newest), JobOf(newest), Kept(older, newest);
      && (Loads(newest) > 0 ==> n.aggregate.Some? && r.aggregate == n.aggregate && r.runAt == n.runAt)
      && (Loads(newest) == 0 ==>
            n.aggregate == None && r.aggregate == JobOf(older).aggregate && r.runAt == JobOf(older).runAt)
      && r.primary == (if n.primary.Some? then n.primary else LastOf(kept, AsPrimary))
      && r.dedup == (if n.dedup.Some? then n.dedup else LastOf(kept, AsDedup))
      && r.compression == (if n.compression.Some? then n.compression else LastOf(kept, AsCompression))
      && r.blockSize == (if n.blockSize.Some? then n.blockSize else LastOf(kept, AsBlockSize))
      && r.modes == Modes(kept) + n.modes
      && r.hotaddNote == ("nbd" in r.modes && (NoHotadd in kept || NoHotadd in LastRunSegment(newest)))
      && r.durations == Durations(kept) + n.durations
  {
    var kept, s := Kept(older, newest), LastRunSegment(newest);
    OlderRunsLeaveTheirTail(older, newest);
    LabelIgnoresFullLines(older, newest);
    LoadIsTheLastOne(older, newest);
    LastOfConcat(kept, s, AsPrimary);
    LastOfConcat(kept, s, AsDedup);
    LastOfConcat(kept, s, AsCompression);
    LastOfConcat(kept, s, AsBlockSize);
    DurationsConcat(kept, s);
    assert Modes(kept + s) == Modes(kept) + Modes(s);
  }

  /** The load reported for a log is its last one. */
  lemma AggregateIs(log: Log)
    ensures JobOf(log).aggregate == LastOf(log, AsLoad)
    ensures LastOf(log, AsLoad) == None <==> Loads(log) == 0
    ensures Loads(log) == 0 ==> JobOf(log).runAt == None
  {
    RunLabelMatchesData(log);
    LastLoadIsALoad(log);
  }

  lemma LoadIsTheLastOne(older: Log, newest: Log)
    ensures JobOf(newest).aggregate == None <==> Loads(newest) == 0
    ensures JobOf(older + newest).aggregate ==
      if Loads(newest) > 0 then JobOf(newest).aggregate else JobOf(older).aggregate
  {
    AggregateIs(older + newest);
    AggregateIs(newest);
    AggregateIs(older);
    LastOfConcat(older, newest, AsLoad);
  }

  /**
    Whatever the newest text holds, older runs in front of it change nothing exactly when it
    closes two runs, or what follows the last older load leaves no trace and, if the newest
    text has no load yet, there is no older load either.
   */
  lemma NewestRunIsIsolatedIff(older: Log, newest: Log)
    requires older == [] || older[|older| - 1] == Newline
    ensures JobOf(older + newest) == JobOf(newest) <==>
      || Loads(newest) >= 2
      || ((Loads(newest) == 0 ==> Loads(older) == 0) && LeavesNoTrace(Tail(older), newest))
  {
    if Loads(newest) >= 2 {
      PrefixIsIrrelevant(older, newest);
      LabelIgnoresFullLines(older, newest);
    } else if Loads(newest) == 0 && Loads(older) > 0 {
      LoadIsTheLastOne(older, newest);
      AggregateIs(older);
    } else {
      IsolatedIffNoTrace(older, newest);
    }
  }

  lemma IsolatedIffNoTrace(older: Log, newest: Log)
    requires older == [] || older[|older| - 1] == Newline
    requires Loads(newest) <= 1 && (Loads(newest) == 0 ==> Loads(older) == 0)
    ensures JobOf(older + newest) == JobOf(newest) <==> LeavesNoTrace(Tail(older), newest)
  {
    var r, n, tail := JobOf(older + newest), JobOf(newest), Tail(older);
    NewestRunDecides(older, newest);
    AggregateIs(older);
    AggregateIs(newest);
    assert r.aggregate == n.aggregate && r.runAt == n.runAt;
    OnlyTheTailMatters(r, n, tail, newest);
  }

  /** With the same load and label, the reports are the same exactly when the tail leaves no trace. */
  lemma OnlyTheTailMatters(r: JobResult, n: JobResult, tail: Log, newest: Log)
    requires r.aggregate == n.aggregate && r.runAt == n.runAt
    requires n.modes == Modes(newest) && n.durations == Durations(newest)
    requires n.hotaddNote == ("nbd" in n.modes && NoHotadd in newest)
    requires n.primary == LastOf(newest, AsPrimary) && n.dedup == LastOf(newest, AsDedup)
    requires n.compression == LastOf(newest, AsCompression) && n.blockSize == LastOf(newest, AsBlockSize)
    requires r.primary == (if n.primary.Some? then n.primary else LastOf(tail, AsPrimary))
    requires r.dedup == (if n.dedup.Some? then n.dedup else LastOf(tail, AsDedup))
    requires r.compression == (if n.compression.Some? then n.compression else LastOf(tail, AsCompression))
    requires r.blockSize == (if n.blockSize.Some? then n.blockSize else LastOf(tail, AsBlockSize))
    requires r.modes == Modes(tail) + n.modes && r.durations == Durations(tail) + n.durations
    requires r.hotaddNote == ("nbd" in r.modes && (NoHotadd in tail || NoHotadd in newest))
    ensures r == n <==> LeavesNoTrace(tail, newest)
  {
    MergeIsRightIff(Durations(tail), n.durations);
    assert Modes(tail) + n.modes == n.modes <==> Modes(tail) <= n.modes;
  }

  lemma MergeIsRightIff(a: map<string, int>, b: map<string, int>)
    ensures a + b == b <==> a.Keys <= b.Keys
  {
    assert (a + b).Keys == a.Keys + b.Keys;
    if a + b == b {
      assert (a + b).Keys == b.Keys;
    }
  }

  /**
    Runs that write everything before they close leave no trace in the report on a newest run
    that has closed, whatever that one says.
   */
  lemma RunsThatCloseLastLeaveNoTrace(older: Log, newest: Log)
    requires older == [] || older[|older| - 1] == Newline
    requires forall t :: t in Tail(older) ==> t.Newline? || t.Stamp? || t.Text?
    ensures JobOf(older + newest) == JobOf(newest) <==> Loads(newest) > 0 || Loads(older) == 0
  {
    SilentText(Tail(older));
    NewestRunIsIsolatedIff(older, newest);
  }

  lemma {:induction false} NoMatch<T>(log: Log, pick: Token -> Option<T>)
    requires forall t :: t in log ==> pick(t) == None
    ensures LastOf(log, pick) == None
  {
    if log != [] {
      assert log[|log| - 1] in log;
      NoMatch(log[..|log| - 1], pick);
    }
  }

  lemma {:induction false} NoDurations(log: Log)
    requires forall t :: t in log ==> !t.Finished?
    ensures Durations(log) == map[]
  {
    if log != [] {
      assert log[|log| - 1] in log;
      NoDurations(log[..|log| - 1]);
    }
  }

  lemma SilentText(log: Log)
    requires forall t :: t in log ==> t.Newline? || t.Stamp? || t.Text?
    ensures Modes(log) == {} && NoHotadd !in log && Durations(log) == map[]
    ensures LastOf(log, AsPrimary) == None && LastOf(log, AsDedup) == None
    ensures LastOf(log, AsCompression) == None && LastOf(log, AsBlockSize) == None
  {
    NoDurations(log);
    NoMatch(log, AsPrimary);
    NoMatch(log, AsDedup);
    NoMatch(log, AsCompression);
    NoMatch(log, AsBlockSize);
  }

  /** An option an older run wrote after closing is reported when the newest run does not state it. */
  lemma AnOldOptionLeaks(level: int)
    ensures var older, newest := [Load(Stage4(10, 20, 30, 90)), Compression(level)], [Load(Stage4(99, 9, 19, 12))];
      JobOf(newest).compression == None && JobOf(older + newest).compression == Some(level)
  {
    var older, newest := [Load(Stage4(10, 20, 30, 90)), Compression(level)], [Load(Stage4(99, 9, 19, 12))];
    assert newest[..0] == [] && Loads(newest) == 1;
    assert older[..1][..0] == [] && Loads(older[..1]) == 1 && Loads(older) == 1;
    assert AfterLoad(older[..1], 1) == [];
    assert Tail(older) == [Compression(level)] && [Compression(level)][..0] == [];
    NoMatch(newest, AsCompression);
    OlderRunsLeaveTheirTail(older, newest);
    LastOfConcat(Tail(older), newest, AsCompression);
  }

  /**
    The log of a run that has not closed: the load of the run before it is reported together
    with the newest run's own transport and options, although that run left no trace.
   */
  lemma AnOpenRunIsMixedWithTheOneBefore(busy: Stage4, level: int)
    ensures var older, newest := [Load(busy), Newline], [Mode("nbd"), Compression(level)];
      && LeavesNoTrace(Tail(older), newest)
      && JobOf(newest).aggregate == None
      && JobOf(older + newest).aggregate == Some(busy)
      && JobOf(older + newest).compression == JobOf(newest).compression == Some(level)
      && JobOf(older + newest).modes == JobOf(newest).modes == {"nbd"}
  {
    var older, newest := [Load(busy), Newline], [Mode("nbd"), Compression(level)];
    OneLoadAndALineEnd(busy);
    assert newest[..1][..0] == [] && Loads(newest[..1]) == 0 && Loads(newest) == 0;
    SilentText(Tail(older));
    NewestRunDecides(older, newest);
    assert Modes(newest) == {"nbd"};
    assert LastRunSegment(newest) == newest && LastOf(newest, AsCompression) == Some(level);
    assert Mode("nbd") !in older && Modes(older) == {};
  }

  lemma OneLoadAndALineEnd(busy: Stage4)
    ensures var log := [Load(busy), Newline];
      Loads(log) == 1 && Tail(log) == [Newline] && LastRunSegment(log) == log && JobOf(log).aggregate == Some(busy)
  {
    var log := [Load(busy), Newline];
    assert log[..1][..0] == [] && Loads(log[..1]) == 1 && Loads(log) == 1;
    assert AfterLoad(log[..1], 1) == [];
    assert LastOf(log[..1], AsLoad) == Some(busy);
  }
}
