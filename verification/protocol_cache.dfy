/**
  The cache agrees with the server: under single flight the stored copy of a path is the body
  of its latest successful fetch, except while the one leader is about to store a newer one.
 */
module CacheHistory {
  import opened Wrappers
  import opened Session
  import opened Protocol
  import opened SingleFlight

  function LastCopy(stored: seq<Copy>, path: Path): Option<CacheEntry> {
    if stored == [] then None
    else if stored[|stored| - 1].path == path then Some(stored[|stored| - 1].entry)
    else LastCopy(stored[..|stored| - 1], path)
  }

  /** The server gave the resource: status 200 and a body that is JSON. */
  predicate IsGood(reply: Reply) {
    reply.GetAnswered? && reply.status == 200 && reply.json
  }

  /** The body of the latest good reply for the path. */
  function LastFetch(heard: seq<Heard>, path: Path): Option<Body> {
    if heard == [] then None
    else
      var h := heard[|heard| - 1];
      if h.path == path && IsGood(h.reply) then Some(h.reply.body) else LastFetch(heard[..|heard| - 1], path)
  }

  /** A good reply to a GET that the thread made itself. */
  function Fetch(path: Path, body: Body, maker: Tid): Heard {
    Heard(path, maker, GetAnswered(200, body, true))
  }

  function Known(cache: map<Path, CacheEntry>, path: Path): Option<CacheEntry> {
    if path in cache then Some(cache[path]) else None
  }

  function CachedBody(cache: map<Path, CacheEntry>, path: Path): Option<Body> {
    if path in cache then Some(cache[path].body) else None
  }

  lemma {:induction false} LastCopyIsNewest(stored: seq<Copy>, path: Path)
    requires forall i, j :: 0 <= i < j < |stored| ==> stored[i].entry.at <= stored[j].entry.at
    ensures LastCopy(stored, path).Some? ==> Copy(path, LastCopy(stored, path).value) in stored
    ensures forall k :: 0 <= k < |stored| && stored[k].path == path ==>
              LastCopy(stored, path).Some? && stored[k].entry.at <= LastCopy(stored, path).value.at
  {
    if stored != [] {
      var n := |stored| - 1;
      LastCopyIsNewest(stored[..n], path);
      assert forall k :: 0 <= k < n ==> stored[..n][k] == stored[k];
      if stored[n].path == path {
        assert stored[n] == Copy(path, stored[n].entry);
      }
    }
  }

  lemma {:induction false} LastFetchHappened(heard: seq<Heard>, path: Path)
    ensures LastFetch(heard, path).Some? ==>
      exists u :: Fetch(path, LastFetch(heard, path).value, u) in heard
  {
    if heard != [] {
      LastFetchHappened(heard[..|heard| - 1], path);
      var h := heard[|heard| - 1];
      if h.path == path && IsGood(h.reply) {
        assert h == Fetch(path, h.reply.body, h.maker);
      }
    }
  }

  lemma LastCopyAppend(stored: seq<Copy>, c: Copy, path: Path)
    ensures LastCopy(stored + [c], path) == if c.path == path then Some(c.entry) else LastCopy(stored, path)
  {
    assert (stored + [c])[..|stored|] == stored;
  }

  lemma LastFetchAppend(heard: seq<Heard>, h: Heard, path: Path)
    ensures LastFetch(heard + [h], path) ==
      if h.path == path && IsGood(h.reply) then Some(h.reply.body) else LastFetch(heard, path)
  {
    assert (heard + [h])[..|heard|] == heard;
  }

  // --- copies stored ------------------------------------------------------------

  ghost predicate StoredInv(s: State) {
    && (forall k :: 0 <= k < |s.stored| ==> s.stored[k].entry.at <= s.now && Cacheable(s.stored[k].path))
    && (forall i, j :: 0 <= i < j < |s.stored| ==> s.stored[i].entry.at <= s.stored[j].entry.at)
    && forall p :: Known(s.cache, p) == LastCopy(s.stored, p)
  }

  /** Only a GET adds a fetch and only a `cachePut` changes the cache. */
  lemma CacheFrame(s: State, t: Tid, reply: Reply)
    requires Enabled(s, t, reply) && !s.threads[t].pc.PutCache?
    ensures var s' := Advance(s, t, reply);
      && s'.cache == s.cache && s'.stored == s.stored
      && (!s.threads[t].pc.FirstGet? && !s.threads[t].pc.SecondGet? ==>
            s'.heard == s.heard && !s'.threads[t].pc.PutCache?)
  {
    var pc := s.threads[t].pc;
    if pc.Renew? { RenewFrame(s, t, reply); RenewPc(s, t, reply); }
    else if pc.Publish? || pc.Unlist? || pc.Close? { CacheFrameLeadDone(s, t, reply); }
  }

  lemma CacheFrameLeadDone(s: State, t: Tid, reply: Reply)
    requires Enabled(s, t, reply)
    requires var pc := s.threads[t].pc; pc.Publish? || pc.Unlist? || pc.Close?
    ensures var s' := DoLeadDone(s, t, reply);
      s'.cache == s.cache && s'.stored == s.stored && s'.heard == s.heard && !s'.threads[t].pc.PutCache?
  {}

  /** Time goes on and copies are only added, at the current time. */
  ghost predicate Later(s: State, s': State) {
    && s.now <= s'.now && s.stored <= s'.stored
    && forall k :: |s.stored| <= k < |s'.stored| ==> s'.stored[k].entry.at >= s.now
  }

  lemma StoredStep(s: State, step: Step)
    requires FlightInv(s) && StoredInv(s) && CanTake(s, step)
    ensures StoredInv(Take(s, step))
    ensures Later(s, Take(s, step))
  {
    if step.Run? {
      OthersStay(s, step.t, step.reply);
      if s.threads[step.t].pc.PutCache? {
        StoredPut(s, step.t);
      } else {
        CacheFrame(s, step.t, step.reply);
      }
    }
  }

  lemma StoredPut(s: State, t: Tid)
    requires FlightInv(s) && StoredInv(s) && t < |s.threads| && s.threads[t].pc.PutCache?
    ensures StoredInv(DoPutCache(s, t)) && Later(s, DoPutCache(s, t))
  {
    var s', th := DoPutCache(s, t), s.threads[t];
    assert ThreadOk(s, t);
    var c := Copy(th.path, CacheEntry(s.now, th.pc.body));
    assert s'.stored == s.stored + [c];
    forall p ensures Known(s'.cache, p) == LastCopy(s'.stored, p) {
      LastCopyAppend(s.stored, c, p);
      assert Known(s.cache, p) == LastCopy(s.stored, p);
    }
  }

  // --- agreement with the latest fetch ------------------------------------------

  /** No leader is about to store a copy of `path`. */
  ghost predicate NothingPending(s: State, path: Path) {
    forall u :: 0 <= u < |s.threads| ==> !(s.threads[u].pc.PutCache? && s.threads[u].path == path)
  }

  ghost predicate AgreesOn(s: State, path: Path) {
    NothingPending(s, path) ==> LastFetch(s.heard, path) == CachedBody(s.cache, path)
  }

  predicate PendingOk(s: State, th: Thread) {
    th.pc.PutCache? ==> LastFetch(s.heard, th.path) == Some(th.pc.body)
  }

  ghost predicate AgreeInv(s: State) {
    && (forall u :: 0 <= u < |s.threads| ==> PendingOk(s, s.threads[u]))
    && forall p :: Cacheable(p) ==> AgreesOn(s, p)
  }

  /** Two threads leading the same path are the same thread. */
  lemma OneLeader(s: State, u: Tid, v: Tid)
    requires FlightInv(s) && u < |s.threads| && v < |s.threads|
    requires s.threads[u].lead.Some? && s.threads[v].lead.Some?
    requires Leading(s.threads[u].pc) && Leading(s.threads[v].pc)
    requires s.threads[u].path == s.threads[v].path
    ensures u == v
  {
    assert ThreadOk(s, u) && ThreadOk(s, v);
  }

  lemma AgreeStep(s: State, step: Step)
    requires FlightInv(s) && AgreeInv(s) && CanTake(s, step)
    ensures AgreeInv(Take(s, step))
  {
    var s' := Take(s, step);
    match step
    case Spawn(path) =>
      assert forall u :: 0 <= u < |s.threads| ==> s'.threads[u] == s.threads[u];
      forall p | Cacheable(p) ensures AgreesOn(s', p) { assert AgreesOn(s, p); }
    case Tick(_) =>
      forall p | Cacheable(p) ensures AgreesOn(s', p) { assert AgreesOn(s, p); }
    case Run(t, reply) =>
      OthersStay(s, t, reply);
      var pc := s.threads[t].pc;
      if pc.PutCache? { AgreePut(s, t); }
      else if pc.FirstGet? || pc.SecondGet? { AgreeGet(s, t, reply); }
      else { AgreeOther(s, t, reply); }
  }

  lemma AgreeOther(s: State, t: Tid, reply: Reply)
    requires AgreeInv(s) && Enabled(s, t, reply)
    requires var pc := s.threads[t].pc; !pc.PutCache? && !pc.FirstGet? && !pc.SecondGet?
    ensures AgreeInv(Advance(s, t, reply))
  {
    var s' := Advance(s, t, reply);
    OthersStay(s, t, reply);
    CacheFrame(s, t, reply);
    forall u | 0 <= u < |s'.threads| ensures PendingOk(s', s'.threads[u]) { assert PendingOk(s, s.threads[u]); }
    forall p | Cacheable(p) ensures AgreesOn(s', p) {
      assert AgreesOn(s, p);
      if NothingPending(s', p) {
        forall u | 0 <= u < |s.threads| ensures !(s.threads[u].pc.PutCache? && s.threads[u].path == p) {
          if u != t { assert s'.threads[u] == s.threads[u]; }
        }
      }
    }
  }

  lemma AgreePut(s: State, t: Tid)
    requires FlightInv(s) && AgreeInv(s) && t < |s.threads| && s.threads[t].pc.PutCache?
    ensures AgreeInv(DoPutCache(s, t))
  {
    var s', th := DoPutCache(s, t), s.threads[t];
    assert PendingOk(s, th);
    forall u | 0 <= u < |s'.threads| ensures PendingOk(s', s'.threads[u]) { assert PendingOk(s, s.threads[u]); }
    forall p | Cacheable(p) ensures AgreesOn(s', p) {
      assert AgreesOn(s, p);
      if p != th.path && NothingPending(s', p) {
        assert forall u :: 0 <= u < |s.threads| && u != t ==> s'.threads[u] == s.threads[u];
        assert NothingPending(s, p);
      }
    }
  }

  /** What a GET leaves behind: its reply, and its body pending if it is good and the path is cached. */
  lemma GetFrame(s: State, t: Tid, reply: Reply)
    requires Enabled(s, t, reply) && (s.threads[t].pc.FirstGet? || s.threads[t].pc.SecondGet?)
    ensures var s', th := Advance(s, t, reply), s.threads[t]; var th' := s'.threads[t];
      && s'.cache == s.cache
      && s'.heard == s.heard + [Heard(th.path, t, reply)]
      && (if th.lead.Some? && IsGood(reply) then th'.pc == PutCache(reply.body) else !th'.pc.PutCache?)
  {}

  lemma AgreeGet(s: State, t: Tid, reply: Reply)
    requires FlightInv(s) && AgreeInv(s) && Enabled(s, t, reply)
    requires s.threads[t].pc.FirstGet? || s.threads[t].pc.SecondGet?
    ensures AgreeInv(Advance(s, t, reply))
  {
    var s', th := Advance(s, t, reply), s.threads[t];
    OthersStay(s, t, reply);
    GetFrame(s, t, reply);
    assert ThreadOk(s, t);
    forall u | 0 <= u < |s'.threads| ensures PendingOk(s', s'.threads[u]) {
      assert PendingOk(s, s.threads[u]);
      LastFetchAppend(s.heard, Heard(th.path, t, reply), s'.threads[u].path);
      if IsGood(reply) {
        if u != t && s.threads[u].pc.PutCache? && s.threads[u].path == th.path {
          assert ThreadOk(s, u);
          OneLeader(s, t, u);
        }
      }
    }
    forall p | Cacheable(p) ensures AgreesOn(s', p) {
      assert AgreesOn(s, p);
      if NothingPending(s', p) {
        assert !(s'.threads[t].pc.PutCache? && s'.threads[t].path == p);
        forall u | 0 <= u < |s.threads| ensures !(s.threads[u].pc.PutCache? && s.threads[u].path == p) {
          if u != t { assert s'.threads[u] == s.threads[u]; }
        }
        LastFetchAppend(s.heard, Heard(th.path, t, reply), p);
      }
    }
  }

  // --- where outcomes come from -------------------------------------------------

  ghost predicate ViaOk(s: State, th: Thread, res: Outcome, via: Via) {
    match via
    case Direct => !Cacheable(th.path) && th.answer == Some(res)
    case Waited(_) => th.answer == None
    case Own => res.Success? && th.answer == Some(res)
    case Hit(e, time) =>
      && th.answer == None
      && res == Success(e.body) && Copy(th.path, e) in s.stored && time <= s.now && 0 <= time - e.at <= CACHE_TTL
    case Fallback(err, e, time) =>
      && th.answer == Some(Failure(err))
      && res == Success(e.body) && Copy(th.path, e) in s.stored && time <= s.now && 0 <= time - e.at <= STALE_TTL
    case Failed(err, time, known) =>
      && th.answer == Some(Failure(err))
      && res == Failure(err) && known <= |s.stored| && time <= s.now
      && forall k :: 0 <= k < |s.stored| && s.stored[k].path == th.path ==>
           if k < known then time - s.stored[k].entry.at > STALE_TTL else s.stored[k].entry.at >= time
  }

  /** What `fetchOnce` returned to thread `u`, where it returned a body, is the body of a GET of its own. */
  ghost predicate OwnFetch(s: State, u: Tid, th: Thread) {
    th.answer.Some? && th.answer.value.Success? ==> Fetch(th.path, th.answer.value.value, u) in s.heard
  }

  ghost predicate PcSource(s: State, th: Thread) {
    match th.pc
    case PutCache(body) => th.answer == Some(Success(body))
    case ReadStale(err) => th.answer == Some(Failure(err))
    case Publish(res, via) => ViaOk(s, th, res, via)
    case Unlist(res, via) => ViaOk(s, th, res, via)
    case Close(res, via) => ViaOk(s, th, res, via)
    case Done(res, via) => ViaOk(s, th, res, via)
    case _ => th.answer == None
  }

  ghost predicate SourceOk(s: State, u: Tid, th: Thread) {
    OwnFetch(s, u, th) && PcSource(s, th)
  }

  ghost predicate SourceInv(s: State) {
    forall u :: 0 <= u < |s.threads| ==> SourceOk(s, u, s.threads[u])
  }

  lemma SourceKept(s: State, s': State, u: Tid, th: Thread)
    requires Later(s, s') && s.heard <= s'.heard && SourceOk(s, u, th)
    ensures SourceOk(s', u, th)
  {}

  lemma FetchedGrows(s: State, step: Step)
    requires CanTake(s, step)
    ensures s.heard <= Take(s, step).heard
  {
    if step.Run? {
      var pc := s.threads[step.t].pc;
      if pc.FirstGet? || pc.SecondGet? { GetFrame(s, step.t, step.reply); }
      else if !pc.PutCache? { CacheFrame(s, step.t, step.reply); }
    }
  }

  lemma SourceStep(s: State, step: Step)
    requires FlightInv(s) && StoredInv(s) && SourceInv(s) && CanTake(s, step)
    ensures SourceInv(Take(s, step))
  {
    var s' := Take(s, step);
    StoredStep(s, step);
    FetchedGrows(s, step);
    if step.Run? { OthersStay(s, step.t, step.reply); }
    forall u | 0 <= u < |s'.threads| ensures SourceOk(s', u, s'.threads[u]) {
      if u < |s.threads| { SourceKept(s, s', u, s.threads[u]); }
      if step.Run? && u == step.t { SourceMover(s, u, step.reply); }
    }
  }

  lemma SourceMover(s: State, t: Tid, reply: Reply)
    requires FlightInv(s) && StoredInv(s) && Enabled(s, t, reply)
    requires SourceOk(s, t, s.threads[t]) && SourceOk(Advance(s, t, reply), t, s.threads[t])
    ensures SourceOk(Advance(s, t, reply), t, Advance(s, t, reply).threads[t])
  {
    var pc := s.threads[t].pc;
    assert ThreadOk(s, t);
    if pc.CheckCache? || pc.ReadStale? { SourceCache(s, t, reply); }
    else if pc.Publish? || pc.Unlist? || pc.Close? { SourceLeadDone(s, t, reply); }
    else if pc.FirstGet? || pc.SecondGet? || pc.Compare? || pc.Renew? { SourceFetched(s, t, reply); }
    else { SourceMoved(s, t, reply); }
  }

  lemma SourceMoved(s: State, t: Tid, reply: Reply)
    requires Enabled(s, t, reply) && SourceOk(Advance(s, t, reply), t, s.threads[t])
    requires var pc := s.threads[t].pc; pc.Join? || pc.Wait? || pc.ReadToken? || pc.ReloadToken? || pc.PutCache?
    ensures SourceOk(Advance(s, t, reply), t, Advance(s, t, reply).threads[t])
  {}

  lemma SourceFetched(s: State, t: Tid, reply: Reply)
    requires Enabled(s, t, reply) && ThreadOk(s, t) && SourceOk(Advance(s, t, reply), t, s.threads[t])
    requires var pc := s.threads[t].pc; pc.FirstGet? || pc.SecondGet? || pc.Compare? || pc.Renew?
    ensures SourceOk(Advance(s, t, reply), t, Advance(s, t, reply).threads[t])
  {
    if s.threads[t].pc.Renew? { SourceRenewed(s, t, reply); }
    else if s.threads[t].pc.Compare? { SourceCompared(s, t, reply); }
    else { SourceGot(s, t, reply); }
  }

  lemma SourceRenewed(s: State, t: Tid, reply: Reply)
    requires Enabled(s, t, reply) && ThreadOk(s, t) && s.threads[t].pc.Renew?
    requires SourceOk(DoRenew(s, t, reply), t, s.threads[t])
    ensures SourceOk(DoRenew(s, t, reply), t, DoRenew(s, t, reply).threads[t])
  {
    RenewPc(s, t, reply);
  }

  lemma SourceCompared(s: State, t: Tid, reply: Reply)
    requires Enabled(s, t, reply) && ThreadOk(s, t) && s.threads[t].pc.Compare?
    requires SourceOk(DoCompare(s, t), t, s.threads[t])
    ensures SourceOk(DoCompare(s, t), t, DoCompare(s, t).threads[t])
  {}

  lemma SourceGot(s: State, t: Tid, reply: Reply)
    requires Enabled(s, t, reply) && ThreadOk(s, t)
    requires s.threads[t].pc.FirstGet? || s.threads[t].pc.SecondGet?
    requires SourceOk(DoGet(s, t, reply), t, s.threads[t])
    ensures SourceOk(DoGet(s, t, reply), t, DoGet(s, t, reply).threads[t])
  {}

  lemma SourceLeadDone(s: State, t: Tid, reply: Reply)
    requires Enabled(s, t, reply) && SourceOk(Advance(s, t, reply), t, s.threads[t])
    requires var pc := s.threads[t].pc; pc.Publish? || pc.Unlist? || pc.Close?
    ensures SourceOk(Advance(s, t, reply), t, Advance(s, t, reply).threads[t])
  {}

  lemma SourceCache(s: State, t: Tid, reply: Reply)
    requires StoredInv(s) && Enabled(s, t, reply) && SourceOk(s, t, s.threads[t])
    requires s.threads[t].pc.CheckCache? || s.threads[t].pc.ReadStale?
    ensures SourceOk(Advance(s, t, reply), t, Advance(s, t, reply).threads[t])
  {
    var path := s.threads[t].path;
    assert Known(s.cache, path) == LastCopy(s.stored, path);
    LastCopyIsNewest(s.stored, path);
    if path in s.cache {
      var k :| 0 <= k < |s.stored| && s.stored[k] == Copy(path, s.cache[path]);
    }
  }
}
