/** What holds in every reachable state of the protocol, over every interleaving. */
module GetTheorems {
  import opened Wrappers
  import opened Session
  import opened Protocol
  import opened SingleFlight
  import opened TokenChain
  import opened CacheHistory
  import opened CacheWindow
  import opened ReplyHistory

  ghost predicate Inv(s: State) {
    && MutexInv(s) && FlightInv(s)
    && ChainInv(s) && RequestsInv(s)
    && StoredInv(s) && AgreeInv(s) && SourceInv(s) && WindowInv(s) && RepliesInv(s)
  }

  lemma InvStep(s: State, step: Step)
    requires Inv(s) && CanTake(s, step)
    ensures Inv(Take(s, step))
  {
    MutexStep(s, step);
    FlightStep(s, step);
    ChainStep(s, step);
    RequestsStep(s, step);
    StoredStep(s, step);
    AgreeStep(s, step);
    SourceStep(s, step);
    WindowStep(s, step);
    RepliesStep(s, step);
  }

  lemma {:induction false} InvRun(s: State, steps: seq<Step>, s': State)
    requires Inv(s) && RunsTo(s, steps, s')
    ensures Inv(s')
    decreases |steps|
  {
    if steps != [] {
      InvStep(s, steps[0]);
      InvRun(Take(s, steps[0]), steps[1..], s');
    }
  }

  lemma ReachableInv(s: State)
    requires Reachable(s)
    ensures Inv(s)
  {
    var s0, steps :| Initial(s0) && RunsTo(s0, steps, s);
    InvRun(s0, steps, s);
  }

  // --- single flight --------------------------------------------------------------

  /** At most one thread leads a path between entering the table and leaving it. */
  lemma AtMostOneLeader(s: State, u: Tid, v: Tid)
    requires Reachable(s) && u < |s.threads| && v < |s.threads|
    requires s.threads[u].lead.Some? && Leading(s.threads[u].pc)
    requires s.threads[v].lead.Some? && Leading(s.threads[v].pc)
    requires s.threads[u].path == s.threads[v].path
    ensures u == v
  {
    ReachableInv(s);
    OneLeader(s, u, v);
  }

  /** A cached path is asked of the server by one thread at a time. */
  lemma OneFetchInFlight(s: State, u: Tid, v: Tid)
    requires Reachable(s) && u < |s.threads| && v < |s.threads|
    requires s.threads[u].path == s.threads[v].path && Cacheable(s.threads[u].path)
    requires s.threads[u].pc.FirstGet? || s.threads[u].pc.SecondGet?
    requires s.threads[v].pc.FirstGet? || s.threads[v].pc.SecondGet?
    ensures u == v
  {
    ReachableInv(s);
    assert ThreadOk(s, u) && ThreadOk(s, v);
    OneLeader(s, u, v);
  }

  /** Every call is written once and closed once, by its leader, and written before it is closed. */
  lemma PublishedOnce(s: State, id: CallId)
    requires Reachable(s) && id < |s.calls|
    ensures s.calls[id].leader < |s.threads|
    ensures s.calls[id].closes <= s.calls[id].writes <= 1
    ensures s.calls[id].result.Some? <==> s.calls[id].writes == 1
    ensures s.calls[id].closed <==> s.calls[id].closes == 1
    // exactly once: the leader is done when the call is closed, and past the write when it is written
    ensures s.calls[id].closes == 1 <==> s.threads[s.calls[id].leader].pc.Done?
    ensures s.calls[id].writes == 1 <==> Written(s.threads[s.calls[id].leader].pc).Some?
    ensures s.calls[id].result == Written(s.threads[s.calls[id].leader].pc)
  {
    ReachableInv(s);
    assert CallOk(s, id);
    assert ThreadOk(s, s.calls[id].leader);
  }

  /** A call changes only by a step of the thread that leads it. */
  lemma OnlyItsLeaderWrites(s: State, step: Step, id: CallId)
    requires Reachable(s) && CanTake(s, step) && id < |s.calls|
    ensures id < |Take(s, step).calls|
    ensures Take(s, step).calls[id] != s.calls[id] ==> step.Run? && step.t == s.calls[id].leader
  {
    ReachableInv(s);
    if step.Run? {
      assert ThreadOk(s, step.t);
      var pc := s.threads[step.t].pc;
      if Quiet(pc) { QuietFrame(s, step.t, step.reply); }
    }
  }

  /** A joined caller returns what its leader published and returned itself. */
  lemma WaiterGetsItsLeadersOutcome(s: State, t: Tid)
    requires Reachable(s) && t < |s.threads|
    requires s.threads[t].pc.Done? && s.threads[t].pc.via.Waited?
    ensures var c := s.threads[t].pc.via.call;
      && c < |s.calls| && s.calls[c].closed && s.calls[c].path == s.threads[t].path
      && s.calls[c].result == Some(s.threads[t].pc.res)
      && s.calls[c].leader < |s.threads|
      && s.threads[s.calls[c].leader].pc.Done? && s.threads[s.calls[c].leader].pc.res == s.threads[t].pc.res
      && !s.threads[s.calls[c].leader].pc.via.Waited?
  {
    ReachableInv(s);
    assert ThreadOk(s, t);
    var c := s.threads[t].pc.via.call;
    assert CallOk(s, c);
    var u := s.calls[c].leader;
    assert ThreadOk(s, u);
  }

  /** A waiter's call is closed, or a live leader still has to close it. */
  lemma NoStrandedWaiter(s: State, t: Tid)
    requires Reachable(s) && t < |s.threads| && s.threads[t].pc.Wait?
    ensures var c := s.threads[t].pc.call;
      && c < |s.calls|
      && (s.calls[c].closed ||
          (s.calls[c].leader < |s.threads| && s.threads[s.calls[c].leader].lead == Some(c)
           && (Leading(s.threads[s.calls[c].leader].pc) || s.threads[s.calls[c].leader].pc.Close?)))
  {
    ReachableInv(s);
    assert ThreadOk(s, t);
    assert CallOk(s, s.threads[t].pc.call);
    assert ThreadOk(s, s.calls[s.threads[t].pc.call].leader);
  }

  // --- token renewal --------------------------------------------------------------

  /** The server hands out every token once; an empty refresh token means there is none. */
  ghost predicate NeverReissued(s: State) {
    forall i, j :: 0 <= i < j < |s.issued| ==>
      s.issued[i].access != s.issued[j].access
        && (s.issued[i].refresh != s.issued[j].refresh || s.issued[i].refresh == "")
  }

  /** Each grant spent the partner of the token it replaced, and the grants follow one another. */
  lemma GrantsFormAChain(s: State)
    requires Reachable(s)
    ensures |s.issued| == |s.exchanges| + 1
    ensures forall i :: 0 <= i < |s.exchanges| ==>
              s.exchanges[i].used == s.issued[i].access && s.exchanges[i].spent == s.issued[i].refresh != ""
    ensures s.renewing == None ==> s.issued[|s.issued| - 1] == TokenPair(s.access, s.refresh)
  {
    ReachableInv(s);
  }

  /**
    The refresh token about to be sent, whether the grant will succeed or fail, is the partner
    of the access token that failed, and both are the last pair the server issued.
   */
  lemma GrantsSendThePartner(s: State, t: Tid)
    requires Reachable(s) && t < |s.threads| && s.threads[t].pc.Renew? && s.threads[t].pc.block.Grant?
    ensures var pc := s.threads[t].pc;
      && |s.issued| > 0 && s.issued[|s.issued| - 1] == TokenPair(pc.used, pc.block.spent)
      && pc.block.spent != ""
      && s.access == pc.used && s.refresh == pc.block.spent
  {
    ReachableInv(s);
    assert RenewalOk(s, s.threads[t].pc);
    assert InSection(s.threads[t].pc) <==> s.renewing == Some(t);
  }

  /** However many requests meet the same 401, a token is replaced once and a refresh token spent once. */
  lemma RenewalHappensOnce(s: State, i: nat, j: nat)
    requires Reachable(s) && NeverReissued(s)
    requires i < |s.exchanges| && j < |s.exchanges|
    requires s.exchanges[i].used == s.exchanges[j].used || s.exchanges[i].spent == s.exchanges[j].spent
    ensures i == j
  {
    ReachableInv(s);
  }

  /** At most two GETs and two renewals, none for an outcome taken from the cache or from a leader. */
  lemma RequestBounds(s: State, t: Tid)
    requires Reachable(s) && t < |s.threads|
    ensures s.threads[t].gets <= 2 && s.threads[t].renewals <= 2
    ensures s.threads[t].pc.Done? && (s.threads[t].pc.via.Hit? || s.threads[t].pc.via.Waited?) ==>
              s.threads[t].gets == 0 && s.threads[t].renewals == 0
  {
    ReachableInv(s);
    assert RequestOk(s, s.threads[t]);
  }

  /** The retry after a 401 uses a token from a later link of the chain. */
  lemma RetryUsesANewerToken(s: State, t: Tid)
    requires Reachable(s) && t < |s.threads| && s.threads[t].pc.SecondGet?
    ensures s.threads[t].pc.tok != s.threads[t].pc.failed
    ensures Newer(s, s.threads[t].pc.failed, s.threads[t].pc.tok)
  {
    ReachableInv(s);
    assert RequestOk(s, s.threads[t]);
  }

  // --- cache ----------------------------------------------------------------------

  /** With no leader about to store, the copy of a cached path is the body of its latest successful fetch. */
  lemma CacheAgreesWithServer(s: State, path: Path)
    requires Reachable(s) && Cacheable(path) && NothingPending(s, path)
    ensures path in s.cache <==> LastFetch(s.heard, path).Some?
    ensures path in s.cache ==> LastFetch(s.heard, path) == Some(s.cache[path].body)
  {
    ReachableInv(s);
    assert AgreesOn(s, path);
  }

  /** A newer body is pending only in the hands of the one leader of its path. */
  lemma PendingCopyIsTheLatestFetch(s: State, t: Tid)
    requires Reachable(s) && t < |s.threads| && s.threads[t].pc.PutCache?
    ensures LastFetch(s.heard, s.threads[t].path) == Some(s.threads[t].pc.body)
    ensures forall u :: 0 <= u < |s.threads| && s.threads[u].pc.PutCache? && s.threads[u].path == s.threads[t].path ==>
      u == t
  {
    ReachableInv(s);
    assert PendingOk(s, s.threads[t]) && ThreadOk(s, t);
    forall u | 0 <= u < |s.threads| && s.threads[u].pc.PutCache? && s.threads[u].path == s.threads[t].path
      ensures u == t
    {
      assert ThreadOk(s, u);
      OneLeader(s, t, u);
    }
  }

  /** A step never removes a copy or makes it older. */
  lemma CopiesNeverGoBack(s: State, step: Step, path: Path)
    requires Reachable(s) && CanTake(s, step) && path in s.cache
    ensures path in Take(s, step).cache && s.cache[path].at <= Take(s, step).cache[path].at <= Take(s, step).now
  {
    ReachableInv(s);
    InvStep(s, step);
    var s' := Take(s, step);
    StoredStep(s, step);
    assert Known(s.cache, path) == LastCopy(s.stored, path);
    assert Known(s'.cache, path) == LastCopy(s'.stored, path);
    LastCopyIsNewest(s.stored, path);
    LastCopyIsNewest(s'.stored, path);
    var k :| 0 <= k < |s.stored| && s.stored[k] == Copy(path, s.cache[path]);
    assert s'.stored[k] == s.stored[k];
  }

  lemma UncachedPathsNeverTouchTheCache(s: State, path: Path)
    requires Reachable(s) && !Cacheable(path)
    ensures path !in s.cache && path !in s.inflight
    ensures forall k :: 0 <= k < |s.stored| ==> s.stored[k].path != path
    ensures forall id :: 0 <= id < |s.calls| ==> s.calls[id].path != path
  {
    ReachableInv(s);
    assert Known(s.cache, path) == LastCopy(s.stored, path);
    LastCopyIsNewest(s.stored, path);
    forall id | 0 <= id < |s.calls| ensures s.calls[id].path != path {
      assert CallOk(s, id);
      assert ThreadOk(s, s.calls[id].leader);
    }
  }

  /** A copy of the path at most a minute old is stored. */
  predicate HasFreshCopy(s: State, path: Path) {
    path in s.cache && s.now - s.cache[path].at <= 60
  }

  // --- fetching although there is a copy ----------------------------------------------

  /**
    One fetch per time to live, with its exact exception: a GET of a cached path is on the wire
    while a fresh copy exists exactly when a copy still fresh was stored between the cache
    check of this request and its taking the lead.
   */
  lemma FetchesDespiteAFreshCopyIff(s: State, t: Tid)
    requires Reachable(s) && t < |s.threads| && Cacheable(s.threads[t].path)
    requires s.threads[t].pc.FirstGet? || s.threads[t].pc.SecondGet?
    ensures var th := s.threads[t];
      && th.checked <= th.joined <= |s.stored|
      && (HasFreshCopy(s, th.path) <==>
            exists k :: th.checked <= k < th.joined && s.stored[k].path == th.path
                        && s.now - s.stored[k].entry.at <= 60)
  {
    ReachableInv(s);
    var th := s.threads[t];
    assert ThreadOk(s, t) && WindowOk(s, th);
    assert Known(s.cache, th.path) == LastCopy(s.stored, th.path);
    LastCopyIsNewest(s.stored, th.path);
    if HasFreshCopy(s, th.path) {
      var k :| 0 <= k < |s.stored| && s.stored[k] == Copy(th.path, s.cache[th.path]);
      assert th.checked <= k < th.joined;
    }
  }

  /** Every copy of the path stored before the check is older than the time to live. */
  lemma TheCheckSawNoFreshCopy(s: State, t: Tid, k: nat)
    requires Reachable(s) && t < |s.threads| && k < |s.stored| && s.stored[k].path == s.threads[t].path
    ensures s.now - s.stored[k].entry.at <= 60 ==> s.threads[t].checked <= k
  {
    ReachableInv(s);
    assert WindowOk(s, s.threads[t]);
  }

  /** The other half: a check that finds a fresh copy ends the request, without a GET. */
  lemma AFreshCopyEndsTheRequest(s: State, t: Tid)
    requires Reachable(s) && t < |s.threads| && s.threads[t].pc.CheckCache?
    ensures var th' := Advance(s, t, NoReply).threads[t];
      HasFreshCopy(s, s.threads[t].path) <==> th'.pc.Done? && th'.gets == 0
  {
    ReachableInv(s);
    assert RequestOk(s, s.threads[t]);
  }

  // --- where outcomes come from -------------------------------------------------------

  /**
    The fetch of thread `u` returned `res`, by the replies it got: the body of its last reply,
    which is good; the error its last reply stands for; or 401 where its token could not be
    renewed before it asked.
   */
  ghost predicate FetchReturned(s: State, u: Tid, res: Outcome)
    requires u < |s.threads|
  {
    var rs := RepliesOf(s.heard, u);
    && s.threads[u].answer == Some(res)
    && (|rs| == 2 ==> Unauthorized(rs[0]))
    && match res
       case Success(body) =>
         Fetch(s.threads[u].path, body, u) in s.heard && rs != [] && rs[|rs| - 1] == GetAnswered(200, body, true)
       case Failure(err) => if rs == [] then err.status == 401 else Says(rs[|rs| - 1], err)
  }

  /** What a finished request that did not wait may have returned. */
  ghost predicate Explained(s: State, u: Tid)
    requires u < |s.threads| && s.threads[u].pc.Done?
  {
    var path, res := s.threads[u].path, s.threads[u].pc.res;
    match s.threads[u].pc.via
    // not a cached path: whatever its fetch returned
    case Direct => !Cacheable(path) && FetchReturned(s, u, res)
    // a copy at most a minute old when it was read, and no fetch
    case Hit(e, time) =>
      && s.threads[u].answer == None
      && Copy(path, e) in s.stored && res == Success(e.body) && 0 <= time - e.at <= 60
    // the body its fetch returned
    case Own => res.Success? && FetchReturned(s, u, res)
    // its fetch failed and a copy at most half an hour old stands in
    case Fallback(err, e, time) =>
      && FetchReturned(s, u, Failure(err))
      && Copy(path, e) in s.stored && res == Success(e.body) && 0 <= time - e.at <= 1800
    // its fetch failed with this error, every copy there was is older, the others came later
    case Failed(err, time, known) =>
      && FetchReturned(s, u, Failure(err)) && res == Failure(err)
      && forall k :: 0 <= k < |s.stored| && s.stored[k].path == path ==>
           if k < known then time - s.stored[k].entry.at > 1800 else s.stored[k].entry.at >= time
    case Waited(_) => false
  }

  lemma EveryOutcomeIsExplained(s: State, t: Tid)
    requires Reachable(s) && t < |s.threads| && s.threads[t].pc.Done?
    ensures var th := s.threads[t];
      if th.pc.via.Waited? then
        var c := th.pc.via.call;
        && th.answer == None
        && c < |s.calls| && s.calls[c].leader < |s.threads|
        && s.threads[s.calls[c].leader].pc.Done? && s.threads[s.calls[c].leader].pc.res == th.pc.res
        && s.threads[s.calls[c].leader].path == th.path
        && Explained(s, s.calls[c].leader)
      else Explained(s, t)
  {
    ReachableInv(s);
    var th := s.threads[t];
    assert SourceOk(s, t, th) && RepliesOk(s, t, th);
    if th.pc.via.Waited? {
      WaiterGetsItsLeadersOutcome(s, t);
      var u := s.calls[th.pc.via.call].leader;
      assert CallOk(s, th.pc.via.call);
      assert ThreadOk(s, u) && SourceOk(s, u, s.threads[u]) && RepliesOk(s, u, s.threads[u]);
    }
  }

  /**
    A request that did not wait returns an error exactly when its last reply, if it got any, is
    not good and no copy stood in; the error is the one that reply stands for.
   */
  lemma ErrorsComeFromFailedFetches(s: State, t: Tid)
    requires Reachable(s) && t < |s.threads| && s.threads[t].pc.Done? && !s.threads[t].pc.via.Waited?
    ensures var rs, pc := RepliesOf(s.heard, t), s.threads[t].pc;
      && (pc.res.Failure? <==> !pc.via.Hit? && !pc.via.Fallback? && (rs == [] || !IsGood(rs[|rs| - 1])))
      && (pc.res.Failure? ==> if rs == [] then pc.res.error.status == 401 else Says(rs[|rs| - 1], pc.res.error))
  {
    EveryOutcomeIsExplained(s, t);
  }

  /** In every reachable state, what a GET comes to is read off its reply. */
  lemma RepliesMeanWhatTheySay(s: State, t: Tid, reply: Reply)
    requires Reachable(s) && Enabled(s, t, reply)
    requires s.threads[t].pc.FirstGet? || s.threads[t].pc.SecondGet?
    ensures var th, th' := s.threads[t], Advance(s, t, reply).threads[t];
      && (forall body :: th'.answer == Some(Success(body)) <==> reply == GetAnswered(200, body, true))
      && (th'.answer == None <==> th.pc.FirstGet? && Unauthorized(reply))
      && (th'.answer == None ==> th'.pc == Renew(Acquire, th.pc.tok, false))
      && (forall err :: th'.answer == Some(Failure(err)) <==>
            Says(reply, err) && !(th.pc.FirstGet? && Unauthorized(reply)))
  {
    ReachableInv(s);
    assert SourceOk(s, t, s.threads[t]);
    GetMeansItsReply(s, t, reply);
  }

  // --- when a token is renewed ----------------------------------------------------------

  /** Before its first GET a request renews a token with less than a minute to live, and no other. */
  lemma RenewsInTheLastMinute(s: State, t: Tid)
    requires Enabled(s, t, NoReply) && s.threads[t].pc.ReadToken?
    ensures var pc := Advance(s, t, NoReply).threads[t].pc;
      if s.expiresAt.Some? && s.expiresAt.value - s.now < 60 then pc == Renew(Acquire, s.access, true)
      else pc == FirstGet(s.access)
  {
  }

  /**
    Inside the mutex, a grant follows only for the token still in use and only with a refresh
    token; another token is taken as renewed.
   */
  lemma RenewsOnlyTheTokenInUse(s: State, t: Tid)
    requires Enabled(s, t, NoReply) && s.threads[t].pc.Renew?
    ensures var pc, pc' := s.threads[t].pc, Advance(s, t, NoReply).threads[t].pc;
      && (pc.block == Check ==> pc' == pc.(block := if s.access == pc.used then ReadRefresh else Release(true)))
      && (pc.block == ReadRefresh ==>
            pc' == pc.(block := if s.refresh == "" then Release(false) else Grant(s.refresh)))
  {
  }

  /** A granted pair replaces the one in use, with the lifetime stated counted from now, if one is. */
  lemma StoresWhatWasGranted(s: State, t: Tid)
    requires Enabled(s, t, NoReply) && s.threads[t].pc.Renew? && s.threads[t].pc.block.StoreTokens?
    ensures var block, next := s.threads[t].pc.block, Advance(s, t, NoReply);
      && next.access == block.pair.access && next.refresh == block.pair.refresh
      && (block.expiresIn > 0 ==> next.expiresAt == Some(s.now + block.expiresIn))
      && (block.expiresIn <= 0 ==> next.expiresAt == None)
  {
  }

  /** A renewal that fails is a 401 of the request; one that succeeds goes on with the token then in use. */
  lemma GoesOnWithTheNewToken(s: State, t: Tid, ok: bool)
    requires Enabled(s, t, NoReply) && s.threads[t].pc.Renew? && s.threads[t].pc.block == Release(ok)
    ensures var pc, next := s.threads[t].pc, Advance(s, t, NoReply);
      && next.renewing == None
      && (!ok ==> next.threads[t].answer == Some(Failure(ApiError(401))))
      && (ok && !pc.early ==> next.threads[t].pc == Compare(pc.used))
      && (ok && pc.early ==>
            Enabled(next, t, NoReply) && Advance(next, t, NoReply).threads[t].pc == FirstGet(next.access))
  {
  }

  /** What is fetched is stored as of now, and no other copy is touched. */
  lemma StoresTheCopyAsOfNow(s: State, t: Tid)
    requires Enabled(s, t, NoReply) && s.threads[t].pc.PutCache?
    ensures Advance(s, t, NoReply).cache == s.cache[s.threads[t].path := CacheEntry(s.now, s.threads[t].pc.body)]
  {
  }

  /** After a 401 and a renewal there is a retry exactly when the token is another one. */
  lemma RetriesWithAnotherToken(s: State, t: Tid)
    requires Enabled(s, t, NoReply) && s.threads[t].pc.Compare?
    ensures var th, th' := s.threads[t], Advance(s, t, NoReply).threads[t];
      if s.access != th.pc.tok then th'.pc == SecondGet(th.pc.tok, s.access)
      else th'.answer == Some(Failure(ApiError(401)))
  {
  }

  /** Jobs and infrastructure are cached, sessions never. */
  lemma CachedPaths(rest: string)
    ensures Cacheable("v1/jobs" + rest) && Cacheable("v1/backupInfrastructure/" + rest)
    ensures !Cacheable("v1/sessions" + rest) && !Cacheable("")
  {
    assert ("v1/sessions" + rest)[3] == 's' && "v1/jobs"[3] == 'j' && "v1/backupInfrastructure/"[3] == 'b';
    assert "v1/jobs" <= "v1/jobs" + rest && "v1/backupInfrastructure/" <= "v1/backupInfrastructure/" + rest;
  }
}
