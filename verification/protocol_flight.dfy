/**
  Single flight: at most one fetch per path is in progress, and every caller that joined it
  gets what its leader published.
 */
module SingleFlight {
  import opened Wrappers
  import opened Session
  import opened Protocol

  // --- the renewal mutex --------------------------------------------------------

  predicate InSection(pc: Pc) {
    pc.Renew? && pc.block != Acquire
  }

  /** The mutex is held exactly by the thread inside the section. */
  predicate MutexInv(s: State) {
    && (s.renewing.Some? ==> s.renewing.value < |s.threads|)
    && forall u :: 0 <= u < |s.threads| ==> (InSection(s.threads[u].pc) <==> s.renewing == Some(u))
  }

  lemma MutexStep(s: State, step: Step)
    requires MutexInv(s) && CanTake(s, step)
    ensures MutexInv(Take(s, step))
  {
    if step.Run? {
      var t, s' := step.t, Take(s, step);
      OthersStay(s, t, step.reply);
      if s.threads[t].pc.Renew? { MutexRenew(s, t, step.reply); } else { MutexOther(s, t, step.reply); }
      forall u | 0 <= u < |s'.threads| ensures InSection(s'.threads[u].pc) <==> s'.renewing == Some(u) {
        assert InSection(s.threads[u].pc) <==> s.renewing == Some(u);
      }
    }
  }

  /** A step moves one thread, and no step changes a thread's path. */
  lemma OthersStay(s: State, t: Tid, reply: Reply)
    requires Enabled(s, t, reply)
    ensures var s' := Advance(s, t, reply);
      && |s'.threads| == |s.threads| && s'.now == s.now
      && s'.threads[t].path == s.threads[t].path
      && forall u :: 0 <= u < |s.threads| && u != t ==> s'.threads[u] == s.threads[u]
  {
    if s.threads[t].pc.Renew? { RenewFrame(s, t, reply); }
  }

  lemma MutexRenew(s: State, t: Tid, reply: Reply)
    requires MutexInv(s) && Enabled(s, t, reply) && s.threads[t].pc.Renew?
    ensures var s' := Advance(s, t, reply);
      && (InSection(s'.threads[t].pc) <==> s'.renewing == Some(t))
      && (s'.renewing == s.renewing || {s.renewing, s'.renewing} == {None, Some(t)})
  {
    assert InSection(s.threads[t].pc) <==> s.renewing == Some(t);
  }

  lemma MutexOther(s: State, t: Tid, reply: Reply)
    requires Enabled(s, t, reply) && !s.threads[t].pc.Renew?
    ensures var s' := Advance(s, t, reply);
      s'.renewing == s.renewing && !InSection(s'.threads[t].pc)
  {
    var pc := s.threads[t].pc;
    if pc.FirstGet? || pc.SecondGet? { MutexGet(s, t, reply); }
    else if pc.Publish? || pc.Unlist? || pc.Close? { MutexLeadDone(s, t, reply); }
  }

  lemma MutexGet(s: State, t: Tid, reply: Reply)
    requires t < |s.threads| && (reply == GetFailed || reply.GetAnswered?)
    ensures var s' := DoGet(s, t, reply);
      s'.renewing == s.renewing && !InSection(s'.threads[t].pc)
  {}

  lemma MutexLeadDone(s: State, t: Tid, reply: Reply)
    requires Enabled(s, t, reply)
    requires var pc := s.threads[t].pc; pc.Publish? || pc.Unlist? || pc.Close?
    ensures var s' := DoLeadDone(s, t, reply);
      s'.renewing == s.renewing && !InSection(s'.threads[t].pc)
  {}

  // --- the in-flight table ------------------------------------------------------

  /** A leader's program counters between `joinOrLead` and the deletion in `leadDone`. */
  predicate Leading(pc: Pc) {
    match pc
    case CheckCache | Join | Wait(_) | Close(_, _) | Done(_, _) => false
    case _ => true
  }

  /** What a leader has written into its call. */
  function Written(pc: Pc): Option<Outcome> {
    match pc
    case Unlist(res, _) => Some(res)
    case Close(res, _) => Some(res)
    case Done(res, _) => Some(res)
    case _ => None
  }

  /** A leader's outcome is its fetch's, or what stands in for it. */
  predicate LeadersOwn(via: Via) {
    via.Own? || via.Fallback? || via.Failed?
  }

  predicate LeadersVia(pc: Pc) {
    match pc
    case Publish(_, via) => LeadersOwn(via)
    case Unlist(_, via) => LeadersOwn(via)
    case Close(_, via) => LeadersOwn(via)
    case Done(_, via) => LeadersOwn(via)
    case _ => true
  }

  predicate LeaderOk(s: State, u: Tid, id: CallId)
    requires u < |s.threads|
  {
    var th := s.threads[u];
    && id < |s.calls|
    && Cacheable(th.path)
    && (Leading(th.pc) || th.pc.Close? || th.pc.Done?) && LeadersVia(th.pc)
    && (Leading(th.pc) ==> th.path in s.inflight && s.inflight[th.path] == id)
    && var c := s.calls[id];
       && c.leader == u && c.path == th.path
       && c.result == Written(th.pc)
       && c.writes == (if Written(th.pc).Some? then 1 else 0)
       && c.closes == (if th.pc.Done? then 1 else 0)
       && c.closed == th.pc.Done?
  }

  predicate FollowerOk(s: State, u: Tid)
    requires u < |s.threads|
  {
    var th := s.threads[u];
    match th.pc
    case CheckCache | Join => Cacheable(th.path)
    case Wait(c) => Cacheable(th.path) && c < |s.calls| && s.calls[c].path == th.path
    case Done(res, Waited(c)) =>
      && Cacheable(th.path) && c < |s.calls| && s.calls[c].path == th.path
      && s.calls[c].closed && s.calls[c].result == Some(res)
    case Done(_, via) => (via.Hit? && Cacheable(th.path)) || (via.Direct? && !Cacheable(th.path))
    case PutCache(_) | ReadStale(_) | Publish(_, _) | Unlist(_, _) | Close(_, _) => false
    case _ => !Cacheable(th.path)
  }

  predicate ThreadOk(s: State, u: Tid)
    requires u < |s.threads|
  {
    if s.threads[u].lead.Some? then LeaderOk(s, u, s.threads[u].lead.value) else FollowerOk(s, u)
  }

  predicate CallOk(s: State, id: CallId)
    requires id < |s.calls|
  {
    s.calls[id].leader < |s.threads| && s.threads[s.calls[id].leader].lead == Some(id)
  }

  predicate ListedOk(s: State, path: Path)
    requires path in s.inflight
  {
    var id := s.inflight[path];
    && id < |s.calls| && s.calls[id].path == path && CallOk(s, id)
    && Leading(s.threads[s.calls[id].leader].pc)
  }

  ghost predicate FlightInv(s: State) {
    && (forall u :: 0 <= u < |s.threads| ==> ThreadOk(s, u))
    && (forall id :: 0 <= id < |s.calls| ==> CallOk(s, id))
    && (forall p :: p in s.inflight ==> ListedOk(s, p))
  }

  lemma FlightStep(s: State, step: Step)
    requires FlightInv(s) && CanTake(s, step)
    ensures FlightInv(Take(s, step))
  {
    match step
    case Spawn(_) => FlightIdle(s, step);
    case Tick(_) => FlightIdle(s, step);
    case Run(t, reply) =>
      var pc := s.threads[t].pc;
      if pc.Join? { FlightJoin(s, t); }
      else if pc.Publish? || pc.Unlist? || pc.Close? { FlightLeadDone(s, t, reply); }
      else { FlightQuiet(s, t, reply); }
  }

  lemma FlightIdle(s: State, step: Step)
    requires FlightInv(s) && !step.Run?
    ensures FlightInv(Take(s, step))
  {
    var s' := Take(s, step);
    forall u | 0 <= u < |s'.threads| ensures ThreadOk(s', u) {
      if u < |s.threads| { assert ThreadOk(s, u); }
    }
    forall id | 0 <= id < |s'.calls| ensures CallOk(s', id) {
      assert CallOk(s, id);
    }
    forall p | p in s'.inflight ensures ListedOk(s', p) {
      assert ListedOk(s, p);
    }
  }

  lemma FlightJoin(s: State, t: Tid)
    requires FlightInv(s) && t < |s.threads| && s.threads[t].pc.Join?
    ensures FlightInv(DoJoin(s, t))
  {
    var s' := DoJoin(s, t);
    assert ThreadOk(s, t);
    forall u | 0 <= u < |s'.threads| ensures ThreadOk(s', u) {
      assert ThreadOk(s, u);
    }
    forall id | 0 <= id < |s'.calls| ensures CallOk(s', id) {
      if id < |s.calls| { assert CallOk(s, id); }
    }
    forall p | p in s'.inflight ensures ListedOk(s', p) {
      if p in s.inflight { assert ListedOk(s, p); }
    }
  }

  lemma FlightLeadDone(s: State, t: Tid, reply: Reply)
    requires FlightInv(s) && Enabled(s, t, reply)
    requires var pc := s.threads[t].pc; pc.Publish? || pc.Unlist? || pc.Close?
    ensures FlightInv(DoLeadDone(s, t, reply))
  {
    var s' := DoLeadDone(s, t, reply);
    forall u | 0 <= u < |s'.threads| ensures ThreadOk(s', u) {
      LeadDoneThread(s, t, reply, u);
    }
    assert ThreadOk(s, t);
    forall id | 0 <= id < |s'.calls| ensures CallOk(s', id) {
      assert CallOk(s, id);
    }
    forall p | p in s'.inflight ensures ListedOk(s', p) {
      assert ListedOk(s, p);
    }
  }

  lemma LeadDoneThread(s: State, t: Tid, reply: Reply, u: Tid)
    requires FlightInv(s) && Enabled(s, t, reply) && u < |s.threads|
    requires var pc := s.threads[t].pc; pc.Publish? || pc.Unlist? || pc.Close?
    ensures ThreadOk(DoLeadDone(s, t, reply), u)
  {
    assert ThreadOk(s, t) && ThreadOk(s, u);
    if s.threads[u].lead.None? { LeadDoneFollower(s, t, reply, u); }
    else if s.threads[t].pc.Unlist? { LeadDoneUnlist(s, t, reply, u); }
    else { LeadDoneWrite(s, t, reply, u); }
  }

  /** A thread that follows does not see the call it waits for rewritten once it is closed. */
  lemma LeadDoneFollower(s: State, t: Tid, reply: Reply, u: Tid)
    requires Enabled(s, t, reply) && u < |s.threads| && s.threads[u].lead.None?
    requires s.threads[t].lead.Some? && ThreadOk(s, t) && ThreadOk(s, u)
    requires var pc := s.threads[t].pc; pc.Publish? || pc.Unlist? || pc.Close?
    ensures ThreadOk(DoLeadDone(s, t, reply), u)
  {}

  lemma LeadDoneUnlist(s: State, t: Tid, reply: Reply, u: Tid)
    requires Enabled(s, t, reply) && u < |s.threads| && s.threads[u].lead.Some?
    requires s.threads[t].lead.Some? && ThreadOk(s, t) && ThreadOk(s, u)
    requires s.threads[t].pc.Unlist?
    ensures ThreadOk(DoLeadDone(s, t, reply), u)
  {}

  lemma LeadDoneWrite(s: State, t: Tid, reply: Reply, u: Tid)
    requires Enabled(s, t, reply) && u < |s.threads| && s.threads[u].lead.Some?
    requires s.threads[t].lead.Some? && ThreadOk(s, t) && ThreadOk(s, u)
    requires s.threads[t].pc.Publish? || s.threads[t].pc.Close?
    ensures ThreadOk(DoLeadDone(s, t, reply), u)
  {}

  /** Every other block leaves calls and table alone. */
  lemma FlightQuiet(s: State, t: Tid, reply: Reply)
    requires FlightInv(s) && Enabled(s, t, reply)
    requires Quiet(s.threads[t].pc)
    ensures FlightInv(Advance(s, t, reply))
  {
    var s' := Advance(s, t, reply);
    assert ThreadOk(s, t);
    QuietFrame(s, t, reply);
    forall u | 0 <= u < |s'.threads| ensures ThreadOk(s', u) {
      assert ThreadOk(s, u);
      if u == t { QuietMover(s, t, reply); }
    }
    forall id | 0 <= id < |s'.calls| ensures CallOk(s', id) {
      assert CallOk(s, id);
    }
    forall p | p in s'.inflight ensures ListedOk(s', p) {
      assert ListedOk(s, p);
      assert ThreadOk(s', s.calls[s.inflight[p]].leader);
    }
  }

  predicate Quiet(pc: Pc) {
    !pc.Join? && !pc.Publish? && !pc.Unlist? && !pc.Close?
  }

  lemma QuietFrame(s: State, t: Tid, reply: Reply)
    requires Enabled(s, t, reply) && Quiet(s.threads[t].pc)
    ensures var s' := Advance(s, t, reply);
      && s'.calls == s.calls && s'.inflight == s.inflight && |s'.threads| == |s.threads|
      && s'.threads[t].lead == s.threads[t].lead && s'.threads[t].path == s.threads[t].path
      && forall u :: 0 <= u < |s.threads| && u != t ==> s'.threads[u] == s.threads[u]
  {
    OthersStay(s, t, reply);
    if s.threads[t].pc.Renew? { RenewFrame(s, t, reply); }
  }

  lemma RenewFrame(s: State, t: Tid, reply: Reply)
    requires Enabled(s, t, reply) && s.threads[t].pc.Renew?
    ensures var s' := Advance(s, t, reply);
      && s' == s.(threads := s.threads[t := s.threads[t].(pc := s'.threads[t].pc, answer := s'.threads[t].answer)],
                  renewing := s'.renewing, access := s'.access, refresh := s'.refresh,
                  expiresAt := s'.expiresAt, issued := s'.issued, exchanges := s'.exchanges)
  {}

  lemma QuietMover(s: State, t: Tid, reply: Reply)
    requires Enabled(s, t, reply) && ThreadOk(s, t) && Quiet(s.threads[t].pc)
    ensures ThreadOk(Advance(s, t, reply), t)
  {
    QuietFrame(s, t, reply);
    QuietPc(s, t, reply);
  }

  /** A quiet block of a leader leads on with nothing written; a follower's stays a follower's. */
  lemma QuietPc(s: State, t: Tid, reply: Reply)
    requires Enabled(s, t, reply) && ThreadOk(s, t) && Quiet(s.threads[t].pc)
    ensures var th, th' := s.threads[t], Advance(s, t, reply).threads[t];
      && (th.lead.Some? ==> Leading(th'.pc) && Written(th'.pc) == None && LeadersVia(th'.pc) && Leading(th.pc))
      && (th.lead.None? ==> FollowerOk(Advance(s, t, reply), t))
  {
    var pc := s.threads[t].pc;
    if pc.Renew? { QuietPcRenew(s, t, reply); }
    else if pc.FirstGet? || pc.SecondGet? { QuietPcGet(s, t, reply); }
  }

  lemma QuietPcRenew(s: State, t: Tid, reply: Reply)
    requires Enabled(s, t, reply) && ThreadOk(s, t) && s.threads[t].pc.Renew?
    ensures var th, th' := s.threads[t], Advance(s, t, reply).threads[t];
      && (th.lead.Some? ==> Leading(th'.pc) && Written(th'.pc) == None && LeadersVia(th'.pc))
      && (th.lead.None? ==> FollowerOk(Advance(s, t, reply), t))
  {
    RenewPc(s, t, reply);
  }

  lemma RenewPc(s: State, t: Tid, reply: Reply)
    requires Enabled(s, t, reply) && s.threads[t].pc.Renew?
    ensures var th, th' := s.threads[t], DoRenew(s, t, reply).threads[t];
      && th'.lead == th.lead && th'.path == th.path
      && (if th'.pc.Renew? || th'.pc.ReloadToken? || th'.pc.Compare? then th'.answer == th.answer
          else th'.pc == AfterFetch(th, Failure(ApiError(401))) && th'.answer == Some(Failure(ApiError(401))))
  {}

  lemma QuietPcGet(s: State, t: Tid, reply: Reply)
    requires Enabled(s, t, reply) && ThreadOk(s, t)
    requires s.threads[t].pc.FirstGet? || s.threads[t].pc.SecondGet?
    ensures var th, th' := s.threads[t], DoGet(s, t, reply).threads[t];
      && (th.lead.Some? ==> Leading(th'.pc) && Written(th'.pc) == None && LeadersVia(th'.pc))
      && (th.lead.None? ==> FollowerOk(DoGet(s, t, reply), t))
  {}
}
