/**
  When a request asks the server although a fresh copy exists: only copies stored between its
  cache check and its taking the lead escape it.
 */
module CacheWindow {
  import opened Wrappers
  import opened Session
  import opened Protocol
  import opened SingleFlight
  import opened CacheHistory

  /** The thread is inside `fetchOnce`, or about to use what it returned. */
  predicate Fetching(pc: Pc) {
    match pc
    case ReadToken | Renew(_, _, _) | ReloadToken | FirstGet(_) | Compare(_) | SecondGet(_, _) => true
    case PutCache(_) | ReadStale(_) => true
    case _ => false
  }

  /** Every copy of its path that was there at its cache check was too old for it. */
  ghost predicate CheckedOk(s: State, th: Thread) {
    && th.checked <= |s.stored|
    && forall k :: 0 <= k < th.checked && s.stored[k].path == th.path ==> s.now - s.stored[k].entry.at > CACHE_TTL
  }

  /** While a thread leads a fetch, nobody stores a copy of its path. */
  ghost predicate JoinedOk(s: State, th: Thread) {
    th.lead.Some? && Fetching(th.pc) ==>
      && th.checked <= th.joined <= |s.stored|
      && forall k :: th.joined <= k < |s.stored| ==> s.stored[k].path != th.path
  }

  ghost predicate WindowOk(s: State, th: Thread) {
    CheckedOk(s, th) && JoinedOk(s, th)
  }

  ghost predicate WindowInv(s: State) {
    forall u :: 0 <= u < |s.threads| ==> WindowOk(s, s.threads[u])
  }

  lemma WindowStep(s: State, step: Step)
    requires FlightInv(s) && StoredInv(s) && WindowInv(s) && CanTake(s, step)
    ensures WindowInv(Take(s, step))
  {
    var s' := Take(s, step);
    StoredStep(s, step);
    if step.Run? { OthersStay(s, step.t, step.reply); }
    forall u | 0 <= u < |s'.threads| ensures WindowOk(s', s'.threads[u]) {
      if step.Run? && u == step.t {
        WindowMover(s, u, step.reply);
      } else if u < |s.threads| {
        WindowOther(s, step, u);
      }
    }
  }

  /** A copy of a leader's path could only be stored by the leader itself. */
  lemma WindowOther(s: State, step: Step, u: Tid)
    requires FlightInv(s) && StoredInv(s) && CanTake(s, step) && Later(s, Take(s, step))
    requires u < |s.threads| && (step.Run? ==> u != step.t) && WindowOk(s, s.threads[u])
    ensures WindowOk(Take(s, step), s.threads[u])
  {
    if step.Run? {
      var t, th := step.t, s.threads[u];
      if s.threads[t].pc.PutCache? {
        assert ThreadOk(s, t) && ThreadOk(s, u);
        if th.lead.Some? && Fetching(th.pc) && th.path == s.threads[t].path { OneLeader(s, t, u); }
      } else {
        CacheFrame(s, t, step.reply);
      }
    }
  }

  lemma WindowMover(s: State, t: Tid, reply: Reply)
    requires FlightInv(s) && StoredInv(s) && Enabled(s, t, reply) && WindowOk(s, s.threads[t])
    ensures WindowOk(Advance(s, t, reply), Advance(s, t, reply).threads[t])
  {
    var pc := s.threads[t].pc;
    assert ThreadOk(s, t);
    if pc.CheckCache? { WindowCheck(s, t, reply); }
    else if pc.Join? || pc.PutCache? { WindowJoin(s, t, reply); }
    else { WindowGoesOn(s, t, reply); }
  }

  /** The check misses when the newest copy of the path, and so every one, is too old. */
  lemma WindowCheck(s: State, t: Tid, reply: Reply)
    requires StoredInv(s) && Enabled(s, t, reply) && s.threads[t].pc.CheckCache? && s.threads[t].lead == None
    requires WindowOk(s, s.threads[t])
    ensures WindowOk(Advance(s, t, reply), Advance(s, t, reply).threads[t])
  {
    var path := s.threads[t].path;
    assert Known(s.cache, path) == LastCopy(s.stored, path);
    LastCopyIsNewest(s.stored, path);
  }

  lemma WindowJoin(s: State, t: Tid, reply: Reply)
    requires Enabled(s, t, reply) && (s.threads[t].pc.Join? || s.threads[t].pc.PutCache?)
    requires WindowOk(s, s.threads[t])
    ensures WindowOk(Advance(s, t, reply), Advance(s, t, reply).threads[t])
  {}

  lemma WindowGoesOn(s: State, t: Tid, reply: Reply)
    requires Enabled(s, t, reply) && WindowOk(s, s.threads[t]) && ThreadOk(s, t)
    requires var pc := s.threads[t].pc; !pc.CheckCache? && !pc.Join? && !pc.PutCache?
    ensures WindowOk(Advance(s, t, reply), Advance(s, t, reply).threads[t])
  {
    CacheFrame(s, t, reply);
    OthersStay(s, t, reply);
    MarksStay(s, t, reply);
  }

  /** Past the join, a thread keeps its marks, and it does not start a second fetch. */
  lemma MarksStay(s: State, t: Tid, reply: Reply)
    requires Enabled(s, t, reply)
    requires var pc := s.threads[t].pc; !pc.CheckCache? && !pc.Join? && !pc.PutCache?
    ensures var th, th' := s.threads[t], Advance(s, t, reply).threads[t];
      && th'.checked == th.checked && th'.joined == th.joined && th'.lead == th.lead
      && (Fetching(th'.pc) ==> Fetching(th.pc))
  {
    var pc := s.threads[t].pc;
    if pc.Renew? { RenewFrame(s, t, reply); }
    else if pc.FirstGet? || pc.SecondGet? || pc.Compare? { MarksStayInFetch(s, t, reply); }
    else if pc.Publish? || pc.Unlist? || pc.Close? { MarksStayInLeadDone(s, t, reply); }
  }

  lemma MarksStayInFetch(s: State, t: Tid, reply: Reply)
    requires Enabled(s, t, reply)
    requires var pc := s.threads[t].pc; pc.FirstGet? || pc.SecondGet? || pc.Compare?
    ensures var th, th' := s.threads[t], Advance(s, t, reply).threads[t];
      th'.checked == th.checked && th'.joined == th.joined && th'.lead == th.lead
  {}

  lemma MarksStayInLeadDone(s: State, t: Tid, reply: Reply)
    requires Enabled(s, t, reply)
    requires var pc := s.threads[t].pc; pc.Publish? || pc.Unlist? || pc.Close?
    ensures var th, th' := s.threads[t], DoLeadDone(s, t, reply).threads[t];
      && th'.checked == th.checked && th'.joined == th.joined && th'.lead == th.lead
      && !Fetching(th'.pc)
  {}
}
