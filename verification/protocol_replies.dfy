/**
  What a request makes of the server's replies: its answer is what its last reply says, and the
  reply before that, if there was one, was a 401.
 */
module ReplyHistory {
  import opened Wrappers
  import opened Session
  import opened Protocol
  import opened SingleFlight
  import opened TokenChain
  import opened CacheHistory

  /** The replies to the GETs of one thread, in order. */
  function RepliesOf(heard: seq<Heard>, u: Tid): seq<Reply> {
    if heard == [] then []
    else
      var h := heard[|heard| - 1];
      RepliesOf(heard[..|heard| - 1], u) + if h.maker == u then [h.reply] else []
  }

  predicate Unauthorized(reply: Reply) {
    reply.GetAnswered? && reply.status == 401
  }

  /** The error a reply stands for: its status, 502 where the body is not JSON, 504 where none came. */
  predicate Says(reply: Reply, err: ApiError) {
    match reply
    case GetAnswered(status, _, json) =>
      if status != 200 then err.status == status else !json && err.status == 502
    case GetFailed => err.status == 504
    case _ => false
  }

  /** What follows from the replies so far: nothing yet, a renewal, a body or an error. */
  predicate FollowsFrom(rs: seq<Reply>, answer: Option<Outcome>) {
    match answer
    case None => rs == [] || (|rs| == 1 && Unauthorized(rs[0]))
    case Some(Success(body)) => rs != [] && rs[|rs| - 1] == GetAnswered(200, body, true)
    case Some(Failure(err)) => if rs == [] then err.status == 401 else Says(rs[|rs| - 1], err)
  }

  /** No GET has been made: the thread waits, checks, or is about to make its first. */
  predicate BeforeGet(pc: Pc) {
    match pc
    case CheckCache | Join | Wait(_) | ReadToken | ReloadToken | FirstGet(_) => true
    case _ => false
  }

  predicate RepliesFit(rs: seq<Reply>, th: Thread) {
    && |rs| == th.gets <= 2 && (|rs| == 2 ==> Unauthorized(rs[0]))
    && FollowsFrom(rs, th.answer)
    && (BeforeGet(th.pc) ==> rs == [])
    && (th.pc.Renew? ==> th.answer == None && (rs == [] <==> th.pc.early))
    && (th.pc.Compare? || th.pc.SecondGet? ==> th.answer == None && |rs| == 1)
  }

  predicate RepliesOk(s: State, u: Tid, th: Thread) {
    RepliesFit(RepliesOf(s.heard, u), th)
  }

  ghost predicate RepliesInv(s: State) {
    && (forall k :: 0 <= k < |s.heard| ==> s.heard[k].maker < |s.threads|)
    && forall u :: 0 <= u < |s.threads| ==> RepliesOk(s, u, s.threads[u])
  }

  lemma RepliesAppend(heard: seq<Heard>, h: Heard, u: Tid)
    ensures RepliesOf(heard + [h], u) == RepliesOf(heard, u) + if h.maker == u then [h.reply] else []
  {
    assert (heard + [h])[..|heard|] == heard;
  }

  lemma {:induction false} NoRepliesOfNewcomers(heard: seq<Heard>, u: Tid)
    requires forall k :: 0 <= k < |heard| ==> heard[k].maker < u
    ensures RepliesOf(heard, u) == []
  {
    if heard != [] { NoRepliesOfNewcomers(heard[..|heard| - 1], u); }
  }

  lemma RepliesStep(s: State, step: Step)
    requires FlightInv(s) && SourceInv(s) && RepliesInv(s) && CanTake(s, step)
    ensures RepliesInv(Take(s, step))
  {
    var s' := Take(s, step);
    match step
    case Spawn(_) =>
      NoRepliesOfNewcomers(s.heard, |s.threads|);
      assert forall u :: 0 <= u < |s.threads| ==> s'.threads[u] == s.threads[u] && RepliesOk(s, u, s.threads[u]);
    case Tick(_) =>
      assert forall u :: 0 <= u < |s.threads| ==> RepliesOk(s, u, s.threads[u]);
    case Run(t, reply) =>
      OthersStay(s, t, reply);
      assert RepliesOk(s, t, s.threads[t]) && ThreadOk(s, t) && SourceOk(s, t, s.threads[t]);
      var pc := s.threads[t].pc;
      if pc.FirstGet? || pc.SecondGet? { RepliesGet(s, t, reply); } else { RepliesOther(s, t, reply); }
      forall u | 0 <= u < |s.threads| && u != t ensures RepliesOk(s', u, s'.threads[u]) {
        RepliesOfOthers(s, t, reply, u);
      }
  }

  lemma RepliesOfOthers(s: State, t: Tid, reply: Reply, u: Tid)
    requires Enabled(s, t, reply) && u < |s.threads| && u != t && RepliesOk(s, u, s.threads[u])
    requires var s' := Advance(s, t, reply);
      s'.heard == s.heard || s'.heard == s.heard + [Heard(s.threads[t].path, t, reply)]
    ensures RepliesOk(Advance(s, t, reply), u, s.threads[u])
  {
    RepliesAppend(s.heard, Heard(s.threads[t].path, t, reply), u);
  }

  lemma RepliesGet(s: State, t: Tid, reply: Reply)
    requires Enabled(s, t, reply) && RepliesOk(s, t, s.threads[t]) && PcSource(s, s.threads[t])
    requires s.threads[t].pc.FirstGet? || s.threads[t].pc.SecondGet?
    ensures var s' := Advance(s, t, reply);
      s'.heard == s.heard + [Heard(s.threads[t].path, t, reply)] && RepliesOk(s', t, s'.threads[t])
  {
    RepliesAppend(s.heard, Heard(s.threads[t].path, t, reply), t);
    GetFrame(s, t, reply);
    GetMeansItsReply(s, t, reply);
  }

  /**
    One GET, read off its reply: a good reply is the answer, the first 401 leads to a renewal,
    and anything else is the error the reply stands for.
   */
  lemma GetMeansItsReply(s: State, t: Tid, reply: Reply)
    requires Enabled(s, t, reply) && s.threads[t].answer == None
    requires s.threads[t].pc.FirstGet? || s.threads[t].pc.SecondGet?
    ensures var th, th' := s.threads[t], Advance(s, t, reply).threads[t];
      && th'.gets == th.gets + 1
      && (forall body :: th'.answer == Some(Success(body)) <==> reply == GetAnswered(200, body, true))
      && (th'.answer == None <==> th.pc.FirstGet? && Unauthorized(reply))
      && (th'.answer == None ==> th'.pc == Renew(Acquire, th.pc.tok, false))
      && (forall err :: th'.answer == Some(Failure(err)) <==>
            Says(reply, err) && !(th.pc.FirstGet? && Unauthorized(reply)))
      && (th'.answer.Some? ==> th'.pc.PutCache? || th'.pc.ReadStale? || th'.pc.Done?)
  {}

  lemma RepliesOther(s: State, t: Tid, reply: Reply)
    requires Enabled(s, t, reply) && RepliesOk(s, t, s.threads[t]) && PcSource(s, s.threads[t]) && ThreadOk(s, t)
    requires !s.threads[t].pc.FirstGet? && !s.threads[t].pc.SecondGet?
    ensures var s' := Advance(s, t, reply); s'.heard == s.heard && RepliesOk(s', t, s'.threads[t])
  {
    var pc := s.threads[t].pc;
    if pc.PutCache? { assert Advance(s, t, reply) == DoPutCache(s, t); }
    else { CacheFrame(s, t, reply); }
    if pc.Renew? { RepliesRenew(s, t, reply); }
    else if pc.Publish? || pc.Unlist? || pc.Close? { RepliesLeadDone(s, t, reply); }
    else { RepliesMove(s, t, reply); }
  }

  lemma RepliesRenew(s: State, t: Tid, reply: Reply)
    requires Enabled(s, t, reply) && RepliesOk(s, t, s.threads[t]) && s.threads[t].pc.Renew?
    ensures RepliesFit(RepliesOf(s.heard, t), DoRenew(s, t, reply).threads[t])
  {
    RenewPc(s, t, reply);
    RenewGoesOn(s, t, reply);
  }

  lemma RepliesLeadDone(s: State, t: Tid, reply: Reply)
    requires Enabled(s, t, reply) && RepliesOk(s, t, s.threads[t])
    requires var pc := s.threads[t].pc; pc.Publish? || pc.Unlist? || pc.Close?
    ensures RepliesFit(RepliesOf(s.heard, t), DoLeadDone(s, t, reply).threads[t])
  {}

  lemma RepliesMove(s: State, t: Tid, reply: Reply)
    requires Enabled(s, t, reply) && RepliesOk(s, t, s.threads[t]) && PcSource(s, s.threads[t])
    requires var pc := s.threads[t].pc;
      !pc.FirstGet? && !pc.SecondGet? && !pc.Renew? && !pc.Publish? && !pc.Unlist? && !pc.Close?
    ensures RepliesFit(RepliesOf(s.heard, t), Advance(s, t, reply).threads[t])
  {
    if BeforeGet(s.threads[t].pc) { RepliesBeforeGet(s, t, reply); } else { RepliesAfterGet(s, t, reply); }
  }

  lemma RepliesBeforeGet(s: State, t: Tid, reply: Reply)
    requires Enabled(s, t, reply) && RepliesOk(s, t, s.threads[t]) && PcSource(s, s.threads[t])
    requires BeforeGet(s.threads[t].pc) && !s.threads[t].pc.FirstGet?
    ensures RepliesFit(RepliesOf(s.heard, t), Advance(s, t, reply).threads[t])
  {}

  lemma RepliesAfterGet(s: State, t: Tid, reply: Reply)
    requires Enabled(s, t, reply) && RepliesOk(s, t, s.threads[t])
    requires var pc := s.threads[t].pc; pc.Compare? || pc.PutCache? || pc.ReadStale?
    ensures RepliesFit(RepliesOf(s.heard, t), Advance(s, t, reply).threads[t])
  {}
}
