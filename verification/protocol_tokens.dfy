/**
  Token renewal: the token pairs of a session form one chain, each link made by one grant
  that spent the refresh token of the pair it replaced.
 */
module TokenChain {
  import opened Wrappers
  import opened Session
  import opened Protocol
  import opened SingleFlight

  /** The grant has answered and the new pair is not stored yet. */
  predicate Storing(s: State) {
    && s.renewing.Some? && s.renewing.value < |s.threads|
    && var pc := s.threads[s.renewing.value].pc; pc.Renew? && pc.block.StoreTokens?
  }

  /** The link of the chain that the session holds. */
  function Current(s: State): int {
    |s.issued| - (if Storing(s) then 2 else 1)
  }

  /** What a thread inside the renewal section knows about the session's tokens. */
  predicate RenewalOk(s: State, pc: Pc) {
    pc.Renew? ==>
      match pc.block
      case ReadRefresh => s.access == pc.used
      case Grant(spent) => s.access == pc.used && s.refresh == spent && spent != ""
      case StoreTokens(pair, _) => |s.issued| >= 2 && s.issued[|s.issued| - 1] == pair
      case _ => true
  }

  predicate ChainInv(s: State) {
    && |s.issued| == |s.exchanges| + 1
    && (forall i :: 0 <= i < |s.exchanges| ==>
          s.exchanges[i] == Exchange(s.issued[i].access, s.issued[i].refresh) && s.exchanges[i].spent != "")
    && 0 <= Current(s) && s.issued[Current(s)] == TokenPair(s.access, s.refresh)
    && forall u :: 0 <= u < |s.threads| ==> RenewalOk(s, s.threads[u].pc)
  }

  lemma ChainStep(s: State, step: Step)
    requires MutexInv(s) && ChainInv(s) && CanTake(s, step)
    ensures ChainInv(Take(s, step))
    ensures s.issued <= Take(s, step).issued && Current(s) <= Current(Take(s, step))
  {
    match step
    case Spawn(_) => assert forall u :: 0 <= u < |s.threads| ==> Take(s, step).threads[u] == s.threads[u];
    case Tick(_) =>
    case Run(t, reply) =>
      OthersStay(s, t, reply);
      if s.threads[t].pc.Renew? { ChainRenew(s, t, reply); } else { ChainOther(s, t, reply); }
  }

  lemma ChainOther(s: State, t: Tid, reply: Reply)
    requires MutexInv(s) && ChainInv(s) && Enabled(s, t, reply) && !s.threads[t].pc.Renew?
    ensures var s' := Advance(s, t, reply); ChainInv(s') && s'.issued == s.issued && Current(s') == Current(s)
  {
    var s' := Advance(s, t, reply);
    OthersStay(s, t, reply);
    MutexOther(s, t, reply);
    TokensUntouched(s, t, reply);
    assert s.renewing != Some(t) by { assert InSection(s.threads[t].pc) <==> s.renewing == Some(t); }
    assert Storing(s') <==> Storing(s);
    assert RenewalOk(s', s'.threads[t].pc);
    forall u | 0 <= u < |s'.threads| ensures RenewalOk(s', s'.threads[u].pc) {
      assert RenewalOk(s, s.threads[u].pc);
    }
  }

  lemma TokensUntouched(s: State, t: Tid, reply: Reply)
    requires Enabled(s, t, reply) && !s.threads[t].pc.Renew?
    ensures var s' := Advance(s, t, reply);
      && s'.access == s.access && s'.refresh == s.refresh && s'.issued == s.issued && s'.exchanges == s.exchanges
      && (s'.threads[t].pc.Renew? ==> s'.threads[t].pc.block == Acquire)
  {
    var pc := s.threads[t].pc;
    if pc.FirstGet? || pc.SecondGet? { TokensUntouchedByGet(s, t, reply); }
    else if pc.Publish? || pc.Unlist? || pc.Close? { TokensUntouchedByLeadDone(s, t, reply); }
  }

  lemma TokensUntouchedByGet(s: State, t: Tid, reply: Reply)
    requires t < |s.threads| && (reply == GetFailed || reply.GetAnswered?)
    ensures var s' := DoGet(s, t, reply);
      && s'.access == s.access && s'.refresh == s.refresh && s'.issued == s.issued && s'.exchanges == s.exchanges
      && (s'.threads[t].pc.Renew? ==> s'.threads[t].pc.block == Acquire)
  {}

  lemma TokensUntouchedByLeadDone(s: State, t: Tid, reply: Reply)
    requires Enabled(s, t, reply)
    requires var pc := s.threads[t].pc; pc.Publish? || pc.Unlist? || pc.Close?
    ensures var s' := DoLeadDone(s, t, reply);
      && s'.access == s.access && s'.refresh == s.refresh && s'.issued == s.issued && s'.exchanges == s.exchanges
      && !s'.threads[t].pc.Renew?
  {}

  lemma ChainRenew(s: State, t: Tid, reply: Reply)
    requires MutexInv(s) && ChainInv(s) && Enabled(s, t, reply) && s.threads[t].pc.Renew?
    ensures var s' := Advance(s, t, reply); ChainInv(s') && s.issued <= s'.issued && Current(s) <= Current(s')
  {
    var s' := Advance(s, t, reply);
    OthersStay(s, t, reply);
    assert RenewalOk(s, s.threads[t].pc);
    assert InSection(s.threads[t].pc) <==> s.renewing == Some(t);
    MutexStep(s, Run(t, reply));
    ChainLink(s, t, reply);
    forall u | 0 <= u < |s'.threads| && u != t ensures RenewalOk(s', s'.threads[u].pc) {
      assert InSection(s.threads[u].pc) <==> s.renewing == Some(u);
      assert RenewalOk(s, s.threads[u].pc);
    }
  }

  /** The block that runs keeps the chain and its own thread's knowledge. */
  lemma ChainLink(s: State, t: Tid, reply: Reply)
    requires ChainInv(s) && Enabled(s, t, reply) && s.threads[t].pc.Renew?
    requires RenewalOk(s, s.threads[t].pc)
    requires InSection(s.threads[t].pc) <==> s.renewing == Some(t)
    ensures var s' := Advance(s, t, reply);
      && RenewalOk(s', s'.threads[t].pc)
      && |s'.issued| == |s'.exchanges| + 1
      && (forall i :: 0 <= i < |s'.exchanges| ==>
          s'.exchanges[i] == Exchange(s'.issued[i].access, s'.issued[i].refresh) && s'.exchanges[i].spent != "")
      && 0 <= Current(s') && s'.issued[Current(s')] == TokenPair(s'.access, s'.refresh)
      && s.issued <= s'.issued && Current(s) <= Current(s')
      && (!InSection(s.threads[t].pc) ==> s'.access == s.access && s'.refresh == s.refresh && s'.issued == s.issued)
  {
    if s.threads[t].pc.block.Grant? {
      ChainGrant(s, t, reply);
    }
  }

  lemma ChainGrant(s: State, t: Tid, reply: Reply)
    requires ChainInv(s) && Enabled(s, t, reply) && s.threads[t].pc.Renew? && s.threads[t].pc.block.Grant?
    requires RenewalOk(s, s.threads[t].pc) && s.renewing == Some(t)
    ensures var s' := Advance(s, t, reply);
      && RenewalOk(s', s'.threads[t].pc)
      && |s'.issued| == |s'.exchanges| + 1
      && (forall i :: 0 <= i < |s'.exchanges| ==>
          s'.exchanges[i] == Exchange(s'.issued[i].access, s'.issued[i].refresh) && s'.exchanges[i].spent != "")
      && 0 <= Current(s') && s'.issued[Current(s')] == TokenPair(s'.access, s'.refresh)
      && s.issued <= s'.issued && Current(s) <= Current(s')
  {}

  // --- what one request does ------------------------------------------------------

  /** Some pair up to link `n` carried this access token. */
  ghost predicate IssuedBy(s: State, tok: Token, n: int) {
    exists i :: 0 <= i <= n && i < |s.issued| && s.issued[i].access == tok
  }

  /** The retry's token belongs to a later link than the one that failed. */
  ghost predicate Newer(s: State, failed: Token, tok: Token) {
    exists i, j :: 0 <= i < j <= Current(s) && j < |s.issued|
      && s.issued[i].access == failed && s.issued[j].access == tok
  }

  ghost predicate RequestOk(s: State, th: Thread) {
    match th.pc
    case CheckCache | Join | Wait(_) | ReadToken => th.gets == 0 && th.renewals == 0
    case Renew(_, used, early) =>
      && IssuedBy(s, used, Current(s))
      && if early then th.gets == 0 && th.renewals == 1 else th.gets == 1 && 1 <= th.renewals <= 2
    case ReloadToken => th.gets == 0 && th.renewals == 1
    case FirstGet(tok) => th.gets == 0 && th.renewals <= 1 && IssuedBy(s, tok, Current(s))
    case Compare(tok) => th.gets == 1 && th.renewals <= 2 && IssuedBy(s, tok, Current(s))
    case SecondGet(failed, tok) => th.gets == 1 && th.renewals <= 2 && failed != tok && Newer(s, failed, tok)
    case Publish(_, via) => th.gets <= 2 && th.renewals <= 2 && !via.Hit? && !via.Waited?
    case Unlist(_, via) => th.gets <= 2 && th.renewals <= 2 && !via.Hit? && !via.Waited?
    case Close(_, via) => th.gets <= 2 && th.renewals <= 2 && !via.Hit? && !via.Waited?
    case Done(_, Hit(_, _)) => th.gets == 0 && th.renewals == 0
    case Done(_, Waited(_)) => th.gets == 0 && th.renewals == 0
    case _ => th.gets <= 2 && th.renewals <= 2
  }

  ghost predicate RequestsInv(s: State) {
    forall u :: 0 <= u < |s.threads| ==> RequestOk(s, s.threads[u])
  }

  lemma RequestKept(s: State, s': State, th: Thread)
    requires s.issued <= s'.issued && Current(s) <= Current(s') && RequestOk(s, th)
    ensures RequestOk(s', th)
  {
    if th.pc.SecondGet? {
      var i, j :| 0 <= i < j <= Current(s) && j < |s.issued|
        && s.issued[i].access == th.pc.failed && s.issued[j].access == th.pc.tok;
      assert s'.issued[i] == s.issued[i] && s'.issued[j] == s.issued[j];
    }
    forall tok | IssuedBy(s, tok, Current(s)) ensures IssuedBy(s', tok, Current(s')) {
      var i :| 0 <= i <= Current(s) && i < |s.issued| && s.issued[i].access == tok;
      assert s'.issued[i] == s.issued[i];
    }
  }

  lemma RequestsStep(s: State, step: Step)
    requires MutexInv(s) && ChainInv(s) && RequestsInv(s) && CanTake(s, step)
    ensures RequestsInv(Take(s, step))
  {
    var s' := Take(s, step);
    ChainStep(s, step);
    if step.Run? { OthersStay(s, step.t, step.reply); }
    forall u | 0 <= u < |s'.threads| ensures RequestOk(s', s'.threads[u]) {
      if step.Run? && u == step.t {
        RequestMover(s, u, step.reply);
      } else if u < |s.threads| {
        RequestKept(s, s', s.threads[u]);
      }
    }
  }

  lemma RequestMover(s: State, t: Tid, reply: Reply)
    requires MutexInv(s) && ChainInv(s) && RequestsInv(s) && Enabled(s, t, reply)
    ensures var s' := Advance(s, t, reply); RequestOk(s', s'.threads[t])
  {
    if s.threads[t].pc.Renew? {
      ChainStep(s, Run(t, reply));
      RequestKept(s, Advance(s, t, reply), s.threads[t]);
      RequestRenew(s, t, reply);
    } else {
      ChainOther(s, t, reply);
      RequestKept(s, Advance(s, t, reply), s.threads[t]);
      RequestPlain(s, t, reply);
    }
  }

  lemma RequestPlain(s: State, t: Tid, reply: Reply)
    requires ChainInv(s) && Enabled(s, t, reply) && !s.threads[t].pc.Renew? && RequestOk(s, s.threads[t])
    requires var s' := Advance(s, t, reply);
      RequestOk(s', s.threads[t]) && s'.issued == s.issued && Current(s') == Current(s)
    ensures RequestOk(Advance(s, t, reply), Advance(s, t, reply).threads[t])
  {
    var pc := s.threads[t].pc;
    if pc.FirstGet? || pc.SecondGet? { RequestGet(s, t, reply); }
    else if pc.Compare? { RequestCompare(s, t, reply); }
    else if pc.ReadToken? || pc.ReloadToken? {
      assert IssuedBy(Advance(s, t, reply), s.access, Current(s));
    } else if pc.Publish? || pc.Unlist? || pc.Close? { RequestLeadDone(s, t, reply); }
    else { RequestCache(s, t, reply); }
  }

  lemma RequestLeadDone(s: State, t: Tid, reply: Reply)
    requires Enabled(s, t, reply) && RequestOk(s, s.threads[t])
    requires var pc := s.threads[t].pc; pc.Publish? || pc.Unlist? || pc.Close?
    ensures RequestOk(Advance(s, t, reply), Advance(s, t, reply).threads[t])
  {}

  lemma RequestCache(s: State, t: Tid, reply: Reply)
    requires Enabled(s, t, reply) && RequestOk(s, s.threads[t])
    requires var pc := s.threads[t].pc; pc.CheckCache? || pc.Join? || pc.Wait? || pc.PutCache? || pc.ReadStale?
    ensures RequestOk(Advance(s, t, reply), Advance(s, t, reply).threads[t])
  {}

  lemma RequestRenew(s: State, t: Tid, reply: Reply)
    requires Enabled(s, t, reply) && s.threads[t].pc.Renew? && RequestOk(Advance(s, t, reply), s.threads[t])
    ensures RequestOk(Advance(s, t, reply), Advance(s, t, reply).threads[t])
  {
    RenewGoesOn(s, t, reply);
  }

  lemma RenewGoesOn(s: State, t: Tid, reply: Reply)
    requires Enabled(s, t, reply) && s.threads[t].pc.Renew?
    ensures var th, th' := s.threads[t], DoRenew(s, t, reply).threads[t];
      && th'.gets == th.gets && th'.renewals == th.renewals
      && match th'.pc
         case Renew(_, used, early) => used == th.pc.used && early == th.pc.early
         case ReloadToken => th.pc.early
         case Compare(tok) => tok == th.pc.used && !th.pc.early
         case pc => pc == AfterFetch(th, Failure(ApiError(401)))
  {}

  lemma RequestGet(s: State, t: Tid, reply: Reply)
    requires Enabled(s, t, reply) && (s.threads[t].pc.FirstGet? || s.threads[t].pc.SecondGet?)
    requires RequestOk(Advance(s, t, reply), s.threads[t])
    ensures RequestOk(Advance(s, t, reply), Advance(s, t, reply).threads[t])
  {}

  lemma RequestCompare(s: State, t: Tid, reply: Reply)
    requires ChainInv(s) && Enabled(s, t, reply) && s.threads[t].pc.Compare? && RequestOk(s, s.threads[t])
    requires Current(Advance(s, t, reply)) == Current(s)
    ensures RequestOk(Advance(s, t, reply), Advance(s, t, reply).threads[t])
  {
    var tok := s.threads[t].pc.tok;
    var i :| 0 <= i <= Current(s) && i < |s.issued| && s.issued[i].access == tok;
    var s' := Advance(s, t, reply);
    if s.access != tok {
      assert s'.issued[i].access == tok && s'.issued[Current(s)].access == s.access;
      assert Newer(s', tok, s.access);
    }
  }
}
