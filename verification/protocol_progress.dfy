/** No request runs forever and no set of requests gets stuck. */
module GetProgress {
  import opened Wrappers
  import opened Session
  import opened Protocol
  import opened SingleFlight
  import opened GetTheorems

  /** An upper bound on the blocks a thread still runs. */
  function Rank(pc: Pc): nat {
    match pc
    case CheckCache => 23
    case Join => 22
    case ReadToken => 21
    case Renew(block, _, early) => (if early then 15 else 7) + RenewalRank(block)
    case ReloadToken => 14
    case FirstGet(_) => 13
    case Compare(_) => 6
    case SecondGet(_, _) => 5
    case PutCache(_) => 4
    case ReadStale(_) => 4
    case Publish(_, _) => 3
    case Unlist(_, _) => 2
    case Close(_, _) => 1
    case Wait(_) => 1
    case Done(_, _) => 0
  }

  function RenewalRank(block: Renewal): nat {
    match block
    case Acquire => 5
    case Check => 4
    case ReadRefresh => 3
    case Grant(_) => 2
    case StoreTokens(_, _) => 1
    case Release(_) => 0
  }

  lemma RankDrops(s: State, t: Tid, reply: Reply)
    requires Enabled(s, t, reply)
    ensures Rank(Advance(s, t, reply).threads[t].pc) < Rank(s.threads[t].pc)
  {
    var pc := s.threads[t].pc;
    if pc.Renew? { RankDropsInRenew(s, t, reply); }
    else if pc.FirstGet? || pc.SecondGet? { RankDropsInGet(s, t, reply); }
  }

  lemma RankDropsInRenew(s: State, t: Tid, reply: Reply)
    requires Enabled(s, t, reply) && s.threads[t].pc.Renew?
    ensures Rank(DoRenew(s, t, reply).threads[t].pc) < Rank(s.threads[t].pc)
  {}

  lemma RankDropsInGet(s: State, t: Tid, reply: Reply)
    requires t < |s.threads| && (s.threads[t].pc.FirstGet? || s.threads[t].pc.SecondGet?)
    requires reply == GetFailed || reply.GetAnswered?
    ensures Rank(DoGet(s, t, reply).threads[t].pc) < Rank(s.threads[t].pc)
  {}

  /** How many steps of a run belong to thread `t`. */
  function StepsOf(steps: seq<Step>, t: Tid): nat {
    if steps == [] then 0
    else (if steps[0].Run? && steps[0].t == t then 1 else 0) + StepsOf(steps[1..], t)
  }

  /** In any run, whatever the other threads and the server do, a request takes at most `Rank` steps. */
  lemma {:induction false} EveryRequestIsBounded(s: State, steps: seq<Step>, s': State, t: Tid)
    requires RunsTo(s, steps, s') && t < |s.threads|
    ensures t < |s'.threads|
    ensures StepsOf(steps, t) + Rank(s'.threads[t].pc) <= Rank(s.threads[t].pc) <= 23
    decreases |steps|
  {
    if steps != [] {
      var next := Take(s, steps[0]);
      if steps[0].Run? {
        OthersStay(s, steps[0].t, steps[0].reply);
        RankDrops(s, steps[0].t, steps[0].reply);
      }
      assert Rank(next.threads[t].pc) + (if steps[0].Run? && steps[0].t == t then 1 else 0) <= Rank(s.threads[t].pc);
      EveryRequestIsBounded(next, steps[1..], s', t);
    }
  }

  /** The reply that lets a thread outside a wait go on. */
  function AnyReply(pc: Pc): Reply {
    match pc
    case FirstGet(_) => GetFailed
    case SecondGet(_, _) => GetFailed
    case Renew(Grant(_), _, _) => GrantFailed
    case _ => NoReply
  }

  /** A thread that neither waits for a leader nor for the renewal mutex can go on. */
  lemma Runnable(s: State, t: Tid)
    requires Inv(s) && t < |s.threads|
    requires var pc := s.threads[t].pc; !pc.Done? && !pc.Wait? && !(pc.Renew? && pc.block.Acquire?)
    ensures Enabled(s, t, AnyReply(s.threads[t].pc))
  {
    assert ThreadOk(s, t);
  }

  /** Whatever a thread waits for, some thread of the chain it waits on can go on. */
  lemma SomeoneCanMove(s: State, t: Tid) returns (u: Tid)
    requires Inv(s) && t < |s.threads| && !s.threads[t].pc.Done?
    ensures u < |s.threads| && Enabled(s, u, AnyReply(s.threads[u].pc))
  {
    u := t;
    if s.threads[u].pc.Wait? {
      var c := s.threads[u].pc.call;
      assert ThreadOk(s, u);
      assert CallOk(s, c);
      assert ThreadOk(s, s.calls[c].leader);
      if s.calls[c].closed { return; }
      u := s.calls[c].leader;
    }
    var pc := s.threads[u].pc;
    if pc.Renew? && pc.block.Acquire? {
      if s.renewing == None { return; }
      u := s.renewing.value;
      assert InSection(s.threads[u].pc) <==> s.renewing == Some(u);
    }
    Runnable(s, u);
  }

  predicate AllDone(s: State) {
    forall t :: 0 <= t < |s.threads| ==> s.threads[t].pc.Done?
  }

  /** Deadlock freedom: in a reachable state some thread can move exactly as long as a request is unfinished. */
  lemma SomeoneMovesUntilAllAreDone(s: State)
    requires Reachable(s)
    ensures (exists u, reply :: Enabled(s, u, reply)) <==> !AllDone(s)
  {
    ReachableInv(s);
    if !AllDone(s) {
      var t :| 0 <= t < |s.threads| && !s.threads[t].pc.Done?;
      var u := SomeoneCanMove(s, t);
      assert Enabled(s, u, AnyReply(s.threads[u].pc));
    }
  }

  // --- what single flight does not promise ------------------------------------------

  lemma {:induction false} RunsToThen(s: State, a: seq<Step>, m: State, b: seq<Step>, s': State)
    requires RunsTo(s, a, m) && RunsTo(m, b, s')
    ensures RunsTo(s, a + b, s')
    decreases |a|
  {
    if a == [] {
      assert a + b == b;
    } else {
      assert (a + b)[1..] == a[1..] + b;
      RunsToThen(Take(s, a[0]), a[1..], m, b, s');
    }
  }

  /** One more step of thread `t` after a run. */
  lemma Go(s0: State, s: State, t: Tid, reply: Reply) returns (s': State)
    requires Initial(s0) && (exists steps :: RunsTo(s0, steps, s)) && Enabled(s, t, reply)
    ensures s' == Advance(s, t, reply) && exists steps :: RunsTo(s0, steps, s')
  {
    s' := ThenTake(s0, s, Run(t, reply));
  }

  lemma ThenTake(s0: State, s: State, step: Step) returns (s': State)
    requires Initial(s0) && (exists steps :: RunsTo(s0, steps, s)) && CanTake(s, step)
    ensures s' == Take(s, step) && exists steps :: RunsTo(s0, steps, s')
  {
    s' := Take(s, step);
    var steps :| RunsTo(s0, steps, s);
    assert RunsTo(Take(s, step), [], s');
    assert [step][1..] == [];
    assert RunsTo(s, [step], s');
    RunsToThen(s0, steps, s, [step], s');
  }

  /**
    Two fetches of one path at the same instant: the second caller misses, is overtaken by a
    leader that finishes, and then leads a fetch of its own although the copy is fresh.
   */
  lemma TwoFetchesWithinTheTtl(path: Path, a: Body, b: Body) returns (s: State)
    requires Cacheable(path)
    ensures Reachable(s) && s.now == 0
    ensures s.heard == [Heard(path, 0, GetAnswered(200, a, true)), Heard(path, 1, GetAnswered(200, b, true))]
  {
    var s0 := State(0, "t", "r", None, None, map[], map[], [], [], [TokenPair("t", "r")], [], [], []);
    assert RunsTo(s0, [], s0);
    s := ThenTake(s0, s0, Spawn(path));
    s := ThenTake(s0, s, Spawn(path));
    s := Go(s0, s, 0, NoReply);
    s := Go(s0, s, 1, NoReply);
    assert s.threads == [Thread(path, Join, None, 0, 0, 0, 0, None), Thread(path, Join, None, 0, 0, 0, 0, None)];
    s := Lead(s0, s, 0, a);
    s := Lead(s0, s, 1, b);
  }

  /** A thread about to join an empty table leads a fetch that succeeds at once and finishes. */
  lemma Lead(s0: State, s: State, t: Tid, body: Body) returns (s': State)
    requires Initial(s0) && (exists steps :: RunsTo(s0, steps, s))
    requires t < |s.threads| && s.threads[t].pc == Join && s.inflight == map[] && s.expiresAt == None
    ensures exists steps :: RunsTo(s0, steps, s')
    ensures s'.now == s.now && s'.inflight == map[] && s'.expiresAt == None && |s'.threads| == |s.threads|
    ensures s'.heard == s.heard + [Heard(s.threads[t].path, t, GetAnswered(200, body, true))]
    ensures forall u :: 0 <= u < |s.threads| && u != t ==> s'.threads[u] == s.threads[u]
  {
    s' := Go(s0, s, t, NoReply);
    s' := Go(s0, s', t, NoReply);
    s' := Go(s0, s', t, GetAnswered(200, body, true));
    assert s'.inflight == map[s.threads[t].path := |s.calls|];
    s' := Finish(s0, s', t);
  }

  lemma Finish(s0: State, s: State, t: Tid) returns (s': State)
    requires Initial(s0) && (exists steps :: RunsTo(s0, steps, s))
    requires t < |s.threads| && s.threads[t].pc.PutCache?
    requires s.threads[t].lead.Some? && s.threads[t].lead.value < |s.calls|
    requires forall p :: p in s.inflight ==> p == s.threads[t].path
    ensures exists steps :: RunsTo(s0, steps, s')
    ensures s'.now == s.now && s'.inflight == map[] && s'.expiresAt == s.expiresAt && |s'.threads| == |s.threads|
    ensures s'.heard == s.heard
    ensures forall u :: 0 <= u < |s.threads| && u != t ==> s'.threads[u] == s.threads[u]
  {
    var res := Success(s.threads[t].pc.body);
    s' := Go(s0, s, t, NoReply);
    assert s'.threads == s.threads[t := s.threads[t].(pc := Publish(res, Own))];
    s' := Go(s0, s', t, NoReply);
    assert s'.threads == s.threads[t := s.threads[t].(pc := Unlist(res, Own))];
    s' := Go(s0, s', t, NoReply);
    assert s'.threads == s.threads[t := s.threads[t].(pc := Close(res, Own))];
    s' := Go(s0, s', t, NoReply);
  }
}
