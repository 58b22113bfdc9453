/**
  `Get` as a protocol: any number of concurrent requests over one session, a clock, and a
  server that answers as it likes.

  A thread is one call of `Get`.  Its program counter names the next block of code; a step
  runs one mutex-protected block, one channel operation or one HTTP exchange, so every
  interleaving of the program is a run of this machine.  The last four fields of `State` are
  history: nothing the program does depends on them.
 */
module Protocol {
  import opened Wrappers
  import opened Session

  type Tid = nat
  type CallId = nat

  datatype TokenPair = TokenPair(access: Token, refresh: Token)

  // A successful refresh grant: the access token it replaced and the refresh token it spent.
  datatype Exchange = Exchange(used: Token, spent: Token)

  datatype Copy = Copy(path: Path, entry: CacheEntry)
  // What a GET of a path brought back, raw, and the thread that made it.
  datatype Heard = Heard(path: Path, maker: Tid, reply: Reply)

  /** The blocks of `renewToken`; all but `Acquire` run while holding the renewal mutex. */
  datatype Renewal =
    | Acquire
    | Check
    | ReadRefresh
    | Grant(spent: Token)
    | StoreTokens(pair: TokenPair, expiresIn: int)
    | Release(ok: bool)

  /** Where the outcome of a `Get` came from. */
  datatype Via =
    | Direct
    | Hit(entry: CacheEntry, time: int)
    | Waited(call: CallId)
    | Own
    | Fallback(err: ApiError, entry: CacheEntry, time: int)
    | Failed(err: ApiError, time: int, known: nat)

  datatype Pc =
    // Get
    | CheckCache
    | Join
    | Wait(call: CallId)
    // fetchOnce
    | ReadToken
    | Renew(block: Renewal, used: Token, early: bool)
    | ReloadToken
    | FirstGet(tok: Token)
    | Compare(tok: Token)
    | SecondGet(failed: Token, tok: Token)
    // the leader, once its fetch returned
    | PutCache(body: Body)
    | ReadStale(err: ApiError)
    | Publish(res: Outcome, via: Via)
    | Unlist(res: Outcome, via: Via)
    | Close(res: Outcome, via: Via)
    | Done(res: Outcome, via: Via)

  /**
    One call of `Get`.  The last fields are history: how many copies were stored when its cache
    check missed and when it took the lead, and what its `fetchOnce` returned.
   */
  datatype Thread = Thread(
    path: Path, pc: Pc, lead: Option<CallId>, gets: nat, renewals: nat,
    checked: nat, joined: nat, answer: Option<Outcome>)

  datatype Call = Call(path: Path, leader: Tid, result: Option<Outcome>, closed: bool, writes: nat, closes: nat)

  datatype State = State(
    now: int,
    access: Token,
    refresh: Token,
    expiresAt: Option<int>,
    renewing: Option<Tid>,
    cache: map<Path, CacheEntry>,
    inflight: map<Path, CallId>,
    calls: seq<Call>,
    threads: seq<Thread>,
    issued: seq<TokenPair>,
    exchanges: seq<Exchange>,
    heard: seq<Heard>,
    stored: seq<Copy>
  )

  /** What the network hands to a thread that waits for it. */
  datatype Reply =
    | NoReply
    | GetFailed
    | GetAnswered(status: int, body: Body, json: bool)
    | GrantFailed
    | Granted(pair: TokenPair, expiresIn: int)

  datatype Step =
    | Spawn(path: Path)
    | Tick(seconds: nat)
    | Run(t: Tid, reply: Reply)

  // --- one thread, one block ---------------------------------------------------

  predicate Enabled(s: State, t: Tid, reply: Reply) {
    && t < |s.threads|
    && match s.threads[t].pc {
      case Wait(c) => c < |s.calls| && s.calls[c].closed && s.calls[c].result.Some? && reply == NoReply
      case Renew(Acquire, _, _) => s.renewing == None && reply == NoReply
      case Renew(Grant(_), _, _) => reply == GrantFailed || reply.Granted?
      case FirstGet(_) => reply == GetFailed || reply.GetAnswered?
      case SecondGet(_, _) => reply == GetFailed || reply.GetAnswered?
      case Publish(_, _) => s.threads[t].lead.Some? && s.threads[t].lead.value < |s.calls| && reply == NoReply
      case Close(_, _) => s.threads[t].lead.Some? && s.threads[t].lead.value < |s.calls| && reply == NoReply
      case Done(_, _) => false
      case _ => reply == NoReply
    }
  }

  /** The result of `fetchOnce` for a reply it does not retry. */
  function Answer(reply: Reply): Outcome
    requires reply == GetFailed || reply.GetAnswered?
  {
    match reply
    case GetAnswered(status, body, json) =>
      if status != 200 then Failure(ApiError(status))
      else if !json then Failure(ApiError(502))
      else Success(body)
    case _ => Failure(ApiError(504))
  }

  /** Where a thread goes when `fetchOnce` returned `res`. */
  function AfterFetch(th: Thread, res: Outcome): Pc {
    if th.lead.None? then Done(res, Direct)
    else match res
      case Success(body) => PutCache(body)
      case Failure(err) => ReadStale(err)
  }

  /** `fetchOnce` returned `res`. */
  function Return(s: State, t: Tid, res: Outcome): State
    requires t < |s.threads|
  {
    var th := s.threads[t];
    s.(threads := s.threads[t := th.(pc := AfterFetch(th, res), answer := Some(res))])
  }

  function Move(s: State, t: Tid, pc: Pc): State
    requires t < |s.threads|
  {
    s.(threads := s.threads[t := s.threads[t].(pc := pc)])
  }

  function EnterRenewal(s: State, t: Tid, used: Token, early: bool): State
    requires t < |s.threads|
  {
    var th := s.threads[t];
    s.(threads := s.threads[t := th.(pc := Renew(Acquire, used, early), renewals := th.renewals + 1)])
  }

  function DoCheckCache(s: State, t: Tid): State
    requires t < |s.threads|
  {
    var th := s.threads[t];
    match Lookup(s.cache, th.path, s.now, CACHE_TTL)
    case Some(body) => Move(s, t, Done(Success(body), Hit(s.cache[th.path], s.now)))
    case None => s.(threads := s.threads[t := th.(pc := Join, checked := |s.stored|)])
  }

  function DoJoin(s: State, t: Tid): State
    requires t < |s.threads|
  {
    var th := s.threads[t];
    if th.path in s.inflight then
      Move(s, t, Wait(s.inflight[th.path]))
    else
      var id := |s.calls|;
      s.(inflight := ListCall(s.inflight, th.path, id),
         calls := s.calls + [Call(th.path, t, None, false, 0, 0)],
         threads := s.threads[t := th.(pc := ReadToken, lead := Some(id), joined := |s.stored|)])
  }

  function DoReadToken(s: State, t: Tid): State
    requires t < |s.threads|
  {
    if AboutToExpire(s.expiresAt, s.now) then EnterRenewal(s, t, s.access, true)
    else Move(s, t, FirstGet(s.access))
  }

  function DoRenew(s: State, t: Tid, reply: Reply): State
    requires Enabled(s, t, reply) && s.threads[t].pc.Renew?
  {
    var pc := s.threads[t].pc;
    match pc.block
    case Acquire => Move(s.(renewing := Some(t)), t, pc.(block := Check))
    case Check => Move(s, t, pc.(block := if s.access != pc.used then Release(true) else ReadRefresh))
    case ReadRefresh => Move(s, t, pc.(block := if s.refresh == "" then Release(false) else Grant(s.refresh)))
    case Grant(spent) =>
      if reply == GrantFailed then Move(s, t, pc.(block := Release(false)))
      else Move(s.(issued := s.issued + [reply.pair], exchanges := s.exchanges + [Exchange(pc.used, spent)]),
                t, pc.(block := StoreTokens(reply.pair, reply.expiresIn)))
    case StoreTokens(pair, expiresIn) =>
      Move(s.(access := pair.access, refresh := pair.refresh, expiresAt := Expiry(s.now, expiresIn)),
           t, pc.(block := Release(true)))
    case Release(ok) =>
      var next := s.(renewing := None);
      if !ok then Return(next, t, Failure(ApiError(401)))
      else Move(next, t, if pc.early then ReloadToken else Compare(pc.used))
  }

  /** One GET: counted, and its reply logged as it came. */
  function DoGet(s: State, t: Tid, reply: Reply): State
    requires t < |s.threads|
    requires reply == GetFailed || reply.GetAnswered?
  {
    var th := s.threads[t].(gets := s.threads[t].gets + 1);
    var next := s.(threads := s.threads[t := th], heard := s.heard + [Heard(th.path, t, reply)]);
    if reply.GetAnswered? && reply.status == 401 && th.pc.FirstGet? then
      EnterRenewal(next, t, th.pc.tok, false)
    else
      var res := Answer(reply);
      Return(next, t, res)
  }

  function DoCompare(s: State, t: Tid): State
    requires t < |s.threads| && s.threads[t].pc.Compare?
  {
    var th := s.threads[t];
    if s.access != th.pc.tok then Move(s, t, SecondGet(th.pc.tok, s.access))
    else Return(s, t, Failure(ApiError(401)))
  }

  function DoPutCache(s: State, t: Tid): State
    requires t < |s.threads| && s.threads[t].pc.PutCache?
  {
    var th := s.threads[t];
    Move(s.(cache := Put(s.cache, th.path, th.pc.body, s.now),
            stored := s.stored + [Copy(th.path, CacheEntry(s.now, th.pc.body))]),
         t, Publish(Success(th.pc.body), Own))
  }

  function DoReadStale(s: State, t: Tid): State
    requires t < |s.threads| && s.threads[t].pc.ReadStale?
  {
    var th := s.threads[t];
    match Lookup(s.cache, th.path, s.now, STALE_TTL)
    case Some(body) => Move(s, t, Publish(Success(body), Fallback(th.pc.err, s.cache[th.path], s.now)))
    case None => Move(s, t, Publish(Failure(th.pc.err), Failed(th.pc.err, s.now, |s.stored|)))
  }

  /** The three parts of `leadDone`: write the call, delete it from the table, close its channel. */
  function DoLeadDone(s: State, t: Tid, reply: Reply): State
    requires Enabled(s, t, reply)
    requires var pc := s.threads[t].pc; pc.Publish? || pc.Unlist? || pc.Close?
  {
    var th := s.threads[t];
    match th.pc
    case Publish(res, via) =>
      var c := s.calls[th.lead.value];
      Move(s.(calls := s.calls[th.lead.value := c.(result := Some(res), writes := c.writes + 1)]), t, Unlist(res, via))
    case Unlist(res, via) =>
      Move(s.(inflight := s.inflight - {th.path}), t, Close(res, via))
    case Close(res, via) =>
      var c := s.calls[th.lead.value];
      Move(s.(calls := s.calls[th.lead.value := c.(closed := true, closes := c.closes + 1)]), t, Done(res, via))
  }

  function Advance(s: State, t: Tid, reply: Reply): State
    requires Enabled(s, t, reply)
  {
    match s.threads[t].pc
    case CheckCache => DoCheckCache(s, t)
    case Join => DoJoin(s, t)
    case Wait(c) => Move(s, t, Done(s.calls[c].result.value, Waited(c)))
    case ReadToken => DoReadToken(s, t)
    case Renew(_, _, _) => DoRenew(s, t, reply)
    case ReloadToken => Move(s, t, FirstGet(s.access))
    case FirstGet(_) => DoGet(s, t, reply)
    case Compare(_) => DoCompare(s, t)
    case SecondGet(_, _) => DoGet(s, t, reply)
    case PutCache(_) => DoPutCache(s, t)
    case ReadStale(_) => DoReadStale(s, t)
    case Publish(_, _) => DoLeadDone(s, t, reply)
    case Unlist(_, _) => DoLeadDone(s, t, reply)
    case Close(_, _) => DoLeadDone(s, t, reply)
  }

  // --- runs --------------------------------------------------------------------

  predicate CanTake(s: State, step: Step) {
    step.Run? ==> Enabled(s, step.t, step.reply)
  }

  function Take(s: State, step: Step): State
    requires CanTake(s, step)
  {
    match step
    case Spawn(path) =>
      var pc := if Cacheable(path) then CheckCache else ReadToken;
      s.(threads := s.threads + [Thread(path, pc, None, 0, 0, 0, 0, None)])
    case Tick(d) => s.(now := s.now + d)
    case Run(t, reply) => Advance(s, t, reply)
  }

  predicate Initial(s: State) {
    && s.renewing == None
    && s.cache == map[] && s.inflight == map[]
    && s.calls == [] && s.threads == []
    && s.issued == [TokenPair(s.access, s.refresh)]
    && s.exchanges == [] && s.heard == [] && s.stored == []
  }

  predicate RunsTo(s: State, steps: seq<Step>, s': State)
    decreases |steps|
  {
    if steps == [] then s' == s
    else CanTake(s, steps[0]) && RunsTo(Take(s, steps[0]), steps[1..], s')
  }

  ghost predicate Reachable(s: State) {
    exists s0, steps :: Initial(s0) && RunsTo(s0, steps, s)
  }
}
