/**
  The live connection to one backup server: its token pair, its response cache and its table
  of fetches in progress.

  Each method is one mutex-protected block.  What a block computes is written once, as a
  function on values; the class proves its methods against those functions, and the state
  machine in `Protocol` takes its atomic steps with the same functions.

  Times are whole seconds on one monotonic clock, passed in as `now`.
 */
module Session {
  import opened Wrappers

  type Path = string
  type Body = string
  type Token = string

  datatype ApiError = ApiError(status: int)
  type Outcome = Result<Body, ApiError>
  datatype CacheEntry = CacheEntry(at: int, body: Body)

  const CACHE_TTL := 60
  const STALE_TTL := 1800

  predicate Cacheable(path: Path) {
    "v1/jobs" <= path || "v1/backupInfrastructure/" <= path
  }

  /** The copy of `path` if it is at most `ttl` old. */
  function Lookup(cache: map<Path, CacheEntry>, path: Path, now: int, ttl: int): Option<Body> {
    if path !in cache || now - cache[path].at > ttl then None else Some(cache[path].body)
  }

  function Put(cache: map<Path, CacheEntry>, path: Path, body: Body, now: int): map<Path, CacheEntry> {
    cache[path := CacheEntry(now, body)]
  }

  /** The table after a caller asked for `path`: a listed call is joined, otherwise `call` is listed. */
  function ListCall<C>(inflight: map<Path, C>, path: Path, call: C): map<Path, C> {
    if path in inflight then inflight else inflight[path := call]
  }

  /** With no lifetime from the server the expiry stays unknown and renewal waits for a 401. */
  function Expiry(now: int, expiresIn: int): Option<int> {
    if expiresIn > 0 then Some(now + expiresIn) else None
  }

  /** Less than a minute of life is left. */
  predicate AboutToExpire(expiresAt: Option<int>, now: int) {
    expiresAt.Some? && now > expiresAt.value - 60
  }

  /**
    A pair stored with a lifetime is renewed in its last minute, at once when it lives no
    longer than that; one stored without a lifetime is never renewed ahead of a 401.
   */
  lemma RenewedInItsLastMinute(now: int, expiresIn: int, later: int)
    ensures AboutToExpire(Expiry(now, expiresIn), later) <==> expiresIn > 0 && later - now > expiresIn - 60
    ensures AboutToExpire(Expiry(now, expiresIn), now) <==> 0 < expiresIn < 60
  {
  }

  /** A fetch in progress: `closed` is its done channel. */
  class InflightCall {
    var result: Option<Outcome>
    var closed: bool

    constructor ()
      ensures result == None && !closed
    {
      result, closed := None, false;
    }
  }

  class Session {
    var accessToken: Token
    var refreshToken: Token
    var expiresAt: Option<int>
    var cache: map<Path, CacheEntry>
    var inflight: map<Path, InflightCall>

    /** Every listed call is still open, and no call is listed twice. */
    ghost predicate Valid()
      reads this, inflight.Values
    {
      && (forall p :: p in inflight ==> !inflight[p].closed)
      && forall p, q :: p in inflight && q in inflight && p != q ==> inflight[p] != inflight[q]
    }

    constructor (access: Token, refresh: Token, expiresIn: int, now: int)
      ensures Valid()
      ensures accessToken == access && refreshToken == refresh && expiresAt == Expiry(now, expiresIn)
      ensures cache == map[] && inflight == map[]
    {
      accessToken, refreshToken := access, refresh;
      expiresAt := Expiry(now, expiresIn);
      cache, inflight := map[], map[];
    }

    method JoinOrLead(path: Path) returns (call: InflightCall, lead: bool)
      requires Valid()
      modifies this`inflight
      ensures Valid()
      ensures lead <==> path !in old(inflight)
      ensures inflight == ListCall(old(inflight), path, call)
      ensures inflight[path] == call
      ensures lead ==> fresh(call) && call.result == None
    {
      if path in inflight {
        return inflight[path], false;
      }
      call := new InflightCall();
      inflight := inflight[path := call];
      lead := true;
    }

    /** Closing a closed channel panics, so the leader's own call must still be listed. */
    method LeadDone(path: Path, call: InflightCall, res: Outcome)
      requires Valid()
      requires path in inflight && inflight[path] == call
      modifies this`inflight, call
      ensures Valid()
      ensures inflight == old(inflight) - {path}
      ensures call.result == Some(res) && call.closed
    {
      call.result := Some(res);
      inflight := inflight - {path};
      call.closed := true;
    }

    method CacheGet(path: Path, now: int) returns (hit: Option<Body>)
      ensures hit == Lookup(cache, path, now, CACHE_TTL)
      ensures hit.Some? <==> path in cache && cache[path].at >= now - 60
      ensures hit.Some? ==> hit.value == cache[path].body
    {
      if path !in cache || now - cache[path].at > CACHE_TTL {
        return None;
      }
      return Some(cache[path].body);
    }

    method CacheGetStale(path: Path, now: int) returns (hit: Option<Body>)
      ensures hit == Lookup(cache, path, now, STALE_TTL)
      ensures hit.Some? <==> path in cache && cache[path].at >= now - 1800
      ensures hit.Some? ==> hit.value == cache[path].body
    {
      if path !in cache || now - cache[path].at > STALE_TTL {
        return None;
      }
      return Some(cache[path].body);
    }

    method CachePut(path: Path, body: Body, now: int)
      modifies this`cache
      ensures cache == Put(old(cache), path, body, now)
      // what is put is found while it is fresh, and no other path is touched
      ensures forall t, ttl :: 0 <= ttl ==> (Lookup(cache, path, t, ttl) == Some(body) <==> t <= now + ttl)
      ensures forall p, t, ttl :: p != path ==> Lookup(cache, p, t, ttl) == Lookup(old(cache), p, t, ttl)
    {
      cache := cache[path := CacheEntry(now, body)];
    }

    method SetTokens(access: Token, refresh: Token, expiresIn: int, now: int)
      modifies this`accessToken, this`refreshToken, this`expiresAt
      ensures accessToken == access && refreshToken == refresh
      ensures expiresAt == Expiry(now, expiresIn)
    {
      accessToken, refreshToken := access, refresh;
      if expiresIn > 0 {
        expiresAt := Some(now + expiresIn);
      } else {
        expiresAt := None;
      }
    }

    method CurrentToken(now: int) returns (tok: Token, stale: bool)
      ensures tok == accessToken
      // in terms of when the pair was stored and the lifetime stated then
      ensures forall stored, life :: expiresAt == Expiry(stored, life) ==>
        (stale <==> life > 0 && now - stored > life - 60)
    {
      return accessToken, expiresAt.Some? && now > expiresAt.value - 60;
    }
  }
}
