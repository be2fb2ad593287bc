/** The HTTP endpoints' decisions (app.py): the per-address sliding-window rate
    limiter, the order of the checks in `tailor_resume`, the health predicate
    and the reconnect endpoint. The clock is an input (`now`, in seconds). */
module App {
  import opened Wrappers
  import opened Text
  import McpPool
  import ToolLoop

  /** `RATE_LIMIT_WINDOW`, in seconds */
  const RateLimitWindow: real := 60.0
  /** `RATE_LIMIT_MAX_REQUESTS` */
  const RateLimitMaxRequests: nat := 10
  /** The size the application's pool is created with */
  const PoolSize: int := 3

  // ---------------------------------------------------------------- the rate limiter

  /** The timestamps still inside the window at `now`, in their order */
  function Recent(times: seq<real>, now: real): (kept: seq<real>)
    ensures |kept| <= |times|
    ensures forall t :: t in kept <==> t in times && now - t < RateLimitWindow
  {
    if times == [] then []
    else
      var t := times[|times| - 1];
      Recent(times[..|times| - 1], now) + (if now - t < RateLimitWindow then [t] else [])
  }

  /** `a` is `b` with some elements left out, the rest in their order */
  predicate SubsequenceOf(a: seq<real>, b: seq<real>)
    decreases |b|
  {
    if a == [] then true
    else if b == [] then false
    else if a[|a| - 1] == b[|b| - 1] then SubsequenceOf(a[..|a| - 1], b[..|b| - 1])
    else SubsequenceOf(a, b[..|b| - 1])
  }

  lemma {:induction false} SubsequenceAppend(a: seq<real>, b: seq<real>, x: real)
    requires SubsequenceOf(a, b)
    ensures SubsequenceOf(a, b + [x])
    decreases |b|, 1
  {
    assert (b + [x])[..|b|] == b;
    if a != [] && a[|a| - 1] == x {
      SubsequenceDropLast(a, b);
    }
  }

  lemma {:induction false} SubsequenceDropLast(a: seq<real>, b: seq<real>)
    requires a != [] && SubsequenceOf(a, b)
    ensures SubsequenceOf(a[..|a| - 1], b)
    decreases |b|, 0
  {
    var b' := b[..|b| - 1];
    assert b == b' + [b[|b| - 1]];
    if a[|a| - 1] == b[|b| - 1] {
      SubsequenceAppend(a[..|a| - 1], b', b[|b| - 1]);
    } else {
      SubsequenceDropLast(a, b');
      SubsequenceAppend(a[..|a| - 1], b', b[|b| - 1]);
    }
  }

  lemma {:induction false} SubsequenceBoth(a: seq<real>, b: seq<real>, x: real)
    requires SubsequenceOf(a, b)
    ensures SubsequenceOf(a + [x], b + [x])
  {
    assert (a + [x])[..|a|] == a;
    assert (b + [x])[..|b|] == b;
  }

  /** Pruning keeps the surviving timestamps in their original order. */
  lemma {:induction false} RecentInOrder(times: seq<real>, now: real)
    ensures SubsequenceOf(Recent(times, now), times)
  {
    if times != [] {
      var init := times[..|times| - 1];
      var t := times[|times| - 1];
      RecentInOrder(init, now);
      assert times == init + [t];
      if now - t < RateLimitWindow {
        SubsequenceBoth(Recent(init, now), init, t);
      } else {
        assert Recent(times, now) == Recent(init, now);
        SubsequenceAppend(Recent(init, now), init, t);
      }
    }
  }

  /** Pruning keeps every timestamp inside the window as often as it occurs,
      duplicates included, and no other. */
  lemma {:induction false} RecentCounts(times: seq<real>, now: real)
    ensures forall t ::
              multiset(Recent(times, now))[t] == if now - t < RateLimitWindow then multiset(times)[t] else 0
  {
    if times != [] {
      var init := times[..|times| - 1];
      var last := times[|times| - 1];
      RecentCounts(init, now);
      assert times == init + [last];
    }
  }

  /** One `check_rate_limit` on the list held for an address: whether the
      request is admitted, and the list kept afterwards */
  function Admit(times: seq<real>, now: real): (bool, seq<real>)
  {
    var kept := Recent(times, now);
    if |kept| >= RateLimitMaxRequests then (false, kept) else (true, kept + [now])
  }

  /** What `check_rate_limit` promises: a request is admitted iff fewer than ten
      requests remain inside the window; only an admitted request is recorded,
      at the end; every timestamp kept is inside the window (one exactly
      sixty seconds old is gone), in its original order; and a list of at most
      ten entries stays at most ten long. */
  lemma AdmitSpec(times: seq<real>, now: real)
    ensures var (admitted, after) := Admit(times, now);
      && (admitted <==> |Recent(times, now)| < RateLimitMaxRequests)
      && (admitted ==> |after| >= 1 && after[|after| - 1] == now && after[..|after| - 1] == Recent(times, now))
      && (!admitted ==> after == Recent(times, now))
      && (forall t :: t in after ==> now - t < RateLimitWindow)
      && (forall t :: t in times && now - t >= RateLimitWindow ==> t !in after)
      && SubsequenceOf(after, times + [now])
      && (|times| <= RateLimitMaxRequests ==> |after| <= RateLimitMaxRequests)
  {
    var kept := Recent(times, now);
    RecentInOrder(times, now);
    if |kept| < RateLimitMaxRequests {
      assert (kept + [now])[..|kept|] == kept;
      SubsequenceBoth(kept, times, now);
    } else {
      SubsequenceAppend(kept, times, now);
    }
  }

  /** The global `request_counts`: the timestamps of recent requests per address */
  class RateLimiter {
    var requestCounts: map<string, seq<real>>

    constructor ()
      ensures requestCounts == map[]
    {
      requestCounts := map[];
    }

    /** `request_counts[ip]`, which a `defaultdict(list)` reads as [] when absent */
    function Times(ip: string): seq<real>
      reads this
    {
      if ip in requestCounts then requestCounts[ip] else []
    }

    /** No address holds more than ten timestamps. */
    predicate Valid()
      reads this
    {
      forall ip :: ip in requestCounts ==> |requestCounts[ip]| <= RateLimitMaxRequests
    }

    /** `check_rate_limit`: prune the address's list, then admit and record
        the request or reject it; no other address's list is touched */
    method CheckRateLimit(ip: string, now: real) returns (admitted: bool)
      modifies this
      ensures ip in requestCounts && (admitted, requestCounts[ip]) == Admit(old(Times(ip)), now)
      ensures requestCounts == old(requestCounts)[ip := Admit(old(Times(ip)), now).1]
      ensures forall other :: other != ip ==> Times(other) == old(Times(other))
      ensures old(Valid()) ==> Valid()
    {
      var kept := Recent(Times(ip), now);
      requestCounts := requestCounts[ip := kept];
      if |kept| >= RateLimitMaxRequests {
        return false;
      }
      requestCounts := requestCounts[ip := requestCounts[ip] + [now]];
      return true;
    }
  }

  // ---------------------------------------------------------------- tailor_resume

  /** An endpoint's reply: the JSON body, or the HTTPException raised */
  datatype Response = Ok(result: string) | HttpError(status: nat, detail: string)

  const RateLimited := "Rate limit exceeded. Please try again later."
  const MissingFields := "Missing resume_data or job_description"
  const Reconnected := "MCP pool reconnected successfully"

  /** `str(e)` of an `HTTPException`: the status code, ": " and the detail */
  function ExceptionText(status: nat, detail: string): string
  {
    NatToString(status) + ": " + detail
  }

  /** The `try` block of `tailor_resume`: the rate limit, then the two fields,
      then the pool's result */
  function TryBody(admitted: bool, resumeData: string, jobDescription: string, result: string): (resp: Response)
    ensures !admitted ==> resp == HttpError(429, RateLimited)
    ensures admitted && (resumeData == "" || jobDescription == "") ==> resp == HttpError(400, MissingFields)
    ensures admitted && resumeData != "" && jobDescription != "" ==>
      resp == (if StartsWith(result, "Error:") then HttpError(503, result) else Ok(result))
  {
    if !admitted then HttpError(429, RateLimited)
    else if resumeData == "" || jobDescription == "" then HttpError(400, MissingFields)
    else if StartsWith(result, "Error:") then HttpError(503, result)
    else Ok(result)
  }

  /** `tailor_resume`'s reply: the blanket `except Exception` turns every
      exception of the `try` block into a 500 whose detail is its text. The
      pool's result is only consulted once both earlier checks pass. */
  function Respond(admitted: bool, resumeData: string, jobDescription: string, result: string): (resp: Response)
    ensures resp.HttpError? ==> resp.status == 500
    ensures resp.Ok? <==> admitted && resumeData != "" && jobDescription != "" && !StartsWith(result, "Error:")
    ensures resp.Ok? ==> resp.result == result
    ensures !admitted ==> resp == HttpError(500, ExceptionText(429, RateLimited))
    ensures admitted && (resumeData == "" || jobDescription == "") ==> resp == HttpError(500, ExceptionText(400, MissingFields))
    ensures admitted && resumeData != "" && jobDescription != "" && StartsWith(result, "Error:") ==>
      resp == HttpError(500, ExceptionText(503, result))
  {
    match TryBody(admitted, resumeData, jobDescription, result)
    case Ok(r) => Ok(r)
    case HttpError(status, detail) => HttpError(500, ExceptionText(status, detail))
  }

  /** A query that raised is served as a successful result, since its text
      does not start with "Error:", while an empty pool is a 500. */
  lemma PoolAnswers(resumeData: string, jobDescription: string, e: ToolLoop.QueryError, describe: ToolLoop.QueryError -> string)
    requires resumeData != "" && jobDescription != ""
    ensures Respond(true, resumeData, jobDescription, McpPool.Answer(Failure(e), describe)).Ok?
    ensures Respond(true, resumeData, jobDescription, McpPool.NoConnections).HttpError?
  {
    McpPool.FailureNotErrorPrefixed(e, describe);
    assert McpPool.NoConnections[..6] == "Error:";
  }

  /** `client_ip`: the X-Forwarded-For header, else the peer's host */
  function ClientKey(forwardedFor: Option<string>, host: string): string
  {
    if forwardedFor.Some? then forwardedFor.value else host
  }

  /** `tailor_resume`: the rate limiter is always consulted first; the pool is
      used only for an admitted request with both fields present */
  method TailorResume(limiter: RateLimiter, pool: McpPool.Pool, forwardedFor: Option<string>, host: string, now: real,
                      resumeData: string, jobDescription: string,
                      prompt: (string, string) -> string, listed: bool,
                      model: ToolLoop.Model, tools: ToolLoop.Tools, parse: ToolLoop.UrlParser,
                      describe: ToolLoop.QueryError -> string, reconnectOk: bool)
    returns (resp: Response)
    requires pool.Valid()
    modifies limiter, pool, pool.available
    ensures pool.Valid()
    ensures var ip := ClientKey(forwardedFor, host);
      limiter.requestCounts == old(limiter.requestCounts)[ip := Admit(old(limiter.Times(ip)), now).1]
    ensures var admitted := Admit(old(limiter.Times(ClientKey(forwardedFor, host))), now).0;
      if admitted && resumeData != "" && jobDescription != "" then
        resp == Respond(true, resumeData, jobDescription,
                        if old(pool.available) == [] then McpPool.NoConnections
                        else McpPool.Answer(ToolLoop.QueryOutcome(prompt(resumeData, jobDescription), listed, model, tools, parse).0, describe))
      else
        && resp == Respond(admitted, resumeData, jobDescription, "")
        && pool.available == old(pool.available) && pool.inUse == old(pool.inUse)
        && forall d :: d in old(pool.available) ==> d.connected == old(d.connected)
    ensures var admitted := Admit(old(limiter.Times(ClientKey(forwardedFor, host))), now).0;
      admitted && resumeData != "" && jobDescription != "" && old(pool.available) != [] ==>
        var c := old(pool.available)[|old(pool.available)| - 1];
        var back := old(c.connected) || McpPool.Connects(pool.serverPath, reconnectOk);
        && pool.available == old(pool.available)[..|old(pool.available)| - 1] + (if back then [c] else [])
        && pool.inUse == old(pool.inUse)
        && c.connected == back
        && forall d :: d in old(pool.available) && d != c ==> d.connected == old(d.connected)
    ensures var admitted := Admit(old(limiter.Times(ClientKey(forwardedFor, host))), now).0;
      admitted && resumeData != "" && jobDescription != "" && old(pool.available) == [] ==>
        pool.available == old(pool.available) && pool.inUse == old(pool.inUse)
    ensures pool.initialized == old(pool.initialized) && pool.cleanupDone == old(pool.cleanupDone)
  {
    var ip := ClientKey(forwardedFor, host);
    var admitted := limiter.CheckRateLimit(ip, now);
    assert pool.available == old(pool.available);
    assert forall d :: d in pool.available ==> d.connected == old(d.connected);
    resp := Serve(pool, admitted, resumeData, jobDescription, prompt, listed, model, tools, parse, describe, reconnectOk);
  }

  /** The rest of `tailor_resume`'s `try` block once the rate limit is decided:
      the two fields, then the pool */
  method Serve(pool: McpPool.Pool, admitted: bool, resumeData: string, jobDescription: string,
               prompt: (string, string) -> string, listed: bool,
               model: ToolLoop.Model, tools: ToolLoop.Tools, parse: ToolLoop.UrlParser,
               describe: ToolLoop.QueryError -> string, reconnectOk: bool)
    returns (resp: Response)
    requires pool.Valid()
    modifies pool, pool.available
    ensures pool.Valid()
    ensures if admitted && resumeData != "" && jobDescription != "" then
        resp == Respond(true, resumeData, jobDescription,
                        if old(pool.available) == [] then McpPool.NoConnections
                        else McpPool.Answer(ToolLoop.QueryOutcome(prompt(resumeData, jobDescription), listed, model, tools, parse).0, describe))
      else
        && resp == Respond(admitted, resumeData, jobDescription, "")
        && pool.available == old(pool.available) && pool.inUse == old(pool.inUse)
        && forall d :: d in old(pool.available) ==> d.connected == old(d.connected)
    ensures admitted && resumeData != "" && jobDescription != "" && old(pool.available) != [] ==>
        var c := old(pool.available)[|old(pool.available)| - 1];
        var back := old(c.connected) || McpPool.Connects(pool.serverPath, reconnectOk);
        && pool.available == old(pool.available)[..|old(pool.available)| - 1] + (if back then [c] else [])
        && pool.inUse == old(pool.inUse)
        && c.connected == back
        && forall d :: d in old(pool.available) && d != c ==> d.connected == old(d.connected)
    ensures admitted && resumeData != "" && jobDescription != "" && old(pool.available) == [] ==>
        pool.available == old(pool.available) && pool.inUse == old(pool.inUse)
    ensures pool.initialized == old(pool.initialized) && pool.cleanupDone == old(pool.cleanupDone)
  {
    if !admitted || resumeData == "" || jobDescription == "" {
      return Respond(admitted, resumeData, jobDescription, "");
    }
    var result := pool.ProcessResumeRequest(resumeData, jobDescription, prompt, listed, model, tools, parse, describe, reconnectOk);
    resp := Respond(true, resumeData, jobDescription, result);
  }

  // ---------------------------------------------------------------- health

  /** The `mcp_pool` part of the health report */
  datatype PoolStatus = PoolStatus(availableConnections: nat, connectionsInUse: nat, poolInitialized: bool, totalPoolSize: int)

  /** The health report and the status code it is sent with */
  datatype Health = Health(healthy: bool, statusCode: nat, pool: PoolStatus)

  /** `health_check` */
  function HealthCheck(pool: McpPool.Pool): (h: Health)
    reads pool
    ensures h.healthy <==> pool.initialized && |pool.available| > 0
    ensures h.statusCode == (if h.healthy then 200 else 503)
    ensures h.pool == PoolStatus(|pool.available|, |pool.inUse|, pool.initialized, pool.poolSize)
  {
    var healthy := pool.Healthy();
    Health(healthy, if healthy then 200 else 503, PoolStatus(|pool.available|, |pool.inUse|, pool.initialized, pool.poolSize))
  }

  /** `force_reconnect`: clean up, then initialize. Since cleaning up does not
      reset `initialized`, once the pool has been initialized this empties it
      for good and leaves it unhealthy, whatever the transport does, though the
      reply reports success. `McpPool.Pool.Restart` is the reconnection that
      was evidently meant. */
  method ForceReconnect(pool: McpPool.Pool, transport: nat -> bool) returns (resp: Response)
    requires pool.Valid()
    modifies pool, pool.Clients()
    ensures pool.Valid()
    ensures resp == Ok(Reconnected)
    ensures pool.initialized && pool.cleanupDone
    ensures old(pool.initialized) && !old(pool.cleanupDone) ==>
      pool.available == [] && pool.inUse == {} && !HealthCheck(pool).healthy
    ensures old(pool.initialized) && old(pool.cleanupDone) ==>
      pool.available == old(pool.available) && pool.inUse == old(pool.inUse)
  {
    pool.CleanupPool();
    pool.InitializePool(transport);
    return Ok(Reconnected);
  }

  /** The reconnect endpoint as evidently meant: every earlier client is
      disconnected, the pool holds the clients of the new attempts, and the
      health check reports healthy exactly when one of them connected. */
  method Reconnect(pool: McpPool.Pool, transport: nat -> bool) returns (resp: Response)
    requires pool.Valid()
    modifies pool, pool.Clients()
    ensures pool.Valid()
    ensures resp == Ok(Reconnected)
    ensures forall c :: c in old(pool.Clients()) ==> !c.connected
    ensures pool.initialized && pool.inUse == {}
    ensures |pool.available| == McpPool.Successes(pool.serverPath, transport, McpPool.Attempts(pool.poolSize))
    ensures HealthCheck(pool).healthy <==>
      McpPool.Successes(pool.serverPath, transport, McpPool.Attempts(pool.poolSize)) > 0
  {
    pool.Restart(transport);
    return Ok(Reconnected);
  }
}
