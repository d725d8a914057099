/**
 * The stateful side of the rate limiter: the shared counter store that
 * `_increment_counter` updates, the response whose headers
 * `_add_rate_limit_headers` writes in place, the middleware object tying
 * them to the decision functions of `RateLimiting`, and the in-process
 * sliding-log `InMemoryRateLimiter`.
 */
module Middleware {
  import opened Outcomes
  import opened RateLimiting
  import opened Strings
  import Config

  /** The shared counter store (a Redis database), reduced to its counters. */
  class CounterStore {
    var counts: Counters

    constructor ()
      ensures counts == map[]
    {
      counts := map[];
    }

    /**
     * One pipelined `INCR key` + `EXPIRE key ttl`. `outcome` says how the
     * round trip ends; when it fails before reaching the server nothing is
     * changed, and when only the reply is lost the counter has moved; in both
     * cases the pipeline raises.
     */
    method IncrWithExpiry(key: string, ttl: nat, outcome: StoreOutcome) returns (r: Option<nat>)
      modifies this
      ensures outcome.Reachable? ==>
        r == Some(Count(old(counts), key) + 1) && counts == old(counts)[key := Count(old(counts), key) + 1]
      ensures outcome.Unreachable? ==> r == None && counts == old(counts)
      ensures outcome.ReplyLost? ==> r == None && counts == old(counts)[key := Count(old(counts), key) + 1]
    {
      if outcome.Unreachable? {
        return None;
      }
      var n := Count(counts, key) + 1;
      counts := counts[key := n];
      if outcome.ReplyLost? {
        return None;
      }
      return Some(n);
    }
  }

  /** An HTTP response: status, headers, and the JSON body of a rejection built by the middleware. */
  class Response {
    var status: nat
    var headers: map<string, string>
    var rejection: Option<RejectionBody>

    constructor (status: nat, headers: map<string, string>, rejection: Option<RejectionBody>)
      ensures this.status == status && this.headers == headers && this.rejection == rejection
    {
      this.status := status;
      this.headers := headers;
      this.rejection := rejection;
    }
  }

  /** Six assignments into a map amount to merging the display of the six pairs, the later of equal keys winning. */
  lemma UpdatesAsUnion<K, V>(m: map<K, V>, k1: K, v1: V, k2: K, v2: V, k3: K, v3: V,
                             k4: K, v4: V, k5: K, v5: V, k6: K, v6: V)
    ensures m[k1 := v1][k2 := v2][k3 := v3][k4 := v4][k5 := v5][k6 := v6]
         == m + map[k1 := v1, k2 := v2, k3 := v3, k4 := v4, k5 := v5, k6 := v6]
  {
  }

  class RateLimitMiddleware {
    /** The store client; `null` when none was given and connecting failed. */
    const store: CounterStore?
    const endpointLimits: EndpointTable
    const defaults: Policy

    /** The route table is fixed; the defaults come from the settings. */
    constructor (store: CounterStore?, settings: Config.Settings)
      ensures this.store == store && endpointLimits == EndpointLimits && defaults == DefaultPolicy(settings)
    {
      this.store := store;
      endpointLimits := EndpointLimits;
      defaults := DefaultPolicy(settings);
    }

    function Configuration(): MiddlewareConfig {
      MiddlewareConfig(store != null, endpointLimits, defaults)
    }

    /**
     * `_get_endpoint_limits`: the dictionary lookup for an exact match,
     * then a scan of the table in order for the first route that is a
     * prefix of the path, then the defaults.
     */
    method GetEndpointLimits(path: string) returns (limits: Policy)
      ensures limits == ResolvePolicy(endpointLimits, defaults, path)
    {
      var exact := ExactMatch(endpointLimits, path);
      if exact.Some? {
        return endpointLimits[exact.value].1;
      }
      var i := 0;
      while i < |endpointLimits|
        invariant 0 <= i <= |endpointLimits|
        invariant forall j :: 0 <= j < i ==> !StartsWith(path, endpointLimits[j].0)
      {
        if StartsWith(path, endpointLimits[i].0) {
          return endpointLimits[i].1;
        }
        i := i + 1;
      }
      return defaults;
    }

    /** `_increment_counter`: the new count, or 0 when there is no store or the store fails. */
    method IncrementCounter(key: string, ttl: nat, outcome: StoreOutcome) returns (n: nat)
      modifies store
      ensures store != null ==> (store.counts, n) == Increment(old(store.counts), key, outcome)
      ensures store == null ==> n == 0
    {
      if store == null {
        return 0;
      }
      var r := store.IncrWithExpiry(key, ttl, outcome);
      n := if r.Some? then r.value else 0;
    }

    /** `_check_rate_limits` at time `t`: counts the request in both windows and decides. */
    method CheckLimits(clientId: string, path: string, limits: Policy, t: nat, mo: StoreOutcome, ho: StoreOutcome)
      returns (r: RateLimitResult)
      modifies store
      ensures store != null ==> (store.counts, r) == CheckRateLimits(old(store.counts), clientId, path, limits, t, mo, ho)
      ensures store == null ==> r == CheckRateLimits(map[], clientId, path, limits, t, Unreachable, Unreachable).1
    {
      ghost var before := if store != null then store.counts else map[];
      var minuteKey := WindowKey(clientId, path, Minute, t / 60);
      assert minuteKey == WindowKey(clientId, path, Minute, WindowIndex(Minute, t));
      var minuteCount := IncrementCounter(minuteKey, 60, mo);
      ghost var (afterMinute, m) := Increment(before, minuteKey, if store != null then mo else Unreachable);
      assert minuteCount == m && (store != null ==> store.counts == afterMinute);
      var hourKey := WindowKey(clientId, path, Hour, t / 3600);
      assert hourKey == WindowKey(clientId, path, Hour, WindowIndex(Hour, t));
      var hourCount := IncrementCounter(hourKey, 3600, ho);
      ghost var (afterHour, h) := Increment(afterMinute, hourKey, if store != null then ho else Unreachable);
      assert hourCount == h && (store != null ==> store.counts == afterHour);
      var minuteExceeded := minuteCount > limits.requestsPerMinute;
      var hourExceeded := hourCount > limits.requestsPerHour;
      r := RateLimitResult(
        !(minuteExceeded || hourExceeded),
        minuteCount, limits.requestsPerMinute,
        hourCount, limits.requestsPerHour,
        (t / 60 + 1) * 60, (t / 3600 + 1) * 3600);
    }

    /** `_create_rate_limit_response`: a new 429 response, its delay computed at `now`. */
    method CreateRateLimitResponse(r: RateLimitResult, now: int) returns (resp: Response)
      ensures fresh(resp)
      ensures resp.status == TooManyRequests && resp.headers == RejectionHeaders(r, now)
      ensures resp.rejection == Some(RejectionContent(r, now))
    {
      resp := new Response(TooManyRequests, RejectionHeaders(r, now), Some(RejectionContent(r, now)));
    }

    /** `_add_rate_limit_headers`: writes the six headers into the response, overwriting any of the same name. */
    method AddRateLimitHeaders(response: Response, r: RateLimitResult)
      modifies response
      ensures response.headers == old(response.headers) + RateLimitHeaders(r)
      ensures response.status == old(response.status) && response.rejection == old(response.rejection)
    {
      UpdatesAsUnion(response.headers,
        LimitMinuteHeader, IntToString(r.minuteLimit),
        RemainingMinuteHeader, IntToString(Remaining(r.minuteLimit, r.minuteCount)),
        ResetMinuteHeader, IntToString(r.resetTimeMinute),
        LimitHourHeader, IntToString(r.hourLimit),
        RemainingHourHeader, IntToString(Remaining(r.hourLimit, r.hourCount)),
        ResetHourHeader, IntToString(r.resetTimeHour));
      response.headers := response.headers[LimitMinuteHeader := IntToString(r.minuteLimit)];
      response.headers := response.headers[RemainingMinuteHeader := IntToString(Remaining(r.minuteLimit, r.minuteCount))];
      response.headers := response.headers[ResetMinuteHeader := IntToString(r.resetTimeMinute)];
      response.headers := response.headers[LimitHourHeader := IntToString(r.hourLimit)];
      response.headers := response.headers[RemainingHourHeader := IntToString(Remaining(r.hourLimit, r.hourCount))];
      response.headers := response.headers[ResetHourHeader := IntToString(r.resetTimeHour)];
    }

    /**
     * `dispatch`. `downstream` is the response the application would give
     * (`call_next`); `forwarded` tells whether the request reached it. The
     * request is counted at `t`; a rejection's delay is computed at `now`.
     * The outcome is the one `RateLimiting.Dispatch` prescribes.
     */
    method Dispatch(req: Request, t: nat, now: int, mo: StoreOutcome, ho: StoreOutcome, downstream: Response)
      returns (resp: Response, forwarded: bool)
      modifies store, downstream
      ensures var d := RateLimiting.Dispatch(Configuration(), if store != null then old(store.counts) else map[], req, t, now, mo, ho);
        (store != null ==> store.counts == d.0) &&
        (d.1.PassThrough? ==>
           (resp == downstream && forwarded &&
            downstream.headers == old(downstream.headers) && downstream.status == old(downstream.status) &&
            downstream.rejection == old(downstream.rejection))) &&
        (d.1.PassThroughWithHeaders? ==>
           (resp == downstream && forwarded &&
            downstream.headers == old(downstream.headers) + d.1.headers && downstream.status == old(downstream.status) &&
            downstream.rejection == old(downstream.rejection))) &&
        (d.1.Reject? ==>
           (!forwarded && fresh(resp) && resp.status == d.1.status && resp.headers == d.1.headers &&
            resp.rejection == Some(d.1.body) && unchanged(downstream)))
    {
      if store == null || ShouldSkipRateLimiting(req.path) {
        return downstream, true;
      }
      var clientId := ClientIdentifier(req);
      var limits := GetEndpointLimits(req.path);
      var r := CheckLimits(clientId, req.path, limits, t, mo, ho);
      if !r.allowed {
        resp := CreateRateLimitResponse(r, now);
        return resp, false;
      }
      AddRateLimitHeaders(downstream, r);
      return downstream, true;
    }
  }

  /** The timestamps of `ts` later than `windowStart`, in their order. */
  function KeepRecent(ts: seq<int>, windowStart: int): (r: seq<int>)
    ensures |r| <= |ts|
    ensures forall i :: 0 <= i < |r| ==> r[i] > windowStart
    ensures forall x :: x in r <==> x in ts && x > windowStart
  {
    if ts == [] then []
    else
      var last := ts[|ts| - 1];
      KeepRecent(ts[..|ts| - 1], windowStart) + (if last > windowStart then [last] else [])
  }

  /** Pruning keeps each recent timestamp as many times as it was logged, so the count the limiter compares is exact. */
  lemma {:induction false} KeepRecentCounts(ts: seq<int>, windowStart: int)
    ensures forall x :: multiset(KeepRecent(ts, windowStart))[x] == if x > windowStart then multiset(ts)[x] else 0
  {
    if ts != [] {
      var last := ts[|ts| - 1];
      assert ts == ts[..|ts| - 1] + [last];
      KeepRecentCounts(ts[..|ts| - 1], windowStart);
    }
  }

  /** Pruning works timestamp by timestamp, so it keeps the survivors in their order. */
  lemma {:induction false} KeepRecentAppend(a: seq<int>, b: seq<int>, windowStart: int)
    ensures KeepRecent(a + b, windowStart) == KeepRecent(a, windowStart) + KeepRecent(b, windowStart)
    decreases |b|
  {
    if b == [] {
      assert a + b == a;
    } else {
      var last := b[|b| - 1];
      assert (a + b)[..|a + b| - 1] == a + b[..|b| - 1];
      KeepRecentAppend(a, b[..|b| - 1], windowStart);
    }
  }

  /** Pruning keeps a list whose timestamps are all recent as it is. */
  lemma {:induction false} KeepRecentAllRecent(ts: seq<int>, windowStart: int)
    requires forall i :: 0 <= i < |ts| ==> ts[i] > windowStart
    ensures KeepRecent(ts, windowStart) == ts
  {
    if ts != [] {
      KeepRecentAllRecent(ts[..|ts| - 1], windowStart);
    }
  }

  function Log(requests: map<string, seq<int>>, clientId: string): seq<int> {
    if clientId in requests then requests[clientId] else []
  }

  /**
   * One call of `is_allowed(client_id, limit, window)` at `now`: the
   * client's log is pruned to timestamps after `now - window`; the call is
   * refused iff at least `limit` remain, and otherwise `now` is appended.
   */
  function SlidingLogStep(requests: map<string, seq<int>>, clientId: string, limit: int, window: int, now: int)
    : (res: (map<string, seq<int>>, bool))
    ensures var kept := KeepRecent(Log(requests, clientId), now - window);
      res.1 == (|kept| < limit) && clientId in res.0 &&
      res.0[clientId] == (if res.1 then kept + [now] else kept)
    ensures forall c :: c != clientId ==> (c in res.0 <==> c in requests) && Log(res.0, c) == Log(requests, c)
  {
    var kept := KeepRecent(Log(requests, clientId), now - window);
    var allowed := |kept| < limit;
    (requests[clientId := if allowed then kept + [now] else kept], allowed)
  }

  /** Every client's log holds at most `limit` timestamps. */
  predicate WithinLimit(requests: map<string, seq<int>>, limit: int) {
    forall c :: c in requests ==> |requests[c]| <= limit
  }

  /** Calls with one limit keep every log within that limit. */
  lemma SlidingLogStaysWithinLimit(requests: map<string, seq<int>>, clientId: string, limit: int, window: int, now: int)
    requires limit >= 0 && WithinLimit(requests, limit)
    ensures WithinLimit(SlidingLogStep(requests, clientId, limit, window, now).0, limit)
  {
    var res := SlidingLogStep(requests, clientId, limit, window, now);
    forall c | c in res.0
      ensures |res.0[c]| <= limit
    {
      if c != clientId {
        assert res.0[c] == Log(requests, c);
      }
    }
  }

  /** One client calling at each of `times` in turn, with one limit and window. */
  function SlidingLogRun(requests: map<string, seq<int>>, clientId: string, limit: int, window: int, times: seq<int>)
    : (res: (map<string, seq<int>>, seq<bool>))
    ensures |res.1| == |times|
    decreases |times|
  {
    if times == [] then (requests, [])
    else
      var step := SlidingLogStep(requests, clientId, limit, window, times[0]);
      var rest := SlidingLogRun(step.0, clientId, limit, window, times[1..]);
      (rest.0, [step.1] + rest.1)
  }

  /** No timestamp of the run falls out of the window of any later call. */
  predicate WithinOneWindow(times: seq<int>, window: int) {
    forall i, j :: 0 <= j < i < |times| ==> times[i] - window < times[j]
  }

  /** A call on a log whose timestamps are all recent prunes nothing. */
  lemma SlidingLogStepOnRecentLog(requests: map<string, seq<int>>, clientId: string, limit: int, window: int, now: int)
    requires forall j :: 0 <= j < |Log(requests, clientId)| ==> now - window < Log(requests, clientId)[j]
    ensures var prior, step := Log(requests, clientId), SlidingLogStep(requests, clientId, limit, window, now);
      step.1 == (|prior| < limit) && Log(step.0, clientId) == (if step.1 then prior + [now] else prior)
  {
    KeepRecentAllRecent(Log(requests, clientId), now - window);
  }

  /** After one call of a run within one window, the log is still recent for every later call. */
  lemma StepKeepsLogRecent(prior: seq<int>, next: seq<int>, times: seq<int>, window: int)
    requires |times| > 0 && (next == prior || next == prior + [times[0]])
    requires forall j, i :: 0 <= j < |prior| && 0 <= i < |times| ==> times[i] - window < prior[j]
    requires WithinOneWindow(times, window)
    ensures WithinOneWindow(times[1..], window)
    ensures forall j, i :: 0 <= j < |next| && 0 <= i < |times| - 1 ==> times[1..][i] - window < next[j]
  {
    forall j, i | 0 <= j < |next| && 0 <= i < |times| - 1
      ensures times[1..][i] - window < next[j]
    {
      assert times[1..][i] == times[i + 1];
      if j < |prior| {
        assert next[j] == prior[j];
      } else {
        assert next[j] == times[0];
      }
    }
    forall i, j | 0 <= j < i < |times| - 1
      ensures times[1..][i] - window < times[1..][j]
    {
      assert times[1..][i] == times[i + 1] && times[1..][j] == times[j + 1];
    }
  }

  /** Prefixing the first call's answer to the answers of the rest. */
  lemma AnswersInTurn(answers: seq<bool>, later: seq<bool>, first: bool, n: int, nextLen: int, limit: int)
    requires answers == [first] + later && first == (n < limit)
    requires nextLen == (if first then n + 1 else n)
    requires forall i :: 0 <= i < |later| ==> later[i] == (nextLen + i < limit)
    ensures forall i :: 0 <= i < |answers| ==> answers[i] == (n + i < limit)
  {
    forall i | 0 < i < |answers|
      ensures answers[i] == (n + i < limit)
    {
      assert answers[i] == later[i - 1];
    }
  }

  /**
   * While nothing expires, a call is accepted iff fewer than `limit`
   * timestamps are already logged.
   */
  lemma {:induction false} SlidingLogRunAccepts(requests: map<string, seq<int>>, clientId: string, limit: int, window: int,
                                                times: seq<int>)
    requires forall j, i :: 0 <= j < |Log(requests, clientId)| && 0 <= i < |times| ==>
      times[i] - window < Log(requests, clientId)[j]
    requires WithinOneWindow(times, window)
    ensures forall i :: 0 <= i < |times| ==>
      SlidingLogRun(requests, clientId, limit, window, times).1[i] == (|Log(requests, clientId)| + i < limit)
    decreases |times|
  {
    if times != [] {
      var prior := Log(requests, clientId);
      SlidingLogStepOnRecentLog(requests, clientId, limit, window, times[0]);
      var step := SlidingLogStep(requests, clientId, limit, window, times[0]);
      var next := Log(step.0, clientId);
      StepKeepsLogRecent(prior, next, times, window);
      SlidingLogRunAccepts(step.0, clientId, limit, window, times[1..]);
      var later := SlidingLogRun(step.0, clientId, limit, window, times[1..]);
      AnswersInTurn(SlidingLogRun(requests, clientId, limit, window, times).1, later.1, step.1, |prior|, |next|, limit);
    }
  }

  /** From an empty log, within one window, the first `limit` calls are accepted and every later one refused. */
  lemma SlidingLogNthAllowedNextRejected(requests: map<string, seq<int>>, clientId: string, limit: int, window: int, times: seq<int>)
    requires clientId !in requests
    requires WithinOneWindow(times, window)
    ensures forall i :: 0 <= i < |times| ==> SlidingLogRun(requests, clientId, limit, window, times).1[i] == (i < limit)
  {
    SlidingLogRunAccepts(requests, clientId, limit, window, times);
  }

  /** The comprehension that prunes a log: one pass, keeping the timestamps after `windowStart` in order. */
  method PruneLog(log: seq<int>, windowStart: int) returns (kept: seq<int>)
    ensures kept == KeepRecent(log, windowStart)
  {
    kept := [];
    for i := 0 to |log|
      invariant kept == KeepRecent(log[..i], windowStart)
    {
      assert log[..i + 1][..i] == log[..i];
      if log[i] > windowStart {
        kept := kept + [log[i]];
      }
    }
    assert log[..|log|] == log;
  }

  /** The in-process sliding-log limiter: per client, the timestamps of its accepted calls. */
  class InMemoryRateLimiter {
    var requests: map<string, seq<int>>

    constructor ()
      ensures requests == map[]
    {
      requests := map[];
    }

    /** `is_allowed` at time `now` (whole seconds): prunes the client's log in place, then accepts or refuses. */
    method IsAllowed(clientId: string, limit: int, window: int, now: int) returns (allowed: bool)
      modifies this
      ensures (requests, allowed) == SlidingLogStep(old(requests), clientId, limit, window, now)
    {
      var kept: seq<int> := [];
      if clientId in requests {
        kept := PruneLog(requests[clientId], now - window);
      }
      requests := requests[clientId := kept];
      if |requests[clientId]| >= limit {
        return false;
      }
      requests := requests[clientId := requests[clientId] + [now]];
      assert requests == old(requests)[clientId := kept + [now]];
      return true;
    }
  }
}
