/**
 * The decision logic of the rate-limiting middleware, as functions of the
 * request, the shared counter store and the clock: exempt paths, client
 * identity, per-route policy lookup, fixed minute and hour windows counted
 * in the store, the admission decision and the headers and 429 response it
 * produces. Despite the class comment calling it a token bucket, the
 * middleware counts requests in fixed windows keyed by `t // 60` and
 * `t // 3600`, and that is what is modelled here.
 */
module RateLimiting {
  import opened Outcomes
  import opened Strings
  import Config

  // ---------------------------------------------------------------- exemption

  /** Path prefixes that are never rate limited. */
  const SkipPaths: seq<string> := ["/health", "/metrics", "/docs", "/redoc", "/openapi.json", "/static"]

  /**
   * `_should_skip_rate_limiting`: the path starts with one of `SkipPaths`.
   * Every exempt path starts with `/` and is at least as long as the
   * shortest prefix, `/docs`.
   */
  predicate ShouldSkipRateLimiting(path: string)
    ensures ShouldSkipRateLimiting(path) ==> |path| >= 5 && path[0] == '/'
  {
    exists i :: 0 <= i < |SkipPaths| && StartsWith(path, SkipPaths[i])
  }

  /** The prefix test is textual: "/healthz" is exempt, API routes and the root are not. */
  lemma SkipPathExamples()
    ensures ShouldSkipRateLimiting("/healthz")
    ensures ShouldSkipRateLimiting("/docs/oauth2-redirect")
    ensures !ShouldSkipRateLimiting("/api/users/")
    ensures !ShouldSkipRateLimiting("/")
    ensures !ShouldSkipRateLimiting("/api/health")
  {
    assert StartsWith("/healthz", SkipPaths[0]);
    assert StartsWith("/docs/oauth2-redirect", SkipPaths[2]);
    NotExemptUnderApi("/api/users/");
    NotExemptUnderApi("/api/health");
  }

  /** No exempt prefix starts with "/a", so no path under "/api" is exempt. */
  lemma NotExemptUnderApi(path: string)
    requires |path| >= 2 && path[..2] == "/a"
    ensures !ShouldSkipRateLimiting(path)
  {
    forall i | 0 <= i < |SkipPaths|
      ensures !StartsWith(path, SkipPaths[i])
    {
      assert SkipPaths[i][1] != path[1];
    }
  }

  // ---------------------------------------------------------- client identity

  /**
   * What the middleware reads from a request: the path, `request.state.user_id`
   * (rendered as text), the `X-Forwarded-For` header and the peer host.
   */
  datatype Request = Request(path: string, userId: Option<string>, forwardedFor: Option<string>, peerHost: Option<string>)

  /** Python truthiness of an optional string. */
  predicate Truthy(v: Option<string>) {
    v.Some? && v.value != []
  }

  /**
   * `_get_client_identifier`: `user:<id>` for an authenticated request;
   * otherwise `ip:` followed by the stripped first entry of a non-empty
   * `X-Forwarded-For`, or else the peer host, or else "unknown".
   */
  function ClientIdentifier(req: Request): (id: string)
    ensures Truthy(req.userId) ==> id == "user:" + req.userId.value
    ensures !Truthy(req.userId) && Truthy(req.forwardedFor) ==>
      exists first :: id == "ip:" + first && ',' !in first &&
        (first != [] ==> !IsSpace(first[0]) && !IsSpace(first[|first| - 1]))
    ensures !Truthy(req.userId) && !Truthy(req.forwardedFor) ==>
      id == "ip:" + req.peerHost.GetOr("unknown")
  {
    if Truthy(req.userId) then "user:" + req.userId.value
    else
      var clientIp :=
        if Truthy(req.forwardedFor) then Strip(Split(req.forwardedFor.value, ',')[0])
        else req.peerHost.GetOr("unknown");
      "ip:" + clientIp
  }

  /** The first piece of a split is everything before the first separator. */
  lemma {:induction false} SplitFirstPiece(first: string, rest: string, sep: char)
    requires sep !in first
    ensures Split(first + [sep] + rest, sep)[0] == first
  {
    if first == [] {
      assert first + [sep] + rest == [sep] + rest;
    } else {
      assert first + [sep] + rest == [first[0]] + (first[1..] + [sep] + rest);
      SplitFirstPiece(first[1..], rest, sep);
    }
  }

  /** Behind proxies, the identity is the client end of the chain: the first hop, stripped. */
  lemma ForwardedForFirstHop(req: Request, first: string, rest: string)
    requires !Truthy(req.userId)
    requires ',' !in first
    requires req.forwardedFor == Some(first + "," + rest)
    ensures ClientIdentifier(req) == "ip:" + Strip(first)
  {
    SplitFirstPiece(first, rest, ',');
  }

  /** With a single address in the header, the identity is that address, stripped. */
  lemma ForwardedForSingleHop(req: Request, address: string)
    requires !Truthy(req.userId) && address != []
    requires ',' !in address
    requires req.forwardedFor == Some(address)
    ensures ClientIdentifier(req) == "ip:" + Strip(address)
  {
    SplitWithoutSeparator(address, ',');
  }

  /** A request from an authenticated user never shares an identity with an anonymous one. */
  lemma UserAndAddressIdentitiesDisjoint(a: Request, b: Request)
    requires Truthy(a.userId) && !Truthy(b.userId)
    ensures ClientIdentifier(a) != ClientIdentifier(b)
  {
    assert ClientIdentifier(a)[0] == 'u';
    assert ClientIdentifier(b)[0] == 'i';
  }

  // ------------------------------------------------------------ policy lookup

  /** Limits of one route, per minute and per hour. */
  datatype Policy = Policy(requestsPerMinute: int, requestsPerHour: int)

  /** The route table in insertion order. */
  type EndpointTable = seq<(string, Policy)>

  /** The table the middleware is configured with. */
  const EndpointLimits: EndpointTable := [
    ("/api/auth/login", Policy(5, 20)),
    ("/api/auth/register", Policy(3, 10)),
    ("/api/auth/forgot-password", Policy(2, 5)),
    ("/api/users/", Policy(30, 1000))
  ]

  /** The fallback policy, from the settings. */
  function DefaultPolicy(settings: Config.Settings): (p: Policy)
    ensures p.requestsPerMinute == settings.rateLimitRequestsPerMinute && p.requestsPerHour == settings.rateLimitRequestsPerHour
  {
    Policy(settings.rateLimitRequestsPerMinute, settings.rateLimitRequestsPerHour)
  }

  /** Position of the entry whose route equals `path`, if any. */
  function ExactMatch(table: EndpointTable, path: string): (r: Option<nat>)
    ensures r.Some? ==> r.value < |table| && table[r.value].0 == path
    ensures r.None? ==> forall j :: 0 <= j < |table| ==> table[j].0 != path
  {
    if table == [] then None
    else if table[0].0 == path then Some(0)
    else match ExactMatch(table[1..], path)
      case None => None
      case Some(i) => Some(i + 1)
  }

  /** Position of the first entry, in table order, whose route is a prefix of `path`. */
  function FirstPrefixMatch(table: EndpointTable, path: string): (r: Option<nat>)
    ensures r.Some? ==> r.value < |table| && StartsWith(path, table[r.value].0)
    ensures r.Some? ==> forall j :: 0 <= j < r.value ==> !StartsWith(path, table[j].0)
    ensures r.None? ==> forall j :: 0 <= j < |table| ==> !StartsWith(path, table[j].0)
  {
    if table == [] then None
    else if StartsWith(path, table[0].0) then Some(0)
    else match FirstPrefixMatch(table[1..], path)
      case None => None
      case Some(i) => Some(i + 1)
  }

  /**
   * `_get_endpoint_limits`: the entry of the route equal to the path; else
   * the first entry in table order whose route is a prefix of the path
   * (not the longest one); else the defaults.
   */
  function ResolvePolicy(table: EndpointTable, defaults: Policy, path: string): (p: Policy)
    ensures (exists i :: 0 <= i < |table| && table[i].0 == path) ==>
      exists i :: 0 <= i < |table| && table[i].0 == path && p == table[i].1
    ensures (forall i :: 0 <= i < |table| ==> table[i].0 != path) && (exists i :: 0 <= i < |table| && StartsWith(path, table[i].0)) ==>
      exists i :: 0 <= i < |table| && StartsWith(path, table[i].0) && p == table[i].1 &&
        forall j :: 0 <= j < i ==> !StartsWith(path, table[j].0)
    ensures (forall i :: 0 <= i < |table| ==> !StartsWith(path, table[i].0)) ==> p == defaults
  {
    match ExactMatch(table, path)
    case Some(i) => table[i].1
    case None =>
      match FirstPrefixMatch(table, path)
      case Some(i) => table[i].1
      case None => defaults
  }

  /** An earlier, shorter prefix wins over a later, longer one. */
  lemma OrderedScanNotLongestPrefix()
    ensures ResolvePolicy([("/api", Policy(1, 1)), ("/api/auth", Policy(2, 2))], Policy(9, 9), "/api/auth/me") == Policy(1, 1)
  {
  }

  /** What the configured table gives for some routes, with the default limits of 60 and 1000. */
  lemma ConfiguredPolicies(secret: string)
    ensures var d := DefaultPolicy(Config.Defaults(secret));
      d == Policy(60, 1000) &&
      ResolvePolicy(EndpointLimits, d, "/api/auth/login") == Policy(5, 20) &&
      ResolvePolicy(EndpointLimits, d, "/api/auth/login/extra") == Policy(5, 20) &&
      ResolvePolicy(EndpointLimits, d, "/api/users/42") == Policy(30, 1000) &&
      ResolvePolicy(EndpointLimits, d, "/api/users") == Policy(60, 1000) &&
      ResolvePolicy(EndpointLimits, d, "/api/items") == Policy(60, 1000)
  {
    var d := DefaultPolicy(Config.Defaults(secret));
    assert StartsWith("/api/auth/login/extra", EndpointLimits[0].0);
    assert StartsWith("/api/users/42", EndpointLimits[3].0);
  }

  // ------------------------------------------------------------------ windows

  datatype WindowKind = Minute | Hour

  function WindowSeconds(kind: WindowKind): nat {
    match kind
    case Minute => 60
    case Hour => 3600
  }

  function KindName(kind: WindowKind): string {
    match kind
    case Minute => "minute"
    case Hour => "hour"
  }

  /** `t // 60` or `t // 3600`. */
  function WindowIndex(kind: WindowKind, t: nat): nat {
    t / WindowSeconds(kind)
  }

  /** The store key `rate_limit:{client}:{path}:{kind}:{index}`. */
  function WindowKey(client: string, path: string, kind: WindowKind, index: nat): (key: string)
    ensures StartsWith(key, "rate_limit:")
    ensures var tail := ":" + KindName(kind) + ":" + NatToString(index);
      |tail| <= |key| && key[|key| - |tail|..] == tail
  {
    KeyPrefix(client, path, kind) + NatToString(index)
  }

  /** `(t // 60 + 1) * 60` or `(t // 3600 + 1) * 3600`: the first window boundary after `t`. */
  function ResetTime(kind: WindowKind, t: nat): (r: nat)
    ensures r % WindowSeconds(kind) == 0
    ensures t < r <= t + WindowSeconds(kind)
  {
    (t / WindowSeconds(kind) + 1) * WindowSeconds(kind)
  }

  /** Two instants in the same minute are in the same hour. */
  lemma SameMinuteSameHour(t1: nat, t2: nat)
    requires WindowIndex(Minute, t1) == WindowIndex(Minute, t2)
    ensures WindowIndex(Hour, t1) == WindowIndex(Hour, t2)
  {
    HourOfMinute(t1);
    HourOfMinute(t2);
  }

  lemma HourOfMinute(t: nat)
    ensures t / 3600 == (t / 60) / 60
  {
    var q := t / 60;
    var a := q / 60;
    assert t == 60 * q + t % 60;
    assert q == 60 * a + q % 60;
    assert t == 3600 * a + (60 * (q % 60) + t % 60);
    assert 0 <= 60 * (q % 60) + t % 60 < 3600;
  }

  /** The next minute boundary never comes after the next hour boundary. */
  lemma MinuteResetFirst(t: nat)
    ensures ResetTime(Minute, t) <= ResetTime(Hour, t)
  {
    var m := (t / 3600 + 1) * 60;
    assert ResetTime(Hour, t) == 60 * m;
    assert (t / 60) * 60 <= t < 60 * m;
    MultipleBelow(t / 60, m);
  }

  lemma MultipleBelow(a: nat, b: nat)
    requires a * 60 < b * 60
    ensures a + 1 <= b
  {
  }

  /** Where a key ends: a prefix ending in ':' followed by digits, which hold no ':'. */
  lemma SplitAtLastColon(a1: string, d1: string, a2: string, d2: string)
    requires |a1| > 0 && a1[|a1| - 1] == ':' && |a2| > 0 && a2[|a2| - 1] == ':'
    requires AllDigits(d1) && AllDigits(d2)
    requires a1 + d1 == a2 + d2
    ensures a1 == a2 && d1 == d2
  {
    var s := a1 + d1;
    assert |d1| == |d2| by {
      assert s[|a1| - 1] == ':' && s[|a2| - 1] == ':';
    }
    assert a1 == s[..|a1|] && a2 == s[..|a2|];
    assert d1 == s[|a1|..] && d2 == s[|a2|..];
  }

  /** The `client:path` part of a key. */
  function Scope(client: string, path: string): string {
    client + ":" + path
  }

  /** The text between the scope and the window index. */
  function KindTag(kind: WindowKind): string {
    ":" + KindName(kind) + ":"
  }

  /** Everything in a key but the window index. */
  function KeyPrefix(client: string, path: string, kind: WindowKind): string {
    "rate_limit:" + Scope(client, path) + KindTag(kind)
  }

  lemma KeyPrefixInjective(c1: string, p1: string, k1: WindowKind, c2: string, p2: string, k2: WindowKind)
    requires KeyPrefix(c1, p1, k1) == KeyPrefix(c2, p2, k2)
    ensures Scope(c1, p1) == Scope(c2, p2) && k1 == k2
  {
    var a1, a2 := KeyPrefix(c1, p1, k1), KeyPrefix(c2, p2, k2);
    assert a1[|a1| - 2] == KindTag(k1)[|KindTag(k1)| - 2];
    assert a2[|a2| - 2] == KindTag(k2)[|KindTag(k2)| - 2];
    assert k1 == k2;
    var n := |KindTag(k1)|;
    assert Scope(c1, p1) == a1[11..|a1| - n];
    assert Scope(c2, p2) == a2[11..|a2| - n];
  }

  /**
   * Two keys are equal exactly when they have the same window kind and
   * index and the same `client:path` text. Minute and hour counters thus
   * never collide, and neither do two windows of one kind.
   */
  lemma WindowKeyInjective(c1: string, p1: string, k1: WindowKind, i1: nat,
                           c2: string, p2: string, k2: WindowKind, i2: nat)
    ensures WindowKey(c1, p1, k1, i1) == WindowKey(c2, p2, k2, i2) <==>
      Scope(c1, p1) == Scope(c2, p2) && k1 == k2 && i1 == i2
  {
    if WindowKey(c1, p1, k1, i1) == WindowKey(c2, p2, k2, i2) {
      SplitAtLastColon(KeyPrefix(c1, p1, k1), NatToString(i1), KeyPrefix(c2, p2, k2), NatToString(i2));
      NatToStringInjective(i1, i2);
      KeyPrefixInjective(c1, p1, k1, c2, p2, k2);
    }
  }

  /** On one path, two different clients never share a counter. */
  lemma DistinctClientsDistinctKeys(c1: string, c2: string, path: string, k: WindowKind, i: nat)
    requires c1 != c2
    ensures WindowKey(c1, path, k, i) != WindowKey(c2, path, k, i)
  {
    WindowKeyInjective(c1, path, k, i, c2, path, k, i);
    ScopeCancel(c1, c2, path);
  }

  lemma ScopeCancel(c1: string, c2: string, path: string)
    ensures Scope(c1, path) == Scope(c2, path) ==> c1 == c2
  {
    if Scope(c1, path) == Scope(c2, path) {
      assert c1 == Scope(c1, path)[..|c1|];
      assert c2 == Scope(c2, path)[..|c2|];
    }
  }

  /** Across paths the key text is ambiguous: a client whose identity contains ':' can share another's counter. */
  lemma KeyAmbiguousAcrossPaths(k: WindowKind, i: nat)
    ensures WindowKey("ip:a:/x", "/y", k, i) == WindowKey("ip:a", "/x:/y", k, i)
  {
    WindowKeyInjective("ip:a:/x", "/y", k, i, "ip:a", "/x:/y", k, i);
  }

  // ------------------------------------------------------------ counter store

  /** The shared counters, by key; a missing key counts as 0. */
  type Counters = map<string, nat>

  /**
   * How one pipelined `INCR`+`EXPIRE` round trip ends: it completes; it
   * fails before the server sees it; or the server applies it and the reply
   * is lost, so the pipeline raises all the same.
   */
  datatype StoreOutcome = Reachable | Unreachable | ReplyLost

  function Count(counts: Counters, key: string): nat {
    if key in counts then counts[key] else 0
  }

  /**
   * `_increment_counter`: on a reachable store the key's count goes up by
   * one and the new value is returned; a store error is swallowed and reads
   * as 0, whether or not the server had already applied the increment.
   */
  function Increment(counts: Counters, key: string, outcome: StoreOutcome): (res: (Counters, nat))
    ensures outcome.Reachable? ==> res.1 == Count(counts, key) + 1 && Count(res.0, key) == res.1
    ensures outcome.Unreachable? ==> res == (counts, 0)
    ensures outcome.ReplyLost? ==> res.1 == 0 && Count(res.0, key) == Count(counts, key) + 1
    ensures forall k :: k != key ==> (k in res.0 <==> k in counts) && Count(res.0, k) == Count(counts, k)
  {
    match outcome
    case Reachable => var n := Count(counts, key) + 1; (counts[key := n], n)
    case Unreachable => (counts, 0)
    case ReplyLost => (counts[key := Count(counts, key) + 1], 0)
  }

  // ------------------------------------------------------------- the decision

  /** The record `_check_rate_limits` returns. */
  datatype RateLimitResult = RateLimitResult(
    allowed: bool,
    minuteCount: nat, minuteLimit: int,
    hourCount: nat, hourLimit: int,
    resetTimeMinute: nat, resetTimeHour: nat)

  /**
   * `_check_rate_limits` at time `t`: increments the client's minute
   * counter and then its hour counter for this path, and allows the request
   * iff neither count exceeds its limit.
   */
  function CheckRateLimits(counts: Counters, client: string, path: string, limits: Policy, t: nat,
                           minuteOutcome: StoreOutcome, hourOutcome: StoreOutcome): (res: (Counters, RateLimitResult))
    ensures var r := res.1;
      (r.allowed <==> r.minuteCount <= limits.requestsPerMinute && r.hourCount <= limits.requestsPerHour) &&
      r.minuteLimit == limits.requestsPerMinute && r.hourLimit == limits.requestsPerHour &&
      r.resetTimeMinute == ResetTime(Minute, t) && r.resetTimeHour == ResetTime(Hour, t)
    ensures var mk, hk := WindowKey(client, path, Minute, WindowIndex(Minute, t)), WindowKey(client, path, Hour, WindowIndex(Hour, t));
      (minuteOutcome.Reachable? ==> res.1.minuteCount == Count(counts, mk) + 1 && Count(res.0, mk) == Count(counts, mk) + 1) &&
      (minuteOutcome.Unreachable? ==> res.1.minuteCount == 0 && Count(res.0, mk) == Count(counts, mk)) &&
      (minuteOutcome.ReplyLost? ==> res.1.minuteCount == 0 && Count(res.0, mk) == Count(counts, mk) + 1) &&
      (hourOutcome.Reachable? ==> res.1.hourCount == Count(counts, hk) + 1 && Count(res.0, hk) == Count(counts, hk) + 1) &&
      (hourOutcome.Unreachable? ==> res.1.hourCount == 0 && Count(res.0, hk) == Count(counts, hk)) &&
      (hourOutcome.ReplyLost? ==> res.1.hourCount == 0 && Count(res.0, hk) == Count(counts, hk) + 1)
  {
    var mk := WindowKey(client, path, Minute, WindowIndex(Minute, t));
    var hk := WindowKey(client, path, Hour, WindowIndex(Hour, t));
    WindowKeyInjective(client, path, Minute, WindowIndex(Minute, t), client, path, Hour, WindowIndex(Hour, t));
    var (afterMinute, minuteCount) := Increment(counts, mk, minuteOutcome);
    var (afterHour, hourCount) := Increment(afterMinute, hk, hourOutcome);
    var minuteExceeded := minuteCount > limits.requestsPerMinute;
    var hourExceeded := hourCount > limits.requestsPerHour;
    (afterHour, RateLimitResult(
      !(minuteExceeded || hourExceeded),
      minuteCount, limits.requestsPerMinute,
      hourCount, limits.requestsPerHour,
      ResetTime(Minute, t), ResetTime(Hour, t)))
  }

  /** A check changes no counter but the request's own minute and hour counters. */
  lemma CheckTouchesOnlyItsKeys(counts: Counters, client: string, path: string, limits: Policy, t: nat,
                                mo: StoreOutcome, ho: StoreOutcome, key: string)
    requires key != WindowKey(client, path, Minute, WindowIndex(Minute, t))
    requires key != WindowKey(client, path, Hour, WindowIndex(Hour, t))
    ensures var after := CheckRateLimits(counts, client, path, limits, t, mo, ho).0;
      (key in after <==> key in counts) && Count(after, key) == Count(counts, key)
  {
  }

  /** With the store unreachable nothing is counted, and the request is allowed whenever its limits are not negative. */
  lemma StoreFailureFailsOpen(counts: Counters, client: string, path: string, limits: Policy, t: nat)
    requires limits.requestsPerMinute >= 0 && limits.requestsPerHour >= 0
    ensures var res := CheckRateLimits(counts, client, path, limits, t, Unreachable, Unreachable);
      res.0 == counts && res.1.allowed
  {
    var res := CheckRateLimits(counts, client, path, limits, t, Unreachable, Unreachable);
    assert forall k :: k in res.0 <==> k in counts;
    assert forall k :: k in res.0 ==> res.0[k] == Count(res.0, k);
  }

  /**
   * When both replies are lost the request is still allowed (given limits
   * that are not negative), yet both counters have gone up: the store and
   * the decision disagree.
   */
  lemma LostRepliesCountButAllow(counts: Counters, client: string, path: string, limits: Policy, t: nat)
    requires limits.requestsPerMinute >= 0 && limits.requestsPerHour >= 0
    ensures var res := CheckRateLimits(counts, client, path, limits, t, ReplyLost, ReplyLost);
      var mk, hk := WindowKey(client, path, Minute, WindowIndex(Minute, t)), WindowKey(client, path, Hour, WindowIndex(Hour, t));
      res.1.allowed && res.1.minuteCount == 0 && res.1.hourCount == 0 &&
      Count(res.0, mk) == Count(counts, mk) + 1 && Count(res.0, hk) == Count(counts, hk) + 1
  {
  }

  /** `min(reset_time_minute - now, reset_time_hour - now)`. */
  function RetryAfter(r: RateLimitResult, now: int): (delay: int)
    ensures delay <= r.resetTimeMinute - now && delay <= r.resetTimeHour - now
    ensures delay == r.resetTimeMinute - now || delay == r.resetTimeHour - now
  {
    var m, h := r.resetTimeMinute - now, r.resetTimeHour - now;
    if m <= h then m else h
  }

  /**
   * The delay always comes from the minute window; read at the same second
   * as the check, it is between 1 and 60 seconds and lands on the next
   * minute boundary.
   */
  lemma RetryAfterIsMinuteReset(counts: Counters, client: string, path: string, limits: Policy, t: nat,
                                mo: StoreOutcome, ho: StoreOutcome, now: int)
    ensures var r := CheckRateLimits(counts, client, path, limits, t, mo, ho).1;
      RetryAfter(r, now) == r.resetTimeMinute - now &&
      (now == t ==> 1 <= RetryAfter(r, now) <= 60 && (now + RetryAfter(r, now)) % 60 == 0)
  {
    MinuteResetFirst(t);
  }

  // ---------------------------------------------------------------- responses

  /** `max(0, limit - count)`. */
  function Remaining(limit: int, count: nat): (left: nat)
    ensures left >= limit - count
    ensures left == 0 || left == limit - count
  {
    if limit - count > 0 then limit - count else 0
  }

  const LimitMinuteHeader := "X-RateLimit-Limit-Minute"
  const RemainingMinuteHeader := "X-RateLimit-Remaining-Minute"
  const ResetMinuteHeader := "X-RateLimit-Reset-Minute"
  const LimitHourHeader := "X-RateLimit-Limit-Hour"
  const RemainingHourHeader := "X-RateLimit-Remaining-Hour"
  const ResetHourHeader := "X-RateLimit-Reset-Hour"
  const RetryAfterHeader := "Retry-After"

  /** The six informational headers, values rendered with `str`. */
  function RateLimitHeaders(r: RateLimitResult): (h: map<string, string>)
    ensures h.Keys == {LimitMinuteHeader, RemainingMinuteHeader, ResetMinuteHeader,
                       LimitHourHeader, RemainingHourHeader, ResetHourHeader}
  {
    map[
      LimitMinuteHeader := IntToString(r.minuteLimit),
      RemainingMinuteHeader := IntToString(Remaining(r.minuteLimit, r.minuteCount)),
      ResetMinuteHeader := IntToString(r.resetTimeMinute),
      LimitHourHeader := IntToString(r.hourLimit),
      RemainingHourHeader := IntToString(Remaining(r.hourLimit, r.hourCount)),
      ResetHourHeader := IntToString(r.resetTimeHour)]
  }

  /**
   * Read back, the headers give the limits, the reset instants and
   * `max(0, limit - count)`; the remaining counts are written as plain
   * digits, so they are never negative.
   */
  lemma RateLimitHeadersReadBack(r: RateLimitResult)
    ensures var h := RateLimitHeaders(r);
      ParseInt(h[LimitMinuteHeader]) == r.minuteLimit && ParseInt(h[LimitHourHeader]) == r.hourLimit &&
      ParseInt(h[ResetMinuteHeader]) == r.resetTimeMinute && ParseInt(h[ResetHourHeader]) == r.resetTimeHour &&
      ParseInt(h[RemainingMinuteHeader]) == (if r.minuteLimit - r.minuteCount > 0 then r.minuteLimit - r.minuteCount else 0) &&
      ParseInt(h[RemainingHourHeader]) == (if r.hourLimit - r.hourCount > 0 then r.hourLimit - r.hourCount else 0) &&
      AllDigits(h[RemainingMinuteHeader]) && AllDigits(h[RemainingHourHeader])
  {
    var h := RateLimitHeaders(r);
    assert h[LimitMinuteHeader] == IntToString(r.minuteLimit);
    assert h[LimitHourHeader] == IntToString(r.hourLimit);
    assert h[ResetMinuteHeader] == IntToString(r.resetTimeMinute);
    assert h[ResetHourHeader] == IntToString(r.resetTimeHour);
    assert h[RemainingMinuteHeader] == IntToString(Remaining(r.minuteLimit, r.minuteCount));
    assert h[RemainingHourHeader] == IntToString(Remaining(r.hourLimit, r.hourCount));
    ParseIntToString(r.minuteLimit);
    ParseIntToString(r.hourLimit);
    ParseIntToString(r.resetTimeMinute);
    ParseIntToString(r.resetTimeHour);
    ParseIntToString(Remaining(r.minuteLimit, r.minuteCount));
    ParseIntToString(Remaining(r.hourLimit, r.hourCount));
  }

  /** HTTP 429 Too Many Requests, section 4 of RFC 6585. */
  const TooManyRequests: nat := 429

  /** The JSON body of a rejection. */
  datatype RejectionBody = RejectionBody(detail: string, message: string, retryAfter: int)

  /** `_create_rate_limit_response`'s headers: the six above plus `Retry-After` (section 10.2.3 of RFC 9110). */
  function RejectionHeaders(r: RateLimitResult, now: int): (h: map<string, string>)
    ensures h.Keys == RateLimitHeaders(r).Keys + {RetryAfterHeader}
    ensures forall k :: k in RateLimitHeaders(r) ==> h[k] == RateLimitHeaders(r)[k]
    ensures ParseInt(h[RetryAfterHeader]) == RetryAfter(r, now)
  {
    ParseIntToString(RetryAfter(r, now));
    RateLimitHeaders(r)[RetryAfterHeader := IntToString(RetryAfter(r, now))]
  }

  function RejectionContent(r: RateLimitResult, now: int): (body: RejectionBody)
    ensures body.detail == "Rate limit exceeded" && body.message == "Too many requests. Please try again later."
    ensures body.retryAfter <= r.resetTimeMinute - now && body.retryAfter <= r.resetTimeHour - now
    ensures body.retryAfter == RetryAfter(r, now)
  {
    RejectionBody("Rate limit exceeded", "Too many requests. Please try again later.", RetryAfter(r, now))
  }

  /** What the middleware does with a request. */
  datatype Decision =
    | PassThrough                                        // handed on untouched
    | PassThroughWithHeaders(headers: map<string, string>) // handed on; headers added to the app's response
    | Reject(status: nat, headers: map<string, string>, body: RejectionBody) // answered here; the app never sees it

  /** The middleware's configuration: whether it has a store client, the route table and the defaults. */
  datatype MiddlewareConfig = MiddlewareConfig(hasStore: bool, endpointLimits: EndpointTable, defaults: Policy)

  /**
   * `dispatch`: no store client or an exempt path passes through with no
   * counting; otherwise the request is counted at time `t` and either passes
   * with the six headers or is rejected with a 429 whose delay is computed
   * at `now`, the second clock reading.
   */
  function Dispatch(cfg: MiddlewareConfig, counts: Counters, req: Request, t: nat, now: int,
                    mo: StoreOutcome, ho: StoreOutcome): (res: (Counters, Decision))
    ensures !cfg.hasStore || ShouldSkipRateLimiting(req.path) ==> res == (counts, PassThrough)
    ensures cfg.hasStore && !ShouldSkipRateLimiting(req.path) ==>
      var (after, r) := CheckRateLimits(counts, ClientIdentifier(req), req.path,
                                        ResolvePolicy(cfg.endpointLimits, cfg.defaults, req.path), t, mo, ho);
      res.0 == after &&
      (r.allowed ==> res.1 == PassThroughWithHeaders(RateLimitHeaders(r))) &&
      (!r.allowed ==> res.1 == Reject(TooManyRequests, RejectionHeaders(r, now), RejectionContent(r, now)))
  {
    if !cfg.hasStore || ShouldSkipRateLimiting(req.path) then (counts, PassThrough)
    else
      var client := ClientIdentifier(req);
      var limits := ResolvePolicy(cfg.endpointLimits, cfg.defaults, req.path);
      var (after, r) := CheckRateLimits(counts, client, req.path, limits, t, mo, ho);
      if !r.allowed then (after, Reject(TooManyRequests, RejectionHeaders(r, now), RejectionContent(r, now)))
      else (after, PassThroughWithHeaders(RateLimitHeaders(r)))
  }

  /** A rejection carries status 429, the six headers plus a `Retry-After` equal to the body's delay, and the fixed texts. */
  lemma RejectionShape(cfg: MiddlewareConfig, counts: Counters, req: Request, t: nat, now: int, mo: StoreOutcome, ho: StoreOutcome)
    requires Dispatch(cfg, counts, req, t, now, mo, ho).1.Reject?
    ensures var d := Dispatch(cfg, counts, req, t, now, mo, ho).1;
      d.status == 429 &&
      d.headers.Keys == {LimitMinuteHeader, RemainingMinuteHeader, ResetMinuteHeader,
                         LimitHourHeader, RemainingHourHeader, ResetHourHeader, RetryAfterHeader} &&
      ParseInt(d.headers[RetryAfterHeader]) == d.body.retryAfter &&
      d.body.detail == "Rate limit exceeded" && d.body.message == "Too many requests. Please try again later."
  {
  }

  /** Exempt paths, and every path when there is no store, are never counted, never given headers, never refused. */
  lemma ExemptNeverLimited(cfg: MiddlewareConfig, counts: Counters, req: Request, t: nat, now: int,
                           mo: StoreOutcome, ho: StoreOutcome)
    requires !cfg.hasStore || ShouldSkipRateLimiting(req.path)
    ensures Dispatch(cfg, counts, req, t, now, mo, ho) == (counts, PassThrough)
  {
  }

  /** A request from one client leaves every counter of another client on the same path as it was. */
  lemma OtherClientsUnaffected(cfg: MiddlewareConfig, counts: Counters, req: Request, other: string,
                               t: nat, now: int, mo: StoreOutcome, ho: StoreOutcome, kind: WindowKind, index: nat)
    requires other != ClientIdentifier(req)
    ensures var key := WindowKey(other, req.path, kind, index);
      Count(Dispatch(cfg, counts, req, t, now, mo, ho).0, key) == Count(counts, key)
  {
    var key := WindowKey(other, req.path, kind, index);
    DistinctClientsDistinctKeys(other, ClientIdentifier(req), req.path, kind, index);
    DistinctClientsDistinctKeys(other, ClientIdentifier(req), req.path, Minute, WindowIndex(Minute, t));
    DistinctClientsDistinctKeys(other, ClientIdentifier(req), req.path, Hour, WindowIndex(Hour, t));
    WindowKeyInjective(other, req.path, kind, index, ClientIdentifier(req), req.path, Minute, WindowIndex(Minute, t));
    WindowKeyInjective(other, req.path, kind, index, ClientIdentifier(req), req.path, Hour, WindowIndex(Hour, t));
  }

  // ------------------------------------------------- sequences of requests

  /** A step function applied at each of `times` in turn, threading its state and collecting its outputs. */
  function Run<S, D>(step: (S, nat) -> (S, D), s: S, times: seq<nat>): (res: (S, seq<D>))
    ensures |res.1| == |times|
    decreases |times|
  {
    if times == [] then (s, [])
    else
      var next := step(s, times[0]);
      var rest := Run(step, next.0, times[1..]);
      (rest.0, [next.1] + rest.1)
  }

  /** Running two parts in turn is running the second part from the state the first part left. */
  lemma {:induction false} RunAppend<S, D>(step: (S, nat) -> (S, D), s: S, a: seq<nat>, b: seq<nat>)
    ensures var first := Run(step, s, a);
      var second := Run(step, first.0, b);
      Run(step, s, a + b) == (second.0, first.1 + second.1)
    decreases |a|
  {
    if a == [] {
      assert a + b == b;
      assert Run(step, s, a) == (s, []);
      assert [] + Run(step, s, b).1 == Run(step, s, b).1;
    } else {
      var next := step(s, a[0]);
      assert (a + b)[0] == a[0] && (a + b)[1..] == a[1..] + b;
      RunAppend(step, next.0, a[1..], b);
      var first', second := Run(step, next.0, a[1..]), Run(step, Run(step, next.0, a[1..]).0, b);
      assert [next.1] + (first'.1 + second.1) == ([next.1] + first'.1) + second.1;
    }
  }

  /** Output `i` of a run is the step's output at `times[i]` from the state the first `i` steps left. */
  lemma RunAt<S, D>(step: (S, nat) -> (S, D), s: S, times: seq<nat>, i: nat)
    requires i < |times|
    ensures Run(step, s, times).1[i] == step(Run(step, s, times[..i]).0, times[i]).1
  {
    assert times == times[..i] + times[i..];
    RunAppend(step, s, times[..i], times[i..]);
    assert times[i..][0] == times[i];
  }

  /** When every step raises counter `key` by one, a run raises it by its length. */
  lemma {:induction false} RunRaises(step: (Counters, nat) -> (Counters, Decision), counts: Counters, times: seq<nat>, key: string)
    requires forall c: Counters, j :: 0 <= j < |times| ==> Count(step(c, times[j]).0, key) == Count(c, key) + 1
    ensures Count(Run(step, counts, times).0, key) == Count(counts, key) + |times|
    decreases |times|
  {
    if times != [] {
      var next := step(counts, times[0]);
      assert Count(next.0, key) == Count(counts, key) + 1;
      forall c: Counters, j | 0 <= j < |times[1..]|
        ensures Count(step(c, times[1..][j]).0, key) == Count(c, key) + 1
      {
        assert times[1..][j] == times[j + 1];
      }
      RunRaises(step, next.0, times[1..], key);
    }
  }

  /** The middleware's step on one request at time `t`, the store reachable and the delay read at once. */
  function StepAt(cfg: MiddlewareConfig, req: Request): (Counters, nat) -> (Counters, Decision) {
    (counts: Counters, t: nat) => Dispatch(cfg, counts, req, t, t, Reachable, Reachable)
  }

  /** The same request dispatched at each of `times` in turn. */
  function DispatchAll(cfg: MiddlewareConfig, counts: Counters, req: Request, times: seq<nat>): (Counters, seq<Decision>) {
    Run(StepAt(cfg, req), counts, times)
  }

  /** The minute and hour keys of a request at time `t`. */
  function MinuteKeyOf(req: Request, t: nat): string {
    WindowKey(ClientIdentifier(req), req.path, Minute, WindowIndex(Minute, t))
  }

  function HourKeyOf(req: Request, t: nat): string {
    WindowKey(ClientIdentifier(req), req.path, Hour, WindowIndex(Hour, t))
  }

  /** A decision taken on minute and hour counts `m` and `h`: passed with headers iff neither exceeds its limit, refused otherwise. */
  predicate DecidedAt(d: Decision, limits: Policy, m: nat, h: nat) {
    var allowed := m <= limits.requestsPerMinute && h <= limits.requestsPerHour;
    (allowed <==> d.PassThroughWithHeaders?) && (!allowed <==> d.Reject?)
  }

  /** One counted request: decided on the counts it found plus one, and it bumps both of its counters by one. */
  lemma DispatchStep(cfg: MiddlewareConfig, counts: Counters, req: Request, t: nat)
    requires cfg.hasStore && !ShouldSkipRateLimiting(req.path)
    ensures var step := Dispatch(cfg, counts, req, t, t, Reachable, Reachable);
      DecidedAt(step.1, ResolvePolicy(cfg.endpointLimits, cfg.defaults, req.path),
                Count(counts, MinuteKeyOf(req, t)) + 1, Count(counts, HourKeyOf(req, t)) + 1) &&
      Count(step.0, MinuteKeyOf(req, t)) == Count(counts, MinuteKeyOf(req, t)) + 1 &&
      Count(step.0, HourKeyOf(req, t)) == Count(counts, HourKeyOf(req, t)) + 1
  {
  }

  /** Every instant of `times` falls in minute window `w`. */
  predicate InMinute(times: seq<nat>, w: nat) {
    forall i :: 0 <= i < |times| ==> WindowIndex(Minute, times[i]) == w
  }

  /** Two instants of the same minute window use the same minute key and the same hour key. */
  lemma SameWindowSameKeys(req: Request, t1: nat, t2: nat)
    requires WindowIndex(Minute, t1) == WindowIndex(Minute, t2)
    ensures MinuteKeyOf(req, t1) == MinuteKeyOf(req, t2) && HourKeyOf(req, t1) == HourKeyOf(req, t2)
  {
    SameMinuteSameHour(t1, t2);
  }

  /**
   * Within minute window `w`, request `i` of a run (from 0) is decided on
   * the minute and hour counts found before the run plus `i + 1`.
   */
  lemma DecisionInWindow(cfg: MiddlewareConfig, counts: Counters, req: Request, times: seq<nat>, w: nat, i: nat)
    requires cfg.hasStore && !ShouldSkipRateLimiting(req.path) && InMinute(times, w) && i < |times|
    ensures DecidedAt(DispatchAll(cfg, counts, req, times).1[i], ResolvePolicy(cfg.endpointLimits, cfg.defaults, req.path),
                      Count(counts, MinuteKeyOf(req, times[0])) + i + 1, Count(counts, HourKeyOf(req, times[0])) + i + 1)
  {
    var step, before := StepAt(cfg, req), times[..i];
    var mk, hk := MinuteKeyOf(req, times[0]), HourKeyOf(req, times[0]);
    forall c: Counters, j | 0 <= j < |before|
      ensures Count(step(c, before[j]).0, mk) == Count(c, mk) + 1 && Count(step(c, before[j]).0, hk) == Count(c, hk) + 1
    {
      SameWindowSameKeys(req, times[0], times[j]);
      DispatchStep(cfg, c, req, times[j]);
    }
    RunRaises(step, counts, before, mk);
    RunRaises(step, counts, before, hk);
    RunAt(step, counts, times, i);
    SameWindowSameKeys(req, times[0], times[i]);
    DispatchStep(cfg, Run(step, counts, before).0, req, times[i]);
  }

  /**
   * The N-th request in a fresh window is allowed and the (N+1)-th refused:
   * from empty counters, with a minute limit N no larger than the hour
   * limit, request `i` (from 0) passes exactly when `i < N`.
   */
  lemma NthAllowedNextRejected(cfg: MiddlewareConfig, counts: Counters, req: Request, times: seq<nat>, w: nat)
    requires cfg.hasStore && !ShouldSkipRateLimiting(req.path)
    requires InMinute(times, w)
    requires |times| > 0 ==> Count(counts, MinuteKeyOf(req, times[0])) == 0 && Count(counts, HourKeyOf(req, times[0])) == 0
    requires var p := ResolvePolicy(cfg.endpointLimits, cfg.defaults, req.path); p.requestsPerMinute <= p.requestsPerHour
    ensures var p := ResolvePolicy(cfg.endpointLimits, cfg.defaults, req.path);
      forall i :: 0 <= i < |times| ==>
        (DispatchAll(cfg, counts, req, times).1[i].PassThroughWithHeaders? <==> i < p.requestsPerMinute) &&
        (DispatchAll(cfg, counts, req, times).1[i].Reject? <==> i >= p.requestsPerMinute)
  {
    var p := ResolvePolicy(cfg.endpointLimits, cfg.defaults, req.path);
    forall i | 0 <= i < |times|
      ensures DecidedAt(DispatchAll(cfg, counts, req, times).1[i], p, i + 1, i + 1)
    {
      DecisionInWindow(cfg, counts, req, times, w, i);
    }
  }

  /**
   * Crossing into a new minute of the same hour starts the minute count
   * afresh while the hour count carries on.
   */
  lemma MinuteBoundaryResetsMinuteOnly(cfg: MiddlewareConfig, counts: Counters, req: Request, t1: nat, t2: nat)
    requires cfg.hasStore && !ShouldSkipRateLimiting(req.path)
    requires WindowIndex(Minute, t1) != WindowIndex(Minute, t2) && WindowIndex(Hour, t1) == WindowIndex(Hour, t2)
    ensures var after := Dispatch(cfg, counts, req, t1, t1, Reachable, Reachable).0;
      Count(after, MinuteKeyOf(req, t2)) == Count(counts, MinuteKeyOf(req, t2)) &&
      Count(after, HourKeyOf(req, t2)) == Count(counts, HourKeyOf(req, t2)) + 1
  {
    var c := ClientIdentifier(req);
    WindowKeyInjective(c, req.path, Minute, WindowIndex(Minute, t2), c, req.path, Minute, WindowIndex(Minute, t1));
    WindowKeyInjective(c, req.path, Minute, WindowIndex(Minute, t2), c, req.path, Hour, WindowIndex(Hour, t1));
  }
}
