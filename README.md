# Rate limiting and request validation of a FastAPI user service

This Dafny project models the request-guarding core of a FastAPI user-management service:

- **The rate-limiting middleware** (`src/middleware/rate_limiting.py`).
  - Which paths are exempt.
  - How a client is identified: by user id, the first `X-Forwarded-For` hop, or the peer address.
  - How a route's limits are looked up: exact match, then the first prefix in table order, then the defaults.
  - How a request is counted in fixed minute and hour windows, in a shared counter store.
  - When it is admitted.
  - The `X-RateLimit-*` headers.
  - The HTTP 429 response (section 4 of RFC 6585) with its `Retry-After` delay (section 10.2.3 of RFC 9110).
- **The in-process sliding-log `InMemoryRateLimiter`.**
- **The validators that guard the service's inputs.**
  - Password strength and the JWT claim sets (`src/core/security.py`).
  - The user create and update schemas (`src/api/users/models.py`).
  - The settings validators and defaults (`src/core/config.py`). The defaults supply the limiter's fallback limits.

Layout, one module per file:

- `outcomes.dfy` (`Outcomes`): `Option` and `Result`.
- `strings.dfy` (`Strings`): the Python string operations the code relies on.
  - `startswith`, `split`, `strip` and `replace`-removal.
  - ASCII character classes.
  - `str(int)`, with a parser that reads it back.
- `config.dfy` (`Config`): settings, comma-list and settings validators, and environment properties.
- `security.dfy` (`Security`): password strength, token claim maps and refresh.
- `users.dfy` (`Users`): the user schemas.
- `rate_limiting.dfy` (`RateLimiting`): the middleware's decisions as functions of the request, the counter store and the clock, with lemmas about them. The lemmas cover:
  - single requests;
  - runs of requests within one window;
  - window boundaries;
  - isolation between clients.
- `middleware.dfy` (`Middleware`): the stateful side.
  - `CounterStore`: the shared counters, a map that `IncrWithExpiry` updates.
  - `Response`: its headers are written in place.
  - `RateLimitMiddleware`: its methods are proved to do what the functions of `RateLimiting` prescribe.
  - `InMemoryRateLimiter`: the map of timestamp logs it prunes and appends to.

The class comment of the middleware speaks of a token bucket. The code counts requests in fixed windows keyed by `t // 60` and `t // 3600`, and that is what is modelled.

Route limits are looked up by an ordered scan of the table: the first route that is a prefix of the path wins, not the longest one. `RateLimiting.OrderedScanNotLongestPrefix` exhibits the difference.

When no store client exists, every request passes. The model follows this and has no degraded or recovering mode.

The counter key is built by plain text concatenation, so it is unique only for a given `client:path` text. `RateLimiting.KeyAmbiguousAcrossPaths` shows two different (client, path) pairs that share a key. Client identities start with `user:` or `ip:` and can contain `:`.

## Model

| member | source | states |
|---|---|---|
| Config.Settings.IsDevelopment | src/core/config.py:155-161 | an environment is never both development and production |
| Config.Settings.IsProduction | src/core/config.py:159-161 | a production environment is neither development nor staging |
| Config.Settings.IsTesting | src/core/config.py:163-165 | testing is the `TESTING` flag alone, independent of the environment name |
| Config.Defaults | src/core/config.py:107-108 | the defaults are the development environment, 60 requests per minute, 1000 per hour and a minimum password length of 8 |
| Config.AssembleCommaList | src/core/config.py:57-63 | a string not starting with `[` becomes a list with one more piece than it has commas, piece `k` being the `k`-th comma-separated segment stripped; a list, or a string starting with `[`, is returned unchanged; any other value is rejected with itself as the error |
| Config.CommaListPiecesTrimmed | src/core/config.py:59-60 | every piece holds no comma and has no white space at either end |
| Config.CommaListRoundTrip | src/core/config.py:59-60 | for a list written without white space, joining the pieces with commas gives the original string |
| Config.ValidateSecretKey | src/core/config.py:142-146 | a secret key is accepted iff it has at least 32 characters, and is then returned unchanged |
| Config.ValidateEnvironment | src/core/config.py:148-153 | `APP_ENV` is accepted iff it is `dev`, `staging` or `prod`, and is then returned unchanged |
| Config.ValidatedEnvironmentClassified | src/core/config.py:148-161 | a validated environment is exactly one of development, production or staging |
| Strings.Split | src/core/config.py:60 | `split(sep)` yields at least one piece, and no piece contains the separator |
| Strings.SplitCount | src/core/config.py:60 | `split(sep)` yields one more piece than there are separators in the text |
| Strings.JoinSplit | src/core/config.py:60 | joining the pieces with the separator gives back the text |
| Strings.Strip | src/middleware/rate_limiting.py:152 | `strip()` removes exactly the white space at both ends: the result is the middle slice, with no white space at either end |
| Strings.RemoveChar | src/api/users/models.py:58 | `replace('_', '')` keeps every other character, with the same multiplicity, and no `_` |
| Strings.ParseIntToString | src/middleware/rate_limiting.py:260-276 | `str` of an integer reads back as that integer |
| Security.ExpiryTime | src/core/security.py:57-62 | the expiry is now plus the given delta when one is given and non-zero, otherwise now plus the configured lifetime |
| Security.AccessTokenClaims | src/core/security.py:55-64 | the access claims are the input's keys plus `exp`; every other claim is kept; `exp` is the expiry |
| Security.RefreshTokenClaims | src/core/security.py:83-92 | the refresh claims are the input's keys plus `exp` and `type`; `type` is "refresh"; every other claim is kept |
| Security.CreateTokenPair | src/core/security.py:205-223 | the token type is always "bearer"; the tokens are exactly the access and refresh claims of the user data with the default lifetimes, both keeping every user claim |
| Security.RefreshAccessToken | src/core/security.py:239-258 | a decoding failure gives 401 "Invalid refresh token"; a payload whose `type` is not "refresh" gives 401 "Invalid token type"; otherwise the new claims are the payload minus `type`, with a fresh `exp`, and every other claim kept |
| Security.RefreshRoundTrip | src/core/security.py:245-254 | refreshing a refresh token made from some data gives exactly the access token those data would give at the time of refresh |
| Security.AccessTokenIsNotRefreshToken | src/core/security.py:245-248 | an access token is refused as a refresh token |
| Security.MeetsStrengthRules | src/core/security.py:169-200 | a password meeting all five rules is at least the minimum length and has at least three characters, since digit, upper and lower case are distinct |
| Security.ValidatePasswordStrength | src/core/security.py:155-202 | accepted iff length, digit, upper case, lower case and special character rules all hold; otherwise a 400 naming the first rule broken, in that order |
| Security.DefaultStrengthAccepts | src/core/security.py:155-202 | with the default settings "Passw0rd!" is accepted |
| Security.DefaultStrengthNeedsSpecial | src/core/security.py:193-200 | with the default settings "Password1" is refused for want of a special character |
| Users.ValidateUsername | src/api/users/models.py:54-60 | a username passes iff it is absent, empty, or alphanumeric and non-empty once underscores are removed; it is returned unchanged |
| Users.ValidateUsernameIff | src/api/users/models.py:57-60 | equivalently, a non-empty name passes iff it has only letters, digits and underscores and at least one letter or digit |
| Users.AllUnderscoresRejected | src/api/users/models.py:58-59 | a name made only of underscores is refused |
| Users.ValidatePassword | src/api/users/models.py:62-73 | an absent or empty password passes unchecked; otherwise it passes iff it has a digit, an upper-case and a lower-case letter, and the first missing kind names the error |
| Users.SecurityRulesImplySchemaRules | src/api/users/models.py:64-73 | every password the security rules accept passes the schema validator |
| Users.SchemaRulesWeakerThanSecurityRules | src/api/users/models.py:64-73 | the converse fails: "Password1" passes the schema but not the security rules |
| Users.ValidatePasswordsMatch | src/api/users/models.py:75-80 | passes iff the password is present and equal to the confirmation |
| Users.FieldErrors | src/api/users/models.py:84-86 | a field has no errors iff its length is within bounds and its validator accepts it |
| Users.OptionalFieldErrors | src/api/users/models.py:93-95 | an absent optional field has no errors; a present one is checked as a required one |
| Users.ValidateUserCreate | src/api/users/models.py:83-89 | a create request is valid iff the username has 3 to 50 characters and passes the username rule, the password has 8 to 100 characters and passes the composition rule, and the confirmation matches; `is_active` defaults to true and `is_superuser` to false |
| Users.UpdateFieldErrors | src/api/users/models.py:92-95 | the update fields that are present have the create bounds and rules |
| Users.ValidateUserUpdate | src/api/users/models.py:92-98 | an update request is valid iff its present fields are valid and the password is present and equal to the confirmation |
| Users.UpdateWithoutPasswordRejected | src/api/users/models.py:78-80 | every update that leaves the password out is refused |
| Users.ValidatePasswordsMatchWhenGiven | src/api/users/models.py:78-80 | passes iff the password is absent or equal to the confirmation |
| Users.ValidateUserUpdateCorrected | src/api/users/models.py:92-98 | an update request is valid iff its present fields are valid and a supplied password equals the confirmation |
| Users.UpdateCorrectedAcceptsMissingPassword | src/api/users/models.py:92-98 | the corrected schema accepts an update without a password; it still refuses a mismatched one; it agrees with the written schema whenever a password is given |
| RateLimiting.ShouldSkipRateLimiting | src/middleware/rate_limiting.py:120-129 | a path is exempt iff it starts with one of the six prefixes; every exempt path starts with `/` and has at least five characters |
| RateLimiting.SkipPathExamples | src/middleware/rate_limiting.py:120-129 | exemption is a textual prefix test: `/healthz` and `/docs/oauth2-redirect` are exempt; `/api/users/`, `/` and `/api/health` are not |
| RateLimiting.NotExemptUnderApi | src/middleware/rate_limiting.py:120-129 | no path under `/a…`, so no API route, is exempt |
| RateLimiting.ExemptNeverLimited | src/middleware/rate_limiting.py:80-86 | with no store client or an exempt path, the request passes untouched and no counter changes |
| RateLimiting.ClientIdentifier | src/middleware/rate_limiting.py:141-154 | `user:<id>` for a truthy user id; else `ip:` and a comma-free, stripped piece when `X-Forwarded-For` is non-empty; else `ip:` and the peer host, or "unknown" |
| RateLimiting.ForwardedForFirstHop | src/middleware/rate_limiting.py:149-152 | with `X-Forwarded-For` "a, b…", the identity is `ip:` and "a" stripped |
| RateLimiting.ForwardedForSingleHop | src/middleware/rate_limiting.py:149-152 | with a single address in `X-Forwarded-For`, the identity is `ip:` and that address stripped |
| Strings.SplitWithoutSeparator | src/middleware/rate_limiting.py:152 | text without the separator splits into itself alone |
| RateLimiting.UserAndAddressIdentitiesDisjoint | src/middleware/rate_limiting.py:141-154 | an authenticated request never shares an identity with an anonymous one |
| RateLimiting.DefaultPolicy | src/middleware/rate_limiting.py:176-179 | the fallback limits are the settings' per-minute and per-hour defaults |
| RateLimiting.ExactMatch | src/middleware/rate_limiting.py:166-168 | finds the entry whose route equals the path, or reports that none does |
| RateLimiting.FirstPrefixMatch | src/middleware/rate_limiting.py:170-173 | finds the first entry in table order whose route is a prefix of the path, or reports that none is |
| RateLimiting.ResolvePolicy | src/middleware/rate_limiting.py:166-179 | an exact route match wins; otherwise the first prefix match in table order; otherwise the defaults |
| RateLimiting.OrderedScanNotLongestPrefix | src/middleware/rate_limiting.py:170-173 | an earlier, shorter prefix wins over a later, longer one |
| RateLimiting.ConfiguredPolicies | src/middleware/rate_limiting.py:31-43 | the configured table gives login 5/20 and users 30/1000; other routes, and `/api/users` without its slash, get the defaults of 60/1000 |
| RateLimiting.ResetTime | src/middleware/rate_limiting.py:215-216 | a reset time is the first multiple of the window length strictly after `t` |
| RateLimiting.SameMinuteSameHour | src/middleware/rate_limiting.py:196-200 | two instants in the same minute window are in the same hour window |
| RateLimiting.MinuteResetFirst | src/middleware/rate_limiting.py:215-216 | the minute reset never comes after the hour reset |
| RateLimiting.WindowKey | src/middleware/rate_limiting.py:196-200 | every key starts with `rate_limit:` and ends with `:minute:` or `:hour:` followed by the window index in decimal |
| RateLimiting.WindowKeyInjective | src/middleware/rate_limiting.py:196-200 | two keys are equal iff their `client:path` text, window kind and window index are equal |
| RateLimiting.DistinctClientsDistinctKeys | src/middleware/rate_limiting.py:196-200 | on one path, different clients never share a counter |
| RateLimiting.KeyAmbiguousAcrossPaths | src/middleware/rate_limiting.py:196-200 | across paths, a client identity containing `:` can share another client's key |
| RateLimiting.Increment | src/middleware/rate_limiting.py:219-240 | a completed round trip raises the key's count by one and returns the new value; a store error returns 0, leaving the count as it was when the request never reached the server and raised by one when only the reply was lost; other keys never change |
| RateLimiting.CheckRateLimits | src/middleware/rate_limiting.py:193-217 | allowed iff the minute count is within the minute limit and the hour count within the hour limit; the counts are the two keys' previous values plus one (0 on a store error, the key still raised if only the reply was lost); limits and reset times are reported |
| RateLimiting.CheckTouchesOnlyItsKeys | src/middleware/rate_limiting.py:195-201 | a check changes no counter but its own minute and hour keys |
| RateLimiting.StoreFailureFailsOpen | src/middleware/rate_limiting.py:238-240 | with non-negative limits, when neither round trip reaches the server nothing is counted and the request is allowed |
| RateLimiting.LostRepliesCountButAllow | src/middleware/rate_limiting.py:230-240 | with non-negative limits, when both replies are lost the request is allowed with counts 0, although both counters went up |
| RateLimiting.RetryAfterIsMinuteReset | src/middleware/rate_limiting.py:252-257 | the delay is always the one to the minute reset; read in the second of the check it is between 1 and 60 and lands on a minute boundary |
| RateLimiting.RetryAfter | src/middleware/rate_limiting.py:252-257 | the delay is the smaller of the two waits to the window resets |
| RateLimiting.Remaining | src/middleware/rate_limiting.py:262-266 | the remaining allowance is `max(0, limit - count)`: never negative, and 0 or the difference |
| RateLimiting.RateLimitHeaders | src/middleware/rate_limiting.py:297-316 | exactly the six `X-RateLimit-*` headers are set |
| RateLimiting.RateLimitHeadersReadBack | src/middleware/rate_limiting.py:297-316 | the headers read back as the limits, the reset times and `max(0, limit - count)`, which is never negative |
| RateLimiting.RejectionHeaders | src/middleware/rate_limiting.py:259-277 | a rejection carries the six headers plus `Retry-After`, which reads back as the delay |
| RateLimiting.RejectionContent | src/middleware/rate_limiting.py:279-286 | the body has the fixed detail and message, and its delay is exactly `RetryAfter`, the smaller of the two waits to the window resets |
| RateLimiting.Dispatch | src/middleware/rate_limiting.py:80-108 | no store or an exempt path: pass through with nothing counted; otherwise the request is counted and either passes with the six headers or is answered with a 429 |
| RateLimiting.RejectionShape | src/middleware/rate_limiting.py:279-287 | a rejection is status 429 with the seven headers the middleware sets, a `Retry-After` equal to the body's `retry_after`, and the fixed detail and message |
| RateLimiting.OtherClientsUnaffected | src/middleware/rate_limiting.py:195-201 | a request leaves every counter of another client on the same path unchanged |
| RateLimiting.DispatchStep | src/middleware/rate_limiting.py:195-207 | a counted request with the store reachable raises its minute and hour counters by one and is decided on the raised counts |
| RateLimiting.RunRaises | src/middleware/rate_limiting.py:195-201 | when every request raises a counter by one, a run of requests raises it by the run's length |
| RateLimiting.DecisionInWindow | src/middleware/rate_limiting.py:195-207 | within one minute window, request `i` of a run is decided on the counts found before the run plus `i + 1` |
| RateLimiting.NthAllowedNextRejected | src/middleware/rate_limiting.py:204-207 | from fresh windows, with minute limit N, requests 1 to N pass and every later request in that minute is refused |
| RateLimiting.MinuteBoundaryResetsMinuteOnly | src/middleware/rate_limiting.py:196-201 | a request in one minute leaves the next minute's counter alone but counts in the shared hour |
| Middleware.CounterStore.IncrWithExpiry | src/middleware/rate_limiting.py:233-237 | a completed round trip raises the key's counter by one and returns it; a failure before the server changes nothing, a lost reply raises the counter, and both report failure |
| Middleware.RateLimitMiddleware.constructor | src/middleware/rate_limiting.py:26-43 | the middleware keeps the given store, the fixed route table and the default limits from the settings |
| Middleware.RateLimitMiddleware.GetEndpointLimits | src/middleware/rate_limiting.py:166-179 | the dictionary lookup and ordered scan return the policy `ResolvePolicy` prescribes |
| Middleware.RateLimitMiddleware.IncrementCounter | src/middleware/rate_limiting.py:219-240 | changes the store exactly as `Increment` does and returns its count; 0 without a store |
| Middleware.RateLimitMiddleware.CheckLimits | src/middleware/rate_limiting.py:193-217 | changes the store and returns the result exactly as `CheckRateLimits` does |
| Middleware.RateLimitMiddleware.CreateRateLimitResponse | src/middleware/rate_limiting.py:252-287 | a new 429 response with the rejection headers and body |
| Middleware.RateLimitMiddleware.AddRateLimitHeaders | src/middleware/rate_limiting.py:297-316 | the response's headers become the old ones overwritten with the six rate-limit headers; nothing else changes |
| Middleware.RateLimitMiddleware.Dispatch | src/middleware/rate_limiting.py:80-108 | the store and the response end as `RateLimiting.Dispatch` prescribes; a rejected request never reaches the application and gets a fresh 429 response |
| Middleware.KeepRecent | src/middleware/rate_limiting.py:357-364 | pruning keeps the timestamps after the window start and no other, never lengthening the log |
| Middleware.KeepRecentCounts | src/middleware/rate_limiting.py:357-367 | pruning keeps every timestamp after the window start as many times as it occurs, so the length compared with the limit counts repeated timestamps |
| Middleware.KeepRecentAppend | src/middleware/rate_limiting.py:357-364 | pruning a concatenation prunes each part, so survivors keep their order |
| Middleware.KeepRecentAllRecent | src/middleware/rate_limiting.py:357-364 | pruning a log whose timestamps are all recent leaves it as it is |
| Middleware.SlidingLogStep | src/middleware/rate_limiting.py:357-372 | a call is accepted iff fewer than `limit` recent timestamps remain; the client's log becomes the pruned log, plus `now` when accepted; other clients' logs are untouched |
| Middleware.SlidingLogStaysWithinLimit | src/middleware/rate_limiting.py:366-372 | calls with one limit keep every log at most that long |
| Middleware.SlidingLogRunAccepts | src/middleware/rate_limiting.py:357-372 | while nothing expires, a call is accepted iff fewer than `limit` timestamps are already logged, whatever the log's length at the start |
| Middleware.SlidingLogNthAllowedNextRejected | src/middleware/rate_limiting.py:357-372 | from an empty log within one window, the first `limit` calls are accepted and every later one refused |
| Middleware.InMemoryRateLimiter.constructor | src/middleware/rate_limiting.py:338-339 | a new limiter has no logs |
| Middleware.PruneLog | src/middleware/rate_limiting.py:358-362 | the one-pass comprehension yields exactly `KeepRecent` of the log |
| Middleware.InMemoryRateLimiter.IsAllowed | src/middleware/rate_limiting.py:341-372 | replaces the client's log with its pruned copy (an empty one for a new client), then accepts or refuses exactly as `SlidingLogStep` prescribes |

## Left out

- The store client's construction, its `ping` and the pipeline API (src/middleware/rate_limiting.py:45-67). They are network I/O. The store is a map of counters, and whether a round trip succeeds is a parameter (`StoreOutcome`).
- Key expiry (`EXPIRE`) by the wall clock. The window index in the key already separates windows, so expiry only frees memory. The `ttl` argument is carried but has no effect.
- Atomicity and interleaving of requests from concurrent workers. The model handles one request at a time.
- The asynchronous `call_next`. The application's response is a parameter of the `dispatch` method.
- The clock. `time.time()` becomes parameters: a natural number `t` for the check, and an integer `now` for the second reading when a 429 is built.
- The diagnostic `print`s when the store connection fails and when a store error is swallowed (src/middleware/rate_limiting.py:64-66, 239). They are console output and change no state.
- Headers the framework adds to a response, such as `content-type` and `content-length`. The model covers only the headers the middleware sets.
- Floating-point time in `InMemoryRateLimiter`. Timestamps are integers.
- JWT encoding and decoding, and bcrypt hashing and verification. These are library calls. A token is its claim map, and the decoder's answer is a parameter of `Security.RefreshAccessToken`.
- `verify_token` (src/core/security.py:100-123). It only wraps the decoder.
- `get_password_hash` and `verify_password`. They are bcrypt.
- Email validation, environment loading and settings caching. These belong to the schema library. Settings fields the guarded code does not read are omitted.
- The Unicode character classes of `isdigit`, `isupper`, `islower`, `isalnum` and `isspace`. They are modelled on ASCII.
- `user_id` as any Python value. It is modelled as text, and a user id 0, which Python treats as falsy, is not represented.
- The schema library's error format. The schemas report a sequence of field errors. The password-match error comes only after all field checks pass, in the library's order.
- The remaining files are not part of this model: `src/core/utility/decorators.py`, the logging and CORS middleware, application setup, database session and configuration, the route handlers, and the response shapes.
- RateLimiting.ClientIdentifier: for a forwarded request, the contract states the identity's shape (comma-free and stripped) rather than its exact text. `RateLimiting.ForwardedForFirstHop` and `RateLimiting.ForwardedForSingleHop` state the exact text for a header with and without a comma.
- Middleware.RateLimitMiddleware.AddRateLimitHeaders: response headers are a map with case-sensitive names. The framework's header names are case-insensitive, so an existing `x-ratelimit-limit-minute` would be replaced there but is kept beside the new header here.
- RateLimiting.NthAllowedNextRejected: proved for fresh counters, one minute window and a minute limit no larger than the hour limit. That covers every route in the configured table and the defaults.
- Middleware.SlidingLogRunAccepts: proved for runs in which no logged timestamp leaves the window.

## Findings

| source | as written | input that shows it | evidently intended | confidence | as-written member | corrected member |
|---|---|---|---|---|---|---|
| src/api/users/models.py:78-80 | `UserUpdateSchema` makes `password` optional (line 95) but `confirm_password` required (line 96). The shared check `password != confirm_password` then compares `None` with a string, so every update that omits the password fails | an update with only `is_active: false` and `confirm_password: "x"` | the update route changes the password only when one is given (src/api/users/routing.py:85), so the match should apply only to a supplied password | medium, not executed | Users.UpdateWithoutPasswordRejected | Users.UpdateCorrectedAcceptsMissingPassword |
