# Route monitor: a verified model of its checking and validation core

The system monitors HTTP endpoints ("routes") that users register through a
web dashboard. A background worker probes every active route on the route's
own interval and writes one request log per check. The web API summarises
those logs into a health status, and it can send a one-off test request
after a server-side request-forgery guard has approved the target. This
project models four parts of that system in Dafny:

- **The worker's probe** (`worker/src/main.rs`, `check_route`), in modules
  `WorkerMethod`, `WorkerHeaders` and `WorkerProbe`. It covers:
  - method resolution;
  - header building, where an invalid name falls back to `x-custom` and a
    later entry wins over an earlier one with the same name. "Later" means
    later in the iteration order of the stored JSON object. With
    serde_json's default map, that is key order.
  - the retry loop, with its success rule, early exit and 500 ms backoffs;
  - the response-time threshold;
  - the log record that is written.

  `CheckRoute` and `RunAttempts` are methods with the source's loop. They
  are proved against the specification functions `AttemptsMade`,
  `StatusVerdict`, `LastStatus` and `ProbeLog`.
- **The worker's grouping** (`monitor_routes`, lines 260-266), in module
  `WorkerGrouping`. It builds a map from monitoring interval to the routes
  with that interval, keeping their order.
- **The URL guard and the header filter** (`lib/security.ts`), in module
  `Security`:
  - `ValidateUrlSecurityAsWritten` takes the parsed URL (or the parse
    error) and applies every host, port and path test as the code writes
    them. The route handler uses this guard.
  - `ValidateUrlSecurity` is the corrected guard from the finding below. It
    also applies the IPv6 tests inside the brackets of an IPv6 literal.
  - `FilterSensitiveHeaders` is a method with the source's loop. It drops
    every header whose lower-cased name equals a forbidden entry, or starts
    with an entry that ends in `-`. A `__proto__` key is never kept: on a
    plain object, that assignment goes to the prototype setter and does not
    create an own key.
- **The routes API** (`app/api/routes/route.ts`), in module `RouteApi`:
  - the GET handler's status decision, counts and average contributions;
  - the POST handler, which covers authentication, the required fields,
    the `testOnly` path and the creation path, ending in the verdict
    `success = statusMatch && timeWithinThreshold`.
- **The dashboard's status-code chart** (`processStatusData` in
  `components/dashboard/StatsGrid.tsx`), in module `StatsGrid`. It counts
  the logs into 2xx, 3xx, 4xx and 5xx, in that order.

The two supporting modules are `Wrappers` (Option and Result) and `Text`
(prefixes, suffixes, containment, decimal digits). `JsonValue` holds a JSON
value as JavaScript sees it, including `undefined` and JavaScript
truthiness. `WorkerRoute` holds the worker's `Route` and `RequestLog` rows.

Everything the code gets from outside is a parameter. This includes:

- the outcome of each HTTP attempt (a status, or a transport error);
- the elapsed milliseconds;
- the log's UUID;
- the session;
- the WHATWG URL parse of the target;
- `JSON.parse`;
- the `HeaderName`/`HeaderValue` validity checks;
- the fetch outcome;
- the database insert's error.

Case mapping is spelled out:

- Rust's `to_uppercase` is modelled on ASCII plus the non-ASCII characters
  that upper-case into a method name: `ı`, `ſ`, and the ligatures U+FB05 and
  U+FB06.
- JavaScript's `toLowerCase` is modelled on ASCII plus the Kelvin sign,
  which lower-cases to `k`. No other character's lower-case form can
  complete a forbidden header name.

One thing the model makes visible: the GET reply of `/api/routes` (lines
117-139) has no `RequestLog` field. `StatsGrid` charts that reply, so every
route reaches `processStatusData` without logs. `StatsGrid.LoglessRoutesCountNothing`
states the result: all four counts are 0.

## Model

| member | source | states |
|---|---|---|
| WorkerMethod.ResolveMethod | worker/src/main.rs:127-136 | The method is the one whose name equals the upper-cased stored text; text that upper-cases to none of the seven names gives GET |
| WorkerMethod.ResolveName | worker/src/main.rs:127-136 | Every method's own name, in upper or in lower case, resolves to that method |
| WorkerMethod.ResolveExamples | worker/src/main.rs:127-136 | "Patch" gives PATCH; "TRACE" and the empty text fall back to GET |
| WorkerMethod.LigatureSpelling | worker/src/main.rs:127 | Full Unicode upper-casing: "po" followed by the st ligature resolves to POST |
| WorkerHeaders.BuildHeaders | worker/src/main.rs:138-153 | The header map is the fold of insertions over the stored object's entries: only string values that are valid header values are inserted, under the parsed name or "x-custom" |
| WorkerHeaders.InsertedKeys | worker/src/main.rs:139-153 | A header name is present iff some entry has a valid string value and maps to that name |
| WorkerHeaders.InsertedLastWins | worker/src/main.rs:141-148 | A name's value is the value of the last applicable entry that maps to it |
| WorkerHeaders.NoStringNoHeader | worker/src/main.rs:139-143 | With no applicable entry (missing or non-object headers, no valid string values), no header is sent |
| WorkerHeaders.InvalidNamesShareFallback | worker/src/main.rs:144-148 | Two entries with invalid names collapse into one "x-custom" header holding the later value |
| WorkerProbe.AttemptLimit | worker/src/main.rs:167-169 | `0..=retries` makes retries+1 attempts, one when retries is unset, none when retries is negative |
| WorkerProbe.FirstSuccess | worker/src/main.rs:189-206 | The index of the first succeeding outcome, with no success before it; None iff no outcome succeeds |
| WorkerProbe.LastStatus | worker/src/main.rs:164-184 | The recorded status is None iff every attempt ended in a transport error |
| WorkerProbe.LastStatusIsLastResponse | worker/src/main.rs:181-218 | A recorded status is that of the last attempt that got a response; every later attempt failed in transport |
| WorkerProbe.AttemptsMade | worker/src/main.rs:169-220 | At most the attempt limit, at least one when the limit is positive; every attempt before the last failed, and the last one succeeded or used up the limit |
| WorkerProbe.AttemptsMadeDetermined | worker/src/main.rs:169-220 | Those conditions determine the count: any count meeting them is the number of attempts made |
| WorkerProbe.RunAttempts | worker/src/main.rs:164-220 | The loop makes `AttemptsMade` attempts with one 500 ms backoff between consecutive attempts; it ends with the status verdict and the last response status |
| WorkerProbe.CheckRoute | worker/src/main.rs:124-242 | The request carries the resolved method and built headers; the log written is `ProbeLog` (route id, last status, elapsed time, success verdict) |
| WorkerProbe.VerdictIff | worker/src/main.rs:189-228 | A log is successful iff some attempt within the limit succeeded and the threshold, if set, is not exceeded |
| WorkerProbe.SuccessfulLogRecordsMatchingStatus | worker/src/main.rs:183-206 | A successful log's status is that of the final attempt, which is a response that matched the expectation |
| WorkerProbe.FailureExhaustsRetries | worker/src/main.rs:169-220 | When no attempt succeeds, all retries+1 attempts are made and the log is unsuccessful |
| WorkerProbe.NegativeRetriesMakeNoAttempt | worker/src/main.rs:167-169 | A negative retry count sends no request and logs an unsuccessful check without a status |
| WorkerProbe.ThresholdRule | worker/src/main.rs:222-242 | Elapsed time strictly above a set threshold forces failure; otherwise the status verdict stands; the log records the elapsed time and the route id |
| WorkerProbe.ScenarioSingleOk | worker/src/main.rs:164-242 | One 200 response with no expectation: one attempt, logged as a success with status 200 |
| WorkerProbe.ScenarioWrongStatusRetried | worker/src/main.rs:189-220 | An expected 201 against three 500s: three attempts, logged as a failure with status 500 |
| WorkerProbe.ScenarioTooSlow | worker/src/main.rs:222-234 | A 200 after 250 ms against a 100 ms threshold is logged as a failure |
| WorkerProbe.ScenarioErrorKeepsStatus | worker/src/main.rs:181-218 | A 503 then a transport error keeps status 503 in the log |
| WorkerGrouping.GroupByInterval | worker/src/main.rs:260-266 | The map has a key iff some route has that interval; each bucket is that interval's routes in input order and is never empty |
| WorkerGrouping.BucketMembersShareInterval | worker/src/main.rs:260-266 | Every route in a bucket is an input route with the bucket's interval |
| WorkerGrouping.AbsentIntervalEmpty | worker/src/main.rs:260-266 | An interval no route has selects nothing |
| WorkerGrouping.EveryRouteInItsBucket | worker/src/main.rs:261-265 | Every route lands in the bucket of its own interval |
| WorkerGrouping.GroupingKeepsOrder | worker/src/main.rs:261-265 | Grouping a concatenation concatenates the groups, so push order is kept |
| Security.ValidateUrlSecurityAsWritten | lib/security.ts:24-86 | The guard the handler calls: valid iff the URL parses and no test as written blocks it. A blocked URL carries the denial message; an unparsable one gets an error starting with "Invalid URL: " |
| Security.ValidateUrlSecurity | lib/security.ts:24-86 | The corrected guard: the same tests plus the IPv6 prefixes inside brackets, with the same error rules |
| Security.SecondOctetRanges | lib/security.ts:40-49 | The 172 and 100 second-octet patterns accept exactly 16..31 and 64..127 |
| Security.LoopbackRejected | lib/security.ts:30-35 | localhost, [::1] and every 127.x.y.z host with 1-3 digit octets are denied |
| Security.TenBlockRejected | lib/security.ts:37-39 | Every 10.x.y.z host with 1-3 digit octets is denied |
| Security.SecondPrivateBlockRejected | lib/security.ts:40-42 | 172.s.x.y is denied for every s in 16..31 |
| Security.TwoOctetBlocksRejected | lib/security.ts:43-45 | 192.168.x.y and 169.254.x.y are denied, the metadata address 169.254.169.254 among them |
| Security.CarrierNatRejected | lib/security.ts:47-49 | 100.s.x.y is denied for every s in 64..127 |
| Security.InternalNameRejected | lib/security.ts:55-57 | Any host ending in ".local", ".internal", ".private", ".localhost", ".corp", ".home" or ".lan" is denied |
| Security.MetadataHostRejected | lib/security.ts:59-61 | A "metadata.<aws/google/azure/do>." label at the start or after a dot denies the host |
| Security.PortAndPathRejected | lib/security.ts:64-70 | Any of the 21 listed ports is denied whatever the host and path; a path containing ".well-known/webfinger", ".well-known/host-meta" or "/.discovery" is denied whatever the host and port |
| Security.UnparseableRefused | lib/security.ts:80-85 | A URL that does not parse is refused with "Invalid URL: " followed by the parser's message |
| Security.CorrectionOnlyAddsRejections | lib/security.ts:50-53 | The corrected guard denies everything the written guard denies; it differs only on bracketed private IPv6 hosts |
| Security.BracketedV6Bypass | lib/security.ts:50-53 | The host "[fc00::1]" passes the written guard and is denied by the corrected one |
| Security.BracketedPrivateV6Rejected | lib/security.ts:50-53 | Bracketed hosts beginning fc00:, fdXX: or fe80: are denied by the corrected guard |
| Security.Filtered | lib/security.ts:154-171 | A key is kept iff it is in the input, its lower-cased form matches no forbidden entry, and it is not `__proto__`; kept values are unchanged |
| Security.FilterSensitiveHeaders | lib/security.ts:94-172 | The loop, assigning into a plain object, keeps exactly the non-sensitive keys other than `__proto__`, with their original values |
| Security.SensitivityIgnoresCase | lib/security.ts:155-163 | Lower-casing is idempotent, so a name and its lower-cased form are equally sensitive |
| Security.FilterIdempotentSubmap | lib/security.ts:154-171 | The filtered map is a sub-map of the input with no sensitive or `__proto__` key, and filtering it again changes nothing |
| Security.ExactEntryRemoved | lib/security.ts:98-166 | A name whose lower-cased form equals an entry without a trailing dash is removed |
| Security.PrefixEntryRemoved | lib/security.ts:98-166 | A name whose lower-cased form starts with a dash-terminated entry is removed |
| Security.CredentialHeadersDropped | lib/security.ts:98-163 | "Authorization", "COOKIE", "X-Api-Key" and a Kelvin-sign "cookie" are sensitive |
| Security.PrefixFamiliesDropped | lib/security.ts:98-163 | "Sec-Fetch-Site" and "X-AMZ-Date" are sensitive through their prefix entries |
| RouteApi.HealthText | app/api/routes/route.ts:47-83 | The status is one of "Not monitored", "up", "degraded", "down" |
| RouteApi.RouteStatus | app/api/routes/route.ts:36-85 | The status is "Not monitored" iff the route has no logs |
| RouteApi.RouteMetrics | app/api/routes/route.ts:36-139 | Successful checks never exceed total checks, which equal the log count; the newest log supplies the status code and response time |
| RouteApi.NoLogsNotMonitored | app/api/routes/route.ts:36-130 | A route with no logs is "Not monitored", has no status code, reports response time 0 and zero counts |
| RouteApi.NewestFailureIsDown | app/api/routes/route.ts:52-57 | A failed newest log makes the route "down" whatever the history |
| RouteApi.HighUptimeBand | app/api/routes/route.ts:60-75 | At uptime of 98% or more, the route is "degraded" iff the newest response time exceeds a set, non-zero threshold |
| RouteApi.MiddleUptimeBand | app/api/routes/route.ts:65-78 | Between 90% and 98%, the route is "degraded" iff one of the five newest logs failed |
| RouteApi.LowUptimeBands | app/api/routes/route.ts:79-83 | Below 90%, the route is "degraded" at 75% or more and "down" otherwise |
| RouteApi.DownIff | app/api/routes/route.ts:47-84 | "down" iff there are logs and either the newest failed or uptime is below 75% |
| RouteApi.AllSucceeded | app/api/routes/route.ts:41-84 | With every check successful, only a latency spike makes the route "degraded" |
| RouteApi.CountsPartition | app/api/routes/route.ts:41-42 | Successful and failed checks add up to all checks |
| RouteApi.FailuresExist | app/api/routes/route.ts:66-70 | The failure count is positive iff some log failed |
| RouteApi.RecentFailuresBounded | app/api/routes/route.ts:66-70 | Recent failures (among the five newest logs) never exceed all failures |
| RouteApi.PrefixFailures | app/api/routes/route.ts:66-70 | A prefix of the logs never has more failures than all logs |
| RouteApi.AllSuccessCount | app/api/routes/route.ts:42 | When every log succeeded, the success count is the log count |
| RouteApi.ResponseTimeSumSplit | app/api/routes/route.ts:90-102 | The reduce over the logs is additive over concatenation |
| RouteApi.ContributionRule | app/api/routes/route.ts:92-101 | A missing or zero time adds 0, a time below 10 counts as seconds (×1000), and any other time adds itself |
| RouteApi.SumCoversRawTimes | app/api/routes/route.ts:92-101 | With non-negative times, the converted sum is at least the raw sum and non-negative |
| RouteApi.HttpStatus | app/api/routes/route.ts:150-370 | Every reply carries one of 200, 201, 400, 401, 403, 500 |
| RouteApi.ToNumber | app/api/routes/route.ts:274-276 | A JSON number converts to itself in the threshold comparison |
| RouteApi.Verdict | app/api/routes/route.ts:272-297 | The report carries the real status and the rounded time; success iff status match and time within threshold; the expectation defaults to 200 |
| RouteApi.FieldMap | app/api/routes/route.ts:209-216 | A header key is present iff some field has that name |
| RouteApi.Post | app/api/routes/route.ts:150-370 | Without a session: 401. Without url or method: 400. On the test-only path, a target the handler's guard (as written) blocks gets 403 with the guard's error and no request. Headers that fail JSON.parse give a 500 "Failed to test route: " reply. A string body that must be JSON and fails JSON.parse gives the invalid-body 400, and that is the only cause of it. Otherwise a request goes out and the reply is the fetch error (500) or the `Verdict`. The request carries: the body's method; exactly the given headers that are neither sensitive nor `__proto__`, with their values; Content-Type for any method other than GET, overriding a given one; no body for GET or a falsy body; a string body under a non-JSON content type as given; any other body through JSON.stringify (a string under a JSON content type after JSON.parse). The creation path needs name, url, expected status and interval, then gives 201 or "Failed to create route: " |
| RouteApi.DefaultExpectationIs200 | app/api/routes/route.ts:273 | Without a (truthy) expected status, the test matches iff the status is 200 |
| RouteApi.StringExpectationNeverMatches | app/api/routes/route.ts:273 | A non-empty string expectation never equals a numeric status, so such a test never succeeds |
| RouteApi.ThresholdInclusive | app/api/routes/route.ts:274-276 | With a non-zero numeric threshold, the time is within it iff it is at most the threshold |
| RouteApi.NoThresholdNoLimit | app/api/routes/route.ts:274-277 | Without a (truthy) threshold, success depends on the status alone |
| RouteApi.DigitThresholdCoerced | app/api/routes/route.ts:274-276 | A threshold sent as the string "150" is compared numerically |
| RouteApi.SuccessfulTest | app/api/routes/route.ts:272-277 | A successful test had the expected (or default 200) status and a time within any set threshold |
| StatsGrid.ClassOf | components/dashboard/StatsGrid.tsx:113-121 | A code is counted in no class iff it is below 200 |
| StatsGrid.Chart | components/dashboard/StatsGrid.tsx:126-129 | Four entries, 2xx, 3xx, 4xx, 5xx in that order, each with its class's count |
| StatsGrid.ProcessStatusData | components/dashboard/StatsGrid.tsx:101-130 | The loops produce the chart of the codes of all logs of all routes, a missing code counting as 0 |
| StatsGrid.CountLogs | components/dashboard/StatsGrid.tsx:111-122 | Counting one route's logs adds their codes to the four counters |
| StatsGrid.ClassRanges | components/dashboard/StatsGrid.tsx:113-121 | The four classes are the ranges 200-299, 300-399, 400-499 and 500 and up |
| StatsGrid.CountsPartition | components/dashboard/StatsGrid.tsx:113-122 | The four counts plus the codes below 200 add up to the number of logs |
| StatsGrid.MissingCodeCountedNowhere | components/dashboard/StatsGrid.tsx:112 | A log without a status code changes no count |
| StatsGrid.CountsAppend | components/dashboard/StatsGrid.tsx:109-124 | Counts are additive over consecutive runs of logs |
| StatsGrid.LoglessRoutesCountNothing | components/dashboard/StatsGrid.tsx:110 | Routes without logs produce four zero counts |
| StatsGrid.MoreRoutesNeverLowerCounts | components/dashboard/StatsGrid.tsx:109-124 | Another route adds its own counts and lowers none |

## Left out

- Scheduling and concurrency are not modelled. This covers the per-interval tokio tasks, the interval timers and the join in `monitor_routes` (worker/src/main.rs:268-313). Only the grouping that feeds them is modelled.
- The database is not modelled. Fetching the active routes and inserting the log are outside the model; the log's UUID is a parameter.
- The HTTP client is an input: reqwest's `send` becomes a sequence of attempt outcomes. The 500 ms sleeps are counted as backoffs, not waited. The 30 s client timeout is not modelled.
- The clock is an input: the elapsed time is a parameter.
- WorkerProbe.CheckRoute: the `as i32` cast of elapsed milliseconds is not modelled; the logged time is the elapsed time itself. The clock starts before the retry loop, so the elapsed time covers every attempt: up to 30 s per timed-out attempt plus 0.5 s per backoff. The retry count has no upper bound, so about 70,000 timed-out attempts pass 2^31 ms. The real cast would then wrap to a negative time that passes any threshold. The model does not capture this.
- WorkerMethod.ResolveMethod: Rust's `to_uppercase` is modelled only on ASCII and on the non-ASCII characters that upper-case into one of the seven method names. Other characters keep their value. That cannot change which method is chosen, but `ToUpper` is not the full Unicode mapping.
- WorkerProbe.CheckRoute: the stored request body (worker/src/main.rs:155, 176-178) is carried into the request unchanged, as an opaque string; its content is not modelled. Printing the body (lines 156-162) and the other log output is not modelled either.
- The WHATWG URL parser, `JSON.parse`, and reqwest's `HeaderName`/`HeaderValue` validity checks are parameters. So are the regex engine's inputs: the host name, port text and path are taken already parsed.
- Security.ValidateUrlSecurityAsWritten: `Number(port)` is modelled for the empty port and decimal digit strings. Those are the only forms a parsed URL's port takes.
- Security.FilterSensitiveHeaders: JavaScript's `toLowerCase` is modelled only on ASCII and the Kelvin sign. Other characters keep their value, which cannot make a name match a forbidden entry. Object key order is not modelled, because the result is a map.
- RouteApi.RouteMetrics: floating-point values are left out. The uptime percentage is compared as an exact ratio (`100*successes >= 98*total`), not as a rounded float. The average's division, `Math.round` and `toFixed` are not modelled; only the sum being averaged is.
- The GET handler's `recentUptime` over the last 24 hours is not modelled, because it needs the clock. `lastChecked` and the pass-through fields of the GET reply are not modelled either.
- The GET handler's session check (401) and its query are not modelled. The query covers the user filter, the ordering and the 100-log limit. Logs are given newest first, as the query returns them.
- JsonValue.Json: JSON numbers are integers only. A fractional threshold or expected status code cannot be expressed, and neither can `NaN` or the infinities.
- RouteApi.ToNumber: JavaScript's number coercion is modelled for null, booleans, numbers and digit-only strings. Every other value is treated as NaN, so any comparison with it is false. JavaScript gives a number for several of them: strings with whitespace, a sign, a fraction or an exponent; hexadecimal, octal and binary strings (`"0x96"` is 150); `"Infinity"`; a string of spaces only (0); an empty array (0); and an array of one such value (`[150]` is 150).
- RouteApi.Post: header values that are arrays or strings are treated as having no headers. `for…in` would enumerate their indices. The request body's own `req.json()` failure is also not modelled.
- RouteApi.Post: on the creation path, only the outcome (201 or the failure message) is modelled. The stored row's fields (`JSON.stringify`, `parseInt`, the new UUID) and the reply's timestamp are not.
- StatsGrid: only `processStatusData` is modelled. The other chart functions in components/dashboard/StatsGrid.tsx and its data fetching are not part of this model.
- The code has no dynamic route registry or file watcher. Routes are read from the database once per worker start, so there is nothing to model there.

## Findings

| source | as written | input that shows it | evidently intended | confidence | as-written member | corrected member |
|---|---|---|---|---|---|---|
| lib/security.ts:51-53 | The IPv6 tests match `^fc00:`, `^fd[0-9a-f]{2}:` and `^fe80:` against `URL.hostname`, which keeps the brackets of an IPv6 literal (line 35 itself compares against "[::1]") | `http://[fc00::1]/` has host name "[fc00::1]", which passes every test and is approved | Deny unique-local and link-local IPv6 literals, as the comment at line 50 says | not executed | Security.BracketedV6Bypass | Security.BracketedPrivateV6Rejected |
