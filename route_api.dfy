/**
 * The routes API of app/api/routes/route.ts: the health, uptime and
 * response-time figures the GET handler derives from a route's newest
 * request logs, and the POST handler's field validation and test-only probe.
 *
 * The store queries, the session lookup, the outgoing fetch and its clock
 * are inputs: a route's logs arrive newest first (the query orders by
 * creation time, descending), the session is a flag, and the probe's
 * outcome is given as a status and a rounded duration, or the message of
 * the error fetch raised.
 */
module RouteApi {
  import opened Wrappers
  import opened JsonValue
  import opened Text
  import Security

  // ---------------------------------------------------------------------
  // GET: health and metrics of one route
  // ---------------------------------------------------------------------

  /** A request log row as the store returns it; a null column is None. */
  datatype LogRow = LogRow(isSuccess: bool, statusCode: Option<int>, responseTime: Option<int>)

  datatype Health = NotMonitored | Up | Degraded | Down

  /** The status text the dashboard receives. */
  function HealthText(h: Health): (t: string)
    ensures t in ["Not monitored", "up", "degraded", "down"]
  {
    match h
    case NotMonitored => "Not monitored"
    case Up => "up"
    case Degraded => "degraded"
    case Down => "down"
  }

  function SuccessCount(logs: seq<LogRow>): (n: nat)
    ensures n <= |logs|
  {
    if logs == [] then 0 else (if logs[0].isSuccess then 1 else 0) + SuccessCount(logs[1..])
  }

  function FailureCount(logs: seq<LogRow>): (n: nat)
    ensures n <= |logs|
  {
    if logs == [] then 0 else (if logs[0].isSuccess then 0 else 1) + FailureCount(logs[1..])
  }

  /** Failures among the five newest logs. */
  function RecentFailures(logs: seq<LogRow>): (n: nat)
    ensures n <= 5
  {
    FailureCount(if |logs| <= 5 then logs else logs[..5])
  }

  /**
   * The uptime percentage, successes / total * 100, reaches `pct`.
   * Compared exactly, in integers.
   */
  predicate UptimeAtLeast(logs: seq<LogRow>, pct: int) {
    100 * SuccessCount(logs) >= pct * |logs|
  }

  /** Both the newest response time and the threshold are set and non-zero, and the time exceeds the threshold. */
  predicate HasLatencySpike(last: Option<int>, threshold: Option<int>) {
    match (last, threshold)
    case (Some(rt), Some(t)) => rt != 0 && t != 0 && rt > t
    case _ => false
  }

  /**
   * The route's health. The store never yields `undefined` for a missing
   * response time (it yields null), so only the newest log's success flag
   * decides the "down" branch.
   */
  function RouteStatus(logs: seq<LogRow>, threshold: Option<int>): (h: Health)
    ensures h == NotMonitored <==> logs == []
  {
    if logs == [] then NotMonitored
    else if !logs[0].isSuccess then Down
    else if UptimeAtLeast(logs, 98) then (if HasLatencySpike(logs[0].responseTime, threshold) then Degraded else Up)
    else if UptimeAtLeast(logs, 90) then (if RecentFailures(logs) > 0 then Degraded else Up)
    else if UptimeAtLeast(logs, 75) then Degraded
    else Down
  }

  /** A log's share of the response-time sum: missing or zero counts 0, a value below 10 is taken as seconds. */
  function Contribution(responseTime: Option<int>): int {
    var rt := responseTime.GetOr(0);
    if rt < 10 then rt * 1000 else rt
  }

  /** The running sum of the average's reduce, newest log first. */
  function ResponseTimeSum(logs: seq<LogRow>): int {
    if logs == [] then 0
    else ResponseTimeSum(logs[..|logs| - 1]) + Contribution(logs[|logs| - 1].responseTime)
  }

  /**
   * The figures the handler reports for a route. The average is
   * `responseTimeSum / totalChecks` (0 without logs) and the uptime
   * `successfulChecks / totalChecks * 100` (0 without logs); both are
   * rounded or formatted as floats, which is not part of this model.
   */
  datatype Metrics = Metrics(
    status: Health,
    statusCode: Option<int>,
    responseTime: Option<int>,
    totalChecks: nat,
    successfulChecks: nat,
    responseTimeSum: int)

  /**
   * The shown response time is the newest log's (null when that log has
   * none); without logs it is the rounded average, which is then 0.
   */
  function RouteMetrics(logs: seq<LogRow>, threshold: Option<int>): (m: Metrics)
    ensures m.successfulChecks <= m.totalChecks == |logs|
    ensures logs != [] ==> m.statusCode == logs[0].statusCode && m.responseTime == logs[0].responseTime
  {
    Metrics(
      RouteStatus(logs, threshold),
      if logs == [] then None else logs[0].statusCode,
      if logs == [] then Some(0) else logs[0].responseTime,
      |logs|,
      SuccessCount(logs),
      ResponseTimeSum(logs))
  }

  /** Without logs a route is "Not monitored", with no checks, no successes, and a response time and sum of 0. */
  lemma NoLogsNotMonitored(threshold: Option<int>)
    ensures RouteMetrics([], threshold) == Metrics(NotMonitored, None, Some(0), 0, 0, 0)
  {
  }

  /** A failed newest check makes the route "down", whatever its uptime. */
  lemma NewestFailureIsDown(logs: seq<LogRow>, threshold: Option<int>)
    requires logs != [] && !logs[0].isSuccess
    ensures RouteStatus(logs, threshold) == Down
  {
  }

  /** At 98% uptime or more only a latency spike degrades the route; recent failures do not. */
  lemma HighUptimeBand(logs: seq<LogRow>, threshold: Option<int>)
    requires logs != [] && logs[0].isSuccess
    requires 100 * SuccessCount(logs) >= 98 * |logs|
    ensures RouteStatus(logs, threshold) in {Up, Degraded}
    ensures RouteStatus(logs, threshold) == Degraded <==> HasLatencySpike(logs[0].responseTime, threshold)
  {
  }

  /** From 90% up to 98% uptime, a failure among the five newest logs degrades the route. */
  lemma MiddleUptimeBand(logs: seq<LogRow>, threshold: Option<int>)
    requires logs != [] && logs[0].isSuccess
    requires 90 * |logs| <= 100 * SuccessCount(logs) < 98 * |logs|
    ensures RouteStatus(logs, threshold) in {Up, Degraded}
    ensures RouteStatus(logs, threshold) == Degraded <==> exists i | 0 <= i < |logs| && i < 5 :: !logs[i].isSuccess
  {
    var recent := if |logs| <= 5 then logs else logs[..5];
    FailuresExist(recent);
    forall i | 0 <= i < |logs| && i < 5
      ensures logs[i] == recent[i]
    {
    }
  }

  /** Below 90% uptime the route is "degraded" down to 75% and "down" below that. */
  lemma LowUptimeBands(logs: seq<LogRow>, threshold: Option<int>)
    requires logs != [] && logs[0].isSuccess
    requires 100 * SuccessCount(logs) < 90 * |logs|
    ensures RouteStatus(logs, threshold) == (if 4 * SuccessCount(logs) >= 3 * |logs| then Degraded else Down)
  {
  }

  /** A route is "down" exactly when it has logs and the newest failed or uptime is below 75%. */
  lemma DownIff(logs: seq<LogRow>, threshold: Option<int>)
    ensures RouteStatus(logs, threshold) == Down <==>
      logs != [] && (!logs[0].isSuccess || 4 * SuccessCount(logs) < 3 * |logs|)
  {
  }

  /** Every log is a success or a failure. */
  lemma {:induction false} CountsPartition(logs: seq<LogRow>)
    ensures SuccessCount(logs) + FailureCount(logs) == |logs|
  {
    if logs != [] {
      CountsPartition(logs[1..]);
    }
  }

  /** The failure count is positive exactly when some log failed. */
  lemma {:induction false} FailuresExist(logs: seq<LogRow>)
    ensures FailureCount(logs) > 0 <==> exists i | 0 <= i < |logs| :: !logs[i].isSuccess
  {
    if logs != [] {
      FailuresExist(logs[1..]);
      if !logs[0].isSuccess {
      } else if FailureCount(logs[1..]) > 0 {
        var j :| 0 <= j < |logs[1..]| && !logs[1..][j].isSuccess;
        assert !logs[j + 1].isSuccess;
      } else {
        forall i | 0 <= i < |logs| ensures logs[i].isSuccess {
          if i > 0 {
            assert logs[i] == logs[1..][i - 1];
          }
        }
      }
    }
  }

  /** Recent failures are failures: they never exceed the failures of the whole list. */
  lemma {:induction false} RecentFailuresBounded(logs: seq<LogRow>)
    ensures RecentFailures(logs) <= FailureCount(logs)
    ensures RecentFailures(logs) <= |logs| - SuccessCount(logs)
  {
    CountsPartition(logs);
    if |logs| > 5 {
      PrefixFailures(logs, 5);
    }
  }

  lemma {:induction false} PrefixFailures(logs: seq<LogRow>, n: nat)
    requires n <= |logs|
    ensures FailureCount(logs[..n]) <= FailureCount(logs)
  {
    if n > 0 {
      assert logs[..n][1..] == logs[1..][..n - 1];
      PrefixFailures(logs[1..], n - 1);
    }
  }

  /** A route whose every logged check succeeded is never "down": it is "up" unless its newest time spikes. */
  lemma AllSucceeded(logs: seq<LogRow>, threshold: Option<int>)
    requires logs != []
    requires forall i | 0 <= i < |logs| :: logs[i].isSuccess
    ensures RouteStatus(logs, threshold) == (if HasLatencySpike(logs[0].responseTime, threshold) then Degraded else Up)
  {
    AllSuccessCount(logs);
  }

  lemma {:induction false} AllSuccessCount(logs: seq<LogRow>)
    requires forall i | 0 <= i < |logs| :: logs[i].isSuccess
    ensures SuccessCount(logs) == |logs|
  {
    if logs != [] {
      assert forall i | 0 <= i < |logs[1..]| :: logs[1..][i] == logs[i + 1];
      AllSuccessCount(logs[1..]);
    }
  }

  /** The response-time sum adds up over consecutive runs of logs. */
  lemma {:induction false} ResponseTimeSumSplit(a: seq<LogRow>, b: seq<LogRow>)
    ensures ResponseTimeSum(a + b) == ResponseTimeSum(a) + ResponseTimeSum(b)
  {
    if b != [] {
      assert (a + b)[..|a + b| - 1] == a + b[..|b| - 1];
      ResponseTimeSumSplit(a, b[..|b| - 1]);
    } else {
      assert a + b == a;
    }
  }

  /** A missing time counts 0; a time below 10 counts as seconds; any other is taken as milliseconds. */
  lemma ContributionRule(rt: int)
    ensures Contribution(None) == 0 && Contribution(Some(0)) == 0
    ensures rt < 10 ==> Contribution(Some(rt)) == 1000 * rt
    ensures rt >= 10 ==> Contribution(Some(rt)) == rt
  {
  }

  /** When no time is negative, the sum is at least the sum of the raw times. */
  lemma {:induction false} SumCoversRawTimes(logs: seq<LogRow>)
    requires forall i | 0 <= i < |logs| :: logs[i].responseTime.GetOr(0) >= 0
    ensures ResponseTimeSum(logs) >= RawSum(logs) >= 0
  {
    if logs != [] {
      SumCoversRawTimes(logs[..|logs| - 1]);
    }
  }

  function RawSum(logs: seq<LogRow>): int {
    if logs == [] then 0 else RawSum(logs[..|logs| - 1]) + logs[|logs| - 1].responseTime.GetOr(0)
  }

  // ---------------------------------------------------------------------
  // POST: validation and the test-only probe
  // ---------------------------------------------------------------------

  /** The fields of a POST body; a field the body lacks is Undefined. */
  datatype RouteBody = RouteBody(
    name: Json,
    description: Json,
    methodName: Json,
    url: Json,
    headers: Json,
    body: Json,
    expectedStatusCode: Json,
    responseTimeThreshold: Json,
    monitoringInterval: Json,
    retries: Json,
    alertEmail: Json,
    testOnly: Json,
    contentType: Json)

  /** What the probe's fetch did: a status and its duration rounded to milliseconds, or the error it raised. */
  datatype FetchOutcome = Fetched(status: int, elapsedMs: int) | FetchFailed(message: string)

  /** The body of the probe request: none, a JSON value serialised with JSON.stringify, or a string sent as it is. */
  datatype OutgoingBody = NoBody | Reserialized(value: Json) | Verbatim(text: string)

  datatype TestRequest = TestRequest(methodName: Json, headers: map<string, Json>, body: OutgoingBody)

  datatype Reply =
    | Unauthorized
    | BadRequest(error: string)
    | Forbidden(denial: Option<string>)
    | TestReport(
        success: bool,
        statusCode: int,
        expectedStatusCode: Json,
        responseTime: int,
        statusMatch: bool,
        timeWithinThreshold: bool)
    | TestFailed(error: string)
    | Created
    | CreateFailed(error: string)

  const RequiredMessage := "URL and Method are required"
  const MissingMessage := "Missing required fields"
  const InvalidBodyMessage := "Invalid JSON in request body"
  const TestFailurePrefix := "Failed to test route: "
  const CreateFailurePrefix := "Failed to create route: "

  function HttpStatus(r: Reply): (code: int)
    ensures code in {200, 201, 400, 401, 403, 500}
  {
    match r
    case Unauthorized => 401
    case BadRequest(_) => 400
    case Forbidden(_) => 403
    case TestReport(_, _, _, _, _, _) => 200
    case TestFailed(_) => 500
    case Created => 201
    case CreateFailed(_) => 500
  }

  /** The fields the creation path demands, by truthiness. */
  predicate MissingRequired(b: RouteBody) {
    !Truthy(b.name) || !Truthy(b.url) || !Truthy(b.expectedStatusCode) || !Truthy(b.monitoringInterval)
  }

  /** `expectedStatusCode || 200`. */
  function ExpectedOrDefault(expected: Json): Json {
    if Truthy(expected) then expected else Num(200)
  }

  /**
   * The number a threshold stands for in `<=`: null is 0, booleans are 0 or 1,
   * a string of decimal digits is its value; None stands for NaN.
   */
  function ToNumber(v: Json): (n: Option<int>)
    ensures v.Num? ==> n == Some(v.n)
  {
    match v
    case Null => Some(0)
    case Bool(b) => Some(if b then 1 else 0)
    case Num(x) => Some(x)
    case Str(s) => if AllDigits(s) then Some(DecimalValue(s)) else None
    case _ => None
  }

  /** `!threshold || ms <= threshold`. */
  predicate WithinThreshold(ms: int, threshold: Json) {
    !Truthy(threshold) || (ToNumber(threshold).Some? && ms <= ToNumber(threshold).value)
  }

  /** The test-only verdict for a fetched status and duration. */
  function Verdict(status: int, ms: int, expected: Json, threshold: Json): (r: Reply)
    ensures r.TestReport? && r.statusCode == status && r.responseTime == ms
    ensures r.success <==> r.statusMatch && r.timeWithinThreshold
    ensures r.expectedStatusCode == ExpectedOrDefault(expected)
  {
    var statusMatch := Num(status) == ExpectedOrDefault(expected);
    var within := WithinThreshold(ms, threshold);
    TestReport(statusMatch && within, status, ExpectedOrDefault(expected), ms, statusMatch, within)
  }

  /** The key/value view `for…in` takes of parsed headers: an object's fields, later duplicates winning. */
  function HeaderView(v: Json): map<string, Json> {
    match v
    case Object(fields) => FieldMap(fields)
    case _ => map[]
  }

  function FieldMap(fields: seq<(string, Json)>): (m: map<string, Json>)
    ensures forall k :: k in m <==> exists i | 0 <= i < |fields| :: fields[i].0 == k
  {
    if fields == [] then map[]
    else
      var last := fields[|fields| - 1];
      var m := FieldMap(fields[..|fields| - 1])[last.0 := last.1];
      assert forall i | 0 <= i < |fields| - 1 :: fields[..|fields| - 1][i] == fields[i];
      m
  }

  /** The headers as parsed: a string is given to JSON.parse, any other value is taken as it is. */
  function HeaderSource(v: Json, parseJson: string -> Result<Json>): Result<Json> {
    if v.Str? then parseJson(v.s) else Ok(v)
  }

  predicate Admitted(signedIn: bool, b: RouteBody) {
    signedIn && Truthy(b.url) && Truthy(b.methodName)
  }

  /** The test-only path is taken and the guard, as the handler calls it, passes the target. */
  predicate Probing(signedIn: bool, b: RouteBody, target: Security.ParsedUrl) {
    Admitted(signedIn, b) && Truthy(b.testOnly) && Security.ValidateUrlSecurityAsWritten(target).isValid
  }

  /** Headers are given but JSON.parse rejects them. */
  predicate HeadersFail(b: RouteBody, parseJson: string -> Result<Json>) {
    Truthy(b.headers) && HeaderSource(b.headers, parseJson).Err?
  }

  /** The key/value pairs of the given headers, none when they are falsy or do not parse. */
  function GivenHeaders(b: RouteBody, parseJson: string -> Result<Json>): map<string, Json> {
    if Truthy(b.headers) && HeaderSource(b.headers, parseJson).Ok? then HeaderView(HeaderSource(b.headers, parseJson).value)
    else map[]
  }

  /** The body is treated as JSON: the content type is JSON or not given. */
  predicate JsonBody(b: RouteBody) {
    b.contentType == Str("application/json") || !Truthy(b.contentType)
  }

  /** A body is sent, it is to be JSON, it is a string, and JSON.parse rejects it. */
  predicate BodyFails(b: RouteBody, parseJson: string -> Result<Json>) {
    b.methodName != Str("GET") && Truthy(b.body) && JsonBody(b) && b.body.Str? && parseJson(b.body.s).Err?
  }

  /**
   * The POST handler up to the store insert. `target` is what the URL
   * parser makes of the body's url, `parseJson` is JSON.parse (an error
   * carries the message it raised), `fetched` is the probe's outcome and
   * `insertError` the message of a failed insert, if any. `sent` is the
   * probe request, when one is made.
   */
  method Post(
    signedIn: bool,
    b: RouteBody,
    target: Security.ParsedUrl,
    parseJson: string -> Result<Json>,
    fetched: FetchOutcome,
    insertError: Option<string>)
    returns (reply: Reply, sent: Option<TestRequest>)
    // Authentication, then url and method, before anything else
    ensures !signedIn ==> reply == Unauthorized && sent == None
    ensures signedIn && !Admitted(signedIn, b) ==> reply == BadRequest(RequiredMessage) && sent == None
    // The test-only path: a target the guard blocks is never probed
    ensures sent.Some? ==> Probing(signedIn, b, target) && !HeadersFail(b, parseJson) && !BodyFails(b, parseJson)
    ensures Admitted(signedIn, b) && Truthy(b.testOnly) && !Security.ValidateUrlSecurityAsWritten(target).isValid ==>
      reply == Forbidden(Security.ValidateUrlSecurityAsWritten(target).error) && sent == None
    ensures Probing(signedIn, b, target) && HeadersFail(b, parseJson) ==>
      reply == TestFailed(TestFailurePrefix + HeaderSource(b.headers, parseJson).message) && sent == None
    ensures Probing(signedIn, b, target) && !HeadersFail(b, parseJson) ==>
      (reply == BadRequest(InvalidBodyMessage) <==> BodyFails(b, parseJson))
    ensures Probing(signedIn, b, target) && !HeadersFail(b, parseJson) && !BodyFails(b, parseJson) ==>
      sent.Some? &&
      reply == (match fetched
                case FetchFailed(message) => TestFailed(TestFailurePrefix + message)
                case Fetched(status, ms) => Verdict(status, ms, b.expectedStatusCode, b.responseTimeThreshold))
    // The probe request: same method, the kept headers, Content-Type for methods other than GET
    ensures sent.Some? ==> sent.value.methodName == b.methodName
    ensures sent.Some? ==> forall k | k in sent.value.headers ::
      (k == "Content-Type" && b.methodName != Str("GET")) ||
      (k in GivenHeaders(b, parseJson) && !Security.IsSensitive(k) && k != Security.ProtoKey &&
       sent.value.headers[k] == GivenHeaders(b, parseJson)[k])
    ensures sent.Some? ==> forall k | k in GivenHeaders(b, parseJson) && !Security.IsSensitive(k) && k != Security.ProtoKey ::
      (k != "Content-Type" || b.methodName == Str("GET")) ==>
        k in sent.value.headers && sent.value.headers[k] == GivenHeaders(b, parseJson)[k]
    ensures sent.Some? && b.methodName != Str("GET") ==>
      "Content-Type" in sent.value.headers &&
      sent.value.headers["Content-Type"] == (if Truthy(b.contentType) then b.contentType else Str("application/json"))
    // The probe body: none for GET or a falsy body; a string sent as it is only under a non-JSON content type; any other body through JSON.stringify
    ensures sent.Some? && (b.methodName == Str("GET") || !Truthy(b.body)) ==> sent.value.body == NoBody
    ensures sent.Some? && b.methodName != Str("GET") && Truthy(b.body) && !JsonBody(b) && b.body.Str? ==>
      sent.value.body == Verbatim(b.body.s)
    ensures sent.Some? && b.methodName != Str("GET") && Truthy(b.body) && !JsonBody(b) && !b.body.Str? ==>
      sent.value.body == Reserialized(b.body)
    ensures sent.Some? && b.methodName != Str("GET") && Truthy(b.body) && JsonBody(b) && !b.body.Str? ==>
      sent.value.body == Reserialized(b.body)
    ensures sent.Some? && b.methodName != Str("GET") && Truthy(b.body) && JsonBody(b) && b.body.Str? ==>
      parseJson(b.body.s).Ok? && sent.value.body == Reserialized(parseJson(b.body.s).value)
    // The creation path
    ensures Admitted(signedIn, b) && !Truthy(b.testOnly) ==>
      (sent == None &&
       reply == (if MissingRequired(b) then BadRequest(MissingMessage)
                 else if insertError.Some? then CreateFailed(CreateFailurePrefix + insertError.value)
                 else Created))
  {
    sent := None;
    if !signedIn {
      return Unauthorized, None;
    }
    if !Truthy(b.url) || !Truthy(b.methodName) {
      return BadRequest(RequiredMessage), None;
    }

    if Truthy(b.testOnly) {
      var check := Security.ValidateUrlSecurityAsWritten(target);
      if !check.isValid {
        return Forbidden(check.error), None;
      }

      var headers: map<string, Json> := map[];
      if Truthy(b.headers) {
        var parsed: Json;
        match HeaderSource(b.headers, parseJson) {
          case Err(message) =>
            return TestFailed(TestFailurePrefix + message), None;
          case Ok(v) =>
            parsed := v;
        }
        var kept := Security.FilterSensitiveHeaders(HeaderView(parsed));
        headers := headers + kept;
      }

      var notGet := b.methodName != Str("GET");
      if notGet && Truthy(b.contentType) {
        headers := headers["Content-Type" := b.contentType];
      } else if notGet {
        headers := headers["Content-Type" := Str("application/json")];
      }

      var outgoing := NoBody;
      if notGet && Truthy(b.body) {
        if b.contentType == Str("application/json") || !Truthy(b.contentType) {
          if b.body.Str? {
            match parseJson(b.body.s) {
              case Err(_) =>
                return BadRequest(InvalidBodyMessage), None;
              case Ok(v) =>
                outgoing := Reserialized(v);
            }
          } else {
            outgoing := Reserialized(b.body);
          }
        } else {
          outgoing := if b.body.Str? then Verbatim(b.body.s) else Reserialized(b.body);
        }
      }

      sent := Some(TestRequest(b.methodName, headers, outgoing));
      match fetched {
        case FetchFailed(message) =>
          reply := TestFailed(TestFailurePrefix + message);
        case Fetched(status, ms) =>
          reply := Verdict(status, ms, b.expectedStatusCode, b.responseTimeThreshold);
      }
      return;
    }

    if MissingRequired(b) {
      return BadRequest(MissingMessage), None;
    }
    match insertError {
      case Some(message) =>
        reply := CreateFailed(CreateFailurePrefix + message);
      case None =>
        reply := Created;
    }
  }

  /** Without an expected status (or with 0), only 200 matches. */
  lemma DefaultExpectationIs200(status: int, ms: int, expected: Json, threshold: Json)
    requires !Truthy(expected)
    ensures Verdict(status, ms, expected, threshold).statusMatch <==> status == 200
  {
  }

  /** The match is strict: an expected status sent as a string never matches. */
  lemma StringExpectationNeverMatches(status: int, ms: int, s: string, threshold: Json)
    requires s != ""
    ensures !Verdict(status, ms, Str(s), threshold).statusMatch
    ensures !Verdict(status, ms, Str(s), threshold).success
  {
  }

  /** A numeric threshold is inclusive: the time may equal it. */
  lemma ThresholdInclusive(status: int, ms: int, expected: Json, t: int)
    requires t != 0
    ensures Verdict(status, ms, expected, Num(t)).timeWithinThreshold <==> ms <= t
  {
  }

  /** A missing or zero threshold puts no limit on the time. */
  lemma NoThresholdNoLimit(status: int, ms: int, expected: Json, threshold: Json)
    requires !Truthy(threshold)
    ensures Verdict(status, ms, expected, threshold).success <==> Num(status) == ExpectedOrDefault(expected)
  {
  }

  /** A threshold written as digits is compared by its value, as `<=` coerces it. */
  lemma DigitThresholdCoerced(status: int, ms: int, expected: Json)
    ensures Verdict(status, ms, expected, Str("150")).timeWithinThreshold <==> ms <= 150
  {
    assert AllDigits("150") by {
      assert "150"[1..] == "50" && "50"[1..] == "0" && "0"[1..] == "";
    }
    assert DecimalValue("150") == 150 by {
      assert "150"[..2] == "15" && "15"[..1] == "1" && "1"[..0] == "";
    }
  }

  /** A successful test needs the expected status and a time within the threshold. */
  lemma SuccessfulTest(status: int, ms: int, expected: Json, threshold: Json)
    requires Verdict(status, ms, expected, threshold).success
    ensures Truthy(expected) ==> expected == Num(status)
    ensures !Truthy(expected) ==> status == 200
    ensures Truthy(threshold) ==> ToNumber(threshold).Some? && ms <= ToNumber(threshold).value
  {
  }
}
