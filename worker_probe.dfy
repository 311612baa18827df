/**
 * One probe of one route (worker/src/main.rs, `check_route`): the request
 * is prepared once, then up to `retries + 1` attempts are made, stopping at
 * the first successful one, and the response-time threshold is applied once
 * after the loop.
 *
 * The network and the clock are inputs: `outcomes[i]` is what attempt `i`
 * produced, and `elapsed` is the number of milliseconds from the start of
 * the first attempt to the end of the loop.
 */
module WorkerProbe {
  import opened Wrappers
  import opened WorkerRoute
  import opened WorkerMethod
  import opened WorkerHeaders

  /** What one HTTP attempt produced: a response with its status, or a transport error. */
  datatype Outcome = Response(status: int) | TransportError

  /** The request every attempt sends. */
  datatype Request = Request(verb: HttpMethod, url: string, headers: map<string, string>, body: Option<string>)

  /** One probe: the request sent, how many attempts and 500 ms backoffs it made, and the log row it writes. */
  datatype Probe = Probe(request: Request, attempts: nat, backoffs: nat, log: RequestLog)

  /** The wait after a failed attempt that is not the last one, in milliseconds. */
  const BackoffMs := 500

  /** With an expected status only that status succeeds; without one, the 2xx class does. */
  predicate StatusIsSuccess(status: int, expected: Option<int>) {
    match expected
    case Some(e) => status == e
    case None => 200 <= status <= 299
  }

  predicate Succeeds(o: Outcome, expected: Option<int>) {
    o.Response? && StatusIsSuccess(o.status, expected)
  }

  /** `0..=retries.unwrap_or(0)`: the number of attempts allowed, none when the retry count is negative. */
  function AttemptLimit(retries: Option<int>): (n: nat)
    ensures retries.None? ==> n == 1
    ensures retries.Some? && retries.value >= 0 ==> n == retries.value + 1
    ensures retries.Some? && retries.value < 0 ==> n == 0
  {
    var r := retries.GetOr(0);
    if r < 0 then 0 else r + 1
  }

  /** The index of the first successful outcome, if any. */
  function FirstSuccess(outs: seq<Outcome>, expected: Option<int>): (k: Option<nat>)
    ensures k.Some? ==> k.value < |outs| && Succeeds(outs[k.value], expected)
    ensures k.Some? ==> forall j | 0 <= j < k.value :: !Succeeds(outs[j], expected)
    ensures k.None? <==> forall j | 0 <= j < |outs| :: !Succeeds(outs[j], expected)
  {
    if outs == [] then None
    else if Succeeds(outs[0], expected) then Some(0)
    else
      match FirstSuccess(outs[1..], expected)
      case Some(k) => assert outs[1..][k] == outs[k + 1]; Some(k + 1)
      case None => assert forall j | 1 <= j < |outs| :: outs[j] == outs[1..][j - 1]; None
  }

  /** The status of the last outcome that was a response; a later transport error does not clear it. */
  function LastStatus(outs: seq<Outcome>): (s: Option<int>)
    ensures s.None? <==> forall j | 0 <= j < |outs| :: outs[j].TransportError?
  {
    if outs == [] then None
    else if outs[|outs| - 1].Response? then Some(outs[|outs| - 1].status)
    else
      var init := outs[..|outs| - 1];
      assert forall j | 0 <= j < |init| :: init[j] == outs[j];
      LastStatus(init)
  }

  /** The recorded status is that of a response followed only by transport errors. */
  lemma {:induction false} LastStatusIsLastResponse(outs: seq<Outcome>)
    requires LastStatus(outs).Some?
    ensures exists j | 0 <= j < |outs| ::
      outs[j] == Response(LastStatus(outs).value) && forall l | j < l < |outs| :: outs[l].TransportError?
  {
    var n := |outs|;
    if outs[n - 1].Response? {
      assert outs[n - 1] == Response(LastStatus(outs).value);
    } else {
      var init := outs[..n - 1];
      LastStatusIsLastResponse(init);
      var j :| 0 <= j < |init| && init[j] == Response(LastStatus(init).value) &&
        forall l | j < l < |init| :: init[l].TransportError?;
      assert outs[j] == init[j];
      forall l | j < l < n
        ensures outs[l].TransportError?
      {
        if l < n - 1 {
          assert outs[l] == init[l];
        }
      }
    }
  }

  /** One more attempt: a response replaces the recorded status, a transport error keeps it. */
  lemma LastStatusStep(outs: seq<Outcome>, n: nat)
    requires n < |outs|
    ensures LastStatus(outs[..n + 1]) == if outs[n].Response? then Some(outs[n].status) else LastStatus(outs[..n])
  {
    assert outs[..n + 1][..n] == outs[..n];
  }

  /** The first success among the first `limit` outcomes is at `k`. */
  lemma FirstSuccessAt(outs: seq<Outcome>, limit: nat, k: nat, expected: Option<int>)
    requires k < limit <= |outs|
    requires Succeeds(outs[k], expected)
    requires forall j | 0 <= j < k :: !Succeeds(outs[j], expected)
    ensures FirstSuccess(outs[..limit], expected) == Some(k)
  {
    assert forall j | 0 <= j <= k :: outs[..limit][j] == outs[j];
  }

  /** No success among the first `limit` outcomes. */
  lemma NoSuccessWithin(outs: seq<Outcome>, limit: nat, expected: Option<int>)
    requires limit <= |outs|
    requires forall j | 0 <= j < limit :: !Succeeds(outs[j], expected)
    ensures FirstSuccess(outs[..limit], expected) == None
  {
    assert forall j | 0 <= j < limit :: outs[..limit][j] == outs[j];
  }

  /** The number of attempts made: up to and including the first success, otherwise all of them. */
  function AttemptsMade(outs: seq<Outcome>, route: Route): (n: nat)
    requires AttemptLimit(route.retries) <= |outs|
    ensures n <= AttemptLimit(route.retries)
    ensures AttemptLimit(route.retries) > 0 ==> n >= 1
    ensures forall j | 0 <= j < n - 1 :: !Succeeds(outs[j], route.expectedStatusCode)
    ensures n == AttemptLimit(route.retries) || (n > 0 && Succeeds(outs[n - 1], route.expectedStatusCode))
  {
    var limit := AttemptLimit(route.retries);
    match FirstSuccess(outs[..limit], route.expectedStatusCode)
    case Some(k) => k + 1
    case None => limit
  }

  predicate ThresholdExceeded(threshold: Option<int>, elapsed: int) {
    threshold.Some? && elapsed > threshold.value
  }

  /** The verdict before the threshold: some allowed attempt succeeded. */
  predicate StatusVerdict(outs: seq<Outcome>, route: Route)
    requires AttemptLimit(route.retries) <= |outs|
  {
    FirstSuccess(outs[..AttemptLimit(route.retries)], route.expectedStatusCode).Some?
  }

  /** The row a probe writes, in terms of the outcomes of its attempts. */
  function ProbeLog(route: Route, outs: seq<Outcome>, elapsed: nat, logId: string): RequestLog
    requires AttemptLimit(route.retries) <= |outs|
  {
    RequestLog(
      logId,
      LastStatus(outs[..AttemptsMade(outs, route)]),
      Some(elapsed),
      StatusVerdict(outs, route) && !ThresholdExceeded(route.responseTimeThreshold, elapsed),
      route.id)
  }

  /** The request built from a route before the first attempt. */
  function RequestFor(route: Route, nameOf: string -> Option<string>, validValue: string -> bool): Request {
    Request(
      ResolveMethod(route.methodName),
      route.url,
      Inserted(Entries(route.requestHeaders), nameOf, validValue),
      route.requestBody)
  }

  /**
   * Prepares the request, runs the attempts, then forces failure when the
   * whole probe took longer than the route's threshold, and builds the row.
   */
  method CheckRoute(
    route: Route, outcomes: seq<Outcome>, elapsed: nat, logId: string,
    nameOf: string -> Option<string>, validValue: string -> bool)
    returns (p: Probe)
    requires AttemptLimit(route.retries) <= |outcomes|
    ensures p.request == RequestFor(route, nameOf, validValue)
    ensures p.attempts == AttemptsMade(outcomes, route)
    ensures p.backoffs == if p.attempts == 0 then 0 else p.attempts - 1
    ensures p.log == ProbeLog(route, outcomes, elapsed, logId)
  {
    var verb := ResolveMethod(route.methodName);
    var headers := BuildHeaders(route.requestHeaders, nameOf, validValue);
    var body := route.requestBody;

    var isSuccess, statusCode, attempts, backoffs := RunAttempts(route, outcomes);

    if route.responseTimeThreshold.Some? && elapsed > route.responseTimeThreshold.value {
      isSuccess := false;
    }

    p := Probe(
      Request(verb, route.url, headers, body),
      attempts, backoffs,
      RequestLog(logId, statusCode, Some(elapsed), isSuccess, route.id));
  }

  /**
   * The attempt loop: attempts 0 to the retry count, stopping at the first
   * success, with a backoff after every failed attempt but the last.
   */
  method RunAttempts(route: Route, outcomes: seq<Outcome>)
    returns (isSuccess: bool, statusCode: Option<int>, attempts: nat, backoffs: nat)
    requires AttemptLimit(route.retries) <= |outcomes|
    ensures attempts == AttemptsMade(outcomes, route)
    ensures backoffs == if attempts == 0 then 0 else attempts - 1
    ensures isSuccess == StatusVerdict(outcomes, route)
    ensures statusCode == LastStatus(outcomes[..attempts])
  {
    isSuccess := false;
    statusCode := None;
    var retryCount := route.retries.GetOr(0);
    attempts, backoffs := 0, 0;
    ghost var limit := AttemptLimit(route.retries);
    ghost var expected := route.expectedStatusCode;

    var attempt := 0;
    while attempt <= retryCount
      invariant 0 <= attempt <= limit
      invariant attempts == attempt
      invariant backoffs == if attempt == 0 || attempt <= retryCount then attempt else attempt - 1
      invariant !isSuccess
      invariant forall j | 0 <= j < attempt :: !Succeeds(outcomes[j], expected)
      invariant statusCode == LastStatus(outcomes[..attempt])
      decreases retryCount - attempt
    {
      attempts := attempts + 1;
      LastStatusStep(outcomes, attempt);
      match outcomes[attempt] {
      case Response(status) =>
        statusCode := Some(status);
        if route.expectedStatusCode.Some? {
          isSuccess := status == route.expectedStatusCode.value;
        } else {
          isSuccess := 200 <= status <= 299;
        }
        if isSuccess {
          break;
        } else if attempt < retryCount {
          backoffs := backoffs + 1;
        }
      case TransportError =>
        if attempt < retryCount {
          backoffs := backoffs + 1;
        }
      }
      attempt := attempt + 1;
    }

    if isSuccess {
      FirstSuccessAt(outcomes, limit, attempt, expected);
    } else {
      NoSuccessWithin(outcomes, limit, expected);
    }
  }

  /**
   * The contract of `AttemptsMade` pins the count: any count within the
   * limit that skips no success and ends at a success or at the limit is it.
   */
  lemma AttemptsMadeDetermined(outs: seq<Outcome>, route: Route, n: nat)
    requires AttemptLimit(route.retries) <= |outs|
    requires n <= AttemptLimit(route.retries) && (AttemptLimit(route.retries) > 0 ==> n >= 1)
    requires forall j | 0 <= j < n - 1 :: !Succeeds(outs[j], route.expectedStatusCode)
    requires n == AttemptLimit(route.retries) || (n > 0 && Succeeds(outs[n - 1], route.expectedStatusCode))
    ensures n == AttemptsMade(outs, route)
  {
  }

  /** The verdict: some allowed attempt met the success rule and the whole probe stayed within the threshold. */
  lemma {:induction false} VerdictIff(route: Route, outs: seq<Outcome>, elapsed: nat, logId: string)
    requires AttemptLimit(route.retries) <= |outs|
    ensures ProbeLog(route, outs, elapsed, logId).isSuccess <==>
      (exists j | 0 <= j < AttemptLimit(route.retries) :: Succeeds(outs[j], route.expectedStatusCode))
      && !ThresholdExceeded(route.responseTimeThreshold, elapsed)
  {
    var limit := AttemptLimit(route.retries);
    assert forall j | 0 <= j < limit :: outs[..limit][j] == outs[j];
  }

  /**
   * A successful row stops at its first successful attempt and records
   * that attempt's status, which meets the success rule.
   */
  lemma {:induction false} SuccessfulLogRecordsMatchingStatus(route: Route, outs: seq<Outcome>, elapsed: nat, logId: string)
    requires AttemptLimit(route.retries) <= |outs|
    requires ProbeLog(route, outs, elapsed, logId).isSuccess
    ensures AttemptsMade(outs, route) >= 1
    ensures Succeeds(outs[AttemptsMade(outs, route) - 1], route.expectedStatusCode)
    ensures ProbeLog(route, outs, elapsed, logId).statusCode == Some(outs[AttemptsMade(outs, route) - 1].status)
  {
    var limit := AttemptLimit(route.retries);
    var k := FirstSuccess(outs[..limit], route.expectedStatusCode).value;
    assert outs[..limit][k] == outs[k];
    var made := outs[..k + 1];
    assert made[|made| - 1] == outs[k];
  }

  /** When no allowed attempt succeeds, every allowed attempt is made and the row reports failure. */
  lemma {:induction false} FailureExhaustsRetries(route: Route, outs: seq<Outcome>, elapsed: nat, logId: string)
    requires AttemptLimit(route.retries) <= |outs|
    requires forall j | 0 <= j < AttemptLimit(route.retries) :: !Succeeds(outs[j], route.expectedStatusCode)
    ensures AttemptsMade(outs, route) == AttemptLimit(route.retries)
    ensures !ProbeLog(route, outs, elapsed, logId).isSuccess
  {
    var limit := AttemptLimit(route.retries);
    assert forall j | 0 <= j < limit :: outs[..limit][j] == outs[j];
  }

  /** A negative retry count makes no attempt: no status, and failure. */
  lemma NegativeRetriesMakeNoAttempt(route: Route, outs: seq<Outcome>, elapsed: nat, logId: string)
    requires route.retries.Some? && route.retries.value < 0
    ensures AttemptsMade(outs, route) == 0
    ensures ProbeLog(route, outs, elapsed, logId).statusCode == None
    ensures !ProbeLog(route, outs, elapsed, logId).isSuccess
  {
  }

  /**
   * The threshold is applied once to the total time: exceeding it forces
   * failure whatever the attempts returned, and reaching it exactly keeps
   * the status verdict.
   */
  lemma ThresholdRule(route: Route, outs: seq<Outcome>, elapsed: nat, logId: string)
    requires AttemptLimit(route.retries) <= |outs|
    ensures route.responseTimeThreshold.Some? && elapsed > route.responseTimeThreshold.value ==>
      !ProbeLog(route, outs, elapsed, logId).isSuccess
    ensures route.responseTimeThreshold.None? || elapsed <= route.responseTimeThreshold.value ==>
      ProbeLog(route, outs, elapsed, logId).isSuccess == StatusVerdict(outs, route)
    ensures ProbeLog(route, outs, elapsed, logId).responseTime == Some(elapsed)
    ensures ProbeLog(route, outs, elapsed, logId).routeId == route.id
  {
  }

  /** A route with the given policy; the other fields do not influence the verdict. */
  function PolicyRoute(expected: Option<int>, threshold: Option<int>, retries: Option<int>): Route {
    Route("r1", "example", "https://example.com/health", "GET", None, None,
      expected, threshold, 60, retries, None, true)
  }

  /** One 200 response with no expected status, no retries and no threshold: one attempt, success, status 200. */
  lemma ScenarioSingleOk()
    ensures AttemptsMade([Response(200)], PolicyRoute(None, None, Some(0))) == 1
    ensures ProbeLog(PolicyRoute(None, None, Some(0)), [Response(200)], 120, "l1")
      == RequestLog("l1", Some(200), Some(120), true, "r1")
  {
    var outs := [Response(200)];
    assert outs[..1] == outs;
  }

  /** Expected 201, three 500 responses, two retries: three attempts, failure, status 500. */
  lemma ScenarioWrongStatusRetried()
    ensures AttemptsMade([Response(500), Response(500), Response(500)], PolicyRoute(Some(201), None, Some(2))) == 3
    ensures ProbeLog(PolicyRoute(Some(201), None, Some(2)), [Response(500), Response(500), Response(500)], 1200, "l2")
      == RequestLog("l2", Some(500), Some(1200), false, "r1")
  {
    var outs := [Response(500), Response(500), Response(500)];
    var route := PolicyRoute(Some(201), None, Some(2));
    FailureExhaustsRetries(route, outs, 1200, "l2");
    assert outs[..3] == outs;
  }

  /** A 200 response after 250 ms against a 100 ms threshold: failure despite the matching status. */
  lemma ScenarioTooSlow()
    ensures ProbeLog(PolicyRoute(None, Some(100), None), [Response(200)], 250, "l3")
      == RequestLog("l3", Some(200), Some(250), false, "r1")
  {
    var outs := [Response(200)];
    assert outs[..1] == outs;
  }

  /** A transport error on the retry does not clear the status of the earlier response. */
  lemma ScenarioErrorKeepsStatus()
    ensures ProbeLog(PolicyRoute(None, None, Some(1)), [Response(503), TransportError], 900, "l4")
      == RequestLog("l4", Some(503), Some(900), false, "r1")
  {
    var outs := [Response(503), TransportError];
    var route := PolicyRoute(None, None, Some(1));
    FailureExhaustsRetries(route, outs, 900, "l4");
    assert outs[..2] == outs;
    assert outs[..1] == [Response(503)];
  }
}
