/**
 * The status-code distribution of the dashboard's statistics grid
 * (`processStatusData` in components/dashboard/StatsGrid.tsx): every
 * request log of every route is counted into one of the classes 2xx, 3xx,
 * 4xx and 5xx, and the counts are returned as chart entries in that order.
 */
module StatsGrid {
  import opened Wrappers

  /**
   * A route as the dashboard receives it: the status codes of its request
   * logs (None for a log without one), or None when the route carries no
   * log list at all.
   */
  datatype RouteLogs = RouteLogs(requestLog: Option<seq<Option<int>>>)

  datatype StatusClass = Class2xx | Class3xx | Class4xx | Class5xx

  function ClassName(c: StatusClass): string {
    match c
    case Class2xx => "2xx"
    case Class3xx => "3xx"
    case Class4xx => "4xx"
    case Class5xx => "5xx"
  }

  /** The counter keys, in the order the counters are declared. */
  const ClassOrder: seq<StatusClass> := [Class2xx, Class3xx, Class4xx, Class5xx]

  /** `log.statusCode || 0`: a missing code is 0. */
  function CodeOf(statusCode: Option<int>): int {
    statusCode.GetOr(0)
  }

  /** The class a code is counted in; codes below 200 are counted nowhere. */
  function ClassOf(code: int): (c: Option<StatusClass>)
    ensures c == None <==> code < 200
  {
    if 200 <= code < 300 then Some(Class2xx)
    else if 300 <= code < 400 then Some(Class3xx)
    else if 400 <= code < 500 then Some(Class4xx)
    else if code >= 500 then Some(Class5xx)
    else None
  }

  /** The codes a route contributes: one per log when its log list is present and non-empty. */
  function CodesOf(r: RouteLogs): seq<int> {
    match r.requestLog
    case Some(logs) => LogCodes(logs)
    case None => []
  }

  function LogCodes(logs: seq<Option<int>>): (codes: seq<int>)
    ensures |codes| == |logs|
  {
    seq(|logs|, i requires 0 <= i < |logs| => CodeOf(logs[i]))
  }

  /** The codes of all routes, route by route. */
  function AllCodes(routes: seq<RouteLogs>): seq<int> {
    if routes == [] then [] else AllCodes(routes[..|routes| - 1]) + CodesOf(routes[|routes| - 1])
  }

  /** How many of `codes` are counted in class `c`. */
  function CountIn(codes: seq<int>, c: StatusClass): nat {
    if codes == [] then 0
    else CountIn(codes[..|codes| - 1], c) + (if ClassOf(codes[|codes| - 1]) == Some(c) then 1 else 0)
  }

  /** How many of `codes` are below 200 and so counted nowhere. */
  function Uncounted(codes: seq<int>): nat {
    if codes == [] then 0
    else Uncounted(codes[..|codes| - 1]) + (if codes[|codes| - 1] < 200 then 1 else 0)
  }

  /** The chart entries for a list of codes: each class's name and count, 2xx first. */
  function Chart(codes: seq<int>): (entries: seq<(string, nat)>)
    ensures |entries| == |ClassOrder|
    ensures forall i | 0 <= i < |ClassOrder| :: entries[i] == (ClassName(ClassOrder[i]), CountIn(codes, ClassOrder[i]))
  {
    seq(|ClassOrder|, i requires 0 <= i < |ClassOrder| => (ClassName(ClassOrder[i]), CountIn(codes, ClassOrder[i])))
  }

  /** The four counters, keyed by class name, hold the counts of `codes`. */
  predicate Tallies(counts: map<string, nat>, codes: seq<int>) {
    && counts.Keys == {"2xx", "3xx", "4xx", "5xx"}
    && counts["2xx"] == CountIn(codes, Class2xx)
    && counts["3xx"] == CountIn(codes, Class3xx)
    && counts["4xx"] == CountIn(codes, Class4xx)
    && counts["5xx"] == CountIn(codes, Class5xx)
  }

  /**
   * Counts every log of every route into its class, in a dictionary of
   * four counters that start at 0 and are only ever incremented, and lists
   * the counters as chart entries.
   */
  method ProcessStatusData(routes: seq<RouteLogs>) returns (data: seq<(string, nat)>)
    ensures |data| == 4
    ensures data == Chart(AllCodes(routes))
  {
    var statusCounts: map<string, nat> := map["2xx" := 0, "3xx" := 0, "4xx" := 0, "5xx" := 0];
    var i := 0;
    while i < |routes|
      invariant 0 <= i <= |routes|
      invariant Tallies(statusCounts, AllCodes(routes[..i]))
    {
      var route := routes[i];
      assert routes[..i + 1][..i] == routes[..i];
      if route.requestLog.Some? && |route.requestLog.value| > 0 {
        statusCounts := CountLogs(statusCounts, AllCodes(routes[..i]), route.requestLog.value);
      } else {
        assert AllCodes(routes[..i]) + CodesOf(route) == AllCodes(routes[..i]);
      }
      i := i + 1;
    }
    assert routes[..i] == routes;
    data := [("2xx", statusCounts["2xx"]), ("3xx", statusCounts["3xx"]), ("4xx", statusCounts["4xx"]), ("5xx", statusCounts["5xx"])];
  }

  /** The inner loop: counts one route's logs on top of the counters for the codes `seen` so far. */
  method CountLogs(counts: map<string, nat>, ghost seen: seq<int>, logs: seq<Option<int>>) returns (statusCounts: map<string, nat>)
    requires Tallies(counts, seen)
    ensures Tallies(statusCounts, seen + LogCodes(logs))
  {
    statusCounts := counts;
    var j := 0;
    assert seen + LogCodes(logs)[..0] == seen;
    while j < |logs|
      invariant 0 <= j <= |logs|
      invariant Tallies(statusCounts, seen + LogCodes(logs)[..j])
    {
      var statusCode := CodeOf(logs[j]);
      assert seen + LogCodes(logs)[..j + 1] == seen + LogCodes(logs)[..j] + [statusCode];
      CountStep(seen + LogCodes(logs)[..j], statusCode);
      if 200 <= statusCode < 300 {
        statusCounts := statusCounts["2xx" := statusCounts["2xx"] + 1];
      } else if 300 <= statusCode < 400 {
        statusCounts := statusCounts["3xx" := statusCounts["3xx"] + 1];
      } else if 400 <= statusCode < 500 {
        statusCounts := statusCounts["4xx" := statusCounts["4xx"] + 1];
      } else if statusCode >= 500 {
        statusCounts := statusCounts["5xx" := statusCounts["5xx"] + 1];
      }
      j := j + 1;
    }
    assert LogCodes(logs)[..j] == LogCodes(logs);
  }

  /** Counting one more code increments exactly the counter of its class. */
  lemma CountStep(codes: seq<int>, code: int)
    ensures forall c :: CountIn(codes + [code], c) == CountIn(codes, c) + (if ClassOf(code) == Some(c) then 1 else 0)
    ensures Uncounted(codes + [code]) == Uncounted(codes) + (if code < 200 then 1 else 0)
  {
    assert (codes + [code])[..|codes|] == codes;
  }

  /** The four classes are disjoint and cover every code from 200 up. */
  lemma ClassRanges(code: int)
    ensures ClassOf(code) == Some(Class2xx) <==> 200 <= code < 300
    ensures ClassOf(code) == Some(Class3xx) <==> 300 <= code < 400
    ensures ClassOf(code) == Some(Class4xx) <==> 400 <= code < 500
    ensures ClassOf(code) == Some(Class5xx) <==> code >= 500
  {
  }

  /** Each code is counted at most once: the four counts and the uncounted codes add up to all codes. */
  lemma {:induction false} CountsPartition(codes: seq<int>)
    ensures CountIn(codes, Class2xx) + CountIn(codes, Class3xx) + CountIn(codes, Class4xx) + CountIn(codes, Class5xx)
            + Uncounted(codes) == |codes|
  {
    if codes != [] {
      CountsPartition(codes[..|codes| - 1]);
    }
  }

  /** A log without a status code is counted in no class. */
  lemma MissingCodeCountedNowhere(codes: seq<int>)
    ensures forall c :: CountIn(codes + [CodeOf(None)], c) == CountIn(codes, c)
  {
    CountStep(codes, CodeOf(None));
  }

  /** Counts add up over consecutive runs of codes, so each route adds its own counts. */
  lemma {:induction false} CountsAppend(a: seq<int>, b: seq<int>, c: StatusClass)
    ensures CountIn(a + b, c) == CountIn(a, c) + CountIn(b, c)
  {
    if b != [] {
      assert (a + b)[..|a + b| - 1] == a + b[..|b| - 1];
      CountsAppend(a, b[..|b| - 1], c);
    } else {
      assert a + b == a;
    }
  }

  /** Routes without a log list, or with an empty one, contribute nothing. */
  lemma {:induction false} LoglessRoutesCountNothing(routes: seq<RouteLogs>)
    requires forall i | 0 <= i < |routes| :: routes[i].requestLog.None? || routes[i].requestLog.value == []
    ensures AllCodes(routes) == []
    ensures Chart(AllCodes(routes)) == [("2xx", 0), ("3xx", 0), ("4xx", 0), ("5xx", 0)]
  {
    if routes != [] {
      LoglessRoutesCountNothing(routes[..|routes| - 1]);
    }
  }

  /** Another route never lowers a count. */
  lemma MoreRoutesNeverLowerCounts(routes: seq<RouteLogs>, r: RouteLogs, c: StatusClass)
    ensures CountIn(AllCodes(routes + [r]), c) == CountIn(AllCodes(routes), c) + CountIn(CodesOf(r), c)
    ensures CountIn(AllCodes(routes + [r]), c) >= CountIn(AllCodes(routes), c)
  {
    assert (routes + [r])[..|routes|] == routes;
    CountsAppend(AllCodes(routes), CodesOf(r), c);
  }
}
