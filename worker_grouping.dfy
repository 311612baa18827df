/**
 * The grouping step of `monitor_routes` (worker/src/main.rs): the routes
 * fetched once at start-up are put into one bucket per monitoring interval,
 * each bucket later driving one periodic task.
 */
module WorkerGrouping {
  import opened WorkerRoute

  /** The fetched routes whose interval is `interval`, in fetch order. */
  function WithInterval(routes: seq<Route>, interval: int): seq<Route> {
    if routes == [] then []
    else
      var last := routes[|routes| - 1];
      var before := WithInterval(routes[..|routes| - 1], interval);
      if last.monitoringInterval == interval then before + [last] else before
  }

  predicate HasInterval(routes: seq<Route>, interval: int) {
    exists i | 0 <= i < |routes| :: routes[i].monitoringInterval == interval
  }

  /**
   * `entry(interval).or_default().push(route)` for every fetched route:
   * there is a bucket for exactly the intervals that occur, none of them is
   * empty, and each holds the routes of its interval in fetch order.
   */
  method GroupByInterval(routes: seq<Route>) returns (buckets: map<int, seq<Route>>)
    ensures forall k :: k in buckets <==> HasInterval(routes, k)
    ensures forall k | k in buckets :: buckets[k] == WithInterval(routes, k)
    ensures forall k | k in buckets :: buckets[k] != []
  {
    buckets := map[];
    var i := 0;
    while i < |routes|
      invariant 0 <= i <= |routes|
      invariant forall k :: k in buckets <==> HasInterval(routes[..i], k)
      invariant forall k | k in buckets :: buckets[k] == WithInterval(routes[..i], k)
      invariant forall k | k in buckets :: buckets[k] != []
    {
      var route := routes[i];
      var key := route.monitoringInterval;
      assert routes[..i + 1][..i] == routes[..i];
      assert forall j | 0 <= j < i :: routes[..i + 1][j] == routes[..i][j];
      assert routes[..i + 1][i] == route;
      if key !in buckets {
        AbsentIntervalEmpty(routes[..i], key);
      }
      var bucket := if key in buckets then buckets[key] else [];
      buckets := buckets[key := bucket + [route]];
      i := i + 1;
    }
    assert routes[..|routes|] == routes;
  }

  /** A bucket only holds routes of its own interval. */
  lemma {:induction false} BucketMembersShareInterval(routes: seq<Route>, interval: int, r: Route)
    requires r in WithInterval(routes, interval)
    ensures r.monitoringInterval == interval
    ensures r in routes
  {
    if routes != [] {
      var init := routes[..|routes| - 1];
      if r in WithInterval(init, interval) {
        BucketMembersShareInterval(init, interval, r);
      }
    }
  }

  /** An interval that no route has gets no routes. */
  lemma AbsentIntervalEmpty(routes: seq<Route>, interval: int)
    requires !HasInterval(routes, interval)
    ensures WithInterval(routes, interval) == []
  {
    if WithInterval(routes, interval) != [] {
      var r := WithInterval(routes, interval)[0];
      BucketMembersShareInterval(routes, interval, r);
    }
  }

  /** Every fetched route is in the bucket of its interval, so in exactly one bucket. */
  lemma {:induction false} EveryRouteInItsBucket(routes: seq<Route>, i: nat)
    requires i < |routes|
    ensures routes[i] in WithInterval(routes, routes[i].monitoringInterval)
  {
    var init := routes[..|routes| - 1];
    if i < |routes| - 1 {
      assert init[i] == routes[i];
      EveryRouteInItsBucket(init, i);
    }
  }

  /** Grouping a concatenation concatenates the groups: earlier routes stay ahead of later ones. */
  lemma {:induction false} GroupingKeepsOrder(a: seq<Route>, b: seq<Route>, interval: int)
    ensures WithInterval(a + b, interval) == WithInterval(a, interval) + WithInterval(b, interval)
  {
    if b != [] {
      var init := b[..|b| - 1];
      assert (a + b)[..|a + b| - 1] == a + init;
      GroupingKeepsOrder(a, init, interval);
    } else {
      assert a + b == a;
    }
  }
}
