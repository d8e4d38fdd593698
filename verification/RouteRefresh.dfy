/**
 A refreshed route list (internal/gatewayprobe/collector.go) attributes the same samples to other routes:
 exactly when that leaves metering safe.
 */
module RouteRefresh {
  import opened Wrappers
  import opened Sums
  import opened GatewayProbe
  import opened MetricAttribution
  import GatewayRuns

  type Families = map<string, Option<seq<Metric>>>

  /** What the counter of a route shows under a route list. */
  ghost function Shown(p: Probe, families: Families, route: string): nat {
    Total(p, families.Items, ResponseBytes, Some(route))
  }

  /** Whether the route has a counter at all. */
  ghost predicate HasCounter(p: Probe, families: Families, route: string) {
    Total(p, families.Items, Samples, Some(route)) > 0
  }

  /** The lists attribute the same metrics to the route. */
  ghost predicate SameMetrics(p: Probe, q: Probe, route: string) {
    forall m :: RouteOf(p, m) == route <==> RouteOf(q, m) == route
  }

  ghost predicate NoMetric(p: Probe, route: string) {
    forall m :: RouteOf(p, m) != route
  }

  /** Without traffic between two scrapes, the second bills nothing although the list changed in between. */
  ghost predicate BillsNothing(p: Probe, q: Probe, families: Families, route: string) {
    HasCounter(p, families, route) ==> PositiveDelta(Shown(q, families, route), Shown(p, families, route)) == 0
  }

  // ---- Sums under two lists ----

  lemma {:induction false} MetricsAgree(p: Probe, q: Probe, name: string, metrics: seq<Metric>, measure: Measure,
                                        route: string)
    requires q == p.(routes := q.routes) && SameMetrics(p, q, route) && route != ""
    ensures MetricsTotal(p, name, metrics, measure, Some(route)) == MetricsTotal(q, name, metrics, measure, Some(route))
    decreases |metrics|
  {
    hide RouteOf, MetricKind;
    if metrics != [] {
      var n := |metrics| - 1;
      MetricsAgree(p, q, name, metrics[..n], measure, route);
      SameKind(p, q, name);
      assert RouteOf(p, metrics[n]) == route <==> RouteOf(q, metrics[n]) == route;
    }
  }

  lemma SameKind(p: Probe, q: Probe, name: string)
    requires q == p.(routes := q.routes)
    ensures MetricKind(p, name) == MetricKind(q, name)
  {}

  lemma {:induction false} MetricsNone(p: Probe, name: string, metrics: seq<Metric>, measure: Measure, route: string)
    requires NoMetric(p, route)
    ensures MetricsTotal(p, name, metrics, measure, Some(route)) == 0
    decreases |metrics|
  {
    hide RouteOf, MetricKind;
    if metrics != [] {
      MetricsNone(p, name, metrics[..|metrics| - 1], measure, route);
    }
  }

  lemma TotalsAgree(p: Probe, q: Probe, families: Families, measure: Measure, route: string)
    requires q == p.(routes := q.routes) && SameMetrics(p, q, route) && route != ""
    ensures Total(p, families.Items, measure, Some(route)) == Total(q, families.Items, measure, Some(route))
  {
    hide MetricsTotal, SameMetrics;
    forall family | family in families.Items
      ensures FamilyTotals(p, measure, Some(route))(family) == FamilyTotals(q, measure, Some(route))(family)
    {
      if family.1.Some? {
        MetricsAgree(p, q, family.0, family.1.value, measure, route);
      }
    }
    SumAgrees(families.Items, FamilyTotals(p, measure, Some(route)), FamilyTotals(q, measure, Some(route)));
  }

  lemma TotalIsNone(p: Probe, families: Families, measure: Measure, route: string)
    requires NoMetric(p, route)
    ensures Total(p, families.Items, measure, Some(route)) == 0
  {
    hide MetricsTotal, NoMetric;
    var none: Family -> nat := _ => 0;
    forall family | family in families.Items
      ensures FamilyTotals(p, measure, Some(route))(family) == none(family)
    {
      if family.1.Some? {
        MetricsNone(p, family.0, family.1.value, measure, route);
      }
    }
    SumAgrees(families.Items, FamilyTotals(p, measure, Some(route)), none);
    SumOfZeros(families.Items, none);
  }

  lemma {:induction false} SumOfZeros<T>(s: set<T>, f: T -> nat)
    requires forall x :: x in s ==> f(x) == 0
    ensures SumOver(s, f) == 0
  {
    if s != {} {
      var x :| x in s;
      SumSplit(s, x, f);
      SumOfZeros(s - {x}, f);
    }
  }

  // ---- Two samples ----

  /** The metric with another value; labels alone decide where it goes. */
  function WithValue(m: Metric, value: nat): Metric {
    m.(value := Some(value))
  }

  function Two(name: string, a: Metric, b: Metric): Families {
    map[name := Some([a, b])]
  }

  lemma TwoItems(name: string, a: Metric, b: Metric)
    ensures Two(name, a, b).Items == {(name, Some([a, b]))}
  {
    var families := Two(name, a, b);
    forall family
      ensures family in families.Items <==> family == (name, Some([a, b]))
    {
      assert family in families.Items <==> family.0 in families && families[family.0] == family.1;
    }
  }

  /** What two samples of a byte counter add up to for a route. */
  lemma TwoSamples(p: Probe, name: string, a: Metric, x: nat, b: Metric, y: nat, route: string)
    requires MetricKind(p, name) == Some(ResponseBytesKind) && route != ""
    ensures var families := Two(name, WithValue(a, x), WithValue(b, y));
            && Shown(p, families, route)
               == (if RouteOf(p, a) == route then x else 0) + (if RouteOf(p, b) == route then y else 0)
            && (RouteOf(p, a) == route ==> HasCounter(p, families, route))
  {
    var m, n := WithValue(a, x), WithValue(b, y);
    var families := Two(name, m, n);
    var family: Family := (name, Some([m, n]));
    assert RouteOf(p, m) == RouteOf(p, a) && RouteOf(p, n) == RouteOf(p, b);
    hide RouteOf, MetricKind;
    TwoItems(name, m, n);
    forall measure: Measure
      ensures Total(p, families.Items, measure, Some(route))
              == Amount(p, name, m, measure, Some(route)) + Amount(p, name, n, measure, Some(route))
    {
      OneFamily(p, family, measure, Some(route));
      TwoMetrics(p, name, m, n, measure, Some(route));
    }
  }

  lemma OneFamily(p: Probe, family: Family, measure: Measure, who: Option<string>)
    ensures Total(p, {family}, measure, who) == FamilyTotal(p, family, measure, who)
  {
    SumSplit({family}, family, FamilyTotals(p, measure, who));
    assert {family} - {family} == {};
  }

  lemma TwoMetrics(p: Probe, name: string, m: Metric, n: Metric, measure: Measure, who: Option<string>)
    ensures MetricsTotal(p, name, [m, n], measure, who)
            == Amount(p, name, m, measure, who) + Amount(p, name, n, measure, who)
  {
    hide Amount;
    assert [m, n][..1] == [m] && [m][..0] == [];
    assert MetricsTotal(p, name, [m], measure, who) == Amount(p, name, m, measure, who);
  }

  // ---- Exactly which refreshes are safe ----

  lemma SafeRefresh(p: Probe, q: Probe, families: Families, route: string)
    requires q == p.(routes := q.routes) && route != ""
    requires SameMetrics(p, q, route) || NoMetric(q, route) || NoMetric(p, route)
    ensures BillsNothing(p, q, families, route)
  {
    hide Total, SameMetrics, NoMetric;
    if SameMetrics(p, q, route) {
      TotalsAgree(p, q, families, ResponseBytes, route);
    } else if NoMetric(q, route) {
      TotalIsNone(q, families, ResponseBytes, route);
    } else {
      TotalIsNone(p, families, Samples, route);
    }
  }

  lemma UnsafeRefresh(p: Probe, q: Probe, name: string, route: string) returns (families: Families)
    requires q == p.(routes := q.routes) && route != "" && MetricKind(p, name) == Some(ResponseBytesKind)
    requires !SameMetrics(p, q, route) && !NoMetric(q, route) && !NoMetric(p, route)
    ensures !BillsNothing(p, q, families, route)
  {
    hide RouteOf, MetricKind, Shown, HasCounter;
    SameKind(p, q, name);
    var before :| RouteOf(p, before) == route;
    var after :| RouteOf(q, after) == route;
    if moved :| RouteOf(q, moved) == route && RouteOf(p, moved) != route {
      families := Two(name, WithValue(before, 1), WithValue(moved, 2));
      TwoSamples(p, name, before, 1, moved, 2, route);
      TwoSamples(q, name, before, 1, moved, 2, route);
    } else {
      var gone :| RouteOf(p, gone) == route && RouteOf(q, gone) != route;
      families := Two(name, WithValue(after, 1), WithValue(gone, 1));
      TwoSamples(p, name, after, 1, gone, 1, route);
      TwoSamples(q, name, after, 1, gone, 1, route);
    }
  }

  /**
   A refresh bills nothing to a route by itself, whatever the samples show, exactly when the route keeps the
   metrics it had, loses all of them, or had none.
   */
  lemma RefreshIsSafeExactly(p: Probe, q: Probe, name: string, route: string)
    requires q == p.(routes := q.routes) && route != "" && MetricKind(p, name) == Some(ResponseBytesKind)
    ensures (forall families: Families :: BillsNothing(p, q, families, route))
            <==> SameMetrics(p, q, route) || NoMetric(q, route) || NoMetric(p, route)
  {
    hide BillsNothing, SameMetrics, NoMetric, MetricKind;
    if SameMetrics(p, q, route) || NoMetric(q, route) || NoMetric(p, route) {
      forall families: Families
        ensures BillsNothing(p, q, families, route)
      {
        SafeRefresh(p, q, families, route);
      }
    } else {
      var families := UnsafeRefresh(p, q, name, route);
    }
  }

  /** In a run, that is what makes the jump of a counter at its baseline harmless. */
  lemma RefreshIsHarmless(w: GatewayRuns.World, p: Probe, q: Probe, families: Families, route: string)
    requires route in w.meter.states && w.meter.states[route].counters.bytes == Shown(p, families, route)
    requires HasCounter(p, families, route) && w.scrape == None
    requires GatewayRuns.At(w.growth, route) == GatewayRuns.At(w.base, route)
    ensures GatewayRuns.Harmless(w, route, Shown(q, families, route)) <==> BillsNothing(p, q, families, route)
  {
    hide Total;
  }
}
