/**
 Attributing gateway counters to routes: internal/gatewayprobe/metrics.go. Counter values are
 naturals; lower-casing and the letter and digit tables of Unicode are inputs.
 */
module MetricAttribution {
  import opened Wrappers
  import opened GatewayProbe
  import opened Sums
  import opened Text

  datatype RouteRef = RouteRef(id: string, candidates: seq<string>)

  /** A label without a value is None; so is the value of a metric that is no valid counter. */
  datatype Metric = Metric(labels: seq<Option<string>>, value: Option<nat>)

  /** A metric family under its name; None is a nil family. */
  type Family = (string, Option<seq<Metric>>)

  datatype Kind = ResponseBytesKind | RequestsKind

  datatype Probe = Probe(routes: seq<RouteRef>, lower: string -> string, alphanumeric: char -> bool)

  // ---- Names, tokens and lengths ----

  predicate HasSuffix(s: string, suffix: string) {
    |suffix| <= |s| && s[|s| - |suffix|..] == suffix
  }

  function MetricKind(p: Probe, name: string): Option<Kind> {
    var n := p.lower(TrimSpace(name));
    if Contains(n, "response") && Contains(n, "bytes") && HasSuffix(n, "_total") then Some(ResponseBytesKind)
    else if HasSuffix(n, "_requests_total") && !Contains(n, "bytes") && !Contains(n, "duration") then Some(RequestsKind)
    else None
  }

  function Kept(p: Probe, s: string): string {
    if s == "" then "" else Kept(p, s[..|s| - 1]) + if p.alphanumeric(s[|s| - 1]) then [s[|s| - 1]] else ""
  }

  function Token(p: Probe, value: string): string {
    Kept(p, p.lower(TrimSpace(value)))
  }

  /** The length of a string in UTF-8, section 3 of RFC 3629. */
  function Bytes(s: string): (n: nat)
    ensures n == 0 <==> s == ""
  {
    if s == "" then 0 else
    var c := s[0];
    (if c < '\U{80}' then 1 else if c < '\U{800}' then 2 else if c < '\U{10000}' then 3 else 4) + Bytes(s[1..])
  }

  // ---- The route of a metric ----

  predicate Labelled(p: Probe, labels: seq<Option<string>>, token: string) {
    exists i :: 0 <= i < |labels| && labels[i].Some? && Contains(Token(p, labels[i].value), token)
  }

  /** How much of a label a candidate accounts for; an empty or absent one for nothing. */
  function Score(p: Probe, labels: seq<Option<string>>, candidate: string): nat {
    var token := Token(p, candidate);
    if token != "" && Labelled(p, labels, token) then Bytes(token) else 0
  }

  function BestScore(p: Probe, labels: seq<Option<string>>, candidates: seq<string>): nat {
    if candidates == [] then 0 else
    var rest, last := BestScore(p, labels, candidates[..|candidates| - 1]),
        Score(p, labels, candidates[|candidates| - 1]);
    if last > rest then last else rest
  }

  /** The best score is the largest of the candidates' scores, and zero without candidates. */
  lemma {:induction false} BestScoreIsMaximum(p: Probe, labels: seq<Option<string>>, candidates: seq<string>)
    ensures forall k :: 0 <= k < |candidates| ==> Score(p, labels, candidates[k]) <= BestScore(p, labels, candidates)
    ensures BestScore(p, labels, candidates) > 0
            ==> exists k :: 0 <= k < |candidates| && Score(p, labels, candidates[k]) == BestScore(p, labels, candidates)
  {
    hide Score;
    if candidates != [] {
      var n := |candidates| - 1;
      BestScoreIsMaximum(p, labels, candidates[..n]);
      assert forall k :: 0 <= k < n ==> candidates[k] == candidates[..n][k];
    }
  }

  datatype Match = Match(id: string, score: nat)

  function BestMatch(p: Probe, labels: seq<Option<string>>, routes: seq<RouteRef>): (m: Match)
    ensures m.score == 0 ==> m.id == ""
  {
    if routes == [] then Match("", 0) else
    var rest, last := BestMatch(p, labels, routes[..|routes| - 1]), routes[|routes| - 1];
    var score := BestScore(p, labels, last.candidates);
    if score > rest.score then Match(last.id, score) else rest
  }

  function RouteOf(p: Probe, metric: Metric): string {
    BestMatch(p, metric.labels, p.routes).id
  }

  function RouteScore(p: Probe, labels: seq<Option<string>>, route: RouteRef): nat {
    BestScore(p, labels, route.candidates)
  }

  /** Route i holds a longest matching candidate, and no earlier route does. */
  ghost predicate FirstLongest(p: Probe, labels: seq<Option<string>>, routes: seq<RouteRef>, i: int) {
    && 0 <= i < |routes|
    && RouteScore(p, labels, routes[i]) > 0
    && (forall j :: 0 <= j < |routes| ==> RouteScore(p, labels, routes[j]) <= RouteScore(p, labels, routes[i]))
    && (forall j :: 0 <= j < i ==> RouteScore(p, labels, routes[j]) < RouteScore(p, labels, routes[i]))
  }

  lemma {:induction false} BestBelow(p: Probe, labels: seq<Option<string>>, routes: seq<RouteRef>, bound: nat)
    requires bound > 0 && forall j :: 0 <= j < |routes| ==> RouteScore(p, labels, routes[j]) < bound
    ensures BestMatch(p, labels, routes).score < bound
  {
    hide BestScore;
    if routes != [] {
      BestBelow(p, labels, routes[..|routes| - 1], bound);
      assert RouteScore(p, labels, routes[|routes| - 1]) < bound;
    }
  }

  /** A metric goes to the first of the routes that hold a longest matching candidate. */
  lemma {:induction false} GoesToFirstLongest(p: Probe, labels: seq<Option<string>>, routes: seq<RouteRef>, i: nat)
    requires FirstLongest(p, labels, routes, i)
    ensures BestMatch(p, labels, routes) == Match(routes[i].id, RouteScore(p, labels, routes[i]))
  {
    hide BestScore;
    var n := |routes| - 1;
    if i == n {
      BestBelow(p, labels, routes[..n], RouteScore(p, labels, routes[n]));
    } else {
      GoesToFirstLongest(p, labels, routes[..n], i);
      assert RouteScore(p, labels, routes[n]) <= RouteScore(p, labels, routes[i]);
    }
  }

  /** There is such a route, unless no candidate of any route matches. */
  lemma {:induction false} SomeFirstLongest(p: Probe, labels: seq<Option<string>>, routes: seq<RouteRef>)
    returns (i: int)
    ensures i >= 0 ==> FirstLongest(p, labels, routes, i)
    ensures i < 0 ==> forall j :: 0 <= j < |routes| ==> RouteScore(p, labels, routes[j]) == 0
  {
    hide RouteScore;
    if routes == [] {
      return -1;
    }
    var n := |routes| - 1;
    i := SomeFirstLongest(p, labels, routes[..n]);
    assert forall j :: 0 <= j < n ==> routes[j] == routes[..n][j];
    if RouteScore(p, labels, routes[n]) > if i < 0 then 0 else RouteScore(p, labels, routes[i]) {
      i := n;
    }
  }

  /** Otherwise the metric goes nowhere. */
  lemma GoesNowhere(p: Probe, labels: seq<Option<string>>, routes: seq<RouteRef>)
    ensures BestMatch(p, labels, routes) == Match("", 0)
       <==> forall j :: 0 <= j < |routes| ==> RouteScore(p, labels, routes[j]) == 0
  {
    hide BestMatch, RouteScore;
    var i := SomeFirstLongest(p, labels, routes);
    if i < 0 {
      BestBelow(p, labels, routes, 1);
    } else {
      GoesToFirstLongest(p, labels, routes, i);
    }
  }

  /** The labels as the search sees them. */
  method NormalizedMetricLabelValues(p: Probe, metric: Metric) returns (values: seq<string>)
    ensures values == Values(p, metric.labels)
  {
    values := [];
    for k := 0 to |metric.labels|
      invariant values == Values(p, metric.labels[..k])
    {
      assert metric.labels[..k + 1][..k] == metric.labels[..k];
      if metric.labels[k].Some? {
        values := values + [Token(p, metric.labels[k].value)];
      }
    }
    assert metric.labels[..|metric.labels|] == metric.labels;
  }

  /** The innermost loop: one candidate against every label. */
  method TryCandidate(p: Probe, ghost metric: Metric, labels: seq<string>, routeID: string, text: string, before: Match)
    returns (best: Match)
    requires labels == Values(p, metric.labels)
    ensures best == Better(before, routeID, Score(p, metric.labels, text))
  {
    hide Bytes, Contains, Token, Values;
    var candidate := Token(p, text);
    best := before;
    if candidate == "" {
      return;
    }
    var found := false;
    for k := 0 to |labels|
      invariant found <==> exists l :: 0 <= l < k && Contains(labels[l], candidate)
      invariant best == Better(before, routeID, if found then Bytes(candidate) else 0)
    {
      if Contains(labels[k], candidate) {
        found := true;
        if Bytes(candidate) > best.score {
          best := Match(routeID, Bytes(candidate));
        }
      }
    }
    ValuesAreLabels(p, metric.labels, candidate);
  }

  method RouteIDForMetric(p: Probe, metric: Metric) returns (id: string)
    ensures id == RouteOf(p, metric)
  {
    hide Score, Values;
    var labels := NormalizedMetricLabelValues(p, metric);
    var best := Match("", 0);
    for i := 0 to |p.routes|
      invariant best == BestMatch(p, metric.labels, p.routes[..i])
    {
      var route := p.routes[i];
      ghost var base := best;
      for j := 0 to |route.candidates|
        invariant best == Better(base, route.id, BestScore(p, metric.labels, route.candidates[..j]))
      {
        assert route.candidates[..j + 1][..j] == route.candidates[..j];
        best := TryCandidate(p, metric, labels, route.id, route.candidates[j], best);
      }
      assert route.candidates[..|route.candidates|] == route.candidates;
      assert p.routes[..i + 1][..i] == p.routes[..i];
    }
    assert p.routes[..|p.routes|] == p.routes;
    id := best.id;
  }

  function Better(m: Match, id: string, score: nat): Match {
    if score > m.score then Match(id, score) else m
  }

  /** normalizedMetricLabelValues */
  function Values(p: Probe, labels: seq<Option<string>>): seq<string> {
    if labels == [] then [] else
    Values(p, labels[..|labels| - 1])
    + if labels[|labels| - 1].Some? then [Token(p, labels[|labels| - 1].value)] else []
  }

  lemma {:induction false} ValuesAreLabels(p: Probe, labels: seq<Option<string>>, token: string)
    ensures Labelled(p, labels, token)
            <==> exists l :: 0 <= l < |Values(p, labels)| && Contains(Values(p, labels)[l], token)
  {
    hide Token, Contains;
    if labels != [] {
      var n := |labels| - 1;
      ValuesAreLabels(p, labels[..n], token);
      var rest := Values(p, labels[..n]);
      assert forall l :: 0 <= l < |rest| ==> Values(p, labels)[l] == rest[l];
      if labels[n].Some? {
        assert Values(p, labels)[|rest|] == Token(p, labels[n].value);
      }
      if i :| 0 <= i < n && labels[i].Some? && Contains(Token(p, labels[i].value), token) {
        assert labels[..n][i] == labels[i];
      }
    }
  }

  // ---- Totals over all families, in no order ----

  /** Samples counts the attributed samples of either kind. */
  datatype Measure = ResponseBytes | RequestCount | Samples

  /** What one metric adds for one route, or for any route when who is None. */
  function Amount(p: Probe, name: string, metric: Metric, measure: Measure, who: Option<string>): nat {
    var kind, id := MetricKind(p, name), RouteOf(p, metric);
    if kind.None? || metric.value.None? || id == "" || (who.Some? && who.value != id) then 0 else
    match measure
    case ResponseBytes => if kind.value.ResponseBytesKind? then metric.value.value else 0
    case RequestCount => if kind.value.RequestsKind? then metric.value.value else 0
    case Samples => 1
  }

  function MetricsTotal(p: Probe, name: string, metrics: seq<Metric>, measure: Measure, who: Option<string>): nat {
    if metrics == [] then 0 else
    MetricsTotal(p, name, metrics[..|metrics| - 1], measure, who)
        + Amount(p, name, metrics[|metrics| - 1], measure, who)
  }

  function FamilyTotal(p: Probe, family: Family, measure: Measure, who: Option<string>): nat {
    match family.1
    case None => 0
    case Some(metrics) => MetricsTotal(p, family.0, metrics, measure, who)
  }

  function FamilyTotals(p: Probe, measure: Measure, who: Option<string>): Family -> nat {
    (family: Family) => FamilyTotal(p, family, measure, who)
  }

  ghost function Total(p: Probe, families: set<Family>, measure: Measure, who: Option<string>): nat {
    SumOver(families, FamilyTotals(p, measure, who))
  }

  // ---- Totals over an output ----

  function Measured(counters: Counters, measure: Measure): nat {
    match measure
    case ResponseBytes => counters.bytes
    case RequestCount => counters.requests
    case Samples => 0
  }

  function At(output: map<string, Counters>, id: string): Counters {
    if id in output then output[id] else Counters(0, 0)
  }

  function MeasuredAt(output: map<string, Counters>, measure: Measure): string -> nat {
    (id: string) => Measured(At(output, id), measure)
  }

  ghost function Sum(output: map<string, Counters>, measure: Measure): nat {
    SumOver(output.Keys, MeasuredAt(output, measure))
  }

  lemma SumUpdate(output: map<string, Counters>, id: string, counters: Counters, measure: Measure)
    ensures Sum(output[id := counters], measure)
            == Sum(output, measure) - Measured(At(output, id), measure) + Measured(counters, measure)
  {
    var updated := output[id := counters];
    var others := output.Keys - {id};
    SumSplit(updated.Keys, id, MeasuredAt(updated, measure));
    assert updated.Keys - {id} == others;
    SumAgrees(others, MeasuredAt(updated, measure), MeasuredAt(output, measure));
    if id in output {
      SumSplit(output.Keys, id, MeasuredAt(output, measure));
    } else {
      assert others == output.Keys;
    }
  }

  // ---- The loop ----

  /** The output holds what the families before and the metrics so far of one more family add up to. */
  ghost predicate Tallied(p: Probe, output: map<string, Counters>, before: set<Family>, name: string,
                          metrics: seq<Metric>) {
    && (forall id, measure: Measure :: measure != Samples ==>
          Measured(At(output, id), measure)
              == Total(p, before, measure, Some(id)) + MetricsTotal(p, name, metrics, measure, Some(id)))
    && (forall measure: Measure :: measure != Samples ==>
          Sum(output, measure) == Total(p, before, measure, None) + MetricsTotal(p, name, metrics, measure, None))
    && (forall id :: id in output <==>
          Total(p, before, Samples, Some(id)) + MetricsTotal(p, name, metrics, Samples, Some(id)) > 0)
  }

  lemma AppendMetric(p: Probe, name: string, metrics: seq<Metric>, i: nat, measure: Measure, who: Option<string>)
    requires i < |metrics|
    ensures MetricsTotal(p, name, metrics[..i + 1], measure, who)
         == MetricsTotal(p, name, metrics[..i], measure, who) + Amount(p, name, metrics[i], measure, who)
  {
    assert metrics[..i + 1][..i] == metrics[..i];
  }

  /** One metric's own change to the output. */
  function Counted(p: Probe, output: map<string, Counters>, name: string, metric: Metric): map<string, Counters> {
    var kind, id := MetricKind(p, name), RouteOf(p, metric);
    if kind.None? || metric.value.None? || id == "" then output else
    var c := At(output, id);
    output[id := match kind.value
                 case ResponseBytesKind => c.(bytes := c.bytes + metric.value.value)
                 case RequestsKind => c.(requests := c.requests + metric.value.value)]
  }

  lemma CountedAmounts(p: Probe, output: map<string, Counters>, name: string, metric: Metric)
    ensures var next := Counted(p, output, name, metric);
            && (forall id, measure: Measure :: measure != Samples ==>
                  Measured(At(next, id), measure)
                      == Measured(At(output, id), measure) + Amount(p, name, metric, measure, Some(id)))
            && (forall measure: Measure :: measure != Samples ==>
                Sum(next, measure) == Sum(output, measure) + Amount(p, name, metric, measure, None))
            && (forall id :: id in next <==> id in output || Amount(p, name, metric, Samples, Some(id)) > 0)
  {
    hide MetricKind, RouteOf, Sum;
    var next, id := Counted(p, output, name, metric), RouteOf(p, metric);
    if next != output {
      SumUpdate(output, id, next[id], ResponseBytes);
      SumUpdate(output, id, next[id], RequestCount);
    }
  }

  lemma TalliedStep(p: Probe, output: map<string, Counters>, before: set<Family>, name: string, metrics: seq<Metric>,
                    i: nat)
    requires i < |metrics| && Tallied(p, output, before, name, metrics[..i])
    ensures Tallied(p, Counted(p, output, name, metrics[i]), before, name, metrics[..i + 1])
  {
    hide Counted, Amount, MetricsTotal, Total, Sum, Measured;
    CountedAmounts(p, output, name, metrics[i]);
    forall measure, who
      ensures MetricsTotal(p, name, metrics[..i + 1], measure, who)
           == MetricsTotal(p, name, metrics[..i], measure, who) + Amount(p, name, metrics[i], measure, who)
    {
      AppendMetric(p, name, metrics, i, measure, who);
    }
  }

  lemma TalliedFamily(p: Probe, output: map<string, Counters>, families: set<Family>, family: Family)
    requires family in families
    requires if family.1.None? then Tallied(p, output, families - {family}, "", [])
             else Tallied(p, output, families - {family}, family.0, family.1.value)
    ensures Tallied(p, output, families, "", [])
  {
    hide Sum, Measured, MetricsTotal;
    NoMetrics(p);
    forall measure, who
      ensures Total(p, families, measure, who)
              == FamilyTotal(p, family, measure, who) + Total(p, families - {family}, measure, who)
    {
      SumSplit(families, family, FamilyTotals(p, measure, who));
    }
  }

  lemma NoMetrics(p: Probe)
    ensures forall name, measure, who :: MetricsTotal(p, name, [], measure, who) == 0
  {}

  /** A family whose name is of no kind adds nothing. */
  lemma {:induction false} UnknownKind(p: Probe, name: string, metrics: seq<Metric>, measure: Measure,
                                       who: Option<string>)
    requires MetricKind(p, name).None?
    ensures MetricsTotal(p, name, metrics, measure, who) == 0
  {
    hide MetricKind, RouteOf;
    if metrics != [] {
      UnknownKind(p, name, metrics[..|metrics| - 1], measure, who);
    }
  }

  lemma Ignored(p: Probe, output: map<string, Counters>, before: set<Family>, name: string, metrics: seq<Metric>)
    requires MetricKind(p, name).None? && Tallied(p, output, before, "", [])
    ensures Tallied(p, output, before, name, metrics)
  {
    hide MetricKind, Total, Sum, Measured, MetricsTotal;
    NoMetrics(p);
    forall measure, who
      ensures MetricsTotal(p, name, metrics, measure, who) == 0
    {
      UnknownKind(p, name, metrics, measure, who);
    }
  }

  lemma Renamed(p: Probe, output: map<string, Counters>, before: set<Family>, name: string)
    requires Tallied(p, output, before, "", [])
    ensures Tallied(p, output, before, name, [])
  {
    hide Total, Sum, Measured;
    NoMetrics(p);
  }

  lemma Untouched(p: Probe)
    ensures Tallied(p, map[], {}, "", [])
  {}

  /** Every route has the sum of its own samples, and all routes together the sum of all attributed samples. */
  ghost predicate Attributed(p: Probe, families: set<Family>, output: map<string, Counters>) {
    && (forall id :: id in output <==> Total(p, families, Samples, Some(id)) > 0)
    && (forall id :: id in output ==>
          && output[id].bytes == Total(p, families, ResponseBytes, Some(id))
          && output[id].requests == Total(p, families, RequestCount, Some(id)))
    && Sum(output, ResponseBytes) == Total(p, families, ResponseBytes, None)
    && Sum(output, RequestCount) == Total(p, families, RequestCount, None)
  }

  lemma Finished(p: Probe, output: map<string, Counters>, families: set<Family>)
    requires Tallied(p, output, families, "", [])
    ensures Attributed(p, families, output)
  {
    hide Total, Sum, MetricsTotal;
    NoMetrics(p);
    assert forall id :: Measured(At(output, id), ResponseBytes) == Total(p, families, ResponseBytes, Some(id));
    assert forall id :: Measured(At(output, id), RequestCount) == Total(p, families, RequestCount, Some(id));
  }

  /** The inner loop: the metrics of one family. */
  method CountFamily(p: Probe, start: map<string, Counters>, ghost before: set<Family>, name: string,
                     metrics: seq<Metric>)
    returns (output: map<string, Counters>)
    requires MetricKind(p, name).Some? && Tallied(p, start, before, "", [])
    ensures Tallied(p, output, before, name, metrics)
  {
    hide MetricKind, RouteOf, Tallied;
    output := start;
    Renamed(p, output, before, name);
    assert metrics[..0] == [];
    for i := 0 to |metrics|
      invariant Tallied(p, output, before, name, metrics[..i])
    {
      TalliedStep(p, output, before, name, metrics, i);
      var metric := metrics[i];
      if metric.value.None? {
        continue;
      }
      var routeID := RouteIDForMetric(p, metric);
      if routeID == "" {
        continue;
      }
      var counters := At(output, routeID);
      if MetricKind(p, name) == Some(ResponseBytesKind) {
        counters := counters.(bytes := counters.bytes + metric.value.value);
      }
      if MetricKind(p, name) == Some(RequestsKind) {
        counters := counters.(requests := counters.requests + metric.value.value);
      }
      output := output[routeID := counters];
    }
    assert metrics[..|metrics|] == metrics;
  }

  /**
   Every route gets exactly the sum of the samples attributed to it, and all routes together get the
   sum of all attributed samples, however the families are walked.
   */
  method CountersFromMetricFamilies(p: Probe, families: map<string, Option<seq<Metric>>>)
    returns (output: map<string, Counters>)
    ensures Attributed(p, families.Items, output)
  {
    hide MetricKind, RouteOf, Tallied;
    output := map[];
    ghost var before: set<Family> := {};
    Untouched(p);
    var left := families.Items;
    while left != {}
      invariant before == families.Items - left && left <= families.Items
      invariant Tallied(p, output, before, "", [])
    {
      var family :| family in left;
      left := left - {family};
      if family.1.Some? && MetricKind(p, family.0).Some? {
        output := CountFamily(p, output, before, family.0, family.1.value);
      } else if family.1.Some? {
        Ignored(p, output, before, family.0, family.1.value);
      }
      assert before + {family} - {family} == before;
      before := before + {family};
      TalliedFamily(p, output, before, family);
    }
    assert before == families.Items;
    Finished(p, output, before);
  }
}
