/** What the gateway counters of a route add up to, in terms of the names of the metric families. */
module MetricNames {
  import opened Wrappers
  import opened GatewayProbe
  import opened Sums
  import opened Text
  import opened Selections
  import opened MetricAttribution
  import CommitMessage

  /** A name, trimmed and in lower case, of a family that counts response bytes. */
  ghost predicate NamesBytes(n: string) {
    && (exists a, b :: n == a + "response" + b)
    && (exists a, b :: n == a + "bytes" + b)
    && (exists a :: n == a + "_total")
  }

  /** And of one that counts requests. */
  ghost predicate NamesRequests(n: string) {
    && !NamesBytes(n)
    && (exists a :: n == a + "_requests_total")
    && (forall a, b :: n != a + "bytes" + b)
    && (forall a, b :: n != a + "duration" + b)
  }

  /** The valid samples among the metrics that go to the route, added up. */
  function Added(p: Probe, metrics: seq<Metric>, id: string): nat {
    if metrics == [] then 0 else
    var metric := metrics[|metrics| - 1];
    Added(p, metrics[..|metrics| - 1], id)
    + if metric.value.Some? && RouteOf(p, metric) == id then metric.value.value else 0
  }

  ghost function BytesOf(p: Probe, id: string, family: Family): nat {
    if family.1.Some? && NamesBytes(p.lower(TrimSpace(family.0))) then Added(p, family.1.value, id) else 0
  }

  ghost function BytesFor(p: Probe, id: string): Family -> nat {
    (family: Family) => BytesOf(p, id, family)
  }

  ghost function RequestsOf(p: Probe, id: string, family: Family): nat {
    if family.1.Some? && NamesRequests(p.lower(TrimSpace(family.0))) then Added(p, family.1.value, id) else 0
  }

  ghost function RequestsFor(p: Probe, id: string): Family -> nat {
    (family: Family) => RequestsOf(p, id, family)
  }

  /** The metric is a valid sample for the route, in a family of either kind. */
  ghost predicate IsSample(p: Probe, families: set<Family>, id: string, family: Family, i: int) {
    && family in families && family.1.Some? && 0 <= i < |family.1.value|
    && (NamesBytes(p.lower(TrimSpace(family.0))) || NamesRequests(p.lower(TrimSpace(family.0))))
    && family.1.value[i].value.Some? && RouteOf(p, family.1.value[i]) == id
  }

  /**
   A route's bytes are its samples in the families that name bytes, and its requests those in the families
   that name requests. A route without a sample has no counters.
   */
  lemma CountersAre(p: Probe, families: set<Family>, output: map<string, Counters>, id: string)
    requires Attributed(p, families, output) && id != ""
    ensures (if id in output then output[id].bytes else 0) == SumOver(families, BytesFor(p, id))
    ensures (if id in output then output[id].requests else 0) == SumOver(families, RequestsFor(p, id))
    ensures id in output <==> exists family, i :: IsSample(p, families, id, family, i)
  {
    hide NamesBytes, NamesRequests, Added, FamilyTotal, Measured, Sum;
    var who := Some(id);
    forall family | family in families
      ensures BytesFor(p, id)(family) == FamilyTotals(p, ResponseBytes, who)(family)
      ensures RequestsFor(p, id)(family) == FamilyTotals(p, RequestCount, who)(family)
    {
      FamilyIs(p, family, id);
    }
    SumAgrees(families, BytesFor(p, id), FamilyTotals(p, ResponseBytes, who));
    SumAgrees(families, RequestsFor(p, id), FamilyTotals(p, RequestCount, who));
    SampledExactly(p, families, id);
    if id !in output {
      NoSamples(p, families, id);
    }
  }

  lemma KindIs(p: Probe, name: string)
    ensures MetricKind(p, name) == Some(ResponseBytesKind) <==> NamesBytes(p.lower(TrimSpace(name)))
    ensures MetricKind(p, name) == Some(RequestsKind) <==> NamesRequests(p.lower(TrimSpace(name)))
    ensures MetricKind(p, name) == None
            <==> !NamesBytes(p.lower(TrimSpace(name))) && !NamesRequests(p.lower(TrimSpace(name)))
  {
    hide TrimSpace, Contains, HasSuffix;
    var n := p.lower(TrimSpace(name));
    ContainsIs(n, "response");
    ContainsIs(n, "bytes");
    ContainsIs(n, "duration");
    HasSuffixIs(n, "_total");
    HasSuffixIs(n, "_requests_total");
  }

  lemma HasSuffixIs(s: string, suffix: string)
    ensures HasSuffix(s, suffix) <==> exists a :: s == a + suffix
  {
    if HasSuffix(s, suffix) {
      assert s == s[..|s| - |suffix|] + suffix;
    }
  }

  lemma OneMetric(p: Probe, name: string, metric: Metric, id: string)
    requires id != ""
    ensures var n, sample := p.lower(TrimSpace(name)), metric.value.Some? && RouteOf(p, metric) == id;
            && Amount(p, name, metric, ResponseBytes, Some(id))
               == (if NamesBytes(n) && sample then metric.value.value else 0)
            && Amount(p, name, metric, RequestCount, Some(id))
               == (if NamesRequests(n) && sample then metric.value.value else 0)
            && Amount(p, name, metric, MetricAttribution.Samples, Some(id))
               == (if (NamesBytes(n) || NamesRequests(n)) && sample then 1 else 0)
  {
    hide NamesBytes, NamesRequests, MetricKind, RouteOf, TrimSpace;
    KindIs(p, name);
  }

  lemma {:induction false} MetricsAre(p: Probe, name: string, metrics: seq<Metric>, id: string)
    requires id != ""
    ensures MetricsTotal(p, name, metrics, ResponseBytes, Some(id))
            == if NamesBytes(p.lower(TrimSpace(name))) then Added(p, metrics, id) else 0
    ensures MetricsTotal(p, name, metrics, RequestCount, Some(id))
            == if NamesRequests(p.lower(TrimSpace(name))) then Added(p, metrics, id) else 0
    ensures MetricsTotal(p, name, metrics, MetricAttribution.Samples, Some(id)) > 0
            <==> exists i :: IsSample(p, {(name, Some(metrics))}, id, (name, Some(metrics)), i)
  {
    hide NamesBytes, NamesRequests, Amount, RouteOf, TrimSpace;
    if metrics != [] {
      var n := |metrics| - 1;
      OneMetric(p, name, metrics[n], id);
      var family, before := (name, Some(metrics)), (name, Some(metrics[..n]));
      MetricsAre(p, name, metrics[..n], id);
      if i :| IsSample(p, {before}, id, before, i) {
        assert IsSample(p, {family}, id, family, i);
      }
      if i :| IsSample(p, {family}, id, family, i) && i < n {
        assert IsSample(p, {before}, id, before, i);
      }
      if Amount(p, name, metrics[n], MetricAttribution.Samples, Some(id)) > 0 {
        assert IsSample(p, {family}, id, family, n);
      }
    }
  }

  lemma FamilyIs(p: Probe, family: Family, id: string)
    requires id != ""
    ensures FamilyTotal(p, family, ResponseBytes, Some(id)) == BytesFor(p, id)(family)
    ensures FamilyTotal(p, family, RequestCount, Some(id)) == RequestsFor(p, id)(family)
    ensures FamilyTotal(p, family, MetricAttribution.Samples, Some(id)) > 0
            <==> exists i :: IsSample(p, {family}, id, family, i)
  {
    hide NamesBytes, NamesRequests, Added, MetricsTotal, RouteOf, TrimSpace;
    if family.1.Some? {
      MetricsAre(p, family.0, family.1.value, id);
    }
  }

  lemma {:induction false} SampledExactly(p: Probe, families: set<Family>, id: string)
    requires id != ""
    ensures Total(p, families, MetricAttribution.Samples, Some(id)) > 0
            <==> exists family, i :: IsSample(p, families, id, family, i)
  {
    hide NamesBytes, NamesRequests, RouteOf, TrimSpace, FamilyTotal;
    if families != {} {
      var family :| family in families;
      SumSplit(families, family, FamilyTotals(p, MetricAttribution.Samples, Some(id)));
      SampledExactly(p, families - {family}, id);
      FamilyIs(p, family, id);
      if f, i :| IsSample(p, families - {family}, id, f, i) {
        assert IsSample(p, families, id, f, i);
      }
      if i :| IsSample(p, {family}, id, family, i) {
        assert IsSample(p, families, id, family, i);
      }
      if f, i :| IsSample(p, families, id, f, i) {
        if f == family {
          assert IsSample(p, {family}, id, family, i);
        } else {
          assert IsSample(p, families - {family}, id, f, i);
        }
      }
    }
  }

  /** A route without samples has nothing to add up. */
  lemma {:induction false} NoSamples(p: Probe, families: set<Family>, id: string)
    requires forall family, i :: !IsSample(p, families, id, family, i)
    ensures SumOver(families, BytesFor(p, id)) == SumOver(families, RequestsFor(p, id)) == 0
  {
    hide NamesBytes, NamesRequests, RouteOf, TrimSpace, Added;
    if families != {} {
      var family :| family in families;
      SumSplit(families, family, BytesFor(p, id));
      SumSplit(families, family, RequestsFor(p, id));
      forall f, i
        ensures !IsSample(p, families - {family}, id, f, i)
      {
        assert !IsSample(p, families, id, f, i);
      }
      NoSamples(p, families - {family}, id);
      if family.1.Some? && (NamesBytes(p.lower(TrimSpace(family.0))) || NamesRequests(p.lower(TrimSpace(family.0)))) {
        NothingAdded(p, families, family, family.1.value, id);
      }
    }
  }

  lemma {:induction false} NothingAdded(p: Probe, families: set<Family>, family: Family, metrics: seq<Metric>,
                                        id: string)
    requires family in families && family.1.Some? && metrics <= family.1.value
    requires NamesBytes(p.lower(TrimSpace(family.0))) || NamesRequests(p.lower(TrimSpace(family.0)))
    requires forall i :: !IsSample(p, families, id, family, i)
    ensures Added(p, metrics, id) == 0
  {
    hide NamesBytes, NamesRequests, RouteOf, TrimSpace;
    if metrics != [] {
      NothingAdded(p, families, family, metrics[..|metrics| - 1], id);
      assert !IsSample(p, families, id, family, |metrics| - 1);
    }
  }

  // ---- Tokens ----

  /** A token is the letters and digits of the trimmed text in lower case, in order. */
  lemma TokenIs(p: Probe, value: string) returns (at: seq<nat>)
    ensures var s := p.lower(TrimSpace(value));
            && |Token(p, value)| == |at|
            && (forall i :: 0 <= i < |at| ==> at[i] < |s| && Token(p, value)[i] == s[at[i]])
            && (forall i, j :: 0 <= i < j < |at| ==> at[i] < at[j])
            && (forall k :: 0 <= k < |s| ==> (k in at <==> p.alphanumeric(s[k])))
  {
    hide TrimSpace, Kept, Select, Positions;
    var s := p.lower(TrimSpace(value));
    at := Positions(s, p.alphanumeric);
    SelectIsSelection(s, p.alphanumeric, Same);
    KeptIsSelect(p, s);
  }

  function Same(c: char): char {
    c
  }

  lemma {:induction false} KeptIsSelect(p: Probe, s: string)
    ensures Kept(p, s) == Select(s, p.alphanumeric, Same)
  {
    if s != "" {
      KeptIsSelect(p, s[..|s| - 1]);
    }
  }

  /** A candidate is worth the bytes of its token if a label's token contains it, and nothing otherwise. */
  lemma ScoreIs(p: Probe, labels: seq<Option<string>>, candidate: string)
    ensures Score(p, labels, candidate) > 0 <==>
              (&& Token(p, candidate) != ""
               && exists i, a, b :: 0 <= i < |labels| && labels[i].Some?
                    && Token(p, labels[i].value) == a + Token(p, candidate) + b)
    ensures Score(p, labels, candidate) > 0
            ==> Score(p, labels, candidate) == |CommitMessage.Encode(Token(p, candidate))|
  {
    hide Token, Bytes, Contains;
    var token := Token(p, candidate);
    BytesAreEncoded(token);
    forall i | 0 <= i < |labels| && labels[i].Some?
      ensures Contains(Token(p, labels[i].value), token) <==> exists a, b :: Token(p, labels[i].value) == a + token + b
    {
      ContainsIs(Token(p, labels[i].value), token);
    }
  }

  lemma {:induction false} BytesAreEncoded(s: string)
    ensures Bytes(s) == |CommitMessage.Encode(s)|
  {
    hide CommitMessage.EncodeChar;
    if s != "" {
      BytesAreEncoded(s[1..]);
      assert s == s[..1] + s[1..];
      CommitMessage.EncodeSplit(s[..1], s[1..]);
      OneCharacter(s[0]);
      assert s[..1] == [s[0]];
    }
  }

  lemma OneCharacter(c: char)
    ensures |CommitMessage.Encode([c])| == Bytes([c])
  {
    assert [c][..0] == "";
    assert |CommitMessage.EncodeChar(c)| == Bytes([c]);
  }
}
