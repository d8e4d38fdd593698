/**
 Gateway metering end to end: metrics in, windows out, and windows settled as ledger usages
 (SettleGatewayTrafficWindow in internal/billing/usage.go, CreateGatewayTrafficUsage in
 internal/api/billingapi/gateway_traffic_handlers.go).
 */
module GatewayBilling {
  import opened Wrappers
  import opened Numerals
  import opened Credits
  import opened Calendar
  import opened Ledger
  import opened LedgerInvariants
  import opened GatewayProbe
  import opened MetricAttribution

  const GATEWAY_ROUTE := "gateway_route"
  const EGRESS := "gateway.egress_gib"
  const GIB := 1073741824

  /** A route that the server knows, with its project. */
  datatype Route = Route(id: string, projectId: string)

  // ---- Keys ----

  function ResourceId(route: string, minute: nat): string {
    route + ":" + Stamp(minute)
  }

  function KeyOf(route: string, minute: nat): UsageKey {
    UsageKey(GATEWAY_ROUTE, ResourceId(route, minute), EGRESS)
  }

  /** Route and start minute can be read back from a key. */
  lemma KeyInjective(route1: string, minute1: nat, route2: string, minute2: nat)
    requires KeyOf(route1, minute1) == KeyOf(route2, minute2)
    ensures route1 == route2 && minute1 == minute2
  {
    hide Stamp;
    StampIsDigits(minute1);
    StampIsDigits(minute2);
    LastColon(route1, Stamp(minute1), route2, Stamp(minute2));
    StampInjective(minute1, minute2);
  }

  lemma LastColon(route1: string, stamp1: string, route2: string, stamp2: string)
    requires Digits(stamp1) && Digits(stamp2) && route1 + ":" + stamp1 == route2 + ":" + stamp2
    ensures route1 == route2 && stamp1 == stamp2
  {
    var id, m, n := route1 + ":" + stamp1, |route1|, |route2|;
    assert id[m] == ':' && id[n] == ':';
    assert forall k :: m < k < |id| ==> id[k] == stamp1[k - m - 1];
    assert forall k :: n < k < |id| ==> id[k] == stamp2[k - n - 1];
    assert m == n;
    assert route1 == id[..m] && route2 == id[..n] && stamp1 == id[m + 1..] && stamp2 == id[n + 1..];
  }

  // ---- One window on the server ----

  function UsageOf(w: Window, route: Route, rate: real): Usage
    requires w.start >= 0
  {
    Usage(KeyOf(route.id, w.start), route.projectId, w.bytes as real / GIB as real * rate)
  }

  /** What settling a window does to the billing tables; without a rate it fails. */
  ghost function SettleWindow(t: Tables, w: Window, route: Route, rate: Option<real>,
                              projects: map<string, Project>): (Tables, Option<Error>)
    requires w.start >= 0
  {
    if route.id == "" || route.projectId == "" || w.bytes == 0 || w.end <= w.start then (t, None)
    else if rate.None? then (t, Some(NoRate))
    else Debit(t, [UsageOf(w, route, rate.value)], BillingOwner(projects, route.projectId))
  }

  /** A settled window and one that is settled already are both acknowledged. */
  predicate Acknowledged(error: Option<Error>) {
    error == None || error == Some(AlreadySettled)
  }

  /** The windows settled are those whose key the usage records hold. */
  ghost predicate Mirrors(t: Tables, rows: seq<Window>) {
    forall route: string, minute: nat :: Settled(rows, route, minute) <==> Recorded(t.rows, KeyOf(route, minute))
  }

  /** One usage is skipped exactly when its key is recorded, and otherwise adds exactly its own. */
  lemma DebitOfOne(t: Tables, u: Usage, payer: Result<string, Error>)
    ensures var (t', error) := Debit(t, [u], payer);
            && (payer.Ok? ==> (error == Some(AlreadySettled) <==> Recorded(t.rows, u.key)))
            && (error == None ==> forall key :: Recorded(t'.rows, key) <==> Recorded(t.rows, key) || key == u.key)
            && (error.Some? ==> t' == t)
            && (error == None ==> payer.Ok? && !Recorded(t.rows, u.key))
  {
    hide Round, Reserved;
    if payer.Ok? {
      var user := payer.value;
      var start := Start(EnsureWallet(t, user), user);
      var reserved := Reserved(t.holds, user, None);
      assert [u][1..] == [];
      assert DebitAll(start, [u], u.projectId, user, reserved) == DebitOne(start, u, u.projectId, user, reserved) by {
        OneUsage(start, u, user, reserved);
      }
      forall key
        ensures Recorded(t.rows + [UsageRow(u.key, u.projectId, user, Round(u.amount))], key)
           <==> Recorded(t.rows, key) || key == u.key
      {
        AddedRow(t.rows, UsageRow(u.key, u.projectId, user, Round(u.amount)), key);
      }
    }
  }

  lemma OneUsage(b: Batch, u: Usage, user: string, reserved: nat)
    ensures DebitAll(b, [u], u.projectId, user, reserved) == DebitOne(b, u, u.projectId, user, reserved)
  {
    hide Round, Recorded;
    assert [u][1..] == [];
  }

  lemma ReceivedKeys(rows: seq<Window>, w: Window)
    requires w.bytes > 0 && w.start < w.end
    ensures forall route, minute :: Settled(Receive(rows, w), route, minute)
                                <==> Settled(rows, route, minute) || (route == w.route && minute == w.start)
  {
    var after := Receive(rows, w);
    forall route, minute
      ensures Settled(after, route, minute) <==> Settled(rows, route, minute) || (route == w.route && minute == w.start)
    {
      if after != rows {
        assert after[|rows|] == w;
        if Settled(rows, route, minute) {
          var i :| 0 <= i < |rows| && rows[i].route == route && rows[i].start == minute;
          assert after[i] == rows[i];
        }
      }
    }
  }

  /**
   Deduplication by route and period start is deduplication by usage key: a report that is acknowledged
   leaves exactly the windows settled that the probe's protocol says, and any other leaves all as it was.
   */
  lemma WindowIsReceived(t: Tables, rows: seq<Window>, w: Window, route: Route, rate: Option<real>,
                         projects: map<string, Project>)
    requires Mirrors(t, rows) && route.id == w.route && route.id != "" && route.projectId != ""
    requires w.bytes > 0 && 0 <= w.start < w.end
    ensures var (t', error) := SettleWindow(t, w, route, rate, projects);
            && Mirrors(t', if Acknowledged(error) then Receive(rows, w) else rows)
            && (error == Some(AlreadySettled) ==> Receive(rows, w) == rows)
            && (error.Some? ==> t' == t)
  {
    hide Debit, Receive, Recorded, Settled, KeyOf;
    ReceivedKeys(rows, w);
    if rate.Some? {
      var u := UsageOf(w, route, rate.value);
      DebitOfOne(t, u, BillingOwner(projects, route.projectId));
      var (t', error) := SettleWindow(t, w, route, rate, projects);
      if error == Some(AlreadySettled) {
        PayerIsKnown(t, u, projects);
        assert Settled(rows, w.route, w.start);
        SettledIsNotReceived(rows, w);
      }
      forall r: string, minute: nat
        ensures KeyOf(r, minute) == u.key <==> r == w.route && minute == w.start
      {
        if KeyOf(r, minute) == u.key {
          KeyInjective(r, minute, w.route, w.start);
        }
      }
    }
  }

  lemma PayerIsKnown(t: Tables, u: Usage, projects: map<string, Project>)
    requires Debit(t, [u], BillingOwner(projects, u.projectId)).1 == Some(AlreadySettled)
    ensures BillingOwner(projects, u.projectId).Ok?
  {}

  lemma SettledIsNotReceived(rows: seq<Window>, w: Window)
    requires Settled(rows, w.route, w.start)
    ensures Receive(rows, w) == rows
  {}

  // ---- A whole scrape ----

  function RouteIds(routes: seq<RouteRef>): seq<string> {
    seq(|routes|, i requires 0 <= i < |routes| => routes[i].id)
  }

  /** From metric families to windows: a pass over the counters that attribution gives. */
  method ScrapeFamilies(collector: Collector, server: Server, p: Probe, families: map<string, Option<seq<Metric>>>,
                        now: int, network: seq<Delivery>)
    returns (ok: bool, ghost counters: map<string, Counters>)
    modifies collector, server
    ensures Attributed(p, families.Items, counters)
    ensures (Meter(collector.states, server.rows), ok)
         == Pass(Meter(old(collector.states), old(server.rows)), RouteIds(p.routes), counters, now, network)
  {
    var totals := CountersFromMetricFamilies(p, families);
    counters := totals;
    ok := collector.ScrapeAndReport(server, RouteIds(p.routes), totals, now, network);
  }
}
