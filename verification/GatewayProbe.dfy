/**
 The gateway traffic probe (internal/gatewayprobe/collector.go) and the settlement of its windows
 (SettleGatewayTrafficWindow in internal/billing/usage.go, CreateGatewayTrafficUsage in
 internal/api/billingapi/gateway_traffic_handlers.go). Times are whole minutes.
 */
module GatewayProbe {

  datatype Counters = Counters(bytes: nat, requests: nat)

  /** A route's baseline: the counters of the last reported scrape and its minute. */
  datatype RouteState = RouteState(counters: Counters, windowEnd: int)

  datatype Window = Window(route: string, bytes: nat, requests: nat, start: int, end: int)

  /** What becomes of one report. */
  datatype Delivery =
    | Lost       // the request never arrives
    | Refused    // the server answers with an error and settles nothing
    | AckLost    // the server settles the window, or has it already, but the probe sees an error
    | Delivered  // the server settles the window, or has it already, and the probe is told so
  {
    predicate Arrives() {
      AckLost? || Delivered?
    }
  }

  function DeliveryAt(network: seq<Delivery>, i: nat): Delivery {
    if i < |network| then network[i] else Lost
  }

  function PositiveDelta(current: nat, previous: nat): nat {
    if current < previous then current else current - previous
  }

  function WindowFor(states: map<string, RouteState>, route: string, current: Counters, now: int): Window {
    if route !in states || now <= states[route].windowEnd then Window(route, 0, 0, now, now)
    else
      var state := states[route];
      Window(route, PositiveDelta(current.bytes, state.counters.bytes),
             PositiveDelta(current.requests, state.counters.requests), state.windowEnd, now)
  }

  /** windowsForCounters: routes without counters are passed over. */
  function Windows(states: map<string, RouteState>, counters: map<string, Counters>, routes: seq<string>,
                   now: int): (ws: seq<Window>)
    ensures forall w :: w in ws ==> w.route in counters && w == WindowFor(states, w.route, counters[w.route], now)
  {
    if routes == [] then [] else
    var n := |routes| - 1;
    Windows(states, counters, routes[..n], now)
    + if routes[n] in counters then [WindowFor(states, routes[n], counters[routes[n]], now)] else []
  }

  /** What a counter grew by; one that is lower than before has started again from nothing. */
  predicate Grown(amount: nat, before: nat, now: nat) {
    if before <= now then before + amount == now else amount == now
  }

  /**
   One window for each route that has counters, in order: from its baseline to now with what its two counters
   grew by, and an empty one when there is no earlier baseline.
   */
  lemma {:induction false} WindowsAre(states: map<string, RouteState>, counters: map<string, Counters>,
                                      routes: seq<string>, now: int) returns (at: seq<nat>)
    ensures var ws := Windows(states, counters, routes, now);
            && |ws| == |at| && (forall k, l :: 0 <= k < l < |at| ==> at[k] < at[l])
            && (forall i :: 0 <= i < |routes| ==> (i in at <==> routes[i] in counters))
            && (forall k :: 0 <= k < |at| ==> at[k] < |routes| && ws[k].route == routes[at[k]])
            && (forall w :: w in ws ==>
                  && w.route in counters && w.end == now
                  && if w.route in states && states[w.route].windowEnd < now then
                       && w.start == states[w.route].windowEnd
                       && Grown(w.bytes, states[w.route].counters.bytes, counters[w.route].bytes)
                       && Grown(w.requests, states[w.route].counters.requests, counters[w.route].requests)
                     else w.bytes == w.requests == 0 && w.start == now)
  {
    at := [];
    if routes != [] {
      var n := |routes| - 1;
      var before := WindowsAre(states, counters, routes[..n], now);
      assert forall i :: 0 <= i < n ==> routes[..n][i] == routes[i];
      at := before + if routes[n] in counters then [n] else [];
    }
  }

  // ---- The server ----

  predicate Settled(rows: seq<Window>, route: string, start: int) {
    exists i :: 0 <= i < |rows| && rows[i].route == route && rows[i].start == start
  }

  /** A window that arrives is settled unless its (route, period start) is settled already. */
  function Receive(rows: seq<Window>, w: Window): seq<Window> {
    if w.bytes == 0 || w.end <= w.start || Settled(rows, w.route, w.start) then rows else rows + [w]
  }

  class Server {
    var rows: seq<Window>

    /** One report; the probe gets an acknowledgement or an error. */
    method Report(w: Window, delivery: Delivery) returns (acknowledged: bool)
      modifies this
      ensures rows == if delivery.Arrives() then Receive(old(rows), w) else old(rows)
      ensures acknowledged == delivery.Delivered?
    {
      if delivery.Arrives() {
        if w.bytes > 0 && w.end > w.start && !Settled(rows, w.route, w.start) {
          rows := rows + [w];
        }
      }
      return delivery.Delivered?;
    }
  }

  // ---- One pass of the probe ----

  /** Probe baselines and settled windows. */
  datatype Meter = Meter(states: map<string, RouteState>, rows: seq<Window>)

  /**
   The reporting loop: an empty window moves the baseline without a report; a failed report ends the
   pass with an error and leaves the baseline where it was.
   */
  function ReportAll(m: Meter, ws: seq<Window>, counters: map<string, Counters>, now: int,
                     network: seq<Delivery>): (Meter, bool)
    requires forall w :: w in ws ==> w.route in counters
    decreases |ws|
  {
    if ws == [] then (m, true) else
    var w := ws[0];
    var mark := m.states[w.route := RouteState(counters[w.route], now)];
    if w.bytes == 0 then ReportAll(m.(states := mark), ws[1..], counters, now, network)
    else
      var delivery := DeliveryAt(network, 0);
      var rows := if delivery.Arrives() then Receive(m.rows, w) else m.rows;
      if !delivery.Delivered? then (m.(rows := rows), false)
      else ReportAll(Meter(mark, rows), ws[1..], counters, now, if network == [] then [] else network[1..])
  }

  function Pass(m: Meter, routes: seq<string>, counters: map<string, Counters>, now: int,
                network: seq<Delivery>): (Meter, bool) {
    ReportAll(m, Windows(m.states, counters, routes, now), counters, now, network)
  }

  class Collector {
    var states: map<string, RouteState>
    var lastError: bool
    var reported: nat

    constructor ()
      ensures states == map[] && !lastError
    {
      states := map[];
      lastError := false;
      reported := 0;
    }

    method WindowsForCounters(counters: map<string, Counters>, routes: seq<string>, windowEnd: int)
      returns (windows: seq<Window>)
      ensures windows == Windows(states, counters, routes, windowEnd)
    {
      windows := [];
      var i := 0;
      while i < |routes|
        invariant 0 <= i <= |routes|
        invariant windows == Windows(states, counters, routes[..i], windowEnd)
      {
        var route := routes[i];
        assert routes[..i + 1][..i] == routes[..i];
        if route in counters {
          var current := counters[route];
          if route !in states || !(windowEnd > states[route].windowEnd) {
            windows := windows + [Window(route, 0, 0, windowEnd, windowEnd)];
          } else {
            var state := states[route];
            windows := windows + [Window(route, PositiveDelta(current.bytes, state.counters.bytes),
                                         PositiveDelta(current.requests, state.counters.requests),
                                         state.windowEnd, windowEnd)];
          }
        }
        i := i + 1;
      }
      assert routes[..i] == routes;
    }

    method MarkReported(route: string, counters: Counters, windowEnd: int)
      modifies this`states
      ensures states == old(states)[route := RouteState(counters, windowEnd)]
    {
      states := states[route := RouteState(counters, windowEnd)];
    }

    /** The part of scrapeAndReport after the metrics have been read. */
    method ScrapeAndReport(server: Server, routes: seq<string>, counters: map<string, Counters>, now: int,
                           network: seq<Delivery>)
      returns (ok: bool)
      modifies this, server
      ensures (Meter(states, server.rows), ok)
              == Pass(Meter(old(states), old(server.rows)), routes, counters, now, network)
      ensures ok ==> !lastError
    {
      hide Receive, Windows, WindowFor;
      var windows := WindowsForCounters(counters, routes, now);
      var left := network;
      var i := 0;
      while i < |windows|
        invariant 0 <= i <= |windows|
        invariant ReportAll(Meter(old(states), old(server.rows)), windows, counters, now, network)
               == ReportAll(Meter(states, server.rows), windows[i..], counters, now, left)
      {
        var window := windows[i];
        assert window in windows;
        assert windows[i..][1..] == windows[i + 1..];
        if window.bytes > 0 {
          var acknowledged := server.Report(window, DeliveryAt(left, 0));
          if !acknowledged {
            return false;
          }
          left := if left == [] then [] else left[1..];
          reported := reported + 1;
        }
        MarkReported(window.route, counters[window.route], now);
        i := i + 1;
      }
      lastError := false;
      return true;
    }
  }
}
