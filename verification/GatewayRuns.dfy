/**
 The probe and the server together: traffic, counter resets, refreshed route lists that attribute samples
 differently, a clock that never runs backwards, probe restarts, and scrapes whose reports may be lost,
 refused, or acknowledged in vain.
 */
module GatewayRuns {
  import opened Wrappers
  import opened GatewayProbe

  /** A scrape in progress: the counters read, and the true growth at that moment. */
  datatype Scrape = Scrape(counters: map<string, Counters>, growth: map<string, nat>)

  /**
   growth is the number of response bytes a route has really served and raw what its counter shows.
   base is the growth behind a route's baseline, origin the growth behind its very first one.
   */
  datatype World = World(meter: Meter, clock: int, growth: map<string, nat>, raw: map<string, Counters>,
                         scrape: Option<Scrape>, base: map<string, nat>, origin: map<string, nat>)

  datatype Event =
    | Traffic(route: string, bytes: nat, requests: nat)
    | Reset(route: string, left: nat)
    | Moved(route: string, shown: Counters)
    | Tick(minutes: nat)
    | Restart
    | Read(visible: set<string>)
    | Report(routes: seq<string>, network: seq<Delivery>)

  function At(m: map<string, nat>, route: string): nat {
    if route in m then m[route] else 0
  }

  function RawAt(m: map<string, Counters>, route: string): Counters {
    if route in m then m[route] else Counters(0, 0)
  }

  function Rebase(w: World, scrape: Scrape, states: map<string, RouteState>): map<string, nat> {
    map r | r in states ::
      if r in w.meter.states && w.meter.states[r] == states[r] then At(w.base, r) else At(scrape.growth, r)
  }

  function Origins(w: World, scrape: Scrape, states: map<string, RouteState>): map<string, nat> {
    map r | r in w.origin.Keys + states.Keys :: if r in w.origin then w.origin[r] else At(scrape.growth, r)
  }

  function Step(w: World, e: Event): World {
    match e
    case Traffic(route, bytes, requests) =>
      var c := RawAt(w.raw, route);
      w.(growth := w.growth[route := At(w.growth, route) + bytes],
         raw := w.raw[route := Counters(c.bytes + bytes, c.requests + requests)])
    case Reset(route, left) =>
      if left <= RawAt(w.raw, route).bytes then w.(raw := w.raw[route := Counters(left, 0)]) else w
    case Moved(route, shown) => w.(raw := w.raw[route := shown])
    case Tick(minutes) => w.(clock := w.clock + minutes)
    case Restart => w.(meter := w.meter.(states := map[]), scrape := None)
    case Read(visible) => w.(scrape := Some(Scrape(map r | r in visible :: RawAt(w.raw, r), w.growth)))
    case Report(routes, network) =>
      if w.scrape.None? then w else
      var s := w.scrape.value;
      var m := Pass(w.meter, routes, s.counters, w.clock, network).0;
      w.(meter := m, scrape := None, base := Rebase(w, s, m.states), origin := Origins(w, s, m.states))
  }

  function Run(w: World, es: seq<Event>): World
    decreases |es|
  {
    if es == [] then w else Step(Run(w, es[..|es| - 1]), es[|es| - 1])
  }

  const START := World(Meter(map[], []), 0, map[], map[], None, map[], map[])

  function Billed(rows: seq<Window>, route: string): nat {
    if rows == [] then 0 else
    var n := |rows| - 1;
    Billed(rows[..n], route) + if rows[n].route == route then rows[n].bytes else 0
  }

  lemma BilledAppend(rows: seq<Window>, w: Window, route: string)
    ensures Billed(rows + [w], route) == Billed(rows, route) + if w.route == route then w.bytes else 0
  {
    assert (rows + [w])[..|rows|] == rows;
  }

  // ---- After a restart ----

  /** Windows without bytes move baselines and settle nothing, whatever the network does. */
  lemma {:induction false} EmptyPass(m: Meter, ws: seq<Window>, counters: map<string, Counters>, now: int,
                                     network: seq<Delivery>)
    requires forall w :: w in ws ==> w.route in counters && w.bytes == 0
    ensures var m' := ReportAll(m, ws, counters, now, network).0;
            && m'.rows == m.rows
            && forall r :: StateOf(m'.states, r)
                 == if exists w :: w in ws && w.route == r then Some(RouteState(counters[r], now))
                    else StateOf(m.states, r)
    decreases |ws|
  {
    if ws != [] {
      var first := ws[0];
      assert first in ws;
      assert forall w :: w in ws <==> w == first || w in ws[1..];
      EmptyPass(m.(states := m.states[first.route := RouteState(counters[first.route], now)]), ws[1..], counters, now,
                network);
    }
  }

  /** The first scrape after a restart bills nothing: it only takes the counters it reads as baselines. */
  lemma RestartBillsNothing(w: World, visible: set<string>, routes: seq<string>, network: seq<Delivery>)
    ensures var after := Step(Step(Step(w, Restart), Read(visible)), Event.Report(routes, network)).meter;
            && after.rows == w.meter.rows
            && forall r :: StateOf(after.states, r)
                 == if r in visible && r in routes then Some(RouteState(RawAt(w.raw, r), w.clock)) else None
  {
    var counters := map r | r in visible :: RawAt(w.raw, r);
    var ws := Windows(map[], counters, routes, w.clock);
    var at := WindowsAre(map[], counters, routes, w.clock);
    EmptyPass(Meter(map[], w.meter.rows), ws, counters, w.clock, network);
    forall r
      ensures (exists x :: x in ws && x.route == r) <==> r in visible && r in routes
    {
      CountedRoutes(counters, routes, ws, at, r);
    }
  }

  lemma CountedRoutes(counters: map<string, Counters>, routes: seq<string>, ws: seq<Window>, at: seq<nat>, r: string)
    requires |ws| == |at| && forall i :: 0 <= i < |routes| ==> (i in at <==> routes[i] in counters)
    requires forall k :: 0 <= k < |at| ==> at[k] < |routes| && ws[k].route == routes[at[k]]
    ensures (exists x :: x in ws && x.route == r) <==> r in counters && r in routes
  {
    if x :| x in ws && x.route == r {
      var k :| 0 <= k < |ws| && ws[k] == x;
      assert at[k] in at;
    }
    if r in counters && r in routes {
      var i :| 0 <= i < |routes| && routes[i] == r;
      var k :| 0 <= k < |at| && at[k] == i;
      assert ws[k] in ws;
    }
  }

  // ---- One pass, seen from one route ----

  /** Every settled window of a route starts before the given minute. */
  predicate Before(rows: seq<Window>, route: string, minute: int) {
    forall i :: 0 <= i < |rows| && rows[i].route == route ==> rows[i].start < minute
  }

  /** A route before and during a pass over it; origin, base and now are growth figures. */
  datatype View = View(state: Option<RouteState>, current: Counters, minute: int, origin: nat, base: nat, now: nat)

  function StateOf(states: map<string, RouteState>, route: string): Option<RouteState> {
    if route in states then Some(states[route]) else None
  }

  predicate Ready(v: View) {
    && v.origin <= v.now
    && (v.state.Some? ==>
          && v.state.value.windowEnd <= v.minute && v.origin <= v.base <= v.now
          && PositiveDelta(v.current.bytes, v.state.value.counters.bytes) <= v.now - v.base)
  }

  /** What is billed never reaches past the scrape, nor past the baseline while its window is unsettled. */
  predicate Covered(rows: seq<Window>, route: string, v: View) {
    && Before(rows, route, v.minute)
    && Billed(rows, route) + v.origin <= v.now
    && (v.state.Some? && !Settled(rows, route, v.state.value.windowEnd) ==> Billed(rows, route) + v.origin <= v.base)
  }

  lemma ReceiveCovered(rows: seq<Window>, route: string, v: View, w: Window)
    requires Ready(v) && Covered(rows, route, v)
    requires w.route == route ==> Fits(w, v)
    ensures Covered(Receive(rows, w), route, v)
  {
    var rows' := Receive(rows, w);
    if rows' != rows {
      BilledAppend(rows, w, route);
      if w.route == route {
        assert rows'[|rows|].route == route && rows'[|rows|].start == w.start;
        assert Settled(rows', route, v.state.value.windowEnd);
      } else if v.state.Some? && Settled(rows, route, v.state.value.windowEnd) {
        var i :| 0 <= i < |rows| && rows[i].route == route && rows[i].start == v.state.value.windowEnd;
        assert rows'[i] == rows[i];
      }
    }
  }

  /** The route's view is that of the pass, whether or not the pass has marked it yet. */
  predicate Seen(m: Meter, route: string, v: View) {
    StateOf(m.states, route) == v.state || StateOf(m.states, route) == Some(RouteState(v.current, v.minute))
  }

  /** The window of the pass's own route starts at its baseline and covers what was served since, if anything. */
  predicate Fits(w: Window, v: View) {
    w.bytes == 0 || (v.state.Some? && w.start == v.state.value.windowEnd < w.end == v.minute
        && w.bytes <= v.now - v.base)
  }

  lemma WindowFits(states: map<string, RouteState>, route: string, current: Counters, v: View)
    requires Ready(v) && v.state == StateOf(states, route) && v.current == current
    ensures Fits(WindowFor(states, route, current, v.minute), v)
  {}

  /** One window's turn, whatever the network does with it. */
  lemma ReportStep(m: Meter, ws: seq<Window>, counters: map<string, Counters>, now: int, network: seq<Delivery>)
    requires ws != [] && forall w :: w in ws ==> w.route in counters
    ensures var w, d := ws[0], DeliveryAt(network, 0);
            var marked := m.states[w.route := RouteState(counters[w.route], now)];
            var rows := if w.bytes > 0 && d.Arrives() then Receive(m.rows, w) else m.rows;
            var rest := if w.bytes == 0 || network == [] then network else network[1..];
            ReportAll(m, ws, counters, now, network)
            == if w.bytes == 0 || d.Delivered? then ReportAll(Meter(marked, rows), ws[1..], counters, now, rest)
               else (m.(rows := rows), false)
  {
    hide Receive;
  }

  lemma {:induction false} PassCovers(m: Meter, ws: seq<Window>, counters: map<string, Counters>, now: int,
                                      network: seq<Delivery>, states: map<string, RouteState>, route: string, v: View)
    requires forall w :: w in ws ==> w.route in counters && w == WindowFor(states, w.route, counters[w.route], now)
    requires Ready(v) && v.minute == now && v.state == StateOf(states, route)
            && (route in counters ==> v.current == counters[route])
    requires Covered(m.rows, route, v) && Seen(m, route, v)
    requires route !in counters ==> StateOf(m.states, route) == v.state
    ensures Covered(ReportAll(m, ws, counters, now, network).0.rows, route, v)
    ensures Seen(ReportAll(m, ws, counters, now, network).0, route, v)
    ensures route !in counters ==> StateOf(ReportAll(m, ws, counters, now, network).0.states, route) == v.state
    decreases |ws|
  {
    if ws != [] {
      var w := ws[0];
      assert w in ws;
      if w.route == route {
        WindowFits(states, route, counters[route], v);
      }
      ReceiveCovered(m.rows, route, v, w);
      ReportStep(m, ws, counters, now, network);
      hide Covered, Receive, ReportAll, WindowFor, Ready, Fits, DeliveryAt;
      var rows := if w.bytes > 0 && DeliveryAt(network, 0).Arrives() then Receive(m.rows, w) else m.rows;
      var next := Meter(m.states[w.route := RouteState(counters[w.route], now)], rows);
      if w.bytes == 0 || DeliveryAt(network, 0).Delivered? {
        PassCovers(next, ws[1..], counters, now,
                   if w.bytes == 0 || network == [] then network else network[1..], states, route, v);
      }
    }
  }

  // ---- The invariant ----

  /** Bytes counted since a reading never exceed bytes really served since then. */
  predicate Honest(raw: nat, read: nat, grownSince: int) {
    PositiveDelta(raw, read) <= grownSince
  }

  predicate RouteInv(w: World, r: string) {
    var rows, g, raw := w.meter.rows, At(w.growth, r), RawAt(w.raw, r).bytes;
    && Before(rows, r, w.clock)
    && Billed(rows, r) + At(w.origin, r) <= g
    && (r !in w.origin ==> r !in w.meter.states && Billed(rows, r) == 0)
    && (r in w.meter.states ==>
          && w.meter.states[r].windowEnd <= w.clock
          && At(w.origin, r) <= At(w.base, r) <= g
          && Honest(raw, w.meter.states[r].counters.bytes, g - At(w.base, r))
          && (!Settled(rows, r, w.meter.states[r].windowEnd) ==> Billed(rows, r) + At(w.origin, r) <= At(w.base, r)))
    && (w.scrape.Some? && r in w.scrape.value.counters ==> ScrapeInv(w, w.scrape.value, r))
  }

  predicate ScrapeInv(w: World, s: Scrape, r: string)
    requires r in s.counters
  {
    var read, at := s.counters[r].bytes, At(s.growth, r);
    && at <= At(w.growth, r)
    && Honest(RawAt(w.raw, r).bytes, read, At(w.growth, r) - at)
    && Billed(w.meter.rows, r) + At(w.origin, r) <= at
    && (r in w.meter.states ==>
        At(w.base, r) <= at && Honest(read, w.meter.states[r].counters.bytes, at - At(w.base, r)))
  }

  /** Counters only move with traffic, or drop to zero. */
  predicate ToZero(e: Event) {
    (e.Reset? ==> e.left == 0) && (e.Moved? ==> e.shown.bytes == 0)
  }

  /** What a report changes for one route: a moved baseline is that of the scrape, and so is a first one. */
  lemma Reported(w: World, routes: seq<string>, network: seq<Delivery>, r: string)
    requires w.scrape.Some?
    ensures var s, w' := w.scrape.value, Step(w, Report(routes, network));
            && w'.meter == ReportAll(w.meter, Windows(w.meter.states, s.counters, routes, w.clock), s.counters,
                w.clock, network).0
            && w'.clock == w.clock && w'.growth == w.growth && w'.raw == w.raw && w'.scrape == None
            && (r in w'.origin <==> r in w.origin || r in w'.meter.states)
            && (r in w'.origin ==> w'.origin[r] == if r in w.origin then w.origin[r] else At(s.growth, r))
            && (r in w'.base <==> r in w'.meter.states)
            && (r in w'.base ==>
                  w'.base[r] == if StateOf(w'.meter.states, r) == StateOf(w.meter.states, r) then At(w.base, r)
                      else At(s.growth, r))
  {
    hide ReportAll, Windows;
  }

  lemma ReportKeeps(w: World, routes: seq<string>, network: seq<Delivery>, r: string)
    requires w.scrape.Some? && RouteInv(w, r)
    ensures RouteInv(Step(w, Report(routes, network)), r)
  {
    var s := w.scrape.value;
    var w' := Step(w, Report(routes, network));
    var current := if r in s.counters then s.counters[r] else RawAt(w.raw, r);
    var at := if r in s.counters then At(s.growth, r) else At(w.growth, r);
    var origin := if r in w.origin then w.origin[r] else at;
    var v := View(StateOf(w.meter.states, r), current, w.clock, origin, At(w.base, r), at);
    Reported(w, routes, network, r);
    hide Settled, Before, ReportAll, Windows, Billed, Step;
    PassCovers(w.meter, Windows(w.meter.states, s.counters, routes, w.clock), s.counters, w.clock, network,
        w.meter.states, r, v);
    FreshStart(w'.meter.rows, r, w.clock);
  }

  lemma FreshStart(rows: seq<Window>, route: string, minute: int)
    requires Before(rows, route, minute)
    ensures !Settled(rows, route, minute)
  {}

  /**
   A counter may jump to a value without being billed for the jump: what the probe makes of the value, a
   difference or the value itself if it is smaller, was served since the baseline, and likewise since the
   scrape in progress.
   */
  predicate Harmless(w: World, r: string, bytes: nat) {
    && (r in w.meter.states ==> Honest(bytes, w.meter.states[r].counters.bytes, At(w.growth, r) - At(w.base, r)))
    && (w.scrape.Some? && r in w.scrape.value.counters ==>
          Honest(bytes, w.scrape.value.counters[r].bytes, At(w.growth, r) - At(w.scrape.value.growth, r)))
  }

  /** A jump keeps what is known of a route exactly when it is harmless. */
  lemma MoveKeepsExactly(w: World, r: string, shown: Counters)
    requires RouteInv(w, r)
    ensures RouteInv(Step(w, Moved(r, shown)), r) <==> Harmless(w, r, shown.bytes)
  {
    hide Settled, Before, Billed;
  }

  /** And so does a drop, which is harmless unless it falls below a reading to more than was served since. */
  lemma ResetKeepsExactly(w: World, r: string, left: nat)
    requires RouteInv(w, r) && left <= RawAt(w.raw, r).bytes
    ensures RouteInv(Step(w, Reset(r, left)), r)
       <==> && (r in w.meter.states && left < w.meter.states[r].counters.bytes ==>
                  left <= At(w.growth, r) - At(w.base, r))
            && (w.scrape.Some? && r in w.scrape.value.counters && left < w.scrape.value.counters[r].bytes ==>
                  left <= At(w.growth, r) - At(w.scrape.value.growth, r))
  {
    hide Settled, Before, Billed;
    MoveKeepsExactly(w, r, Counters(left, 0));
  }

  predicate HarmlessFor(w: World, e: Event, r: string) {
    && (e.Reset? && e.route == r && e.left <= RawAt(w.raw, r).bytes ==> Harmless(w, r, e.left))
    && (e.Moved? && e.route == r ==> Harmless(w, r, e.shown.bytes))
  }

  lemma TrafficKeeps(w: World, route: string, bytes: nat, requests: nat, r: string)
    requires RouteInv(w, r)
    ensures RouteInv(Step(w, Traffic(route, bytes, requests)), r)
  {
    hide Settled, Before, Billed;
  }

  /** Events that touch no counter. */
  lemma OtherKeeps(w: World, e: Event, r: string)
    requires RouteInv(w, r) && (e.Tick? || e.Restart? || e.Read?)
    ensures RouteInv(Step(w, e), r)
  {
    hide Settled, Billed;
  }

  lemma MovedElsewhere(w: World, route: string, shown: Counters, r: string)
    requires RouteInv(w, r) && route != r
    ensures RouteInv(Step(w, Moved(route, shown)), r)
  {
    hide Settled, Before, Billed;
  }

  lemma ResetIsMove(w: World, route: string, left: nat)
    ensures Step(w, Reset(route, left))
            == if left <= RawAt(w.raw, route).bytes then Step(w, Moved(route, Counters(left, 0))) else w
  {}

  lemma MoveKeeps(w: World, route: string, shown: Counters, r: string)
    requires RouteInv(w, r) && (route == r ==> Harmless(w, r, shown.bytes))
    ensures RouteInv(Step(w, Moved(route, shown)), r)
  {
    hide RouteInv, Step, Harmless;
    if route == r {
      MoveKeepsExactly(w, r, shown);
    } else {
      MovedElsewhere(w, route, shown, r);
    }
  }

  lemma StepKeeps(w: World, e: Event, r: string)
    requires RouteInv(w, r) && HarmlessFor(w, e, r)
    ensures RouteInv(Step(w, e), r)
  {
    match e
    case Report(routes, network) =>
      if w.scrape.Some? {
        hide RouteInv;
        ReportKeeps(w, routes, network, r);
      }
    case Reset(route, left) =>
      hide RouteInv, Step, Harmless;
      ResetIsMove(w, route, left);
      if left <= RawAt(w.raw, route).bytes {
        MoveKeeps(w, route, Counters(left, 0), r);
      }
    case Moved(route, shown) =>
      hide RouteInv, Step, Harmless;
      MoveKeeps(w, route, shown, r);
    case Traffic(route, bytes, requests) =>
      hide RouteInv, Step;
      TrafficKeeps(w, route, bytes, requests, r);
    case _ =>
      hide RouteInv, Step;
      OtherKeeps(w, e, r);
  }

  /** A drop to zero always is. */
  lemma ZeroIsHarmless(w: World, e: Event, r: string)
    requires RouteInv(w, r) && ToZero(e)
    ensures HarmlessFor(w, e, r)
  {
    hide Settled, Before, Billed;
  }

  lemma {:induction false} RunKeeps(es: seq<Event>, r: string)
    requires forall i :: 0 <= i < |es| ==> ToZero(es[i]) || HarmlessFor(Run(START, es[..i]), es[i], r)
    ensures RouteInv(Run(START, es), r)
    decreases |es|
  {
    if es != [] {
      hide Step, RouteInv, HarmlessFor;
      var n := |es| - 1;
      forall i | 0 <= i < n
        ensures ToZero(es[..n][i]) || HarmlessFor(Run(START, es[..n][..i]), es[..n][i], r)
      {
        assert es[..n][..i] == es[..i];
      }
      RunKeeps(es[..n], r);
      if ToZero(es[n]) {
        ZeroIsHarmless(Run(START, es[..n]), es[n], r);
      }
      StepKeeps(Run(START, es[..n]), es[n], r);
    } else {
      NothingServed(r);
    }
  }

  lemma NothingServed(r: string)
    ensures RouteInv(START, r)
  {}

  /**
   The probe never over-bills: whatever is lost, refused, repeated or restarted, the bytes settled for
   a route never exceed what it has served since its first baseline, as long as its counter drops to
   zero or harmlessly.
   */
  lemma NeverOverBills(es: seq<Event>, r: string)
    requires forall i :: 0 <= i < |es| ==> ToZero(es[i]) || HarmlessFor(Run(START, es[..i]), es[i], r)
    ensures var w := Run(START, es);
            Billed(w.meter.rows, r) <= At(w.growth, r) - At(w.origin, r)
  {
    hide Run;
    RunKeeps(es, r);
  }

  // ---- Nothing is lost either, when nothing goes wrong ----

  /** No jumps of counters, restarts or acknowledgements lost on the way. */
  predicate Clean(e: Event) {
    && !e.Reset? && !e.Moved? && !e.Restart?
    && (e.Report? ==> forall i :: 0 <= i < |e.network| ==> !e.network[i].AckLost?)
  }

  /** A report later, in whole minutes, than the baseline of every route it covers. */
  predicate Later(w: World, e: Event) {
    e.Report? && w.scrape.Some? ==>
      forall r :: r in w.scrape.value.counters && r in w.meter.states ==> w.meter.states[r].windowEnd < w.clock
  }

  predicate Exact(w: World, r: string) {
    && (r in w.origin <==> r in w.meter.states)
    && (r !in w.meter.states ==> r !in w.base && Billed(w.meter.rows, r) == 0)
    && (r in w.meter.states ==>
          && !Settled(w.meter.rows, r, w.meter.states[r].windowEnd)
          && Billed(w.meter.rows, r) + At(w.origin, r) == At(w.base, r)
          && Caught(RawAt(w.raw, r).bytes, w.meter.states[r].counters.bytes, At(w.growth, r) - At(w.base, r)))
    && (w.scrape.Some? && r in w.scrape.value.counters ==>
          && var s := w.scrape.value;
             Caught(RawAt(w.raw, r).bytes, s.counters[r].bytes, At(w.growth, r) - At(s.growth, r))
             && (r in w.meter.states ==>
                 Caught(s.counters[r].bytes, w.meter.states[r].counters.bytes, At(s.growth, r) - At(w.base, r))))
  }

  predicate Caught(raw: nat, read: nat, grownSince: int) {
    raw - read == grownSince >= 0
  }

  /** A pass settles a route's open window exactly when it marks the route. */
  predicate InStep(m: Meter, route: string, v: View, billed: nat) {
    if StateOf(m.states, route) == v.state then
      Billed(m.rows, route) == billed && (v.state.Some? ==> !Settled(m.rows, route, v.state.value.windowEnd))
    else
      && StateOf(m.states, route) == Some(RouteState(v.current, v.minute))
      && Billed(m.rows, route) == billed + Due(v)
      && (Due(v) == 0 || (v.state.Some? && Settled(m.rows, route, v.state.value.windowEnd)))
  }

  function Due(v: View): nat {
    if v.state.Some? then PositiveDelta(v.current.bytes, v.state.value.counters.bytes) else 0
  }

  lemma ReceiveElsewhere(rows: seq<Window>, w: Window, route: string, start: int)
    requires w.route != route
    ensures Billed(Receive(rows, w), route) == Billed(rows, route)
    ensures Settled(Receive(rows, w), route, start) <==> Settled(rows, route, start)
  {
    var rows' := Receive(rows, w);
    if rows' != rows {
      BilledAppend(rows, w, route);
      if Settled(rows, route, start) {
        var i :| 0 <= i < |rows| && rows[i].route == route && rows[i].start == start;
        assert rows'[i] == rows[i];
      }
    }
  }

  /** Delivering a route's window, for the first time or again, keeps the pass in step. */
  lemma DeliveredInStep(m: Meter, route: string, v: View, billed: nat, w: Window)
    requires InStep(m, route, v, billed) && v.state.Some? && v.state.value.windowEnd < v.minute
    requires w == Window(route, Due(v), w.requests, v.state.value.windowEnd, v.minute) && w.bytes > 0
    ensures InStep(Meter(m.states[route := RouteState(v.current, v.minute)], Receive(m.rows, w)), route, v, billed)
  {
    var rows' := Receive(m.rows, w);
    if rows' != m.rows {
      BilledAppend(m.rows, w, route);
      assert rows'[|m.rows|].route == route && rows'[|m.rows|].start == w.start;
    }
  }

  lemma {:induction false} PassInStep(m: Meter, ws: seq<Window>, counters: map<string, Counters>, now: int,
                                      network: seq<Delivery>,
                                      states: map<string, RouteState>, route: string, v: View, billed: nat)
    requires forall w :: w in ws ==> w.route in counters && w == WindowFor(states, w.route, counters[w.route], now)
    requires v.minute == now && v.state == StateOf(states, route)
            && (route in counters ==> v.current == counters[route])
    requires v.state.Some? && route in counters ==> v.state.value.windowEnd < now
    requires forall i :: 0 <= i < |network| ==> !network[i].AckLost?
    requires InStep(m, route, v, billed) && (route !in counters ==> StateOf(m.states, route) == v.state)
    ensures InStep(ReportAll(m, ws, counters, now, network).0, route, v, billed)
    ensures route !in counters ==> StateOf(ReportAll(m, ws, counters, now, network).0.states, route) == v.state
    decreases |ws|
  {
    if ws != [] {
      var w := ws[0];
      assert w in ws;
      ReportStep(m, ws, counters, now, network);
      hide Settled, Billed, Receive, ReportAll, DeliveryAt;
      var d := DeliveryAt(network, 0);
      DeliveryKnown(network);
      var rows := if w.bytes > 0 && d.Arrives() then Receive(m.rows, w) else m.rows;
      var next := Meter(m.states[w.route := RouteState(counters[w.route], now)], rows);
      if w.bytes == 0 || d.Delivered? {
        if w.route != route {
          ReceiveElsewhere(m.rows, w, route, if v.state.Some? then v.state.value.windowEnd else 0);
        } else if w.bytes > 0 {
          DeliveredInStep(m, route, v, billed, w);
        }
        var rest := if w.bytes == 0 || network == [] then network else network[1..];
        PassInStep(next, ws[1..], counters, now, rest, states, route, v, billed);
      }
    }
  }

  lemma DeliveryKnown(network: seq<Delivery>)
    requires forall i :: 0 <= i < |network| ==> !network[i].AckLost?
    ensures !DeliveryAt(network, 0).AckLost?
  {}

  lemma ReportExact(w: World, routes: seq<string>, network: seq<Delivery>, r: string)
    requires w.scrape.Some? && RouteInv(w, r) && Exact(w, r)
    requires Clean(Report(routes, network)) && Later(w, Report(routes, network))
    ensures Exact(Step(w, Report(routes, network)), r)
  {
    var s := w.scrape.value;
    var w' := Step(w, Report(routes, network));
    var current := if r in s.counters then s.counters[r] else RawAt(w.raw, r);
    var at := if r in s.counters then At(s.growth, r) else At(w.growth, r);
    var v := View(StateOf(w.meter.states, r), current, w.clock, At(w.origin, r), At(w.base, r), at);
    var billed := Billed(w.meter.rows, r);
    ReportKeeps(w, routes, network, r);
    FreshStart(w'.meter.rows, r, w.clock);
    Reported(w, routes, network, r);
    hide Settled, Before, ReportAll, Windows, Billed, Step;
    PassInStep(w.meter, Windows(w.meter.states, s.counters, routes, w.clock), s.counters, w.clock, network,
        w.meter.states, r, v, billed);
  }

  lemma StepExact(w: World, e: Event, r: string)
    requires RouteInv(w, r) && Exact(w, r) && Clean(e) && Later(w, e)
    ensures Exact(Step(w, e), r)
  {
    if e.Report? {
      if w.scrape.Some? {
        ReportExact(w, e.routes, e.network, r);
      }
    } else {
      hide Settled;
    }
  }

  /**
   Without resets, restarts and lost acknowledgements, and with every report in a later minute than the
   baseline, all of the growth between a route's first and latest baseline is billed, whatever reports
   were lost or refused on the way.
   */
  lemma {:induction false} NothingIsLost(es: seq<Event>, r: string)
    requires forall i :: 0 <= i < |es| ==> Clean(es[i]) && Later(Run(START, es[..i]), es[i])
    ensures Exact(Run(START, es), r)
    ensures Billed(Run(START, es).meter.rows, r) == At(Run(START, es).base, r) - At(Run(START, es).origin, r)
    decreases |es|
  {
    if es != [] {
      hide Step, Later, Clean, RouteInv, Settled, Caught;
      var n := |es| - 1;
      forall i | 0 <= i < n ensures Clean(es[..n][i]) && Later(Run(START, es[..n][..i]), es[..n][i]) {
        assert es[..n][..i] == es[..i];
      }
      NothingIsLost(es[..n], r);
      RunKeeps(es[..n], r);
      StepExact(Run(START, es[..n]), es[n], r);
    }
  }

  // ---- Why a counter must restart from zero ----

  lemma RunSnoc(w: World, es: seq<Event>, e: Event)
    ensures Run(w, es + [e]) == Step(Run(w, es), e)
  {
    assert (es + [e])[..|es|] == es;
  }

  /** A baseline, then a counter that drops to a remainder instead of zero, then one more scrape. */
  function PartialReset(left: nat): seq<Event> {
    [ Traffic("r", left + 1, 0), Read({"r"}), Report(["r"], []), Tick(1), Reset("r", left),
      Read({"r"}), Report(["r"], [Delivered]) ]
  }

  lemma PassOverOne(m: Meter, r: string, c: Counters, now: int, network: seq<Delivery>)
    ensures var w := WindowFor(m.states, r, c, now);
            var mark := m.states[r := RouteState(c, now)];
            Pass(m, [r], map[r := c], now, network).0
            == if w.bytes == 0 then m.(states := mark)
               else if DeliveryAt(network, 0).Delivered? then Meter(mark, Receive(m.rows, w))
               else if DeliveryAt(network, 0).AckLost? then m.(rows := Receive(m.rows, w)) else m
  {
    hide Receive, PositiveDelta;
    var counters, w := map[r := c], WindowFor(m.states, r, c, now);
    assert [r][..0] == [];
    assert Windows(m.states, counters, [], now) == [];
    assert Windows(m.states, counters, [r], now) == [] + [w] == [w];
    assert [w][1..] == [];
    ReportOne(m, w, counters, now, network);
  }

  lemma ReportOne(m: Meter, w: Window, counters: map<string, Counters>, now: int, network: seq<Delivery>)
    requires w.route in counters
    ensures var mark := m.states[w.route := RouteState(counters[w.route], now)];
            ReportAll(m, [w], counters, now, network).0
            == if w.bytes == 0 then m.(states := mark)
               else if DeliveryAt(network, 0).Delivered? then Meter(mark, Receive(m.rows, w))
               else if DeliveryAt(network, 0).AckLost? then m.(rows := Receive(m.rows, w)) else m
  {
    hide Receive;
    var mark := m.states[w.route := RouteState(counters[w.route], now)];
    var rest := if network == [] then [] else network[1..];
    assert [w][1..] == [];
    assert ReportAll(m.(states := mark), [], counters, now, network) == (m.(states := mark), true);
    assert ReportAll(Meter(mark, Receive(m.rows, w)), [], counters, now, rest)
        == (Meter(mark, Receive(m.rows, w)), true);
  }

  /** Reading one route and reporting it at once. */
  lemma ScrapeOne(w: World, r: string, network: seq<Delivery>)
    ensures var w' := Step(Step(w, Read({r})), Report([r], network));
            && w'.meter == Pass(w.meter, [r], map[r := RawAt(w.raw, r)], w.clock, network).0
            && w'.clock == w.clock && w'.growth == w.growth && w'.raw == w.raw
            && (r in w.origin ==> At(w'.origin, r) == At(w.origin, r))
            && (r !in w.origin && r in w'.meter.states ==> At(w'.origin, r) == At(w.growth, r))
  {
    hide Pass;
    var read := Step(w, Read({r}));
    assert read.scrape.value.counters == map[r := RawAt(w.raw, r)];
  }

  lemma PartialResetOverBills(left: nat)
    requires left > 0
    ensures Billed(Run(START, PartialReset(left)).meter.rows, "r") == left
    ensures At(Run(START, PartialReset(left)).growth, "r") == At(Run(START, PartialReset(left)).origin, "r")
  {
    hide Step, Pass, Receive, WindowFor;
    var r := "r";
    var traffic, read, first, tick, reset, second :=
      Traffic(r, left + 1, 0), Read({r}), Report([r], []), Tick(1), Reset(r, left), Report([r], [Delivered]);
    var w1 := Step(START, traffic);
    var w2 := Step(Step(w1, read), first);
    var w3 := Step(Step(w2, tick), reset);
    var w4 := Step(Step(w3, read), second);
    RunIsSteps(left);
    TrafficStarts(left);
    ScrapeOne(w1, r, []);
    PassOverOne(w1.meter, r, Counters(left + 1, 0), 0, []);
    EmptyWindow(map[], r, Counters(left + 1, 0), 0);
    assert w2.meter == Meter(map[r := RouteState(Counters(left + 1, 0), 0)], []);
    DropSteps(w2, r, left);
    ScrapeOne(w3, r, [Delivered]);
    PassOverOne(w3.meter, r, Counters(left, 0), 1, [Delivered]);
    OverWindow(w3.meter.states, r, left);
    assert At(w4.origin, r) == left + 1 == At(w4.growth, r);
  }

  lemma RunIsSteps(left: nat)
    ensures Run(START, PartialReset(left))
         == Step(Step(Step(Step(Step(Step(Step(START, Traffic("r", left + 1, 0)), Read({"r"})), Report(["r"], [])),
                                Tick(1)), Reset("r", left)), Read({"r"})), Report(["r"], [Delivered]))
  {
    hide Step, Run;
    RunNothing(START);
    var e0, e1, e2, e3, e4, e5, e6 :=
      Traffic("r", left + 1, 0), Read({"r"}), Report(["r"], []), Tick(1), Reset("r", left), Read({"r"}),
          Report(["r"], [Delivered]);
    RunSnoc(START, [], e0);
    RunSnoc(START, [e0], e1);
    RunSnoc(START, [e0, e1], e2);
    RunSnoc(START, [e0, e1, e2], e3);
    RunSnoc(START, [e0, e1, e2, e3], e4);
    RunSnoc(START, [e0, e1, e2, e3, e4], e5);
    RunSnoc(START, [e0, e1, e2, e3, e4, e5], e6);
    assert [] + [e0] == [e0] && [e0] + [e1] == [e0, e1] && [e0, e1] + [e2] == [e0, e1, e2];
    assert [e0, e1, e2] + [e3] == [e0, e1, e2, e3] && [e0, e1, e2, e3] + [e4] == [e0, e1, e2, e3, e4];
    assert [e0, e1, e2, e3, e4] + [e5] == [e0, e1, e2, e3, e4, e5];
    assert [e0, e1, e2, e3, e4, e5] + [e6] == PartialReset(left);
  }

  lemma RunNothing(w: World)
    ensures Run(w, []) == w
  {}

  lemma TrafficStarts(left: nat)
    ensures var w := Step(START, Traffic("r", left + 1, 0));
            && w.meter == START.meter && w.clock == 0 && w.origin == map[]
            && w.growth == map["r" := left + 1] && w.raw == map["r" := Counters(left + 1, 0)]
  {}

  lemma EmptyWindow(states: map<string, RouteState>, r: string, c: Counters, now: int)
    requires r !in states
    ensures WindowFor(states, r, c, now).bytes == 0
  {}

  lemma MoveSteps(w: World, r: string, shown: Counters)
    ensures var w' := Step(Step(w, Moved(r, shown)), Tick(1));
            && w'.meter == w.meter && w'.clock == w.clock + 1 && w'.growth == w.growth && w'.origin == w.origin
            && RawAt(w'.raw, r) == shown
  {}

  lemma DropSteps(w: World, r: string, left: nat)
    requires RawAt(w.raw, r).bytes >= left
    ensures var w' := Step(Step(w, Tick(1)), Reset(r, left));
            && w'.meter == w.meter && w'.clock == w.clock + 1 && w'.growth == w.growth && w'.origin == w.origin
            && RawAt(w'.raw, r) == Counters(left, 0)
  {}

  lemma OverWindow(states: map<string, RouteState>, r: string, left: nat)
    requires left > 0 && states == map[r := RouteState(Counters(left + 1, 0), 0)]
    ensures var w := WindowFor(states, r, Counters(left, 0), 1);
            w.bytes == left && Billed(Receive([], w), r) == left
  {
    var w := WindowFor(states, r, Counters(left, 0), 1);
    assert Receive([], w) == [] + [w];
    BilledAppend([], w, r);
  }

  /** A jump, and a scrape in the next minute that gets through. */
  function AfterMove(w: World, r: string, shown: Counters): World {
    Step(Step(Step(Step(w, Moved(r, shown)), Tick(1)), Read({r})), Report([r], [Delivered]))
  }

  /**
   When all growth up to the baseline is billed, the next scrape over-bills exactly after a jump, up or down,
   that is not harmless.
   */
  lemma MoveBillsExactly(w: World, r: string, shown: Counters)
    requires RouteInv(w, r) && Exact(w, r) && r in w.meter.states && w.scrape == None
    ensures var w' := AfterMove(w, r, shown);
            Billed(w'.meter.rows, r) <= At(w'.growth, r) - At(w'.origin, r) <==> Harmless(w, r, shown.bytes)
  {
    var moved := Step(Step(w, Moved(r, shown)), Tick(1));
    MoveSteps(w, r, shown);
    hide Step, Pass, Receive, Settled, Before, Billed;
    ScrapeOne(moved, r, [Delivered]);
    PassOverOne(moved.meter, r, RawAt(moved.raw, r), moved.clock, [Delivered]);
    var window := WindowFor(w.meter.states, r, RawAt(moved.raw, r), moved.clock);
    assert AfterMove(w, r, shown).meter.rows
        == if window.bytes == 0 then w.meter.rows else Receive(w.meter.rows, window);
    if window.bytes > 0 {
      FreshWindow(w.meter.rows, window, r);
    }
  }

  /** For a drop, the same. */
  function AfterDrop(w: World, r: string, left: nat): World {
    Step(Step(Step(Step(w, Reset(r, left)), Tick(1)), Read({r})), Report([r], [Delivered]))
  }

  lemma DropBillsExactly(w: World, r: string, left: nat)
    requires RouteInv(w, r) && Exact(w, r) && r in w.meter.states && left <= RawAt(w.raw, r).bytes && w.scrape == None
    ensures var w' := AfterDrop(w, r, left);
            Billed(w'.meter.rows, r) <= At(w'.growth, r) - At(w'.origin, r) <==> Harmless(w, r, left)
  {
    assert Step(w, Reset(r, left)) == Step(w, Moved(r, Counters(left, 0)));
    hide Step, RouteInv, Exact, Harmless;
    MoveBillsExactly(w, r, Counters(left, 0));
  }

  lemma FreshWindow(rows: seq<Window>, w: Window, r: string)
    requires w.route == r && w.bytes > 0 && w.start < w.end && !Settled(rows, r, w.start)
    ensures Billed(Receive(rows, w), r) == Billed(rows, r) + w.bytes
  {
    BilledAppend(rows, w, r);
  }

  /** Runs whose counters drop to the same remainder whenever they drop. */
  predicate DropsTo(e: Event, left: nat) {
    (e.Reset? ==> e.left == left) && !e.Moved?
  }

  lemma DropsToZero(es: seq<Event>)
    requires forall e :: e in es ==> DropsTo(e, 0)
    ensures forall i :: 0 <= i < |es| ==> ToZero(es[i])
  {
    forall i | 0 <= i < |es|
      ensures ToZero(es[i])
    {
      assert es[i] in es;
    }
  }

  /** Metering is safe for every run with such drops exactly when the remainder is zero. */
  lemma SafeExactlyWhenResetToZero(left: nat)
    ensures (forall es: seq<Event>, r: string :: (forall e :: e in es ==> DropsTo(e, left)) ==>
               Billed(Run(START, es).meter.rows, r) <= At(Run(START, es).growth, r) - At(Run(START, es).origin, r))
            <==> left == 0
  {
    if left == 0 {
      forall es: seq<Event>, r: string | forall e :: e in es ==> DropsTo(e, left)
        ensures Billed(Run(START, es).meter.rows, r) <= At(Run(START, es).growth, r) - At(Run(START, es).origin, r)
      {
        DropsToZero(es);
        NeverOverBills(es, r);
      }
    } else {
      PartialResetOverBills(left);
    }
  }
}
