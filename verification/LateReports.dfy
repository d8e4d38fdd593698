/**
 Reports that outlive the pass that sent them: a request the probe has given up on may still be settled
 after any number of later scrapes, refreshes and restarts.
 */
module LateReports {
  import opened Wrappers
  import opened Sums
  import opened GatewayProbe
  import opened GatewayRuns

  /** A window that was sent, and the true growth at its baseline and at its scrape. */
  datatype Sent = Sent(window: Window, from: nat, upTo: nat)

  datatype Story = Story(w: World, sent: set<Sent>)

  datatype Turn =
    | Now(e: Event)
    | Arrives(x: Sent)

  /** The windows a pass sends: all with bytes, up to the first that is not acknowledged. */
  function SentBy(ws: seq<Window>, network: seq<Delivery>): seq<Window>
    decreases |ws|
  {
    if ws == [] then []
    else if ws[0].bytes == 0 then SentBy(ws[1..], network)
    else if DeliveryAt(network, 0).Delivered? then
      [ws[0]] + SentBy(ws[1..], if network == [] then [] else network[1..])
    else [ws[0]]
  }

  function Sending(w: World, routes: seq<string>, network: seq<Delivery>): set<Sent> {
    if w.scrape.None? then {} else
    var s := w.scrape.value;
    set x | x in SentBy(Windows(w.meter.states, s.counters, routes, w.clock), network) ::
      Sent(x, At(w.base, x.route), At(s.growth, x.route))
  }

  function Next(story: Story, turn: Turn): Story {
    match turn
    case Now(e) =>
      Story(Step(story.w, e), story.sent + if e.Report? then Sending(story.w, e.routes, e.network) else {})
    case Arrives(x) =>
      if x !in story.sent then story
      else story.(w := story.w.(meter := story.w.meter.(rows := Receive(story.w.meter.rows, x.window))))
  }

  function Tell(turns: seq<Turn>): Story
    decreases |turns|
  {
    if turns == [] then Story(START, {}) else Next(Tell(turns[..|turns| - 1]), turns[|turns| - 1])
  }

  // ---- What was sent covers separate stretches of growth ----

  predicate Of(x: Sent, r: string) {
    x.window.route == r
  }

  /** Windows of one period have the same baseline; those of a later period start where earlier ones end, or later. */
  ghost predicate Separate(sent: set<Sent>, r: string) {
    forall x, y :: x in sent && y in sent && Of(x, r) && Of(y, r) && x.window.start < y.window.start ==>
      x.upTo <= y.from
  }

  ghost predicate Spanned(story: Story, r: string) {
    var w := story.w;
    forall x :: x in story.sent && Of(x, r) ==>
      && r in w.origin && At(w.origin, r) <= x.from && x.from + x.window.bytes <= x.upTo <= At(w.growth, r)
      && x.window.start < w.clock
      && (w.scrape.Some? ==> x.upTo <= At(w.scrape.value.growth, r))
  }

  ghost predicate BaselineInv(story: Story, r: string) {
    var w := story.w;
    r in w.meter.states ==>
      var state := w.meter.states[r];
      && r in w.origin && state.windowEnd <= w.clock && At(w.origin, r) <= At(w.base, r) <= At(w.growth, r)
      && Honest(RawAt(w.raw, r).bytes, state.counters.bytes, At(w.growth, r) - At(w.base, r))
      && (w.scrape.Some? ==> At(w.base, r) <= At(w.scrape.value.growth, r))
      && (w.scrape.Some? && r in w.scrape.value.counters ==>
            Honest(w.scrape.value.counters[r].bytes, state.counters.bytes,
                   At(w.scrape.value.growth, r) - At(w.base, r)))
      && forall x :: x in story.sent && Of(x, r) ==>
           if x.window.start < state.windowEnd then x.upTo <= At(w.base, r)
           else x.window.start == state.windowEnd && x.from == At(w.base, r)
  }

  predicate ReadingInv(w: World, r: string) {
    w.scrape.Some? ==>
      && At(w.scrape.value.growth, r) <= At(w.growth, r)
      && (r in w.origin ==> At(w.origin, r) <= At(w.scrape.value.growth, r))
      && (r in w.scrape.value.counters ==>
            Honest(RawAt(w.raw, r).bytes, w.scrape.value.counters[r].bytes,
                   At(w.growth, r) - At(w.scrape.value.growth, r)))
  }

  /** Settled windows were sent, and no two of a route have the same start. */
  ghost predicate RowsInv(rows: seq<Window>, sent: set<Sent>, r: string) {
    && (forall i :: 0 <= i < |rows| && rows[i].route == r ==> WasSent(rows[i], sent))
    && (forall i, j :: 0 <= i < j < |rows| && rows[i].route == rows[j].route == r ==> rows[i].start != rows[j].start)
  }

  ghost predicate WasSent(window: Window, sent: set<Sent>) {
    exists x :: x in sent && x.window == window
  }

  ghost predicate StoryInv(story: Story, r: string) {
    && Separate(story.sent, r) && Spanned(story, r) && BaselineInv(story, r) && ReadingInv(story.w, r)
    && RowsInv(story.w.meter.rows, story.sent, r)
    && (r in story.w.origin ==> At(story.w.origin, r) <= At(story.w.growth, r))
  }

  // ---- Separate stretches add up to no more than the whole ----

  function BytesOf(): Window -> nat {
    (w: Window) => w.bytes
  }

  function RowSet(rows: seq<Window>, r: string): set<Window> {
    set i | 0 <= i < |rows| && rows[i].route == r :: rows[i]
  }

  lemma {:induction false} BilledIsSum(rows: seq<Window>, r: string)
    requires forall i, j :: 0 <= i < j < |rows| && rows[i].route == rows[j].route == r ==>
               rows[i].start != rows[j].start
    ensures Billed(rows, r) == SumOver(RowSet(rows, r), BytesOf())
    decreases |rows|
  {
    if rows != [] {
      var n := |rows| - 1;
      BilledIsSum(rows[..n], r);
      var before := RowSet(rows[..n], r);
      if rows[n].route == r {
        assert rows[n] !in before;
        assert RowSet(rows, r) == before + {rows[n]};
        SumSplit(before + {rows[n]}, rows[n], BytesOf());
        assert before + {rows[n]} - {rows[n]} == before;
      } else {
        assert RowSet(rows, r) == before;
      }
    }
  }

  predicate Fits(x: Sent, lo: nat, hi: nat) {
    lo <= x.from && x.from + x.window.bytes <= x.upTo <= hi
  }

  lemma LatestWindow(windows: set<Window>) returns (last: Window)
    requires windows != {}
    ensures last in windows && forall w :: w in windows ==> w.start <= last.start
    decreases |windows|
  {
    last :| last in windows;
    if windows != {last} {
      var rest := LatestWindow(windows - {last});
      if rest.start > last.start {
        last := rest;
      }
    }
  }

  lemma {:induction false} SeparateSum(windows: set<Window>, sent: set<Sent>, r: string, lo: nat, hi: nat)
    requires Separate(sent, r) && lo <= hi
    requires forall w :: w in windows ==> w.route == r && exists x :: x in sent && x.window == w && Fits(x, lo, hi)
    requires forall v, w :: v in windows && w in windows && v != w ==> v.start != w.start
    ensures SumOver(windows, BytesOf()) <= hi - lo
    decreases |windows|
  {
    if windows != {} {
      var last := LatestWindow(windows);
      var x :| x in sent && x.window == last && Fits(x, lo, hi);
      var rest := windows - {last};
      forall w | w in rest
        ensures exists y :: y in sent && y.window == w && Fits(y, lo, x.from)
      {
        var y :| y in sent && y.window == w && Fits(y, lo, hi);
        assert Of(x, r) && Of(y, r) && w.start < last.start;
        assert Fits(y, lo, x.from);
      }
      SeparateSum(rest, sent, r, lo, x.from);
      SumSplit(windows, last, BytesOf());
    }
  }

  /** The invariant bounds what is billed. */
  lemma BilledIsCovered(story: Story, r: string)
    requires StoryInv(story, r)
    ensures Billed(story.w.meter.rows, r) <= At(story.w.growth, r) - At(story.w.origin, r)
  {
    hide Honest, Billed;
    var w := story.w;
    BilledIsSum(w.meter.rows, r);
    var windows := RowSet(w.meter.rows, r);
    forall x | x in windows
      ensures exists y :: y in story.sent && y.window == x && Fits(y, At(w.origin, r), At(w.growth, r))
    {
      var i :| 0 <= i < |w.meter.rows| && w.meter.rows[i].route == r && w.meter.rows[i] == x;
      assert WasSent(w.meter.rows[i], story.sent);
      var y :| y in story.sent && y.window == x;
      assert Of(y, r);
      assert Fits(y, At(w.origin, r), At(w.growth, r));
    }
    SeparateSum(windows, story.sent, r, At(w.origin, r), At(w.growth, r));
  }

  // ---- Every turn keeps the invariant ----

  lemma ReceiveKeeps(rows: seq<Window>, sent: set<Sent>, r: string, w: Window)
    requires RowsInv(rows, sent, r) && WasSent(w, sent)
    ensures RowsInv(Receive(rows, w), sent, r)
  {
    var rows' := Receive(rows, w);
    if rows' != rows {
      forall i, j | 0 <= i < j < |rows'| && rows'[i].route == rows'[j].route == r
        ensures rows'[i].start != rows'[j].start
      {
        assert rows'[i] == rows[i];
      }
    }
  }

  lemma ArrivalKeeps(story: Story, x: Sent, r: string)
    requires StoryInv(story, r)
    ensures StoryInv(Next(story, Arrives(x)), r)
  {
    hide RowsInv, Honest, Receive;
    if x in story.sent {
      ReceiveKeeps(story.w.meter.rows, story.sent, r, x.window);
    }
  }

  lemma EventKeeps(story: Story, e: Event, r: string)
    requires StoryInv(story, r) && !e.Report? && HarmlessFor(story.w, e, r)
    ensures StoryInv(Next(story, Now(e)), r)
  {
    hide RowsInv, Separate, Honest;
    assert story.sent + {} == story.sent;
    EventIsHonest(story.w, e, r);
    SameIsHonest(RawAt(story.w.raw, r).bytes);
  }

  lemma SameIsHonest(raw: nat)
    ensures Honest(raw, raw, 0)
  {}

  /** Every reading stays honest when counters move with traffic or harmlessly. */
  lemma EventIsHonest(w: World, e: Event, r: string)
    requires !e.Report? && HarmlessFor(w, e, r)
    ensures var raw, raw', served := RawAt(w.raw, r).bytes, RawAt(Step(w, e).raw, r).bytes,
                                     At(Step(w, e).growth, r) - At(w.growth, r);
            && served >= 0
            && (r in w.meter.states ==>
                  var read, since := w.meter.states[r].counters.bytes, At(w.growth, r) - At(w.base, r);
                  Honest(raw, read, since) ==> Honest(raw', read, since + served))
            && (w.scrape.Some? && r in w.scrape.value.counters ==>
                  var s := w.scrape.value;
                  Honest(raw, s.counters[r].bytes, At(w.growth, r) - At(s.growth, r)) ==>
                  Honest(raw', s.counters[r].bytes, At(w.growth, r) - At(s.growth, r) + served))
  {}

  /** What a pass leaves behind for a route: its baseline as it was, or that of the scrape. */
  lemma {:induction false} PassMarks(m: Meter, ws: seq<Window>, counters: map<string, Counters>, now: int,
                                     network: seq<Delivery>, r: string)
    requires forall w :: w in ws ==> w.route in counters
    ensures var m' := ReportAll(m, ws, counters, now, network).0;
            StateOf(m'.states, r) == StateOf(m.states, r)
            || (r in counters && StateOf(m'.states, r) == Some(RouteState(counters[r], now)))
    decreases |ws|
  {
    if ws != [] {
      var w := ws[0];
      assert w in ws;
      ReportStep(m, ws, counters, now, network);
      hide ReportAll, Receive, DeliveryAt;
      var rows := if w.bytes > 0 && DeliveryAt(network, 0).Arrives() then Receive(m.rows, w) else m.rows;
      if w.bytes == 0 || DeliveryAt(network, 0).Delivered? {
        PassMarks(Meter(m.states[w.route := RouteState(counters[w.route], now)], rows), ws[1..], counters, now,
                  if w.bytes == 0 || network == [] then network else network[1..], r);
      }
    }
  }

  /** And it settles only what it sends. */
  lemma {:induction false} PassSettlesSent(m: Meter, ws: seq<Window>, counters: map<string, Counters>, now: int,
                                           network: seq<Delivery>, sent: set<Sent>, r: string)
    requires forall w :: w in ws ==> w.route in counters
    requires forall w :: w in SentBy(ws, network) ==> WasSent(w, sent)
    requires RowsInv(m.rows, sent, r)
    ensures RowsInv(ReportAll(m, ws, counters, now, network).0.rows, sent, r)
    decreases |ws|
  {
    if ws != [] {
      var w := ws[0];
      assert w in ws;
      ReportStep(m, ws, counters, now, network);
      hide ReportAll, Receive, DeliveryAt, RowsInv, WasSent;
      if w.bytes > 0 {
        assert w in SentBy(ws, network);
        ReceiveKeeps(m.rows, sent, r, w);
      }
      var rows := if w.bytes > 0 && DeliveryAt(network, 0).Arrives() then Receive(m.rows, w) else m.rows;
      var rest := if w.bytes == 0 || network == [] then network else network[1..];
      if w.bytes == 0 || DeliveryAt(network, 0).Delivered? {
        assert forall x :: x in SentBy(ws[1..], rest) ==> x in SentBy(ws, network);
        PassSettlesSent(Meter(m.states[w.route := RouteState(counters[w.route], now)], rows), ws[1..], counters, now,
                        rest, sent, r);
      }
    }
  }

  lemma {:induction false} SentAreWindows(ws: seq<Window>, network: seq<Delivery>)
    ensures forall w :: w in SentBy(ws, network) ==> w in ws && w.bytes > 0
    decreases |ws|
  {
    if ws != [] {
      hide DeliveryAt;
      assert ws[0] in ws && forall w :: w in ws[1..] ==> w in ws;
      SentAreWindows(ws[1..], network);
      SentAreWindows(ws[1..], if network == [] then [] else network[1..]);
    }
  }

  /** What a pass sends for a route starts at its baseline and covers no more than was served since. */
  lemma SendingFits(w: World, routes: seq<string>, network: seq<Delivery>, x: Sent, r: string)
    requires x in Sending(w, routes, network) && Of(x, r)
    ensures w.scrape.Some? && r in w.scrape.value.counters && r in w.meter.states
    ensures var s, state := w.scrape.value, w.meter.states[r];
            && x.from == At(w.base, r) && x.upTo == At(s.growth, r)
            && x.window.start == state.windowEnd < w.clock
            && x.window.bytes == PositiveDelta(s.counters[r].bytes, state.counters.bytes)
  {
    var s := w.scrape.value;
    SentAreWindows(Windows(w.meter.states, s.counters, routes, w.clock), network);
    hide Windows, SentBy;
  }

  lemma ReportKeepsSpans(story: Story, routes: seq<string>, network: seq<Delivery>, r: string)
    requires StoryInv(story, r) && story.w.scrape.Some?
    ensures var next := Next(story, Now(Report(routes, network)));
            Separate(next.sent, r) && Spanned(next, r)
  {
    hide RowsInv, Sending, Step;
    var sending := Sending(story.w, routes, network);
    Reported(story.w, routes, network, r);
    forall x | x in sending && Of(x, r)
      ensures x.from == At(story.w.base, r) && x.upTo == At(story.w.scrape.value.growth, r)
      ensures r in story.w.meter.states && x.window.start == story.w.meter.states[r].windowEnd < story.w.clock
      ensures x.from + x.window.bytes <= x.upTo
    {
      SendingFits(story.w, routes, network, x, r);
    }
  }

  lemma ReportKeepsBaseline(story: Story, routes: seq<string>, network: seq<Delivery>, r: string)
    requires StoryInv(story, r) && story.w.scrape.Some?
    ensures var next := Next(story, Now(Report(routes, network)));
            && BaselineInv(next, r) && ReadingInv(next.w, r)
            && (r in next.w.origin ==> At(next.w.origin, r) <= At(next.w.growth, r))
  {
    hide RowsInv, Separate, Sending, Step, ReportAll, Windows;
    var w := story.w;
    var s, sending := w.scrape.value, Sending(w, routes, network);
    Reported(w, routes, network, r);
    PassMarks(w.meter, Windows(w.meter.states, s.counters, routes, w.clock), s.counters, w.clock, network, r);
    forall x | x in sending && Of(x, r)
      ensures x.from == At(w.base, r) && x.upTo == At(s.growth, r)
      ensures r in w.meter.states && x.window.start == w.meter.states[r].windowEnd < w.clock
    {
      SendingFits(w, routes, network, x, r);
    }
  }

  lemma ReportKeepsRows(story: Story, routes: seq<string>, network: seq<Delivery>, r: string)
    requires StoryInv(story, r) && story.w.scrape.Some?
    ensures var next := Next(story, Now(Report(routes, network)));
            RowsInv(next.w.meter.rows, next.sent, r)
  {
    hide Step, ReportAll, Windows, Honest, SentBy;
    var w := story.w;
    var s, sent := w.scrape.value, story.sent + Sending(w, routes, network);
    var ws := Windows(w.meter.states, s.counters, routes, w.clock);
    Reported(w, routes, network, r);
    forall x | x in SentBy(ws, network)
      ensures WasSent(x, sent)
    {
      assert Sent(x, At(w.base, x.route), At(s.growth, x.route)) in sent;
    }
    forall i | 0 <= i < |w.meter.rows| && w.meter.rows[i].route == r
      ensures WasSent(w.meter.rows[i], sent)
    {
      assert WasSent(w.meter.rows[i], story.sent);
    }
    PassSettlesSent(w.meter, ws, s.counters, w.clock, network, sent, r);
  }

  lemma TurnKeeps(story: Story, turn: Turn, r: string)
    requires StoryInv(story, r) && (turn.Now? ==> HarmlessFor(story.w, turn.e, r))
    ensures StoryInv(Next(story, turn), r)
  {
    hide Separate, Spanned, BaselineInv, ReadingInv, RowsInv, HarmlessFor;
    match turn
    case Arrives(x) => ArrivalKeeps(story, x, r);
    case Now(e) =>
      if e.Report? && story.w.scrape.Some? {
        ReportKeepsSpans(story, e.routes, e.network, r);
        ReportKeepsBaseline(story, e.routes, e.network, r);
        ReportKeepsRows(story, e.routes, e.network, r);
      } else if e.Report? {
        assert story.sent + {} == story.sent;
      } else {
        EventKeeps(story, e, r);
      }
  }

  /** Whether counters move only with traffic, to zero, or harmlessly. */
  predicate Tame(w: World, turn: Turn, r: string) {
    turn.Now? ==> ToZero(turn.e) || HarmlessFor(w, turn.e, r)
  }

  lemma ZeroIsTame(story: Story, e: Event, r: string)
    requires StoryInv(story, r) && ToZero(e)
    ensures HarmlessFor(story.w, e, r)
  {
    hide RowsInv, Separate, Spanned;
  }

  lemma {:induction false} TellKeeps(turns: seq<Turn>, r: string)
    requires forall i :: 0 <= i < |turns| ==> Tame(Tell(turns[..i]).w, turns[i], r)
    ensures StoryInv(Tell(turns), r)
    decreases |turns|
  {
    if turns == [] {
      NothingSent(r);
    } else {
      hide Next, StoryInv, HarmlessFor;
      var n := |turns| - 1;
      forall i | 0 <= i < n
        ensures Tame(Tell(turns[..n][..i]).w, turns[..n][i], r)
      {
        assert turns[..n][..i] == turns[..i];
      }
      TellKeeps(turns[..n], r);
      if turns[n].Now? && ToZero(turns[n].e) {
        ZeroIsTame(Tell(turns[..n]), turns[n].e, r);
      }
      TurnKeeps(Tell(turns[..n]), turns[n], r);
    }
  }

  lemma NothingSent(r: string)
    ensures StoryInv(Story(START, {}), r)
  {}

  /**
   The probe never over-bills although any report may still be settled at any later time, once or more
   often, after its pass, its baseline and even its probe are gone.
   */
  lemma NeverOverBillsLate(turns: seq<Turn>, r: string)
    requires forall i :: 0 <= i < |turns| ==> Tame(Tell(turns[..i]).w, turns[i], r)
    ensures var w := Tell(turns).w;
            Billed(w.meter.rows, r) <= At(w.growth, r) - At(w.origin, r)
  {
    hide Tell, StoryInv, Tame;
    TellKeeps(turns, r);
    BilledIsCovered(Tell(turns), r);
  }
}
