/** Gateway traffic in the ledger: settled windows and their billing records correspond one for one, over every run. */
module GatewayBooks {
  import opened Wrappers
  import opened Calendar
  import opened Credits
  import opened Selections
  import opened Ledger
  import opened LedgerInvariants
  import opened AIUsage
  import opened BillingRuns
  import opened BillingTheorems
  import opened Payments
  import opened Replays
  import opened GatewayProbe
  import opened GatewayBilling
  import opened Payers

  /** A settled window with the project it was billed to, as it was then, and the rate. */
  datatype Charge = Charge(window: Window, projectId: string, project: Project, rate: real)

  /** The billing system, the settled windows as the probe's server sees them, and what each was billed at. */
  datatype Books = Books(world: World, rows: seq<Window>, charges: seq<Charge>)

  /** A reported window that passes the handler, or any event of the billing system. */
  datatype Entry =
    | Traffic(w: Window, route: Route, rate: Option<real>, projects: map<string, Project>)
    | Other(e: Event)

  predicate IsGateway(row: UsageRow) {
    row.key.resourceType == GATEWAY_ROUTE
  }

  /** Nothing else bills under gateway keys. */
  predicate Apart(e: Event) {
    e.DebitBatch? ==> forall u :: u in e.us ==> u.key.resourceType != GATEWAY_ROUTE
  }

  /** What the handler and the settlement check before anything is billed. */
  predicate Billable(entry: Entry)
    requires entry.Traffic?
  {
    && entry.route.id == entry.w.route && entry.route.id != "" && entry.route.projectId != ""
    && entry.w.bytes > 0 && 0 <= entry.w.start < entry.w.end
  }

  ghost function Post(books: Books, entry: Entry): Books {
    match entry
    case Other(e) => books.(world := Step(books.world, e))
    case Traffic(w, route, rate, projects) =>
      if !Billable(entry) then books else
      var (t', error) := SettleWindow(books.world.t, w, route, rate, projects);
      Books(books.world.(t := t'), if Acknowledged(error) then Receive(books.rows, w) else books.rows,
            if error == None && route.projectId in projects
            then books.charges + [Charge(w, route.projectId, projects[route.projectId], rate.value)]
            else books.charges)
  }

  ghost function Posted(entries: seq<Entry>): Books
    decreases |entries|
  {
    if entries == [] then Books(EMPTY, [], []) else Post(Posted(entries[..|entries| - 1]), entries[|entries| - 1])
  }

  function Itself(row: UsageRow): UsageRow {
    row
  }

  /** The records of gateway traffic. */
  function GatewayRows(t: Tables): seq<UsageRow> {
    Selections.Select(t.rows, IsGateway, Itself)
  }

  /** The record bills the window to whoever pays for the project, at its rate, rounded. */
  predicate Bills(row: UsageRow, c: Charge) {
    && c.window.start >= 0
    && row.key == UsageKey("gateway_route", c.window.route + ":" + Stamp(c.window.start), "gateway.egress_gib")
    && row.projectId == c.projectId
    && row.amount == Round(c.window.bytes as real / 1073741824.0 * c.rate)
    && BilledTo(c.project, row.billedUser)
  }

  ghost predicate OneForOne(books: Books) {
    && |books.rows| == |books.charges| == |GatewayRows(books.world.t)|
    && (forall i :: 0 <= i < |books.rows| ==> books.rows[i] == books.charges[i].window)
    && (forall i :: 0 <= i < |books.rows| ==> Bills(GatewayRows(books.world.t)[i], books.charges[i]))
  }

  ghost predicate BooksInv(books: Books) {
    WorldInv(books.world, AllRounded) && Mirrors(books.world.t, books.rows) && OneForOne(books)
  }

  // ---- Events of the billing system ----

  /** Rows a step adds, when none of them is a gateway row. */
  lemma NewRows(t: Tables, t': Tables, us: seq<Usage>, user: string)
    requires UniqueKeys(t'.rows) && t.rows <= t'.rows && RowsFrom(t, t', us, user)
    requires forall u :: u in us ==> u.key.resourceType != GATEWAY_ROUTE
    ensures GatewayRows(t') == GatewayRows(t)
    ensures forall key: UsageKey :: key.resourceType == GATEWAY_ROUTE ==>
              (Recorded(t'.rows, key) <==> Recorded(t.rows, key))
  {
    hide Round, Recorded;
    var more := t'.rows[|t.rows|..];
    forall row | row in more
      ensures !IsGateway(row)
    {
      NotOld(t, t', row);
      var u :| u in us && row == RowFor(u, user);
    }
    assert t'.rows == t.rows + more;
    SelectNoMore(t.rows, more, IsGateway, Itself);
    forall key: UsageKey | key.resourceType == GATEWAY_ROUTE
      ensures Recorded(t'.rows, key) <==> Recorded(t.rows, key)
    {
      NotAmong(t.rows, more, key);
    }
  }

  lemma NotOld(t: Tables, t': Tables, row: UsageRow)
    requires UniqueKeys(t'.rows) && t.rows <= t'.rows && row in t'.rows[|t.rows|..]
    ensures row !in t.rows
  {
    var j :| 0 <= j < |t'.rows| - |t.rows| && t'.rows[|t.rows|..][j] == row;
    forall i | 0 <= i < |t.rows|
      ensures t.rows[i] != row
    {
      assert t'.rows[i] == t.rows[i] && t'.rows[|t.rows| + j] == row;
    }
  }

  lemma NotAmong(rows: seq<UsageRow>, more: seq<UsageRow>, key: UsageKey)
    requires forall row :: row in more ==> row.key != key
    ensures Recorded(rows + more, key) <==> Recorded(rows, key)
  {
    if Recorded(rows, key) {
      RecordedGrows(rows, rows + more, key);
    }
    forall i | |rows| <= i < |rows + more|
      ensures (rows + more)[i].key != key
    {
      assert (rows + more)[i] == more[i - |rows|] && more[i - |rows|] in more;
    }
    if i :| 0 <= i < |rows + more| && (rows + more)[i].key == key {
      assert (rows + more)[i] == rows[i];
    }
  }

  /** The gateway's part of the books. */
  ghost predicate SameGateway(t: Tables, t': Tables) {
    && GatewayRows(t') == GatewayRows(t)
    && forall key: UsageKey :: key.resourceType == GATEWAY_ROUTE ==> (Recorded(t'.rows, key) <==> Recorded(t.rows, key))
  }

  lemma SameRows(t: Tables, t': Tables)
    requires t'.rows == t.rows
    ensures SameGateway(t, t')
  {}

  lemma DebitIsElsewhere(t: Tables, us: seq<Usage>, payer: Result<string, Error>)
    requires LedgerInv(t, AllRounded) && forall u :: u in us ==> u.key.resourceType != GATEWAY_ROUTE
    ensures SameGateway(t, Debit(t, us, payer).0)
  {
    hide Debit, RowsFrom, Booked, Chained, UniqueKeys, UniqueIdempotency, Recorded;
    var mode := AllRounded;
    DebitRows(t, us, payer);
    DebitGrows(t, us, payer);
    DebitKeeps(t, us, payer, mode);
    KeysInLedger(Debit(t, us, payer).0);
    NewRows(t, Debit(t, us, payer).0, us, if payer.Ok? then payer.value else "");
  }

  lemma KeysInLedger(t: Tables)
    requires LedgerInv(t, AllRounded)
    ensures UniqueKeys(t.rows)
  {
    hide Chained, UniqueIdempotency, UniqueKeys, LastBalance;
  }

  lemma SettleIsElsewhere(t: Tables, t': Tables, item: Item)
    requires UniqueKeys(t'.rows) && t' == Settle(t, item).0
    ensures SameGateway(t, t')
  {
    hide UniqueKeys, RowsFrom, Settle, Recorded;
    SettleRows(t, item);
    SettleGrows(t, item);
    RecordsAreAI(item.input, item.usageId);
    NewRows(t, t', Records(item.input, item.usageId), item.input.userId);
  }

  lemma RecordsAreAI(x: UsageInput, resourceId: string)
    ensures forall u :: u in Records(x, resourceId) ==> u.key.resourceType != GATEWAY_ROUTE
  {
    assert |AI_REQUEST| == 16 && |GATEWAY_ROUTE| == 13;
  }

  lemma StepIsElsewhere(w: World, e: Event)
    requires WorldInv(w, AllRounded) && Apart(e)
    ensures SameGateway(w.t, Step(w, e).t)
  {
    hide Transact, Debit, Settle, Records, Validate, CreateHold, CloseHold, RecordUsage, DeleteRuns, LedgerInv, Linked,
         SettledAreBilled, SameGateway, NamedPayer;
    var mode := AllRounded;
    match e
    case Wallet(x) =>
      TransactShape(w.t, x);
      SameRows(w.t, Step(w, e).t);
    case DebitBatch(us, payer) => DebitIsElsewhere(w.t, us, payer);
    case Direct(input) =>
      RecordsAreAI(input, input.eventId);
      DirectIsElsewhere(w.t, input);
    case SettleItem(item) =>
      if item in w.inFlight {
        StepKeeps(w, e, mode);
        KeysInWorld(Step(w, e));
        SettleIsElsewhere(w.t, Settle(w.t, item).0, item);
      } else {
        SameRows(w.t, w.t);
      }
    case RequestHold(q) =>
      CreateHoldStep(w.t, q);
      SameRows(w.t, Step(w, e).t);
    case Record(report) =>
      RecordRows(w.t, report);
      SameRows(w.t, Step(w, e).t);
    case Unavailable(holdId) =>
      CloseHoldStep(w.t, holdId, ReconciliationRequired);
      SameRows(w.t, Step(w, e).t);
    case Release(holdId) =>
      CloseHoldStep(w.t, holdId, Released);
      SameRows(w.t, Step(w, e).t);
    case DeleteConversation(runs) =>
      DeleteRows(w.t, runs);
      SameRows(w.t, Step(w, e).t);
    case _ => SameRows(w.t, Step(w, e).t);
  }

  lemma DirectIsElsewhere(t: Tables, input: UsageInput)
    requires LedgerInv(t, AllRounded)
    ensures SameGateway(t, SettleDirect(t, input).0)
  {
    hide Debit, Records, Validate, SameGateway, LedgerInv, NamedPayer;
    RecordsAreAI(input, input.eventId);
    DebitIsElsewhere(t, Records(input, input.eventId), NamedPayer(input.userId));
    SameRows(t, t);
  }

  lemma DeleteRows(t: Tables, runs: set<string>)
    ensures DeleteRuns(t, runs).rows == t.rows
  {}

  lemma KeysInWorld(w: World)
    requires WorldInv(w, AllRounded)
    ensures LedgerInv(w.t, AllRounded) && UniqueKeys(w.t.rows)
  {
    hide Linked, SettledAreBilled, Sourced, LedgerInv, UniqueKeys;
    KeysInLedger(w.t);
  }

  // ---- A window ----

  lemma OneRow(rows: seq<UsageRow>, row: UsageRow)
    requires IsGateway(row)
    ensures Selections.Select(rows + [row], IsGateway, Itself) == Selections.Select(rows, IsGateway, Itself) + [row]
  {
    assert (rows + [row])[..|rows|] == rows;
  }

  /** A window billed for the first time adds its own row, and nothing else does. */
  lemma DebitAddsRow(t: Tables, u: Usage, payer: Result<string, Error>)
    ensures var (t', error) := Debit(t, [u], payer);
            && (error == None ==> payer.Ok? && t'.rows == t.rows + [RowFor(u, payer.value)])
            && (error.Some? ==> t' == t)
            && t'.holds == t.holds && t'.usages == t.usages
  {
    hide Round, Reserved, Recorded;
    if payer.Ok? {
      var user := payer.value;
      var start := Start(EnsureWallet(t, user), user);
      OneUsage(start, u, user, Reserved(t.holds, user, None));
      assert [u][1..] == [];
    }
  }

  // ---- Every entry keeps the correspondence ----

  lemma OtherKeeps(books: Books, e: Event)
    requires BooksInv(books) && Apart(e)
    ensures BooksInv(Post(books, Entry.Other(e)))
  {
    var mode := AllRounded;
    StepIsElsewhere(books.world, e);
    hide WorldInv, Step, Apart, Mirrors, OneForOne, SameGateway;
    StepKeeps(books.world, e, mode);
    SameMirrors(books, Step(books.world, e));
  }

  lemma SameMirrors(books: Books, w: World)
    requires Mirrors(books.world.t, books.rows) && OneForOne(books) && SameGateway(books.world.t, w.t)
    ensures Mirrors(w.t, books.rows) && OneForOne(books.(world := w))
  {
    hide Bills, GatewayRows, Settled, Recorded, KeyOf;
    KeysAreGateway();
    forall route: string, minute: nat
      ensures Settled(books.rows, route, minute) <==> Recorded(w.t.rows, KeyOf(route, minute))
    {
      assert Settled(books.rows, route, minute) <==> Recorded(books.world.t.rows, KeyOf(route, minute));
    }
  }

  lemma TrafficKeeps(books: Books, entry: Entry)
    requires BooksInv(books) && entry.Traffic? && Billable(entry)
    ensures BooksInv(Post(books, entry))
  {
    TrafficKeepsWorld(books, entry);
    TrafficMirrors(books, entry);
    TrafficIsCharged(books, entry);
    hide WorldInv, Mirrors, OneForOne, Post;
  }

  lemma TrafficKeepsWorld(books: Books, entry: Entry)
    requires WorldInv(books.world, AllRounded) && entry.Traffic? && Billable(entry)
    ensures WorldInv(Post(books, entry).world, AllRounded)
  {
    hide WorldInv, Debit, BillingOwner, UsageOf;
    if entry.rate.Some? {
      WorldAfter(books.world, UsageOf(entry.w, entry.route, entry.rate.value),
                 BillingOwner(entry.projects, entry.route.projectId));
    }
  }

  lemma TrafficMirrors(books: Books, entry: Entry)
    requires Mirrors(books.world.t, books.rows) && entry.Traffic? && Billable(entry)
    ensures Mirrors(Post(books, entry).world.t, Post(books, entry).rows)
  {
    hide Mirrors, SettleWindow, Receive;
    WindowIsReceived(books.world.t, books.rows, entry.w, entry.route, entry.rate, entry.projects);
  }

  lemma TrafficIsCharged(books: Books, entry: Entry)
    requires Mirrors(books.world.t, books.rows) && OneForOne(books) && entry.Traffic? && Billable(entry)
    ensures OneForOne(Post(books, entry))
  {
    hide Mirrors, SettleWindow, Receive, GatewayRows, OneForOne;
    WindowIsReceived(books.world.t, books.rows, entry.w, entry.route, entry.rate, entry.projects);
    var (t', error) :=
      SettleWindow(books.world.t, entry.w, entry.route, entry.rate, entry.projects);
    if error == None {
      FirstBilling(books, entry);
    } else {
      SameCharges(books, t');
    }
  }

  /** A window billed for the first time is new to the server, and adds its own record. */
  lemma FirstBilling(books: Books, entry: Entry)
    requires Mirrors(books.world.t, books.rows) && OneForOne(books) && entry.Traffic? && Billable(entry)
    requires SettleWindow(books.world.t, entry.w, entry.route, entry.rate, entry.projects).1 == None
    ensures OneForOne(Post(books, entry))
  {
    PayerOf(entry.projects, entry.route.projectId);
    hide Debit, BillingOwner, Round, Recorded, KeyOf, Mirrors, OneForOne, Receive, BilledTo;
    var t, w, rate := books.world.t, entry.w, entry.rate.value;
    var u, payer := UsageOf(w, entry.route, rate), BillingOwner(entry.projects, entry.route.projectId);
    DebitAddsRow(t, u, payer);
    DebitOfOne(t, u, payer);
    FirstTime(books, w);
    var c := Charge(w, entry.route.projectId, entry.projects[entry.route.projectId], rate);
    RowBills(w, entry.route, c, payer.value);
    OneMoreCharge(books, Debit(t, [u], payer).0, w, RowFor(u, payer.value), c);
  }

  lemma RowBills(w: Window, route: Route, c: Charge, user: string)
    requires w.start >= 0 && route.id == w.route && BilledTo(c.project, user)
    requires c.window == w && c.projectId == route.projectId
    ensures Bills(RowFor(UsageOf(w, route, c.rate), user), c)
  {
    hide Stamp, BilledTo;
    var row := RowFor(UsageOf(w, route, c.rate), user);
    assert row.key == KeyOf(w.route, w.start) && row.projectId == c.projectId;
    assert row.amount == Round(w.bytes as real / GIB as real * c.rate);
  }

  lemma OneMoreCharge(books: Books, t': Tables, w: Window, row: UsageRow, c: Charge)
    requires OneForOne(books) && t'.rows == books.world.t.rows + [row] && Bills(row, c) && c.window == w
    ensures OneForOne(Books(books.world.(t := t'), books.rows + [w], books.charges + [c]))
  {
    OneRow(books.world.t.rows, row);
    hide Round, KeyOf, Selections.Select, Bills;
  }

  lemma SameCharges(books: Books, t': Tables)
    requires OneForOne(books) && t'.rows == books.world.t.rows
    ensures OneForOne(Books(books.world.(t := t'), books.rows, books.charges))
  {
    hide Bills;
  }

  lemma KeysAreGateway()
    ensures forall route, minute :: KeyOf(route, minute).resourceType == GATEWAY_ROUTE
  {}

  lemma WorldAfter(w: World, u: Usage, payer: Result<string, Error>)
    requires WorldInv(w, AllRounded)
    ensures WorldInv(w.(t := Debit(w.t, [u], payer).0), AllRounded)
  {
    hide WorldInv, Debit;
    var mode := AllRounded;
    StepKeeps(w, DebitBatch([u], payer), mode);
  }

  /** A window whose key is not recorded is new to the server. */
  lemma FirstTime(books: Books, w: Window)
    requires Mirrors(books.world.t, books.rows) && w.bytes > 0 && 0 <= w.start < w.end
    requires !Recorded(books.world.t.rows, KeyOf(w.route, w.start))
    ensures Receive(books.rows, w) == books.rows + [w]
  {
    hide Settled, Recorded, KeyOf;
  }

  lemma {:induction false} BooksKeep(entries: seq<Entry>)
    requires forall entry :: entry in entries && entry.Other? ==> Apart(entry.e)
    ensures BooksInv(Posted(entries))
    decreases |entries|
  {
    if entries == [] {
      EmptyBooks();
    } else {
      hide Post, BooksInv, Apart;
      var n := |entries| - 1;
      BooksKeep(entries[..n]);
      assert entries[n] in entries;
      match entries[n]
      case Other(e) => OtherKeeps(Posted(entries[..n]), e);
      case Traffic(w, route, rate, projects) =>
        if Billable(entries[n]) {
          TrafficKeeps(Posted(entries[..n]), entries[n]);
        } else {
          Ignored(Posted(entries[..n]), entries[n]);
        }
    }
  }

  lemma Ignored(books: Books, entry: Entry)
    requires entry.Traffic? && !Billable(entry)
    ensures Post(books, entry) == books
  {}

  lemma EmptyBooks()
    ensures BooksInv(Books(EMPTY, [], []))
  {
    var mode := AllRounded;
    RunKeeps([], mode);
    assert Run(EMPTY, []) == EMPTY;
    forall route: string, minute: nat
      ensures !Settled([], route, minute) && !Recorded([], KeyOf(route, minute))
    {}
  }

  /**
   In every state that windows and all other billing lead to, the billing records of gateway traffic are the
   settled windows, one for one and in order, each under its own key and project at its rounded price.
   */
  lemma WindowsAreBilled(entries: seq<Entry>)
    requires forall entry :: entry in entries && entry.Other? ==> Apart(entry.e)
    ensures OneForOne(Posted(entries)) && Mirrors(Posted(entries).world.t, Posted(entries).rows)
  {
    hide Posted, OneForOne, Mirrors, WorldInv;
    BooksKeep(entries);
  }
}
