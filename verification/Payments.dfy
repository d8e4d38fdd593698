/** Who pays for a settled AI usage, and how much. */
module Payments {
  import opened Wrappers
  import opened Credits
  import opened Ledger
  import opened LedgerInvariants
  import opened AIUsage
  import opened BillingRuns
  import opened BillingTheorems

  /** Keys under which the usage's own records are billed. */
  predicate OwnKey(key: UsageKey, id: string) {
    key.resourceType == AI_REQUEST && key.resourceId == id
  }

  /** An event other than its settlement that bills under such a key. */
  predicate Foreign(e: Event, id: string) {
    match e
    case DebitBatch(us, _) => exists u :: u in us && OwnKey(u.key, id)
    case Direct(input) => input.eventId == id
    case _ => false
  }

  function RowFor(u: Usage, user: string): UsageRow {
    UsageRow(u.key, u.projectId, user, Round(u.amount))
  }

  ghost predicate RowOfBatch(row: UsageRow, us: seq<Usage>, user: string) {
    exists u :: u in us && row == RowFor(u, user)
  }

  /** A batch adds rows for its own usages, billed to its own user, and no others. */
  lemma {:induction false} DebitAllRows(b: Batch, us: seq<Usage>, project: string, user: string, reserved: nat)
    requires DebitAll(b, us, project, user, reserved).Ok?
    ensures forall row :: row in DebitAll(b, us, project, user, reserved).value.rows ==>
            row in b.rows || RowOfBatch(row, us, user)
    decreases |us|
  {
    hide Recorded, Round;
    if us != [] {
      var next := DebitOne(b, us[0], project, user, reserved).value;
      var end := DebitAll(next, us[1..], project, user, reserved).value;
      DebitAllRows(next, us[1..], project, user, reserved);
      forall row | row in end.rows
        ensures row in b.rows || RowOfBatch(row, us, user)
      {
        if row in next.rows {
          assert us[0] in us && (row in b.rows || row == RowFor(us[0], user));
        } else {
          var u :| u in us[1..] && row == RowFor(u, user);
          assert u in us;
        }
      }
    }
  }

  /** Every row after a debit was there before, or belongs to the batch. */
  ghost predicate RowsFrom(t: Tables, t': Tables, us: seq<Usage>, user: string) {
    forall row :: row in t'.rows ==> row in t.rows || RowOfBatch(row, us, user)
  }

  lemma DebitForUserRows(t: Tables, us: seq<Usage>, user: string, excluded: Option<string>)
    requires us != []
    ensures RowsFrom(t, DebitForUser(t, us, user, excluded).0, us, user)
  {
    hide Reserved, Round, DebitAll, RowOfBatch;
    var t1 := EnsureWallet(t, user);
    if DebitAll(Start(t1, user), us, us[0].projectId, user, Reserved(t1.holds, user, excluded)).Ok? {
      DebitAllRows(Start(t1, user), us, us[0].projectId, user, Reserved(t1.holds, user, excluded));
    }
  }

  lemma DebitRows(t: Tables, us: seq<Usage>, payer: Result<string, Error>)
    ensures RowsFrom(t, Debit(t, us, payer).0, us, if payer.Ok? then payer.value else "")
  {
    hide DebitForUser, RowOfBatch;
    if us != [] && payer.Ok? {
      DebitForUserRows(t, us, payer.value, None);
    }
  }

  // ---- Rows under a usage's own keys ----

  /** The row bills one of the usage's records, at the prices of its hold, to its owner. */
  ghost predicate Paid(item: Item, row: UsageRow) {
    RowOfBatch(row, Records(item.input, item.usageId), item.input.userId)
  }

  ghost predicate OwnRowsPaid(t: Tables, id: string) {
    forall row :: row in t.rows && OwnKey(row.key, id) ==>
      id in t.usages && t.usages[id].holdId in t.holds && Paid(ItemOf(t, id), row)
  }

  lemma RecordsOwnKeys(x: UsageInput, resourceId: string, id: string)
    ensures forall u :: u in Records(x, resourceId) ==> (OwnKey(u.key, id) <==> resourceId == id)
  {}

  /** What the settlement query says of a usage never changes. */
  lemma ItemIsStable(w: World, e: Event, id: string)
    requires WorldInv(w, AllRounded) && id in w.t.usages && w.t.usages[id].holdId in w.t.holds
    ensures Sourced(Step(w, e).t, ItemOf(w.t, id))
  {
    hide LedgerInv, Linked, SettledAreBilled, Transact, Debit, Settle, CreateHold, CloseHold, RecordUsage, DeleteRuns,
         SettleDirect;
    var item, mode := ItemOf(w.t, id), AllRounded;
    if e.Crash? || (e.SettleItem? && e.item !in w.inFlight) {
      assert Step(w, e).t == w.t;
    } else {
      var watched := World(w.t, w.inFlight + {item});
      assert WorldInv(watched, mode);
      assert Step(watched, e).t == Step(w, e).t && item in Step(watched, e).inFlight;
      StepKeeps(watched, e, mode);
    }
  }

  lemma StepPays(w: World, e: Event, id: string)
    requires WorldInv(w, AllRounded) && OwnRowsPaid(w.t, id) && !Foreign(e, id)
    ensures OwnRowsPaid(Step(w, e).t, id)
  {
    hide WorldInv, Paid, OwnKey, Sourced, Transact, Debit, Settle, Records, Validate, CreateHold, CloseHold,
         RecordUsage, DeleteRuns, NamedPayer;
    var t' := Step(w, e).t;
    forall row | row in t'.rows && OwnKey(row.key, id)
      ensures id in t'.usages && t'.usages[id].holdId in t'.holds && Paid(ItemOf(t', id), row)
    {
      if row in w.t.rows {
        ItemIsStable(w, e, id);
        SourcedIs(t', id, ItemOf(w.t, id));
      } else {
        NewOwnRow(w, e, id, row);
      }
    }
  }

  lemma SourcedIs(t: Tables, id: string, item: Item)
    requires Sourced(t, item) && item.usageId == id
    ensures id in t.usages && t.usages[id].holdId in t.holds && ItemOf(t, id) == item
  {}

  /** A row that a step adds under the usage's keys comes from its settlement. */
  lemma NewOwnRow(w: World, e: Event, id: string, row: UsageRow)
    requires WorldInv(w, AllRounded) && !Foreign(e, id) && OwnKey(row.key, id)
    requires row !in w.t.rows && row in Step(w, e).t.rows
    ensures id in Step(w, e).t.usages && Step(w, e).t.usages[id].holdId in Step(w, e).t.holds
            && Paid(ItemOf(Step(w, e).t, id), row)
  {
    hide LedgerInv, Linked, SettledAreBilled, Transact, Debit, Settle, Records, Validate, CreateHold, RecordUsage,
         NamedPayer, OwnKey, Sourced;
    match e
    case Wallet(x) =>
      TransactShape(w.t, x);
      assert false;
    case DebitBatch(us, payer) =>
      DebitRows(w.t, us, payer);
      assert false;
    case Direct(input) =>
      DebitRows(w.t, Records(input, input.eventId), NamedPayer(input.userId));
      RecordsOwnKeys(input, input.eventId, id);
      assert false;
    case SettleItem(item) =>
      SettleRows(w.t, item);
      RecordsOwnKeys(item.input, item.usageId, id);
      SourcedIs(w.t, id, item);
      ItemIsStable(w, e, id);
      SourcedIs(Step(w, e).t, id, item);
    case RequestHold(q) =>
      CreateHoldStep(w.t, q);
      assert false;
    case Record(report) =>
      RecordRows(w.t, report);
      assert false;
    case _ =>
      assert false;
  }

  lemma SettleRows(t: Tables, item: Item)
    ensures RowsFrom(t, Settle(t, item).0, Records(item.input, item.usageId), item.input.userId)
  {
    hide DebitForUser, Records, Validate, RowOfBatch;
    DebitForUserRows(t, Records(item.input, item.usageId), item.input.userId, Exclusion(item.holdId));
  }

  lemma RecordRows(t: Tables, r: Report)
    ensures RecordUsage(t, r).rows == t.rows
  {
    hide ActualCost, Deficit, ValidTokens;
  }

  lemma {:induction false} RunPays(es: seq<Event>, id: string)
    requires forall e :: e in es ==> !Foreign(e, id)
    ensures OwnRowsPaid(Run(EMPTY, es).t, id)
    decreases |es|
  {
    hide Step, Foreign, WorldInv;
    if es != [] {
      var n := |es| - 1;
      RunPays(es[..n], id);
      var mode := AllRounded;
      RunKeeps(es[..n], mode);
      StepPays(Run(EMPTY, es[..n]), es[n], id);
    }
  }

  /**
   The usage's four records are billed to its owner, each at its rounded amount, and nothing else is billed
   under their keys.
  */
  ghost predicate PaidInFull(t: Tables, id: string)
    requires id in t.usages && t.usages[id].holdId in t.holds
  {
    var item := ItemOf(t, id);
    && (forall u :: u in Records(item.input, id) ==> RowFor(u, t.usages[id].owner) in t.rows)
    && (forall row :: row in t.rows && OwnKey(row.key, id) ==> Paid(item, row))
  }

  /**
   Over every run in which nothing else is billed under the usage's keys, a settled usage has been paid
   by its owner: four records, at the hold's prices, and no more.
   */
  lemma SettledIsPaidByOwner(es: seq<Event>, id: string)
    requires forall e :: e in es ==> !Foreign(e, id)
    requires IsSettled(Run(EMPTY, es).t, id)
    ensures var t := Run(EMPTY, es).t;
            t.usages[id].holdId in t.holds && PaidInFull(t, id)
  {
    hide Run, Foreign, Records, LedgerInv, Billed;
    var mode := AllRounded;
    RunPays(es, id);
    RunKeeps(es, mode);
    var t := Run(EMPTY, es).t;
    assert LinkedRow(t, id);
    var item := ItemOf(t, id);
    forall u | u in Records(item.input, id)
      ensures RowFor(u, item.input.userId) in t.rows
    {
      BilledRecord(t, item.input, id, u);
      var i :| 0 <= i < |t.rows| && t.rows[i].key == u.key;
      RecordsOwnKeys(item.input, id, id);
      assert t.rows[i] in t.rows;
      var v :| v in Records(item.input, id) && t.rows[i] == RowFor(v, item.input.userId);
      SameKeySameRecord(item.input, id, u, v);
    }
  }

  lemma BilledRecord(t: Tables, x: UsageInput, id: string, u: Usage)
    requires Billed(t.rows, id) && u in Records(x, id)
    ensures Recorded(t.rows, u.key)
  {
    hide Recorded;
  }

  lemma SameKeySameRecord(x: UsageInput, id: string, u: Usage, v: Usage)
    requires u in Records(x, id) && v in Records(x, id) && u.key == v.key
    ensures u == v
  {
    RecordKeysDiffer(x, id);
    var us := Records(x, id);
    var i :| 0 <= i < |us| && us[i] == u;
    var j :| 0 <= j < |us| && us[j] == v;
  }
}
