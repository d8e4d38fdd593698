/**
 Runs of the whole billing system: any interleaving of wallet transactions, debits, direct AI debits,
 settlement workers with stale reads, retries and crashes, and the agent's hold steps. Each step is
 one database transaction.
 */
module BillingRuns {
  import opened Wrappers
  import opened Credits
  import opened Ledger
  import opened LedgerInvariants
  import opened AIUsage

  /** The tables and the settlement rows that workers have read and may still act on. */
  datatype World = World(t: Tables, inFlight: set<Item>)

  datatype Event =
    | Wallet(x: WalletTransaction)
    | DebitBatch(us: seq<Usage>, payer: Result<string, Error>)
    | Direct(input: UsageInput)
    | Select(usageId: string)
    | SettleItem(item: Item)
    | RequestHold(q: HoldRequest)
    | Record(report: Report)
    | Unavailable(holdId: string)
    | Release(holdId: string)
    | DeleteConversation(runs: set<string>)
    | Crash

  ghost function Step(w: World, e: Event): World {
    match e
    case Wallet(x) => w.(t := Transact(w.t, x).0)
    case DebitBatch(us, payer) => w.(t := Debit(w.t, us, payer).0)
    case Direct(input) => w.(t := SettleDirect(w.t, input).0)
    case Select(id) => if Eligible(w.t, id) then w.(inFlight := w.inFlight + {ItemOf(w.t, id)}) else w
    case SettleItem(item) => if item in w.inFlight then w.(t := Settle(w.t, item).0) else w
    case RequestHold(q) => w.(t := CreateHold(w.t, q))
    case Record(report) => w.(t := RecordUsage(w.t, report))
    case Unavailable(holdId) => w.(t := CloseHold(w.t, holdId, ReconciliationRequired))
    case Release(holdId) => w.(t := CloseHold(w.t, holdId, Released))
    case DeleteConversation(runs) => w.(t := DeleteRuns(w.t, runs))
    case Crash => w.(inFlight := {})
  }

  ghost function Run(w: World, es: seq<Event>): World
    decreases |es|
  {
    if es == [] then w else Step(Run(w, es[..|es| - 1]), es[|es| - 1])
  }

  const EMPTY := World(Tables(map[], [], [], map[], map[]), {})

  // ---- Usages and their holds ----

  predicate Agree(status: SettlementStatus, state: HoldState) {
    match status
    case Pending => state == UsageRecorded
    case UsageReconciliation => state == HoldDeficit
    case UsageSettled => state == HoldSettled
  }

  predicate Used(state: HoldState) {
    state == UsageRecorded || state == HoldDeficit || state == HoldSettled
  }

  /**
   Every usage has a hold of its own, in the matching state, holding the rounded cost; one that costs more
   than the hold had set aside is never up for settlement.
   */
  predicate LinkedRow(t: Tables, id: string)
    requires id in t.usages
  {
    var u := t.usages[id];
    && u.holdId in t.holds
    && var h := t.holds[u.holdId];
       && h.owner == u.owner && h.runId == u.runId
       && Agree(u.status, h.state)
       && ValidTokens(u.tokens)
       && Round(ActualCost(h.pricing, u.tokens)) >= 0
       && h.actual == Some(Round(ActualCost(h.pricing, u.tokens)))
       && (u.status != UsageReconciliation ==> ActualCost(h.pricing, u.tokens) <= h.maxRisk as real)
  }

  ghost predicate Claimed(t: Tables, holdId: string) {
    exists id :: id in t.usages && t.usages[id].holdId == holdId
  }

  /** A hold sets aside the worst case of its own limits and prices. */
  predicate WorstCaseStored(h: Hold) {
    ValidLimits(h.limits) && h.maxRisk == Round(MaxRisk(h.limits, h.pricing))
  }

  /** Every usage is linked, and no two share a hold. */
  ghost predicate UsagesLinked(t: Tables) {
    && (forall id :: id in t.usages ==> LinkedRow(t, id))
    && (forall id, other :: id in t.usages && other in t.usages && id != other ==>
        t.usages[id].holdId != t.usages[other].holdId)
  }

  /** Only a hold whose usage is recorded has an actual cost. */
  predicate CostOnlyWhenUsed(h: Hold) {
    !Used(h.state) ==> h.actual == None
  }

  ghost predicate HoldsLinked(t: Tables) {
    && (forall h :: h in t.holds && Used(t.holds[h].state) ==> Claimed(t, h))
    && (forall h :: h in t.holds ==> CostOnlyWhenUsed(t.holds[h]) && WorstCaseStored(t.holds[h]))
  }

  ghost predicate Linked(t: Tables) {
    UsagesLinked(t) && HoldsLinked(t)
  }

  predicate Billed(rows: seq<UsageRow>, usageId: string) {
    && Recorded(rows, UsageKey(AI_REQUEST, usageId, PROMPT))
    && Recorded(rows, UsageKey(AI_REQUEST, usageId, COMPLETION))
    && Recorded(rows, UsageKey(AI_REQUEST, usageId, CACHED))
    && Recorded(rows, UsageKey(AI_REQUEST, usageId, CACHE_WRITE))
  }

  ghost predicate SettledAreBilled(t: Tables) {
    forall id :: id in t.usages && t.usages[id].status == UsageSettled ==> Billed(t.rows, id)
  }

  /** A row read by a worker still names the same usage, hold, tokens and prices. */
  predicate Sourced(t: Tables, item: Item) {
    item.usageId in t.usages && t.usages[item.usageId].holdId in t.holds && item == ItemOf(t, item.usageId)
  }

  ghost predicate WorldInv(w: World, mode: Rounding) {
    && LedgerInv(w.t, mode)
    && Linked(w.t)
    && SettledAreBilled(w.t)
    && forall item :: item in w.inFlight ==> Sourced(w.t, item)
  }

  /** Amounts given in whole quanta: no value is ever rounded. */
  predicate WholeEvent(e: Event) {
    match e
    case DebitBatch(us, _) => forall u :: u in us ==> Whole(u.amount)
    case Direct(input) => forall u :: u in Records(input, input.eventId) ==> Whole(u.amount)
    case SettleItem(item) => forall u :: u in Records(item.input, item.usageId) ==> Whole(u.amount)
    case _ => true
  }

  /** What each rounding mode asks of an event; the last asks nothing. */
  predicate Admissible(e: Event, mode: Rounding) {
    && (mode != AllRounded && e.Wallet? ==> Whole(e.x.amount))
    && (mode == Exact ==> WholeEvent(e))
  }

  // ---- Each step keeps the invariant ----

  lemma BilledByRecords(rows: seq<UsageRow>, x: UsageInput, id: string)
    requires forall u :: u in Records(x, id) ==> Recorded(rows, u.key)
    ensures Billed(rows, id)
  {
    var us := Records(x, id);
    assert us[0] in us && us[1] in us && us[2] in us && us[3] in us;
  }

  /** Growing the billing tables leaves usages and holds alone. */
  lemma BillingStepKeeps(w: World, t': Tables, mode: Rounding)
    requires WorldInv(w, mode) && LedgerInv(t', mode)
    requires t'.holds == w.t.holds && t'.usages == w.t.usages && w.t.rows <= t'.rows
    ensures WorldInv(World(t', w.inFlight), mode)
  {
    hide Recorded, LedgerInv;
    forall id | id in t'.usages ensures LinkedRow(t', id) {
      assert LinkedRow(w.t, id);
    }
    forall id | id in t'.usages && t'.usages[id].status == UsageSettled ensures Billed(t'.rows, id) {
      BilledGrows(w.t.rows, t'.rows, id);
    }
    forall item | item in w.inFlight ensures Sourced(t', item) {
      assert Sourced(w.t, item);
    }
  }

  lemma BilledGrows(rows: seq<UsageRow>, more: seq<UsageRow>, id: string)
    requires rows <= more && Billed(rows, id)
    ensures Billed(more, id)
  {
    hide Recorded;
    RecordedGrows(rows, more, UsageKey(AI_REQUEST, id, PROMPT));
    RecordedGrows(rows, more, UsageKey(AI_REQUEST, id, COMPLETION));
    RecordedGrows(rows, more, UsageKey(AI_REQUEST, id, CACHED));
    RecordedGrows(rows, more, UsageKey(AI_REQUEST, id, CACHE_WRITE));
  }

  lemma TransactShape(t: Tables, x: WalletTransaction)
    ensures var t' := Transact(t, x).0;
            t'.holds == t.holds && t'.usages == t.usages && t'.rows == t.rows
  {
    hide Reserved;
  }

  lemma ClaimedStays(t: Tables, t': Tables, holdId: string)
    requires Claimed(t, holdId) && t.usages.Keys <= t'.usages.Keys
    requires forall id :: id in t.usages ==> t'.usages[id].holdId == t.usages[id].holdId
    ensures Claimed(t', holdId)
  {
    var id :| id in t.usages && t.usages[id].holdId == holdId;
    assert t'.usages[id].holdId == holdId;
  }

  /** Marking a usage and its own hold settled keeps every other pair as it was. */
  lemma MarkSettledLinks(t: Tables, usageId: string, holdId: string)
    requires Linked(t) && usageId in t.usages && t.usages[usageId].holdId == holdId && holdId in t.holds
    requires t.usages[usageId].status == Pending
    ensures Linked(MarkSettled(t, usageId, holdId))
  {
    hide ActualCost, Round, Claimed, ValidTokens, MaxRisk, HoldsLinked;
    var t' := MarkSettled(t, usageId, holdId);
    assert LinkedRow(t, usageId);
    forall id | id in t'.usages
      ensures LinkedRow(t', id)
    {
      assert LinkedRow(t, id);
    }
    MarkSettledHolds(t, usageId, holdId);
  }

  lemma MarkSettledHolds(t: Tables, usageId: string, holdId: string)
    requires HoldsLinked(t) && usageId in t.usages && t.usages[usageId].holdId == holdId && holdId in t.holds
    ensures HoldsLinked(MarkSettled(t, usageId, holdId))
  {
    hide Round, Claimed, MaxRisk;
    var t' := MarkSettled(t, usageId, holdId);
    ClaimedBy(t', usageId);
    forall h | h in t.holds && Used(t.holds[h].state)
      ensures Claimed(t', h)
    {
      ClaimedStays(t, t', h);
    }
  }

  lemma MarkSettledKeeps(w: World, item: Item, mode: Rounding)
    requires WorldInv(w, mode) && Sourced(w.t, item) && Ready(w.t, item) && Billed(w.t.rows, item.usageId)
    ensures WorldInv(World(MarkSettled(w.t, item.usageId, item.holdId), w.inFlight), mode)
  {
    hide Booked, Billed, LastBalance, Linked;
    var t' := MarkSettled(w.t, item.usageId, item.holdId);
    MarkSettledLinks(w.t, item.usageId, item.holdId);
    forall other | other in w.inFlight ensures Sourced(t', other) {
      assert Sourced(w.t, other);
    }
    assert LedgerInv(t', mode);
  }

  predicate IsSettled(t: Tables, usageId: string) {
    usageId in t.usages && t.usages[usageId].status == UsageSettled
  }

  lemma SettleKeeps(w: World, item: Item, mode: Rounding)
    requires WorldInv(w, mode) && Sourced(w.t, item)
    requires mode != Exact || forall u :: u in Records(item.input, item.usageId) ==> Whole(u.amount)
    ensures WorldInv(World(Settle(w.t, item).0, w.inFlight), mode)
    ensures Settle(w.t, item).1 == None ==> IsSettled(Settle(w.t, item).0, item.usageId)
  {
    hide LedgerInv, Linked, Billed, Recorded, DebitForUser, NewRecord, Validate;
    if Settle(w.t, item).1 == None {
      var us := Records(item.input, item.usageId);
      var t1 := DebitForUser(w.t, us, item.input.userId, Exclusion(item.holdId)).0;
      DebitForUserKeeps(w.t, us, item.input.userId, Exclusion(item.holdId), mode);
      BillingStepKeeps(w, t1, mode);
      BilledByRecords(t1.rows, item.input, item.usageId);
      MarkSettledKeeps(World(t1, w.inFlight), item, mode);
    }
  }

  /** Holds that no usage refers to may go, change state or be added, as long as they do not count as used. */
  ghost predicate HoldStep(t: Tables, holds: map<string, Hold>) {
    && (forall h :: h in holds && h !in t.holds ==>
          !Used(holds[h].state) && holds[h].actual == None && WorstCaseStored(holds[h]))
    && (forall h :: h in t.holds && h in holds && holds[h] != t.holds[h] ==>
          t.holds[h].state == Held && !Used(holds[h].state) && holds[h] == t.holds[h].(state := holds[h].state))
    && (forall h :: h in t.holds && h !in holds ==> !Claimed(t, h))
  }

  lemma HoldStepLinks(t: Tables, holds: map<string, Hold>)
    requires Linked(t) && HoldStep(t, holds)
    ensures Linked(t.(holds := holds))
  {
    hide ActualCost, Round, ValidTokens, MaxRisk, Claimed, HoldsLinked;
    var t' := t.(holds := holds);
    forall id | id in t'.usages
      ensures LinkedRow(t', id)
    {
      assert LinkedRow(t, id);
      ClaimedBy(t, id);
    }
    HoldStepHolds(t, holds);
  }

  lemma HoldStepHolds(t: Tables, holds: map<string, Hold>)
    requires HoldsLinked(t) && HoldStep(t, holds)
    ensures HoldsLinked(t.(holds := holds))
  {
    hide Round, MaxRisk, Claimed;
    forall h | Claimed(t, h)
      ensures Claimed(t.(holds := holds), h)
    {
      ClaimedStays(t, t.(holds := holds), h);
    }
  }

  lemma HoldStepKeeps(w: World, holds: map<string, Hold>, mode: Rounding)
    requires WorldInv(w, mode) && HoldStep(w.t, holds)
    ensures WorldInv(World(w.t.(holds := holds), w.inFlight), mode)
  {
    hide Booked, Billed, LastBalance, Linked;
    var t' := w.t.(holds := holds);
    HoldStepLinks(w.t, holds);
    forall item | item in w.inFlight
      ensures Sourced(t', item)
    {
      assert Sourced(w.t, item);
      ClaimedBy(w.t, item.usageId);
    }
    assert LedgerInv(t', mode);
  }

  lemma RecordLinks(t: Tables, r: Report)
    requires Linked(t)
    ensures Linked(RecordUsage(t, r))
  {
    hide ActualCost, Round, Claimed, ValidTokens, MaxRisk, HoldsLinked;
    var t' := RecordUsage(t, r);
    if t' != t {
      forall id | id in t'.usages
        ensures LinkedRow(t', id)
      {
        if id != r.usageId {
          assert LinkedRow(t, id) && t.usages[id].holdId != r.holdId;
        }
      }
      RecordHolds(t, r);
    }
  }

  lemma RecordHolds(t: Tables, r: Report)
    requires HoldsLinked(t) && RecordUsage(t, r) != t
    ensures HoldsLinked(RecordUsage(t, r))
  {
    hide Round, ActualCost, Claimed, ValidTokens, MaxRisk, Deficit;
    var t' := RecordUsage(t, r);
    ClaimedBy(t', r.usageId);
    forall h | Claimed(t, h)
      ensures Claimed(t', h)
    {
      ClaimedStays(t, t', h);
    }
  }

  lemma ClaimedBy(t: Tables, id: string)
    requires id in t.usages
    ensures Claimed(t, t.usages[id].holdId)
  {}

  lemma RecordKeeps(w: World, r: Report, mode: Rounding)
    requires WorldInv(w, mode)
    ensures WorldInv(World(RecordUsage(w.t, r), w.inFlight), mode)
  {
    hide Booked, Billed, Cost, Round, LastBalance, Recorded, Linked;
    var t' := RecordUsage(w.t, r);
    RecordLinks(w.t, r);
    forall item | item in w.inFlight
      ensures Sourced(t', item)
    {
      assert Sourced(w.t, item);
    }
    assert LedgerInv(t', mode);
  }

  lemma CreateHoldStep(t: Tables, q: HoldRequest)
    ensures HoldStep(t, CreateHold(t, q).holds) && CreateHold(t, q) == t.(holds := CreateHold(t, q).holds)
  {
    hide Reserved, MaxRisk, Round, Claimed, ValidLimits, OfOneRun;
  }

  lemma CloseHoldStep(t: Tables, holdId: string, state: HoldState)
    requires state == ReconciliationRequired || state == Released
    ensures HoldStep(t, CloseHold(t, holdId, state).holds)
            && CloseHold(t, holdId, state) == t.(holds := CloseHold(t, holdId, state).holds)
  {}

  /** What a deletion takes away, no usage refers to. */
  lemma DeleteRunsStep(t: Tables, runs: set<string>)
    requires Linked(t)
    ensures HoldStep(t, DeleteRuns(t, runs).holds) && DeleteRuns(t, runs) == t.(holds := DeleteRuns(t, runs).holds)
  {
    hide ActualCost, Round, ValidTokens, MaxRisk, WorstCaseStored, HoldsLinked;
    var t' := DeleteRuns(t, runs);
    forall id | id in t.usages
      ensures t.usages[id].holdId in t'.holds
    {
      assert LinkedRow(t, id);
    }
  }

  lemma StepKeeps(w: World, e: Event, mode: Rounding)
    requires WorldInv(w, mode) && Admissible(e, mode)
    ensures WorldInv(Step(w, e), mode)
  {
    hide LedgerInv, Linked, SettledAreBilled, DebitForUser, Records, Settle, Validate, Reserved, Transact, Debit,
         HoldStep, CreateHold, CloseHold, RecordUsage, DeleteRuns, NamedPayer;
    match e
    case Wallet(x) =>
      TransactKeeps(w.t, x, mode);
      TransactShape(w.t, x);
      BillingStepKeeps(w, Transact(w.t, x).0, mode);
    case DebitBatch(us, payer) =>
      DebitKeeps(w.t, us, payer, mode);
      BillingStepKeeps(w, Debit(w.t, us, payer).0, mode);
    case Direct(input) =>
      DebitKeeps(w.t, Records(input, input.eventId), NamedPayer(input.userId), mode);
      BillingStepKeeps(w, Debit(w.t, Records(input, input.eventId), NamedPayer(input.userId)).0, mode);
    case Select(id) =>
    case SettleItem(item) =>
      if item in w.inFlight {
        SettleKeeps(w, item, mode);
      }
    case RequestHold(q) =>
      CreateHoldStep(w.t, q);
      HoldStepKeeps(w, CreateHold(w.t, q).holds, mode);
    case Record(report) =>
      RecordKeeps(w, report, mode);
    case Unavailable(holdId) =>
      CloseHoldStep(w.t, holdId, ReconciliationRequired);
      HoldStepKeeps(w, CloseHold(w.t, holdId, ReconciliationRequired).holds, mode);
    case Release(holdId) =>
      CloseHoldStep(w.t, holdId, Released);
      HoldStepKeeps(w, CloseHold(w.t, holdId, Released).holds, mode);
    case DeleteConversation(runs) =>
      DeleteRunsStep(w.t, runs);
      HoldStepKeeps(w, DeleteRuns(w.t, runs).holds, mode);
    case Crash =>
  }
}
