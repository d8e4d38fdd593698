/** What happens to credit holds: what is set aside, which requests are granted, and how each hold moves on. */
module HoldOutcomes {
  import opened Wrappers
  import opened Credits
  import opened Sums
  import opened Ledger
  import opened LedgerInvariants
  import opened AIUsage
  import opened BillingRuns
  import opened HoldCoverage
  import BilledMeters

  // ---- Set aside ----

  /** Every hold of the user sets credits aside until it is released or settled, but for one left out. */
  function Open(holds: map<string, Hold>, user: string, leftOut: Option<string>): set<string> {
    set id | id in holds && holds[id].owner == user && holds[id].state != Released && holds[id].state != HoldSettled
             && (leftOut.None? || leftOut.value != id)
  }

  /** Its actual cost once that is known, and the worst case before. */
  function SetAside(holds: map<string, Hold>): string -> nat {
    id => if id !in holds then 0 else
          match holds[id].actual
          case Some(cost) => cost
          case None => holds[id].maxRisk
  }

  lemma ReservedIs(holds: map<string, Hold>, user: string, leftOut: Option<string>)
    ensures Reserved(holds, user, leftOut) == SumOver(Open(holds, user, leftOut), SetAside(holds))
  {
    assert ActiveIds(holds, user, leftOut) == Open(holds, user, leftOut);
    SumAgrees(ActiveIds(holds, user, leftOut), CreditsOf(holds), SetAside(holds));
  }

  // ---- Granting ----

  /** The most that the limits allow to be used at these prices, with the dearer of the two prompt prices. */
  function WorstCase(limits: Limits, p: Pricing): real {
    BilledMeters.PerMillion(limits.context, (if p.input < p.cached then p.cached else p.input) as real)
    + BilledMeters.PerMillion(limits.output, p.output as real)
  }

  lemma WorstCaseIs(limits: Limits, p: Pricing)
    ensures MaxRisk(limits, p) == WorstCase(limits, p)
  {
    var rate := if p.input < p.cached then p.cached else p.input;
    assert limits.context as real * rate as real == (limits.context * rate) as real;
    assert limits.output as real * p.output as real == (limits.output * p.output) as real;
  }

  predicate SameRun(h: Hold, q: HoldRequest) {
    && h.owner == q.owner && h.modelId == q.modelId && h.modelName == q.modelName
    && h.limits == q.limits && h.pricing == q.pricing
  }

  /**
   The user has a wallet, the hold is new and agrees with those of its run, and what is not set aside covers
   the worst case.
   */
  ghost predicate Grantable(t: Tables, q: HoldRequest) {
    && q.owner in t.wallets && q.id !in t.holds
    && 4096 <= q.limits.context <= 2097152 && 256 <= q.limits.output <= 262144 && q.limits.output < q.limits.context
    && (forall h :: h in t.holds.Values && h.runId == q.runId ==> SameRun(h, q))
    && (WorstCase(q.limits, q.pricing) + SumOver(Open(t.holds, q.owner, None), SetAside(t.holds)) as real
        <= t.wallets[q.owner] as real)
  }

  /** An expired hold is set aside for reconciliation; nothing else about it changes. */
  ghost predicate Lapsed(before: Hold, after: Hold) {
    after == before.(state := ReconciliationRequired)
  }

  /** A request is granted in full or changes nothing. */
  lemma RequestOutcome(t: Tables, q: HoldRequest)
    ensures !Grantable(t, q) ==> CreateHold(t, q) == t
    ensures Grantable(t, q) ==>
              var t' := CreateHold(t, q);
              && t'.wallets == t.wallets && t'.ledger == t.ledger && t'.rows == t.rows && t'.usages == t.usages
              && t'.holds.Keys == t.holds.Keys + {q.id}
              && t'.holds[q.id].state == Held && t'.holds[q.id].actual == None
              && t'.holds[q.id].maxRisk == Round(WorstCase(q.limits, q.pricing))
              && t'.holds[q.id].owner == q.owner && t'.holds[q.id].runId == q.runId
              && t'.holds[q.id].modelId == q.modelId && t'.holds[q.id].modelName == q.modelName
              && t'.holds[q.id].limits == q.limits && t'.holds[q.id].pricing == q.pricing
              && forall id :: id in t.holds ==>
                   if t.holds[id].owner == q.owner && t.holds[id].state == Held && id in q.expired
                   then Lapsed(t.holds[id], t'.holds[id]) else t'.holds[id] == t.holds[id]
  {
    hide Reserved, MaxRisk, WorstCase, Open, SetAside, Round;
    WorstCaseIs(q.limits, q.pricing);
    ReservedIs(t.holds, q.owner, None);
    assert OfOneRun(t.holds, q) <==>
      (forall h :: h in t.holds.Values && h.runId == q.runId ==> SameRun(h, q))
    by {
      forall id | id in t.holds
        ensures t.holds[id] in t.holds.Values
      {}
    }
  }

  // ---- Recording ----

  /** What tokens come to at a hold's prices, in exact credits. */
  function Price(n: Tokens, p: Pricing): real {
    BilledMeters.PerMillion(n.prompt - n.cached - n.cacheWrite, p.input as real)
    + BilledMeters.PerMillion(n.completion, p.output as real)
    + BilledMeters.PerMillion(n.cached, p.cached as real)
    + BilledMeters.PerMillion(n.cacheWrite, p.cached as real)
  }

  lemma PriceIs(n: Tokens, p: Pricing)
    ensures ActualCost(p, n) == Price(n, p)
  {
    SplitQuotient((n.prompt - n.cached - n.cacheWrite) as real, n.completion as real, n.cached as real,
                  n.cacheWrite as real, HoldRates(p));
  }

  /** The hold waits for a usage, the usage is new, and its counts are consistent. */
  ghost predicate Reportable(t: Tables, r: Report) {
    && r.holdId in t.holds && t.holds[r.holdId].state == Held && r.usageId !in t.usages
    && (forall u :: u in t.usages.Values ==> u.holdId != r.holdId)
    && (var n := r.tokens;
        && n.prompt + n.completion == n.total && n.cached + n.cacheWrite <= n.prompt
        && 0 <= n.cached && 0 <= n.cacheWrite && 0 <= n.reasoning <= n.completion)
  }

  /**
   A usage that costs more than its hold had set aside is kept for reconciliation, any other is up for
   settlement; either way the hold then sets aside the cost itself.
   */
  lemma ReportOutcome(t: Tables, r: Report)
    ensures !Reportable(t, r) ==> RecordUsage(t, r) == t
    ensures Reportable(t, r) ==>
              var t', h := RecordUsage(t, r), t.holds[r.holdId];
              var cost := Price(r.tokens, h.pricing);
              var over := cost > h.maxRisk as real;
              && t'.wallets == t.wallets && t'.ledger == t.ledger && t'.rows == t.rows && Round(cost) >= 0
              && t'.holds == t.holds[r.holdId := h.(state := if over then HoldDeficit else UsageRecorded,
                                                    actual := Some(Round(cost)))]
              && t'.usages == t.usages[r.usageId := ModelUsage(
                   r.holdId, h.owner, h.runId, h.modelId, h.modelName, r.tokens,
                   if over then UsageReconciliation else Pending, r.occurredAt)]
  {
    hide ActualCost, Price, Round;
    if r.holdId in t.holds {
      PriceIs(r.tokens, t.holds[r.holdId].pricing);
    }
    if Reportable(t, r) {
      CostNonNegative(t.holds[r.holdId].pricing, r.tokens);
    }
    assert (exists id :: id in t.usages && t.usages[id].holdId == r.holdId)
           <==> !(forall u :: u in t.usages.Values ==> u.holdId != r.holdId)
    by {
      forall id | id in t.usages
        ensures t.usages[id] in t.usages.Values
      {}
    }
  }

  // ---- The life of a hold ----

  /** The events that can move this hold on. */
  function Moved(h: Hold, id: string, e: Event, settled: bool): Hold {
    if h.state == Held && e == Release(id) then h.(state := Released)
    else if h.state == Held && e == Unavailable(id) then h.(state := ReconciliationRequired)
    else if h.state == UsageRecorded && settled then h.(state := HoldSettled)
    else h
  }

  /** The event settles a usage of this hold that a worker has read. */
  ghost predicate Settling(w: World, e: Event, id: string) {
    e.SettleItem? && e.item in w.inFlight && e.item.holdId == id && Settle(w.t, e.item).1 == None
  }

  /**
   No event moves a hold but these: it is released, marked for reconciliation or recorded while it is held,
   and settled once recorded. It goes only with its conversation, and then without a usage.
   */
  lemma LifeOfHold(w: World, e: Event, id: string)
    requires id in w.t.holds
    ensures var h, t' := w.t.holds[id], Step(w, e).t;
            if id !in t'.holds then
              e.DeleteConversation? && h.runId in e.runs && forall u :: u in w.t.usages.Values ==> u.runId !in e.runs
            else if e.Record? && e.report.holdId == id && Reportable(w.t, e.report) then
              var cost, actual := Price(e.report.tokens, h.pricing), t'.holds[id].actual;
              && actual.Some? && actual.value == Round(cost)
              && t'.holds[id] == h.(state := if cost > h.maxRisk as real then HoldDeficit else UsageRecorded,
                                    actual := actual)
            else if e.RequestHold? && Grantable(w.t, e.q) && h.owner == e.q.owner && h.state == Held
                    && id in e.q.expired
            then t'.holds[id] == h.(state := ReconciliationRequired)
            else t'.holds[id] == Moved(h, id, e, Settling(w, e, id))
  {
    hide Transact, Debit, SettleDirect, Settle, CreateHold, RecordUsage, Reportable, Grantable, Price, Round;
    match e
    case Wallet(x) => TransactShape(w.t, x);
    case DebitBatch(us, payer) => DebitShape(w.t, us, payer);
    case Direct(input) => DirectShape(w.t, input);
    case SettleItem(item) =>
      if item in w.inFlight {
        SettleShape(w.t, item);
      }
    case RequestHold(q) => RequestOutcome(w.t, q);
    case Record(report) => ReportOutcome(w.t, report);
    case DeleteConversation(runs) => DeleteShape(w.t, runs);
    case _ =>
  }

  lemma DebitShape(t: Tables, us: seq<Usage>, payer: Result<string, Error>)
    ensures Debit(t, us, payer).0.holds == t.holds && Debit(t, us, payer).0.usages == t.usages
  {
    hide Reserved, DebitAll;
  }

  lemma DirectShape(t: Tables, x: UsageInput)
    ensures SettleDirect(t, x).0.holds == t.holds
  {
    hide Debit, Records, Validate;
    DebitShape(t, Records(x, x.eventId), NamedPayer(x.userId));
  }

  lemma SettleShape(t: Tables, item: Item)
    ensures var (t', error) := Settle(t, item);
            t'.holds == if error == None
                        then t.holds[item.holdId := t.holds[item.holdId].(state := HoldSettled)] else t.holds
    ensures Settle(t, item).1 == None ==> item.holdId in t.holds && t.holds[item.holdId].state == UsageRecorded
  {
    hide Reserved, DebitAll, Records, Validate;
  }

  lemma DeleteShape(t: Tables, runs: set<string>)
    ensures var t' := DeleteRuns(t, runs);
            if exists u :: u in t.usages.Values && u.runId in runs then t' == t
            else t' == t.(holds := map id | id in t.holds && t.holds[id].runId !in runs :: t.holds[id])
  {
    forall id | id in t.usages
      ensures t.usages[id] in t.usages.Values
    {}
  }
}
