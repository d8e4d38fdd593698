/** Balances cover the active credit holds: in every reachable state, and exactly when in the one step that can fail. */
module HoldCoverage {
  import opened Wrappers
  import opened Credits
  import opened Sums
  import opened Ledger
  import opened LedgerInvariants
  import opened AIUsage
  import opened BillingRuns
  import opened BillingTheorems

  // ---- Reserved credits ----

  function Share(h: Hold, user: string): nat {
    if h.owner == user && h.state.Active() then h.Credits() else 0
  }

  lemma ReservedSplit(holds: map<string, Hold>, id: string, user: string)
    ensures Reserved(holds, user, None)
            == Reserved(holds, user, Some(id)) + if id in holds then Share(holds[id], user) else 0
  {
    if id in holds && holds[id].owner == user && holds[id].state.Active() {
      ReservedExcluding(holds, user, id);
    } else {
      assert ActiveIds(holds, user, None) == ActiveIds(holds, user, Some(id));
    }
  }

  /** Writing one hold row moves the owner's reserved credits by that row's share. */
  lemma ReservedUpdate(holds: map<string, Hold>, id: string, h: Hold, user: string)
    ensures Reserved(holds[id := h], user, None) == Reserved(holds, user, Some(id)) + Share(h, user)
  {
    var holds' := holds[id := h];
    ReservedSplit(holds', id, user);
    assert ActiveIds(holds', user, Some(id)) == ActiveIds(holds, user, Some(id));
    SumAgrees(ActiveIds(holds, user, Some(id)), CreditsOf(holds), CreditsOf(holds'));
  }

  lemma ExpireReserves(holds: map<string, Hold>, owner: string, expired: set<string>, user: string)
    ensures Reserved(Expire(holds, owner, expired), user, None) == Reserved(holds, user, None)
  {
    var holds' := Expire(holds, owner, expired);
    assert ActiveIds(holds', user, None) == ActiveIds(holds, user, None);
    SumAgrees(ActiveIds(holds, user, None), CreditsOf(holds), CreditsOf(holds'));
  }

  lemma CreateHoldSafe(t: Tables, q: HoldRequest)
    requires HoldSafe(t)
    ensures HoldSafe(CreateHold(t, q))
  {
    hide Reserved;
    var t' := CreateHold(t, q);
    if t' != t {
      var risk := MaxRisk(q.limits, q.pricing);
      var expired := Expire(t.holds, q.owner, q.expired);
      var available := t.wallets[q.owner] - Reserved(t.holds, q.owner, None);
      RoundMonotone(risk, available as real);
      RoundWhole(available);
      RoundedRiskFits(risk, available);
      forall u ensures Reserved(t'.holds, u, None) == Reserved(t.holds, u, None) + Share(t'.holds[q.id], u) {
        ExpireReserves(t.holds, q.owner, q.expired, u);
        ReservedSplit(expired, q.id, u);
        ReservedUpdate(expired, q.id, t'.holds[q.id], u);
      }
    }
  }

  lemma RoundedRiskFits(risk: real, available: int)
    requires risk >= 0.0 && risk <= available as real
    ensures 0 <= Round(risk) <= available
  {
    RoundMonotone(risk, available as real);
    RoundWhole(available);
  }

  lemma CloseHoldSafe(t: Tables, holdId: string, state: HoldState)
    requires HoldSafe(t) && (state == ReconciliationRequired || state == Released)
    ensures HoldSafe(CloseHold(t, holdId, state))
  {
    hide Reserved;
    var t' := CloseHold(t, holdId, state);
    if t' != t {
      forall u ensures Reserved(t'.holds, u, None) <= Reserved(t.holds, u, None) {
        ReservedSplit(t.holds, holdId, u);
        ReservedUpdate(t.holds, holdId, t'.holds[holdId], u);
      }
    }
  }

  lemma DeleteRunsSafe(t: Tables, runs: set<string>)
    requires HoldSafe(t)
    ensures HoldSafe(DeleteRuns(t, runs))
  {
    var t' := DeleteRuns(t, runs);
    forall u
      ensures Reserved(t'.holds, u, None) <= Reserved(t.holds, u, None)
    {
      var ids := ActiveIds(t'.holds, u, None);
      SumAgrees(ids, CreditsOf(t.holds), CreditsOf(t'.holds));
      SumOfFewer(ids, ActiveIds(t.holds, u, None), CreditsOf(t.holds));
    }
  }

  // ---- Recording usage ----

  /** Whether RecordUsage accepts its arguments. */
  predicate Recordable(t: Tables, r: Report) {
    RecordUsage(t, r) != t
  }

  /** What the owner will have reserved once the actual cost replaces the worst case. */
  ghost function ReservedAfter(t: Tables, r: Report): int
    requires r.holdId in t.holds
  {
    var h := t.holds[r.holdId];
    Reserved(t.holds, h.owner, None) - h.maxRisk + Round(ActualCost(h.pricing, r.tokens))
  }

  /** Recording usage keeps balances above holds exactly when the balance covers the recorded cost. */
  lemma RecordHoldSafe(w: World, r: Report, mode: Rounding)
    requires WorldInv(w, mode) && HoldSafe(w.t) && Recordable(w.t, r)
    ensures HoldSafe(RecordUsage(w.t, r)) <==>
              ReservedAfter(w.t, r) <= 0 || ReservedAfter(w.t, r) <= Balance(w.t, w.t.holds[r.holdId].owner)
  {
    hide Reserved, LedgerInv, SettledAreBilled, Sourced, LinkedRow, Cost, ValidTokens, Round, WorstCaseStored;
    var t, t' := w.t, RecordUsage(w.t, r);
    var h := t.holds[r.holdId];
    forall u
      ensures Reserved(t'.holds, u, None) == if u == h.owner then ReservedAfter(t, r) else Reserved(t.holds, u, None)
    {
      ReservedSplit(t.holds, r.holdId, u);
      ReservedUpdate(t.holds, r.holdId, t'.holds[r.holdId], u);
    }
    assert Balance(t', h.owner) == Balance(t, h.owner);
  }

  // ---- Settlement and holds ----

  lemma MarkSettledReserved(t: Tables, usageId: string, holdId: string, user: string)
    requires usageId in t.usages && holdId in t.holds
    ensures Reserved(MarkSettled(t, usageId, holdId).holds, user, None) == Reserved(t.holds, user, Some(holdId))
  {
    ReservedUpdate(t.holds, holdId, t.holds[holdId].(state := HoldSettled), user);
  }

  lemma SettleHoldSafe(w: World, item: Item, mode: Rounding)
    requires WorldInv(w, mode) && mode != Exact && HoldSafe(w.t) && Sourced(w.t, item)
    ensures HoldSafe(Settle(w.t, item).0)
  {
    hide Reserved, LedgerInv, SettledAreBilled, Recorded, DebitForUser, Records, Validate, Linked, ItemOf;
    var t, t' := w.t, Settle(w.t, item).0;
    if Settle(t, item).1 == None {
      var user, excluded := item.input.userId, Exclusion(item.holdId);
      DebitForUserKeeps(t, Records(item.input, item.usageId), user, excluded, mode);
      var t1 := DebitForUser(t, Records(item.input, item.usageId), user, excluded).0;
      forall u | Reserved(t'.holds, u, None) > 0 ensures Balance(t', u) >= Reserved(t'.holds, u, None) {
        MarkSettledReserved(t1, item.usageId, item.holdId, u);
        ReservedSplit(t.holds, item.holdId, u);
        assert Balance(t', u) == Balance(t1, u);
      }
    }
  }

  /** The one step that can leave holds uncovered: recording a cost that the balance does not cover. */
  ghost predicate Covered(w: World, e: Event) {
    e.Record? && Recordable(w.t, e.report) ==>
      ReservedAfter(w.t, e.report) <= 0
          || ReservedAfter(w.t, e.report) <= Balance(w.t, w.t.holds[e.report.holdId].owner)
  }

  lemma StepHoldSafe(w: World, e: Event, mode: Rounding)
    requires WorldInv(w, mode) && mode != Exact && HoldSafe(w.t)
    ensures HoldSafe(Step(w, e).t) <==> Covered(w, e)
  {
    hide Reserved, WorldInv, Transact, Debit, Settle, Records, Validate, HoldSafe, ReservedAfter, CreateHold,
         CloseHold, RecordUsage, DeleteRuns, NamedPayer;
    WorldParts(w, mode);
    match e
    case Wallet(x) => TransactHoldSafe(w.t, x);
    case DebitBatch(us, payer) => DebitKeeps(w.t, us, payer, mode);
    case Direct(input) => DebitKeeps(w.t, Records(input, input.eventId), NamedPayer(input.userId), mode);
    case SettleItem(item) =>
      if item in w.inFlight {
        SettleHoldSafe(w, item, mode);
      }
    case RequestHold(q) => CreateHoldSafe(w.t, q);
    case Record(report) =>
      if Recordable(w.t, report) {
        RecordHoldSafe(w, report, mode);
      }
    case Unavailable(holdId) => CloseHoldSafe(w.t, holdId, ReconciliationRequired);
    case Release(holdId) => CloseHoldSafe(w.t, holdId, Released);
    case DeleteConversation(runs) => DeleteRunsSafe(w.t, runs);
    case _ =>
  }

  lemma WorldParts(w: World, mode: Rounding)
    requires WorldInv(w, mode)
    ensures LedgerInv(w.t, mode) && forall item :: item in w.inFlight ==> Sourced(w.t, item)
  {
    hide LedgerInv, Linked, SettledAreBilled, Sourced;
  }

  // ---- Every run ----

  /** The cost of a report, as it will be stored, is within the worst case its hold has set aside. */
  predicate Affordable(t: Tables, r: Report) {
    Recordable(t, r) ==> Round(ActualCost(t.holds[r.holdId].pricing, r.tokens)) <= t.holds[r.holdId].maxRisk
  }

  /** No balance need be looked at for an affordable report. */
  lemma AffordableIsCovered(w: World, r: Report)
    requires HoldSafe(w.t) && Affordable(w.t, r)
    ensures Covered(w, Record(r))
  {
    hide Reserved, RecordUsage, Cost, Round;
    if Recordable(w.t, r) {
      RecordedHold(w.t, r);
      assert ReservedAfter(w.t, r) <= Reserved(w.t.holds, w.t.holds[r.holdId].owner, None);
    }
  }

  lemma RecordedHold(t: Tables, r: Report)
    requires Recordable(t, r)
    ensures r.holdId in t.holds && t.holds[r.holdId].state == Held && ValidTokens(r.tokens)
  {}

  /** Reports that stay within the token limits of their hold are affordable, rounding and all. */
  lemma WithinIsAffordable(w: World, r: Report, mode: Rounding)
    requires WorldInv(w, mode)
    requires r.holdId in w.t.holds ==> WithinLimits(r.tokens, w.t.holds[r.holdId].limits)
    ensures Affordable(w.t, r)
  {
    hide LedgerInv, UsagesLinked, SettledAreBilled, Sourced, RecordUsage, Cost, MaxRisk, Round, Claimed;
    if Recordable(w.t, r) {
      RecordedHold(w.t, r);
      var h := w.t.holds[r.holdId];
      assert WorstCaseStored(h);
      WorstCaseCovers(r.tokens, h.limits, h.pricing);
      RoundMonotone(ActualCost(h.pricing, r.tokens), MaxRisk(h.limits, h.pricing));
    }
  }

  /** Coverage over every run whose reports are affordable when they are recorded. */
  lemma {:induction false} AffordableRun(es: seq<Event>)
    requires forall i :: 0 <= i < |es| && es[i].Record? ==> Affordable(Run(EMPTY, es[..i]).t, es[i].report)
    ensures HoldSafe(Run(EMPTY, es).t)
    decreases |es|
  {
    hide Step, WorldInv, HoldSafe, Affordable, Covered;
    if es == [] {
      NothingHeld();
    } else {
      var n := |es| - 1;
      var before := Run(EMPTY, es[..n]);
      forall i | 0 <= i < n && es[..n][i].Record?
        ensures Affordable(Run(EMPTY, es[..n][..i]).t, es[..n][i].report)
      {
        assert es[..n][..i] == es[..i];
      }
      AffordableRun(es[..n]);
      RunKeeps(es[..n], AllRounded);
      var mode := AllRounded;
      if es[n].Record? {
        AffordableIsCovered(before, es[n].report);
      } else {
        OtherStepsAreCovered(before, es[n]);
      }
      StepHoldSafe(before, es[n], mode);
    }
  }

  /** A report respects the limits of its hold; all other events do as they like. */
  predicate RespectsLimits(t: Tables, e: Event) {
    e.Record? && e.report.holdId in t.holds ==> WithinLimits(e.report.tokens, t.holds[e.report.holdId].limits)
  }

  /**
   Over every run in which providers keep to the limits they are given, active holds stay covered by the
   balance. No other step of the billing service or the agent needs an assumption.
   */
  lemma HoldSafety(es: seq<Event>)
    requires forall i :: 0 <= i < |es| ==> RespectsLimits(Run(EMPTY, es[..i]).t, es[i])
    ensures HoldSafe(Run(EMPTY, es).t)
  {
    hide Run, WorldInv, HoldSafe, Affordable;
    forall i | 0 <= i < |es| && es[i].Record?
      ensures Affordable(Run(EMPTY, es[..i]).t, es[i].report)
    {
      RunKeeps(es[..i], AllRounded);
      var mode := AllRounded;
      WithinIsAffordable(Run(EMPTY, es[..i]), es[i].report, mode);
    }
    AffordableRun(es);
  }

  lemma OtherStepsAreCovered(w: World, e: Event)
    requires !e.Record?
    ensures Covered(w, e)
  {}

  lemma NothingHeld()
    ensures HoldSafe(EMPTY.t)
  {
    assert forall u :: ActiveIds(EMPTY.t.holds, u, None) == {};
  }

  // ---- Exactly which reports are safe ----

  /** Recording these tokens for a hold with these limits and prices keeps coverage after this run. */
  ghost predicate KeepsCoverage(es: seq<Event>, r: Report, limits: Limits, p: Pricing) {
    var t := Run(EMPTY, es).t;
    (HoldSafe(t) && r.holdId in t.holds && t.holds[r.holdId].limits == limits && t.holds[r.holdId].pricing == p)
    ==> HoldSafe(RecordUsage(t, r))
  }

  /**
   Whether a report with given tokens may be recorded in every reachable state, for a hold with given
   limits and prices: exactly when its cost, as stored, is within the worst case, as stored.
   */
  lemma SafeExactlyWhenAffordable(tokens: Tokens, limits: Limits, p: Pricing)
    requires ValidTokens(tokens) && ValidLimits(limits)
    ensures (forall es: seq<Event>, r: Report :: r.tokens == tokens ==> KeepsCoverage(es, r, limits, p))
            <==> Round(ActualCost(p, tokens)) <= Round(MaxRisk(limits, p))
  {
    if Round(ActualCost(p, tokens)) <= Round(MaxRisk(limits, p)) {
      forall es: seq<Event>, r: Report | r.tokens == tokens
        ensures KeepsCoverage(es, r, limits, p)
      {
        AffordableKeeps(es, r, limits, p);
      }
    } else {
      var es, r := OverrunUncovers(tokens, limits, p);
    }
  }

  lemma AffordableKeeps(es: seq<Event>, r: Report, limits: Limits, p: Pricing)
    requires Round(ActualCost(p, r.tokens)) <= Round(MaxRisk(limits, p))
    ensures KeepsCoverage(es, r, limits, p)
  {
    hide Run, LedgerInv, UsagesLinked, SettledAreBilled, Sourced, RecordUsage, Cost, MaxRisk, Round, Claimed, HoldSafe;
    var mode := AllRounded;
    RunKeeps(es, mode);
    var w := Run(EMPTY, es);
    if HoldSafe(w.t) && r.holdId in w.t.holds && w.t.holds[r.holdId].limits == limits
        && w.t.holds[r.holdId].pricing == p {
      assert WorstCaseStored(w.t.holds[r.holdId]);
      AffordableIsCovered(w, r);
      StepHoldSafe(w, Record(r), mode);
    }
  }

  // ---- An overrun uncovers holds ----

  function NewHold(q: HoldRequest): Hold {
    Hold(q.owner, q.runId, q.modelId, q.modelName, Held, Round(MaxRisk(q.limits, q.pricing)), None, q.pricing, q.limits)
  }

  /** No hold of the run yet. */
  lemma FirstOfRun(holds: map<string, Hold>, q: HoldRequest)
    requires forall id :: id in holds ==> holds[id].runId != q.runId
    ensures OfOneRun(holds, q)
  {}

  /** A request that the unreserved balance covers, made when no hold has expired. */
  lemma Granted(t: Tables, q: HoldRequest)
    requires q.owner in t.wallets && q.id !in t.holds && q.expired == {}
    requires ValidLimits(q.limits) && OfOneRun(t.holds, q)
    requires MaxRisk(q.limits, q.pricing) <= (t.wallets[q.owner] - Reserved(t.holds, q.owner, None)) as real
    ensures CreateHold(t, q) == t.(holds := t.holds[q.id := NewHold(q)])
    ensures Reserved(CreateHold(t, q).holds, q.owner, None) == Reserved(t.holds, q.owner, None) + NewHold(q).maxRisk
  {
    hide Reserved, MaxRisk, Round;
    assert Expire(t.holds, q.owner, {}) == t.holds;
    var risk, available := MaxRisk(q.limits, q.pricing), t.wallets[q.owner] - Reserved(t.holds, q.owner, None);
    RoundedRiskFits(risk, available);
    ReservedSplit(t.holds, q.id, q.owner);
    ReservedUpdate(t.holds, q.id, NewHold(q), q.owner);
  }

  function Recharge(credits: int): Event {
    Wallet(WalletTransaction("u", "", credits as real, Credit, ""))
  }

  lemma Recharged(credits: int)
    requires credits > 0
    ensures var t := Step(EMPTY, Recharge(credits)).t;
            && t.wallets == map["u" := credits] && t.rows == [] && t.holds == map[] && t.usages == map[]
            && Reserved(t.holds, "u", None) == 0
  {
    assert ActiveIds(map[], "u", None) == {};
    RoundWhole(credits);
    assert 0 as real + credits as real == credits as real;
  }

  lemma RunSnoc(w: World, es: seq<Event>, e: Event)
    ensures Run(w, es + [e]) == Step(Run(w, es), e)
  {
    assert (es + [e])[..|es|] == es;
  }

  /** A request whose worst case is a whole number of credits. */
  function WholeRequest(id: string, credits: nat): HoldRequest {
    HoldRequest(id, "u", "r2", "m", "n", Limits(1000000, 256), Pricing(credits, 0, 0), {})
  }

  lemma WholeRisk(id: string, credits: nat)
    ensures var q := WholeRequest(id, credits);
            MaxRisk(q.limits, q.pricing) == credits as real && NewHold(q).maxRisk == credits
  {
    assert (1000000 * credits + 256 * 0) as real / 1000000.0 == credits as real;
    RoundWhole(credits);
  }

  /**
   A recharge, the hold in question, and a hold on all that is left: recording more than the worst case
   then leaves the owner with less than is reserved.
   */
  lemma OverrunUncovers(tokens: Tokens, limits: Limits, p: Pricing) returns (es: seq<Event>, r: Report)
    requires ValidTokens(tokens) && ValidLimits(limits)
    requires Round(ActualCost(p, tokens)) > Round(MaxRisk(limits, p))
    ensures r.tokens == tokens && !KeepsCoverage(es, r, limits, p)
  {
    hide Run, Step, Reserved, MaxRisk, Cost, Round, CreateHold, RecordUsage, HoldSafe, WorldInv;
    var q1 := HoldRequest("h1", "u", "r", "m", "n", limits, p, {});
    var risk := MaxRisk(limits, p);
    var credits := risk.Floor + 2;
    RoundNearest(risk);
    var rest: nat := credits - Round(risk);
    var q2 := WholeRequest("h2", rest);
    var e0, e1, e2 := Recharge(credits), RequestHold(q1), RequestHold(q2);
    es, r := [e0, e1, e2], Report("h1", "x", tokens, 0);
    var t1 := Step(EMPTY, e0).t;
    Recharged(credits);
    Granted(t1, q1);
    var t2 := CreateHold(t1, q1);
    WholeRisk("h2", rest);
    Granted(t2, q2);
    var t3 := CreateHold(t2, q2);
    ThreeSteps(e0, q1, q2);
    assert Run(EMPTY, es).t == t3;
    NoReports(es);
    HoldSafety(es);
    var mode := AllRounded;
    RunKeeps(es, mode);
    Overrun(Run(EMPTY, es), r, q1);
  }

  lemma TwoSteps(e: Event, f: Event)
    ensures Run(EMPTY, [e, f]) == Step(Step(EMPTY, e), f)
  {
    hide Step;
    RunSnoc(EMPTY, [], e);
    RunSnoc(EMPTY, [e], f);
    assert [] + [e] == [e] && [e] + [f] == [e, f];
  }

  lemma ThreeSteps(e: Event, q1: HoldRequest, q2: HoldRequest)
    ensures Run(EMPTY, [e, RequestHold(q1), RequestHold(q2)]).t == CreateHold(CreateHold(Step(EMPTY, e).t, q1), q2)
  {
    TwoSteps(e, RequestHold(q1));
    RunSnoc(EMPTY, [e, RequestHold(q1)], RequestHold(q2));
    hide CreateHold, Run;
    assert [e, RequestHold(q1)] + [RequestHold(q2)] == [e, RequestHold(q1), RequestHold(q2)];
  }

  lemma NoReports(es: seq<Event>)
    requires forall e :: e in es ==> !e.Record?
    ensures forall i :: 0 <= i < |es| ==> RespectsLimits(Run(EMPTY, es[..i]).t, es[i])
  {
    hide Run;
  }

  lemma Overrun(w: World, r: Report, q: HoldRequest)
    requires WorldInv(w, AllRounded) && HoldSafe(w.t) && w.t.usages == map[]
    requires r.holdId in w.t.holds && w.t.holds[r.holdId] == NewHold(q) && ValidTokens(r.tokens)
    requires Round(ActualCost(q.pricing, r.tokens)) > NewHold(q).maxRisk
    requires Reserved(w.t.holds, q.owner, None) == Balance(w.t, q.owner)
    ensures !HoldSafe(RecordUsage(w.t, r))
  {
    hide Reserved, MaxRisk, Cost, Round, HoldSafe, WorldInv;
    var mode := AllRounded;
    CostNonNegative(q.pricing, r.tokens);
    assert Recordable(w.t, r);
    RecordHoldSafe(w, r, mode);
  }

  lemma CostNonNegative(p: Pricing, n: Tokens)
    requires ValidTokens(n)
    ensures Round(ActualCost(p, n)) >= 0
  {
    assert (n.prompt - n.cached - n.cacheWrite) as real * p.input as real >= 0.0;
    assert (n.cached as real + n.cacheWrite as real) * p.cached as real >= 0.0;
    assert n.completion as real * p.output as real >= 0.0;
  }
}
