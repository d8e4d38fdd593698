/** When a pending AI usage can be settled, and the one way in which it can be refused. */
module SettlementProgress {
  import opened Wrappers
  import opened Credits
  import opened Text
  import opened Ledger
  import opened LedgerInvariants
  import opened AIUsage
  import opened BillingRuns
  import opened BillingTheorems
  import opened HoldCoverage

  predicate OneProject(us: seq<Usage>) {
    forall u :: u in us ==> u.projectId == us[0].projectId
  }

  predicate NonNegative(us: seq<Usage>) {
    forall u :: u in us ==> u.amount >= 0.0
  }

  lemma {:induction false} TotalNonNegative(us: seq<Usage>)
    requires NonNegative(us)
    ensures Total(us) >= 0.0
  {
    if us != [] {
      TotalNonNegative(us[1..]);
    }
  }

  /** A batch the balance can pay for on top of the reserved credits passes the guard at every record. */
  lemma {:induction false} BatchFits(b: Batch, us: seq<Usage>, project: string, user: string, reserved: nat)
    requires NonNegative(us) && forall u :: u in us ==> u.projectId == project
    requires reserved > 0 ==> b.balance - Total(us) >= reserved as real
    ensures DebitAll(b, us, project, user, reserved).Ok?
    decreases |us|
  {
    if us != [] {
      hide Round, Recorded;
      TotalNonNegative(us[1..]);
      assert us[0] in us;
      BatchFits(DebitOne(b, us[0], project, user, reserved).value, us[1..], project, user, reserved);
    }
  }

  ghost predicate Fresh(rows: seq<UsageRow>, us: seq<Usage>) {
    && (forall u :: u in us ==> !Recorded(rows, u.key))
    && (forall i, j :: 0 <= i < j < |us| ==> us[i].key != us[j].key)
  }

  lemma FreshRest(rows: seq<UsageRow>, us: seq<Usage>, row: UsageRow)
    requires us != [] && Fresh(rows, us) && row.key == us[0].key
    ensures Fresh(rows + [row], us[1..])
  {
    forall u | u in us[1..] ensures !Recorded(rows + [row], u.key) {
      var i :| 0 <= i < |us[1..]| && us[1..][i] == u;
      assert us[i + 1] == u && us[i + 1].key != us[0].key;
      assert u in us && !Recorded(rows, u.key);
    }
  }

  /** A batch of new records that the balance cannot pay for is refused. */
  lemma {:induction false} BatchRefused(b: Batch, us: seq<Usage>, project: string, user: string, reserved: nat)
    requires NonNegative(us) && (forall u :: u in us ==> u.projectId == project) && us != [] && Fresh(b.rows, us)
    requires reserved > 0 && b.balance - Total(us) < reserved as real
    ensures DebitAll(b, us, project, user, reserved) == Err(ReservedBalance)
    decreases |us|
  {
    hide Round, Recorded;
    assert us[0] in us;
    var next := b.balance - us[0].amount;
    if next >= reserved as real {
      var b' := DebitOne(b, us[0], project, user, reserved).value;
      FreshRest(b.rows, us, b'.rows[|b.rows|]);
      assert Total(us[1..]) > 0.0;
      BatchRefused(b', us[1..], project, user, reserved);
    }
  }

  // ---- Batches of which some records are billed already ----

  /** What a batch still adds: the amounts of the records that do not exist yet. */
  function Due(rows: seq<UsageRow>, us: seq<Usage>): real {
    if us == [] then 0.0 else (if Recorded(rows, us[0].key) then 0.0 else us[0].amount) + Due(rows, us[1..])
  }

  predicate AnyDue(rows: seq<UsageRow>, us: seq<Usage>) {
    exists u :: u in us && !Recorded(rows, u.key)
  }

  lemma {:induction false} DueBounds(rows: seq<UsageRow>, us: seq<Usage>)
    requires NonNegative(us)
    ensures Due(rows, us) >= 0.0 && (!AnyDue(rows, us) ==> Due(rows, us) == 0.0)
  {
    hide Recorded;
    if us != [] {
      assert us[0] in us;
      DueBounds(rows, us[1..]);
    }
  }

  predicate DistinctKeys(us: seq<Usage>) {
    forall i, j :: 0 <= i < j < |us| ==> us[i].key != us[j].key
  }

  lemma {:induction false} DueElsewhere(rows: seq<UsageRow>, row: UsageRow, us: seq<Usage>)
    requires forall u :: u in us ==> u.key != row.key
    ensures Due(rows + [row], us) == Due(rows, us) && (AnyDue(rows + [row], us) <==> AnyDue(rows, us))
  {
    hide Recorded;
    forall u | u in us
      ensures Recorded(rows + [row], u.key) <==> Recorded(rows, u.key)
    {
      AddedRow(rows, row, u.key);
    }
    if us != [] {
      assert us[0] in us;
      DueElsewhere(rows, row, us[1..]);
    }
  }

  lemma AnyDueFirst(rows: seq<UsageRow>, us: seq<Usage>)
    requires us != []
    ensures AnyDue(rows, us) <==> !Recorded(rows, us[0].key) || AnyDue(rows, us[1..])
  {
    hide Recorded;
    assert us == [us[0]] + us[1..];
  }

  /** A batch is refused exactly when it adds something and what all it adds leaves is below the reserved credits. */
  lemma {:induction false} BatchOutcome(b: Batch, us: seq<Usage>, project: string, user: string, reserved: nat)
    requires NonNegative(us) && DistinctKeys(us) && forall u :: u in us ==> u.projectId == project
    ensures DebitAll(b, us, project, user, reserved).Err?
            <==> reserved > 0 && AnyDue(b.rows, us) && b.balance - Due(b.rows, us) < reserved as real
    ensures DebitAll(b, us, project, user, reserved).Err? ==>
              DebitAll(b, us, project, user, reserved).error == ReservedBalance
    decreases |us|
  {
    hide Round, Recorded, AnyDue;
    if us == [] {
      NoneLeft(b.rows);
    } else {
      assert us[0] in us;
      AnyDueFirst(b.rows, us);
      DueBounds(b.rows, us[1..]);
      var next := DebitOne(b, us[0], project, user, reserved);
      if next.Ok? {
        BatchOutcome(next.value, us[1..], project, user, reserved);
        if next.value != b {
          DueElsewhere(b.rows, next.value.rows[|b.rows|], us[1..]);
        }
      }
    }
  }

  lemma NoneLeft(rows: seq<UsageRow>)
    ensures !AnyDue(rows, [])
  {}

  /** A row ready for settlement, with a usable identity. */
  ghost predicate Settleable(t: Tables, item: Item) {
    Sourced(t, item) && Ready(t, item) && Validate(item.input) == None && !Blank(item.holdId)
  }

  lemma RecordsAreOneBatch(x: UsageInput, id: string)
    requires Validate(x) == None
    ensures OneProject(Records(x, id)) && NonNegative(Records(x, id)) && Records(x, id)[0].projectId == ""
  {
    RecordsConserveCost(x, id);
  }

  /**
   Settlement progress: when balances cover holds, and a hold's credits cover the cost of its usage,
   settlement goes through, whatever other holds exist.
   */
  lemma CoveredUsageSettles(t: Tables, item: Item)
    requires HoldSafe(t) && Settleable(t, item) && t.holds[item.holdId].owner == item.input.userId
    requires t.holds[item.holdId].Credits() as real >= Cost(item.input.tokens, item.input.rates)
    ensures Settle(t, item).1 == None
  {
    hide Records, Validate, Cost, Round, Reserved, Blank, Recorded, ItemOf;
    var us, user := Records(item.input, item.usageId), item.input.userId;
    RecordsConserveCost(item.input, item.usageId);
    RecordsAreOneBatch(item.input, item.usageId);
    ReservedSplit(t.holds, item.holdId, user);
    var reserved := Reserved(t.holds, user, Some(item.holdId));
    var t1 := EnsureWallet(t, user);
    BatchFits(Start(t1, user), us, us[0].projectId, user, reserved);
  }

  /**
   The exact condition for any usage, whatever part of it is billed and whatever the balance: it is refused
   exactly when something is still to be billed, other holds reserve credits, and the balance less what is
   still to be billed is below them. Every other outcome is success.
   */
  lemma RefusedExactly(t: Tables, item: Item)
    requires Settleable(t, item)
    ensures var user, us := item.input.userId, Records(item.input, item.usageId);
            var other := Reserved(t.holds, user, Some(item.holdId));
            Settle(t, item).1
            == if other > 0 && AnyDue(t.rows, us) && Balance(t, user) as real - Due(t.rows, us) < other as real
               then Some(ReservedBalance) else None
  {
    hide Records, Validate, Reserved, Blank, Recorded, Sourced, AnyDue, Due;
    var us, user := Records(item.input, item.usageId), item.input.userId;
    RecordsConserveCost(item.input, item.usageId);
    RecordsAreOneBatch(item.input, item.usageId);
    var t1 := EnsureWallet(t, user);
    BatchOutcome(Start(t1, user), us, us[0].projectId, user, Reserved(t.holds, user, Some(item.holdId)));
  }

  /**
   The exact condition. A usage the agent recorded, none of whose records is billed yet, is refused
   with ReservedBalance exactly when the owner's whole balance is reserved, some of it by other holds,
   and the exact cost was rounded down to the amount its hold stores. Every other outcome is success.
   */
  lemma RefusedExactlyWhenRoundedDown(w: World, item: Item, mode: Rounding)
    requires WorldInv(w, mode) && HoldSafe(w.t) && Settleable(w.t, item)
    requires forall u :: u in Records(item.input, item.usageId) ==> !Recorded(w.t.rows, u.key)
    ensures var user := item.input.userId;
            var cost := Cost(item.input.tokens, item.input.rates);
            Settle(w.t, item).1
            == if Reserved(w.t.holds, user, Some(item.holdId)) > 0
                  && Balance(w.t, user) == Reserved(w.t.holds, user, None)
                  && Round(cost) as real < cost
               then Some(ReservedBalance) else None
  {
    hide Records, Validate, Cost, Reserved, Blank, Recorded, LedgerInv, SettledAreBilled;
    var t, user := w.t, item.input.userId;
    var us, cost := Records(item.input, item.usageId), Cost(item.input.tokens, item.input.rates);
    var own, other := t.holds[item.holdId].Credits(), Reserved(t.holds, user, Some(item.holdId));
    assert LinkedRow(t, item.usageId) && own == Round(cost);
    RoundNearest(cost);
    ReservedSplit(t.holds, item.holdId, user);
    RecordsConserveCost(item.input, item.usageId);
    RecordsAreOneBatch(item.input, item.usageId);
    var start := Start(EnsureWallet(t, user), user);
    CostGap(Balance(t, user), other, own, cost);
    if other > 0 && Balance(t, user) as real - cost < other as real {
      BatchRefused(start, us, us[0].projectId, user, other);
    } else {
      BatchFits(start, us, us[0].projectId, user, other);
    }
  }

  /** Between whole quanta, a balance short of the cost by less than half a quantum is not short at all otherwise. */
  lemma CostGap(balance: int, other: nat, own: nat, cost: real)
    requires cost - 0.5 <= own as real && (other > 0 ==> balance >= other + own)
    ensures other > 0 ==> (balance as real - cost < other as real <==> balance == other + own && (own as real) < cost)
  {}

  // ---- Exactly which usages can be refused ----

  ghost predicate Unbilled(t: Tables, item: Item) {
    forall u :: u in Records(item.input, item.usageId) ==> !Recorded(t.rows, u.key)
  }

  /** After this run, a pending usage with these tokens and prices goes through. */
  ghost predicate Settles(es: seq<Event>, id: string, tokens: Tokens, p: Pricing) {
    var t := Run(EMPTY, es).t;
    (HoldSafe(t) && Eligible(t, id) && t.usages[id].tokens == tokens && t.holds[t.usages[id].holdId].pricing == p
     && Settleable(t, ItemOf(t, id)) && Unbilled(t, ItemOf(t, id)))
    ==> Settle(t, ItemOf(t, id)).1 == None
  }

  const MAX_LIMITS := Limits(2097152, 262144)

  /**
   Usages of given tokens and prices always go through exactly when storing their cost does not round it
   down, or when it is more than any hold can set aside, so that they are never up for settlement.
   */
  lemma AlwaysSettlesExactly(tokens: Tokens, p: Pricing)
    requires ValidTokens(tokens)
    ensures (forall es: seq<Event>, id: string :: Settles(es, id, tokens, p))
            <==> Round(ActualCost(p, tokens)) as real >= ActualCost(p, tokens)
                 || ActualCost(p, tokens) > Round(MaxRisk(MAX_LIMITS, p)) as real
  {
    if Round(ActualCost(p, tokens)) as real >= ActualCost(p, tokens)
       || ActualCost(p, tokens) > Round(MaxRisk(MAX_LIMITS, p)) as real {
      forall es: seq<Event>, id: string
        ensures Settles(es, id, tokens, p)
      {
        NotRoundedDownSettles(es, id, tokens, p);
      }
    } else {
      var es := RefusedRun(tokens, p);
      assert !Settles(es, "x", tokens, p);
    }
  }

  lemma NotRoundedDownSettles(es: seq<Event>, id: string, tokens: Tokens, p: Pricing)
    requires Round(ActualCost(p, tokens)) as real >= ActualCost(p, tokens)
             || ActualCost(p, tokens) > Round(MaxRisk(MAX_LIMITS, p)) as real
    ensures Settles(es, id, tokens, p)
  {
    hide Run, WorldInv, HoldSafe, Settleable, Settle, Cost, Round, Records, MaxRisk;
    var mode := AllRounded;
    RunKeeps(es, mode);
    var w := Run(EMPTY, es);
    if HoldSafe(w.t) && Eligible(w.t, id) && Settleable(w.t, ItemOf(w.t, id)) && Unbilled(w.t, ItemOf(w.t, id)) {
      PendingIsWithin(w, id, mode);
      RefusedExactlyWhenRoundedDown(w, ItemOf(w.t, id), mode);
    }
  }

  /** A usage up for settlement costs no more than a hold can set aside at all. */
  lemma PendingIsWithin(w: World, id: string, mode: Rounding)
    requires WorldInv(w, mode) && Eligible(w.t, id)
    ensures var p := w.t.holds[w.t.usages[id].holdId].pricing;
            ActualCost(p, w.t.usages[id].tokens) <= Round(MaxRisk(MAX_LIMITS, p)) as real
  {
    hide LedgerInv, SettledAreBilled, Sourced, Claimed, Cost, MaxRisk, Round;
    var h := w.t.holds[w.t.usages[id].holdId];
    assert LinkedRow(w.t, id) && WorstCaseStored(h);
    LargestRisk(h.limits, h.pricing);
    RoundMonotone(MaxRisk(h.limits, h.pricing), MaxRisk(MAX_LIMITS, h.pricing));
  }

  lemma LargestRisk(limits: Limits, p: Pricing)
    requires ValidLimits(limits)
    ensures MaxRisk(limits, p) <= MaxRisk(MAX_LIMITS, p)
  {
    var rate := if p.input >= p.cached then p.input else p.cached;
    Scaled(rate, limits.context, MAX_LIMITS.context);
    Scaled(p.output, limits.output, MAX_LIMITS.output);
  }

  // ---- A run in which a usage is refused ----

  function LargestRequest(p: Pricing): HoldRequest {
    HoldRequest("h1", "u", "r", "m", "n", MAX_LIMITS, p, {})
  }

  /**
   A recharge, a hold with the largest limits, a usage whose cost is rounded down, and a hold on everything
   that is left: the usage is refused although every hold is covered.
   */
  lemma RefusedRun(tokens: Tokens, p: Pricing) returns (es: seq<Event>)
    requires ValidTokens(tokens) && Round(ActualCost(p, tokens)) as real < ActualCost(p, tokens)
    requires ActualCost(p, tokens) <= Round(MaxRisk(MAX_LIMITS, p)) as real
    ensures !Settles(es, "x", tokens, p)
    ensures HoldSafe(Run(EMPTY, es).t)
  {
    hide Run, Step, Reserved, MaxRisk, Cost, Round, CreateHold, RecordUsage, HoldSafe, WorldInv, Settle, Settleable,
         Unbilled, OfOneRun;
    var q1, r := LargestRequest(p), Report("h1", "x", tokens, 0);
    var risk, cost := MaxRisk(MAX_LIMITS, p), Round(ActualCost(p, tokens));
    RoundNearest(risk);
    CostNonNegative(p, tokens);
    var credits := risk.Floor + 2;
    var rest: nat := credits - cost;
    var q2 := WholeRequest("h2", rest);
    es := [Recharge(credits), RequestHold(q1), Record(r), RequestHold(q2)];
    var t1 := Step(EMPTY, Recharge(credits)).t;
    var t2 := CreateHold(t1, q1);
    var t3 := RecordUsage(t2, r);
    var t4 := CreateHold(t3, q2);
    Recharged(credits);
    FirstOfRun(t1.holds, q1);
    Granted(t1, q1);
    UsageRecordedBy(t2, tokens, p);
    WholeRisk("h2", rest);
    FirstOfRun(t3.holds, q2);
    Granted(t3, q2);
    FourSteps(Recharge(credits), q1, r, q2);
    assert es[..2] == [Recharge(credits), RequestHold(q1)];
    OnlyReport(es, r, q1);
    AffordableRun(es);
    var mode := AllRounded;
    RunKeeps(es, mode);
    FullyReserved(t3, t4, q2);
    RefusedWhenFull(Run(EMPTY, es), tokens, p);
  }

  lemma FourSteps(e: Event, q1: HoldRequest, r: Report, q2: HoldRequest)
    ensures Run(EMPTY, [e, RequestHold(q1)]).t == CreateHold(Step(EMPTY, e).t, q1)
    ensures Run(EMPTY, [e, RequestHold(q1), Record(r), RequestHold(q2)]).t
         == CreateHold(RecordUsage(CreateHold(Step(EMPTY, e).t, q1), r), q2)
  {
    var two, three := [e, RequestHold(q1)], [e, RequestHold(q1), Record(r)];
    TwoSteps(e, RequestHold(q1));
    RunSnoc(EMPTY, two, Record(r));
    RunSnoc(EMPTY, three, RequestHold(q2));
    hide CreateHold, RecordUsage, Run;
    assert two + [Record(r)] == three;
    assert three + [RequestHold(q2)] == [e, RequestHold(q1), Record(r), RequestHold(q2)];
  }

  /** The only report of the run costs, as stored, no more than its hold has set aside. */
  lemma OnlyReport(es: seq<Event>, r: Report, q: HoldRequest)
    requires |es| == 4 && !es[0].Record? && !es[1].Record? && es[2] == Record(r) && !es[3].Record?
    requires r.holdId in Run(EMPTY, es[..2]).t.holds && Run(EMPTY, es[..2]).t.holds[r.holdId] == NewHold(q)
    requires ActualCost(q.pricing, r.tokens) <= NewHold(q).maxRisk as real
    ensures forall i :: 0 <= i < |es| && es[i].Record? ==> Affordable(Run(EMPTY, es[..i]).t, es[i].report)
  {
    hide Run, MaxRisk, Round, Cost;
    RoundMonotone(ActualCost(q.pricing, r.tokens), NewHold(q).maxRisk as real);
    RoundWhole(NewHold(q).maxRisk);
  }

  /** The usage is recorded without a deficit, and its cost takes the place of the worst case. */
  lemma UsageRecordedBy(t: Tables, tokens: Tokens, p: Pricing)
    requires ValidTokens(tokens) && ActualCost(p, tokens) <= Round(MaxRisk(MAX_LIMITS, p)) as real
             && Round(ActualCost(p, tokens)) >= 0
    requires t.usages == map[] && t.holds == map["h1" := NewHold(LargestRequest(p))]
    ensures var h := NewHold(LargestRequest(p)).(state := UsageRecorded, actual := Some(Round(ActualCost(p, tokens))));
            && RecordUsage(t, Report("h1", "x", tokens, 0))
               == t.(holds := map["h1" := h],
                     usages := map["x" := ModelUsage("h1", "u", "r", "m", "n", tokens, Pending, 0)])
            && Reserved(map["h1" := h], "u", None) == Round(ActualCost(p, tokens))
  {
    hide Cost, MaxRisk, Round;
    var h := NewHold(LargestRequest(p)).(state := UsageRecorded, actual := Some(Round(ActualCost(p, tokens))));
    ReservedUpdate(map[], "h1", h, "u");
    assert ActiveIds(map[], "u", Some("h1")) == {};
    assert map[]["h1" := h] == map["h1" := h];
  }

  lemma FullyReserved(t: Tables, t': Tables, q: HoldRequest)
    requires t' == t.(holds := t.holds[q.id := NewHold(q)]) && q.id !in t.holds && q.id != "h1" && q.owner == "u"
    requires "h1" in t.holds && t.holds[q.id := NewHold(q)]["h1"] == t.holds["h1"]
    ensures Reserved(t'.holds, "u", Some("h1")) == Reserved(t'.holds, "u", None) - Share(t.holds["h1"], "u")
  {
    ReservedSplit(t'.holds, "h1", "u");
  }

  lemma RefusedWhenFull(w: World, tokens: Tokens, p: Pricing)
    requires WorldInv(w, AllRounded) && HoldSafe(w.t) && ValidTokens(tokens)
    requires "x" in w.t.usages && w.t.usages["x"] == ModelUsage("h1", "u", "r", "m", "n", tokens, Pending, 0)
            && w.t.rows == []
    requires "h1" in w.t.holds && w.t.holds["h1"].state == UsageRecorded && w.t.holds["h1"].pricing == p
    requires Reserved(w.t.holds, "u", Some("h1")) > 0 && Balance(w.t, "u") == Reserved(w.t.holds, "u", None)
    requires Round(ActualCost(p, tokens)) as real < ActualCost(p, tokens)
    ensures Eligible(w.t, "x") && Settleable(w.t, ItemOf(w.t, "x")) && Unbilled(w.t, ItemOf(w.t, "x"))
    ensures Settle(w.t, ItemOf(w.t, "x")).1 == Some(ReservedBalance)
  {
    hide Reserved, WorldInv, HoldSafe, Settle, Cost, Round, Records, Validate;
    var item, mode := ItemOf(w.t, "x"), AllRounded;
    NamedIsValid(item.input);
    NotBlank("h1");
    assert Unbilled(w.t, item);
    RefusedExactlyWhenRoundedDown(w, item, mode);
  }

  lemma NamedIsValid(x: UsageInput)
    requires x.eventId == "x" && x.runId == "r" && x.userId == "u" && x.modelId == "m" && x.modelName == "n"
    requires ValidTokens(x.tokens) && x.rates.input >= 0.0 && x.rates.output >= 0.0 && x.rates.cached >= 0.0
    ensures Validate(x) == None
  {
    hide Blank;
    NotBlank("x");
    NotBlank("r");
    NotBlank("u");
    NotBlank("m");
    NotBlank("n");
  }

  lemma NotBlank(s: string)
    requires s != "" && !IsSpace(s[0])
    ensures !Blank(s)
  {}

  const FOUR_TOKENS := Tokens(4, 0, 4, 0, 0, 0)

  /** Four tokens at 1.1 quanta each cost 4.4, of which 4 are stored: such a usage can be refused. */
  lemma RoundingCanRefuse() returns (es: seq<Event>)
    ensures HoldSafe(Run(EMPTY, es).t) && !Settles(es, "x", FOUR_TOKENS, Pricing(1100000, 0, 0))
  {
    assert ActualCost(Pricing(1100000, 0, 0), FOUR_TOKENS) == 4400000.0 / 1000000.0 == 4.4;
    assert (4.4 + 0.5).Floor == 4;
    es := RefusedRun(FOUR_TOKENS, Pricing(1100000, 0, 0));
  }
}
