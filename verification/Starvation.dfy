/** A reachable state in which a whole settlement batch of refused usages keeps all newer ones waiting. */
module Starvation {
  import opened Wrappers
  import opened Credits
  import opened Numerals
  import opened Text
  import opened TextOrder
  import opened Ledger
  import opened LedgerInvariants
  import opened AIUsage
  import opened BillingRuns
  import opened BillingTheorems
  import opened HoldCoverage
  import opened SettlementProgress
  import opened SettlementBatches

  // ---- Any number of refused usages ----

  /** Tokens and prices whose cost is rounded down, and not more than a hold can set aside. */
  predicate Refusable(n: Tokens, p: Pricing) {
    && ValidTokens(n)
    && Round(ActualCost(p, n)) as real < ActualCost(p, n) <= Round(MaxRisk(MAX_LIMITS, p)) as real
  }

  function Request(i: nat, p: Pricing): HoldRequest {
    HoldRequest(Decimal(i), "u", "r", "m", "n", MAX_LIMITS, p, {})
  }

  /** The cost as the hold stores it. */
  function Stored(n: Tokens, p: Pricing): nat
    requires ValidTokens(n)
  {
    CostNonNegative(p, n);
    Round(ActualCost(p, n))
  }

  /** The hold of a usage that is waiting. */
  function UsedHold(n: Tokens, p: Pricing): Hold
    requires ValidTokens(n)
  {
    NewHold(Request(0, p)).(state := UsageRecorded, actual := Some(Stored(n, p)))
  }

  function Holds(k: nat, n: Tokens, p: Pricing): map<string, Hold>
    requires ValidTokens(n)
  {
    if k == 0 then map[] else Holds(k - 1, n, p)[Decimal(k) := UsedHold(n, p)]
  }

  function WaitingUsage(holdId: string, n: Tokens): ModelUsage {
    ModelUsage(holdId, "u", "r", "m", "n", n, Pending, 0)
  }

  function Usages(k: nat, n: Tokens): map<string, ModelUsage> {
    if k == 0 then map[] else Usages(k - 1, n)[Decimal(k) := WaitingUsage(Decimal(k), n)]
  }

  /** Holds for k usages, each of which is recorded. */
  function Filling(k: nat, n: Tokens, p: Pricing): seq<Event> {
    if k == 0 then [] else
    Filling(k - 1, n, p) + [RequestHold(Request(k, p)), Record(Report(Decimal(k), Decimal(k), n, 0))]
  }

  lemma {:induction false} RowsAre(k: nat, n: Tokens, p: Pricing)
    requires ValidTokens(n)
    ensures Holds(k, n, p).Keys == Usages(k, n).Keys && |Usages(k, n)| == k
    ensures forall id :: id in Usages(k, n) ==>
              Digits(id) && 1 <= Value(id) <= k && Holds(k, n, p)[id] == UsedHold(n, p)
              && Usages(k, n)[id] == WaitingUsage(id, n)
  {
    hide Decimal, Value, UsedHold;
    if k > 0 {
      RowsAre(k - 1, n, p);
      assert Value(Decimal(k)) == k;
    }
  }

  lemma {:induction false} HoldsReserve(k: nat, n: Tokens, p: Pricing)
    requires ValidTokens(n)
    ensures Reserved(Holds(k, n, p), "u", None) == k * Stored(n, p)
  {
    hide Decimal, Value, Reserved, Stored, UsedHold;
    if k == 0 {
      NothingReserved("u");
    } else {
      HoldsReserve(k - 1, n, p);
      OneMoreReserved(k, n, p);
      assert k * Stored(n, p) == (k - 1) * Stored(n, p) + Stored(n, p);
    }
  }

  lemma OneMoreReserved(k: nat, n: Tokens, p: Pricing)
    requires ValidTokens(n) && k > 0
    ensures Decimal(k) !in Holds(k - 1, n, p)
    ensures Reserved(Holds(k, n, p), "u", None) == Reserved(Holds(k - 1, n, p), "u", None) + Stored(n, p)
  {
    hide Decimal, Value, Reserved, Stored, UsedHold;
    RowsAre(k - 1, n, p);
    assert Value(Decimal(k)) == k;
    OneReserved(Holds(k - 1, n, p), Decimal(k), n, p);
  }

  lemma OneReserved(holds: map<string, Hold>, id: string, n: Tokens, p: Pricing)
    requires ValidTokens(n) && id !in holds
    ensures Reserved(holds[id := UsedHold(n, p)], "u", None) == Reserved(holds, "u", None) + Stored(n, p)
  {
    hide Reserved, Stored, MaxRisk, Round;
    ReservedSplit(holds, id, "u");
    ReservedUpdate(holds, id, UsedHold(n, p), "u");
  }

  lemma NothingReserved(user: string)
    ensures Reserved(map[], user, None) == 0
  {
    assert ActiveIds(map[], user, None) == {};
  }

  /** A usage recorded within its hold. */
  lemma RecordedWithin(t: Tables, r: Report)
    requires r.holdId in t.holds && t.holds[r.holdId].state == Held && r.usageId !in t.usages && ValidTokens(r.tokens)
    requires forall id :: id in t.usages ==> t.usages[id].holdId != r.holdId
    requires ActualCost(t.holds[r.holdId].pricing, r.tokens) <= t.holds[r.holdId].maxRisk as real
    ensures var h := t.holds[r.holdId];
            RecordUsage(t, r)
            == t.(holds := t.holds[r.holdId := h.(state := UsageRecorded,
                                                   actual := Some(Round(ActualCost(h.pricing, r.tokens))))],
                  usages := t.usages[r.usageId := ModelUsage(r.holdId, h.owner, h.runId, h.modelId, h.modelName,
                                                             r.tokens, Pending, r.occurredAt)])
  {
    hide Cost, Round;
    CostNonNegative(t.holds[r.holdId].pricing, r.tokens);
  }

  /** The tables of one wallet with credits, and k usages that wait. */
  ghost function Filled(credits: int, k: nat, n: Tokens, p: Pricing): Tables
    requires ValidTokens(n)
  {
    Step(EMPTY, Recharge(credits)).t.(holds := Holds(k, n, p), usages := Usages(k, n))
  }

  /** Each further usage is granted its hold and recorded. */
  lemma FillOne(credits: int, k: nat, n: Tokens, p: Pricing)
    requires Refusable(n, p) && k > 0 && credits > 0
    requires MaxRisk(MAX_LIMITS, p) <= (credits - (k - 1) * Stored(n, p)) as real
    ensures RecordUsage(CreateHold(Filled(credits, k - 1, n, p), Request(k, p)),
                        Report(Decimal(k), Decimal(k), n, 0)) == Filled(credits, k, n, p)
  {
    GrantOne(credits, k, n, p);
    FreshId(k - 1, n, p);
    RecordOne(Filled(credits, k - 1, n, p), Decimal(k), n, p);
    hide Step, Decimal, MaxRisk, Round, Cost, CreateHold, RecordUsage, Stored, UsedHold, NewHold, WaitingUsage;
  }

  lemma GrantOne(credits: int, k: nat, n: Tokens, p: Pricing)
    requires Refusable(n, p) && k > 0 && credits > 0
    requires MaxRisk(MAX_LIMITS, p) <= (credits - (k - 1) * Stored(n, p)) as real
    ensures var t := Filled(credits, k - 1, n, p);
            CreateHold(t, Request(k, p)) == t.(holds := t.holds[Decimal(k) := NewHold(Request(0, p))])
  {
    Recharged(credits);
    HoldsReserve(k - 1, n, p);
    SameRun(k - 1, n, p, Request(k, p));
    OneMoreReserved(k, n, p);
    hide Step, Decimal, Reserved, MaxRisk, Round, Stored, CreateHold, Holds, Usages, OfOneRun, UsedHold;
    Granted(Filled(credits, k - 1, n, p), Request(k, p));
  }

  lemma RecordOne(t: Tables, id: string, n: Tokens, p: Pricing)
    requires Refusable(n, p) && id !in t.usages && forall other :: other in t.usages ==> t.usages[other].holdId != id
    ensures RecordUsage(t.(holds := t.holds[id := NewHold(Request(0, p))]), Report(id, id, n, 0))
            == t.(holds := t.holds[id := UsedHold(n, p)], usages := t.usages[id := WaitingUsage(id, n)])
  {
    hide Decimal, MaxRisk, Round, Cost, RecordUsage, ValidTokens;
    var h := NewHold(Request(0, p));
    var t1 := t.(holds := t.holds[id := h]);
    RecordedWithin(t1, Report(id, id, n, 0));
    assert t.holds[id := h][id := UsedHold(n, p)] == t.holds[id := UsedHold(n, p)];
  }

  lemma FreshId(k: nat, n: Tokens, p: Pricing)
    requires ValidTokens(n)
    ensures Decimal(k + 1) !in Usages(k, n)
    ensures forall id :: id in Usages(k, n) ==> Usages(k, n)[id].holdId != Decimal(k + 1)
  {
    hide Decimal, Value, UsedHold;
    RowsAre(k, n, p);
    assert Value(Decimal(k + 1)) == k + 1;
  }

  lemma SameRun(k: nat, n: Tokens, p: Pricing, q: HoldRequest)
    requires ValidTokens(n) && q == Request(k + 1, p)
    ensures OfOneRun(Holds(k, n, p), q)
  {
    hide Decimal, Value, MaxRisk, Round, Stored;
    RowsAre(k, n, p);
  }

  lemma {:induction false} FillingFills(credits: int, k: nat, n: Tokens, p: Pricing)
    requires Refusable(n, p) && credits > 0
    requires MaxRisk(MAX_LIMITS, p) <= (credits - k * Stored(n, p)) as real
    ensures Run(EMPTY, [Recharge(credits)] + Filling(k, n, p)).t == Filled(credits, k, n, p)
  {
    hide Step, Decimal, MaxRisk, Round, Cost, CreateHold, RecordUsage, Stored, Holds, Usages;
    if k == 0 {
      RunSnoc(EMPTY, [], Recharge(credits));
      assert [] + [Recharge(credits)] == [Recharge(credits)] + Filling(0, n, p);
      NothingFilled(credits, n, p);
    } else {
      assert k * Stored(n, p) == (k - 1) * Stored(n, p) + Stored(n, p);
      FillingFills(credits, k - 1, n, p);
      FillOne(credits, k, n, p);
      var before := [Recharge(credits)] + Filling(k - 1, n, p);
      TwoMore(before, Request(k, p), Report(Decimal(k), Decimal(k), n, 0));
      assert before + [RequestHold(Request(k, p)), Record(Report(Decimal(k), Decimal(k), n, 0))]
          == [Recharge(credits)] + Filling(k, n, p);
    }
  }

  lemma NothingFilled(credits: int, n: Tokens, p: Pricing)
    requires ValidTokens(n) && credits > 0
    ensures Filled(credits, 0, n, p) == Step(EMPTY, Recharge(credits)).t
  {
    hide Step;
    Recharged(credits);
  }

  lemma TwoMore(es: seq<Event>, q: HoldRequest, r: Report)
    ensures Run(EMPTY, es + [RequestHold(q), Record(r)]).t == RecordUsage(CreateHold(Run(EMPTY, es).t, q), r)
  {
    RunSnoc(EMPTY, es, RequestHold(q));
    RunSnoc(EMPTY, es + [RequestHold(q)], Record(r));
    hide Run, CreateHold, RecordUsage;
    assert es + [RequestHold(q)] + [Record(r)] == es + [RequestHold(q), Record(r)];
  }

  // ---- Starving a newer usage ----

  function RechargeOf(user: string, credits: int): Event {
    Wallet(WalletTransaction(user, "", credits as real, Credit, ""))
  }

  function NewerRequest(p: Pricing): HoldRequest {
    HoldRequest("hv", "v", "rv", "m", "n", MAX_LIMITS, p, {})
  }

  /** k usages of one owner that wait, a hold on all that owner has left, and a newer usage of another owner. */
  function Starving(k: nat, n: Tokens, p: Pricing): seq<Event>
    requires ValidTokens(n)
  {
    [Recharge(Enough(k, n, p))] + Filling(k, n, p)
    + [RequestHold(WholeRequest("rest", Rest(p))), RechargeOf("v", Rest(p)),
       RequestHold(NewerRequest(p)), Record(Report("hv", "y", n, 1))]
  }

  /** Whole credits for a worst case. */
  function Rest(p: Pricing): (credits: nat)
    ensures credits > 0 && MaxRisk(MAX_LIMITS, p) <= credits as real
  {
    MaxRisk(MAX_LIMITS, p).Floor + 1
  }

  /** And the cost of k usages besides. */
  function Enough(k: nat, n: Tokens, p: Pricing): nat
    requires ValidTokens(n)
  {
    k * Stored(n, p) + Rest(p)
  }

  /** The tables when all of one owner's credits are reserved. */
  ghost function Full(k: nat, n: Tokens, p: Pricing): Tables
    requires ValidTokens(n)
  {
    var t, q := Filled(Enough(k, n, p), k, n, p), WholeRequest("rest", Rest(p));
    t.(holds := t.holds[q.id := NewHold(q)])
  }

  /** A hold on all that is left reserves all there is. */
  lemma RestFits(t: Tables, credits: int, rest: nat)
    requires "u" in t.wallets && t.wallets["u"] == credits && Reserved(t.holds, "u", None) == credits - rest
    requires "rest" !in t.holds && OfOneRun(t.holds, WholeRequest("rest", rest))
    ensures var q := WholeRequest("rest", rest);
            && CreateHold(t, q) == t.(holds := t.holds["rest" := NewHold(q)])
            && Reserved(t.holds["rest" := NewHold(q)], "u", None) == credits
  {
    hide Reserved, MaxRisk, Round, CreateHold, OfOneRun, NewHold;
    WholeRisk("rest", rest);
    Granted(t, WholeRequest("rest", rest));
  }

  lemma FilledIs(credits: int, k: nat, n: Tokens, p: Pricing)
    requires ValidTokens(n) && credits > 0
    ensures var t := Filled(credits, k, n, p);
            t.wallets == map["u" := credits] && t.rows == [] && t.holds == Holds(k, n, p) && t.usages == Usages(k, n)
  {
    hide Step, Holds, Usages;
    Recharged(credits);
  }

  lemma RestGranted(k: nat, n: Tokens, p: Pricing)
    requires Refusable(n, p)
    ensures CreateHold(Filled(Enough(k, n, p), k, n, p), WholeRequest("rest", Rest(p))) == Full(k, n, p)
    ensures Reserved(Full(k, n, p).holds, "u", None) == Enough(k, n, p)
  {
    FilledIs(Enough(k, n, p), k, n, p);
    HoldsReserve(k, n, p);
    NotRest(k, n, p);
    hide Filled, Reserved, Stored, CreateHold, Holds, Usages, OfOneRun, NewHold, Refusable, Rest;
    RestFits(Filled(Enough(k, n, p), k, n, p), Enough(k, n, p), Rest(p));
  }

  lemma NotRest(k: nat, n: Tokens, p: Pricing)
    requires ValidTokens(n)
    ensures "rest" !in Holds(k, n, p) && "hv" !in Holds(k, n, p) && "y" !in Usages(k, n)
    ensures OfOneRun(Holds(k, n, p), WholeRequest("rest", Rest(p)))
  {
    NotDigits("rest");
    NotDigits("hv");
    NotDigits("y");
    hide Decimal, Value, MaxRisk, Round, Stored, Enough, Digits;
    RowsAre(k, n, p);
    FirstOfRun(Holds(k, n, p), WholeRequest("rest", Rest(p)));
  }

  lemma NotDigits(s: string)
    requires s != "" && s[0] > '9'
    ensures !Digits(s)
  {}

  /** A recharge of a user who has no wallet yet. */
  lemma RechargedOther(w: World, user: string, credits: int)
    requires user !in w.t.wallets && user != "" && !IsSpace(user[0]) && credits > 0
    ensures var t := Step(w, RechargeOf(user, credits)).t;
            && t.holds == w.t.holds && t.usages == w.t.usages && t.rows == w.t.rows
            && t.wallets == w.t.wallets[user := credits]
  {
    hide Reserved;
    RoundWhole(credits);
    assert 0 as real + credits as real == credits as real;
  }

  /** The newer usage is granted its hold and recorded, whoever else's credits are reserved. */
  lemma NewerRecorded(t: Tables, n: Tokens, p: Pricing)
    requires Refusable(n, p) && "v" in t.wallets && t.wallets["v"] == Rest(p)
    requires "hv" !in t.holds && "y" !in t.usages
    requires forall id :: id in t.holds ==> t.holds[id].owner == "u" && t.holds[id].runId != "rv"
    requires forall id :: id in t.usages ==> t.usages[id].holdId != "hv"
    ensures RecordUsage(CreateHold(t, NewerRequest(p)), Report("hv", "y", n, 1))
            == t.(holds := t.holds["hv" := NewerHold(n, p)], usages := t.usages["y" := NewerUsage(n)])
  {
    hide Reserved, MaxRisk, Round, Cost, CreateHold, RecordUsage;
    var q, r := NewerRequest(p), Report("hv", "y", n, 1);
    NoneOf(t.holds, "v");
    FirstOfRun(t.holds, q);
    Granted(t, q);
    RecordedWithin(CreateHold(t, q), r);
    assert t.holds["hv" := NewHold(q)]["hv" := NewerHold(n, p)] == t.holds["hv" := NewerHold(n, p)];
  }

  function NewerHold(n: Tokens, p: Pricing): Hold
    requires ValidTokens(n)
  {
    NewHold(NewerRequest(p)).(state := UsageRecorded, actual := Some(Stored(n, p)))
  }

  function NewerUsage(n: Tokens): ModelUsage {
    ModelUsage("hv", "v", "rv", "m", "n", n, Pending, 1)
  }

  lemma NoneOf(holds: map<string, Hold>, user: string)
    requires forall id :: id in holds ==> holds[id].owner != user
    ensures Reserved(holds, user, None) == 0
  {
    assert ActiveIds(holds, user, None) == {};
  }

  lemma FourMore(es: seq<Event>, q: HoldRequest, e: Event, q2: HoldRequest, r: Report)
    ensures var w := Run(EMPTY, es + [RequestHold(q)]);
            && w.t == CreateHold(Run(EMPTY, es).t, q)
            && Run(EMPTY, es + [RequestHold(q), e, RequestHold(q2), Record(r)]).t
               == RecordUsage(CreateHold(Step(w, e).t, q2), r)
  {
    RunSnoc(EMPTY, es, RequestHold(q));
    assert Run(EMPTY, es + [RequestHold(q)]).t == CreateHold(Run(EMPTY, es).t, q);
    RunSnoc(EMPTY, es + [RequestHold(q)], e);
    TwoMore(es + [RequestHold(q)] + [e], q2, r);
    hide Run, CreateHold, RecordUsage, Step;
    assert es + [RequestHold(q)] + [e] + [RequestHold(q2), Record(r)]
        == es + [RequestHold(q), e, RequestHold(q2), Record(r)];
  }

  /** The tables at the end of that run. */
  lemma StarvingRuns(k: nat, n: Tokens, p: Pricing)
    requires Refusable(n, p)
    ensures var t := Run(EMPTY, Starving(k, n, p)).t;
            && t.holds == Full(k, n, p).holds["hv" := NewerHold(n, p)]
            && t.usages == Usages(k, n)["y" := NewerUsage(n)]
            && t.rows == [] && Balance(t, "u") == Enough(k, n, p)
  {
    hide Full, Cost, Round, MaxRisk, RechargeOf, NewerRequest, Run, Step, CreateHold, RecordUsage, Holds, Usages,
         Filling, Stored, Rest, WholeRequest, NewHold, Reserved, Filled, Enough, NewerHold, NewerUsage, Recharge;
    var front, q := [Recharge(Enough(k, n, p))] + Filling(k, n, p), WholeRequest("rest", Rest(p));
    EnoughFits(k, n, p);
    FillingFills(Enough(k, n, p), k, n, p);
    RestGranted(k, n, p);
    FourMore(front, q, RechargeOf("v", Rest(p)), NewerRequest(p), Report("hv", "y", n, 1));
    OwnersAre(k, n, p);
    NewerFollows(Run(EMPTY, front + [RequestHold(q)]), n, p);
    assert Starving(k, n, p)
        == front + [RequestHold(q), RechargeOf("v", Rest(p)), RequestHold(NewerRequest(p)),
                    Record(Report("hv", "y", n, 1))];
  }

  lemma EnoughFits(k: nat, n: Tokens, p: Pricing)
    requires Refusable(n, p)
    ensures Enough(k, n, p) > 0 && MaxRisk(MAX_LIMITS, p) <= (Enough(k, n, p) - k * Stored(n, p)) as real
  {
    hide MaxRisk, Stored, Refusable;
  }

  lemma NewerFollows(w: World, n: Tokens, p: Pricing)
    requires Refusable(n, p) && "v" !in w.t.wallets
    requires "hv" !in w.t.holds && "y" !in w.t.usages
    requires forall id :: id in w.t.holds ==> w.t.holds[id].owner == "u" && w.t.holds[id].runId != "rv"
    requires forall id :: id in w.t.usages ==> w.t.usages[id].holdId != "hv"
    ensures var t := RecordUsage(CreateHold(Step(w, RechargeOf("v", Rest(p))).t, NewerRequest(p)),
                                 Report("hv", "y", n, 1));
            && t.holds == w.t.holds["hv" := NewerHold(n, p)] && t.usages == w.t.usages["y" := NewerUsage(n)]
            && t.rows == w.t.rows && Balance(t, "u") == Balance(w.t, "u")
  {
    hide Step, CreateHold, RecordUsage, Rest, NewHold, NewerHold, NewerUsage, NewerRequest;
    RechargedOther(w, "v", Rest(p));
    NewerRecorded(Step(w, RechargeOf("v", Rest(p))).t, n, p);
  }

  lemma OwnersAre(k: nat, n: Tokens, p: Pricing)
    requires ValidTokens(n)
    ensures var t := Full(k, n, p);
            && (forall id :: id in t.holds ==> t.holds[id].owner == "u" && t.holds[id].runId != "rv")
            && (forall id :: id in t.usages ==> t.usages[id].holdId != "hv")
            && "hv" !in t.holds && "y" !in t.usages && t.usages == Usages(k, n)
            && t.rows == [] && t.wallets == map["u" := Enough(k, n, p)]
  {
    hide Step, Decimal, Value, MaxRisk, Round, Stored, Rest, Digits, Filled, Usages, Holds;
    RowsAre(k, n, p);
    NotRest(k, n, p);
    NotDigits("hv");
    FilledIs(Enough(k, n, p), k, n, p);
    forall id | id in Usages(k, n)
      ensures Usages(k, n)[id].holdId != "hv"
    {
      assert Usages(k, n)[id] == WaitingUsage(id, n) && Digits(id);
    }
  }

  // ---- Refused, and waiting behind them ----

  lemma {:induction false} NothingBilled(us: seq<Usage>)
    ensures Due([], us) == Total(us) && (us != [] ==> AnyDue([], us))
  {
    if us != [] {
      NothingBilled(us[1..]);
      assert us[0] in us;
    }
  }

  /** The outcome for a usage of which nothing is billed yet. */
  lemma UnbilledOutcome(t: Tables, item: Item)
    requires Settleable(t, item) && t.rows == []
    ensures var user := item.input.userId;
            var other := Reserved(t.holds, user, Some(item.holdId));
            Settle(t, item).1
            == if other > 0 && Balance(t, user) as real - Cost(item.input.tokens, item.input.rates) < other as real
               then Some(ReservedBalance) else None
  {
    hide Settleable, Settle, Records, Reserved, Cost, Due, AnyDue;
    RefusedExactly(t, item);
    NothingBilled(Records(item.input, item.usageId));
    RecordsConserveCost(item.input, item.usageId);
  }

  /** A usage in the tables as it was recorded can be settled as far as its own row goes. */
  lemma WaitingIsSettleable(t: Tables, id: string)
    requires Eligible(t, id) && ValidTokens(t.usages[id].tokens)
    requires forall text :: text in Names(t, id) ==> text != "" && !IsSpace(text[0])
    ensures Settleable(t, ItemOf(t, id))
  {
    hide IsSpace, Blank, Validate;
    var u := t.usages[id];
    forall text | text in Names(t, id)
      ensures !Blank(text)
    {
      NotBlank(text);
    }
    assert Names(t, id)[0] == id && Names(t, id)[1] == u.runId && Names(t, id)[2] == u.owner;
    assert Names(t, id)[3] == u.modelId && Names(t, id)[4] == u.modelName && Names(t, id)[5] == u.holdId;
  }

  /** The texts that identify a usage. */
  function Names(t: Tables, id: string): seq<string>
    requires id in t.usages
  {
    var u := t.usages[id];
    [id, u.runId, u.owner, u.modelId, u.modelName, u.holdId]
  }

  /** A usage whose owner has everything reserved, and more than its own cost of it by others, is refused. */
  lemma FullOwnerIsStuck(t: Tables, id: string, n: Tokens, p: Pricing)
    requires Refusable(n, p) && Digits(id) && t.rows == []
    requires id in t.usages && t.usages[id] == WaitingUsage(id, n) && id in t.holds && t.holds[id] == UsedHold(n, p)
    requires Reserved(t.holds, "u", Some(id)) == Balance(t, "u") - Stored(n, p) > 0
    ensures Stuck(t, id)
  {
    hide Reserved, Cost, Round, MaxRisk, Settle, Digits, Settleable, ValidTokens;
    assert id != "" && !IsSpace(id[0]) by {
      DigitIsNoSpace(id);
    }
    WaitingIsSettleable(t, id);
    UnbilledOutcome(t, ItemOf(t, id));
  }

  lemma DigitIsNoSpace(id: string)
    requires Digits(id)
    ensures id != "" && !IsSpace(id[0])
  {}

  lemma EnoughIsMore(k: nat, n: Tokens, p: Pricing)
    requires ValidTokens(n) && k > 0
    ensures Enough(k, n, p) > Stored(n, p)
  {
    hide Stored, Rest;
    assert k * Stored(n, p) == (k - 1) * Stored(n, p) + Stored(n, p);
  }

  lemma OtherOwnerIsApart(holds: map<string, Hold>, h: Hold)
    requires "hv" !in holds && h.owner != "u"
    ensures Reserved(holds["hv" := h], "u", None) == Reserved(holds, "u", None)
  {
    ReservedSplit(holds, "hv", "u");
    ReservedUpdate(holds, "hv", h, "u");
  }

  /** Each of the older usages is refused. */
  lemma FillersAreStuck(k: nat, n: Tokens, p: Pricing, id: string)
    requires Refusable(n, p) && id in Usages(k, n)
    ensures Stuck(Run(EMPTY, Starving(k, n, p)).t, id)
  {
    hide Run, Starving, Holds, Usages, Stored, Rest, Reserved, NewHold, Digits, Cost, Round, MaxRisk, Filled, Enough,
         Stuck, WaitingUsage, NewerUsage, UsedHold;
    var t := Run(EMPTY, Starving(k, n, p)).t;
    StarvingRuns(k, n, p);
    RowsAre(k, n, p);
    NotRest(k, n, p);
    NotDigits("rest");
    NotDigits("hv");
    NotDigits("y");
    FilledHolds(k, n, p);
    RestGranted(k, n, p);
    NewerIsOther(n, p);
    OtherOwnerIsApart(Full(k, n, p).holds, NewerHold(n, p));
    ReservedSplit(t.holds, id, "u");
    EnoughIsMore(k, n, p);
    UsedShare(n, p);
    FullOwnerIsStuck(t, id, n, p);
  }

  lemma NewerIsOther(n: Tokens, p: Pricing)
    requires ValidTokens(n)
    ensures NewerHold(n, p).owner == "v" && "v" != "u"
  {
    hide Stored, MaxRisk, Round;
    assert "v"[0] != "u"[0];
  }

  lemma UsedShare(n: Tokens, p: Pricing)
    requires ValidTokens(n)
    ensures Share(UsedHold(n, p), "u") == Stored(n, p)
  {
    hide Stored, MaxRisk, Round;
  }

  lemma FilledHolds(k: nat, n: Tokens, p: Pricing)
    requires ValidTokens(n)
    ensures Filled(Enough(k, n, p), k, n, p).holds == Holds(k, n, p)
  {}

  /** The newer usage is not: nothing else is reserved for its owner. */
  lemma NewerIsFree(k: nat, n: Tokens, p: Pricing)
    requires Refusable(n, p)
    ensures var t := Run(EMPTY, Starving(k, n, p)).t; Eligible(t, "y") && !Stuck(t, "y")
  {
    hide Run, Starving, Usages, Holds, Stored, Rest, Reserved, NewHold, Cost, Round, MaxRisk, Filled, Enough, Settle,
         Settleable, Full;
    var t := Run(EMPTY, Starving(k, n, p)).t;
    StarvingRuns(k, n, p);
    OwnersAre(k, n, p);
    NewerIsEligible(t, n, p);
    WaitingIsSettleable(t, "y");
    UnbilledOutcome(t, ItemOf(t, "y"));
    NoneBesides(Full(k, n, p).holds, NewerHold(n, p));
  }

  lemma NewerIsEligible(t: Tables, n: Tokens, p: Pricing)
    requires ValidTokens(n) && "y" in t.usages && t.usages["y"] == NewerUsage(n)
    requires "hv" in t.holds && t.holds["hv"] == NewerHold(n, p)
    ensures Eligible(t, "y") && t.usages["y"].tokens == n && t.usages["y"].owner == "v" && t.usages["y"].holdId == "hv"
  {
    hide Stored, MaxRisk, Round;
  }

  lemma NoneBesides(holds: map<string, Hold>, h: Hold)
    requires forall id :: id in holds ==> holds[id].owner == "u"
    ensures Reserved(holds["hv" := h], "v", Some("hv")) == 0
  {
    assert ActiveIds(holds["hv" := h], "v", Some("hv")) == {};
  }

  /** And it comes after all the others. */
  lemma NewerIsLater(k: nat, n: Tokens, p: Pricing, id: string, other: string)
    requires Refusable(n, p) && id in Usages(k, n)
    requires Eligible(Run(EMPTY, Starving(k, n, p)).t, other) && other !in Usages(k, n)
    ensures Sooner(Run(EMPTY, Starving(k, n, p)).t, id, other)
  {
    hide Run, Starving, Usages, Holds, Stored, Full, Less, Digits, NewerHold, UsedHold;
    StarvingRuns(k, n, p);
    RowsAre(k, n, p);
    NotRest(k, n, p);
    assert other == "y";
  }

  /**
   Starvation is reachable, for every size of batch and all tokens and prices whose cost is rounded down and
   that a hold can set aside: with as many refused usages as a batch holds, every batch settles nothing and
   changes nothing, while a newer usage of another owner waits that would settle.
   */
  lemma NewerUsageStarves(limit: nat, n: Tokens, p: Pricing, ids: seq<string>)
    requires Refusable(n, p)
    requires BatchOf(Run(EMPTY, Starving(limit, n, p)).t, ids, limit)
    ensures var t := Run(EMPTY, Starving(limit, n, p)).t;
            && AfterBatch(t, ids) == (t, 0, limit > 0)
            && Eligible(t, "y") && Settle(t, ItemOf(t, "y")).1 == None
  {
    hide Run, Starving, Usages, Stored, Settle, Eligible, Sooner, Reachable, Cost, Round, MaxRisk;
    var t := Run(EMPTY, Starving(limit, n, p)).t;
    var stuck := Usages(limit, n).Keys;
    ReachedByRun(Starving(limit, n, p));
    RowsAre(limit, n, p);
    forall id | id in stuck
      ensures Stuck(t, id)
    {
      FillersAreStuck(limit, n, p, id);
    }
    forall id, other | id in stuck && Eligible(t, other) && other !in stuck
      ensures Sooner(t, id, other)
    {
      NewerIsLater(limit, n, p, id, other);
    }
    StuckStarve(t, stuck, ids, limit);
    NewerIsFree(limit, n, p);
  }
}
