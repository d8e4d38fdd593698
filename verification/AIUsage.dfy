/**
 AI model usage: validation and token split, settlement of reported usage against its credit hold
 (internal/billing/ai_usage.go), and the agent's side of the hold life cycle
 (luna-agent/src/persistence/postgres.ts).
 */
module AIUsage {
  import opened Wrappers
  import opened Credits
  import opened Text
  import opened TextOrder
  import opened Ledger

  const AI_REQUEST := "ai_model_request"
  const PROMPT := "ai.prompt_tokens_1m"
  const COMPLETION := "ai.completion_tokens_1m"
  const CACHED := "ai.cached_prompt_tokens_1m"
  const CACHE_WRITE := "ai.cache_write_prompt_tokens_1m"
  const BATCH_SIZE := 200

  /** Rates are exact decimals, in quanta per million tokens. */
  datatype Rates = Rates(input: real, output: real, cached: real)

  datatype UsageInput = UsageInput(eventId: string, runId: string, userId: string, modelId: string, modelName: string,
                                   tokens: Tokens, rates: Rates)

  /** One row of the settlement query: usage columns and hold prices as they were when it was read. */
  datatype Item = Item(usageId: string, holdId: string, input: UsageInput)

  predicate ValidTokens(n: Tokens) {
    && 0 <= n.prompt && 0 <= n.completion && 0 <= n.total && 0 <= n.cached && 0 <= n.cacheWrite && 0 <= n.reasoning
    && n.total == n.prompt + n.completion && n.cached + n.cacheWrite <= n.prompt && n.reasoning <= n.completion
  }

  /** validateReportedUsage */
  function Validate(x: UsageInput): (r: Option<Error>)
    ensures r == None <==>
              && (forall text :: text in [x.eventId, x.runId, x.userId, x.modelId, x.modelName] ==> !Blank(text))
              && (var n := x.tokens;
                  && n.prompt + n.completion == n.total && n.cached + n.cacheWrite <= n.prompt
                  && 0 <= n.cached && 0 <= n.cacheWrite && 0 <= n.reasoning <= n.completion)
              && x.rates.input >= 0.0 && x.rates.output >= 0.0 && x.rates.cached >= 0.0
    ensures r != Some(AlreadySettled) && r != Some(ReservedBalance)
  {
    var n := x.tokens;
    if Blank(x.eventId) || Blank(x.runId) || Blank(x.userId) then Some(IdentityIncomplete)
    else if Blank(x.modelId) || Blank(x.modelName) then Some(ModelIncomplete)
    else if n.prompt < 0 || n.completion < 0 || n.total < 0 || n.cached < 0 || n.cacheWrite < 0 || n.reasoning < 0
    then Some(NegativeTokens)
    else if n.total != n.prompt + n.completion || n.cached + n.cacheWrite > n.prompt || n.reasoning > n.completion
    then Some(InvalidRelationships)
    else if x.rates.input < 0.0 || x.rates.output < 0.0 || x.rates.cached < 0.0 then Some(NegativePricing)
    else None
  }

  /** Of several faults the first in this order is reported. */
  lemma FirstFault(x: UsageInput)
    ensures var n := x.tokens;
            var r := Validate(x);
            if exists text :: text in [x.eventId, x.runId, x.userId] && Blank(text) then r == Some(IdentityIncomplete)
            else if exists text :: text in [x.modelId, x.modelName] && Blank(text) then r == Some(ModelIncomplete)
            else if !(0 <= n.prompt && 0 <= n.completion && 0 <= n.total && 0 <= n.cached && 0 <= n.cacheWrite
                      && 0 <= n.reasoning) then r == Some(NegativeTokens)
            else if !(n.prompt + n.completion == n.total && n.cached + n.cacheWrite <= n.prompt
                      && n.reasoning <= n.completion) then r == Some(InvalidRelationships)
            else r == if x.rates.input < 0.0 || x.rates.output < 0.0 || x.rates.cached < 0.0
                      then Some(NegativePricing) else None
  {
    hide Blank;
    assert [x.eventId, x.runId, x.userId][1] == x.runId && [x.eventId, x.runId, x.userId][2] == x.userId;
    assert [x.modelId, x.modelName][1] == x.modelName;
  }

  /** tokenBillingQuantity: millions of tokens, exact in six decimals. */
  function TokenQuantity(tokens: int): real {
    tokens as real / 1000000.0
  }

  function NewRecord(meter: string, tokens: int, rate: real, resourceId: string): Usage {
    Usage(UsageKey(AI_REQUEST, resourceId, meter), "", TokenQuantity(tokens) * rate)
  }

  /** aiUsageRecords: prompt tokens are split into normal, cached and cache-write tokens. */
  function Records(x: UsageInput, resourceId: string): (us: seq<Usage>)
    ensures |us| == 4
  {
    [ NewRecord(PROMPT, x.tokens.prompt - x.tokens.cached - x.tokens.cacheWrite, x.rates.input, resourceId),
      NewRecord(COMPLETION, x.tokens.completion, x.rates.output, resourceId),
      NewRecord(CACHED, x.tokens.cached, x.rates.cached, resourceId),
      NewRecord(CACHE_WRITE, x.tokens.cacheWrite, x.rates.cached, resourceId) ]
  }

  function Total(us: seq<Usage>): real {
    if us == [] then 0.0 else us[0].amount + Total(us[1..])
  }

  /** What the agent computes as the actual cost of a provider response. */
  function Cost(n: Tokens, r: Rates): real {
    ((n.prompt - n.cached - n.cacheWrite) as real * r.input
     + (n.cached as real + n.cacheWrite as real) * r.cached
     + n.completion as real * r.output) / 1000000.0
  }

  /** The four records bill the agent's cost, no more and no less, and none of them is negative. */
  lemma RecordsConserveCost(x: UsageInput, resourceId: string)
    ensures Total(Records(x, resourceId)) == Cost(x.tokens, x.rates)
    ensures Validate(x) == None ==> forall u :: u in Records(x, resourceId) ==> u.amount >= 0.0
    ensures forall i, j :: 0 <= i < j < 4 ==> Records(x, resourceId)[i].key != Records(x, resourceId)[j].key
  {
    var us := Records(x, resourceId);
    TotalOfFour(us[0], us[1], us[2], us[3]);
    SplitQuotient((x.tokens.prompt - x.tokens.cached - x.tokens.cacheWrite) as real, x.tokens.completion as real,
                  x.tokens.cached as real, x.tokens.cacheWrite as real, x.rates);
    if Validate(x) == None {
      RecordsNonNegative(x, resourceId);
    }
    RecordKeysDiffer(x, resourceId);
  }

  lemma TotalOfFour(a: Usage, b: Usage, c: Usage, d: Usage)
    ensures Total([a, b, c, d]) == a.amount + b.amount + c.amount + d.amount
  {
    assert [a, b, c, d][1..] == [b, c, d] && [b, c, d][1..] == [c, d] && [c, d][1..] == [d];
    assert Total([d]) == d.amount + Total([]);
    assert Total([c, d]) == c.amount + Total([d]);
    assert Total([b, c, d]) == b.amount + Total([c, d]);
  }

  lemma RecordsNonNegative(x: UsageInput, resourceId: string)
    requires Validate(x) == None
    ensures forall u :: u in Records(x, resourceId) ==> u.amount >= 0.0
  {
    hide Validate;
    ProductNonNegative(x.tokens.prompt - x.tokens.cached - x.tokens.cacheWrite, x.rates.input);
    ProductNonNegative(x.tokens.completion, x.rates.output);
    ProductNonNegative(x.tokens.cached, x.rates.cached);
    ProductNonNegative(x.tokens.cacheWrite, x.rates.cached);
  }

  lemma RecordKeysDiffer(x: UsageInput, resourceId: string)
    ensures forall i, j :: 0 <= i < j < 4 ==> Records(x, resourceId)[i].key != Records(x, resourceId)[j].key
  {
    assert |PROMPT| == 19 && |COMPLETION| == 23 && |CACHED| == 26 && |CACHE_WRITE| == 31;
  }

  lemma SplitQuotient(a: real, b: real, c: real, d: real, r: Rates)
    ensures a / 1000000.0 * r.input + b / 1000000.0 * r.output + c / 1000000.0 * r.cached + d / 1000000.0 * r.cached
         == (a * r.input + (c + d) * r.cached + b * r.output) / 1000000.0
  {
    assert (c + d) * r.cached == c * r.cached + d * r.cached;
  }

  lemma ProductNonNegative(tokens: int, rate: real)
    requires tokens >= 0 && rate >= 0.0
    ensures TokenQuantity(tokens) * rate >= 0.0
  {}

  // ---- Settlement ----

  function HoldRates(p: Pricing): Rates {
    Rates(p.input as real, p.output as real, p.cached as real)
  }

  /** The settlement query's row for a usage. */
  function ItemOf(t: Tables, id: string): Item
    requires id in t.usages && t.usages[id].holdId in t.holds
  {
    var u := t.usages[id];
    Item(id, u.holdId, UsageInput(id, u.runId, u.owner, u.modelId, u.modelName, u.tokens,
        HoldRates(t.holds[u.holdId].pricing)))
  }

  predicate Eligible(t: Tables, id: string) {
    && id in t.usages && t.usages[id].status == Pending
    && t.usages[id].holdId in t.holds && t.holds[t.usages[id].holdId].state == UsageRecorded
  }

  predicate Done(t: Tables, item: Item) {
    || (item.usageId in t.usages && t.usages[item.usageId].status == UsageSettled)
    || (item.holdId in t.holds && t.holds[item.holdId].state == HoldSettled)
  }

  /** Both rows are still waiting: settlement_status is pending and the hold is usage_recorded. */
  predicate Ready(t: Tables, item: Item) {
    && item.usageId in t.usages && t.usages[item.usageId].status == Pending
    && item.holdId in t.holds && t.holds[item.holdId].state == UsageRecorded
  }

  function MarkSettled(t: Tables, usageId: string, holdId: string): Tables
    requires usageId in t.usages && holdId in t.holds
  {
    t.(usages := t.usages[usageId := t.usages[usageId].(status := UsageSettled)],
       holds := t.holds[holdId := t.holds[holdId].(state := HoldSettled)])
  }

  /** settleReportedAIUsage: one transaction. */
  ghost function Settle(t: Tables, item: Item): (Tables, Option<Error>) {
    if Done(t, item) then (t, Some(AlreadySettled))
    else if !Ready(t, item) then (t, Some(NotEligible))
    else if Validate(item.input).Some? then (t, Validate(item.input))
    else
      var (t1, error) := DebitForUser(t, Records(item.input, item.usageId), item.input.userId, Exclusion(item.holdId));
      if error.Some? && error != Some(AlreadySettled) then (t, error)
      else (MarkSettled(t1, item.usageId, item.holdId), None)
  }

  /** SettleAIModelUsage: bill reported usage directly, without a hold. */
  ghost function SettleDirect(t: Tables, x: UsageInput): (Tables, Option<Error>) {
    if Validate(x).Some? then (t, Validate(x)) else Debit(t, Records(x, x.eventId), NamedPayer(x.userId))
  }

  /** The loop of SettlePendingAIModelUsage: the tables, how many settled, and whether one failed. */
  ghost function SettleAll(t: Tables, pending: seq<Item>): (Tables, nat, bool)
    decreases |pending|
  {
    if pending == [] then (t, 0, false) else
    var n := |pending| - 1;
    var (t1, settled, failed) := SettleAll(t, pending[..n]);
    var (t2, error) := Settle(t1, pending[n]);
    if error == None then (t2, settled + 1, failed)
    else (t2, settled, failed || error != Some(AlreadySettled))
  }

  lemma SettleAllStep(t: Tables, done: seq<Item>, item: Item)
    ensures var (t1, settled, failed) := SettleAll(t, done);
            var (t2, error) := Settle(t1, item);
            SettleAll(t, done + [item])
            == (t2, if error == None then settled + 1 else settled,
                failed || (error != None && error != Some(AlreadySettled)))
  {
    assert (done + [item])[..|done|] == done;
  }

  method SettleReportedAIUsage(db: Database, item: Item) returns (error: Option<Error>)
    modifies db
    ensures (db.View(), error) == Settle(old(db.View()), item)
  {
    var saved := db.View();
    db.EnsureWalletRow(item.input.userId);
    error := if Done(db.View(), item) then Some(AlreadySettled)
             else if !Ready(db.View(), item) then Some(NotEligible)
             else Validate(item.input);
    if error == None {
      error := db.DebitUsagesForUser(Records(item.input, item.usageId), item.input.userId, Exclusion(item.holdId));
      if error == Some(AlreadySettled) {
        error := None;
      }
    }
    if error.Some? {
      db.Restore(saved);
      return;
    }
    db.usages := db.usages[item.usageId := db.usages[item.usageId].(status := UsageSettled)];
    db.holds := db.holds[item.holdId := db.holds[item.holdId].(state := HoldSettled)];
  }

  method SettleAIModelUsage(db: Database, x: UsageInput) returns (error: Option<Error>)
    modifies db
    ensures (db.View(), error) == SettleDirect(old(db.View()), x)
  {
    error := Validate(x);
    if error == None {
      error := db.DebitUserUsages(Records(x, x.eventId), x.userId);
    }
  }

  function TimeOf(t: Tables, id: string): int {
    if id in t.usages then t.usages[id].occurredAt else 0
  }

  /** The order of the settlement query: by time, then by identifier. */
  predicate Sooner(t: Tables, a: string, b: string) {
    TimeOf(t, a) < TimeOf(t, b) || (TimeOf(t, a) == TimeOf(t, b) && Less(a, b))
  }

  lemma SoonerIsTotal(t: Tables, a: string, b: string)
    ensures Sooner(t, a, b) || Sooner(t, b, a) <==> a != b
    ensures !(Sooner(t, a, b) && Sooner(t, b, a))
  {
    LessIsTotal(a, b);
  }

  lemma SoonerIsTransitive(t: Tables, a: string, b: string, c: string)
    requires Sooner(t, a, b) && Sooner(t, b, c)
    ensures Sooner(t, a, c)
  {
    hide Less;
    if TimeOf(t, a) == TimeOf(t, b) == TimeOf(t, c) {
      LessIsTransitive(a, b, c);
    }
  }

  /** ids lists eligible usages in order, and all that is left out comes after all that is listed. */
  ghost predicate OldestFirst(t: Tables, ids: seq<string>) {
    && (forall id :: id in ids ==> Eligible(t, id))
    && (forall i, j :: 0 <= i < j < |ids| ==> Sooner(t, ids[i], ids[j]))
    && (forall id, i :: Eligible(t, id) && id !in ids && 0 <= i < |ids| ==> Sooner(t, ids[i], id))
  }

  /** What the settlement query answers: the oldest eligible usages, as many as there are up to the limit. */
  ghost predicate BatchOf(t: Tables, ids: seq<string>, limit: nat) {
    OldestFirst(t, ids) && |ids| <= limit && (|ids| < limit ==> forall id :: Eligible(t, id) ==> id in ids)
  }

  method Oldest(db: Database, ids: set<string>) returns (oldest: string)
    requires ids != {} && ids <= db.usages.Keys
    ensures oldest in ids
    ensures forall id :: id in ids && id != oldest ==> Sooner(db.View(), oldest, id)
  {
    hide Sooner;
    oldest :| oldest in ids;
    var left := ids - {oldest};
    while left != {}
      invariant oldest in ids && left <= ids - {oldest}
      invariant forall id :: id in ids && id !in left && id != oldest ==> Sooner(db.View(), oldest, id)
    {
      var id :| id in left;
      left := left - {id};
      SoonerIsTotal(db.View(), oldest, id);
      if Sooner(db.View(), id, oldest) {
        forall other | other in ids && other !in left && other != id && other != oldest
          ensures Sooner(db.View(), id, other)
        {
          SoonerIsTransitive(db.View(), id, oldest, other);
        }
        oldest := id;
      }
    }
  }

  method SelectPending(db: Database, limit: nat) returns (ids: seq<string>)
    ensures BatchOf(db.View(), ids, limit)
  {
    hide Eligible, Sooner;
    var t := db.View();
    var left := set id | id in t.usages && Eligible(t, id);
    EligibleUsages(t);
    ids := [];
    while left != {} && |ids| < limit
      invariant |ids| <= limit && left <= t.usages.Keys && db.View() == t
      invariant forall id :: Eligible(t, id) <==> id in left || id in ids
      invariant forall id :: id in ids ==> id !in left
      invariant OldestFirst(t, ids)
      decreases |left|
    {
      var next := Oldest(db, left);
      ids := ids + [next];
      left := left - {next};
    }
  }

  lemma EligibleUsages(t: Tables)
    ensures forall id :: Eligible(t, id) ==> id in t.usages
  {}

  /** The limit that is used: 200 unless a smaller positive one is given. */
  function BatchLimit(limit: int): (r: nat)
    ensures 1 <= r <= 200 && (1 <= limit <= 200 ==> r == limit) && (limit < 1 || limit > 200 ==> r == 200)
  {
    if limit <= 0 || limit > BATCH_SIZE then BATCH_SIZE else limit
  }

  /** The batch, and the rows it read before the first of its transactions. */
  method SettlePendingAIModelUsage(db: Database, limit: int)
    returns (settled: nat, failed: bool, ghost ids: seq<string>)
    modifies db
    ensures BatchOf(old(db.View()), ids, BatchLimit(limit))
    ensures (forall i :: 0 <= i < |ids| ==> Eligible(old(db.View()), ids[i]))
            && (db.View(), settled, failed) == SettleAll(old(db.View()), ItemsOf(old(db.View()), ids))
  {
    hide Settle, Eligible, Sooner;
    var selected := SelectPending(db, if limit <= 0 || limit > BATCH_SIZE then BATCH_SIZE else limit);
    ids := selected;
    settled, failed := SettleItems(db, ItemsOf(db.View(), selected));
  }

  /** The rows of the listed usages, in order. */
  function ItemsOf(t: Tables, ids: seq<string>): seq<Item>
    requires forall i :: 0 <= i < |ids| ==> Eligible(t, ids[i])
  {
    if ids == [] then [] else
    assert Eligible(t, ids[|ids| - 1]);
    ItemsOf(t, ids[..|ids| - 1]) + [ItemOf(t, ids[|ids| - 1])]
  }

  method SettleItems(db: Database, items: seq<Item>) returns (settled: nat, failed: bool)
    modifies db
    ensures (db.View(), settled, failed) == SettleAll(old(db.View()), items)
  {
    hide Settle;
    ghost var t := db.View();
    settled, failed := 0, false;
    var i := 0;
    while i < |items|
      invariant 0 <= i <= |items|
      invariant (db.View(), settled, failed) == SettleAll(t, items[..i])
    {
      ghost var before := db.View();
      SettleAllStep(t, items[..i], items[i]);
      assert items[..i + 1] == items[..i] + [items[i]];
      var error := SettleReportedAIUsage(db, items[i]);
      assert (db.View(), error) == Settle(before, items[i]);
      if error == None {
        settled := settled + 1;
      } else if error != Some(AlreadySettled) {
        failed := true;
      }
      i := i + 1;
    }
    assert items[..i] == items;
  }

  // ---- The agent's side of a hold ----

  function MaxRisk(limits: Limits, p: Pricing): (r: real)
    ensures r >= 0.0
  {
    var promptRate := if p.input >= p.cached then p.input else p.cached;
    (limits.context * promptRate + limits.output * p.output) as real / 1000000.0
  }

  /** The bounds the schema sets on the token limits of a run, and so on those its holds copy. */
  predicate ValidLimits(limits: Limits) {
    4096 <= limits.context <= 2097152 && 256 <= limits.output <= 262144 && limits.output < limits.context
  }

  predicate WithinLimits(n: Tokens, limits: Limits) {
    n.prompt <= limits.context && n.completion <= limits.output
  }

  /** The worst case covers every usage within the token limits it was computed for. */
  lemma WorstCaseCovers(n: Tokens, limits: Limits, p: Pricing)
    requires ValidTokens(n) && WithinLimits(n, limits)
    ensures Cost(n, HoldRates(p)) <= MaxRisk(limits, p)
  {
    var normal, special := n.prompt - n.cached - n.cacheWrite, n.cached + n.cacheWrite;
    PriceBound(normal, special, n.completion, limits.context, limits.output, p);
    assert normal as real * p.input as real == (normal * p.input) as real;
    assert special as real * p.cached as real == (special * p.cached) as real;
    assert n.completion as real * p.output as real == (n.completion * p.output) as real;
  }

  /** And no smaller amount would do: some usage within the limits costs exactly that. */
  lemma WorstCaseIsReached(limits: Limits, p: Pricing) returns (n: Tokens)
    ensures ValidTokens(n) && WithinLimits(n, limits) && Cost(n, HoldRates(p)) == MaxRisk(limits, p)
  {
    var c, o := limits.context, limits.output;
    n := Tokens(c, o, c + o, if p.input >= p.cached then 0 else c, 0, 0);
    assert c as real * p.input as real == (c * p.input) as real;
    assert c as real * p.cached as real == (c * p.cached) as real;
    assert o as real * p.output as real == (o * p.output) as real;
  }

  lemma PriceBound(normal: nat, special: nat, completion: nat, context: nat, output: nat, p: Pricing)
    requires normal + special <= context && completion <= output
    ensures var rate := if p.input >= p.cached then p.input else p.cached;
            normal * p.input + special * p.cached + completion * p.output <= context * rate + output * p.output
  {
    var rate := if p.input >= p.cached then p.input else p.cached;
    Scaled(normal, p.input, rate);
    Scaled(special, p.cached, rate);
    Scaled(rate, normal + special, context);
    Scaled(p.output, completion, output);
    assert (normal + special) * rate == normal * rate + special * rate;
  }

  lemma Scaled(factor: nat, a: nat, b: nat)
    requires a <= b
    ensures factor * a <= factor * b && a * factor <= b * factor
  {}

  /**
   Within those limits the agent finds a deficit only when the hold's stored worst case was rounded
   down, and a usage that costs exactly the worst case is then always one.
   */
  lemma DeficitOnlyByRounding(n: Tokens, limits: Limits, p: Pricing)
    requires ValidTokens(n) && WithinLimits(n, limits)
    ensures var risk := MaxRisk(limits, p);
            && (ActualCost(p, n) > Round(risk) as real ==>
                Round(risk) as real < risk && ActualCost(p, n) - Round(risk) as real <= 0.5)
            && (ActualCost(p, n) == risk ==> (ActualCost(p, n) > Round(risk) as real <==> Round(risk) as real < risk))
  {
    hide Cost, MaxRisk;
    WorstCaseCovers(n, limits, p);
    RoundNearest(MaxRisk(limits, p));
  }

  function Expire(holds: map<string, Hold>, owner: string, expired: set<string>): map<string, Hold> {
    map id | id in holds ::
      if holds[id].owner == owner && holds[id].state == Held && id in expired then
          holds[id].(state := ReconciliationRequired)
      else holds[id]
  }

  datatype HoldRequest = HoldRequest(id: string, owner: string, runId: string, modelId: string, modelName: string,
                                     limits: Limits, pricing: Pricing, expired: set<string>)

  /** A hold copies owner, model, limits and prices from its run, so all holds of a run agree on them. */
  predicate OfOneRun(holds: map<string, Hold>, q: HoldRequest) {
    forall id :: id in holds && holds[id].runId == q.runId ==>
      && holds[id].owner == q.owner && holds[id].modelId == q.modelId && holds[id].modelName == q.modelName
      && holds[id].limits == q.limits && holds[id].pricing == q.pricing
  }

  /** createModelCreditHold: refused unless the unreserved balance covers the worst case. */
  ghost function CreateHold(t: Tables, q: HoldRequest): Tables {
    var risk := MaxRisk(q.limits, q.pricing);
    if q.owner !in t.wallets || q.id in t.holds || !ValidLimits(q.limits) || !OfOneRun(t.holds, q) then t
    else if risk > (t.wallets[q.owner] - Reserved(t.holds, q.owner, None)) as real then t
    else
      t.(holds := Expire(t.holds, q.owner, q.expired)[q.id :=
           Hold(q.owner, q.runId, q.modelId, q.modelName, Held, Round(risk), None, q.pricing, q.limits)])
  }

  function ActualCost(p: Pricing, tokens: Tokens): real {
    Cost(tokens, HoldRates(p))
  }

  /** The provider reported more than the hold had set aside. */
  predicate Deficit(t: Tables, holdId: string, tokens: Tokens) {
    holdId in t.holds && ActualCost(t.holds[holdId].pricing, tokens) > t.holds[holdId].maxRisk as real
  }

  /** A provider response about to be recorded for a hold. */
  datatype Report = Report(holdId: string, usageId: string, tokens: Tokens, occurredAt: int)

  /** recordReportedModelUsage, with the schema's check and uniqueness constraints. */
  function RecordUsage(t: Tables, r: Report): Tables {
    if r.holdId !in t.holds || t.holds[r.holdId].state != Held then t
    else if r.usageId in t.usages || !ValidTokens(r.tokens)
        || (exists id :: id in t.usages && t.usages[id].holdId == r.holdId) then t
    else
      var h := t.holds[r.holdId];
      var actual := Round(ActualCost(h.pricing, r.tokens));
      var deficit := Deficit(t, r.holdId, r.tokens);
      if actual < 0 then t
      else
        t.(holds := t.holds[r.holdId := h.(state := if deficit then HoldDeficit else UsageRecorded,
                                           actual := Some(actual))],
           usages := t.usages[r.usageId := ModelUsage(r.holdId, h.owner, h.runId, h.modelId, h.modelName, r.tokens,
                                                      if deficit then UsageReconciliation else Pending, r.occurredAt)])
  }

  /** markModelUsageUnavailable and releaseModelCreditHold. */
  function CloseHold(t: Tables, holdId: string, state: HoldState): Tables
    requires state == ReconciliationRequired || state == Released
  {
    if holdId in t.holds && t.holds[holdId].state == Held then
        t.(holds := t.holds[holdId := t.holds[holdId].(state := state)])
    else t
  }

  /**
   deleteConversation: the conversation's runs go and their holds with them. Usages restrict the deletion
   of their holds, so nothing is deleted while one of the runs has a usage.
   */
  function DeleteRuns(t: Tables, runs: set<string>): Tables {
    if exists id :: id in t.usages && t.usages[id].runId in runs then t
    else t.(holds := map h | h in t.holds && t.holds[h].runId !in runs :: t.holds[h])
  }
}
