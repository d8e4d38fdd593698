/** What stands under each meter of an AI usage, in token counts and prices. */
module BilledMeters {
  import opened Wrappers
  import opened Credits
  import opened Ledger
  import opened LedgerInvariants
  import opened AIUsage
  import opened BillingRuns
  import opened BillingTheorems
  import opened Payments
  import opened Replays
  import opened HoldCoverage
  import opened Text

  function MeterKey(id: string, meter: string): UsageKey {
    UsageKey("ai_model_request", id, meter)
  }

  /** Tokens at a price for a million of them. */
  function PerMillion(tokens: int, price: real): real {
    tokens as real / 1000000.0 * price
  }

  /** One record and one debit entry stand under the key, for this user and amount, and for no project. */
  ghost predicate Stands(t: Tables, key: UsageKey, user: string, amount: int) {
    && UsageRow(key, "", user, amount) in t.rows
    && (forall row :: row in t.rows && row.key == key ==> row == UsageRow(key, "", user, amount))
    && (exists e :: e in t.ledger && e.kind == DebitKind && e.key == key)
    && (forall e :: e in t.ledger && e.kind == DebitKind && e.key == key ==>
          e.user == user && e.projectId == "" && e.amount == -amount)
  }

  /** The four meters of a usage, with what its tokens cost under each. */
  ghost predicate MetersStand(t: Tables, id: string, user: string, n: Tokens, input: real, output: real, cached: real) {
    && Stands(t, MeterKey(id, "ai.prompt_tokens_1m"), user,
              Round(PerMillion(n.prompt - n.cached - n.cacheWrite, input)))
    && Stands(t, MeterKey(id, "ai.completion_tokens_1m"), user, Round(PerMillion(n.completion, output)))
    && Stands(t, MeterKey(id, "ai.cached_prompt_tokens_1m"), user, Round(PerMillion(n.cached, cached)))
    && Stands(t, MeterKey(id, "ai.cache_write_prompt_tokens_1m"), user,
              Round(PerMillion(n.cacheWrite, cached)))
  }

  /** The records a usage comes to. */
  lemma RecordsAre(x: UsageInput, id: string)
    ensures var us, n := Records(x, id), x.tokens;
            && us[0] == Usage(MeterKey(id, "ai.prompt_tokens_1m"), "",
                              PerMillion(n.prompt - n.cached - n.cacheWrite, x.rates.input))
            && us[1] == Usage(MeterKey(id, "ai.completion_tokens_1m"), "", PerMillion(n.completion, x.rates.output))
            && us[2] == Usage(MeterKey(id, "ai.cached_prompt_tokens_1m"), "", PerMillion(n.cached, x.rates.cached))
            && us[3] == Usage(MeterKey(id, "ai.cache_write_prompt_tokens_1m"), "",
                              PerMillion(n.cacheWrite, x.rates.cached))
  {}

  /** A record's entry is a debit of the same amount, and there is no other under its key. */
  lemma RowStands(t: Tables, row: UsageRow)
    requires BilledOnce(t) && row in t.rows && row.projectId == ""
    ensures Stands(t, row.key, row.billedUser, row.amount)
  {
    var i :| 0 <= i < |t.rows| && t.rows[i] == row;
    var j := OneEntryPerRecord(t, i);
    hide Debits, BilledOnce;
    assert t.ledger[j] in t.ledger;
    forall e | e in t.ledger && e.kind == DebitKind && e.key == row.key
      ensures e == t.ledger[j]
    {
      var k :| 0 <= k < |t.ledger| && t.ledger[k] == e;
    }
    forall other | other in t.rows && other.key == row.key
      ensures other == row
    {
      SameKeySameRow(t, other, row);
    }
  }

  lemma SameKeySameRow(t: Tables, a: UsageRow, b: UsageRow)
    requires BilledOnce(t) && a in t.rows && b in t.rows && a.key == b.key
    ensures a == b
  {
    var i :| 0 <= i < |t.rows| && t.rows[i] == a;
    var j :| 0 <= j < |t.rows| && t.rows[j] == b;
  }

  lemma RowsOfRecords(t: Tables, x: UsageInput, id: string, user: string)
    requires BilledOnce(t) && forall u :: u in Records(x, id) ==> RowFor(u, user) in t.rows
    ensures MetersStand(t, id, user, x.tokens, x.rates.input, x.rates.output, x.rates.cached)
  {
    var us := Records(x, id);
    RecordsAre(x, id);
    hide Stands, Records, Round, PerMillion, BilledOnce, MeterKey;
    RecordStands(t, us[0], user);
    RecordStands(t, us[1], user);
    RecordStands(t, us[2], user);
    RecordStands(t, us[3], user);
  }

  lemma RecordStands(t: Tables, u: Usage, user: string)
    requires BilledOnce(t) && RowFor(u, user) in t.rows && u.projectId == ""
    ensures Stands(t, u.key, user, Round(u.amount))
  {
    hide Stands, Round, BilledOnce;
    RowStands(t, RowFor(u, user));
  }

  /**
   Over every run in which nothing else is billed under its keys, a settled usage has its uncached prompt
   tokens billed at the hold's input price, its completion tokens at the output price, and tokens read from
   or written to a cache at the cached price: each under its own meter, to its owner, once.
   */
  lemma SettledMeters(es: seq<Event>, id: string)
    requires forall e :: e in es ==> !Foreign(e, id)
    requires IsSettled(Run(EMPTY, es).t, id)
    ensures var t := Run(EMPTY, es).t;
            var u := t.usages[id];
            && u.holdId in t.holds
            && var p := t.holds[u.holdId].pricing;
               MetersStand(t, id, u.owner, u.tokens, p.input as real, p.output as real, p.cached as real)
  {
    SettledIsPaidByOwner(es, id);
    ExactlyOnce(es);
    var t := Run(EMPTY, es).t;
    hide Run, Foreign, BilledOnce, SettledOnce, Records, MetersStand;
    RowsOfRecords(t, ItemOf(t, id).input, id, t.usages[id].owner);
  }

  /** Direct billing of a usage none of whose records exist yet does the same, for its trimmed user. */
  lemma DirectMeters(es: seq<Event>, x: UsageInput)
    requires var (t, error) := SettleDirect(Run(EMPTY, es).t, x); error == None
    requires forall row :: row in Run(EMPTY, es).t.rows ==> !OwnKey(row.key, x.eventId)
    ensures MetersStand(SettleDirect(Run(EMPTY, es).t, x).0, x.eventId, TrimSpace(x.userId), x.tokens,
                        x.rates.input, x.rates.output, x.rates.cached)
  {
    var before, t := Run(EMPTY, es).t, SettleDirect(Run(EMPTY, es).t, x).0;
    RunSnoc(EMPTY, es, Direct(x));
    assert t == Run(EMPTY, es + [Direct(x)]).t;
    ExactlyOnce(es + [Direct(x)]);
    RunKeeps(es, AllRounded);
    LedgerOf(Run(EMPTY, es));
    DirectRecords(before, x);
    hide Run, BilledOnce, SettledOnce, Records, MetersStand, SettleDirect;
    RowsOfRecords(t, x, x.eventId, TrimSpace(x.userId));
  }

  lemma LedgerOf(w: World)
    requires WorldInv(w, AllRounded)
    ensures LedgerInv(w.t, AllRounded)
  {
    hide LedgerInv, Linked, SettledAreBilled, Sourced;
  }

  lemma DirectRecords(before: Tables, x: UsageInput)
    requires SettleDirect(before, x).1 == None
    requires forall row :: row in before.rows ==> !OwnKey(row.key, x.eventId)
    requires LedgerInv(before, AllRounded)
    ensures forall u :: u in Records(x, x.eventId) ==> RowFor(u, TrimSpace(x.userId)) in SettleDirect(before, x).0.rows
  {
    var us, payer, mode := Records(x, x.eventId), NamedPayer(x.userId), AllRounded;
    PayerIsNamed(before, us, payer);
    DebitKeeps(before, us, payer, mode);
    DebitRows(before, us, payer);
    RecordsOwnKeys(x, x.eventId, x.eventId);
    var t := Debit(before, us, payer).0;
    hide Debit, Records, LedgerInv, Round, TrimSpace;
    forall u | u in us
      ensures RowFor(u, payer.value) in t.rows
    {
      var i :| 0 <= i < |t.rows| && t.rows[i].key == u.key;
      assert t.rows[i] in t.rows && OwnKey(u.key, x.eventId);
      var v :| v in us && t.rows[i] == RowFor(v, payer.value);
      SameKeySameRecord(x, x.eventId, u, v);
    }
  }
}
