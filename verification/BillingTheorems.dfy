/** What holds of the billing system in every reachable state, over every run. */
module BillingTheorems {
  import opened Credits
  import opened Ledger
  import opened LedgerInvariants
  import opened AIUsage
  import opened BillingRuns

  lemma {:induction false} RunKeeps(es: seq<Event>, mode: Rounding)
    requires forall e :: e in es ==> Admissible(e, mode)
    ensures WorldInv(Run(EMPTY, es), mode)
    decreases |es|
  {
    if es != [] {
      var n := |es| - 1;
      RunKeeps(es[..n], mode);
      StepKeeps(Run(EMPTY, es[..n]), es[n], mode);
    }
  }

  // ---- The ledger chain ----

  /**
   Each balance, and the balance recorded with each entry, is the sum of the user's ledger amounts up
   to that point: exactly, or up to one quantum (10^-8 credit) for each rounded entry.
   */
  ghost predicate Accounted(t: Tables, mode: Rounding) {
    && (forall u :: u in t.wallets ==> Within(t.wallets[u], t.ledger, u, mode))
    && (forall i :: 0 <= i < |t.ledger| ==> Within(t.ledger[i].balanceAfter, t.ledger[..i + 1], t.ledger[i].user, mode))
  }

  lemma LedgerChain(es: seq<Event>, mode: Rounding)
    requires forall e :: e in es ==> Admissible(e, mode)
    ensures Accounted(Run(EMPTY, es).t, mode)
  {
    RunKeeps(es, mode);
    var t := Run(EMPTY, es).t;
    forall u | u in t.wallets ensures Within(t.wallets[u], t.ledger, u, mode) {
      LastBalanceWithin(t.ledger, u, mode);
    }
  }

  /** The chain in exact decimals, spelled out. */
  lemma ExactChain(es: seq<Event>, u: string, i: nat)
    requires forall e :: e in es ==> Admissible(e, Exact)
    ensures var t := Run(EMPTY, es).t;
            && (u in t.wallets ==> t.wallets[u] == UserSum(t.ledger, u))
            && (i < |t.ledger| ==> t.ledger[i].balanceAfter == UserSum(t.ledger[..i + 1], t.ledger[i].user))
  {
    hide Run, UserSum;
    var mode := Exact;
    LedgerChain(es, mode);
    var t := Run(EMPTY, es).t;
    assert u in t.wallets ==> Within(t.wallets[u], t.ledger, u, mode);
    assert i < |t.ledger| ==> Within(t.ledger[i].balanceAfter, t.ledger[..i + 1], t.ledger[i].user, mode);
  }

  // ---- Exactly once ----

  predicate DebitOf(e: Entry, row: UsageRow) {
    e.kind == DebitKind && e.key == row.key && e.user == row.billedUser && e.projectId == row.projectId
        && e.amount == -row.amount
  }

  lemma {:induction false} DebitsPrefix(ledger: seq<Entry>, m: nat)
    requires m <= |ledger|
    ensures Debits(ledger[..m]) <= Debits(ledger)
    decreases |ledger|
  {
    if m < |ledger| {
      var n := |ledger| - 1;
      DebitsPrefix(ledger[..n], m);
      assert ledger[..n][..m] == ledger[..m];
    } else {
      assert ledger[..m] == ledger;
    }
  }

  /** The debit entry at index j stands at position |Debits(ledger[..j])| of the records. */
  lemma DebitPosition(ledger: seq<Entry>, j: nat)
    requires j < |ledger| && ledger[j].kind == DebitKind
    ensures |Debits(ledger[..j])| < |Debits(ledger)| && DebitOf(ledger[j], Debits(ledger)[|Debits(ledger[..j])|])
  {
    hide Debits, UserSum, DebitCount, EntryCount, LastBalance;
    Append(ledger[..j], ledger[j], "");
    assert ledger[..j + 1] == ledger[..j] + [ledger[j]];
    DebitsPrefix(ledger, j + 1);
  }

  lemma {:induction false} EntryOfRow(ledger: seq<Entry>, i: nat) returns (j: nat)
    requires i < |Debits(ledger)|
    ensures j < |ledger| && DebitOf(ledger[j], Debits(ledger)[i])
    decreases |ledger|
  {
    var n := |ledger| - 1;
    if i < |Debits(ledger[..n])| {
      j := EntryOfRow(ledger[..n], i);
    } else {
      j := n;
    }
  }

  lemma OneDebitPerKey(ledger: seq<Entry>, rows: seq<UsageRow>, j: nat, k: nat)
    requires Debits(ledger) == rows && UniqueKeys(rows) && j < k < |ledger|
    requires ledger[j].kind == DebitKind && ledger[k].kind == DebitKind
    ensures ledger[j].key != ledger[k].key
  {
    hide Debits;
    DebitPosition(ledger, j);
    DebitPosition(ledger, k);
    assert ledger[..k][..j] == ledger[..j];
    DebitPosition(ledger[..k], j);
  }

  /**
   At most one usage record per (resource type, resource id, meter), and the debit entries are those
   records, one for one and in the same order.
   */
  ghost predicate BilledOnce(t: Tables) {
    UniqueKeys(t.rows) && Debits(t.ledger) == t.rows
  }

  /** So each usage record has exactly one debit entry. */
  lemma OneEntryPerRecord(t: Tables, i: nat) returns (j: nat)
    requires BilledOnce(t) && i < |t.rows|
    ensures j < |t.ledger| && DebitOf(t.ledger[j], t.rows[i])
    ensures forall k :: 0 <= k < |t.ledger| && k != j && t.ledger[k].kind == DebitKind ==>
            t.ledger[k].key != t.rows[i].key
  {
    j := EntryOfRow(t.ledger, i);
    forall k | 0 <= k < |t.ledger| && k != j && t.ledger[k].kind == DebitKind
      ensures t.ledger[k].key != t.rows[i].key
    {
      if j < k {
        OneDebitPerKey(t.ledger, t.rows, j, k);
      } else {
        OneDebitPerKey(t.ledger, t.rows, k, j);
      }
    }
  }

  /** A usage is settled exactly when its own hold is, and then all four of its records exist. */
  ghost predicate SettledOnce(t: Tables) {
    && (forall id :: id in t.usages ==>
          t.usages[id].holdId in t.holds
              && (t.usages[id].status == UsageSettled <==> t.holds[t.usages[id].holdId].state == HoldSettled))
    && (forall h :: h in t.holds && t.holds[h].state == HoldSettled ==> Claimed(t, h))
    && (forall id :: id in t.usages && t.usages[id].status == UsageSettled ==> Billed(t.rows, id))
  }

  /** Exactly once, under any interleaving, retry and crash. */
  lemma ExactlyOnce(es: seq<Event>)
    ensures BilledOnce(Run(EMPTY, es).t) && SettledOnce(Run(EMPTY, es).t)
  {
    hide UniqueKeys, Debits, Chained, UniqueIdempotency, Billed, Cost, Round, Run;
    RunKeeps(es, AllRounded);
    var t := Run(EMPTY, es).t;
    forall id | id in t.usages
      ensures t.usages[id].holdId in t.holds
              && (t.usages[id].status == UsageSettled <==> t.holds[t.usages[id].holdId].state == HoldSettled)
    {
      assert LinkedRow(t, id);
    }
  }
}
