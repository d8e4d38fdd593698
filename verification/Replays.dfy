/** The billing tables only grow, so requests and batches sent again at any later point of a run are recognised. */
module Replays {
  import opened Wrappers
  import opened Credits
  import opened Ledger
  import opened LedgerInvariants
  import opened AIUsage
  import opened BillingRuns
  import opened BillingTheorems

  /** Ledger and usage records are append-only, and wallets stay. */
  ghost predicate Grows(t: Tables, t': Tables) {
    t.ledger <= t'.ledger && t.rows <= t'.rows && t.wallets.Keys <= t'.wallets.Keys
  }

  lemma TransactGrows(t: Tables, x: WalletTransaction)
    ensures Grows(t, Transact(t, x).0)
  {
    hide Reserved, Round;
  }

  lemma {:induction false} DebitAllGrows(b: Batch, us: seq<Usage>, project: string, user: string, reserved: nat)
    requires DebitAll(b, us, project, user, reserved).Ok?
    ensures b.rows <= DebitAll(b, us, project, user, reserved).value.rows
    ensures b.ledger <= DebitAll(b, us, project, user, reserved).value.ledger
    decreases |us|
  {
    hide Recorded, Round;
    if us != [] {
      DebitAllGrows(DebitOne(b, us[0], project, user, reserved).value, us[1..], project, user, reserved);
    }
  }

  lemma DebitForUserGrows(t: Tables, us: seq<Usage>, user: string, excluded: Option<string>)
    requires us != []
    ensures Grows(t, DebitForUser(t, us, user, excluded).0)
  {
    hide Reserved, Round, DebitAll;
    var t1 := EnsureWallet(t, user);
    if DebitAll(Start(t1, user), us, us[0].projectId, user, Reserved(t1.holds, user, excluded)).Ok? {
      DebitAllGrows(Start(t1, user), us, us[0].projectId, user, Reserved(t1.holds, user, excluded));
    }
  }

  lemma DebitGrows(t: Tables, us: seq<Usage>, payer: Result<string, Error>)
    ensures Grows(t, Debit(t, us, payer).0)
  {
    hide DebitForUser;
    if us != [] && payer.Ok? {
      DebitForUserGrows(t, us, payer.value, None);
    }
  }

  lemma SettleGrows(t: Tables, item: Item)
    ensures Grows(t, Settle(t, item).0)
  {
    hide DebitForUser, Records, Validate;
    DebitForUserGrows(t, Records(item.input, item.usageId), item.input.userId, Exclusion(item.holdId));
  }

  lemma StepGrows(w: World, e: Event)
    ensures Grows(w.t, Step(w, e).t)
  {
    hide Transact, Debit, Settle, Records, Validate, CreateHold, RecordUsage, Reserved;
    match e
    case Wallet(x) => TransactGrows(w.t, x);
    case DebitBatch(us, payer) => DebitGrows(w.t, us, payer);
    case Direct(input) => DebitGrows(w.t, Records(input, input.eventId), NamedPayer(input.userId));
    case SettleItem(item) => SettleGrows(w.t, item);
    case RequestHold(q) => CreateHoldStep(w.t, q);
    case Record(report) => RecordGrows(w.t, report);
    case _ =>
  }

  lemma RecordGrows(t: Tables, r: Report)
    ensures Grows(t, RecordUsage(t, r))
  {
    hide ActualCost, Deficit, ValidTokens;
  }

  lemma {:induction false} RunGrows(es: seq<Event>, k: nat)
    requires k <= |es|
    ensures Grows(Run(EMPTY, es[..k]).t, Run(EMPTY, es).t)
    decreases |es|
  {
    hide Step;
    var n := |es| - 1;
    if k == |es| {
      assert es[..k] == es;
    } else {
      assert es[..n][..k] == es[..k];
      RunGrows(es[..n], k);
      StepGrows(Run(EMPTY, es[..n]), es[n]);
    }
  }

  /**
   A wallet transaction that went through with an idempotency key and is sent again at any later point of
   any run changes nothing, and gets the same answer exactly when its amount has at most eight decimals.
   */
  lemma WalletReplayInRun(es: seq<Event>, i: nat, x: WalletTransaction)
    requires i < |es| && es[i] == Wallet(x) && x.idempotencyKey != ""
    requires Transact(Run(EMPTY, es[..i]).t, x).1.Ok?
    ensures var t, later := Run(EMPTY, es[..i]).t, Run(EMPTY, es).t;
            Transact(later, x) == (later, if Whole(x.amount) then Ok(Transact(t, x).1.value) else Err(KeyReused))
  {
    hide Transact, Whole, Booked;
    var t := Run(EMPTY, es[..i]).t;
    assert es[..i + 1][..i] == es[..i];
    assert Run(EMPTY, es[..i + 1]).t == Transact(t, x).0;
    RunGrows(es, i + 1);
    var mode := AllRounded;
    RunKeeps(es, mode);
    UniqueInWorld(Run(EMPTY, es), mode);
    WalletStays(t, x);
    ReplayIsIdempotent(t, x, Run(EMPTY, es).t);
  }

  lemma UniqueInWorld(w: World, mode: Rounding)
    requires WorldInv(w, mode)
    ensures UniqueIdempotency(w.t.ledger)
  {
    hide Linked, SettledAreBilled, UniqueIdempotency, Chained, Sourced;
  }

  lemma WalletStays(t: Tables, x: WalletTransaction)
    requires Transact(t, x).1.Ok?
    ensures x.user in Transact(t, x).0.wallets
  {
    hide Reserved, Round;
  }

  /**
   A debit batch that went through is refused as already settled at any later point of any run, and changes
   nothing.
  */
  lemma DebitReplayInRun(es: seq<Event>, i: nat, us: seq<Usage>, payer: Result<string, Error>, other: string)
    requires i < |es| && es[i] == DebitBatch(us, payer) && us != []
    requires Debit(Run(EMPTY, es[..i]).t, us, payer).1 == None
    ensures Debit(Run(EMPTY, es).t, us, Ok(other)) == (Run(EMPTY, es).t, Some(AlreadySettled))
  {
    hide Debit;
    var t := Run(EMPTY, es[..i]).t;
    assert es[..i + 1][..i] == es[..i];
    assert Run(EMPTY, es[..i + 1]).t == Debit(t, us, payer).0;
    RunGrows(es, i + 1);
    DebitReplayChangesNothing(t, us, payer, Run(EMPTY, es).t, other);
  }

  /** So is a directly billed usage that is reported again. */
  lemma DirectReplayInRun(es: seq<Event>, i: nat, input: UsageInput)
    requires i < |es| && es[i] == Direct(input) && SettleDirect(Run(EMPTY, es[..i]).t, input).1 == None
    ensures SettleDirect(Run(EMPTY, es).t, input) == (Run(EMPTY, es).t, Some(AlreadySettled))
  {
    hide Debit, Records, Validate, NamedPayer;
    var t, us, payer := Run(EMPTY, es[..i]).t, Records(input, input.eventId), NamedPayer(input.userId);
    assert es[..i + 1][..i] == es[..i];
    assert Run(EMPTY, es[..i + 1]).t == Debit(t, us, payer).0;
    RunGrows(es, i + 1);
    PayerIsNamed(t, us, payer);
    DebitReplayChangesNothing(t, us, payer, Run(EMPTY, es).t, payer.value);
  }

  lemma PayerIsNamed(t: Tables, us: seq<Usage>, payer: Result<string, Error>)
    requires us != [] && Debit(t, us, payer).1 == None
    ensures payer.Ok?
  {
    hide DebitForUser;
  }
}
