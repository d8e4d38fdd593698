/**
 Wallets, the billing ledger and keyed usage debits (internal/billing/ledger.go). The tables are
 described as values by the functions; class Database holds them as fields and runs the same
 transactions step by step, with rollback.
 */
module Ledger {
  import opened Wrappers
  import opened Credits
  import opened Sums
  import opened Text

  datatype UsageKey = UsageKey(resourceType: string, resourceId: string, meter: string)

  /** A usage record about to be billed: its amount is still exact. */
  datatype Usage = Usage(key: UsageKey, projectId: string, amount: real)

  /** A stored usage record. */
  datatype UsageRow = UsageRow(key: UsageKey, projectId: string, billedUser: string, amount: int)

  /** The transaction types: "" in a request, "credit", "adjustment", "debit", and any other text. */
  datatype EntryKind = Unset | Credit | Adjustment | DebitKind | Other(name: string)

  datatype Entry = Entry(user: string, projectId: string, kind: EntryKind, amount: int, balanceAfter: int,
                         key: UsageKey, idempotencyKey: string)

  datatype HoldState = Held | Released | UsageRecorded | HoldDeficit | ReconciliationRequired | HoldSettled
  {
    predicate Active() {
      Held? || UsageRecorded? || HoldDeficit? || ReconciliationRequired?
    }
  }

  /** Rates are per million tokens. The schema's check constraints keep every amount non-negative. */
  datatype Pricing = Pricing(input: nat, output: nat, cached: nat)

  /** The token limits a hold was granted for, max_context_tokens_snapshot and max_output_tokens_snapshot. */
  datatype Limits = Limits(context: nat, output: nat)

  datatype Hold = Hold(owner: string, runId: string, modelId: string, modelName: string,
                       state: HoldState, maxRisk: nat, actual: Option<nat>, pricing: Pricing, limits: Limits)
  {
    /** COALESCE(actual_credits, max_risk_credits) */
    function Credits(): nat {
      if actual.Some? then actual.value else maxRisk
    }
  }

  datatype Tokens = Tokens(prompt: int, completion: int, total: int, cached: int, cacheWrite: int, reasoning: int)

  datatype SettlementStatus = Pending | UsageReconciliation | UsageSettled

  datatype ModelUsage = ModelUsage(holdId: string, owner: string, runId: string, modelId: string, modelName: string,
                                   tokens: Tokens, status: SettlementStatus, occurredAt: int)

  datatype Tables = Tables(wallets: map<string, int>, ledger: seq<Entry>, rows: seq<UsageRow>,
                           holds: map<string, Hold>, usages: map<string, ModelUsage>)

  datatype Error =
    | UserRequired | ZeroAmount | UnsupportedType | NegativeRecharge | KeyReused
    | ReservedBalance | MixedProjects | AlreadySettled
    | IdentityIncomplete | ModelIncomplete | NegativeTokens | InvalidRelationships | NegativePricing
    | NotEligible | UnknownProject | NoOwner | NoRate

  const WALLET := "user_wallet"

  // ---- Credit holds ----

  function ActiveIds(holds: map<string, Hold>, user: string, excluded: Option<string>): set<string> {
    set id | id in holds && holds[id].owner == user && holds[id].state.Active() && Some(id) != excluded
  }

  /** A blank reservation id excludes nothing. */
  function Exclusion(reservationId: string): Option<string> {
    if Blank(reservationId) then None else Some(reservationId)
  }

  function CreditsOf(holds: map<string, Hold>): string -> nat {
    id => if id in holds then holds[id].Credits() else 0
  }

  /** activeAIReservationHolds */
  ghost function Reserved(holds: map<string, Hold>, user: string, excluded: Option<string>): nat {
    SumOver(ActiveIds(holds, user, excluded), CreditsOf(holds))
  }

  /** Leaving one active hold out of the sum leaves out exactly its credits. */
  lemma ReservedExcluding(holds: map<string, Hold>, user: string, id: string)
    requires id in holds && holds[id].owner == user && holds[id].state.Active()
    ensures Reserved(holds, user, None) == holds[id].Credits() + Reserved(holds, user, Some(id))
  {
    SumSplit(ActiveIds(holds, user, None), id, CreditsOf(holds));
    assert ActiveIds(holds, user, Some(id)) == ActiveIds(holds, user, None) - {id};
  }

  // ---- Transactions as functions of the tables ----

  function EnsureWallet(t: Tables, user: string): Tables {
    if user in t.wallets then t else t.(wallets := t.wallets[user := 0])
  }

  function FindByKey(ledger: seq<Entry>, user: string, key: string): (r: Option<Entry>)
    ensures r.Some? ==> r.value in ledger && r.value.user == user && r.value.idempotencyKey == key
    ensures r.None? ==> forall e :: e in ledger ==> !(e.user == user && e.idempotencyKey == key)
  {
    if ledger == [] then None
    else if ledger[0].user == user && ledger[0].idempotencyKey == key then Some(ledger[0])
    else FindByKey(ledger[1..], user, key)
  }

  /** What a wallet transaction answers: the entry as it is in memory, its amounts not yet rounded. */
  datatype Receipt = Receipt(user: string, projectId: string, kind: EntryKind, amount: real, balanceAfter: real,
                             idempotencyKey: string)

  /** A stored entry, read back. */
  function ReadBack(e: Entry): Receipt {
    Receipt(e.user, e.projectId, e.kind, e.amount as real, e.balanceAfter as real, e.idempotencyKey)
  }

  datatype WalletTransaction = WalletTransaction(user: string, projectId: string, amount: real, kind: EntryKind,
          idempotencyKey: string)
  {
    function Kind(): EntryKind {
      if kind == Unset then Credit else kind
    }

    function Validate(): (r: Option<Error>)
      ensures r == None
         <==> user != "" && ((Kind() == Adjustment && amount != 0.0) || (Kind() == Credit && amount > 0.0))
    {
      if user == "" then Some(UserRequired)
      else if amount == 0.0 then Some(ZeroAmount)
      else if Kind() != Credit && Kind() != Adjustment then Some(UnsupportedType)
      else if Kind() == Credit && amount < 0.0 then Some(NegativeRecharge)
      else None
    }

    function ToEntry(balanceAfter: real): Entry {
      Entry(user, projectId, Kind(), Round(amount), Round(balanceAfter), UsageKey(WALLET, user, ""), idempotencyKey)
    }

    function ToReceipt(balanceAfter: real): Receipt {
      Receipt(user, projectId, Kind(), amount, balanceAfter, idempotencyKey)
    }

    /** White space around the project id and the idempotency key is dropped. */
    function Trimmed(): WalletTransaction {
      this.(projectId := TrimSpace(projectId), idempotencyKey := TrimSpace(idempotencyKey))
    }
  }

  /** The entry an earlier transaction with the same idempotency key left behind, if a key was given. */
  function Replayed(ledger: seq<Entry>, x: WalletTransaction): Option<Entry> {
    if x.idempotencyKey == "" then None else FindByKey(ledger, x.user, x.idempotencyKey)
  }

  ghost function Post(t: Tables, x: WalletTransaction): Result<Tables, Error>
    requires x.user in t.wallets
  {
    var after := t.wallets[x.user] as real + x.amount;
    var reserved := Reserved(t.holds, x.user, None);
    if x.amount < 0.0 && reserved > 0 && after < reserved as real then Err(ReservedBalance)
    else Ok(t.(ledger := t.ledger + [x.ToEntry(after)], wallets := t.wallets[x.user := Round(after)]))
  }

  /** ApplyWalletTransaction on a trimmed request: the tables afterwards, and the answer. */
  ghost function Transact(t: Tables, x: WalletTransaction): (Tables, Result<Receipt, Error>) {
    if x.Validate().Some? then (t, Err(x.Validate().value)) else
    var t1 := EnsureWallet(t, x.user);
    match Replayed(t1.ledger, x)
    case Some(existing) =>
      if existing.kind != x.Kind() || existing.amount as real != x.amount then (t, Err(KeyReused))
      else (t1, Ok(ReadBack(existing)))
    case None =>
      match Post(t1, x)
      case Err(e) => (t, Err(e))
      case Ok(t2) => (t2, Ok(x.ToReceipt(t1.wallets[x.user] as real + x.amount)))
  }

  predicate Recorded(rows: seq<UsageRow>, key: UsageKey) {
    exists i :: 0 <= i < |rows| && rows[i].key == key
  }

  /** The running state of one debit batch: the exact balance and what has been inserted so far. */
  datatype Batch = Batch(balance: real, rows: seq<UsageRow>, ledger: seq<Entry>, created: nat)

  function DebitOne(b: Batch, u: Usage, project: string, user: string, reserved: nat): Result<Batch, Error> {
    if u.projectId != project then Err(MixedProjects)
    else if Recorded(b.rows, u.key) then Ok(b)
    else
      var next := b.balance - u.amount;
      if reserved > 0 && next < reserved as real then Err(ReservedBalance)
      else
        Ok(Batch(next, b.rows + [UsageRow(u.key, u.projectId, user, Round(u.amount))],
                 b.ledger + [Entry(user, u.projectId, DebitKind, Round(-u.amount), Round(next), u.key, "")],
                 b.created + 1))
  }

  function DebitAll(b: Batch, us: seq<Usage>, project: string, user: string, reserved: nat): (r: Result<Batch, Error>)
    ensures r.Err? ==> r.error == MixedProjects || r.error == ReservedBalance
    decreases |us|
  {
    if us == [] then Ok(b) else
    match DebitOne(b, us[0], project, user, reserved)
    case Err(e) => Err(e)
    case Ok(next) => DebitAll(next, us[1..], project, user, reserved)
  }

  /** debitUsagesForUser, inside a transaction that the caller commits or rolls back. */
  ghost function DebitForUser(t: Tables, us: seq<Usage>, user: string,
                              excluded: Option<string>): (Tables, Option<Error>)
    requires us != []
  {
    var t1 := EnsureWallet(t, user);
    var start := Batch(t1.wallets[user] as real, t1.rows, t1.ledger, 0);
    match DebitAll(start, us, us[0].projectId, user, Reserved(t1.holds, user, excluded))
    case Err(e) => (t, Some(e))
    case Ok(b) =>
      if b.created == 0 then (t1, Some(AlreadySettled))
      else (t1.(wallets := t1.wallets[user := Round(b.balance)], rows := b.rows, ledger := b.ledger), None)
  }

  /** A project with its own billing owner, and the member that has the owner role, if there is one. */
  datatype Project = Project(billingOwner: string, ownerMember: Option<string>)

  /** billingOwnerUserID */
  function BillingOwner(projects: map<string, Project>, id: string): (r: Result<string, Error>)
    ensures r.Err? <==> id !in projects || (Blank(projects[id].billingOwner) && projects[id].ownerMember == None)
    ensures r.Err? ==> r.error == if id in projects then NoOwner else UnknownProject
  {
    if id !in projects then Err(UnknownProject) else
    BlankIffTrimmedAway(projects[id].billingOwner);
    if TrimSpace(projects[id].billingOwner) != "" then Ok(TrimSpace(projects[id].billingOwner))
    else if projects[id].ownerMember == None then Err(NoOwner)
    else Ok(TrimSpace(projects[id].ownerMember.value))
  }

  /** The user that is to pay, as debitUserUsages takes it. */
  function NamedPayer(user: string): Result<string, Error> {
    if TrimSpace(user) == "" then Err(UserRequired) else Ok(TrimSpace(user))
  }

  /** debitUsages and debitUserUsages once they know who pays: one transaction, all or nothing. */
  ghost function Debit(t: Tables, us: seq<Usage>, payer: Result<string, Error>): (Tables, Option<Error>) {
    if us == [] then (t, None) else
    match payer
    case Err(e) => (t, Some(e))
    case Ok(user) =>
      var (t1, error) := DebitForUser(t, us, user, None);
      if error.Some? then (t, error) else (t1, None)
  }

  /** The database, with the tables as fields that transactions update in place. */
  class Database {
    var wallets: map<string, int>
    var ledger: seq<Entry>
    var rows: seq<UsageRow>
    var holds: map<string, Hold>
    var usages: map<string, ModelUsage>

    constructor ()
      ensures View() == Tables(map[], [], [], map[], map[])
    {
      wallets, ledger, rows, holds, usages := map[], [], [], map[], map[];
    }

    function View(): Tables
      reads this
    {
      Tables(wallets, ledger, rows, holds, usages)
    }

    /** ROLLBACK of the billing tables. */
    method Restore(saved: Tables)
      modifies this`wallets, this`ledger, this`rows
      ensures wallets == saved.wallets && ledger == saved.ledger && rows == saved.rows
    {
      wallets, ledger, rows := saved.wallets, saved.ledger, saved.rows;
    }

    method EnsureWalletRow(user: string)
      modifies this`wallets
      ensures View() == EnsureWallet(old(View()), user)
    {
      if user !in wallets {
        wallets := wallets[user := 0];
      }
    }

    method ActiveReservationHolds(user: string, excluded: Option<string>) returns (credits: nat)
      ensures credits == Reserved(holds, user, excluded)
    {
      var left := ActiveIds(holds, user, excluded);
      credits := 0;
      while left != {}
        invariant left <= holds.Keys
        invariant credits + SumOver(left, CreditsOf(holds)) == Reserved(holds, user, excluded)
        decreases |left|
      {
        var id :| id in left;
        SumSplit(left, id, CreditsOf(holds));
        credits := credits + holds[id].Credits();
        left := left - {id};
      }
    }

    method ApplyWalletTransaction(request: WalletTransaction) returns (result: Result<Receipt, Error>)
      modifies this`wallets, this`ledger
      ensures (View(), result) == Transact(old(View()), request.Trimmed())
    {
      var x := request.Trimmed();
      if x.Validate().Some? {
        return Err(x.Validate().value);
      }
      var saved := wallets;
      EnsureWalletRow(x.user);
      var existing := Replayed(ledger, x);
      if existing.Some? {
        if existing.value.kind != x.Kind() || existing.value.amount as real != x.amount {
          wallets := saved;
          return Err(KeyReused);
        }
        return Ok(ReadBack(existing.value));
      }
      result := PostEntry(x);
      if result.Err? {
        wallets := saved;
      }
    }

    /** The locked part of ApplyWalletTransaction: the hold guard, the entry and the new balance. */
    method PostEntry(x: WalletTransaction) returns (result: Result<Receipt, Error>)
      requires x.user in wallets
      modifies this`wallets, this`ledger
      ensures match Post(old(View()), x)
              case Ok(t) => result == Ok(x.ToReceipt(old(wallets[x.user]) as real + x.amount)) && View() == t
              case Err(e) => result == Err(e) && View() == old(View())
    {
      var balanceAfter := wallets[x.user] as real + x.amount;
      if x.amount < 0.0 {
        var reserved := ActiveReservationHolds(x.user, None);
        if reserved > 0 && balanceAfter < reserved as real {
          return Err(ReservedBalance);
        }
      }
      ledger := ledger + [x.ToEntry(balanceAfter)];
      wallets := wallets[x.user := Round(balanceAfter)];
      return Ok(x.ToReceipt(balanceAfter));
    }

    /** Inserts row by row; on an error other than AlreadySettled the caller must roll back. */
    method DebitUsagesForUser(us: seq<Usage>, user: string, excluded: Option<string>) returns (error: Option<Error>)
      requires us != []
      modifies this`wallets, this`ledger, this`rows
      ensures error == DebitForUser(old(View()), us, user, excluded).1
      ensures error == None || error == Some(AlreadySettled) ==>
              View() == DebitForUser(old(View()), us, user, excluded).0
      ensures holds == old(holds) && usages == old(usages)
    {
      hide Reserved, Round, Recorded;
      var project := us[0].projectId;
      EnsureWalletRow(user);
      ghost var t1 := View();
      var balanceAfter := wallets[user] as real;
      var reserved := ActiveReservationHolds(user, excluded);
      var created := 0;
      ghost var start := Batch(balanceAfter, rows, ledger, 0);
      var i := 0;
      while i < |us|
        invariant 0 <= i <= |us|
        invariant wallets == t1.wallets
        invariant created == 0 ==> rows == t1.rows && ledger == t1.ledger
        invariant DebitAll(start, us, project, user, reserved)
               == DebitAll(Batch(balanceAfter, rows, ledger, created), us[i..], project, user, reserved)
      {
        var usage := us[i];
        assert us[i..][0] == usage && us[i..][1..] == us[i + 1..];
        if usage.projectId != project {
          return Some(MixedProjects);
        }
        if !Recorded(rows, usage.key) {
          var nextBalance := balanceAfter - usage.amount;
          if reserved > 0 && nextBalance < reserved as real {
            return Some(ReservedBalance);
          }
          balanceAfter := nextBalance;
          rows := rows + [UsageRow(usage.key, usage.projectId, user, Round(usage.amount))];
          ledger := ledger + [Entry(user, usage.projectId, DebitKind, Round(-usage.amount), Round(balanceAfter),
              usage.key, "")];
          created := created + 1;
        }
        i := i + 1;
      }
      if created == 0 {
        return Some(AlreadySettled);
      }
      wallets := wallets[user := Round(balanceAfter)];
      return None;
    }

    /** debitUsages: the owner of the project pays. */
    method DebitUsages(us: seq<Usage>, projects: map<string, Project>) returns (error: Option<Error>)
      modifies this`wallets, this`ledger, this`rows
      ensures us != [] ==> (View(), error) == Debit(old(View()), us, BillingOwner(projects, us[0].projectId))
      ensures us == [] ==> View() == old(View()) && error == None
    {
      if us == [] {
        return None;
      }
      error := DebitOrRollBack(us, BillingOwner(projects, us[0].projectId));
    }

    /** debitUserUsages: a named user pays. */
    method DebitUserUsages(us: seq<Usage>, billedUser: string) returns (error: Option<Error>)
      modifies this`wallets, this`ledger, this`rows
      ensures (View(), error) == Debit(old(View()), us, NamedPayer(billedUser))
    {
      if us == [] {
        return None;
      }
      error := DebitOrRollBack(us, NamedPayer(billedUser));
    }

    method DebitOrRollBack(us: seq<Usage>, payer: Result<string, Error>) returns (error: Option<Error>)
      requires us != []
      modifies this`wallets, this`ledger, this`rows
      ensures (View(), error) == Debit(old(View()), us, payer)
    {
      if payer.Err? {
        return Some(payer.error);
      }
      var saved := View();
      error := DebitUsagesForUser(us, payer.value, None);
      if error.Some? {
        Restore(saved);
      }
    }
  }
}
