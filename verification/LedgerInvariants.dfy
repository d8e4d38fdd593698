/**
 What every billing transaction keeps: the ledger chain, one debit entry per usage record, unique
 idempotency keys, and balances that cover the active credit holds.
 */
module LedgerInvariants {
  import opened Wrappers
  import opened Credits
  import opened Ledger

  // ---- Readings of a ledger ----

  /** The sum of a user's ledger amounts. */
  function UserSum(ledger: seq<Entry>, user: string): int {
    if ledger == [] then 0 else
    var n := |ledger| - 1;
    UserSum(ledger[..n], user) + if ledger[n].user == user then ledger[n].amount else 0
  }

  function DebitCount(ledger: seq<Entry>, user: string): nat {
    if ledger == [] then 0 else
    var n := |ledger| - 1;
    DebitCount(ledger[..n], user) + if ledger[n].user == user && ledger[n].kind == DebitKind then 1 else 0
  }

  /** The balance recorded by a user's latest entry. */
  function LastBalance(ledger: seq<Entry>, user: string): int {
    if ledger == [] then 0 else
    var n := |ledger| - 1;
    if ledger[n].user == user then ledger[n].balanceAfter else LastBalance(ledger[..n], user)
  }

  /** The usage records that the debit entries of a ledger stand for, in order. */
  function Debits(ledger: seq<Entry>): seq<UsageRow> {
    if ledger == [] then [] else
    var n := |ledger| - 1;
    var e := ledger[n];
    Debits(ledger[..n]) + if e.kind == DebitKind then [UsageRow(e.key, e.projectId, e.user, -e.amount)] else []
  }

  function EntryCount(ledger: seq<Entry>, user: string): nat {
    if ledger == [] then 0 else
    var n := |ledger| - 1;
    EntryCount(ledger[..n], user) + if ledger[n].user == user then 1 else 0
  }

  /**
   What is known of the amounts: nothing ever needs rounding; wallet transactions have at most eight
   decimals and only debits are rounded; or any stored amount may have been rounded.
   */
  datatype Rounding = Exact | DebitsRounded | AllRounded

  /** How many quanta a balance may stray from the sum of a user's ledger amounts. */
  function Drift(ledger: seq<Entry>, user: string, mode: Rounding): nat {
    match mode
    case Exact => 0
    case DebitsRounded => DebitCount(ledger, user)
    case AllRounded => EntryCount(ledger, user)
  }

  predicate Within(balance: int, ledger: seq<Entry>, user: string, mode: Rounding) {
    var d: int := Drift(ledger, user, mode);
    -d <= balance - UserSum(ledger, user) <= d
  }

  ghost predicate Chained(ledger: seq<Entry>, mode: Rounding) {
    forall i :: 0 <= i < |ledger| ==> Within(ledger[i].balanceAfter, ledger[..i + 1], ledger[i].user, mode)
  }

  ghost predicate UniqueKeys(rows: seq<UsageRow>) {
    forall i, j :: 0 <= i < j < |rows| ==> rows[i].key != rows[j].key
  }

  ghost predicate UniqueIdempotency(ledger: seq<Entry>) {
    forall i, j :: 0 <= i < j < |ledger| && ledger[i].idempotencyKey != "" ==>
      ledger[i].user != ledger[j].user || ledger[i].idempotencyKey != ledger[j].idempotencyKey
  }

  lemma Append(ledger: seq<Entry>, e: Entry, user: string)
    ensures UserSum(ledger + [e], user) == UserSum(ledger, user) + if e.user == user then e.amount else 0
    ensures EntryCount(ledger + [e], user) == EntryCount(ledger, user) + if e.user == user then 1 else 0
    ensures DebitCount(ledger + [e], user)
            == DebitCount(ledger, user) + if e.user == user && e.kind == DebitKind then 1 else 0
    ensures LastBalance(ledger + [e], user) == if e.user == user then e.balanceAfter else LastBalance(ledger, user)
    ensures Debits(ledger + [e])
            == Debits(ledger) + if e.kind == DebitKind then [UsageRow(e.key, e.projectId, e.user, -e.amount)] else []
  {
    assert (ledger + [e])[..|ledger|] == ledger;
  }

  lemma ChainAppend(ledger: seq<Entry>, e: Entry, mode: Rounding)
    requires Chained(ledger, mode) && Within(e.balanceAfter, ledger + [e], e.user, mode)
    ensures Chained(ledger + [e], mode)
  {
    var all := ledger + [e];
    forall i | 0 <= i < |all| ensures Within(all[i].balanceAfter, all[..i + 1], all[i].user, mode) {
      if i < |ledger| {
        assert all[..i + 1] == ledger[..i + 1];
      } else {
        assert all[..i + 1] == all;
      }
    }
  }

  lemma {:induction false} LastBalanceWithin(ledger: seq<Entry>, user: string, mode: Rounding)
    requires Chained(ledger, mode)
    ensures Within(LastBalance(ledger, user), ledger, user, mode)
  {
    if ledger != [] {
      var n := |ledger| - 1;
      if ledger[n].user == user {
        assert ledger[..n + 1] == ledger;
      } else {
        forall i | 0 <= i < n ensures Within(ledger[i].balanceAfter, ledger[..n][..i + 1], ledger[i].user, mode) {
          assert ledger[..n][..i + 1] == ledger[..i + 1];
        }
        LastBalanceWithin(ledger[..n], user, mode);
      }
    }
  }

  // ---- The invariant of the billing tables ----

  ghost predicate Booked(rows: seq<UsageRow>, ledger: seq<Entry>, mode: Rounding) {
    && Chained(ledger, mode)
    && Debits(ledger) == rows
    && UniqueKeys(rows)
    && UniqueIdempotency(ledger)
  }

  ghost predicate LedgerInv(t: Tables, mode: Rounding) {
    && Booked(t.rows, t.ledger, mode)
    && (forall e :: e in t.ledger ==> e.user in t.wallets)
    && (forall u :: u in t.wallets ==> t.wallets[u] == LastBalance(t.ledger, u))
  }

  function Balance(t: Tables, user: string): int {
    if user in t.wallets then t.wallets[user] else 0
  }

  ghost predicate HoldSafe(t: Tables) {
    forall u :: Reserved(t.holds, u, None) > 0 ==> Balance(t, u) >= Reserved(t.holds, u, None)
  }

  // ---- One debit batch ----

  /**
   The exact balance of a batch strays by half a quantum for each record created so far, on top of
   what the stored balance had strayed before the batch.
   */
  predicate Tracks(balance: real, sum: int, drift: int, created: int, mode: Rounding) {
    && (created == 0 || mode == Exact ==> Whole(balance))
    && if mode == Exact then balance == sum as real
       else created <= drift
            && -(2 * drift - created) as real <= 2.0 * (balance - sum as real) <= (2 * drift - created) as real
  }

  ghost predicate BatchInv(b: Batch, user: string, mode: Rounding) {
    && Booked(b.rows, b.ledger, mode)
    && Round(b.balance) == LastBalance(b.ledger, user)
    && Tracks(b.balance, UserSum(b.ledger, user), Drift(b.ledger, user, mode), b.created, mode)
  }

  lemma TracksStep(balance: real, amount: real, sum: int, drift: nat, created: nat, mode: Rounding)
    requires Tracks(balance, sum, drift, created, mode) && (mode != Exact || Whole(amount))
    ensures Tracks(balance - amount, sum + Round(-amount), if mode == Exact then 0 else drift + 1, created + 1, mode)
    ensures var d := if mode == Exact then 0 else drift + 1;
            -d <= Round(balance - amount) - (sum + Round(-amount)) <= d
  {
    RoundNearest(-amount);
    RoundNearest(balance - amount);
    if mode == Exact {
      var n := amount.Floor;
      RoundWhole(-n);
      RoundWhole(sum - n);
      assert -amount == (-n) as real && balance - amount == (sum - n) as real;
    }
  }

  lemma BookedStep(rows: seq<UsageRow>, ledger: seq<Entry>, e: Entry, mode: Rounding)
    requires Booked(rows, ledger, mode) && e.kind == DebitKind && e.idempotencyKey == ""
    requires !Recorded(rows, e.key) && Within(e.balanceAfter, ledger + [e], e.user, mode)
    ensures Booked(rows + [UsageRow(e.key, e.projectId, e.user, -e.amount)], ledger + [e], mode)
  {
    hide Round, Chained, UserSum, DebitCount, EntryCount, LastBalance, Debits;
    Append(ledger, e, e.user);
    ChainAppend(ledger, e, mode);
  }

  lemma DebitOneKeeps(b: Batch, u: Usage, project: string, user: string, reserved: nat, mode: Rounding)
    requires BatchInv(b, user, mode) && DebitOne(b, u, project, user, reserved).Ok?
    requires mode != Exact || Whole(u.amount)
    ensures BatchInv(DebitOne(b, u, project, user, reserved).value, user, mode)
  {
    hide Round, Booked, Tracks, Chained, UserSum, DebitCount, EntryCount, LastBalance, Debits;
    if !Recorded(b.rows, u.key) {
      var next := b.balance - u.amount;
      var e := Entry(user, u.projectId, DebitKind, Round(-u.amount), Round(next), u.key, "");
      var b' := DebitOne(b, u, project, user, reserved).value;
      assert b'.rows == b.rows + [UsageRow(e.key, e.projectId, e.user, -e.amount)] by {
        RoundNegate(u.amount);
      }
      assert b'.ledger == b.ledger + [e] && b'.balance == next && b'.created == b.created + 1;
      Append(b.ledger, e, user);
      TracksStep(b.balance, u.amount, UserSum(b.ledger, user), Drift(b.ledger, user, mode), b.created, mode);
      assert Within(e.balanceAfter, b'.ledger, user, mode);
      BookedStep(b.rows, b.ledger, e, mode);
    }
  }

  /** What a batch does to the tables it runs on, besides keeping the chain. */
  ghost predicate Extends(b: Batch, b': Batch, user: string, reserved: nat) {
    && b.created <= b'.created
    && (b'.created == b.created ==> b' == b)
    && (b'.created > b.created ==> reserved > 0 ==> b'.balance >= reserved as real)
    && b.rows <= b'.rows && b.ledger <= b'.ledger
    && (forall e :: e in b'.ledger ==> e in b.ledger || e.user == user)
    && (forall u :: u != user ==> LastBalance(b'.ledger, u) == LastBalance(b.ledger, u))
  }

  lemma {:induction false} DebitAllKeeps(b: Batch, us: seq<Usage>, project: string, user: string, reserved: nat,
                                         mode: Rounding)
    requires BatchInv(b, user, mode) && DebitAll(b, us, project, user, reserved).Ok?
    requires mode != Exact || forall u :: u in us ==> Whole(u.amount)
    ensures BatchInv(DebitAll(b, us, project, user, reserved).value, user, mode)
    ensures Extends(b, DebitAll(b, us, project, user, reserved).value, user, reserved)
    ensures forall u :: u in us ==> Recorded(DebitAll(b, us, project, user, reserved).value.rows, u.key)
    decreases |us|
  {
    if us != [] {
      var next := DebitOne(b, us[0], project, user, reserved).value;
      DebitOneKeeps(b, us[0], project, user, reserved, mode);
      DebitOneExtends(b, us[0], project, user, reserved);
      DebitAllKeeps(next, us[1..], project, user, reserved, mode);
      var end := DebitAll(next, us[1..], project, user, reserved).value;
      RecordedGrows(next.rows, end.rows, us[0].key);
      forall u | u in us ensures Recorded(end.rows, u.key) {
        assert u == us[0] || u in us[1..];
      }
    }
  }

  lemma RecordedGrows(rows: seq<UsageRow>, more: seq<UsageRow>, key: UsageKey)
    requires rows <= more && Recorded(rows, key)
    ensures Recorded(more, key)
  {
    var i :| 0 <= i < |rows| && rows[i].key == key;
    assert more[i].key == key;
  }

  lemma AddedRow(rows: seq<UsageRow>, row: UsageRow, key: UsageKey)
    ensures Recorded(rows + [row], key) <==> Recorded(rows, key) || key == row.key
  {
    assert (rows + [row])[|rows|] == row;
    if Recorded(rows, key) {
      RecordedGrows(rows, rows + [row], key);
    }
  }

  lemma DebitOneExtends(b: Batch, u: Usage, project: string, user: string, reserved: nat)
    requires DebitOne(b, u, project, user, reserved).Ok?
    ensures Extends(b, DebitOne(b, u, project, user, reserved).value, user, reserved)
    ensures Recorded(DebitOne(b, u, project, user, reserved).value.rows, u.key)
  {
    if !Recorded(b.rows, u.key) {
      var b' := DebitOne(b, u, project, user, reserved).value;
      var e := Entry(user, u.projectId, DebitKind, Round(-u.amount), Round(b.balance - u.amount), u.key, "");
      forall v | v != user ensures LastBalance(b'.ledger, v) == LastBalance(b.ledger, v) {
        Append(b.ledger, e, v);
      }
      assert b'.rows[|b.rows|].key == u.key;
    }
  }

  // ---- Whole transactions ----

  lemma EnsureWalletKeeps(t: Tables, user: string, mode: Rounding)
    requires LedgerInv(t, mode)
    ensures LedgerInv(EnsureWallet(t, user), mode)
    ensures forall u :: Balance(EnsureWallet(t, user), u) == Balance(t, u)
  {
    if user !in t.wallets {
      NoEntries(t.ledger, user);
    }
  }

  lemma {:induction false} NoEntries(ledger: seq<Entry>, user: string)
    requires forall e :: e in ledger ==> e.user != user
    ensures LastBalance(ledger, user) == 0
  {
    if ledger != [] {
      NoEntries(ledger[..|ledger| - 1], user);
    }
  }

  /** The effect of a successful batch on one user's wallet and on everything else. */
  ghost predicate Debited(t: Tables, t': Tables, us: seq<Usage>, user: string, reserved: nat) {
    && t'.holds == t.holds && t'.usages == t.usages
    && t.rows <= t'.rows && t.ledger <= t'.ledger
    && (forall u :: u in us ==> Recorded(t'.rows, u.key))
    && (forall u :: u != user ==> Balance(t', u) == Balance(t, u))
    && (reserved > 0 ==> Balance(t', user) == Balance(t, user) || Balance(t', user) >= reserved)
  }

  lemma DebitForUserKeeps(t: Tables, us: seq<Usage>, user: string, excluded: Option<string>, mode: Rounding)
    requires LedgerInv(t, mode) && us != []
    requires mode != Exact || forall u :: u in us ==> Whole(u.amount)
    ensures var (t', error) := DebitForUser(t, us, user, excluded);
            error == None || error == Some(AlreadySettled) ==>
              && LedgerInv(t', mode)
              && Debited(t, t', us, user, Reserved(t.holds, user, excluded))
              && (error == Some(AlreadySettled) ==> t' == EnsureWallet(t, user))
  {
    hide Round, Booked, Recorded, DebitAll;
    var t1 := EnsureWallet(t, user);
    var reserved := Reserved(t.holds, user, excluded);
    EnsureWalletKeeps(t, user, mode);
    var result := DebitAll(Start(t1, user), us, us[0].projectId, user, reserved);
    if result.Ok? {
      BatchKeeps(t1, us, us[0].projectId, user, reserved, mode);
    }
  }

  function Start(t: Tables, user: string): Batch
    requires user in t.wallets
  {
    Batch(t.wallets[user] as real, t.rows, t.ledger, 0)
  }

  lemma StartInv(t: Tables, user: string, mode: Rounding)
    requires LedgerInv(t, mode) && user in t.wallets
    ensures BatchInv(Start(t, user), user, mode)
  {
    hide Round, Chained, UniqueKeys, UniqueIdempotency, UserSum, DebitCount, EntryCount, Debits;
    RoundWhole(t.wallets[user]);
    LastBalanceWithin(t.ledger, user, mode);
  }

  lemma BatchKeeps(t: Tables, us: seq<Usage>, project: string, user: string, reserved: nat, mode: Rounding)
    requires LedgerInv(t, mode) && user in t.wallets
    requires mode != Exact || forall u :: u in us ==> Whole(u.amount)
    requires DebitAll(Start(t, user), us, project, user, reserved).Ok?
    ensures var b := DebitAll(Start(t, user), us, project, user, reserved).value;
            var t' := t.(wallets := t.wallets[user := Round(b.balance)], rows := b.rows, ledger := b.ledger);
            && LedgerInv(t', mode)
            && Debited(t, t', us, user, reserved)
            && (b.created == 0 ==> t' == t)
  {
    hide Round, Booked, Tracks, Recorded, DebitAll;
    StartInv(t, user, mode);
    DebitAllKeeps(Start(t, user), us, project, user, reserved, mode);
    var b := DebitAll(Start(t, user), us, project, user, reserved).value;
    if b.created > 0 && reserved > 0 {
      RoundKeepsFloor(reserved, b.balance);
    }
    assert b.created == 0 ==> b == Start(t, user);
  }

  lemma {:induction false} ReplayUnique(ledger: seq<Entry>, x: WalletTransaction, e: Entry)
    requires UniqueIdempotency(ledger) && e.idempotencyKey == x.idempotencyKey && e.user == x.user
    requires Replayed(ledger, x) == None
    ensures UniqueIdempotency(ledger + [e])
  {
    forall i | 0 <= i < |ledger| && e.idempotencyKey != ""
      ensures !(ledger[i].user == e.user && ledger[i].idempotencyKey == e.idempotencyKey)
    {
      assert ledger[i] in ledger;
    }
  }

  lemma PostShape(t: Tables, x: WalletTransaction)
    requires x.user in t.wallets && Post(t, x).Ok?
    ensures var e := x.ToEntry(t.wallets[x.user] as real + x.amount);
            Post(t, x).value == t.(ledger := t.ledger + [e], wallets := t.wallets[x.user := e.balanceAfter])
  {}

  lemma PostBooked(rows: seq<UsageRow>, ledger: seq<Entry>, x: WalletTransaction, mode: Rounding)
    requires Booked(rows, ledger, mode) && (mode == AllRounded || Whole(x.amount)) && Replayed(ledger, x) == None
            && x.Validate() == None
    ensures Booked(rows, ledger + [x.ToEntry(LastBalance(ledger, x.user) as real + x.amount)], mode)
  {
    hide Round, Chained, Replayed, UserSum, DebitCount, EntryCount, LastBalance, Debits;
    var balance := LastBalance(ledger, x.user);
    var e := x.ToEntry(balance as real + x.amount);
    Append(ledger, e, x.user);
    assert Within(e.balanceAfter, ledger + [e], x.user, mode) by {
      LastBalanceWithin(ledger, x.user, mode);
      RoundNearest(x.amount);
      RoundNearest(balance as real + x.amount);
      if Whole(x.amount) {
        RoundShiftWhole(balance, x.amount);
      }
    }
    ChainAppend(ledger, e, mode);
    ReplayUnique(ledger, x, e);
  }

  lemma PostKeeps(t: Tables, x: WalletTransaction, mode: Rounding)
    requires LedgerInv(t, mode) && x.user in t.wallets && x.Validate() == None
            && (mode == AllRounded || Whole(x.amount))
    requires Replayed(t.ledger, x) == None && Post(t, x).Ok?
    ensures LedgerInv(Post(t, x).value, mode)
  {
    hide Round, Booked, Post, Replayed, Whole;
    var e := x.ToEntry(t.wallets[x.user] as real + x.amount);
    var t' := Post(t, x).value;
    PostShape(t, x);
    PostBooked(t.rows, t.ledger, x, mode);
    BalancesAppend(t, e);
  }

  lemma BalancesAppend(t: Tables, e: Entry)
    requires e.user in t.wallets
    requires forall e :: e in t.ledger ==> e.user in t.wallets
    requires forall u :: u in t.wallets ==> t.wallets[u] == LastBalance(t.ledger, u)
    ensures var wallets := t.wallets[e.user := e.balanceAfter];
            && (forall e' :: e' in t.ledger + [e] ==> e'.user in wallets)
            && (forall u :: u in wallets ==> wallets[u] == LastBalance(t.ledger + [e], u))
  {
    hide LastBalance;
    forall u
      ensures LastBalance(t.ledger + [e], u) == if u == e.user then e.balanceAfter else LastBalance(t.ledger, u)
    {
      Append(t.ledger, e, u);
    }
  }

  lemma TransactKeeps(t: Tables, x: WalletTransaction, mode: Rounding)
    requires LedgerInv(t, mode) && (mode == AllRounded || Whole(x.amount))
    ensures LedgerInv(Transact(t, x).0, mode)
  {
    if x.Validate() == None {
      var t1 := EnsureWallet(t, x.user);
      EnsureWalletKeeps(t, x.user, mode);
      if Replayed(t1.ledger, x) == None && Post(t1, x).Ok? {
        PostKeeps(t1, x, mode);
      }
    }
  }

  lemma TransactHoldSafe(t: Tables, x: WalletTransaction)
    requires HoldSafe(t)
    ensures HoldSafe(Transact(t, x).0)
  {
    var t' := Transact(t, x).0;
    var reserved := Reserved(t.holds, x.user, None);
    if x.Validate() == None && t' != t {
      var t1 := EnsureWallet(t, x.user);
      if Replayed(t1.ledger, x) == None && reserved > 0 {
        var after := t1.wallets[x.user] as real + x.amount;
        assert Balance(t, x.user) >= reserved;
        assert after >= reserved as real;
        RoundKeepsFloor(reserved, after);
      }
      forall u | Reserved(t'.holds, u, None) > 0 ensures Balance(t', u) >= Reserved(t'.holds, u, None) {
        assert t'.holds == t.holds;
        assert u != x.user ==> Balance(t', u) == Balance(t, u);
      }
    }
  }

  lemma DebitKeeps(t: Tables, us: seq<Usage>, payer: Result<string, Error>, mode: Rounding)
    requires LedgerInv(t, mode)
    requires mode != Exact || forall u :: u in us ==> Whole(u.amount)
    ensures LedgerInv(Debit(t, us, payer).0, mode)
    ensures HoldSafe(t) ==> HoldSafe(Debit(t, us, payer).0)
    ensures Debit(t, us, payer).1 == None && us != [] ==>
              payer.Ok? && Debited(t, Debit(t, us, payer).0, us, payer.value, Reserved(t.holds, payer.value, None))
    ensures Debit(t, us, payer).1.Some? || us == [] ==> Debit(t, us, payer).0 == t
  {
    if us != [] && payer.Ok? {
      DebitForUserKeeps(t, us, payer.value, None, mode);
    }
  }

  // ---- Replays ----

  /**
   A wallet transaction that went through with an idempotency key and is sent again changes nothing.
   It gets the stored entry back exactly when its amount has at most eight decimals; otherwise the
   stored amount differs from the one sent, and the replay is refused as a different transaction.
   */
  lemma ReplayIsIdempotent(t: Tables, x: WalletTransaction, later: Tables)
    requires Transact(t, x).1.Ok? && x.idempotencyKey != ""
    requires Transact(t, x).0.ledger <= later.ledger && UniqueIdempotency(later.ledger) && x.user in later.wallets
    ensures Transact(later, x)
         == (later, if Whole(x.amount) then Ok(Transact(t, x).1.value) else Err(KeyReused))
  {
    hide Round, Whole;
    var e := AcceptedEntry(t, x);
    var i := IndexOf(Transact(t, x).0.ledger, e);
    assert later.ledger[i] == e;
    FindUnique(later.ledger, i);
    assert Replayed(later.ledger, x) == Some(e);
  }

  /** The stored entry of an accepted transaction carries the request's fields, rounded. */
  lemma AcceptedEntry(t: Tables, x: WalletTransaction) returns (e: Entry)
    requires Transact(t, x).1.Ok? && x.idempotencyKey != ""
    ensures e in Transact(t, x).0.ledger
    ensures e.user == x.user && e.idempotencyKey == x.idempotencyKey && e.kind == x.Kind()
    ensures e.amount as real == x.amount <==> Whole(x.amount)
    ensures Whole(x.amount) ==> ReadBack(e) == Transact(t, x).1.value
  {
    var t1 := EnsureWallet(t, x.user);
    var existing := Replayed(t1.ledger, x);
    if existing.Some? {
      e := existing.value;
      assert Whole(e.amount as real);
    } else {
      var balance := t1.wallets[x.user];
      e := x.ToEntry(balance as real + x.amount);
      assert (t1.ledger + [e])[|t1.ledger|] == e;
      WholeRounds(balance, x.amount);
    }
  }

  /** An amount is stored without change exactly when it is whole, and so is then the balance it leads to. */
  lemma WholeRounds(balance: int, amount: real)
    ensures Round(amount) as real == amount <==> Whole(amount)
    ensures Whole(amount) ==> Round(balance as real + amount) as real == balance as real + amount
  {
    if Whole(amount) {
      RoundWhole(amount.Floor);
      RoundShiftWhole(balance, amount);
    }
  }

  lemma {:induction false} RecordedBatchIsSkipped(b: Batch, us: seq<Usage>, project: string, user: string,
          reserved: nat)
    requires forall u :: u in us ==> u.projectId == project && Recorded(b.rows, u.key)
    ensures DebitAll(b, us, project, user, reserved) == Ok(b)
    decreases |us|
  {
    if us != [] {
      hide Recorded;
      assert us[0] in us;
      RecordedBatchIsSkipped(b, us[1..], project, user, reserved);
    }
  }

  lemma {:induction false} AcceptedBatch(b: Batch, us: seq<Usage>, project: string, user: string, reserved: nat)
    requires DebitAll(b, us, project, user, reserved).Ok?
    ensures b.rows <= DebitAll(b, us, project, user, reserved).value.rows
    ensures forall u :: u in us ==>
            u.projectId == project && Recorded(DebitAll(b, us, project, user, reserved).value.rows, u.key)
    decreases |us|
  {
    if us != [] {
      var next := DebitOne(b, us[0], project, user, reserved).value;
      var end := DebitAll(next, us[1..], project, user, reserved).value;
      AcceptedBatch(next, us[1..], project, user, reserved);
      DebitOneExtends(b, us[0], project, user, reserved);
      RecordedGrows(next.rows, end.rows, us[0].key);
      forall u | u in us ensures u.projectId == project && Recorded(end.rows, u.key) {
        assert u == us[0] || u in us[1..];
      }
    }
  }

  /**
   A batch that went through once is refused as already settled from then on, whoever is to pay, and changes
   nothing.
  */
  lemma DebitReplayChangesNothing(t: Tables, us: seq<Usage>, payer: Result<string, Error>, later: Tables, other: string)
    requires us != [] && Debit(t, us, payer).1 == None
    requires Debit(t, us, payer).0.rows <= later.rows
    ensures Debit(later, us, Ok(other)) == (later, Some(AlreadySettled))
  {
    hide Recorded, Round;
    var user := payer.value;
    AcceptedBatch(Start(EnsureWallet(t, user), user), us, us[0].projectId, user, Reserved(t.holds, user, None));
    var t' := Debit(t, us, payer).0;
    forall u | u in us
      ensures Recorded(later.rows, u.key)
    {
      RecordedGrows(t'.rows, later.rows, u.key);
    }
    RecordedBatchIsSkipped(Start(EnsureWallet(later, other), other), us, us[0].projectId, other,
        Reserved(later.holds, other, None));
  }

  lemma IndexOf(ledger: seq<Entry>, e: Entry) returns (i: nat)
    requires e in ledger
    ensures i < |ledger| && ledger[i] == e
  {
    i :| i < |ledger| && ledger[i] == e;
  }

  lemma FindUnique(ledger: seq<Entry>, i: nat)
    requires UniqueIdempotency(ledger) && i < |ledger| && ledger[i].idempotencyKey != ""
    ensures FindByKey(ledger, ledger[i].user, ledger[i].idempotencyKey) == Some(ledger[i])
  {
    var found := FindByKey(ledger, ledger[i].user, ledger[i].idempotencyKey);
    assert ledger[i] in ledger;
    var j := IndexOf(ledger, found.value);
    assert j == i;
  }
}
