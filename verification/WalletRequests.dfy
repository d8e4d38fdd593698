/** What ApplyWalletTransaction does with a request as it arrives, field by field. */
module WalletRequests {
  import opened Wrappers
  import opened Credits
  import opened Text
  import opened Ledger
  import opened LedgerInvariants
  import opened BillingRuns
  import opened BillingTheorems
  import opened Replays
  import opened HoldCoverage

  /** The user's stored credits; none yet reads as zero. */
  function Stored(t: Tables, user: string): int {
    if user in t.wallets then t.wallets[user] else 0
  }

  /** An entry of the user with the request's key exists, when the request names one. */
  ghost predicate Posted(t: Tables, user: string, key: string) {
    key != "" && exists e :: e in t.ledger && e.user == user && e.idempotencyKey == key
  }

  /** Requests that are refused before any table is read. */
  lemma InvalidRequest(t: Tables, r: WalletTransaction)
    ensures r.user == "" ==> Transact(t, r.Trimmed()) == (t, Err(UserRequired))
    ensures r.user != "" && r.amount == 0.0 ==> Transact(t, r.Trimmed()) == (t, Err(ZeroAmount))
    ensures r.user != "" && r.amount != 0.0 && (r.kind.DebitKind? || r.kind.Other?) ==>
              Transact(t, r.Trimmed()) == (t, Err(UnsupportedType))
    ensures r.user != "" && r.amount < 0.0 && (r.kind.Unset? || r.kind.Credit?) ==>
              Transact(t, r.Trimmed()) == (t, Err(NegativeRecharge))
  {
    hide Reserved, TrimSpace, Round;
  }

  /** A request that is accepted so far: a credit of a positive amount or an adjustment of any but zero. */
  predicate Sensible(r: WalletTransaction) {
    && r.user != "" && r.amount != 0.0
    && (r.kind.Adjustment? || ((r.kind.Unset? || r.kind.Credit?) && r.amount > 0.0))
  }

  /** A new request is refused when it takes from credits that are reserved, and otherwise posted. */
  lemma NewRequest(t: Tables, r: WalletTransaction)
    requires Sensible(r) && !Posted(t, r.user, TrimSpace(r.idempotencyKey))
    ensures var kind := if r.kind.Adjustment? then Adjustment else Credit;
            var project, key := TrimSpace(r.projectId), TrimSpace(r.idempotencyKey);
            var after := Stored(t, r.user) as real + r.amount;
            var reserved := Reserved(t.holds, r.user, None);
            Transact(t, r.Trimmed())
            == if r.amount < 0.0 && reserved > 0 && after < reserved as real then (t, Err(ReservedBalance))
               else (t.(ledger := t.ledger + [Entry(r.user, project, kind, Round(r.amount), Round(after),
                                                    UsageKey("user_wallet", r.user, ""), key)],
                        wallets := t.wallets[r.user := Round(after)]),
                     Ok(Receipt(r.user, project, kind, r.amount, after, key)))
  {
    hide Reserved, TrimSpace, Round;
    var after := Round(Stored(t, r.user) as real + r.amount);
    assert t.wallets[r.user := 0][r.user := after] == t.wallets[r.user := after];
  }

  /** A request whose key is taken gets the entry under it if type and amount agree, and posts nothing. */
  lemma RepeatedRequest(t: Tables, r: WalletTransaction) returns (e: Entry)
    requires Sensible(r) && Posted(t, r.user, TrimSpace(r.idempotencyKey))
    ensures e in t.ledger && e.user == r.user && e.idempotencyKey == TrimSpace(r.idempotencyKey)
    ensures Transact(t, r.Trimmed()).0.ledger == t.ledger
    ensures Transact(t, r.Trimmed()).1
            == if e.kind == (if r.kind.Adjustment? then Adjustment else Credit) && e.amount as real == r.amount
               then Ok(Receipt(e.user, e.projectId, e.kind, e.amount as real, e.balanceAfter as real, e.idempotencyKey))
               else Err(KeyReused)
  {
    hide Reserved, TrimSpace, Round;
    e := FindByKey(t.ledger, r.user, TrimSpace(r.idempotencyKey)).value;
  }

  /**
   Two requests of a user whose keys agree after trimming, at any two points of any run: the second changes
   nothing, and exactly one entry stands under the key.
   */
  lemma KeyPostsOnce(es: seq<Event>, i: nat, a: WalletTransaction, b: WalletTransaction)
    requires i < |es| && es[i] == Wallet(a.Trimmed()) && Transact(Run(EMPTY, es[..i]).t, a.Trimmed()).1.Ok?
    requires a.user == b.user && TrimSpace(a.idempotencyKey) == TrimSpace(b.idempotencyKey) != ""
    ensures var t, key := Run(EMPTY, es).t, TrimSpace(b.idempotencyKey);
            && Transact(t, b.Trimmed()).0 == t
            && (exists j :: 0 <= j < |t.ledger| && t.ledger[j].user == b.user && t.ledger[j].idempotencyKey == key)
            && (forall j, k :: 0 <= j < k < |t.ledger| && t.ledger[j].user == t.ledger[k].user == b.user ==>
                  !(t.ledger[j].idempotencyKey == t.ledger[k].idempotencyKey == key))
  {
    var t, key := Run(EMPTY, es).t, TrimSpace(b.idempotencyKey);
    KeyStays(es, i, a);
    OneUnderKey(es);
    hide Run, Transact, TrimSpace;
    TakenKey(t, b);
  }

  lemma OneUnderKey(es: seq<Event>)
    ensures UniqueIdempotency(Run(EMPTY, es).t.ledger)
  {
    RunKeeps(es, AllRounded);
    UniqueInWorld(Run(EMPTY, es), AllRounded);
  }

  /** The key of an accepted request stays on the ledger. */
  lemma KeyStays(es: seq<Event>, i: nat, a: WalletTransaction)
    requires i < |es| && es[i] == Wallet(a.Trimmed()) && Transact(Run(EMPTY, es[..i]).t, a.Trimmed()).1.Ok?
    requires TrimSpace(a.idempotencyKey) != ""
    ensures var t := Run(EMPTY, es).t;
            Posted(t, a.user, TrimSpace(a.idempotencyKey)) && a.user in t.wallets
  {
    hide Run, Transact, TrimSpace;
    var before := Run(EMPTY, es[..i]).t;
    KeyIsPosted(before, a);
    var e :| e in Transact(before, a.Trimmed()).0.ledger && e.user == a.user
             && e.idempotencyKey == TrimSpace(a.idempotencyKey);
    RunSnoc(EMPTY, es[..i], es[i]);
    assert es[..i] + [es[i]] == es[..i + 1];
    RunGrows(es, i + 1);
    assert e in Run(EMPTY, es).t.ledger;
  }

  /** An accepted request has its key on the ledger, and its user a wallet. */
  lemma KeyIsPosted(t: Tables, r: WalletTransaction)
    requires Transact(t, r.Trimmed()).1.Ok? && TrimSpace(r.idempotencyKey) != ""
    ensures var t' := Transact(t, r.Trimmed()).0;
            Posted(t', r.user, TrimSpace(r.idempotencyKey)) && r.user in t'.wallets
  {
    InvalidRequest(t, r);
    if Posted(t, r.user, TrimSpace(r.idempotencyKey)) {
      var e := RepeatedRequest(t, r);
      WalletThere(t, r);
    } else {
      NewRequest(t, r);
      hide Reserved, TrimSpace, Round, Transact;
      var t' := Transact(t, r.Trimmed()).0;
      assert t'.ledger[|t'.ledger| - 1] in t'.ledger;
    }
  }

  lemma WalletThere(t: Tables, r: WalletTransaction)
    requires Transact(t, r.Trimmed()).1.Ok?
    ensures r.user in Transact(t, r.Trimmed()).0.wallets
  {
    hide Reserved, TrimSpace, Round;
  }

  /** With the key taken and the wallet there, nothing changes, whatever else the request says. */
  lemma TakenKey(t: Tables, r: WalletTransaction)
    requires Posted(t, r.user, TrimSpace(r.idempotencyKey)) && r.user in t.wallets
    ensures Transact(t, r.Trimmed()).0 == t
  {
    hide Reserved, TrimSpace, Round;
  }
}
