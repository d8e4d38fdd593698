/** Who pays for what a project uses. */
module Payers {
  import opened Wrappers
  import opened Credits
  import opened Text
  import opened Ledger
  import opened LedgerInvariants
  import opened Payments
  import opened Replays

  /** A project is billed to its billing owner if it names one, and otherwise to its owner member. */
  predicate BilledTo(p: Project, user: string) {
    if Blank(p.billingOwner) then p.ownerMember.Some? && user == TrimSpace(p.ownerMember.value)
    else user == TrimSpace(p.billingOwner)
  }

  lemma PayerOf(projects: map<string, Project>, id: string)
    ensures id !in projects ==> BillingOwner(projects, id) == Err(UnknownProject)
    ensures id in projects ==>
              match BillingOwner(projects, id)
              case Ok(user) => BilledTo(projects[id], user)
              case Err(e) => e == NoOwner && forall user :: !BilledTo(projects[id], user)
  {
    hide TrimSpace, Blank;
    if id in projects {
      BlankIffTrimmedAway(projects[id].billingOwner);
    }
  }

  /**
   A debit of a project's usages: on success every record and entry it adds names the project's payer, and
   nobody else's balance changes; without a payer nothing happens.
   */
  lemma ProjectDebit(t: Tables, us: seq<Usage>, projects: map<string, Project>, user: string)
    requires LedgerInv(t, AllRounded) && us != [] && us[0].projectId in projects
    requires BilledTo(projects[us[0].projectId], user)
    ensures var t' := Debit(t, us, BillingOwner(projects, us[0].projectId)).0;
            && (forall row :: row in t'.rows ==> row in t.rows || row.billedUser == user)
            && (forall i :: |t.ledger| <= i < |t'.ledger| ==> t'.ledger[i].user == user)
            && (forall other :: other != user ==> Balance(t', other) == Balance(t, other))
  {
    var payer, mode := BillingOwner(projects, us[0].projectId), AllRounded;
    PayerOf(projects, us[0].projectId);
    assert payer == Ok(user);
    DebitRows(t, us, payer);
    DebitKeeps(t, us, payer, mode);
    EntriesAre(t, us, user);
    hide Debit, Debited;
  }

  /** The entries a debit adds are all its payer's. */
  lemma EntriesAre(t: Tables, us: seq<Usage>, user: string)
    requires us != []
    ensures var t' := Debit(t, us, Ok(user)).0;
            forall i :: |t.ledger| <= i < |t'.ledger| ==> t'.ledger[i].user == user
  {
    hide Reserved, Round, DebitAll;
    var t1 := EnsureWallet(t, user);
    var reserved := Reserved(t1.holds, user, None);
    if DebitAll(Start(t1, user), us, us[0].projectId, user, reserved).Ok? {
      BatchEntries(Start(t1, user), us, us[0].projectId, user, reserved);
    }
  }

  lemma {:induction false} BatchEntries(b: Batch, us: seq<Usage>, project: string, user: string, reserved: nat)
    requires DebitAll(b, us, project, user, reserved).Ok?
    ensures var after := DebitAll(b, us, project, user, reserved).value;
            && |b.ledger| <= |after.ledger|
            && forall i :: |b.ledger| <= i < |after.ledger| ==> after.ledger[i].user == user
    decreases |us|
  {
    hide Round, Recorded;
    if us != [] {
      var next := DebitOne(b, us[0], project, user, reserved).value;
      BatchEntries(next, us[1..], project, user, reserved);
      DebitAllGrows(next, us[1..], project, user, reserved);
    }
  }

  /** A user named to pay does so under the name without the white space around it, unless nothing is left. */
  lemma NamedUser(t: Tables, us: seq<Usage>, user: string)
    requires us != []
    ensures Blank(user) ==> Debit(t, us, NamedPayer(user)) == (t, Some(UserRequired))
    ensures !Blank(user) ==> Debit(t, us, NamedPayer(user)) == Debit(t, us, Ok(TrimSpace(user)))
  {
    BlankIffTrimmedAway(user);
    hide TrimSpace, Blank, DebitForUser;
  }

  /** A project nobody pays for is not billed. */
  lemma UnpaidProject(t: Tables, us: seq<Usage>, projects: map<string, Project>)
    requires us != []
    requires us[0].projectId !in projects || forall user :: !BilledTo(projects[us[0].projectId], user)
    ensures var id := us[0].projectId;
            Debit(t, us, BillingOwner(projects, id)) == (t, Some(if id in projects then NoOwner else UnknownProject))
  {
    hide BilledTo, BillingOwner;
    PayerOf(projects, us[0].projectId);
  }

  // ---- What a batch writes ----

  /** The amounts of the first n usages, exactly. */
  function Spent(us: seq<Usage>, n: nat): real
    requires n <= |us|
  {
    if n == 0 then 0.0 else Spent(us, n - 1) + us[n - 1].amount
  }

  ghost predicate NewKeys(rows: seq<UsageRow>, us: seq<Usage>) {
    && (forall row, u :: row in rows && u in us ==> row.key != u.key)
    && (forall i, j :: 0 <= i < j < |us| ==> us[i].key != us[j].key)
  }

  /** Record and entry of each of the first n usages, in order, with the balance counting down. */
  ghost predicate Written(b: Batch, after: Batch, us: seq<Usage>, user: string, n: nat)
    requires n <= |us|
  {
    && |after.rows| == |b.rows| + n && b.rows <= after.rows
    && |after.ledger| == |b.ledger| + n && b.ledger <= after.ledger
    && after.balance == b.balance - Spent(us, n) && after.created == b.created + n
    && (forall i :: 0 <= i < n ==>
          after.rows[|b.rows| + i] == UsageRow(us[i].key, us[i].projectId, user, Round(us[i].amount)))
    && (forall i :: 0 <= i < n ==>
          after.ledger[|b.ledger| + i]
          == Entry(user, us[i].projectId, DebitKind, -Round(us[i].amount), Round(b.balance - Spent(us, i + 1)),
                   us[i].key, ""))
  }

  lemma NotYetWritten(b: Batch, after: Batch, us: seq<Usage>, user: string, n: nat)
    requires n < |us| && NewKeys(b.rows, us) && Written(b, after, us, user, n)
    ensures !Recorded(after.rows, us[n].key)
  {
    hide Round;
    forall i | 0 <= i < |after.rows|
      ensures after.rows[i].key != us[n].key
    {
      if i < |b.rows| {
        assert after.rows[i] == b.rows[i] && b.rows[i] in b.rows && us[n] in us;
      } else {
        var k := i - |b.rows|;
        assert after.rows[|b.rows| + k] == UsageRow(us[k].key, us[k].projectId, user, Round(us[k].amount));
      }
    }
  }

  lemma WrittenNext(b: Batch, after: Batch, us: seq<Usage>, project: string, user: string, reserved: nat, n: nat)
    requires n < |us| && NewKeys(b.rows, us) && Written(b, after, us, user, n)
    requires DebitOne(after, us[n], project, user, reserved).Ok?
    ensures Written(b, DebitOne(after, us[n], project, user, reserved).value, us, user, n + 1)
    ensures us[n].projectId == project
  {
    NotYetWritten(b, after, us, user, n);
    hide Recorded, NewKeys;
    RoundNegate(us[n].amount);
    hide Round;
  }

  lemma {:induction false} AllWritten(b: Batch, after: Batch, us: seq<Usage>, project: string, user: string,
                                      reserved: nat, n: nat)
    requires n <= |us| && NewKeys(b.rows, us) && Written(b, after, us, user, n)
    requires DebitAll(after, us[n..], project, user, reserved).Ok?
    ensures Written(b, DebitAll(after, us[n..], project, user, reserved).value, us, user, |us|)
    ensures forall i :: n <= i < |us| ==> us[i].projectId == project
    decreases |us| - n
  {
    hide Round, Recorded;
    if n < |us| {
      assert us[n..][0] == us[n] && us[n..][1..] == us[n + 1..];
      WrittenNext(b, after, us, project, user, reserved, n);
      hide Written, NewKeys;
      AllWritten(b, DebitOne(after, us[n], project, user, reserved).value, us, project, user, reserved, n + 1);
    }
  }

  /**
   A batch of new usages that is not refused writes one record and one entry for each usage, in order, with its
   key, project, payer and rounded amount; balances count down exactly and are rounded where they are stored.
   */
  lemma NewBatch(t: Tables, us: seq<Usage>, user: string)
    requires us != [] && NewKeys(t.rows, us) && Debit(t, us, Ok(user)).1 == None
    ensures var t' := Debit(t, us, Ok(user)).0;
            var balance := if user in t.wallets then t.wallets[user] else 0;
            && |t'.rows| == |t.rows| + |us| && t.rows <= t'.rows
            && |t'.ledger| == |t.ledger| + |us| && t.ledger <= t'.ledger
            && t'.wallets == t.wallets[user := Round(balance as real - Spent(us, |us|))]
            && t'.holds == t.holds && t'.usages == t.usages
            && forall i :: 0 <= i < |us| ==>
                 && us[i].projectId == us[0].projectId
                 && t'.rows[|t.rows| + i] == UsageRow(us[i].key, us[i].projectId, user, Round(us[i].amount))
                 && t'.ledger[|t.ledger| + i]
                    == Entry(user, us[i].projectId, DebitKind, -Round(us[i].amount),
                             Round(balance as real - Spent(us, i + 1)), us[i].key, "")
  {
    hide Debit, Reserved, Round, DebitAll, NewKeys, Spent;
    var after := AcceptedBatch(t, us, user);
    var b := Batch((if user in t.wallets then t.wallets[user] else 0) as real, t.rows, t.ledger, 0);
    assert Written(b, after, us, user, |us|);
  }

  /** The tables after a batch that is not refused. */
  lemma AcceptedBatch(t: Tables, us: seq<Usage>, user: string) returns (after: Batch)
    requires us != [] && NewKeys(t.rows, us) && Debit(t, us, Ok(user)).1 == None
    ensures var balance := if user in t.wallets then t.wallets[user] else 0;
            Written(Batch(balance as real, t.rows, t.ledger, 0), after, us, user, |us|)
    ensures forall i :: 0 <= i < |us| ==> us[i].projectId == us[0].projectId
    ensures Debit(t, us, Ok(user)).0
            == t.(wallets := t.wallets[user := Round(after.balance)], rows := after.rows, ledger := after.ledger)
  {
    hide Reserved, Round, DebitAll, NewKeys, Spent;
    var t1 := EnsureWallet(t, user);
    var reserved := Reserved(t1.holds, user, None);
    var b := Batch(t1.wallets[user] as real, t1.rows, t1.ledger, 0);
    NothingWritten(b, us, user);
    hide Written;
    assert us[0..] == us;
    AllWritten(b, b, us, us[0].projectId, user, reserved, 0);
    after := DebitAll(b, us, us[0].projectId, user, reserved).value;
    assert t.wallets[user := 0][user := Round(after.balance)] == t.wallets[user := Round(after.balance)];
  }

  lemma NothingWritten(b: Batch, us: seq<Usage>, user: string)
    ensures Written(b, b, us, user, 0)
  {}

  /** Usages of two projects are never debited together. */
  lemma MixedBatch(t: Tables, us: seq<Usage>, user: string, i: nat)
    requires i < |us| && us[i].projectId != us[0].projectId
    ensures Debit(t, us, Ok(user)).0 == t
    ensures Debit(t, us, Ok(user)).1 in {Some(MixedProjects), Some(ReservedBalance)}
  {
    hide Reserved, Round, DebitAll;
    var t1 := EnsureWallet(t, user);
    var b := Batch(t1.wallets[user] as real, t1.rows, t1.ledger, 0);
    MixedFails(b, us, us[0].projectId, user, Reserved(t1.holds, user, None), i);
  }

  lemma {:induction false} MixedFails(b: Batch, us: seq<Usage>, project: string, user: string, reserved: nat, i: nat)
    requires i < |us| && us[i].projectId != project
    ensures DebitAll(b, us, project, user, reserved).Err?
    decreases |us|
  {
    hide Round, Recorded;
    if i > 0 && DebitOne(b, us[0], project, user, reserved).Ok? {
      MixedFails(DebitOne(b, us[0], project, user, reserved).value, us[1..], project, user, reserved, i - 1);
    }
  }
}
