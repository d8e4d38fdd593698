/** What repeated settlement batches get done: SettlePendingAIModelUsage over and over. */
module SettlementBatches {
  import opened Wrappers
  import opened Ledger
  import opened LedgerInvariants
  import opened AIUsage
  import opened BillingRuns
  import opened BillingTheorems
  import opened HoldCoverage

  /** The usages that wait for settlement. */
  function Waiting(t: Tables): set<string> {
    set id | id in t.usages && Eligible(t, id)
  }

  /** A usage whose settlement fails as things stand. */
  ghost predicate Stuck(t: Tables, id: string) {
    Eligible(t, id) && Settle(t, ItemOf(t, id)).1 != None
  }

  /** The tables after a batch, how many usages it settled, and whether one failed. */
  ghost function AfterBatch(t: Tables, ids: seq<string>): (Tables, nat, bool)
    requires forall i :: 0 <= i < |ids| ==> Eligible(t, ids[i])
  {
    SettleAll(t, ItemsOf(t, ids))
  }

  // ---- A batch as events ----

  function Selects(ids: seq<string>): seq<Event> {
    seq(|ids|, i requires 0 <= i < |ids| => Select(ids[i]))
  }

  function Settlements(items: seq<Item>): seq<Event> {
    seq(|items|, i requires 0 <= i < |items| => SettleItem(items[i]))
  }

  lemma {:induction false} RunAppend(w: World, a: seq<Event>, b: seq<Event>)
    ensures Run(w, a + b) == Run(Run(w, a), b)
    decreases |b|
  {
    hide Step;
    if b == [] {
      assert a + b == a;
    } else {
      var n := |b| - 1;
      RunAppend(w, a, b[..n]);
      assert (a + b)[..|a + b| - 1] == a + b[..n];
    }
  }

  lemma {:induction false} SelectsRead(w: World, ids: seq<string>)
    requires forall i :: 0 <= i < |ids| ==> Eligible(w.t, ids[i])
    ensures Run(w, Selects(ids)).t == w.t
    ensures forall item :: item in ItemsOf(w.t, ids) ==> item in Run(w, Selects(ids)).inFlight
    decreases |ids|
  {
    hide Eligible, ItemOf;
    if ids != [] {
      var n := |ids| - 1;
      SelectsRead(w, ids[..n]);
      assert Selects(ids) == Selects(ids[..n]) + [Select(ids[n])];
      RunSnoc(w, Selects(ids[..n]), Select(ids[n]));
    }
  }

  lemma {:induction false} SettlementsSettle(w: World, items: seq<Item>)
    requires forall item :: item in items ==> item in w.inFlight
    ensures Run(w, Settlements(items)) == w.(t := SettleAll(w.t, items).0)
    decreases |items|
  {
    hide Settle;
    if items != [] {
      var n := |items| - 1;
      SettlementsSettle(w, items[..n]);
      assert Settlements(items) == Settlements(items[..n]) + [SettleItem(items[n])];
      RunSnoc(w, Settlements(items[..n]), SettleItem(items[n]));
      assert items[n] in items;
    }
  }

  /** A batch is a run of the system: its rows are read, and each is settled in a transaction of its own. */
  lemma BatchIsRun(w: World, ids: seq<string>)
    requires forall i :: 0 <= i < |ids| ==> Eligible(w.t, ids[i])
    ensures Run(w, Selects(ids) + Settlements(ItemsOf(w.t, ids))).t == AfterBatch(w.t, ids).0
  {
    hide Eligible, Settle, Step;
    SelectsRead(w, ids);
    RunAppend(w, Selects(ids), Settlements(ItemsOf(w.t, ids)));
    SettlementsSettle(Run(w, Selects(ids)), ItemsOf(w.t, ids));
  }

  // ---- The batch is determined ----

  /** The query has one answer. */
  lemma BatchIsUnique(t: Tables, a: seq<string>, b: seq<string>, limit: nat)
    requires BatchOf(t, a, limit) && BatchOf(t, b, limit)
    ensures a == b
  {
    hide Eligible, Sooner;
    BatchIsPrefix(t, a, b, |a|, limit);
    BatchIsPrefix(t, b, a, |b|, limit);
  }

  lemma {:induction false} BatchIsPrefix(t: Tables, a: seq<string>, b: seq<string>, n: nat, limit: nat)
    requires BatchOf(t, a, limit) && BatchOf(t, b, limit) && n <= |a|
    ensures n <= |b| && a[..n] == b[..n]
  {
    hide Eligible, Sooner;
    if n > 0 {
      BatchIsPrefix(t, a, b, n - 1, limit);
      var x := a[n - 1];
      if x in b {
        var j :| 0 <= j < |b| && b[j] == x;
        NotEarlier(t, a, b, n - 1, j);
        SameNext(t, a, b, n - 1, j);
      } else {
        assert |b| == limit;
        NextIsListed(t, a, b, n - 1);
      }
      assert a[..n] == a[..n - 1] + [a[n - 1]] && b[..n] == b[..n - 1] + [b[n - 1]];
    }
  }

  lemma NotEarlier(t: Tables, a: seq<string>, b: seq<string>, n: nat, j: nat)
    requires OldestFirst(t, a) && n < |a| && n <= |b| && j < |b| && a[..n] == b[..n] && b[j] == a[n]
    ensures j >= n
  {
    hide Eligible, Sooner;
    if j < n {
      assert a[j] == a[..n][j] == b[..n][j] == b[j];
      SoonerIsTotal(t, a[j], a[n]);
    }
  }

  lemma SameNext(t: Tables, a: seq<string>, b: seq<string>, n: nat, j: nat)
    requires OldestFirst(t, a) && OldestFirst(t, b)
    requires n < |a| && n <= j < |b| && a[..n] == b[..n] && b[j] == a[n]
    ensures b[n] == a[n]
  {
    hide Eligible, Sooner;
    if j > n {
      NextIsListed(t, a, b, n);
    }
  }

  /** Two answers that agree so far agree on the next. */
  lemma NextIsListed(t: Tables, a: seq<string>, b: seq<string>, n: nat)
    requires OldestFirst(t, a) && OldestFirst(t, b) && n < |a| && n < |b| && a[..n] == b[..n]
    ensures a[n] == b[n]
  {
    hide Eligible, Sooner;
    if a[n] != b[n] {
      NotAfter(t, a, b, n);
      NotAfter(t, b, a, n);
      SoonerIsTotal(t, a[n], b[n]);
    }
  }

  lemma NotAfter(t: Tables, a: seq<string>, b: seq<string>, n: nat)
    requires OldestFirst(t, a) && OldestFirst(t, b) && n < |a| && n < |b| && a[..n] == b[..n] && a[n] != b[n]
    ensures Sooner(t, a[n], b[n])
  {
    hide Eligible, Sooner;
    assert b[n] in b;
    if b[n] in a {
      var i :| 0 <= i < |a| && a[i] == b[n];
      if i < n {
        assert b[i] == b[..n][i] == a[..n][i] == a[i];
        SoonerIsTotal(t, b[i], b[n]);
      }
    }
  }

  // ---- What one batch does ----

  /** The tables of a reachable state, no row in flight. */
  ghost predicate Reachable(t: Tables) {
    WorldInv(World(t, {}), AllRounded)
  }

  lemma ReachedByRun(es: seq<Event>)
    ensures Reachable(Run(EMPTY, es).t)
  {
    hide Run, LedgerInv, Linked, SettledAreBilled, Sourced;
    RunKeeps(es, AllRounded);
  }

  /** A failed settlement changes nothing; a successful one ends this usage's wait and no other's. */
  lemma OneSettlement(t: Tables, id: string)
    requires Reachable(t) && Eligible(t, id)
    ensures var (t', error) := Settle(t, ItemOf(t, id));
            && Reachable(t')
            && (error.Some? ==> t' == t && error != Some(AlreadySettled))
            && (error == None ==> Waiting(t') == Waiting(t) - {id})
            && (forall other :: other in Waiting(t') ==> ItemOf(t', other) == ItemOf(t, other))
  {
    hide LedgerInv, SettledAreBilled, HoldsLinked, Records, Validate, DebitForUser;
    var item, mode := ItemOf(t, id), AllRounded;
    SettleKeeps(World(t, {}), item, mode);
    if Settle(t, item).1 == None {
      SettledLeaves(t, id);
    }
  }

  lemma SettledLeaves(t: Tables, id: string)
    requires UsagesLinked(t) && Eligible(t, id) && Settle(t, ItemOf(t, id)).1 == None
    ensures var t' := Settle(t, ItemOf(t, id)).0;
            && Waiting(t') == Waiting(t) - {id}
            && (forall other :: other in Waiting(t') ==> ItemOf(t', other) == ItemOf(t, other))
  {
    hide Records, Validate, LinkedRow;
    var item, t' := ItemOf(t, id), Settle(t, ItemOf(t, id)).0;
    var t1 := DebitForUser(t, Records(item.input, item.usageId), item.input.userId, Exclusion(item.holdId)).0;
    DebitLeavesHolds(t, Records(item.input, item.usageId), item.input.userId, Exclusion(item.holdId));
    hide DebitForUser, Settle;
    assert t' == MarkSettled(t1, id, item.holdId) by {
      SettleMarks(t, item);
    }
  }

  lemma SettleMarks(t: Tables, item: Item)
    requires Settle(t, item).1 == None
    ensures Ready(t, item)
    ensures var t1 := DebitForUser(t, Records(item.input, item.usageId), item.input.userId, Exclusion(item.holdId)).0;
            item.usageId in t1.usages && item.holdId in t1.holds
            && Settle(t, item).0 == MarkSettled(t1, item.usageId, item.holdId)
  {
    hide Records, Validate, MarkSettled;
    DebitLeavesHolds(t, Records(item.input, item.usageId), item.input.userId, Exclusion(item.holdId));
    hide DebitForUser;
  }

  lemma DebitLeavesHolds(t: Tables, us: seq<Usage>, user: string, excluded: Option<string>)
    requires us != []
    ensures var t1 := DebitForUser(t, us, user, excluded).0; t1.holds == t.holds && t1.usages == t.usages
  {
    hide DebitAll, Reserved;
  }

  /** A batch settles some of its usages, changes nothing else that waits, and nothing at all when all of them fail. */
  lemma {:induction false} BatchOutcome(t: Tables, ids: seq<string>)
    requires Reachable(t) && forall i :: 0 <= i < |ids| ==> Eligible(t, ids[i])
    requires forall i, j :: 0 <= i < j < |ids| ==> ids[i] != ids[j]
    ensures var (t', settled, failed) := AfterBatch(t, ids);
            && Reachable(t')
            && Waiting(t') <= Waiting(t) && |Waiting(t')| + settled == |Waiting(t)| && settled <= |ids|
            && (forall id :: id in Waiting(t) && id !in ids ==> id in Waiting(t'))
            && (forall id :: id in Waiting(t') ==> ItemOf(t', id) == ItemOf(t, id))
            && (settled == 0 ==> t' == t && forall id :: id in ids ==> Stuck(t, id))
            && (failed <==> settled < |ids|)
    decreases |ids|
  {
    hide Settle, Eligible, Reachable, ItemOf;
    if ids != [] {
      var n := |ids| - 1;
      BatchOutcome(t, ids[..n]);
      var (t1, settled, failed) := AfterBatch(t, ids[..n]);
      EligibleUsages(t);
      assert ids[n] !in ids[..n] && ids[n] in Waiting(t);
      OneSettlement(t1, ids[n]);
    }
  }

  // ---- Batch after batch ----

  /** A batch settles nothing exactly when every usage in it is stuck, and then it leaves all as it was. */
  lemma BatchStalls(t: Tables, ids: seq<string>, limit: nat)
    requires Reachable(t) && BatchOf(t, ids, limit)
    ensures AfterBatch(t, ids).1 == 0 <==> forall id :: id in ids ==> Stuck(t, id)
    ensures AfterBatch(t, ids).1 == 0 ==> AfterBatch(t, ids).0 == t
  {
    hide Settle, Eligible, Reachable, Sooner;
    DistinctIds(t, ids);
    BatchOutcome(t, ids);
    if forall id :: id in ids ==> Stuck(t, id) {
      AllStuck(t, ids);
    }
  }

  lemma DistinctIds(t: Tables, ids: seq<string>)
    requires OldestFirst(t, ids)
    ensures forall i, j :: 0 <= i < j < |ids| ==> ids[i] != ids[j]
  {
    hide Sooner, Eligible;
    forall i, j | 0 <= i < j < |ids|
      ensures ids[i] != ids[j]
    {
      SoonerIsTotal(t, ids[i], ids[j]);
    }
  }

  lemma {:induction false} AllStuck(t: Tables, ids: seq<string>)
    requires forall i :: 0 <= i < |ids| ==> Eligible(t, ids[i]) && Stuck(t, ids[i])
    ensures AfterBatch(t, ids).0 == t && AfterBatch(t, ids).1 == 0
    decreases |ids|
  {
    hide Eligible;
    if ids != [] {
      var n := |ids| - 1;
      AllStuck(t, ids[..n]);
      StuckStays(t, ids[n]);
      hide Settle, Stuck;
    }
  }

  lemma StuckStays(t: Tables, id: string)
    requires Stuck(t, id)
    ensures Settle(t, ItemOf(t, id)).0 == t && Settle(t, ItemOf(t, id)).1.Some?
  {
    hide Records, Validate, DebitForUser;
  }

  /** While fewer usages are stuck than a batch holds and some other waits, every batch settles one. */
  lemma BatchProgress(t: Tables, ids: seq<string>, limit: nat)
    requires Reachable(t) && BatchOf(t, ids, limit)
    requires exists id :: Eligible(t, id) && !Stuck(t, id)
    requires |set id | id in Waiting(t) && Stuck(t, id)| < limit
    ensures AfterBatch(t, ids).1 > 0
  {
    hide Settle, Eligible, Reachable, Sooner, Stuck;
    BatchStalls(t, ids, limit);
    if forall id :: id in ids ==> Stuck(t, id) {
      var stuck := set id | id in Waiting(t) && Stuck(t, id);
      DistinctIds(t, ids);
      EligibleUsages(t);
      SizeOfDistinct(ids);
      var listed := set id | id in ids;
      assert listed <= stuck;
      SubsetSize(listed, stuck);
      assert false;
    }
  }

  lemma {:induction false} SizeOfDistinct(ids: seq<string>)
    requires forall i, j :: 0 <= i < j < |ids| ==> ids[i] != ids[j]
    ensures |set id | id in ids| == |ids|
    decreases |ids|
  {
    if ids != [] {
      var n := |ids| - 1;
      SizeOfDistinct(ids[..n]);
      assert (set id | id in ids) == (set id | id in ids[..n]) + {ids[n]};
    }
  }

  lemma SubsetSize(a: set<string>, b: set<string>)
    requires a <= b
    ensures |a| <= |b|
  {
    assert b == a + (b - a);
  }

  /** Tables from batch to batch. */
  ghost predicate Batches(states: seq<Tables>, limit: nat) {
    forall i :: 0 <= i < |states| - 1 ==>
      exists ids :: BatchOf(states[i], ids, limit) && states[i + 1] == AfterBatch(states[i], ids).0
  }

  /** The next batch settles nothing. */
  ghost predicate Stalled(t: Tables, limit: nat) {
    exists ids :: BatchOf(t, ids, limit) && AfterBatch(t, ids).1 == 0
  }

  lemma {:induction false} BatchesSettle(states: seq<Tables>, limit: nat, i: nat)
    requires i < |states| - 1 && Reachable(states[0]) && Batches(states, limit)
    ensures Reachable(states[i + 1])
    ensures (Stalled(states[i], limit) && states[i + 1] == states[i])
            || |Waiting(states[i + 1])| + i < |Waiting(states[0])|
  {
    hide Eligible, Reachable, Settle, Waiting, Sooner;
    if i > 0 {
      BatchesSettle(states, limit, i - 1);
    }
    var t := states[i];
    var ids :| BatchOf(t, ids, limit) && states[i + 1] == AfterBatch(t, ids).0;
    OneBatch(t, ids, limit);
    if i > 0 && Stalled(states[i - 1], limit) && t == states[i - 1] {
      StalledStays(t, ids, limit);
    }
  }

  lemma OneBatch(t: Tables, ids: seq<string>, limit: nat)
    requires Reachable(t) && BatchOf(t, ids, limit)
    ensures var (t', settled, _) := AfterBatch(t, ids);
            && Reachable(t') && |Waiting(t')| + settled == |Waiting(t)|
            && (settled == 0 ==> t' == t)
  {
    hide Eligible, Reachable, Settle, Sooner, Waiting;
    DistinctIds(t, ids);
    BatchOutcome(t, ids);
  }

  lemma StalledStays(t: Tables, ids: seq<string>, limit: nat)
    requires Stalled(t, limit) && BatchOf(t, ids, limit)
    ensures AfterBatch(t, ids).1 == 0
  {
    hide Eligible, Sooner, Settle;
    forall other | BatchOf(t, other, limit)
      ensures other == ids
    {
      BatchIsUnique(t, ids, other, limit);
    }
  }

  /**
   Enough batches in a row settle all that can be settled: in the end every usage that waits is stuck, or a
   whole batch of them is, and further batches change nothing.
   */
  lemma BatchesEnd(states: seq<Tables>, limit: nat)
    requires states != [] && Reachable(states[0]) && Batches(states, limit)
    requires |states| > |Waiting(states[0])| + 1
    ensures var t := states[|states| - 1];
            && (forall ids :: BatchOf(t, ids, limit) ==> AfterBatch(t, ids).0 == t)
            && ((forall id :: Eligible(t, id) ==> Stuck(t, id)) || |set id | id in Waiting(t) && Stuck(t, id)| >= limit)
  {
    hide Eligible, Reachable, Settle, Stuck, Sooner, Waiting, Batches, Stalled;
    var n := |states| - 1;
    var t := states[n];
    BatchesSettle(states, limit, n - 1);
    assert Stalled(t, limit);
    forall ids | BatchOf(t, ids, limit)
      ensures AfterBatch(t, ids).0 == t
    {
      StalledStays(t, ids, limit);
      OneBatch(t, ids, limit);
    }
    WhenStalled(t, limit);
  }

  lemma WhenStalled(t: Tables, limit: nat)
    requires Reachable(t) && Stalled(t, limit)
    ensures (forall id :: Eligible(t, id) ==> Stuck(t, id)) || |set id | id in Waiting(t) && Stuck(t, id)| >= limit
  {
    hide Eligible, Reachable, Settle, Stuck, Sooner, Waiting;
    var ids :| BatchOf(t, ids, limit) && AfterBatch(t, ids).1 == 0;
    if (exists id :: Eligible(t, id) && !Stuck(t, id)) && |set id | id in Waiting(t) && Stuck(t, id)| < limit {
      BatchProgress(t, ids, limit);
    }
  }

  /**
   Starvation: as many stuck usages as a batch holds, all older than the rest, keep every other usage waiting
   for as long as nothing else happens.
   */
  lemma StuckStarve(t: Tables, stuck: set<string>, ids: seq<string>, limit: nat)
    requires Reachable(t) && BatchOf(t, ids, limit) && |stuck| >= limit
    requires forall id :: id in stuck ==> Stuck(t, id)
    requires forall id, other :: id in stuck && Eligible(t, other) && other !in stuck ==> Sooner(t, id, other)
    ensures AfterBatch(t, ids) == (t, 0, limit > 0)
  {
    hide Settle, Eligible, Reachable, Sooner;
    DistinctIds(t, ids);
    forall x | x in ids
      ensures x in stuck
    {
      if x !in stuck {
        SizeOfDistinct(ids);
        var listed := set id | id in ids;
        assert x in listed;
        if stuck <= listed {
          SubsetSize(stuck, listed - {x});
          assert false;
        }
        var s :| s in stuck && s !in listed;
        var i :| 0 <= i < |ids| && ids[i] == x;
        SoonerIsTotal(t, s, x);
        assert false;
      }
    }
    BatchStalls(t, ids, limit);
    BatchOutcome(t, ids);
  }
}
