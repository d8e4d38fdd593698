/** The attention items of a dashboard in terms of the events themselves. */
module AttentionItems {
  import opened Wrappers
  import opened Attention

  /** The first identity an event has: target, application, resource, project, and its kind failing those. */
  ghost predicate Identifies(e: Event, identity: string) {
    var all := [e.targetId, e.applicationId, e.resourceId, e.projectId, e.kind];
    exists k :: 0 <= k < 5 && all[k] == identity && (k < 4 ==> all[k] != "") && forall j :: 0 <= j < k ==> all[j] == ""
  }

  ghost predicate Named(e: Event, key: string) {
    exists identity :: Identifies(e, identity) && key == e.category + ":" + e.projectId + ":" + identity
  }

  /** Events that are grouped together. */
  ghost predicate Alike(a: Event, b: Event) {
    exists key :: Named(a, key) && Named(b, key)
  }

  predicate Troubled(e: Event) {
    e.status == "failed" || e.severity in ["error", "warning"]
  }

  /** Event i is in the window, and no earlier event of its group is. */
  ghost predicate First(events: seq<Event>, cutoff: int, i: int) {
    && 0 <= i < |events| && events[i].occurredAt >= cutoff
    && forall j :: 0 <= j < i && events[j].occurredAt >= cutoff ==> !Alike(events[j], events[i])
  }

  /** Event j is one of the unbroken trouble of its group that starts with event i. */
  ghost predicate Follows(events: seq<Event>, cutoff: int, i: int, j: int) {
    && 0 <= i <= j < |events| && events[j].occurredAt >= cutoff && Alike(events[j], events[i])
    && forall k :: i <= k <= j && events[k].occurredAt >= cutoff && Alike(events[k], events[i]) ==> Troubled(events[k])
  }

  ghost predicate Opens(events: seq<Event>, cutoff: int, i: int) {
    First(events, cutoff, i) && Troubled(events[i])
  }

  ghost predicate Struck(events: seq<Event>, cutoff: int, i: int, severity: string) {
    exists j :: Follows(events, cutoff, i, j) && events[j].severity == severity
  }

  ghost function Trouble(events: seq<Event>, cutoff: int, i: int): set<int> {
    set j: int | 0 <= j < |events| && Follows(events, cutoff, i, j)
  }

  /** The item tells of event i, how many events follow it, and the worst of their severities. */
  ghost predicate Tells(events: seq<Event>, cutoff: int, i: int, item: Item) {
    && 0 <= i < |events|
    && item.latest == events[i] && item.category == events[i].category && Named(events[i], item.key)
    && item.occurrences == |Trouble(events, cutoff, i)|
    && item.severity == (if Struck(events, cutoff, i, "error") then "error"
                         else if Struck(events, cutoff, i, "warning") then "warning"
                         else events[i].severity)
  }

  // ---- Groups ----

  lemma NamedIs(e: Event, key: string)
    ensures Named(e, key) <==> key == GroupKey(e)
  {
    var all := [e.targetId, e.applicationId, e.resourceId, e.projectId, e.kind];
    var k := if all[0] != "" then 0 else if all[1] != "" then 1 else if all[2] != "" then 2
             else if all[3] != "" then 3 else 4;
    assert forall identity :: Identifies(e, identity) <==> identity == all[k];
  }

  lemma AlikeIs()
    ensures forall a, b :: Alike(a, b) <==> GroupKey(a) == GroupKey(b)
  {
    hide Named, GroupKey;
    forall a, b
      ensures Alike(a, b) <==> GroupKey(a) == GroupKey(b)
    {
      NamedIs(a, GroupKey(a));
      NamedIs(b, GroupKey(a));
      forall key
        ensures (Named(a, key) <==> key == GroupKey(a)) && (Named(b, key) <==> key == GroupKey(b))
      {
        NamedIs(a, key);
        NamedIs(b, key);
      }
    }
  }

  predicate Increasing(at: seq<nat>) {
    forall k, l :: 0 <= k < l < |at| ==> at[k] < at[l]
  }

  predicate InGroup(events: seq<Event>, cutoff: int, key: string, j: nat)
    requires j < |events|
  {
    events[j].occurredAt >= cutoff && GroupKey(events[j]) == key
  }

  /** The positions of a key's events among the first n. */
  ghost predicate KeyAt(events: seq<Event>, n: nat, cutoff: int, key: string, at: seq<nat>) {
    && n <= |events| && Increasing(at)
    && (forall k :: 0 <= k < |at| ==> at[k] < n)
    && (forall j :: 0 <= j < n ==> (j in at <==> InGroup(events, cutoff, key, j)))
  }

  lemma KeyAtNext(events: seq<Event>, n: nat, cutoff: int, key: string, before: seq<nat>)
    requires n < |events| && KeyAt(events, n, cutoff, key, before)
    ensures KeyAt(events, n + 1, cutoff, key, before + if InGroup(events, cutoff, key, n) then [n] else [])
  {
    hide InGroup;
    assert n !in before;
  }

  /** Where the events of a key are. */
  lemma {:induction false} KeyPlaces(events: seq<Event>, cutoff: int, key: string, n: nat) returns (at: seq<nat>)
    requires n <= |events|
    ensures KeyAt(events, n, cutoff, key, at) && |at| == |OfKey(events[..n], cutoff, key)|
    ensures forall k :: 0 <= k < |at| ==> OfKey(events[..n], cutoff, key)[k] == events[at[k]]
  {
    hide GroupKey;
    at := [];
    if n > 0 {
      var before := KeyPlaces(events, cutoff, key, n - 1);
      KeyAtNext(events, n - 1, cutoff, key, before);
      hide KeyAt;
      assert events[..n][..n - 1] == events[..n - 1];
      at := before + if InGroup(events, cutoff, key, n - 1) then [n - 1] else [];
    }
  }

  /** Where the leading run of a key is: it is the trouble that follows the key's first event. */
  lemma RunPlaces(events: seq<Event>, cutoff: int, key: string) returns (at: seq<nat>)
    ensures var run := RunOf(events, cutoff, key);
            && |at| == |run| && Increasing(at)
            && (forall k :: 0 <= k < |at| ==> at[k] < |events| && run[k] == events[at[k]])
            && (at != [] ==> GroupKey(events[at[0]]) == key && Opens(events, cutoff, at[0]))
            && (at != [] ==> forall j :: 0 <= j < |events| ==> (j in at <==> Follows(events, cutoff, at[0], j)))
  {
    hide GroupKey, OfKey, Follows, Opens;
    var all := KeyPlaces(events, cutoff, key, |events|);
    assert events[..|events|] == events;
    var own := OfKey(events, cutoff, key);
    var run := LeadingRun(own);
    at := all[..|run|];
    forall k | 0 <= k < |run|
      ensures at[k] == all[k] && run[k] == own[k] && Troubled(events[all[k]])
    {
      assert run[k] in run;
    }
    assert |run| < |all| ==> !Troubled(events[all[|run|]]);
    hide LeadingRun, Troubled;
    if at != [] {
      assert all[0] in all;
      FirstOpens(events, cutoff, key, all);
      forall j | 0 <= j < |events|
        ensures j in at <==> Follows(events, cutoff, at[0], j)
      {
        FollowsIs(events, cutoff, key, all, |run|, j);
      }
    }
  }

  /** The first of a key's events. */
  lemma FirstOpens(events: seq<Event>, cutoff: int, key: string, all: seq<nat>)
    requires KeyAt(events, |events|, cutoff, key, all) && all != []
    ensures GroupKey(events[all[0]]) == key && First(events, cutoff, all[0])
    ensures Opens(events, cutoff, all[0]) <==> Troubled(events[all[0]])
  {
    hide GroupKey;
    AlikeIs();
    hide Alike;
    assert all[0] in all;
    forall j | 0 <= j < all[0]
      ensures events[j].occurredAt >= cutoff ==> GroupKey(events[j]) != key
    {
      assert j !in all && !InGroup(events, cutoff, key, j);
    }
  }

  /** A key whose first event needs attention has a run. */
  lemma RunIsThere(events: seq<Event>, cutoff: int, key: string, i: nat)
    requires Opens(events, cutoff, i) && GroupKey(events[i]) == key
    ensures RunOf(events, cutoff, key) != []
  {
    hide GroupKey, OfKey, Opens, Troubled;
    var all := KeyPlaces(events, cutoff, key, |events|);
    assert events[..|events|] == events;
    assert First(events, cutoff, i) && InGroup(events, cutoff, key, i) && i in all by {
      OpensIs(events, cutoff, i);
    }
    FirstOpens(events, cutoff, key, all);
    FirstOnce(events, cutoff, i, all[0]);
    RunHead(OfKey(events, cutoff, key));
    OpensIs(events, cutoff, i);
  }

  lemma OpensIs(events: seq<Event>, cutoff: int, i: int)
    requires Opens(events, cutoff, i)
    ensures First(events, cutoff, i) && NeedsAttention(events[i])
  {}

  /** A group has one first event. */
  lemma FirstOnce(events: seq<Event>, cutoff: int, i: int, j: int)
    requires First(events, cutoff, i) && First(events, cutoff, j) && GroupKey(events[i]) == GroupKey(events[j])
    ensures i == j
  {
    hide GroupKey;
    AlikeIs();
    hide Alike;
  }

  lemma FollowsIs(events: seq<Event>, cutoff: int, key: string, all: seq<nat>, r: nat, j: nat)
    requires 0 < r <= |all| && j < |events| && Increasing(all)
    requires forall k :: 0 <= k < |all| ==> all[k] < |events|
    requires forall i :: 0 <= i < |events| ==>
               (i in all <==> events[i].occurredAt >= cutoff && GroupKey(events[i]) == key)
    requires forall k :: 0 <= k < r ==> Troubled(events[all[k]])
    requires r < |all| ==> !Troubled(events[all[r]])
    ensures j in all[..r] <==> Follows(events, cutoff, all[0], j)
  {
    hide GroupKey, Troubled;
    AlikeIs();
    hide Alike;
    assert all[0] in all;
    if Follows(events, cutoff, all[0], j) {
      assert j in all;
      var k :| 0 <= k < |all| && all[k] == j;
      assert forall l :: 0 <= l < |all| ==> all[l] in all;
      assert r < |all| ==> all[r] > j;
      assert k < r;
      assert all[..r][k] == j;
    }
    if j in all[..r] {
      var k :| 0 <= k < r && all[..r][k] == j;
      assert all[k] in all;
      forall m | all[0] <= m <= j && events[m].occurredAt >= cutoff && Alike(events[m], events[all[0]])
        ensures Troubled(events[m])
      {
        assert m in all;
        var l :| 0 <= l < |all| && all[l] == m;
        assert l <= k;
      }
    }
  }

  lemma {:induction false} TopIs(run: seq<Event>)
    requires run != []
    ensures TopSeverity(run) == if exists e :: e in run && e.severity == "error" then "error"
                                else if exists e :: e in run && e.severity == "warning" then "warning"
                                else run[0].severity
  {
    var n := |run| - 1;
    assert forall e :: e in run <==> e in run[..n] || e == run[n];
    if n > 0 {
      TopIs(run[..n]);
    }
  }

  lemma {:induction false} SizeOf(at: seq<nat>, places: set<int>)
    requires Increasing(at) && forall j :: j in places <==> j in at
    ensures |places| == |at|
  {
    if at == [] {
      assert forall j :: j !in places;
    } else {
      var n := |at| - 1;
      assert at[n] in at;
      forall j
        ensures j in at[..n] <==> j in at && j != at[n]
      {
        if j in at && j != at[n] {
          var k :| 0 <= k < |at| && at[k] == j;
          assert at[..n][k] == j;
        }
      }
      SizeOf(at[..n], places - {at[n]});
    }
  }

  lemma ItemTells(events: seq<Event>, cutoff: int, key: string, at: seq<nat>)
    requires var run := RunOf(events, cutoff, key);
             && |at| == |run| > 0 && Increasing(at)
             && (forall k :: 0 <= k < |at| ==> at[k] < |events| && run[k] == events[at[k]])
    requires GroupKey(events[at[0]]) == key
    requires forall j :: 0 <= j < |events| ==> (j in at <==> Follows(events, cutoff, at[0], j))
    ensures Tells(events, cutoff, at[0], ItemFor(RunOf(events, cutoff, key), key))
  {
    hide GroupKey, Named, RunOf, TopSeverity;
    var run := RunOf(events, cutoff, key);
    NamedIs(events[at[0]], key);
    SizeOf(at, Trouble(events, cutoff, at[0]));
    TopIs(run);
    forall severity
      ensures Struck(events, cutoff, at[0], severity) <==> exists e :: e in run && e.severity == severity
    {
      StruckIs(events, cutoff, run, at, severity);
    }
    hide Struck, Follows, Trouble;
  }

  lemma StruckIs(events: seq<Event>, cutoff: int, run: seq<Event>, at: seq<nat>, severity: string)
    requires |at| == |run| > 0
    requires forall k :: 0 <= k < |at| ==> at[k] < |events| && run[k] == events[at[k]]
    requires forall j :: 0 <= j < |events| ==> (j in at <==> Follows(events, cutoff, at[0], j))
    ensures Struck(events, cutoff, at[0], severity) <==> exists e :: e in run && e.severity == severity
  {
    if Struck(events, cutoff, at[0], severity) {
      var j :| Follows(events, cutoff, at[0], j) && events[j].severity == severity;
      hide Follows;
      assert j in at;
      var k :| 0 <= k < |at| && at[k] == j;
      assert run[k] in run;
    }
    hide Follows;
    if e :| e in run && e.severity == severity {
      var k :| 0 <= k < |run| && run[k] == e;
      assert at[k] in at;
      assert Follows(events, cutoff, at[0], at[k]);
    }
  }

  /** The positions of first events among the first n. */
  ghost predicate FirstsAt(events: seq<Event>, n: nat, cutoff: int, at: seq<nat>) {
    && n <= |events| && Increasing(at)
    && (forall k :: 0 <= k < |at| ==> at[k] < n)
    && (forall j :: 0 <= j < n ==> (j in at <==> First(events, cutoff, j)))
  }

  /** Where keys appear first. */
  lemma {:induction false} FirstPlaces(events: seq<Event>, cutoff: int, n: nat) returns (at: seq<nat>)
    requires n <= |events|
    ensures FirstsAt(events, n, cutoff, at) && |at| == |Keys(events[..n], cutoff)|
    ensures forall k :: 0 <= k < |at| ==> GroupKey(events[at[k]]) == Keys(events[..n], cutoff)[k]
  {
    hide GroupKey, First;
    at := [];
    if n > 0 {
      at := FirstPlaces(events, cutoff, n - 1);
      FirstIs(events, cutoff, n - 1);
      FirstsNext(events, cutoff, n - 1, at);
      assert events[..n][..n - 1] == events[..n - 1];
      hide FirstsAt;
      if First(events, cutoff, n - 1) {
        at := at + [n - 1];
      }
    }
  }

  lemma FirstsNext(events: seq<Event>, cutoff: int, n: nat, before: seq<nat>)
    requires n < |events| && FirstsAt(events, n, cutoff, before)
    ensures FirstsAt(events, n + 1, cutoff, before + if First(events, cutoff, n) then [n] else [])
  {
    hide First;
    assert n !in before;
  }

  lemma FirstIs(events: seq<Event>, cutoff: int, n: nat)
    requires n < |events|
    ensures First(events, cutoff, n)
       <==> events[n].occurredAt >= cutoff && GroupKey(events[n]) !in Keys(events[..n], cutoff)
  {
    hide GroupKey;
    AlikeIs();
    hide Alike;
    KeysOfFirsts(events[..n], cutoff, GroupKey(events[n]));
    assert forall j :: 0 <= j < n ==> events[..n][j] == events[j];
    hide Keys;
  }

  lemma KeysOfFirsts(events: seq<Event>, cutoff: int, key: string)
    ensures key in Keys(events, cutoff) <==>
              exists j :: 0 <= j < |events| && events[j].occurredAt >= cutoff && GroupKey(events[j]) == key
  {
    hide GroupKey, OfKey, Keys;
    KeysAre(events, cutoff, key);
    var all := KeyPlaces(events, cutoff, key, |events|);
    assert events[..|events|] == events;
    if all != [] {
      assert all[0] in all && InGroup(events, cutoff, key, all[0]);
    }
    if j :| 0 <= j < |events| && events[j].occurredAt >= cutoff && GroupKey(events[j]) == key {
      assert InGroup(events, cutoff, key, j) && j in all;
    }
  }

  // ---- Items ----

  /** The items tell of the events at these positions. */
  ghost predicate AllTell(events: seq<Event>, cutoff: int, at: seq<nat>, items: seq<Item>) {
    && |at| == |items|
    && (forall k :: 0 <= k < |at| ==> Opens(events, cutoff, at[k]))
    && (forall k :: 0 <= k < |at| ==> Tells(events, cutoff, at[k], items[k]))
  }

  lemma AllTellFront(events: seq<Event>, cutoff: int, at: seq<nat>, items: seq<Item>)
    requires AllTell(events, cutoff, at, items) && items != []
    ensures var n := |items| - 1;
            && AllTell(events, cutoff, at[..n], items[..n])
            && Opens(events, cutoff, at[n]) && Tells(events, cutoff, at[n], items[n])
  {
    hide Opens, Tells;
  }

  lemma AllTellBack(events: seq<Event>, cutoff: int, at: seq<nat>, items: seq<Item>, i: nat, item: Item)
    requires AllTell(events, cutoff, at, items) && Opens(events, cutoff, i) && Tells(events, cutoff, i, item)
    ensures AllTell(events, cutoff, at + [i], items + [item])
  {
    hide Opens, Tells;
  }

  lemma AllTellTimes(events: seq<Event>, cutoff: int, at: seq<nat>, items: seq<Item>)
    requires AllTell(events, cutoff, at, items)
    ensures |at| == |items|
    ensures forall k :: 0 <= k < |at| ==> at[k] < |events| && items[k].latest == events[at[k]]
  {
    hide Opens, Named, Trouble, Struck;
  }

  /** One key's item. */
  lemma KeyItem(events: seq<Event>, cutoff: int, i: nat, key: string)
    requires First(events, cutoff, i) && GroupKey(events[i]) == key
    ensures Opens(events, cutoff, i) <==> RunOf(events, cutoff, key) != []
    ensures Opens(events, cutoff, i) ==> Tells(events, cutoff, i, ItemFor(RunOf(events, cutoff, key), key))
  {
    hide GroupKey, First, Tells, RunOf, Opens, Follows;
    var at := RunPlaces(events, cutoff, key);
    if at != [] {
      ItemTells(events, cutoff, key, at);
      OpensIs(events, cutoff, at[0]);
      FirstOnce(events, cutoff, at[0], i);
    }
    if Opens(events, cutoff, i) {
      RunIsThere(events, cutoff, key, i);
    }
  }

  /** The items of the first n keys. */
  lemma {:induction false} ItemPlaces(events: seq<Event>, cutoff: int, firsts: seq<nat>, n: nat) returns (at: seq<nat>)
    requires FirstsAt(events, |events|, cutoff, firsts) && n <= |firsts| == |Keys(events, cutoff)|
    requires forall k :: 0 <= k < |firsts| ==> GroupKey(events[firsts[k]]) == Keys(events, cutoff)[k]
    ensures AllTell(events, cutoff, at, ItemsOf(events, cutoff, Keys(events, cutoff)[..n])) && Increasing(at)
    ensures forall k :: 0 <= k < |at| ==> at[k] in firsts[..n]
    ensures forall i :: i in firsts[..n] && Opens(events, cutoff, i) ==> i in at
  {
    hide GroupKey, Opens, Tells, RunOf, First, Keys;
    at := [];
    if n > 0 {
      var keys := Keys(events, cutoff);
      at := ItemPlaces(events, cutoff, firsts, n - 1);
      hide AllTell;
      assert keys[..n][..n - 1] == keys[..n - 1];
      var i := firsts[n - 1];
      assert i in firsts;
      KeyItem(events, cutoff, i, keys[n - 1]);
      assert firsts[..n] == firsts[..n - 1] + [i];
      if Opens(events, cutoff, i) {
        AllTellBack(events, cutoff, at, ItemsOf(events, cutoff, keys[..n - 1]), i,
                    ItemFor(RunOf(events, cutoff, keys[n - 1]), keys[n - 1]));
        at := at + [i];
      }
    }
  }

  /** Event a is shown before event b: it is later, or of the same time and earlier in the list. */
  predicate Precedes(events: seq<Event>, a: nat, b: nat)
    requires a < |events| && b < |events|
  {
    events[a].occurredAt > events[b].occurredAt || (events[a].occurredAt == events[b].occurredAt && a < b)
  }

  ghost predicate Ordered(events: seq<Event>, at: seq<nat>) {
    && (forall k :: 0 <= k < |at| ==> at[k] < |events|)
    && (forall k, l :: 0 <= k < l < |at| ==> Precedes(events, at[k], at[l]))
  }

  lemma InsertedLast(events: seq<Event>, at: seq<nat>, i: nat)
    requires Ordered(events, at) && i < |events| && forall k :: 0 <= k < |at| ==> at[k] < i
    requires at != [] ==> events[at[|at| - 1]].occurredAt >= events[i].occurredAt
    ensures Ordered(events, at + [i])
  {
    forall k | 0 <= k < |at|
      ensures Precedes(events, at[k], i)
    {
      assert k < |at| - 1 ==> Precedes(events, at[k], at[|at| - 1]);
    }
  }

  lemma InsertedBefore(events: seq<Event>, at: seq<nat>, i: nat, before: seq<nat>)
    requires Ordered(events, at) && at != [] && i < |events|
    requires Ordered(events, before) && forall j :: j in before ==> j in at[..|at| - 1] || j == i
    requires events[at[|at| - 1]].occurredAt < events[i].occurredAt
    ensures Ordered(events, before + [at[|at| - 1]])
  {
    var next := before + [at[|at| - 1]];
    forall k | 0 <= k < |before|
      ensures Precedes(events, before[k], at[|at| - 1])
    {
      assert before[k] in before;
    }
  }

  lemma {:induction false} InsertPlaces(events: seq<Event>, cutoff: int, at: seq<nat>, items: seq<Item>, i: nat,
                                        item: Item)
    returns (next: seq<nat>)
    requires AllTell(events, cutoff, at, items) && Opens(events, cutoff, i) && Tells(events, cutoff, i, item)
    requires Ordered(events, at) && forall k :: 0 <= k < |at| ==> at[k] < i
    ensures AllTell(events, cutoff, next, InsertByTime(items, item)) && Ordered(events, next)
    ensures forall j :: j in next <==> j in at || j == i
    decreases |items|
  {
    AllTellTimes(events, cutoff, at, items);
    TellsTime(events, cutoff, i, item);
    var n := |items| - 1;
    if items != [] && items[n].latest.occurredAt < item.latest.occurredAt {
      AllTellFront(events, cutoff, at, items);
      OrderedFront(events, at);
      hide AllTell, Opens, Tells, Ordered;
      var before := InsertPlaces(events, cutoff, at[..n], items[..n], i, item);
      next := before + [at[n]];
      InsertedBefore(events, at, i, before);
      AllTellBack(events, cutoff, before, InsertByTime(items[..n], item), at[n], items[n]);
    } else {
      InsertedLast(events, at, i);
      AllTellBack(events, cutoff, at, items, i, item);
      hide AllTell, Opens, Tells, Ordered;
      next := at + [i];
    }
  }

  lemma TellsTime(events: seq<Event>, cutoff: int, i: nat, item: Item)
    requires Tells(events, cutoff, i, item)
    ensures i < |events| && item.latest == events[i]
  {
    hide Named, Trouble, Struck;
  }

  lemma OrderedFront(events: seq<Event>, at: seq<nat>)
    requires at != [] && Ordered(events, at)
    ensures Ordered(events, at[..|at| - 1]) && at[|at| - 1] < |events|
    ensures forall j :: j in at <==> j in at[..|at| - 1] || j == at[|at| - 1]
  {
    assert at == at[..|at| - 1] + [at[|at| - 1]];
  }

  /** Sorting keeps what the items tell of and puts it in order. */
  lemma {:induction false} SortPlaces(events: seq<Event>, cutoff: int, at: seq<nat>, items: seq<Item>)
    returns (sorted: seq<nat>)
    requires AllTell(events, cutoff, at, items) && Increasing(at)
    ensures AllTell(events, cutoff, sorted, StableSorted(items)) && Ordered(events, sorted)
    ensures forall j :: j in sorted <==> j in at
    decreases |items|
  {
    sorted := [];
    if items != [] {
      AllTellFront(events, cutoff, at, items);
      AllTellTimes(events, cutoff, at, items);
      Front(at);
      hide Opens, Tells, AllTell, Ordered, InsertByTime, Increasing;
      var n := |items| - 1;
      var before := SortPlaces(events, cutoff, at[..n], items[..n]);
      BelowLast(at, before);
      sorted := InsertPlaces(events, cutoff, before, StableSorted(items[..n]), at[n], items[n]);
    }
  }

  lemma Front(at: seq<nat>)
    requires at != [] && Increasing(at)
    ensures Increasing(at[..|at| - 1])
    ensures forall j :: j in at <==> j in at[..|at| - 1] || j == at[|at| - 1]
  {
    assert at == at[..|at| - 1] + [at[|at| - 1]];
  }

  lemma BelowLast(at: seq<nat>, before: seq<nat>)
    requires at != [] && Increasing(at) && forall j :: j in before ==> j in at[..|at| - 1]
    ensures forall k :: 0 <= k < |before| ==> before[k] < at[|at| - 1]
  {
    forall k | 0 <= k < |before|
      ensures before[k] < at[|at| - 1]
    {
      assert before[k] in before;
    }
  }

  /**
   The attention items: one for each event in the window that is the first of its group there and needs
   attention, the newest first and at one time in the order of the events, at most eight of them.
   */
  lemma ShownAre(events: seq<Event>, cutoff: int) returns (at: seq<nat>)
    ensures Ordered(events, at)
    ensures forall i :: Opens(events, cutoff, i) <==> i in at
    ensures var items := Shown(StableSorted(Items(events, cutoff)));
            && |items| == (if |at| > 8 then 8 else |at|)
            && forall k :: 0 <= k < |items| ==> Tells(events, cutoff, at[k], items[k])
  {
    hide Opens, Tells, Keys, First, GroupKey, ItemsOf, StableSorted;
    var firsts := FirstPlaces(events, cutoff, |events|);
    assert events[..|events|] == events;
    var keys := Keys(events, cutoff);
    assert keys[..|keys|] == keys && firsts[..|firsts|] == firsts;
    var found := ItemPlaces(events, cutoff, firsts, |keys|);
    at := SortPlaces(events, cutoff, found, Items(events, cutoff));
    forall i | Opens(events, cutoff, i)
      ensures i in at
    {
      OpensIs(events, cutoff, i);
      OpensInside(events, cutoff, i);
      assert i in firsts;
    }
    forall i | i in at
      ensures Opens(events, cutoff, i)
    {}
  }

  lemma OpensInside(events: seq<Event>, cutoff: int, i: int)
    requires First(events, cutoff, i)
    ensures 0 <= i < |events|
  {}
}
