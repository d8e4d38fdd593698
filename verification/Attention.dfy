/** Grouping recent platform events into attention items: aggregateAttention in internal/dashboard/service.go. */
module Attention {
  import opened Wrappers

  const ATTENTION_LIMIT := 8

  datatype Event = Event(kind: string, category: string, projectId: string, applicationId: string, targetId: string,
                         resourceId: string, status: string, severity: string, occurredAt: int)

  datatype Item = Item(key: string, category: string, severity: string, occurrences: nat, latest: Event)

  function GroupKey(e: Event): string {
    var identity := if e.targetId != "" then e.targetId
                    else if e.applicationId != "" then e.applicationId
                    else if e.resourceId != "" then e.resourceId
                    else if e.projectId != "" then e.projectId
                    else e.kind;
    e.category + ":" + e.projectId + ":" + identity
  }

  predicate NeedsAttention(e: Event) {
    e.status == "failed" || e.severity == "error" || e.severity == "warning"
  }

  function SeverityRank(severity: string): nat {
    if severity == "error" then 3 else if severity == "warning" then 2 else 1
  }

  // ---- What an item is ----

  /** A key's events inside the window, in order. */
  function OfKey(events: seq<Event>, cutoff: int, key: string): seq<Event> {
    if events == [] then [] else
    var n := |events| - 1;
    var e := events[n];
    OfKey(events[..n], cutoff, key) + if e.occurredAt >= cutoff && GroupKey(e) == key then [e] else []
  }

  /** The longest prefix whose events all need attention. */
  function LeadingRun(events: seq<Event>): (run: seq<Event>)
    ensures |run| <= |events| && run == events[..|run|]
    ensures forall e :: e in run ==> NeedsAttention(e)
    ensures |run| < |events| ==> !NeedsAttention(events[|run|])
  {
    if events == [] then [] else
    var n := |events| - 1;
    var run := LeadingRun(events[..n]);
    if |run| == n && NeedsAttention(events[n]) then events else run
  }

  function TopSeverity(run: seq<Event>): (severity: string)
    requires run != []
    ensures exists e :: e in run && e.severity == severity
    ensures forall e :: e in run ==> SeverityRank(e.severity) <= SeverityRank(severity)
  {
    var n := |run| - 1;
    if n == 0 then run[0].severity else
    var before := TopSeverity(run[..n]);
    assert forall e :: e in run ==> e in run[..n] || e == run[n];
    if SeverityRank(run[n].severity) > SeverityRank(before) then run[n].severity else before
  }

  function RunOf(events: seq<Event>, cutoff: int, key: string): seq<Event> {
    LeadingRun(OfKey(events, cutoff, key))
  }

  function ItemFor(run: seq<Event>, key: string): Item
    requires run != []
  {
    Item(key, run[0].category, TopSeverity(run), |run|, run[0])
  }

  /** Keys in the order of their first event inside the window. */
  function Keys(events: seq<Event>, cutoff: int): seq<string> {
    if events == [] then [] else
    var n := |events| - 1;
    var e := events[n];
    var before := Keys(events[..n], cutoff);
    before + if e.occurredAt >= cutoff && GroupKey(e) !in before then [GroupKey(e)] else []
  }

  function ItemsOf(events: seq<Event>, cutoff: int, keys: seq<string>): seq<Item> {
    if keys == [] then [] else
    var n := |keys| - 1;
    var run := RunOf(events, cutoff, keys[n]);
    ItemsOf(events, cutoff, keys[..n]) + if run != [] then [ItemFor(run, keys[n])] else []
  }

  /** One item for each key whose window starts with events that need attention. */
  function Items(events: seq<Event>, cutoff: int): seq<Item> {
    ItemsOf(events, cutoff, Keys(events, cutoff))
  }

  lemma {:induction false} KeysAre(events: seq<Event>, cutoff: int, key: string)
    ensures key in Keys(events, cutoff) <==> OfKey(events, cutoff, key) != []
  {
    if events != [] {
      KeysAre(events[..|events| - 1], cutoff, key);
    }
  }

  lemma {:induction false} KeysDistinct(events: seq<Event>, cutoff: int)
    ensures forall i, j :: 0 <= i < j < |Keys(events, cutoff)| ==> Keys(events, cutoff)[i] != Keys(events, cutoff)[j]
  {
    if events != [] {
      KeysDistinct(events[..|events| - 1], cutoff);
    }
  }

  // ---- Sorting, newest first ----

  function InsertByTime(items: seq<Item>, item: Item): seq<Item> {
    if items != [] && items[|items| - 1].latest.occurredAt < item.latest.occurredAt
    then InsertByTime(items[..|items| - 1], item) + [items[|items| - 1]]
    else items + [item]
  }

  /** sort.SliceStable by latest event, descending. */
  function StableSorted(items: seq<Item>): seq<Item> {
    if items == [] then [] else InsertByTime(StableSorted(items[..|items| - 1]), items[|items| - 1])
  }

  ghost predicate NewestFirst(items: seq<Item>) {
    forall i, j :: 0 <= i < j < |items| ==> items[i].latest.occurredAt >= items[j].latest.occurredAt
  }

  function At(items: seq<Item>, time: int): seq<Item> {
    if items == [] then [] else
    var n := |items| - 1;
    At(items[..n], time) + if items[n].latest.occurredAt == time then [items[n]] else []
  }

  lemma AtAppend(items: seq<Item>, item: Item, time: int)
    ensures At(items + [item], time) == At(items, time) + if item.latest.occurredAt == time then [item] else []
  {
    assert (items + [item])[..|items|] == items;
  }

  lemma {:induction false} InsertKeeps(items: seq<Item>, item: Item)
    ensures multiset(InsertByTime(items, item)) == multiset(items) + multiset{item}
    ensures forall x :: x in InsertByTime(items, item) ==> x in items || x == item
    decreases |items|
  {
    if items != [] {
      var n := |items| - 1;
      assert items == items[..n] + [items[n]];
      InsertKeeps(items[..n], item);
    }
  }

  lemma {:induction false} InsertOrders(items: seq<Item>, item: Item)
    requires NewestFirst(items)
    ensures NewestFirst(InsertByTime(items, item))
    decreases |items|
  {
    if items != [] && items[|items| - 1].latest.occurredAt < item.latest.occurredAt {
      var n := |items| - 1;
      var rest := InsertByTime(items[..n], item);
      InsertOrders(items[..n], item);
      InsertKeeps(items[..n], item);
      forall i | 0 <= i < |rest| ensures rest[i].latest.occurredAt >= items[n].latest.occurredAt {
        assert rest[i] in rest;
      }
    }
  }

  lemma {:induction false} InsertAt(items: seq<Item>, item: Item, time: int)
    ensures At(InsertByTime(items, item), time)
            == At(items, time) + if item.latest.occurredAt == time then [item] else []
    decreases |items|
  {
    hide At;
    if items != [] && items[|items| - 1].latest.occurredAt < item.latest.occurredAt {
      var n := |items| - 1;
      InsertAt(items[..n], item, time);
      AtAppend(InsertByTime(items[..n], item), items[n], time);
      AtAppend(items[..n], items[n], time);
      assert items == items[..n] + [items[n]];
    } else {
      AtAppend(items, item, time);
    }
  }

  /** The sort orders items, keeps every item, and keeps items of one time in their given order. */
  lemma {:induction false} SortIsStable(items: seq<Item>, time: int)
    ensures NewestFirst(StableSorted(items)) && multiset(StableSorted(items)) == multiset(items)
    ensures At(StableSorted(items), time) == At(items, time)
    decreases |items|
  {
    if items != [] {
      hide InsertByTime;
      var n := |items| - 1;
      SortIsStable(items[..n], time);
      InsertOrders(StableSorted(items[..n]), items[n]);
      InsertKeeps(StableSorted(items[..n]), items[n]);
      InsertAt(StableSorted(items[..n]), items[n], time);
      assert items == items[..n] + [items[n]];
    }
  }

  lemma {:induction false} SortedIsFixed(items: seq<Item>)
    requires NewestFirst(items)
    ensures StableSorted(items) == items
    decreases |items|
  {
    if items != [] {
      var n := |items| - 1;
      SortedIsFixed(items[..n]);
      assert items == items[..n] + [items[n]];
    }
  }

  method SortByTime(items: seq<Item>) returns (sorted: seq<Item>)
    ensures sorted == StableSorted(items)
  {
    sorted := [];
    var i := 0;
    while i < |items|
      invariant 0 <= i <= |items|
      invariant sorted == StableSorted(items[..i])
    {
      assert items[..i + 1][..i] == items[..i];
      sorted := InsertByTime(sorted, items[i]);
      i := i + 1;
    }
    assert items[..i] == items;
  }

  // ---- The single pass ----

  datatype Group = Group(item: Option<Item>, closed: bool)

  /** The group after a key's events: the item of their leading run, closed once that run has ended. */
  function GroupFor(events: seq<Event>, key: string): Group {
    var run := LeadingRun(events);
    Group(if run == [] then None else Some(ItemFor(run, key)), |run| < |events|)
  }

  function GroupOf(events: seq<Event>, cutoff: int, key: string): Option<Group> {
    var own := OfKey(events, cutoff, key);
    if own == [] then None else Some(GroupFor(own, key))
  }

  /** One more event inside the window, as the loop treats it. */
  function Advance(group: Option<Group>, key: string, e: Event): Group {
    match group
    case None =>
      if NeedsAttention(e) then Group(Some(Item(key, e.category, e.severity, 1, e)), false) else Group(None, true)
    case Some(g) =>
      if g.closed then g
      else if !NeedsAttention(e) then g.(closed := true)
      else if g.item.None? then g
      else
        var item := g.item.value;
        g.(item := Some(item.(occurrences := item.occurrences + 1,
                              severity := if SeverityRank(e.severity) > SeverityRank(item.severity) then e.severity
                                          else item.severity)))
  }

  lemma RunAppend(events: seq<Event>, e: Event)
    ensures LeadingRun(events + [e])
            == if |LeadingRun(events)| == |events| && NeedsAttention(e) then events + [e] else LeadingRun(events)
  {
    assert (events + [e])[..|events|] == events;
  }

  lemma TopAppend(run: seq<Event>, e: Event)
    requires run != []
    ensures TopSeverity(run + [e])
         == if SeverityRank(e.severity) > SeverityRank(TopSeverity(run)) then e.severity else TopSeverity(run)
  {
    assert (run + [e])[..|run|] == run;
  }

  lemma FirstOfGroup(e: Event, key: string)
    ensures GroupFor([e], key) == Advance(None, key, e)
  {
    hide SeverityRank, NeedsAttention;
    assert [e][..0] == [];
    OnlySeverity(e);
    RunAppend([], e);
    assert [] + [e] == [e];
  }

  lemma NextOfGroup(events: seq<Event>, e: Event, key: string)
    requires events != []
    ensures GroupFor(events + [e], key) == Advance(Some(GroupFor(events, key)), key, e)
  {
    hide SeverityRank, NeedsAttention, TopSeverity, LeadingRun;
    var run := LeadingRun(events);
    RunAppend(events, e);
    if |run| == |events| && NeedsAttention(e) {
      assert run == events;
      TopAppend(events, e);
      assert GroupFor(events, key) == Group(Some(ItemFor(events, key)), false);
      assert GroupFor(events + [e], key) == Group(Some(ItemFor(events + [e], key)), false);
    } else {
      assert GroupFor(events + [e], key).item == GroupFor(events, key).item;
    }
  }

  /** One step of the loop turns the group for the events seen into the group for one more. */
  lemma AdvanceIsSpec(events: seq<Event>, cutoff: int, e: Event)
    requires e.occurredAt >= cutoff
    ensures GroupOf(events + [e], cutoff, GroupKey(e))
            == Some(Advance(GroupOf(events, cutoff, GroupKey(e)), GroupKey(e), e))
  {
    hide GroupKey, GroupFor, Advance;
    var key := GroupKey(e);
    var before := OfKey(events, cutoff, key);
    assert (events + [e])[..|events|] == events;
    assert OfKey(events + [e], cutoff, key) == before + [e];
    if before == [] {
      assert before + [e] == [e];
      FirstOfGroup(e, key);
    } else {
      NextOfGroup(before, e, key);
    }
  }

  lemma OnlySeverity(e: Event)
    ensures TopSeverity([e]) == e.severity && LeadingRun([]) == []
  {}

  lemma OtherKeyUnchanged(events: seq<Event>, cutoff: int, e: Event, key: string)
    requires e.occurredAt < cutoff || GroupKey(e) != key
    ensures OfKey(events + [e], cutoff, key) == OfKey(events, cutoff, key)
  {
    assert (events + [e])[..|events|] == events;
  }

  /** The groups by key, and the order in which keys appeared, after some events. */
  ghost predicate Collected(groups: map<string, Group>, order: seq<string>, events: seq<Event>, cutoff: int) {
    && order == Keys(events, cutoff)
    && (forall key :: key in groups <==> GroupOf(events, cutoff, key).Some?)
    && (forall key :: key in groups ==> GroupOf(events, cutoff, key) == Some(groups[key]))
  }

  lemma CollectedStep(groups: map<string, Group>, order: seq<string>, events: seq<Event>, cutoff: int, e: Event)
    requires Collected(groups, order, events, cutoff) && e.occurredAt >= cutoff
    ensures var key := GroupKey(e);
            Collected(groups[key := Advance(if key in groups then Some(groups[key]) else None, key, e)],
                      if key in groups then order else order + [key], events + [e], cutoff)
  {
    hide GroupKey, Advance, GroupOf;
    var key := GroupKey(e);
    KeysAre(events, cutoff, key);
    GroupIffKey(events, cutoff, key);
    AdvanceIsSpec(events, cutoff, e);
    assert (events + [e])[..|events|] == events;
    forall other | other != key ensures GroupOf(events + [e], cutoff, other) == GroupOf(events, cutoff, other) {
      OtherGroupUnchanged(events, cutoff, e, other);
    }
  }

  lemma GroupIffKey(events: seq<Event>, cutoff: int, key: string)
    ensures GroupOf(events, cutoff, key).Some? <==> key in Keys(events, cutoff)
  {
    KeysAre(events, cutoff, key);
  }

  lemma OtherGroupUnchanged(events: seq<Event>, cutoff: int, e: Event, key: string)
    requires e.occurredAt < cutoff || GroupKey(e) != key
    ensures GroupOf(events + [e], cutoff, key) == GroupOf(events, cutoff, key)
  {
    OtherKeyUnchanged(events, cutoff, e, key);
  }

  lemma CollectedSkip(groups: map<string, Group>, order: seq<string>, events: seq<Event>, cutoff: int, e: Event)
    requires Collected(groups, order, events, cutoff) && e.occurredAt < cutoff
    ensures Collected(groups, order, events + [e], cutoff)
  {
    hide GroupOf;
    assert (events + [e])[..|events|] == events;
    forall other ensures GroupOf(events + [e], cutoff, other) == GroupOf(events, cutoff, other) {
      OtherGroupUnchanged(events, cutoff, e, other);
    }
  }

  /** The loop of aggregateAttention. */
  method CollectGroups(events: seq<Event>, cutoff: int) returns (groups: map<string, Group>, order: seq<string>)
    ensures Collected(groups, order, events, cutoff)
  {
    groups, order := map[], [];
    var i := 0;
    while i < |events|
      invariant 0 <= i <= |events|
      invariant Collected(groups, order, events[..i], cutoff)
    {
      hide Collected, GroupKey, Advance;
      var e := events[i];
      assert events[..i + 1] == events[..i] + [e];
      i := i + 1;
      if e.occurredAt < cutoff {
        CollectedSkip(groups, order, events[..i - 1], cutoff, e);
        continue;
      }
      CollectedStep(groups, order, events[..i - 1], cutoff, e);
      var key := GroupKey(e);
      if key !in groups {
        order := order + [key];
      }
      groups := groups[key := Advance(if key in groups then Some(groups[key]) else None, key, e)];
    }
    assert events[..i] == events;
  }

  /**
   aggregateAttention: the items of the leading runs, newest first, at most eight.
   */
  method AggregateAttention(events: seq<Event>, cutoff: int) returns (items: seq<Item>)
    ensures items == Shown(StableSorted(Items(events, cutoff)))
  {
    var groups, order := CollectGroups(events, cutoff);
    var found := [];
    var i := 0;
    while i < |order|
      invariant 0 <= i <= |order|
      invariant found == ItemsOf(events, cutoff, order[..i])
    {
      var key := order[i];
      assert order[..i + 1][..i] == order[..i];
      GroupIffKey(events, cutoff, key);
      assert key in order;
      var group := groups[key];
      if group.item.Some? {
        found := found + [group.item.value];
      }
      i := i + 1;
    }
    assert order[..i] == order;
    items := SortByTime(found);
    if |items| > ATTENTION_LIMIT {
      items := items[..ATTENTION_LIMIT];
    }
  }

  function Shown(items: seq<Item>): seq<Item> {
    if |items| > ATTENTION_LIMIT then items[..ATTENTION_LIMIT] else items
  }

  // ---- Newest-first input ----

  ghost predicate EventsNewestFirst(events: seq<Event>) {
    forall i, j :: 0 <= i < j < |events| ==> events[i].occurredAt >= events[j].occurredAt
  }

  function Latest(items: seq<Item>): seq<Event> {
    seq(|items|, i requires 0 <= i < |items| => items[i].latest)
  }

  /** The latest events of the items, from the first in-window event of each key. */
  function Heads(events: seq<Event>, cutoff: int, keys: seq<string>): seq<Event> {
    if keys == [] then [] else
    var n := |keys| - 1;
    var own := OfKey(events, cutoff, keys[n]);
    Heads(events, cutoff, keys[..n]) + if own != [] && NeedsAttention(own[0]) then [own[0]] else []
  }

  lemma RunHead(events: seq<Event>)
    ensures LeadingRun(events) != [] <==> events != [] && NeedsAttention(events[0])
    ensures LeadingRun(events) != [] ==> LeadingRun(events)[0] == events[0]
  {
    var run := LeadingRun(events);
    if run != [] {
      assert run[0] in run;
    }
  }

  lemma {:induction false} LatestAreHeads(events: seq<Event>, cutoff: int, keys: seq<string>)
    ensures Latest(ItemsOf(events, cutoff, keys)) == Heads(events, cutoff, keys)
  {
    if keys != [] {
      hide LeadingRun, TopSeverity, NeedsAttention;
      var n := |keys| - 1;
      LatestAreHeads(events, cutoff, keys[..n]);
      RunHead(OfKey(events, cutoff, keys[n]));
    }
  }

  /** One more event adds at most one head: itself, at the end. */
  lemma {:induction false} HeadsGrow(events: seq<Event>, cutoff: int, e: Event, keys: seq<string>)
    requires forall key :: key in keys ==> OfKey(events, cutoff, key) != []
    ensures Heads(events + [e], cutoff, keys) == Heads(events, cutoff, keys)
    decreases |keys|
  {
    if keys != [] {
      hide GroupKey, NeedsAttention;
      var n := |keys| - 1;
      HeadsGrow(events, cutoff, e, keys[..n]);
      assert keys[n] in keys;
      assert (events + [e])[..|events|] == events;
    }
  }

  lemma HeadsStep(events: seq<Event>, cutoff: int, e: Event)
    ensures var heads := Heads(events, cutoff, Keys(events, cutoff));
            var after := Heads(events + [e], cutoff, Keys(events + [e], cutoff));
            after == heads || after == heads + [e]
  {
    hide GroupKey, NeedsAttention;
    var keys, key := Keys(events, cutoff), GroupKey(e);
    assert (events + [e])[..|events|] == events;
    forall k | k in keys ensures OfKey(events, cutoff, k) != [] {
      KeysAre(events, cutoff, k);
    }
    HeadsGrow(events, cutoff, e, keys);
    if Keys(events + [e], cutoff) != keys {
      KeysAre(events, cutoff, key);
      assert (keys + [key])[..|keys|] == keys;
      assert OfKey(events + [e], cutoff, key) == [e];
    }
  }

  lemma {:induction false} HeadsFromEvents(events: seq<Event>, cutoff: int)
    requires EventsNewestFirst(events)
    ensures forall h :: h in Heads(events, cutoff, Keys(events, cutoff)) ==> h in events
    ensures EventsNewestFirst(Heads(events, cutoff, Keys(events, cutoff)))
    decreases |events|
  {
    if events != [] {
      hide Keys, Heads;
      var n := |events| - 1;
      var before, e := events[..n], events[n];
      HeadsFromEvents(before, cutoff);
      assert events == before + [e];
      HeadsStep(before, cutoff, e);
      var heads := Heads(before, cutoff, Keys(before, cutoff));
      forall i | 0 <= i < |heads| ensures heads[i].occurredAt >= e.occurredAt {
        assert heads[i] in before;
      }
    } else {
      assert Keys(events, cutoff) == [];
    }
  }

  /** On newest-first input the items come out sorted already, so the sort changes nothing. */
  lemma NewestFirstNeedsNoSort(events: seq<Event>, cutoff: int)
    requires EventsNewestFirst(events)
    ensures StableSorted(Items(events, cutoff)) == Items(events, cutoff)
  {
    LatestAreHeads(events, cutoff, Keys(events, cutoff));
    HeadsFromEvents(events, cutoff);
    LatestSorted(Items(events, cutoff));
  }

  lemma LatestSorted(items: seq<Item>)
    requires EventsNewestFirst(Latest(items))
    ensures StableSorted(items) == items
  {
    forall i, j | 0 <= i < j < |items| ensures items[i].latest.occurredAt >= items[j].latest.occurredAt {
      assert Latest(items)[i] == items[i].latest && Latest(items)[j] == items[j].latest;
    }
    SortedIsFixed(items);
  }
}
