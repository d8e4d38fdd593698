/**
 Cutting the items of a run into loops: buildConversationLoops and assistantMessageFromLoops of
 internal/agentobservability/conversation_store.go.
 */
module ConversationLoops {
  import opened Selections
  import opened Text

  datatype Item = Item(kind: string, text: string)

  datatype Loop = Loop(index: nat, items: seq<Item>)

  predicate StartsLoop(item: Item) {
    item.kind == "reasoning_summary"
  }

  function Flatten(loops: seq<Loop>): seq<Item> {
    if loops == [] then [] else Flatten(loops[..|loops| - 1]) + loops[|loops| - 1].items
  }

  /** Numbered from one, none empty, and a reasoning summary starts every loop but the first and occurs nowhere else. */
  predicate WellCut(loops: seq<Loop>) {
    forall i :: 0 <= i < |loops| ==>
      && loops[i].index == i + 1
      && loops[i].items != []
      && (i > 0 ==> StartsLoop(loops[i].items[0]))
      && forall j :: 0 < j < |loops[i].items| ==> !StartsLoop(loops[i].items[j])
  }

  lemma NewLoop(loops: seq<Loop>, item: Item)
    requires WellCut(loops) && (loops == [] || StartsLoop(item))
    ensures var more := loops + [Loop(|loops| + 1, [item])];
            WellCut(more) && Flatten(more) == Flatten(loops) + [item]
  {
    hide StartsLoop;
    var more := loops + [Loop(|loops| + 1, [item])];
    assert more[..|loops|] == loops;
  }

  lemma LongerLoop(loops: seq<Loop>, item: Item)
    requires WellCut(loops) && loops != [] && !StartsLoop(item)
    ensures var last := |loops| - 1;
            var more := loops[last := loops[last].(items := loops[last].items + [item])];
            WellCut(more) && Flatten(more) == Flatten(loops) + [item]
  {
    hide StartsLoop;
    var last := |loops| - 1;
    var more := loops[last := loops[last].(items := loops[last].items + [item])];
    assert more[..last] == loops[..last];
    assert Flatten(loops[..last]) + loops[last].items + [item] == Flatten(loops[..last]) + (loops[last].items + [item]);
  }

  method BuildConversationLoops(items: seq<Item>) returns (loops: seq<Loop>)
    ensures Flatten(loops) == items
    ensures WellCut(loops)
  {
    hide StartsLoop, WellCut, Flatten;
    loops := [];
    NoLoops();
    for i := 0 to |items|
      invariant Flatten(loops) == items[..i]
      invariant WellCut(loops)
    {
      var item := items[i];
      assert items[..i + 1] == items[..i] + [item];
      ghost var before := loops;
      if StartsLoop(item) || |loops| == 0 {
        NewLoop(before, item);
        loops := loops + [Loop(|loops| + 1, [])];
      } else {
        LongerLoop(before, item);
      }
      var last := |loops| - 1;
      loops := loops[last := loops[last].(items := loops[last].items + [item])];
      assert [] + [item] == [item];
      assert |loops| > |before| ==> loops == before + [Loop(|before| + 1, [item])];
    }
    assert items[..|items|] == items;
  }

  lemma NoLoops()
    ensures Flatten([]) == [] && WellCut([])
  {}

  /** There is only one way to cut a run, so the two promises above say all there is to say. */
  lemma {:induction false} CutIsUnique(a: seq<Loop>, b: seq<Loop>)
    requires WellCut(a) && WellCut(b) && Flatten(a) == Flatten(b)
    ensures a == b
  {
    hide StartsLoop, Flatten;
    if a == [] || b == [] {
      OnlyNothingIsFlat(a);
      OnlyNothingIsFlat(b);
    } else {
      var m, n := |a| - 1, |b| - 1;
      SplitLast(a);
      SplitLast(b);
      SameLast(Flatten(a[..m]), a[m].items, m > 0, Flatten(b[..n]), b[n].items, n > 0);
      CutIsUnique(a[..m], b[..n]);
      assert a == a[..m] + [a[m]] && b == b[..n] + [b[n]];
    }
  }

  lemma OnlyNothingIsFlat(loops: seq<Loop>)
    requires WellCut(loops)
    ensures loops == [] <==> Flatten(loops) == []
  {}

  lemma SplitLast(loops: seq<Loop>)
    requires loops != [] && WellCut(loops)
    ensures Flatten(loops) == Flatten(loops[..|loops| - 1]) + loops[|loops| - 1].items
    ensures WellCut(loops[..|loops| - 1])
    ensures |loops| > 1 <==> Flatten(loops[..|loops| - 1]) != []
  {
    hide StartsLoop;
    OnlyNothingIsFlat(loops[..|loops| - 1]);
  }

  lemma LaterStart(p: seq<Item>, x: seq<Item>, q: seq<Item>, y: seq<Item>)
    requires p + x == q + y && y != [] && |p| < |q|
    requires forall j :: 0 < j < |x| ==> !StartsLoop(x[j])
    ensures !StartsLoop(y[0])
  {
    hide StartsLoop;
    assert (q + y)[|q|] == y[0] && (p + x)[|q|] == x[|q| - |p|];
  }

  /** Both cuts end in the same loop: it starts at the last reasoning summary, or at the beginning. */
  lemma SameLast(p: seq<Item>, x: seq<Item>, inner: bool, q: seq<Item>, y: seq<Item>, inner': bool)
    requires p + x == q + y && x != [] && y != []
    requires inner <==> p != []
    requires inner' <==> q != []
    requires inner ==> StartsLoop(x[0])
    requires inner' ==> StartsLoop(y[0])
    requires forall j :: 0 < j < |x| ==> !StartsLoop(x[j])
    requires forall j :: 0 < j < |y| ==> !StartsLoop(y[j])
    ensures p == q && x == y
  {
    hide StartsLoop;
    if |p| < |q| {
      LaterStart(p, x, q, y);
    } else if |q| < |p| {
      LaterStart(q, y, p, x);
    }
    assert p == (p + x)[..|p|] && q == (q + y)[..|q|];
    assert x == (p + x)[|p|..] && y == (q + y)[|q|..];
  }

  // ---- The assistant's message ----

  function Messages(items: seq<Item>): seq<string> {
    if items == [] then [] else
    var item := items[|items| - 1];
    Messages(items[..|items| - 1])
        + if item.kind == "assistant_message" && TrimSpace(item.text) != "" then [item.text] else []
  }

  lemma {:induction false} MessagesSplit(a: seq<Item>, b: seq<Item>)
    ensures Messages(a + b) == Messages(a) + Messages(b)
  {
    hide TrimSpace;
    if b == [] {
      assert a + b == a;
    } else {
      MessagesSplit(a, b[..|b| - 1]);
      assert (a + b)[..|a + b| - 1] == a + b[..|b| - 1];
    }
  }

  /** strings.Join */
  function Join(texts: seq<string>, separator: string): string {
    if texts == [] then ""
    else if |texts| == 1 then texts[0]
    else Join(texts[..|texts| - 1], separator) + separator + texts[|texts| - 1]
  }

  /** Reading the messages loop by loop is reading them item by item: the cut does not show. */
  method AssistantMessageFromLoops(loops: seq<Loop>) returns (message: string)
    ensures message == Join(Messages(Flatten(loops)), "\n")
  {
    hide TrimSpace, Join;
    var messages := [];
    for i := 0 to |loops|
      invariant messages == Messages(Flatten(loops[..i]))
    {
      var items := loops[i].items;
      ghost var before := messages;
      for j := 0 to |items|
        invariant messages == before + Messages(items[..j])
      {
        assert items[..j + 1][..j] == items[..j];
        if items[j].kind == "assistant_message" && TrimSpace(items[j].text) != "" {
          messages := messages + [items[j].text];
        }
      }
      assert items[..|items|] == items;
      assert loops[..i + 1][..i] == loops[..i];
      MessagesSplit(Flatten(loops[..i]), items);
    }
    assert loops[..|loops|] == loops;
    message := Join(messages, "\n");
  }

  // ---- In terms of the items ----

  /** Only the first item of a loop may be a reasoning summary, and only the first loop may begin without one. */
  lemma CutsAtSummaries(loops: seq<Loop>)
    ensures WellCut(loops) <==> forall i :: 0 <= i < |loops| ==>
              && loops[i].index == i + 1
              && |loops[i].items| >= 1
              && (i == 0 || loops[i].items[0].kind == "reasoning_summary")
              && forall j :: 1 <= j < |loops[i].items| ==> loops[i].items[j].kind != "reasoning_summary"
  {}

  predicate IsMessage(item: Item) {
    item.kind == "assistant_message" && !Blank(item.text)
  }

  function TextOf(item: Item): string {
    item.text
  }

  /** The messages of the assistant are the texts of its message items that are not blank, in order. */
  lemma MessagesAre(items: seq<Item>)
    ensures IsSelection(items, IsMessage, TextOf, Messages(items))
  {
    hide Select, Messages;
    MessagesSelect(items);
    SelectIsSelection(items, IsMessage, TextOf);
  }

  lemma {:induction false} MessagesSelect(items: seq<Item>)
    ensures Messages(items) == Select(items, IsMessage, TextOf)
  {
    hide TrimSpace, Blank;
    if items != [] {
      var n := |items| - 1;
      MessagesSelect(items[..n]);
      BlankIffTrimmedAway(items[n].text);
    }
  }

  /** Joining puts the separator between texts and nowhere else. */
  lemma {:induction false} JoinSplits(a: seq<string>, b: seq<string>, separator: string)
    ensures Join([], separator) == ""
    ensures |a| == 1 ==> Join(a, separator) == a[0]
    ensures a != [] && b != [] ==> Join(a + b, separator) == Join(a, separator) + separator + Join(b, separator)
  {
    if |b| > 1 {
      var n := |b| - 1;
      JoinSplits(a, b[..n], separator);
      assert (a + b)[..|a + b| - 1] == a + b[..n];
      JoinLast(a + b, separator);
      JoinLast(b, separator);
      hide Join;
    } else if |b| == 1 && a != [] {
      assert (a + b)[..|a + b| - 1] == a;
      JoinLast(a + b, separator);
    }
  }

  lemma JoinLast(texts: seq<string>, separator: string)
    requires |texts| > 1
    ensures Join(texts, separator) == Join(texts[..|texts| - 1], separator) + separator + texts[|texts| - 1]
  {}
}
