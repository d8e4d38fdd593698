/** The cycle warning of the project topology: topologyHasCycle in internal/dependency/topology.go. */
module TopologyCycle {
  import opened Selections
  import opened TextOrder

  /** How a link is to be used: a binding has injection variables, a manual edge a description. */
  datatype Usage = Usage(relationType: string, status: string, protocol: string, port: int, description: string,
                         injectionMode: string, urlVar: string, hostVar: string, portVar: string)

  datatype Link = Link(id: string, source: string, target: string, sourceTarget: string, targetTarget: string,
                       origin: string, usage: Usage)

  predicate Edge(links: seq<Link>, a: string, b: string) {
    exists i :: 0 <= i < |links| && links[i].source == a && links[i].target == b
  }

  ghost predicate IsWalk(links: seq<Link>, p: seq<string>) {
    forall i :: 0 <= i < |p| - 1 ==> Edge(links, p[i], p[i + 1])
  }

  /** A closed walk of at least one link; a self-loop is one. */
  ghost predicate IsCycle(links: seq<Link>, p: seq<string>) {
    |p| >= 2 && p[0] == p[|p| - 1] && IsWalk(links, p)
  }

  ghost predicate Cyclic(links: seq<Link>) {
    exists p :: IsCycle(links, p)
  }

  datatype Colour = Visiting | Finished

  function Nodes(links: seq<Link>): set<string> {
    (set i | 0 <= i < |links| :: links[i].source) + (set i | 0 <= i < |links| :: links[i].target)
  }

  lemma EdgeInNodes(links: seq<Link>, a: string, b: string)
    requires Edge(links, a, b)
    ensures a in Nodes(links) && b in Nodes(links)
  {}

  /** Finishing order: all targets of a finished node were finished before it. */
  ghost predicate Ordered(links: seq<Link>, order: seq<string>) {
    forall i, t :: 0 <= i < |order| && Edge(links, order[i], t) ==> t in order[..i]
  }

  lemma {:induction false} WalkStaysOrdered(links: seq<Link>, order: seq<string>, p: seq<string>, k: nat)
    requires Ordered(links, order) && IsWalk(links, p) && |p| >= 1 && k <= |order| && p[0] in order[..k]
    ensures |p| <= k
    decreases k
  {
    var i :| 0 <= i < k && order[i] == p[0];
    if |p| > 1 {
      assert Edge(links, p[0], p[1]) && p[1] in order[..i];
      var rest := p[1..];
      forall j | 0 <= j < |rest| - 1 ensures Edge(links, rest[j], rest[j + 1]) {
        assert rest[j] == p[j + 1] && rest[j + 1] == p[j + 2];
      }
      WalkStaysOrdered(links, order, rest, i);
    }
  }

  /** Going round a cycle twice, thrice and so on gives walks of any length. */
  lemma {:induction false} LongWalk(links: seq<Link>, p: seq<string>, n: nat) returns (q: seq<string>)
    requires IsCycle(links, p)
    ensures IsWalk(links, q) && |q| > n && q[0] == p[0]
    decreases n
  {
    if n < |p| {
      q := p;
    } else {
      var r := LongWalk(links, p, n - (|p| - 1));
      q := p[..|p| - 1] + r;
      forall j | 0 <= j < |q| - 1 ensures Edge(links, q[j], q[j + 1]) {
        if j < |p| - 2 {
          assert Edge(links, p[j], p[j + 1]);
        } else if j == |p| - 2 {
          assert q[j + 1] == r[0] == p[|p| - 1];
          assert Edge(links, p[j], p[j + 1]);
        } else {
          var m := j - (|p| - 1);
          assert q[j] == r[m] && q[j + 1] == r[m + 1];
          assert Edge(links, r[m], r[m + 1]);
        }
      }
    }
  }

  /** Once every node with a link is finished, there is no cycle. */
  lemma OrderedIsAcyclic(links: seq<Link>, order: seq<string>)
    requires Ordered(links, order)
    requires forall i :: 0 <= i < |links| ==> links[i].source in order
    ensures !Cyclic(links)
  {
    if Cyclic(links) {
      var p :| IsCycle(links, p);
      assert Edge(links, p[0], p[1]);
      var q := LongWalk(links, p, |order|);
      assert order[..|order|] == order;
      WalkStaysOrdered(links, order, q, |order|);
    }
  }

  /** The depth-first search: its adjacency lists and colours, and the order in which it finished nodes. */
  class CycleSearch {
    ghost const links: seq<Link>
    const adjacency: map<string, seq<string>>
    var state: map<string, Colour>
    ghost var order: seq<string>

    constructor (ghost links: seq<Link>, adjacency: map<string, seq<string>>)
      requires Lists(links, adjacency)
      ensures Valid() && Visits([]) && this.links == links && this.adjacency == adjacency && order == []
    {
      this.links := links;
      this.adjacency := adjacency;
      state := map[];
      order := [];
    }

    ghost predicate Valid()
      reads this
    {
      && Lists(links, adjacency)
      && Ordered(links, order)
      && (forall n :: n in order <==> n in state && state[n] == Finished)
    }

    /** The nodes being visited are those of the stack, which is a walk. */
    ghost predicate Visits(stack: seq<string>)
      reads this
    {
      && IsWalk(links, stack)
      && (forall n :: n in stack <==> n in state && state[n] == Visiting)
    }

    ghost predicate Calls(stack: seq<string>, node: string) {
      stack == [] || Edge(links, stack[|stack| - 1], node)
    }

    method Visit(node: string, ghost stack: seq<string>) returns (cyclic: bool)
      requires Valid() && Visits(stack) && Calls(stack, node) && node in Nodes(links)
      modifies this
      ensures cyclic ==> Cyclic(links)
      ensures !cyclic ==> Valid() && Visits(stack) && node in order
      ensures !cyclic ==> old(order) <= order && old(state).Keys <= state.Keys
      decreases Nodes(links) - state.Keys
    {
      hide Edge, Nodes, Ordered, IsWalk, Cyclic, Lists, Targets;
      if node in state {
        if state[node] == Visiting {
          ClosesCycle(links, stack, node);
          return true;
        }
        return false;
      }
      ghost var before := order;
      ghost var deeper := stack + [node];
      Begin(node, stack);
      var targets := Targets(adjacency, node);
      TargetsAreEdges(links, adjacency, node);
      var i := 0;
      while i < |targets|
        invariant 0 <= i <= |targets|
        invariant Valid() && Visits(deeper)
        invariant before <= order && old(state).Keys + {node} <= state.Keys
        invariant forall j :: 0 <= j < i ==> targets[j] in order
      {
        assert targets[i] in targets;
        EdgeInNodes(links, node, targets[i]);
        ghost var sofar := order;
        var found := Visit(targets[i], deeper);
        if found {
          return true;
        }
        assert forall j :: 0 <= j < i ==> targets[j] in sofar && targets[j] in order;
        i := i + 1;
      }
      Finish(node, stack);
      return false;
    }

    method Begin(node: string, ghost stack: seq<string>)
      requires Valid() && Visits(stack) && Calls(stack, node) && node !in state
      modifies this`state
      ensures Valid() && Visits(stack + [node])
      ensures state == old(state)[node := Visiting]
    {
      hide Edge, Ordered;
      state := state[node := Visiting];
      WalkExtends(links, stack, node);
    }

    method Finish(node: string, ghost stack: seq<string>)
      requires Valid() && Visits(stack + [node]) && node !in stack
      requires forall t :: Edge(links, node, t) ==> t in order
      modifies this
      ensures Valid() && Visits(stack) && order == old(order) + [node]
      ensures state == old(state)[node := Finished]
    {
      hide Edge;
      assert node in stack + [node];
      OrderExtends(links, order, node);
      state := state[node := Finished];
      order := order + [node];
      assert IsWalk(links, stack) by {
        assert forall i :: 0 <= i < |stack| ==> (stack + [node])[i] == stack[i];
      }
    }
  }

  /** Adjacency lists with exactly the links' targets. */
  ghost predicate Lists(links: seq<Link>, adjacency: map<string, seq<string>>) {
    forall a, b :: b in Targets(adjacency, a) <==> Edge(links, a, b)
  }

  lemma TargetsAreEdges(links: seq<Link>, adjacency: map<string, seq<string>>, a: string)
    requires Lists(links, adjacency)
    ensures forall b :: b in Targets(adjacency, a) <==> Edge(links, a, b)
  {}

  /** A missing entry reads as the empty list. */
  function Targets(adjacency: map<string, seq<string>>, a: string): seq<string> {
    if a in adjacency then adjacency[a] else []
  }

  lemma ClosesCycle(links: seq<Link>, stack: seq<string>, node: string)
    requires IsWalk(links, stack) && node in stack && Edge(links, stack[|stack| - 1], node)
    ensures Cyclic(links)
  {
    var k :| 0 <= k < |stack| && stack[k] == node;
    var p := stack[k..] + [node];
    forall j | 0 <= j < |p| - 1 ensures Edge(links, p[j], p[j + 1]) {
      if j < |p| - 2 {
        assert p[j] == stack[k + j] && p[j + 1] == stack[k + j + 1];
      }
    }
    assert IsCycle(links, p);
  }

  lemma WalkExtends(links: seq<Link>, stack: seq<string>, node: string)
    requires IsWalk(links, stack) && (stack == [] || Edge(links, stack[|stack| - 1], node))
    ensures IsWalk(links, stack + [node])
  {}

  lemma OrderExtends(links: seq<Link>, order: seq<string>, node: string)
    requires Ordered(links, order) && forall t :: Edge(links, node, t) ==> t in order
    ensures Ordered(links, order + [node])
  {
    var more := order + [node];
    forall i, t | 0 <= i < |more| && Edge(links, more[i], t) ensures t in more[..i] {
      if i < |order| {
        assert more[..i] == order[..i];
      } else {
        assert more[..i] == order;
      }
    }
  }

  // ---- Adjacency lists ----

  function From(source: string): Link -> bool {
    (link: Link) => link.source == source
  }

  function TargetOf(link: Link): string {
    link.target
  }

  /** The targets of a node's links, as they come. */
  function TargetsFrom(links: seq<Link>, source: string): seq<string> {
    Select(links, From(source), TargetOf)
  }

  lemma {:induction false} TargetsFromAreEdges(links: seq<Link>, source: string, target: string)
    ensures target in TargetsFrom(links, source) <==> Edge(links, source, target)
  {
    if links != [] {
      var n := |links| - 1;
      TargetsFromAreEdges(links[..n], source, target);
      EdgeAppend(links, n);
      assert links[..n + 1] == links;
    }
  }

  /** Each node with links out, with exactly the targets of those, in order. */
  ghost predicate SortedLists(links: seq<Link>, adjacency: map<string, seq<string>>) {
    && (forall a :: a in adjacency <==> TargetsFrom(links, a) != [])
    && (forall a :: a in adjacency ==>
          Sorted(adjacency[a]) && multiset(adjacency[a]) == multiset(TargetsFrom(links, a)))
  }

  lemma SortedListsAreLists(links: seq<Link>, adjacency: map<string, seq<string>>)
    requires SortedLists(links, adjacency)
    ensures Lists(links, adjacency) && adjacency.Keys <= Nodes(links)
  {
    hide Edge, TargetsFrom, Sorted, Nodes;
    forall a, b
      ensures b in Targets(adjacency, a) <==> Edge(links, a, b)
    {
      TargetsFromAreEdges(links, a, b);
      assert a in adjacency ==> (b in adjacency[a] <==> b in multiset(adjacency[a]));
      assert b in TargetsFrom(links, a) <==> b in multiset(TargetsFrom(links, a));
    }
    forall a | a in adjacency
      ensures a in Nodes(links)
    {
      TargetsFromAreEdges(links, a, TargetsFrom(links, a)[0]);
      EdgeInNodes(links, a, TargetsFrom(links, a)[0]);
    }
  }

  lemma OneMoreLink(links: seq<Link>, i: nat, source: string)
    requires i < |links|
    ensures TargetsFrom(links[..i + 1], source)
            == TargetsFrom(links[..i], source) + if links[i].source == source then [links[i].target] else []
  {
    SelectAppend(links, i, From(source), TargetOf);
  }

  lemma StartingLists(links: seq<Link>)
    ensures forall a :: TargetsFrom(links[..0], a) == []
  {}

  method Adjacency(links: seq<Link>) returns (adjacency: map<string, seq<string>>)
    ensures SortedLists(links, adjacency)
  {
    hide Sorted, TargetsFrom;
    StartingLists(links);
    adjacency := map[];
    for i := 0 to |links|
      invariant forall a :: Targets(adjacency, a) == TargetsFrom(links[..i], a)
      invariant forall a :: a in adjacency ==> adjacency[a] != []
    {
      var link := links[i];
      forall a
        ensures TargetsFrom(links[..i + 1], a)
                == TargetsFrom(links[..i], a) + if link.source == a then [link.target] else []
      {
        OneMoreLink(links, i, a);
      }
      ghost var before := adjacency;
      adjacency := adjacency[link.source := Targets(adjacency, link.source) + [link.target]];
      forall a
        ensures Targets(adjacency, a) == Targets(before, a) + if link.source == a then [link.target] else []
      {}
    }
    assert links[..|links|] == links;
    adjacency := SortTargets(adjacency);
  }

  method SortTargets(adjacency: map<string, seq<string>>) returns (sorted: map<string, seq<string>>)
    ensures sorted.Keys == adjacency.Keys
    ensures forall a :: a in sorted ==> Sorted(sorted[a]) && multiset(sorted[a]) == multiset(adjacency[a])
  {
    hide Sorted;
    sorted := adjacency;
    var left := adjacency.Keys;
    while left != {}
      invariant left <= sorted.Keys == adjacency.Keys
      invariant forall a :: a in sorted ==> multiset(sorted[a]) == multiset(adjacency[a])
      invariant forall a :: a in sorted && a !in left ==> Sorted(sorted[a])
      decreases left
    {
      var source :| source in left;
      SortedTextsAre(sorted[source]);
      var targets := SortStrings(sorted[source]);
      sorted := sorted[source := targets];
      left := left - {source};
    }
  }

  lemma EdgeAppend(links: seq<Link>, n: nat)
    requires n < |links|
    ensures forall a, b ::
              Edge(links[..n + 1], a, b) <==> Edge(links[..n], a, b) || (a == links[n].source && b == links[n].target)
  {
    forall a, b
      ensures Edge(links[..n + 1], a, b) <==> Edge(links[..n], a, b) || (a == links[n].source && b == links[n].target)
    {
      if Edge(links[..n], a, b) {
        var i :| 0 <= i < n && links[..n][i].source == a && links[..n][i].target == b;
        assert links[..n + 1][i] == links[..n][i];
      }
      if a == links[n].source && b == links[n].target {
        assert links[..n + 1][n] == links[n];
      }
      if Edge(links[..n + 1], a, b) {
        var i :| 0 <= i < n + 1 && links[..n + 1][i].source == a && links[..n + 1][i].target == b;
        assert i < n ==> links[..n][i] == links[i];
      }
    }
  }

  /** True exactly when the links contain a directed cycle, whatever order nodes and targets are taken in. */
  method HasCycle(links: seq<Link>) returns (cyclic: bool)
    ensures cyclic <==> Cyclic(links)
  {
    var adjacency := Adjacency(links);
    SortedListsAreLists(links, adjacency);
    var search := new CycleSearch(links, adjacency);
    var left := adjacency.Keys;
    while left != {}
      invariant search.Valid() && search.Visits([]) && search.links == links && search.adjacency == adjacency
      invariant left <= adjacency.Keys
      invariant forall a :: a in adjacency && a !in left ==> a in search.order
      decreases left
    {
      var node :| node in left;
      ghost var sofar := search.order;
      var found := search.Visit(node, []);
      if found {
        return true;
      }
      left := left - {node};
    }
    forall i | 0 <= i < |links| ensures links[i].source in search.order {
      assert Edge(links, links[i].source, links[i].target);
    }
    OrderedIsAcyclic(links, search.order);
    return false;
  }
}
