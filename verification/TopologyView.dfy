/** What the project topology view shows, in terms of the project's own records and the filter as it comes. */
module TopologyView {
  import opened Selections
  import opened Text
  import opened TopologyCycle
  import opened ProjectTopology

  /** Positions in a list of that length, each once and in order. */
  predicate Places(at: seq<nat>, length: nat) {
    && (forall i :: 0 <= i < |at| ==> at[i] < length)
    && (forall i, j :: 0 <= i < j < |at| ==> at[i] < at[j])
  }

  ghost predicate OriginAsked(filter: Filter, origin: string) {
    filter.origins == map[] || (origin in filter.origins && filter.origins[origin])
  }

  ghost predicate ApplicationAsked(filter: Filter, source: string, target: string) {
    filter.applicationId in ["", source, target]
  }

  /** The last target under the identifier is at the stage. */
  ghost predicate IsAt(targets: seq<Target>, id: string, stage: string) {
    exists i :: 0 <= i < |targets| && targets[i].id == id && targets[i].stage == stage
                && forall j :: i < j < |targets| ==> targets[j].id != id
  }

  /** A binding is shown when both its targets are at the stage asked for, if any. */
  ghost predicate BindingShown(p: Project, filter: Filter, b: Binding) {
    var stage := TrimSpace(filter.stage);
    && OriginAsked(filter, "service_binding") && ApplicationAsked(filter, b.source, b.target)
    && (stage != "" ==> IsAt(p.targets, b.sourceTarget, stage) && IsAt(p.targets, b.targetTarget, stage))
  }

  /** A manual edge is shown when each target it names is. */
  ghost predicate EdgeShown(p: Project, filter: Filter, e: ManualEdge) {
    var stage := TrimSpace(filter.stage);
    && OriginAsked(filter, "manual") && ApplicationAsked(filter, e.source, e.target)
    && (stage != "" && e.sourceTarget != "" ==> IsAt(p.targets, e.sourceTarget, stage))
    && (stage != "" && e.targetTarget != "" ==> IsAt(p.targets, e.targetTarget, stage))
  }

  predicate TellsBinding(link: Link, b: Binding) {
    && link.id == b.id && link.source == b.source && link.target == b.target
    && link.sourceTarget == b.sourceTarget && link.targetTarget == b.targetTarget && link.origin == "service_binding"
    && link.usage.relationType == "calls" && (link.usage.status == if b.enabled then "declared" else "disabled")
    && link.usage.protocol == b.protocol && link.usage.port == b.port && link.usage.description == ""
    && link.usage.injectionMode == b.injectionMode && link.usage.urlVar == b.urlVar
    && link.usage.hostVar == b.hostVar && link.usage.portVar == b.portVar
  }

  predicate TellsEdge(link: Link, e: ManualEdge) {
    && link.id == e.id && link.source == e.source && link.target == e.target
    && link.sourceTarget == e.sourceTarget && link.targetTarget == e.targetTarget && link.origin == "manual"
    && link.usage.relationType == e.relationType && link.usage.status == "declared"
    && link.usage.protocol == e.protocol && link.usage.port == e.port && link.usage.description == e.description
    && link.usage.injectionMode == link.usage.urlVar == link.usage.hostVar == link.usage.portVar == ""
  }

  ghost predicate Touched(links: seq<Link>, id: string) {
    exists link :: link in links && id in [link.source, link.target]
  }

  /** An application is shown when it is asked for, has a target at the stage, or a shown link touches it. */
  ghost predicate ApplicationShown(p: Project, filter: Filter, links: seq<Link>, id: string) {
    var stage := TrimSpace(filter.stage);
    || (filter.applicationId == stage == "")
    || (filter.applicationId != "" && filter.applicationId == id)
    || (filter.applicationId == "" && exists t :: t in p.targets && t.applicationId == id && t.stage == stage)
    || Touched(links, id)
  }

  /** The targets of an application, or those at the stage asked for. */
  ghost predicate ItsTargets(p: Project, stage: string, id: string, shown: seq<TargetView>, at: seq<nat>) {
    && Places(at, |p.targets|) && |shown| == |at|
    && (forall k :: 0 <= k < |p.targets| ==>
          (k in at <==> p.targets[k].applicationId == id && (stage == "" || p.targets[k].stage == stage)))
    && (forall i :: 0 <= i < |at| ==>
          var t, v := p.targets[at[i]], shown[i];
          && v.id == t.id && v.name == t.name && v.stage == t.stage
          && v.clusterId == t.clusterId && v.enabled == t.enabled)
  }

  ghost predicate TellsApplication(p: Project, stage: string, node: Node, a: Application) {
    && node.id == a.id && node.name == a.name && node.identifier == a.identifier && node.status == "declared"
    && exists at :: ItsTargets(p, stage, a.id, node.targets, at)
  }

  // ---- Links ----

  lemma IsAtLast(targets: seq<Target>, id: string, stage: string)
    requires targets != []
    ensures var n := |targets| - 1;
            IsAt(targets, id, stage)
            <==> if targets[n].id == id then targets[n].stage == stage else IsAt(targets[..n], id, stage)
  {
    var n := |targets| - 1;
    var before := targets[..n];
    if targets[n].id != id {
      if i :| 0 <= i < n && before[i].id == id && before[i].stage == stage
              && forall j :: i < j < n ==> before[j].id != id {
        assert targets[i].id == id;
        forall j | i < j < |targets|
          ensures targets[j].id != id
        {
          assert j < n ==> targets[j] == before[j];
        }
      }
      if i :| 0 <= i < |targets| && targets[i].id == id && targets[i].stage == stage
              && forall j :: i < j < |targets| ==> targets[j].id != id {
        assert before[i].id == id;
        forall j | i < j < n
          ensures before[j].id != id
        {
          assert targets[j] == before[j];
        }
      }
    }
  }

  lemma {:induction false} ByIdIs(targets: seq<Target>, id: string, stage: string)
    ensures id in ById(targets) && ById(targets)[id].stage == stage <==> IsAt(targets, id, stage)
  {
    if targets != [] {
      IsAtLast(targets, id, stage);
      ByIdIs(targets[..|targets| - 1], id, stage);
      hide IsAt;
    }
  }

  lemma BindingsAre(p: Project, filter: Filter, b: Binding)
    ensures BindingWanted(Trimmed(filter), ById(p.targets))(b) <==> BindingShown(p, filter, b)
    ensures TellsBinding(BindingLink(b), b)
  {
    hide ById, IsAt, TrimSpace;
    ByIdIs(p.targets, b.sourceTarget, TrimSpace(filter.stage));
    ByIdIs(p.targets, b.targetTarget, TrimSpace(filter.stage));
  }

  lemma EdgesAre(p: Project, filter: Filter, e: ManualEdge)
    ensures EdgeWanted(Trimmed(filter), ById(p.targets))(e) <==> EdgeShown(p, filter, e)
    ensures TellsEdge(EdgeLink(e), e)
  {
    hide ById, IsAt, TrimSpace;
    var stage, ends := TrimSpace(filter.stage), [e.sourceTarget, e.targetTarget];
    ByIdIs(p.targets, e.sourceTarget, stage);
    ByIdIs(p.targets, e.targetTarget, stage);
    assert ends[0] in ends && ends[1] in ends;
    assert forall id :: id in ends <==> id == e.sourceTarget || id == e.targetTarget;
  }

  /** The links of the view: exactly the bindings to show and then exactly the manual edges to show, in order. */
  lemma LinksAre(p: Project, filter: Filter) returns (bindings: seq<nat>, edges: seq<nat>)
    ensures Places(bindings, |p.bindings|) && Places(edges, |p.manual|)
    ensures forall k :: 0 <= k < |p.bindings| ==> (k in bindings <==> BindingShown(p, filter, p.bindings[k]))
    ensures forall k :: 0 <= k < |p.manual| ==> (k in edges <==> EdgeShown(p, filter, p.manual[k]))
    ensures var links := Links(p, Trimmed(filter));
            && |links| == |bindings| + |edges|
            && (forall i :: 0 <= i < |bindings| ==> TellsBinding(links[i], p.bindings[bindings[i]]))
            && (forall i :: 0 <= i < |edges| ==> TellsEdge(links[|bindings| + i], p.manual[edges[i]]))
  {
    hide Select, Positions, BindingShown, EdgeShown, TellsBinding, TellsEdge;
    var f := Trimmed(filter);
    var wantedBinding, wantedEdge := BindingWanted(f, ById(p.targets)), EdgeWanted(f, ById(p.targets));
    bindings, edges := Positions(p.bindings, wantedBinding), Positions(p.manual, wantedEdge);
    SelectIsSelection(p.bindings, wantedBinding, BindingLink);
    SelectIsSelection(p.manual, wantedEdge, EdgeLink);
    forall b
      ensures wantedBinding(b) <==> BindingShown(p, filter, b)
      ensures TellsBinding(BindingLink(b), b)
    {
      BindingsAre(p, filter, b);
    }
    forall e
      ensures wantedEdge(e) <==> EdgeShown(p, filter, e)
      ensures TellsEdge(EdgeLink(e), e)
    {
      EdgesAre(p, filter, e);
    }
  }

  // ---- Nodes ----

  lemma VisibleIs(p: Project, filter: Filter, links: seq<Link>, id: string)
    ensures Visible(p, Trimmed(filter), links, id) <==> ApplicationShown(p, filter, links, id)
  {
    hide Select, Positions, TrimSpace;
    var stage := TrimSpace(filter.stage);
    SelectIsSelection(p.targets, TargetWanted(stage, id), ViewOf);
    var at := Positions(p.targets, TargetWanted(stage, id));
    TouchedIs(links, id);
    hide Touches, Touched;
    if t :| t in p.targets && t.applicationId == id && t.stage == stage {
      var k :| 0 <= k < |p.targets| && p.targets[k] == t;
      assert k in at;
    }
    if at != [] {
      assert at[0] in at && p.targets[at[0]] in p.targets;
    }
  }

  lemma TouchedIs(links: seq<Link>, id: string)
    ensures Touches(links, id) <==> Touched(links, id)
  {
    if link :| link in links && id in [link.source, link.target] {
      var i :| 0 <= i < |links| && links[i] == link;
    }
    forall i | 0 <= i < |links|
      ensures links[i] in links && links[i].source in [links[i].source, links[i].target]
      ensures links[i].target in [links[i].source, links[i].target]
    {
      assert [links[i].source, links[i].target][1] == links[i].target;
    }
  }

  lemma NodeIs(p: Project, filter: Filter, a: Application)
    ensures TellsApplication(p, TrimSpace(filter.stage), NodeOf(p, Trimmed(filter))(a), a)
  {
    hide Select, Positions, TrimSpace;
    var wanted := TargetWanted(TrimSpace(filter.stage), a.id);
    SelectIsSelection(p.targets, wanted, ViewOf);
    var node := NodeOf(p, Trimmed(filter))(a);
    assert ItsTargets(p, TrimSpace(filter.stage), a.id, node.targets, Positions(p.targets, wanted));
  }

  /** The nodes of the view: exactly the applications to show, in order, at most 500 of them. */
  lemma NodesAre(p: Project, filter: Filter) returns (at: seq<nat>)
    ensures Places(at, |p.applications|)
    ensures forall k :: 0 <= k < |p.applications| ==>
              (k in at <==> ApplicationShown(p, filter, Links(p, Trimmed(filter)), p.applications[k].id))
    ensures var nodes := View(p, Trimmed(filter)).nodes;
            && |nodes| == (if |at| > 500 then 500 else |at|)
            && (forall i :: 0 <= i < |nodes| ==>
                  TellsApplication(p, TrimSpace(filter.stage), nodes[i], p.applications[at[i]]))
    ensures |at| == |NodesOf(p, Trimmed(filter), Links(p, Trimmed(filter)))|
  {
    hide Select, Positions, Links, Keep, Cyclic, TellsApplication, ApplicationShown, TrimSpace, Visible, Trimmed;
    var f := Trimmed(filter);
    var links := Links(p, f);
    var wanted := NodeVisible(p, f, links);
    at := Positions(p.applications, wanted);
    SelectIsSelection(p.applications, wanted, NodeOf(p, f));
    forall a
      ensures wanted(a) <==> ApplicationShown(p, filter, links, a.id)
      ensures TellsApplication(p, TrimSpace(filter.stage), NodeOf(p, f)(a), a)
    {
      VisibleIs(p, filter, links, a.id);
      NodeIs(p, filter, a);
    }
  }

  // ---- What is cut off ----

  /**
   The edges of the view: the links that join two of its nodes, in order, at most 1000 of them. Warnings tell
   of a cycle among all links and of anything cut off.
   */
  lemma EdgesOfView(p: Project, filter: Filter) returns (at: seq<nat>, found: nat)
    ensures var v, links := View(p, Trimmed(filter)), Links(p, Trimmed(filter));
            && Places(at, |links|)
            && (forall k :: 0 <= k < |links| ==>
                  (k in at <==> exists i, j :: 0 <= i < |v.nodes| && 0 <= j < |v.nodes|
                                               && v.nodes[i].id == links[k].source && v.nodes[j].id == links[k].target))
            && |v.edges| == (if |at| > 1000 then 1000 else |at|)
            && (forall i :: 0 <= i < |v.edges| ==> v.edges[i] == links[at[i]])
            && found == |NodesOf(p, Trimmed(filter), links)|
            && (Truncated in v.warnings <==> found > 500 || |at| > 1000)
            && (DependencyCycle in v.warnings <==> Cyclic(links))
  {
    hide Select, Positions, Links, NodesOf, Cyclic, Trimmed;
    var f := Trimmed(filter);
    var v, links := View(p, f), Links(p, f);
    found := |NodesOf(p, f, links)|;
    at := Positions(links, Between(Ids(v.nodes)));
    SelectIsSelection(links, Between(Ids(v.nodes)), Itself);
    forall k | 0 <= k < |links|
      ensures k in at <==> exists i, j :: 0 <= i < |v.nodes| && 0 <= j < |v.nodes|
                                          && v.nodes[i].id == links[k].source && v.nodes[j].id == links[k].target
    {
      assert Between(Ids(v.nodes))(links[k]) <==> links[k].source in Ids(v.nodes) && links[k].target in Ids(v.nodes);
    }
  }
}
