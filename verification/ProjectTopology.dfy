/** The project topology view: ProjectTopology in internal/dependency/topology.go. */
module ProjectTopology {
  import opened Selections
  import opened Text
  import opened TopologyCycle

  const MAX_NODES := 500
  const MAX_EDGES := 1000
  const SERVICE_BINDING := "service_binding"
  const MANUAL := "manual"
  const CALLS := "calls"
  const DECLARED := "declared"
  const DISABLED := "disabled"

  datatype Application = Application(id: string, name: string, identifier: string)
  datatype Target = Target(id: string, applicationId: string, name: string, stage: string, clusterId: string,
                           enabled: bool)
  datatype Binding = Binding(id: string, source: string, target: string, sourceTarget: string, targetTarget: string,
                             protocol: string, port: int, injectionMode: string, urlVar: string, hostVar: string,
                             portVar: string, enabled: bool)
  datatype ManualEdge = ManualEdge(id: string, source: string, target: string, sourceTarget: string,
                                   targetTarget: string, relationType: string, protocol: string, port: int,
                                   description: string)
  datatype Filter = Filter(stage: string, applicationId: string, origins: map<string, bool>)
  datatype TargetView = TargetView(id: string, name: string, stage: string, clusterId: string, enabled: bool)
  datatype Node = Node(id: string, name: string, identifier: string, status: string, targets: seq<TargetView>)
  datatype Warning = DependencyCycle | Truncated
  datatype Topology = Topology(nodes: seq<Node>, edges: seq<Link>, warnings: seq<Warning>)

  datatype Project = Project(applications: seq<Application>, targets: seq<Target>, bindings: seq<Binding>,
                             manual: seq<ManualEdge>)

  // ---- What the filter selects ----

  function Wanted(f: Filter, origin: string): bool {
    if f.origins == map[] then true else origin in f.origins && f.origins[origin]
  }

  function ById(targets: seq<Target>): map<string, Target> {
    if targets == [] then map[] else
    var n := |targets| - 1;
    ById(targets[..n])[targets[n].id := targets[n]]
  }

  function TargetWanted(stage: string, applicationId: string): Target -> bool {
    (t: Target) => (stage == "" || t.stage == stage) && t.applicationId == applicationId
  }

  function ViewOf(t: Target): TargetView {
    TargetView(t.id, t.name, t.stage, t.clusterId, t.enabled)
  }

  function AtStage(targets: seq<Target>, stage: string, applicationId: string): seq<TargetView> {
    Select(targets, TargetWanted(stage, applicationId), ViewOf)
  }

  predicate ApplicationMatches(applicationId: string, source: string, target: string) {
    applicationId == "" || applicationId == source || applicationId == target
  }

  predicate StageMatches(stage: string, targets: map<string, Target>, source: string, target: string) {
    stage == "" || (source in targets && target in targets && targets[source].stage == stage
        && targets[target].stage == stage)
  }

  predicate OptionalStageMatches(stage: string, targets: map<string, Target>, source: string, target: string) {
    stage == "" || forall id :: id in [source, target] && id != "" ==> id in targets && targets[id].stage == stage
  }

  function BindingWanted(f: Filter, targets: map<string, Target>): Binding -> bool {
    (b: Binding) => Wanted(f, SERVICE_BINDING) && ApplicationMatches(f.applicationId, b.source, b.target)
                    && StageMatches(f.stage, targets, b.sourceTarget, b.targetTarget)
  }

  function BindingLink(b: Binding): Link {
    Link(b.id, b.source, b.target, b.sourceTarget, b.targetTarget, SERVICE_BINDING,
         Usage(CALLS, if b.enabled then DECLARED else DISABLED, b.protocol, b.port, "", b.injectionMode, b.urlVar,
               b.hostVar, b.portVar))
  }

  function EdgeWanted(f: Filter, targets: map<string, Target>): ManualEdge -> bool {
    (e: ManualEdge) => Wanted(f, MANUAL) && ApplicationMatches(f.applicationId, e.source, e.target)
                       && OptionalStageMatches(f.stage, targets, e.sourceTarget, e.targetTarget)
  }

  function EdgeLink(e: ManualEdge): Link {
    Link(e.id, e.source, e.target, e.sourceTarget, e.targetTarget, MANUAL,
         Usage(e.relationType, DECLARED, e.protocol, e.port, e.description, "", "", "", ""))
  }

  /** The filter with its stage trimmed. */
  function Trimmed(f: Filter): Filter {
    f.(stage := TrimSpace(f.stage))
  }

  function Links(p: Project, f: Filter): seq<Link> {
    Select(p.bindings, BindingWanted(f, ById(p.targets)), BindingLink)
    + Select(p.manual, EdgeWanted(f, ById(p.targets)), EdgeLink)
  }

  predicate Touches(links: seq<Link>, id: string) {
    exists i :: 0 <= i < |links| && (links[i].source == id || links[i].target == id)
  }

  predicate Visible(p: Project, f: Filter, links: seq<Link>, id: string) {
    if f.applicationId != "" then id == f.applicationId || Touches(links, id)
    else f.stage == "" || AtStage(p.targets, f.stage, id) != [] || Touches(links, id)
  }

  function NodeVisible(p: Project, f: Filter, links: seq<Link>): Application -> bool {
    (a: Application) => Visible(p, f, links, a.id)
  }

  function NodeOf(p: Project, f: Filter): Application -> Node {
    (a: Application) => Node(a.id, a.name, a.identifier, DECLARED, AtStage(p.targets, f.stage, a.id))
  }

  function NodesOf(p: Project, f: Filter, links: seq<Link>): seq<Node> {
    Select(p.applications, NodeVisible(p, f, links), NodeOf(p, f))
  }

  // ---- Cutting to size ----

  function Take<T>(xs: seq<T>, n: nat): seq<T> {
    if |xs| > n then xs[..n] else xs
  }

  function Ids(nodes: seq<Node>): set<string> {
    set i | 0 <= i < |nodes| :: nodes[i].id
  }

  predicate Allowed(nodes: set<string>, link: Link) {
    link.source in nodes && link.target in nodes
  }

  function Between(nodes: set<string>): Link -> bool {
    (link: Link) => Allowed(nodes, link)
  }

  function Itself(link: Link): Link {
    link
  }

  function Keep(links: seq<Link>, nodes: set<string>): seq<Link> {
    Select(links, Between(nodes), Itself)
  }

  /** filteredLinks := links[:0]: the kept links are written over the front of the same array. */
  method CompactInPlace(links: array<Link>, nodes: set<string>) returns (kept: nat)
    modifies links
    ensures kept <= links.Length
    ensures links[..kept] == Keep(old(links[..]), nodes)
  {
    ghost var was := links[..];
    kept := 0;
    var i := 0;
    while i < links.Length
      invariant 0 <= kept <= i <= links.Length
      invariant links[..kept] == Keep(was[..i], nodes)
      invariant links[i..] == was[i..]
    {
      SelectAppend(was, i, Between(nodes), Itself);
      var link := links[i];
      assert link == links[i..][0] == was[i];
      assert links[i..][1..] == links[i + 1..] && was[i..][1..] == was[i + 1..];
      if Allowed(nodes, link) {
        links[kept] := link;
        kept := kept + 1;
      }
      i := i + 1;
    }
    assert was[..i] == was;
  }

  // ---- The view ----

  /** The whole view as a function of the project and a trimmed filter. */
  ghost function View(p: Project, f: Filter): Topology {
    var links := Links(p, f);
    var found := NodesOf(p, f, links);
    var nodes := Take(found, MAX_NODES);
    var kept := Keep(links, Ids(nodes));
    Topology(nodes, Take(kept, MAX_EDGES),
             (if Cyclic(links) then [DependencyCycle] else [])
             + if |found| > MAX_NODES || |kept| > MAX_EDGES then [Truncated] else [])
  }

  method SelectLinks(p: Project, f: Filter) returns (links: seq<Link>)
    ensures links == Links(p, f)
  {
    var targets := ById(p.targets);
    links := [];
    var i := 0;
    while i < |p.bindings|
      invariant 0 <= i <= |p.bindings|
      invariant links == Select(p.bindings[..i], BindingWanted(f, targets), BindingLink)
    {
      var b := p.bindings[i];
      SelectAppend(p.bindings, i, BindingWanted(f, targets), BindingLink);
      i := i + 1;
      if !Wanted(f, SERVICE_BINDING) || !ApplicationMatches(f.applicationId, b.source, b.target) {
        continue;
      }
      if !StageMatches(f.stage, targets, b.sourceTarget, b.targetTarget) {
        continue;
      }
      links := links + [BindingLink(b)];
    }
    assert p.bindings[..i] == p.bindings;
    i := 0;
    ghost var first := links;
    while i < |p.manual|
      invariant 0 <= i <= |p.manual|
      invariant links == first + Select(p.manual[..i], EdgeWanted(f, targets), EdgeLink)
    {
      var e := p.manual[i];
      SelectAppend(p.manual, i, EdgeWanted(f, targets), EdgeLink);
      i := i + 1;
      if !Wanted(f, MANUAL) || !ApplicationMatches(f.applicationId, e.source, e.target) {
        continue;
      }
      if !OptionalStageMatches(f.stage, targets, e.sourceTarget, e.targetTarget) {
        continue;
      }
      links := links + [EdgeLink(e)];
    }
    assert p.manual[..i] == p.manual;
  }

  method SelectNodes(p: Project, f: Filter, links: seq<Link>) returns (nodes: seq<Node>)
    ensures nodes == NodesOf(p, f, links)
  {
    hide Visible, AtStage;
    nodes := [];
    var i := 0;
    while i < |p.applications|
      invariant 0 <= i <= |p.applications|
      invariant nodes == Select(p.applications[..i], NodeVisible(p, f, links), NodeOf(p, f))
    {
      var a := p.applications[i];
      SelectAppend(p.applications, i, NodeVisible(p, f, links), NodeOf(p, f));
      if Visible(p, f, links, a.id) {
        nodes := nodes + [Node(a.id, a.name, a.identifier, DECLARED, AtStage(p.targets, f.stage, a.id))];
      }
      i := i + 1;
    }
    assert p.applications[..i] == p.applications;
  }

  method ProjectView(p: Project, filter: Filter) returns (view: Topology)
    ensures view == View(p, Trimmed(filter))
  {
    hide Trimmed, Links, NodesOf, Cyclic;
    var f := Trimmed(filter);
    var links := SelectLinks(p, f);
    var nodes := SelectNodes(p, f, links);
    var warnings := [];
    var cyclic := HasCycle(links);
    if cyclic {
      warnings := warnings + [DependencyCycle];
    }
    var truncated := false;
    if |nodes| > MAX_NODES {
      nodes := nodes[..MAX_NODES];
      truncated := true;
    }
    var buffer := new Link[|links|](i requires 0 <= i < |links| => links[i]);
    assert buffer[..] == links;
    var kept := CompactInPlace(buffer, Ids(nodes));
    if kept > MAX_EDGES {
      kept := MAX_EDGES;
      truncated := true;
    }
    if truncated {
      warnings := warnings + [Truncated];
    }
    return Topology(nodes, buffer[..kept], warnings);
  }

  // ---- What a reader of the view may rely on ----

  /**
   The links are exactly the bindings and then exactly the manual edges that pass the filter, each once and
   in order.
  */
  lemma LinksAreSelections(p: Project, f: Filter) returns (bindings: seq<Link>, edges: seq<Link>)
    ensures Links(p, f) == bindings + edges
    ensures IsSelection(p.bindings, BindingWanted(f, ById(p.targets)), BindingLink, bindings)
    ensures IsSelection(p.manual, EdgeWanted(f, ById(p.targets)), EdgeLink, edges)
  {
    hide Select;
    bindings := Select(p.bindings, BindingWanted(f, ById(p.targets)), BindingLink);
    edges := Select(p.manual, EdgeWanted(f, ById(p.targets)), EdgeLink);
    SelectIsSelection(p.bindings, BindingWanted(f, ById(p.targets)), BindingLink);
    SelectIsSelection(p.manual, EdgeWanted(f, ById(p.targets)), EdgeLink);
  }

  /**
   The nodes are exactly the visible applications, each once and in order, with exactly their targets at the
   stage.
  */
  lemma NodesAreSelections(p: Project, f: Filter, links: seq<Link>, application: Application)
    ensures IsSelection(p.applications, NodeVisible(p, f, links), NodeOf(p, f), NodesOf(p, f, links))
    ensures IsSelection(p.targets, TargetWanted(f.stage, application.id), ViewOf, NodeOf(p, f)(application).targets)
  {
    hide Select, Visible;
    SelectIsSelection(p.applications, NodeVisible(p, f, links), NodeOf(p, f));
    SelectIsSelection(p.targets, TargetWanted(f.stage, application.id), ViewOf);
  }

  /** The last target under an identifier is the one a link's stage is looked up in. */
  lemma {:induction false} ByIdIsLast(targets: seq<Target>, i: nat)
    requires i < |targets| && forall j :: i < j < |targets| ==> targets[j].id != targets[i].id
    ensures targets[i].id in ById(targets) && ById(targets)[targets[i].id] == targets[i]
  {
    if i < |targets| - 1 {
      ByIdIsLast(targets[..|targets| - 1], i);
    }
  }

  lemma AllowedLinks(links: seq<Link>, nodes: set<string>)
    ensures forall e :: e in Keep(links, nodes) ==> Allowed(nodes, e)
  {
    hide Select;
    var at := Positions(links, Between(nodes));
    SelectIsSelection(links, Between(nodes), Itself);
    forall e | e in Keep(links, nodes)
      ensures Allowed(nodes, e)
    {
      var i :| 0 <= i < |at| && Keep(links, nodes)[i] == e;
      assert at[i] in at && Between(nodes)(links[at[i]]);
    }
  }

  /** Every link the view shows joins two nodes it shows, and both lists respect their limits. */
  lemma ViewIsClosed(p: Project, f: Filter)
    ensures var v := View(p, f);
            && |v.nodes| <= MAX_NODES && |v.edges| <= MAX_EDGES
            && (forall e :: e in v.edges ==> e.source in Ids(v.nodes) && e.target in Ids(v.nodes))
  {
    hide Links, NodesOf, Cyclic, Keep;
    var kept := Keep(Links(p, f), Ids(View(p, f).nodes));
    var edges := View(p, f).edges;
    assert edges == Take(kept, MAX_EDGES);
    assert forall i :: 0 <= i < |edges| ==> edges[i] == kept[i] && kept[i] in kept;
    AllowedLinks(Links(p, f), Ids(View(p, f).nodes));
  }

  /**
   The shown links are, in order, the first of the selected links between shown nodes; without a truncation
   warning they are all of them, and the warning appears exactly when a limit cut something. The cycle
   warning tells whether the selected links have a cycle, shown or not.
   */
  lemma ViewIsFaithful(p: Project, f: Filter) returns (between: seq<Link>)
    ensures var v, links := View(p, f), Links(p, f);
            && IsSelection(links, Between(Ids(v.nodes)), Itself, between)
            && v.edges <= between
            && (Truncated !in v.warnings ==> v.edges == between)
            && (Truncated in v.warnings <==> v.nodes != NodesOf(p, f, links) || v.edges != between)
            && (DependencyCycle in v.warnings <==> Cyclic(links))
  {
    hide Links, NodesOf, Cyclic, Select;
    between := Keep(Links(p, f), Ids(View(p, f).nodes));
    SelectIsSelection(Links(p, f), Between(Ids(View(p, f).nodes)), Itself);
  }
}
