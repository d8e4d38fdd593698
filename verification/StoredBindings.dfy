/** Which bindings are stored: by saving one, and by installing a template of several components. */
module StoredBindings {
  import opened Wrappers
  import opened Text
  import opened ServiceBindings
  import opened BindingPreparation
  import opened TemplateInstalls
  import opened BindingStore

  // ---- Saving one ----

  /** Another stored binding of the source target sets one of the variables. */
  ghost predicate TakenByAnother(store: map<string, Binding>, id: string, b: Binding) {
    exists other, key :: other in store && other != id && store[other].sourceTarget == b.sourceTarget
                         && Sets(store[other], key) && Sets(b, key)
  }

  lemma ConflictIs(store: map<string, Binding>, id: string, b: Binding, env: Environment)
    requires Distinct(store, env) && Sound(b, env)
    ensures Conflict(store, id, b.sourceTarget, Keys(b)) <==> TakenByAnother(store, id, b)
  {
    hide Sound, Keys, Sets;
    forall a, key
      ensures key in Keys(a) <==> Sets(a, key)
    {
      KeysAre(a, key);
    }
    forall other | other in store
      ensures (store[other].urlVar in Keys(b) || store[other].hostVar in Keys(b) || store[other].portVar in Keys(b))
         <==> Shares(store[other], b)
    {
      ConflictIsSharing(store[other], b, env);
    }
  }

  /**
   Saving stores exactly what is accepted, unless another binding of the source target sets one of its variables;
   nothing else changes, and nothing is stored of a refused input.
   */
  lemma SaveOutcome(store: map<string, Binding>, id: string, x: Input, source: Target, target: Target, env: Environment)
    requires Distinct(store, env)
    ensures var after := Apply(store, Save(id, x, source, target), env);
            && (forall b :: Accepts(x, source, target, env, b) ==>
                  after == if TakenByAnother(store, id, b) then store else store[id := b])
            && ((forall b :: !Accepts(x, source, target, env, b)) ==> after == store)
  {
    hide Prepare, Accepts, Conflict, TakenByAnother, Distinct, Keys, Sound;
    var prepared := Prepare(x, source, target, env);
    forall b
      ensures prepared == Ok(b) <==> Accepts(x, source, target, env, b)
    {
      PreparedExactly(x, source, target, env, b);
    }
    if prepared.Ok? {
      AcceptedIsSound(x, source, target, env);
      ConflictIs(store, id, prepared.value, env);
    }
  }

  // ---- Installing a template ----

  /** A key in capitals with something behind it. */
  predicate Variable(key: string, suffix: string, name: string) {
    && |name| == |key| + |suffix| && name[|key|..] == suffix
    && forall i :: 0 <= i < |key| ==> name[i] as int == key[i] as int - if 'a' <= key[i] <= 'z' then 32 else 0
  }

  /** The binding gives component c the host and port of component d. */
  predicate Gives(b: Binding, c: Component, d: Component) {
    && b.sourceApplication == c.target.applicationId && b.sourceTarget == c.target.id
    && b.targetApplication == d.target.applicationId && b.targetTarget == d.target.id
    && b.portName == "http" && b.protocol == "tcp" && b.path == "" && b.mode == "host_port" && b.urlVar == ""
    && Variable(d.key, "_HOST", b.hostVar) && Variable(d.key, "_PORT", b.portVar) && b.secrets == [] && b.enabled
  }

  lemma {:induction false} FindIs(components: seq<Component>, d: Component)
    requires d in components
    requires forall i, j :: 0 <= i < j < |components| ==> components[i].key != components[j].key
    ensures Find(components, d.key) == Some(d.target)
  {
    var n := |components| - 1;
    if components[n] != d {
      assert components == components[..n] + [components[n]];
      FindIs(components[..n], d);
      var i :| 0 <= i < n && components[..n][i] == d;
      assert components[i].key != components[n].key;
    }
  }

  lemma VariableIs(key: string, suffix: string, name: string, env: Environment)
    requires TemplateInstalls.IsKey(key) && name == env.ToUpper(key) + suffix
    ensures Variable(key, suffix, name)
  {
    assert forall i :: 0 <= i < |key| ==> name[i] == env.UpperChar(key[i]);
  }

  /** A binding that is planned for a reference gives the one component what it asks of the other. */
  lemma PlannedGives(components: seq<Component>, c: Component, d: Component, env: Environment)
    requires ValidTemplate(components) && c in components && d in components
    requires PlanOne(components, c.target, d.key, env).Ok?
    ensures Gives(PlanOne(components, c.target, d.key, env).value, c, d)
  {
    FindIs(components, d);
    var b := PlanOne(components, c.target, d.key, env).value;
    var x := Request(c.target, d.target, d.key, env);
    PreparedExactly(x, c.target, d.target, env, b);
    hide TrimSpace, Prepare, Accepts;
    AcceptedGives(x, c, d, env, b);
  }

  lemma AcceptedGives(x: Input, c: Component, d: Component, env: Environment, b: Binding)
    requires TemplateInstalls.IsKey(d.key) && x == Request(c.target, d.target, d.key, env)
    requires Accepts(x, c.target, d.target, env, b)
    ensures Gives(b, c, d)
  {
    hide TrimSpace, Lowered, Raised, Shaped, Free, PortFrom;
    assert b.sourceApplication == c.target.applicationId && b.targetTarget == d.target.id;
    LoweredIs(x.protocol, b.protocol, env);
    LoweredIs(x.mode, b.mode, env);
    LowerWordIsFixed("tcp", env);
    LowerWordIsFixed("host_port", env);
    RaisedIs(x.urlVar, b.urlVar, env);
    RaisedIs(x.hostVar, b.hostVar, env);
    RaisedIs(x.portVar, b.portVar, env);
    VariablesAreNames(d.key, env);
    NameIsFixed(HostVar(d.key, env), env);
    NameIsFixed(PortVar(d.key, env), env);
    VariableIs(d.key, "_HOST", b.hostVar, env);
    VariableIs(d.key, "_PORT", b.portVar, env);
    TrimSpaceFixed("");
    NamedHttp(x, d.target, b.port, b.portName);
  }

  /** The port that is found under the name "http" has that name. */
  lemma NamedHttp(x: Input, target: Target, number: int, name: string)
    requires x.portName == "http" && PortFrom(x, target, number, name)
    ensures name == "http"
  {
    TrimSpaceFixed("http");
    assert !Blank("http") by {
      assert !IsSpace("http"[0]);
    }
    hide TrimSpace, Blank;
  }

  /** The identifiers and application of a target hold no white space around them. */
  predicate Trim(t: Target) {
    TrimSpace(t.id) == t.id && TrimSpace(t.applicationId) == t.applicationId
  }

  /**
   Component c can be given component d: they are two targets in one cluster, d has a port called http, and the
   two variables named after it are neither reserved nor set by c's deployment.
   */
  ghost predicate CanGive(c: Component, d: Component) {
    && Trim(c.target) && Trim(d.target) && c.target.id != d.target.id && c.target.clusterId == d.target.clusterId
    && (exists i :: Counts(d.target.servicePorts, i) && Called(d.target.servicePorts[i], "http"))
    && forall name :: Variable(d.key, "_HOST", name) || Variable(d.key, "_PORT", name) ==>
         !Platforms(name) && name !in c.target.envKeys
  }

  /** The binding that is planned for a reference, where planning succeeds. */
  function Wished(c: Component, d: Component, port: int, env: Environment): Binding {
    Binding(c.target.applicationId, c.target.id, d.target.applicationId, d.target.id, "http", port, "tcp", "",
            "host_port", "", HostVar(d.key, env), PortVar(d.key, env), [], true)
  }

  lemma WishedIsDraft(c: Component, d: Component, port: int, env: Environment)
    requires TemplateInstalls.IsKey(d.key) && Trim(c.target) && Trim(d.target)
    ensures var x := Request(c.target, d.target, d.key, env);
            StoredFrom(x, Wished(c, d, port, env), env) && Placed(x, c.target, d.target) && SecretsTold(x)
  {
    var b := Wished(c, d, port, env);
    LowerWordIsFixed("tcp", env);
    LowerWordIsFixed("host_port", env);
    VariablesAreNames(d.key, env);
    NameIsFixed(HostVar(d.key, env), env);
    NameIsFixed(PortVar(d.key, env), env);
    NameIsFixed("", env);
    TrimSpaceFixed("");
    hide TrimSpace, Lowered, Raised, HostVar, PortVar;
    LoweredIs("tcp", b.protocol, env);
    LoweredIs("host_port", b.mode, env);
    RaisedIs("", b.urlVar, env);
    RaisedIs(b.hostVar, b.hostVar, env);
    RaisedIs(b.portVar, b.portVar, env);
  }

  /** A name of a key's variable is the one the planner gives it. */
  lemma VariableExactly(key: string, suffix: string, name: string, env: Environment)
    requires TemplateInstalls.IsKey(key)
    ensures Variable(key, suffix, name) <==> name == env.ToUpper(key) + suffix
  {
    var given := env.ToUpper(key) + suffix;
    VariableIs(key, suffix, given, env);
    if Variable(key, suffix, name) {
      assert name == name[..|key|] + name[|key|..];
      assert forall i :: 0 <= i < |key| ==> name[i] as int == given[i] as int;
    }
  }

  lemma WishedIsFree(c: Component, d: Component, port: int, env: Environment)
    requires TemplateInstalls.IsKey(d.key)
    ensures Shaped(Wished(c, d, port, env), env)
    ensures Free(Wished(c, d, port, env), c.target) <==>
              forall name :: Variable(d.key, "_HOST", name) || Variable(d.key, "_PORT", name) ==>
                !Platforms(name) && name !in c.target.envKeys
  {
    var b := Wished(c, d, port, env);
    VariablesAreNames(d.key, env);
    VariablesDiffer(d.key, d.key, env);
    NameIs(b.hostVar);
    NameIs(b.portVar);
    forall name
      ensures Variable(d.key, "_HOST", name) <==> name == b.hostVar
      ensures Variable(d.key, "_PORT", name) <==> name == b.portVar
    {
      VariableExactly(d.key, "_HOST", name, env);
      VariableExactly(d.key, "_PORT", name, env);
    }
    hide Variable, Platforms, Name, IsName, HostVar, PortVar, TemplateInstalls.IsKey;
    assert Sets(b, b.hostVar) && Sets(b, b.portVar);
  }

  lemma HttpIsText()
    ensures TrimSpace("http") == "http" && !Blank("http")
  {
    TrimSpaceFixed("http");
    assert !IsSpace("http"[0]);
  }

  /** There is a port to plan with exactly when one that counts is called http. */
  lemma HttpPort(c: Component, d: Component, env: Environment) returns (port: int)
    ensures var x := Request(c.target, d.target, d.key, env);
            && (PortFrom(x, d.target, port, "http")
                <==> exists i :: Counts(d.target.servicePorts, i) && Called(d.target.servicePorts[i], "http"))
            && forall number, name :: PortFrom(x, d.target, number, name) ==> number == port && name == "http"
  {
    var x := Request(c.target, d.target, d.key, env);
    var ports := d.target.servicePorts;
    HttpIsText();
    var found := FirstFit(Normalized(ports, 0), TrimSpace(x.portName), x.port);
    port := if found.Some? then found.value.port else 0;
    forall number, name
      ensures PortFrom(x, d.target, number, name)
         <==> found.Some? && found.value.port == number && found.value.name == name
    {
      PortIs(x, d.target, number, name);
    }
    if found.Some? {
      NamedHttp(x, d.target, found.value.port, found.value.name);
    }
    if i :| Counts(ports, i) && Called(ports[i], "http") {
      HttpOffered(ports, i);
    }
    hide TrimSpace, Blank, Counts, Called, FirstFit, Normalized;
  }

  /** A port that counts and is called http is offered. */
  lemma HttpOffered(ports: seq<Port>, i: int)
    requires Counts(ports, i) && Called(ports[i], "http")
    ensures FirstFit(Normalized(ports, 0), "http", 0).Some?
  {
    hide TrimSpace, Blank, Called;
    var at := UsableAre(ports);
    var k :| 0 <= k < |at| && at[k] == i;
    CalledIs(ports[i], "http");
    assert Fits(Usable(ports)[k], "http", 0) && Usable(ports)[k] in Usable(ports);
  }

  /** What is accepted of a planned request shows that d can be given to c. */
  lemma AcceptedCan(c: Component, d: Component, env: Environment, b: Binding)
    requires TemplateInstalls.IsKey(d.key)
    requires Accepts(Request(c.target, d.target, d.key, env), c.target, d.target, env, b)
    ensures CanGive(c, d)
  {
    var port := HttpPort(c, d, env);
    WishedIsFree(c, d, port, env);
    AcceptedIsWished(c, d, env, b);
    hide StoredFrom, PortFrom, Shaped, Free, Variable, Platforms, Counts, Called, TrimSpace, Wished;
  }

  lemma AcceptedIsWished(c: Component, d: Component, env: Environment, b: Binding)
    requires TemplateInstalls.IsKey(d.key)
    requires Accepts(Request(c.target, d.target, d.key, env), c.target, d.target, env, b)
    ensures Trim(c.target) && Trim(d.target) && b == Wished(c, d, b.port, env)
  {
    var x := Request(c.target, d.target, d.key, env);
    NamedHttp(x, d.target, b.port, b.portName);
    StoredIsDraft(x, b, env);
    assert Trim(c.target) && Trim(d.target) by {
      hide TrimSpace;
    }
    WishedIsDraft(c, d, b.port, env);
    StoredIsDraft(x, Wished(c, d, b.port, env), env);
    hide TrimSpace, Drafted, StoredFrom, PortFrom, Shaped, Free, HostVar, PortVar;
  }

  /** And if it can, the wished binding is accepted. */
  lemma WishedIsAccepted(c: Component, d: Component, env: Environment) returns (b: Binding)
    requires TemplateInstalls.IsKey(d.key) && CanGive(c, d)
    ensures Accepts(Request(c.target, d.target, d.key, env), c.target, d.target, env, b)
  {
    var port := HttpPort(c, d, env);
    b := Wished(c, d, port, env);
    WishedIsFree(c, d, port, env);
    WishedIsDraft(c, d, port, env);
    hide StoredFrom, PortFrom, Shaped, Free, Variable, Platforms, Counts, Called, TrimSpace, HostVar, PortVar;
  }

  /** A binding for a reference is planned exactly when the one component can be given the other. */
  lemma PlannedExactly(components: seq<Component>, c: Component, d: Component, env: Environment)
    requires ValidTemplate(components) && c in components && d in components
    ensures PlanOne(components, c.target, d.key, env).Ok? <==> CanGive(c, d)
  {
    hide CanGive, Accepts, Prepare, TemplateInstalls.IsKey, HasKey;
    FindIs(components, d);
    var x := Request(c.target, d.target, d.key, env);
    var planned := Prepare(x, c.target, d.target, env);
    assert PlanOne(components, c.target, d.key, env) == planned;
    if planned.Ok? {
      PreparedExactly(x, c.target, d.target, env, planned.value);
      AcceptedCan(c, d, env, planned.value);
    }
    if CanGive(c, d) {
      var b := WishedIsAccepted(c, d, env);
      PreparedExactly(x, c.target, d.target, env, b);
    }
  }

  lemma {:induction false} ComponentGives(components: seq<Component>, c: Component, keys: seq<string>, env: Environment)
    requires ValidTemplate(components) && c in components
    requires PlanComponent(components, c.target, keys, env).Ok? && forall key :: key in keys ==> key in c.references
    ensures var bs := PlanComponent(components, c.target, keys, env).value;
            forall i :: 0 <= i < |keys| ==> exists d :: d in components && d.key == keys[i] && Gives(bs[i], c, d)
    decreases |keys|
  {
    hide PlanOne, Gives, TemplateInstalls.IsKey;
    if keys != [] {
      var n := |keys| - 1;
      ComponentGives(components, c, keys[..n], env);
      assert keys[n] in keys && HasKey(components, keys[n]);
      var d :| d in components && d.key == keys[n];
      PlannedGives(components, c, d, env);
    }
  }

  /** The reference of component c to component d. */
  ghost predicate Refers(components: seq<Component>, first: seq<Component>, c: Component, d: Component) {
    c in first && d in components && d.key in c.references
  }

  /** The bindings give each component what it refers to, and nothing else. */
  ghost predicate Served(bs: seq<Binding>, components: seq<Component>, first: seq<Component>) {
    && (forall b :: b in bs ==> exists c, d :: Refers(components, first, c, d) && Gives(b, c, d))
    && (forall c, d :: Refers(components, first, c, d) ==> exists b :: b in bs && Gives(b, c, d))
  }

  lemma {:induction false} PlannedAre(components: seq<Component>, first: seq<Component>, env: Environment)
    requires ValidTemplate(components) && first <= components && PlanBindings(components, first, env).Ok?
    ensures Served(PlanBindings(components, first, env).value, components, first)
    decreases |first|
  {
    hide PlanComponent, Dependencies, Served;
    if first == [] {
      NobodyServed(components);
    } else {
      var n := |first| - 1;
      PlannedAre(components, first[..n], env);
      assert first[n] == components[n] && first[n] in components;
      DependenciesAre(first[n]);
      ComponentGives(components, first[n], Dependencies(first[n]), env);
      LastServed(PlanBindings(components, first[..n], env).value,
                 PlanComponent(components, first[n].target, Dependencies(first[n]), env).value,
                 components, first[..n], first[n], Dependencies(first[n]));
      assert first == first[..n] + [first[n]];
    }
  }

  lemma NobodyServed(components: seq<Component>)
    ensures Served([], components, [])
  {}

  /** What the last component is planned: a binding for each key it refers to. */
  ghost predicate LastPlanned(more: seq<Binding>, components: seq<Component>, last: Component, keys: seq<string>) {
    && |more| == |keys|
    && (forall key :: key in keys <==> key in last.references)
    && forall i :: 0 <= i < |keys| ==> exists d :: d in components && d.key == keys[i] && Gives(more[i], last, d)
  }

  lemma LastServed(bs: seq<Binding>, more: seq<Binding>, components: seq<Component>, first: seq<Component>,
                   last: Component, keys: seq<string>)
    requires Served(bs, components, first) && LastPlanned(more, components, last, keys)
    requires forall i, j :: 0 <= i < j < |components| ==> components[i].key != components[j].key
    ensures Served(bs + more, components, first + [last])
  {
    hide Gives, LastPlanned;
    forall b | b in bs + more
      ensures exists c, d :: Refers(components, first + [last], c, d) && Gives(b, c, d)
    {
      GivenTo(bs, more, components, first, last, keys, b);
    }
    forall c, d | Refers(components, first + [last], c, d)
      ensures exists b :: b in bs + more && Gives(b, c, d)
    {
      GivenFor(bs, more, components, first, last, keys, c, d);
    }
  }

  lemma GivenTo(bs: seq<Binding>, more: seq<Binding>, components: seq<Component>, first: seq<Component>,
                last: Component, keys: seq<string>, b: Binding)
    requires Served(bs, components, first) && LastPlanned(more, components, last, keys) && b in bs + more
    ensures exists c, d :: Refers(components, first + [last], c, d) && Gives(b, c, d)
  {
    hide Gives;
    if b in bs {
      var c, d :| Refers(components, first, c, d) && Gives(b, c, d);
      assert Refers(components, first + [last], c, d);
    } else {
      var i :| 0 <= i < |more| && more[i] == b;
      var d :| d in components && d.key == keys[i] && Gives(more[i], last, d);
      assert keys[i] in keys && Refers(components, first + [last], last, d);
    }
  }

  lemma GivenFor(bs: seq<Binding>, more: seq<Binding>, components: seq<Component>, first: seq<Component>,
                 last: Component, keys: seq<string>, c: Component, d: Component)
    requires Served(bs, components, first) && LastPlanned(more, components, last, keys)
    requires forall i, j :: 0 <= i < j < |components| ==> components[i].key != components[j].key
    requires Refers(components, first + [last], c, d)
    ensures exists b :: b in bs + more && Gives(b, c, d)
  {
    hide Gives;
    if c in first {
      assert Refers(components, first, c, d);
      var b :| b in bs && Gives(b, c, d);
      assert b in bs + more;
    } else {
      var i :| 0 <= i < |keys| && keys[i] == d.key;
      var e :| e in components && e.key == keys[i] && Gives(more[i], last, e);
      SameKey(components, d, e);
      assert more[i] in bs + more;
    }
  }

  lemma SameKey(components: seq<Component>, d: Component, e: Component)
    requires d in components && e in components && d.key == e.key
    requires forall i, j :: 0 <= i < j < |components| ==> components[i].key != components[j].key
    ensures d == e
  {
    var i :| 0 <= i < |components| && components[i] == d;
    var j :| 0 <= j < |components| && components[j] == e;
  }

  lemma {:induction false} ComponentPlans(components: seq<Component>, c: Component, keys: seq<string>, env: Environment)
    requires ValidTemplate(components) && c in components && forall key :: key in keys ==> key in c.references
    ensures PlanComponent(components, c.target, keys, env).Ok?
       <==> forall d :: d in components && d.key in keys ==> CanGive(c, d)
    decreases |keys|
  {
    hide PlanOne, CanGive, TemplateInstalls.IsKey;
    if keys != [] {
      var n := |keys| - 1;
      assert keys == keys[..n] + [keys[n]];
      ComponentPlans(components, c, keys[..n], env);
      assert keys[n] in keys && HasKey(components, keys[n]);
      var d :| d in components && d.key == keys[n];
      PlannedExactly(components, c, d, env);
      forall e | e in components && e.key == keys[n]
        ensures e == d
      {
        SameKey(components, d, e);
      }
    }
  }

  /** A template is planned exactly when each component can be given every component it refers to. */
  lemma {:induction false} TemplatePlans(components: seq<Component>, first: seq<Component>, env: Environment)
    requires ValidTemplate(components) && first <= components
    ensures PlanBindings(components, first, env).Ok?
       <==> forall c, d :: Refers(components, first, c, d) ==> CanGive(c, d)
    decreases |first|
  {
    hide PlanComponent, Dependencies, CanGive, ValidTemplate;
    if first != [] {
      var n := |first| - 1;
      assert first == first[..n] + [first[n]];
      TemplatePlans(components, first[..n], env);
      assert first[n] == components[n] && first[n] in components;
      DependenciesAre(first[n]);
      ComponentPlans(components, first[n], Dependencies(first[n]), env);
      assert forall c, d :: Refers(components, first, c, d)
                       <==> Refers(components, first[..n], c, d)
                            || (c == first[n] && d in components && d.key in Dependencies(c));
    }
  }

  /** A key is made of ASCII lower-case letters and digits and begins with a letter. */
  lemma KeyIs(key: string)
    ensures TemplateInstalls.IsKey(key) <==>
              && |key| > 0 && 97 <= key[0] as int <= 122
              && forall i :: 0 < i < |key| ==> 97 <= key[i] as int <= 122 || 48 <= key[i] as int <= 57
  {}

  /** An install stores all its bindings, each under its own identifier, or nothing; what was stored stays. */
  lemma InstallOutcome(store: map<string, Binding>, components: seq<Component>, ids: seq<string>, env: Environment)
    ensures var planned := PlanBindings(components, components, env);
            var after := Apply(store, Install(components, ids), env);
            if ValidTemplate(components) && planned.Ok? && Fresh(store, components, ids, planned.value) then
              && after.Keys == store.Keys + (set i | 0 <= i < |ids| :: ids[i])
              && (forall id :: id in store ==> after[id] == store[id])
              && (forall i :: 0 <= i < |ids| ==> after[ids[i]] == planned.value[i])
            else after == store
  {
    hide ValidTemplate, PlanBindings;
    var planned := PlanBindings(components, components, env);
    if planned.Ok? && Fresh(store, components, ids, planned.value) {
      StoredAll(store, ids, planned.value);
    }
    hide StoreAll, Fresh;
  }

  lemma {:induction false} StoredAll(store: map<string, Binding>, ids: seq<string>, bs: seq<Binding>)
    requires |ids| == |bs| && forall i, j :: 0 <= i < j < |ids| ==> ids[i] != ids[j]
    requires forall i :: 0 <= i < |ids| ==> ids[i] !in store
    ensures var after := StoreAll(store, ids, bs);
            && after.Keys == store.Keys + (set i | 0 <= i < |ids| :: ids[i])
            && (forall id :: id in store ==> after[id] == store[id])
            && (forall i :: 0 <= i < |ids| ==> after[ids[i]] == bs[i])
    decreases |ids|
  {
    if bs != [] {
      var n := |bs| - 1;
      StoredAll(store, ids[..n], bs[..n]);
      assert forall i :: 0 <= i < n ==> ids[..n][i] == ids[i];
      assert (set i | 0 <= i < |ids| :: ids[i]) == (set i | 0 <= i < n :: ids[..n][i]) + {ids[n]};
    }
  }
}
