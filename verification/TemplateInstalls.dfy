/**
 Installing a template of several components: a service binding for every reference of one to another
 (internal/api/applicationapi/app_template_handlers.go, internal/appstore/catalog.go).
 */
module TemplateInstalls {
  import opened Wrappers
  import opened Text
  import opened TextOrder
  import opened ServiceBindings

  /** A component with the references its texts make, as found, and the deployment target planned for it. */
  datatype Component = Component(key: string, references: seq<string>, target: Target)

  /** ^[a-z][a-z0-9]*$ */
  predicate IsKey(key: string) {
    key != "" && 'a' <= key[0] <= 'z' && forall i :: 0 <= i < |key| ==> 'a' <= key[i] <= 'z' || '0' <= key[i] <= '9'
  }

  predicate HasKey(components: seq<Component>, key: string) {
    exists c :: c in components && c.key == key
  }

  /** What the catalog demands of a template: distinct keys, and references to other components only. */
  predicate ValidTemplate(components: seq<Component>) {
    && (forall c :: c in components ==> IsKey(c.key))
    && (forall i, j :: 0 <= i < j < |components| ==> components[i].key != components[j].key)
    && (forall c, r :: c in components && r in c.references ==> HasKey(components, r) && r != c.key)
  }

  /** ComponentDependencies: each reference once, in order. */
  function Dependencies(c: Component): seq<string> {
    Compact(SortedTexts(c.references))
  }

  lemma DependenciesAre(c: Component)
    ensures forall key :: key in Dependencies(c) <==> key in c.references
    ensures forall i, j :: 0 <= i < j < |Dependencies(c)| ==> Dependencies(c)[i] != Dependencies(c)[j]
  {
    hide SortedTexts, Compact, Sorted;
    SortedTextsAre(c.references);
    CompactIsDistinct(SortedTexts(c.references));
    forall key
      ensures key in SortedTexts(c.references) <==> key in c.references
    {
      assert key in SortedTexts(c.references) <==> key in multiset(SortedTexts(c.references));
      assert key in c.references <==> key in multiset(c.references);
    }
  }

  /** The planned component under a key: the last one, as the program's map holds it. */
  function Find(components: seq<Component>, key: string): Option<Target> {
    if components == [] then None else
    var c := components[|components| - 1];
    if c.key == key then Some(c.target) else Find(components[..|components| - 1], key)
  }

  function HostVar(key: string, env: Environment): string {
    env.ToUpper(key) + "_HOST"
  }

  function PortVar(key: string, env: Environment): string {
    env.ToUpper(key) + "_PORT"
  }

  function Request(source: Target, target: Target, key: string, env: Environment): Input {
    Input(source.applicationId, source.id, target.applicationId, target.id, "http", 0, "tcp", "", "host_port", "",
          HostVar(key, env), PortVar(key, env), [], None)
  }

  function PlanOne(components: seq<Component>, source: Target, key: string, env: Environment): Result<Binding, Error> {
    match Find(components, key)
    case None => Err(UnknownComponent)
    case Some(target) => Prepare(Request(source, target, key, env), source, target, env)
  }

  /** The bindings of one component to those it depends on. */
  function PlanComponent(components: seq<Component>, source: Target, keys: seq<string>, env: Environment)
    : (r: Result<seq<Binding>, Error>)
    ensures r.Ok? ==> |r.value| == |keys|
  {
    if keys == [] then Ok([]) else
    var n := |keys| - 1;
    match PlanComponent(components, source, keys[..n], env)
    case Err(e) => Err(e)
    case Ok(bs) =>
      match PlanOne(components, source, keys[n], env)
      case Err(e) => Err(e)
      case Ok(b) => Ok(bs + [b])
  }

  /** The bindings of the first components of a template. */
  function PlanBindings(components: seq<Component>, first: seq<Component>, env: Environment)
    : Result<seq<Binding>, Error>
  {
    if first == [] then Ok([]) else
    var n := |first| - 1;
    match PlanBindings(components, first[..n], env)
    case Err(e) => Err(e)
    case Ok(bs) =>
      match PlanComponent(components, first[n].target, Dependencies(first[n]), env)
      case Err(e) => Err(e)
      case Ok(more) => Ok(bs + more)
  }

  method ComponentDependencies(c: Component) returns (keys: seq<string>)
    ensures keys == Dependencies(c)
  {
    var references := SortStrings(c.references);
    keys := Compact(references);
  }

  method TemplateComponentServiceBindings(components: seq<Component>, env: Environment)
    returns (result: Result<seq<Binding>, Error>)
    ensures result == PlanBindings(components, components, env)
  {
    hide PlanOne, Dependencies;
    var bindings: seq<Binding> := [];
    for index := 0 to |components|
      invariant PlanBindings(components, components[..index], env) == Ok(bindings)
    {
      var source := components[index];
      assert components[..index + 1][..index] == components[..index];
      ghost var before := bindings;
      var keys := ComponentDependencies(source);
      for i := 0 to |keys|
        invariant exists more ::
                    PlanComponent(components, source.target, keys[..i], env) == Ok(more) && bindings == before + more
      {
        assert keys[..i + 1][..i] == keys[..i];
        var planned := PlanOne(components, source.target, keys[i], env);
        if planned.Err? {
          PlanFails(components, source.target, keys, i + 1, env);
          PlansFail(components, components, index + 1, env);
          assert components[..|components|] == components;
          return Err(planned.error);
        }
        ghost var more :| PlanComponent(components, source.target, keys[..i], env) == Ok(more)
                          && bindings == before + more;
        bindings := bindings + [planned.value];
        assert bindings == before + (more + [planned.value]);
      }
      assert keys[..|keys|] == keys;
    }
    assert components[..|components|] == components;
    return Ok(bindings);
  }

  /** The first failure is the failure of the whole. */
  lemma {:induction false} PlanFails(components: seq<Component>, source: Target, keys: seq<string>, i: nat,
                                     env: Environment)
    requires i <= |keys| && PlanComponent(components, source, keys[..i], env).Err?
    ensures PlanComponent(components, source, keys, env) == PlanComponent(components, source, keys[..i], env)
    decreases |keys|
  {
    hide PlanOne;
    if i == |keys| {
      assert keys[..i] == keys;
    } else {
      var n := |keys| - 1;
      assert keys[..n][..i] == keys[..i];
      PlanFails(components, source, keys[..n], i, env);
    }
  }

  lemma {:induction false} PlansFail(components: seq<Component>, first: seq<Component>, i: nat, env: Environment)
    requires i <= |first| && PlanBindings(components, first[..i], env).Err?
    ensures PlanBindings(components, first, env) == PlanBindings(components, first[..i], env)
    decreases |first|
  {
    hide PlanComponent, Dependencies;
    if i == |first| {
      assert first[..i] == first;
    } else {
      var n := |first| - 1;
      assert first[..n][..i] == first[..i];
      PlansFail(components, first[..n], i, env);
    }
  }

  // ---- Planned bindings set distinct variables ----

  lemma VariablesAreNames(key: string, env: Environment)
    requires IsKey(key)
    ensures IsName(HostVar(key, env)) && IsName(PortVar(key, env))
  {
    var prefix := env.ToUpper(key);
    assert forall i :: 0 <= i < |key| ==> prefix[i] == env.UpperChar(key[i]);
  }

  /** The variables name their component: no two keys have one in common. */
  lemma VariablesDiffer(a: string, b: string, env: Environment)
    requires IsKey(a) && IsKey(b)
    ensures HostVar(a, env) != PortVar(b, env)
    ensures HostVar(a, env) == HostVar(b, env) || PortVar(a, env) == PortVar(b, env) ==> a == b
  {
    var x, y := env.ToUpper(a), env.ToUpper(b);
    SuffixDiffers(x, y);
    if HostVar(a, env) == HostVar(b, env) || PortVar(a, env) == PortVar(b, env) {
      SamePrefix(x, y, "_HOST");
      SamePrefix(x, y, "_PORT");
      forall i | 0 <= i < |a|
        ensures a[i] == b[i]
      {
        assert x[i] == env.UpperChar(a[i]) && y[i] == env.UpperChar(b[i]);
      }
    }
  }

  lemma SuffixDiffers(x: string, y: string)
    ensures x + "_HOST" != y + "_PORT"
  {
    var m, n := |x| + 3, |y| + 3;
    assert (x + "_HOST")[m] == 'S' && (y + "_PORT")[n] == 'R';
  }

  lemma SamePrefix(x: string, y: string, suffix: string)
    ensures x + suffix == y + suffix ==> x == y
  {
    assert (x + suffix)[..|x|] == x && (y + suffix)[..|y|] == y;
  }

  /** A planned binding starts at its component, and sets the two variables of the key. */
  lemma PlannedBinding(components: seq<Component>, source: Target, key: string, env: Environment)
    requires IsKey(key) && PlanOne(components, source, key, env).Ok?
    ensures var b := PlanOne(components, source, key, env).value;
            Sound(b, env) && b.sourceTarget == source.id && Keys(b) == [HostVar(key, env), PortVar(key, env)]
  {
    var target := Find(components, key).value;
    var x := Request(source, target, key, env);
    AcceptedIsSound(x, source, target, env);
    VariablesAreNames(key, env);
    NameIsFixed(HostVar(key, env), env);
    NameIsFixed(PortVar(key, env), env);
    LowerWordIsFixed("host_port", env);
    AcceptedFields(x, source, target, env);
    hide TrimSpace, Prepare, Sound, IsName, HostVar, PortVar;
    assert Drafted(x, env).mode == "host_port";
  }

  /** No two bindings of one source target share a variable. */
  ghost predicate Apart(bs: seq<Binding>) {
    forall i, j :: 0 <= i < j < |bs| && bs[i].sourceTarget == bs[j].sourceTarget ==> !Shares(bs[i], bs[j])
  }

  lemma {:induction false} ComponentApart(components: seq<Component>, source: Target, keys: seq<string>,
                                          env: Environment)
    requires PlanComponent(components, source, keys, env).Ok?
    requires (forall key :: key in keys ==> IsKey(key)) && forall i, j :: 0 <= i < j < |keys| ==> keys[i] != keys[j]
    ensures var bs := PlanComponent(components, source, keys, env).value;
            && Apart(bs)
            && (forall i :: 0 <= i < |bs| ==> Sound(bs[i], env) && bs[i].sourceTarget == source.id
                                              && Keys(bs[i]) == [HostVar(keys[i], env), PortVar(keys[i], env)])
    decreases |keys|
  {
    hide PlanOne, IsKey, Sound, HostVar, PortVar, Keys;
    if keys != [] {
      var n := |keys| - 1;
      ComponentApart(components, source, keys[..n], env);
      assert keys[n] in keys;
      PlannedBinding(components, source, keys[n], env);
      var bs := PlanComponent(components, source, keys, env).value;
      forall i | 0 <= i < n
        ensures !Shares(bs[i], bs[n])
      {
        assert keys[i] in keys;
        VariablesDiffer(keys[i], keys[n], env);
        VariablesDiffer(keys[n], keys[i], env);
      }
    }
  }

  lemma {:induction false} PlannedApart(components: seq<Component>, first: seq<Component>, env: Environment)
    requires ValidTemplate(components) && first <= components && PlanBindings(components, first, env).Ok?
    requires forall i, j :: 0 <= i < j < |first| ==> first[i].target.id != first[j].target.id
    ensures var bs := PlanBindings(components, first, env).value;
            && Apart(bs)
            && (forall b :: b in bs ==> Sound(b, env) && exists c :: c in first && b.sourceTarget == c.target.id)
    decreases |first|
  {
    hide PlanComponent, Dependencies, Sound, Shares, IsKey, Keys;
    if first != [] {
      var n := |first| - 1;
      PlannedApart(components, first[..n], env);
      assert first[n] == components[n] && first[n] in components;
      DependenciesAre(first[n]);
      forall key | key in Dependencies(first[n])
        ensures IsKey(key)
      {
        assert HasKey(components, key);
        var c :| c in components && c.key == key;
      }
      ComponentApart(components, first[n].target, Dependencies(first[n]), env);
      var bs := PlanBindings(components, first[..n], env).value;
      var more := PlanComponent(components, first[n].target, Dependencies(first[n]), env).value;
      ApartTogether(bs, more, first, env);
    }
  }

  /** Bindings of the components before, and those of the last one. */
  lemma ApartTogether(bs: seq<Binding>, more: seq<Binding>, first: seq<Component>, env: Environment)
    requires first != [] && forall i, j :: 0 <= i < j < |first| ==> first[i].target.id != first[j].target.id
    requires Apart(bs) && Apart(more)
    requires forall b :: b in bs ==>
               Sound(b, env) && exists c :: c in first[..|first| - 1] && b.sourceTarget == c.target.id
    requires forall i :: 0 <= i < |more| ==> Sound(more[i], env) && more[i].sourceTarget == first[|first| - 1].target.id
    ensures Apart(bs + more)
    ensures forall b :: b in bs + more ==> Sound(b, env) && exists c :: c in first && b.sourceTarget == c.target.id
  {
    hide Sound, Shares;
    var n := |first| - 1;
    forall b | b in bs
      ensures b.sourceTarget != first[n].target.id
    {
      var c :| c in first[..n] && b.sourceTarget == c.target.id;
    }
    forall b | b in bs + more
      ensures Sound(b, env) && exists c :: c in first && b.sourceTarget == c.target.id
    {
      if b in bs {
        var c :| c in first[..n] && b.sourceTarget == c.target.id;
        assert c in first;
      } else {
        assert b in more && first[n] in first;
      }
    }
    forall i, j | 0 <= i < j < |bs + more| && (bs + more)[i].sourceTarget == (bs + more)[j].sourceTarget
      ensures !Shares((bs + more)[i], (bs + more)[j])
    {
      if i < |bs| {
        assert bs[i] in bs;
      }
    }
  }
}
