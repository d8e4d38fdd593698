/** When a service binding is accepted and what is stored of it, in terms of the input as it comes. */
module BindingPreparation {
  import opened Wrappers
  import opened Text
  import opened ServiceBindings

  // ---- The text fields ----

  /** One character in the other case; characters outside ASCII are mapped as the environment says. */
  predicate Cased(c: char, d: char, first: char, last: char, toLower: bool, other: char -> char) {
    var n := c as int;
    if first <= c <= last then d as int == if toLower then n + 32 else n - 32
    else if n < 128 then d == c
    else d == other(c)
  }

  /** The text without surrounding white space, in lower case. */
  ghost predicate Lowered(raw: string, text: string, env: Environment) {
    && |text| == |TrimSpace(raw)|
    && forall i :: 0 <= i < |text| ==> Cased(TrimSpace(raw)[i], text[i], 'A', 'Z', true, env.lower)
  }

  ghost predicate Raised(raw: string, text: string, env: Environment) {
    && |text| == |TrimSpace(raw)|
    && forall i :: 0 <= i < |text| ==> Cased(TrimSpace(raw)[i], text[i], 'a', 'z', false, env.upper)
  }

  /** The fields that are stored of an input, but for the port. */
  ghost predicate StoredFrom(x: Input, b: Binding, env: Environment) {
    && b.sourceApplication == TrimSpace(x.sourceApplication) && b.sourceTarget == TrimSpace(x.sourceTarget)
    && b.targetApplication == TrimSpace(x.targetApplication) && b.targetTarget == TrimSpace(x.targetTarget)
    && Lowered(x.protocol, b.protocol, env) && b.path == TrimSpace(x.path) && Lowered(x.mode, b.mode, env)
    && Raised(x.urlVar, b.urlVar, env) && Raised(x.hostVar, b.hostVar, env) && Raised(x.portVar, b.portVar, env)
    && b.secrets == x.secrets && (b.enabled <==> x.enabled != Some(false))
  }

  // ---- The port ----

  /** Port i has a valid number that no earlier port of the target has. */
  predicate Counts(ports: seq<Port>, i: int) {
    && 0 <= i < |ports| && 1 <= ports[i].port <= 65535
    && forall j :: 0 <= j < i ==> ports[j].port != ports[i].port
  }

  /** The name of a port; a blank one stands for "port". */
  predicate Called(p: Port, name: string) {
    name == if Blank(p.name) then "port" else TrimSpace(p.name)
  }

  /** Port i is one of the name and number asked for; a blank name and a number below 1 ask for any. */
  ghost predicate Asked(x: Input, ports: seq<Port>, i: int) {
    && Counts(ports, i)
    && (Blank(x.portName) || Called(ports[i], TrimSpace(x.portName)))
    && (x.port < 1 || x.port == ports[i].port)
  }

  ghost predicate PortFrom(x: Input, target: Target, number: int, name: string) {
    exists i :: Asked(x, target.servicePorts, i) && (forall j :: 0 <= j < i ==> !Asked(x, target.servicePorts, j))
                && number == target.servicePorts[i].port && Called(target.servicePorts[i], name)
  }

  // ---- The checks ----

  ghost predicate SecretsTold(x: Input) {
    forall s :: s in x.secrets ==> !Blank(s.sourceEnvVar) && !Blank(s.targetSecretKey)
  }

  /** The targets that were looked up are those of the input. */
  ghost predicate Placed(x: Input, source: Target, target: Target) {
    && source.id == TrimSpace(x.sourceTarget) && source.applicationId == TrimSpace(x.sourceApplication)
    && target.id == TrimSpace(x.targetTarget) && target.applicationId == TrimSpace(x.targetApplication)
  }

  /** A URL binding names one variable, a host and port binding two different ones; only HTTP has URLs and paths. */
  predicate Shaped(b: Binding, env: Environment) {
    && (b.protocol == "http" || b.protocol == "https" || b.protocol == "tcp")
    && (b.mode == "url" || b.mode == "host_port")
    && (b.mode == "url" ==> b.protocol in ["http", "https"] && |b.urlVar| > 0 && |b.hostVar| == |b.portVar| == 0)
    && (b.mode == "host_port" ==> |b.urlVar| == 0 && |b.hostVar| > 0 && |b.portVar| > 0 && b.hostVar != b.portVar)
    && (|b.path| > 0 ==>
          && b.path[0] == '/' && (|b.path| == 1 || b.path[1] != '/') && env.plainPath(b.path)
          && b.protocol in ["http", "https"])
  }

  predicate AsciiDigit(c: char) {
    48 <= c as int <= 57
  }

  /** A name of capital letters, digits and underscores that does not begin with a digit. */
  predicate Name(s: string) {
    && |s| > 0 && !AsciiDigit(s[0])
    && forall i :: 0 <= i < |s| ==> AsciiDigit(s[i]) || 65 <= s[i] as int <= 90 || s[i] as int == 95
  }

  ghost predicate Platforms(s: string) {
    exists rest :: s == "LUNA_" + rest || s == "KUBERNETES_" + rest
  }

  /** The variables a binding sets. */
  predicate Sets(b: Binding, key: string) {
    if b.mode == "url" then key == b.urlVar else key == b.hostVar || key == b.portVar
  }

  ghost predicate Free(b: Binding, source: Target) {
    forall key :: Sets(b, key) ==> Name(key) && !Platforms(key) && key !in source.envKeys
  }

  /** Everything that is asked of a binding before it is stored. */
  ghost predicate Accepts(x: Input, source: Target, target: Target, env: Environment, b: Binding) {
    && StoredFrom(x, b, env) && SecretsTold(x) && Placed(x, source, target)
    && source.id != target.id && source.clusterId == target.clusterId
    && PortFrom(x, target, b.port, b.portName)
    && Shaped(b, env) && Free(b, source)
  }

  // ---- Texts ----

  lemma LoweredIs(raw: string, text: string, env: Environment)
    ensures Lowered(raw, text, env) <==> text == env.ToLower(TrimSpace(raw))
  {
    hide TrimSpace;
  }

  lemma RaisedIs(raw: string, text: string, env: Environment)
    ensures Raised(raw, text, env) <==> text == env.ToUpper(TrimSpace(raw))
  {
    hide TrimSpace;
  }

  lemma StoredIsDraft(x: Input, b: Binding, env: Environment)
    ensures StoredFrom(x, b, env) <==> b == Drafted(x, env).(portName := b.portName, port := b.port)
  {
    hide TrimSpace, Lowered, Raised;
    LoweredIs(x.protocol, b.protocol, env);
    LoweredIs(x.mode, b.mode, env);
    RaisedIs(x.urlVar, b.urlVar, env);
    RaisedIs(x.hostVar, b.hostVar, env);
    RaisedIs(x.portVar, b.portVar, env);
  }

  lemma SecretsAre(x: Input)
    ensures SecretsTold(x) <==> CompleteSecrets(x.secrets)
  {
    forall s: Secret
      ensures (Blank(s.sourceEnvVar) <==> TrimSpace(s.sourceEnvVar) == "")
           && (Blank(s.targetSecretKey) <==> TrimSpace(s.targetSecretKey) == "")
    {
      BlankIffTrimmedAway(s.sourceEnvVar);
      BlankIffTrimmedAway(s.targetSecretKey);
    }
    hide TrimSpace, Blank;
    forall i | 0 <= i < |x.secrets|
      ensures x.secrets[i] in x.secrets
    {}
  }

  // ---- Names ----

  lemma NameIs(s: string)
    ensures Name(s) <==> IsName(s)
  {}

  lemma PlatformsAre(s: string)
    ensures Platforms(s) <==> Reserved(s)
  {
    if "LUNA_" <= s {
      assert s == "LUNA_" + s[5..];
    }
    if "KUBERNETES_" <= s {
      assert s == "KUBERNETES_" + s[11..];
    }
    assert "LUNA_DEVOPS_" <= s ==> "LUNA_" <= s by {
      assert "LUNA_" <= "LUNA_DEVOPS_";
    }
  }

  lemma KeysAre(b: Binding, key: string)
    ensures key in Keys(b) <==> Sets(b, key)
  {
    if b.mode != "url" {
      assert Keys(b)[0] == b.hostVar && Keys(b)[1] == b.portVar;
    } else {
      assert Keys(b)[0] == b.urlVar;
    }
  }

  lemma {:induction false} ValidExactly(keys: seq<string>)
    ensures ValidateKeys(keys) == None <==> forall key :: key in keys ==> Name(key) && !Platforms(key)
  {
    hide Name, IsName, Platforms, Reserved;
    if keys != [] {
      ValidExactly(keys[1..]);
      NameIs(keys[0]);
      PlatformsAre(keys[0]);
      assert keys == [keys[0]] + keys[1..];
    }
  }

  lemma FreeIs(b: Binding, source: Target)
    ensures Free(b, source) <==> ValidateKeys(Keys(b)) == None && !Clashes(Keys(b), source.envKeys)
  {
    ValidExactly(Keys(b));
    hide Name, Platforms, Keys, ValidateKeys, Sets;
    forall key
      ensures key in Keys(b) <==> Sets(b, key)
    {
      KeysAre(b, key);
    }
    assert Clashes(Keys(b), source.envKeys) <==> exists key :: key in Keys(b) && key in source.envKeys;
  }

  lemma ShapedIs(b: Binding, env: Environment)
    ensures Shaped(b, env) <==> ValidShape(b, env)
  {}

  // ---- Ports ----

  /** How a port that counts is offered. */
  function Offered(p: Port): Port {
    Port(if TrimSpace(p.name) == "" then "port" else TrimSpace(p.name), p.port, TrimSpace(p.appProtocol))
  }

  lemma CalledIs(p: Port, name: string)
    ensures Called(p, name) <==> name == Offered(p).name
  {
    BlankIffTrimmedAway(p.name);
    hide TrimSpace, Blank;
  }

  lemma {:induction false} NumbersOffered(ports: seq<Port>, number: int)
    ensures Offers(Usable(ports), number)
       <==> 1 <= number <= 65535 && exists i :: 0 <= i < |ports| && ports[i].port == number
  {
    hide TrimSpace;
    if ports != [] {
      var n := |ports| - 1;
      NumbersOffered(ports[..n], number);
      assert forall i :: 0 <= i < n ==> ports[..n][i] == ports[i];
      OffersMore(Usable(ports[..n]), Offered(ports[n]));
    }
  }

  /** The ports a target offers are those that count, in order. */
  lemma {:induction false} UsableAre(ports: seq<Port>) returns (at: seq<nat>)
    ensures |at| == |Usable(ports)| && forall k, l :: 0 <= k < l < |at| ==> at[k] < at[l]
    ensures forall k :: 0 <= k < |at| ==> Counts(ports, at[k])
    ensures forall k :: 0 <= k < |at| ==> at[k] < |ports| && Usable(ports)[k] == Offered(ports[at[k]])
    ensures forall i :: Counts(ports, i) ==> i in at
  {
    hide TrimSpace;
    at := [];
    if ports != [] {
      var n := |ports| - 1;
      at := UsableAre(ports[..n]);
      assert forall i :: 0 <= i < n ==> ports[..n][i] == ports[i];
      assert forall i :: 0 <= i < n ==> (Counts(ports[..n], i) <==> Counts(ports, i));
      NumbersOffered(ports[..n], ports[n].port);
      hide Offers;
      if Counts(ports, n) {
        at := at + [n];
      }
    }
  }

  /** The port that is stored is the first that counts and is asked for. */
  lemma PortIs(x: Input, target: Target, number: int, name: string)
    ensures var found := FirstFit(Normalized(target.servicePorts, 0), TrimSpace(x.portName), x.port);
            PortFrom(x, target, number, name) <==> found.Some? && found.value.port == number && found.value.name == name
  {
    var ports := target.servicePorts;
    var at := UsableAre(ports);
    BlankIffTrimmedAway(x.portName);
    forall i | Counts(ports, i)
      ensures Asked(x, ports, i) <==> Fits(Offered(ports[i]), TrimSpace(x.portName), x.port)
      ensures Called(ports[i], Offered(ports[i]).name)
    {
      CalledIs(ports[i], TrimSpace(x.portName));
      CalledIs(ports[i], Offered(ports[i]).name);
    }
    hide Counts, Called, Blank, Usable, Fits, Offered, TrimSpace;
    var k := FirstIndex(Usable(ports), TrimSpace(x.portName), x.port);
  }

  lemma {:induction false} FirstIndex(ports: seq<Port>, name: string, number: int) returns (k: nat)
    ensures k <= |ports| && forall j :: 0 <= j < k ==> !Fits(ports[j], name, number)
    ensures FirstFit(ports, name, number) == if k == |ports| then None else Some(ports[k])
    ensures k < |ports| ==> Fits(ports[k], name, number)
  {
    hide Fits;
    k := 0;
    if ports != [] && !Fits(ports[0], name, number) {
      var rest := FirstIndex(ports[1..], name, number);
      assert forall j :: 1 <= j < |ports| ==> ports[j] == ports[1..][j - 1];
      k := rest + 1;
    }
  }

  // ---- The outcome ----

  lemma StoredPlaces(x: Input, source: Target, target: Target, env: Environment)
    ensures var d := Drafted(x, env);
            Placed(x, source, target)
            <==> && source.id == d.sourceTarget && source.applicationId == d.sourceApplication
                 && target.id == d.targetTarget && target.applicationId == d.targetApplication
  {
    hide TrimSpace;
  }

  lemma DraftedPort(x: Input, env: Environment)
    ensures Drafted(x, env).port == x.port && Drafted(x, env).secrets == x.secrets
    ensures TrimSpace(Drafted(x, env).portName) == TrimSpace(x.portName)
  {
    TrimSpaceTwice(x.portName);
    hide TrimSpace;
  }

  /** An input is accepted with exactly these fields, and otherwise refused. */
  lemma PreparedExactly(x: Input, source: Target, target: Target, env: Environment, b: Binding)
    ensures Prepare(x, source, target, env) == Ok(b) <==> Accepts(x, source, target, env, b)
  {
    StoredIsDraft(x, b, env);
    SecretsAre(x);
    StoredPlaces(x, source, target, env);
    DraftedPort(x, env);
    PortIs(x, target, b.port, b.portName);
    ShapedIs(b, env);
    FreeIs(b, source);
    hide TrimSpace, Drafted, StoredFrom, SecretsTold, CompleteSecrets, Placed, PortFrom, Shaped, ValidShape, Free;
    hide FirstFit, Normalized, ValidateKeys, Clashes, Keys;
  }

  /** Of several reasons to refuse an input, the first in this order is given. */
  lemma RefusedFor(x: Input, source: Target, target: Target, env: Environment)
    ensures var r := Prepare(x, source, target, env);
            if !SecretsTold(x) then r == Err(InvalidInput)
            else if !Placed(x, source, target) then r == Err(CrossProject)
            else if source.id == target.id then r == Err(SourceTargetSame)
            else if source.clusterId != target.clusterId then r == Err(CrossCluster)
            else (forall number, name :: !PortFrom(x, target, number, name)) ==> r == Err(PortNotFound)
  {
    SecretsAre(x);
    StoredPlaces(x, source, target, env);
    DraftedPort(x, env);
    var found := FirstFit(Normalized(target.servicePorts, 0), TrimSpace(x.portName), x.port);
    if found.Some? {
      PortIs(x, target, found.value.port, found.value.name);
    }
    hide TrimSpace, Drafted, SecretsTold, CompleteSecrets, Placed, PortFrom, ValidShape;
    hide FirstFit, Normalized, ValidateKeys, Clashes, Keys;
  }

  /** Why the name of a variable is refused. */
  ghost predicate Spoils(key: string, e: Error) {
    if !Name(key) then e == InvalidInput else Platforms(key) && e == ReservedEnv
  }

  /** With a port there are still the shape, the names in order, and the deployment's own variables. */
  lemma RefusedForFields(x: Input, source: Target, target: Target, env: Environment, b: Binding)
    requires SecretsTold(x) && Placed(x, source, target)
    requires source.id != target.id && source.clusterId == target.clusterId
    requires StoredFrom(x, b, env) && PortFrom(x, target, b.port, b.portName)
    ensures var r := Prepare(x, source, target, env);
            var first := if b.mode == "url" then b.urlVar else b.hostVar;
            if !Shaped(b, env) then r == Err(InvalidInput)
            else if exists e :: Spoils(first, e) then forall e :: Spoils(first, e) ==> r == Err(e)
            else if b.mode != "url" && exists e :: Spoils(b.portVar, e) then
              forall e :: Spoils(b.portVar, e) ==> r == Err(e)
            else r == if exists key :: Sets(b, key) && key in source.envKeys then Err(EnvConflict) else Ok(b)
  {
    CheckedFields(x, source, target, env, b);
    ShapedIs(b, env);
    FirstSpoils(b);
    FreeIs(b, source);
    forall key
      ensures key in Keys(b) <==> Sets(b, key)
    {
      KeysAre(b, key);
    }
    hide Prepare, Keys, ValidateKeys, Spoils, Name, Platforms, Shaped, ValidShape, Sets;
    assert Clashes(Keys(b), source.envKeys) <==> exists key :: key in Keys(b) && key in source.envKeys;
  }

  lemma CheckedFields(x: Input, source: Target, target: Target, env: Environment, b: Binding)
    requires SecretsTold(x) && Placed(x, source, target)
    requires source.id != target.id && source.clusterId == target.clusterId
    requires StoredFrom(x, b, env) && PortFrom(x, target, b.port, b.portName)
    ensures Prepare(x, source, target, env)
            == if !ValidShape(b, env) then Err(InvalidInput)
               else if ValidateKeys(Keys(b)).Some? then Err(ValidateKeys(Keys(b)).value)
               else if Clashes(Keys(b), source.envKeys) then Err(EnvConflict)
               else Ok(b)
  {
    StoredIsDraft(x, b, env);
    SecretsAre(x);
    StoredPlaces(x, source, target, env);
    DraftedPort(x, env);
    PortIs(x, target, b.port, b.portName);
    hide TrimSpace, Drafted, StoredFrom, SecretsTold, CompleteSecrets, Placed, PortFrom, ValidShape;
    hide FirstFit, Normalized, ValidateKeys, Clashes, Keys;
  }

  lemma FirstSpoils(b: Binding)
    ensures var first := if b.mode == "url" then b.urlVar else b.hostVar;
            var error := ValidateKeys(Keys(b));
            if exists e :: Spoils(first, e) then error.Some? && Spoils(first, error.value)
            else if b.mode != "url" && exists e :: Spoils(b.portVar, e) then
              error.Some? && Spoils(b.portVar, error.value)
            else error == None
    ensures forall key, e, f :: Spoils(key, e) && Spoils(key, f) ==> e == f
  {
    SpoilsIs(b.urlVar);
    SpoilsIs(b.hostVar);
    SpoilsIs(b.portVar);
    HeadFirst([b.hostVar, b.portVar]);
    assert [b.hostVar, b.portVar][1..] == [b.portVar];
    hide Spoils, ValidateKeys;
  }

  lemma HeadFirst(keys: seq<string>)
    requires keys != []
    ensures var first := ValidateKeys([keys[0]]);
            ValidateKeys(keys) == if first.Some? then first else ValidateKeys(keys[1..])
  {
    hide IsName, Reserved;
    assert [keys[0]][1..] == [];
  }

  lemma SpoilsIs(key: string)
    ensures forall e :: Spoils(key, e) <==> ValidateKeys([key]) == Some(e)
  {
    NameIs(key);
    PlatformsAre(key);
    hide IsName, Reserved, Name, Platforms;
    assert [key][1..] == [];
  }
}
