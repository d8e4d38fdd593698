/**
 Service bindings between deployment targets: internal/dependency/service.go and the port rules of
 internal/model/deployment.go. What the URL parser says of a path, the case mappings of characters
 outside ASCII, and the resources behind identifiers are inputs.
 */
module ServiceBindings {
  import opened Wrappers
  import opened Text

  datatype Port = Port(name: string, port: int, appProtocol: string)

  /** envKeys are the upper-cased keys of the deployment's own environment. */
  datatype Target = Target(id: string, applicationId: string, clusterId: string, servicePorts: seq<Port>,
                           envKeys: set<string>)

  datatype Secret = Secret(sourceEnvVar: string, targetSecretKey: string)

  datatype Input = Input(sourceApplication: string, sourceTarget: string, targetApplication: string,
                         targetTarget: string, portName: string, port: int, protocol: string, path: string,
                         mode: string, urlVar: string, hostVar: string, portVar: string, secrets: seq<Secret>,
                         enabled: Option<bool>)

  datatype Binding = Binding(sourceApplication: string, sourceTarget: string, targetApplication: string,
                             targetTarget: string, portName: string, port: int, protocol: string, path: string,
                             mode: string, urlVar: string, hostVar: string, portVar: string, secrets: seq<Secret>,
                             enabled: bool)

  datatype Error =
    InvalidInput | CrossProject | SourceTargetSame | CrossCluster | PortNotFound | ReservedEnv | EnvConflict
    | UnknownComponent

  /**
   Go maps characters one by one; only the part outside ASCII is left open. A plain path is one that
   parses as a URL without scheme, host, query and fragment.
   */
  datatype Environment = Environment(lower: char -> char, upper: char -> char, plainPath: string -> bool)
  {
    function LowerChar(c: char): char {
      if 'A' <= c <= 'Z' then c - 'A' + 'a' else if c < '\U{80}' then c else lower(c)
    }

    function UpperChar(c: char): char {
      if 'a' <= c <= 'z' then c - 'a' + 'A' else if c < '\U{80}' then c else upper(c)
    }

    function ToLower(s: string): string {
      seq(|s|, i requires 0 <= i < |s| => LowerChar(s[i]))
    }

    function ToUpper(s: string): string {
      seq(|s|, i requires 0 <= i < |s| => UpperChar(s[i]))
    }
  }

  // ---- Ports ----

  predicate Offers(ports: seq<Port>, number: int) {
    exists i :: 0 <= i < |ports| && ports[i].port == number
  }

  /** Ports with valid numbers, each once, all named. */
  function Usable(ports: seq<Port>): seq<Port> {
    if ports == [] then [] else
    var rest, p := Usable(ports[..|ports| - 1]), ports[|ports| - 1];
    if p.port <= 0 || p.port > 65535 || Offers(rest, p.port) then rest
    else rest + [Port(if TrimSpace(p.name) == "" then "port" else TrimSpace(p.name), p.port, TrimSpace(p.appProtocol))]
  }

  /** NormalizeDeploymentServicePorts: without any usable port the fallback is offered, if it is one. */
  function Normalized(ports: seq<Port>, fallbackPort: int): seq<Port> {
    if Usable(ports) == [] && 0 < fallbackPort <= 65535 then [Port("http", fallbackPort, "")] else Usable(ports)
  }

  predicate Fits(p: Port, name: string, number: int) {
    (name == "" || p.name == name) && (number <= 0 || p.port == number)
  }

  function FirstFit(ports: seq<Port>, name: string, number: int): (r: Option<Port>)
    ensures r.Some? ==> r.value in ports && Fits(r.value, name, number)
    ensures r.None? ==> forall p :: p in ports ==> !Fits(p, name, number)
  {
    if ports == [] then None
    else if Fits(ports[0], name, number) then Some(ports[0])
    else FirstFit(ports[1..], name, number)
  }

  ghost predicate WellNumbered(ports: seq<Port>) {
    && (forall p :: p in ports ==> 1 <= p.port <= 65535 && p.name != "" && TrimSpace(p.name) == p.name)
    && (forall i, j :: 0 <= i < j < |ports| ==> ports[i].port != ports[j].port)
  }

  lemma {:induction false} UsableIsWellNumbered(ports: seq<Port>)
    ensures WellNumbered(Usable(ports))
  {
    hide TrimSpace;
    if ports != [] {
      var p := ports[|ports| - 1];
      UsableIsWellNumbered(ports[..|ports| - 1]);
      TrimSpaceTwice(p.name);
      PortIsTrimmed();
    }
  }

  lemma NormalizedIsWellNumbered(ports: seq<Port>, fallbackPort: int)
    ensures WellNumbered(Normalized(ports, fallbackPort))
    ensures Normalized(ports, fallbackPort) == [] <==>
              !(0 < fallbackPort <= 65535) && forall p :: p in ports ==> !(0 < p.port <= 65535)
  {
    UsableIsWellNumbered(ports);
    NothingUsable(ports);
    hide TrimSpace, Usable;
    PortIsTrimmed();
  }

  lemma {:induction false} NothingUsable(ports: seq<Port>)
    ensures Usable(ports) == [] <==> forall p :: p in ports ==> !(0 < p.port <= 65535)
  {
    hide TrimSpace;
    if ports != [] {
      var n := |ports| - 1;
      NothingUsable(ports[..n]);
      assert ports == ports[..n] + [ports[n]];
    }
  }

  lemma PortIsTrimmed()
    ensures TrimSpace("port") == "port" && TrimSpace("http") == "http"
  {}

  /** Asking again with the answer's own name and number gives the same answer. */
  lemma FitsItself(ports: seq<Port>, p: Port)
    requires WellNumbered(ports) && p in ports
    ensures FirstFit(ports, p.name, p.port) == Some(p)
  {
    hide TrimSpace;
    assert Fits(p, p.name, p.port);
    var q := FirstFit(ports, p.name, p.port).value;
    var i :| 0 <= i < |ports| && ports[i] == p;
    var j :| 0 <= j < |ports| && ports[j] == q;
  }

  // ---- Preparing a binding ----

  function Keys(b: Binding): seq<string> {
    if b.mode == "url" then [b.urlVar] else [b.hostVar, b.portVar]
  }

  predicate NameChar(c: char) {
    c == '_' || 'A' <= c <= 'Z'
  }

  /** ^[A-Z_][A-Z0-9_]*$ */
  predicate IsName(s: string) {
    s != "" && NameChar(s[0]) && forall i :: 0 <= i < |s| ==> NameChar(s[i]) || '0' <= s[i] <= '9'
  }

  predicate Reserved(s: string) {
    "LUNA_" <= s || "LUNA_DEVOPS_" <= s || "KUBERNETES_" <= s
  }

  function ValidateKeys(keys: seq<string>): Option<Error> {
    if keys == [] then None
    else if !IsName(keys[0]) then Some(InvalidInput)
    else if Reserved(keys[0]) then Some(ReservedEnv)
    else ValidateKeys(keys[1..])
  }

  predicate ValidShape(b: Binding, env: Environment) {
    && b.protocol in ["http", "https", "tcp"]
    && (if b.mode == "url" then b.protocol != "tcp" && b.urlVar != "" && b.hostVar == "" && b.portVar == ""
        else b.mode == "host_port" && b.urlVar == "" && b.hostVar != "" && b.portVar != "" && b.hostVar != b.portVar)
    && (b.path != "" ==> "/" <= b.path && !("//" <= b.path) && env.plainPath(b.path) && b.protocol != "tcp")
  }

  /** The fields as PrepareServiceBinding first writes them. */
  function Drafted(x: Input, env: Environment): Binding {
    Binding(TrimSpace(x.sourceApplication), TrimSpace(x.sourceTarget), TrimSpace(x.targetApplication),
            TrimSpace(x.targetTarget), TrimSpace(x.portName), x.port, env.ToLower(TrimSpace(x.protocol)),
            TrimSpace(x.path), env.ToLower(TrimSpace(x.mode)),
            env.ToUpper(TrimSpace(x.urlVar)), env.ToUpper(TrimSpace(x.hostVar)), env.ToUpper(TrimSpace(x.portVar)),
            x.secrets, x.enabled.None? || x.enabled.value)
  }

  predicate CompleteSecrets(secrets: seq<Secret>) {
    forall i :: 0 <= i < |secrets| ==>
        TrimSpace(secrets[i].sourceEnvVar) != "" && TrimSpace(secrets[i].targetSecretKey) != ""
  }

  predicate Clashes(keys: seq<string>, taken: set<string>) {
    exists i :: 0 <= i < |keys| && keys[i] in taken
  }

  /** The checks on a drafted binding, in the program's order. */
  function Checked(d: Binding, source: Target, target: Target, env: Environment): Result<Binding, Error> {
    if !CompleteSecrets(d.secrets) then Err(InvalidInput)
    else if source.id != d.sourceTarget || source.applicationId != d.sourceApplication
         || target.id != d.targetTarget || target.applicationId != d.targetApplication then Err(CrossProject)
    else if source.id == target.id then Err(SourceTargetSame)
    else if source.clusterId != target.clusterId then Err(CrossCluster)
    else
      match FirstFit(Normalized(target.servicePorts, 0), TrimSpace(d.portName), d.port)
      case None => Err(PortNotFound)
      case Some(p) =>
        var b := d.(portName := p.name, port := p.port);
        if !ValidShape(b, env) then Err(InvalidInput)
        else if ValidateKeys(Keys(b)).Some? then Err(ValidateKeys(Keys(b)).value)
        else if Clashes(Keys(b), source.envKeys) then Err(EnvConflict)
        else Ok(b)
  }

  function Prepare(x: Input, source: Target, target: Target, env: Environment): Result<Binding, Error> {
    Checked(Drafted(x, env), source, target, env)
  }

  // ---- The same, field by field ----

  method NormalizeServicePorts(ports: seq<Port>, fallbackPort: int) returns (normalized: seq<Port>)
    ensures normalized == Normalized(ports, fallbackPort)
  {
    hide TrimSpace;
    normalized := [];
    var seen: set<int> := {};
    for i := 0 to |ports|
      invariant normalized == Usable(ports[..i])
      invariant forall number :: number in seen <==> Offers(normalized, number)
    {
      assert ports[..i + 1][..i] == ports[..i];
      var port := ports[i].port;
      if port <= 0 || port > 65535 || port in seen {
        continue;
      }
      var name := TrimSpace(ports[i].name);
      if name == "" {
        name := "port";
      }
      seen := seen + {port};
      ghost var before := normalized;
      normalized := normalized + [Port(name, port, TrimSpace(ports[i].appProtocol))];
      OffersMore(before, normalized[|before|]);
    }
    assert ports[..|ports|] == ports;
    if normalized == [] && fallbackPort > 0 && fallbackPort <= 65535 {
      return [Port("http", fallbackPort, "")];
    }
  }

  lemma OffersMore(ports: seq<Port>, p: Port)
    ensures forall number :: Offers(ports + [p], number) <==> Offers(ports, number) || number == p.port
  {
    forall number
      ensures Offers(ports + [p], number) <==> Offers(ports, number) || number == p.port
    {
      assert (ports + [p])[|ports|] == p;
      if i :| 0 <= i < |ports| && ports[i].port == number {
        assert (ports + [p])[i].port == number;
      }
    }
  }

  method ResolveTargetPort(target: Target, text: string, number: int) returns (port: Option<Port>)
    ensures port == FirstFit(Normalized(target.servicePorts, 0), TrimSpace(text), number)
  {
    hide TrimSpace, Normalized;
    var name := TrimSpace(text);
    var ports := NormalizeServicePorts(target.servicePorts, 0);
    for i := 0 to |ports|
      invariant FirstFit(ports, name, number) == FirstFit(ports[i..], name, number)
    {
      var candidate := ports[i];
      if name != "" && candidate.name != name {
        continue;
      }
      if number > 0 && candidate.port != number {
        continue;
      }
      return Some(candidate);
    }
    return None;
  }

  class ServiceBinding {
    var row: Binding

    constructor (row: Binding)
      ensures this.row == row
    {
      this.row := row;
    }

    /** An accepted binding holds the prepared fields; a refused one may be left with a draft, which is never stored. */
    method PrepareServiceBinding(x: Input, source: Target, target: Target, env: Environment)
      returns (error: Option<Error>)
      modifies this
      ensures match Prepare(x, source, target, env)
              case Ok(b) => error == None && row == b
              case Err(e) => error == Some(e) && row == Drafted(x, env).(portName := row.portName, port := row.port)
    {
      hide TrimSpace, Normalized, FirstFit, ValidShape, ValidateKeys, CompleteSecrets, Clashes, Keys;
      row := Drafted(x, env);
      if !CompleteSecrets(x.secrets) {
        return Some(InvalidInput);
      }
      if source.id != row.sourceTarget || source.applicationId != row.sourceApplication
         || target.id != row.targetTarget || target.applicationId != row.targetApplication {
        return Some(CrossProject);
      }
      if source.id == target.id {
        return Some(SourceTargetSame);
      }
      if source.clusterId != target.clusterId {
        return Some(CrossCluster);
      }
      var port := ResolveTargetPort(target, row.portName, row.port);
      if port.None? {
        return Some(PortNotFound);
      }
      row := row.(portName := port.value.name, port := port.value.port);
      if !ValidShape(row, env) {
        return Some(InvalidInput);
      }
      error := ValidateKeys(Keys(row));
      if error == None && Clashes(Keys(row), source.envKeys) {
        return Some(EnvConflict);
      }
    }
  }

  /** What a form shows of a stored binding, to be sent again. */
  function InputOf(b: Binding): Input {
    Input(b.sourceApplication, b.sourceTarget, b.targetApplication, b.targetTarget, b.portName, b.port, b.protocol,
        b.path, b.mode, b.urlVar, b.hostVar, b.portVar, b.secrets, Some(b.enabled))
  }

  // ---- Accepted bindings are accepted again ----

  lemma LowerWordIsFixed(s: string, env: Environment)
    requires s in ["http", "https", "tcp", "url", "host_port"]
    ensures env.ToLower(TrimSpace(s)) == s
  {
    TrimSpaceFixed(s);
    assert forall i :: 0 <= i < |s| ==> env.LowerChar(s[i]) == s[i];
  }

  lemma NameIsFixed(s: string, env: Environment)
    requires s == "" || IsName(s)
    ensures env.ToUpper(TrimSpace(s)) == s
  {
    TrimSpaceFixed(s);
    assert forall i :: 0 <= i < |s| ==> env.UpperChar(s[i]) == s[i];
  }

  ghost predicate Sound(b: Binding, env: Environment) {
    && ValidShape(b, env)
    && ValidateKeys(Keys(b)) == None
    && forall key :: key in Keys(b) ==> IsName(key) && !Reserved(key)
  }

  lemma AcceptedIsSound(x: Input, source: Target, target: Target, env: Environment)
    requires Prepare(x, source, target, env).Ok?
    ensures Sound(Prepare(x, source, target, env).value, env)
  {
    hide TrimSpace, Drafted, Normalized, FirstFit;
    ValidKeysAre(Keys(Prepare(x, source, target, env).value));
  }

  /** An accepted binding is the draft with a port. */
  lemma AcceptedFields(x: Input, source: Target, target: Target, env: Environment)
    requires Prepare(x, source, target, env).Ok?
    ensures var b := Prepare(x, source, target, env).value;
            b == Drafted(x, env).(portName := b.portName, port := b.port) && b.sourceTarget == source.id
  {
    hide TrimSpace, Drafted, Normalized, FirstFit, ValidShape, ValidateKeys, CompleteSecrets, Clashes, Keys;
  }

  lemma {:induction false} ValidKeysAre(keys: seq<string>)
    requires ValidateKeys(keys) == None
    ensures forall key :: key in keys ==> IsName(key) && !Reserved(key)
  {
    hide IsName, Reserved;
    if keys != [] {
      ValidKeysAre(keys[1..]);
      assert keys == [keys[0]] + keys[1..];
    }
  }

  /** A resolved port resolves to itself. */
  lemma PortAgain(target: Target, name: string, number: int)
    requires FirstFit(Normalized(target.servicePorts, 0), name, number).Some?
    ensures var ports := Normalized(target.servicePorts, 0);
            var p := FirstFit(ports, name, number).value;
            TrimSpace(p.name) == p.name && FirstFit(ports, p.name, p.port) == Some(p)
  {
    var ports := Normalized(target.servicePorts, 0);
    NormalizedIsWellNumbered(target.servicePorts, 0);
    FitsItself(ports, FirstFit(ports, name, number).value);
    hide Normalized, TrimSpace;
  }

  /** The checks accept their own result, port and all. */
  lemma CheckedAgain(d: Binding, source: Target, target: Target, env: Environment)
    requires Checked(d, source, target, env).Ok?
    ensures var b := Checked(d, source, target, env).value;
            && Checked(b, source, target, env) == Ok(b)
            && b == d.(portName := b.portName, port := b.port)
            && TrimSpace(b.portName) == b.portName
  {
    hide TrimSpace, Normalized, FirstFit, ValidShape, ValidateKeys, CompleteSecrets, Clashes, Keys;
    PortAgain(target, TrimSpace(d.portName), d.port);
  }

  /** The fields of a sound binding are fixed points of the trimming and case mapping of a draft. */
  lemma DraftedAgain(x: Input, portName: string, port: int, env: Environment)
    requires Sound(Drafted(x, env).(portName := portName, port := port), env) && TrimSpace(portName) == portName
    ensures var b := Drafted(x, env).(portName := portName, port := port);
            Drafted(InputOf(b), env) == b
  {
    var b := Drafted(x, env).(portName := portName, port := port);
    TrimSpaceTwice(x.sourceApplication);
    TrimSpaceTwice(x.sourceTarget);
    TrimSpaceTwice(x.targetApplication);
    TrimSpaceTwice(x.targetTarget);
    TrimSpaceTwice(x.path);
    SoundTexts(b, env);
    LowerWordIsFixed(b.protocol, env);
    LowerWordIsFixed(b.mode, env);
    NameIsFixed(b.urlVar, env);
    NameIsFixed(b.hostVar, env);
    NameIsFixed(b.portVar, env);
    hide TrimSpace, IsName, Reserved, ValidateKeys, Sound;
  }

  lemma SoundTexts(b: Binding, env: Environment)
    requires Sound(b, env)
    ensures b.protocol in ["http", "https", "tcp", "url", "host_port"]
            && b.mode in ["http", "https", "tcp", "url", "host_port"]
    ensures (b.urlVar == "" || IsName(b.urlVar)) && (b.hostVar == "" || IsName(b.hostVar))
            && (b.portVar == "" || IsName(b.portVar))
  {
    hide IsName, Reserved, ValidateKeys;
    if b.mode == "url" {
      assert b.urlVar in Keys(b);
    } else {
      assert b.hostVar in Keys(b) && b.portVar in Keys(b);
    }
  }

  /** Sending an accepted binding's own fields again is accepted and changes none of them. */
  lemma PreparedAgain(x: Input, source: Target, target: Target, env: Environment)
    requires Prepare(x, source, target, env).Ok?
    ensures Prepare(InputOf(Prepare(x, source, target, env).value), source, target, env)
            == Prepare(x, source, target, env)
  {
    hide TrimSpace, Checked, Drafted, Sound, InputOf;
    var b := Prepare(x, source, target, env).value;
    AcceptedIsSound(x, source, target, env);
    CheckedAgain(Drafted(x, env), source, target, env);
    DraftedAgain(x, b.portName, b.port, env);
  }

  // ---- Shared variables ----

  ghost predicate Shares(a: Binding, b: Binding) {
    exists key :: key in Keys(a) && key in Keys(b)
  }

  /** For sound bindings the query over all three columns finds exactly the shared variables. */
  lemma ConflictIsSharing(a: Binding, b: Binding, env: Environment)
    requires Sound(a, env) && Sound(b, env)
    ensures (a.urlVar in Keys(b) || a.hostVar in Keys(b) || a.portVar in Keys(b)) <==> Shares(a, b)
  {
    hide Reserved, ValidateKeys;
    assert "" !in Keys(b);
    if a.mode == "url" {
      assert Keys(a) == [a.urlVar];
      assert a.urlVar in Keys(a);
    } else {
      assert Keys(a) == [a.hostVar, a.portVar];
      assert a.hostVar in Keys(a) && a.portVar in Keys(a);
    }
  }
}
