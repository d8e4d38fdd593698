/**
 Build variables overlaid scope by scope: internal/buildenv/environment.go. A scope is given as the
 two decoded maps; a map is walked in any order.
 */
module BuildEnvironment {
  import opened Wrappers
  import opened Text

  const MAX_KEY := 128

  datatype Scope = Scope(variables: map<string, string>, secretRefs: map<string, string>)

  /** What a scope says about a key. */
  datatype Binding = Public(value: string) | Secret(ref: string)

  predicate KeyStart(c: char) {
    c == '_' || 'A' <= c <= 'Z' || 'a' <= c <= 'z'
  }

  predicate IsKey(key: string) {
    && 1 <= |key| <= MAX_KEY
    && KeyStart(key[0])
    && forall i :: 1 <= i < |key| ==> KeyStart(key[i]) || '0' <= key[i] <= '9'
  }

  /** A scope's own binding of a key: a usable secret reference wins over a variable. */
  function Bound(scope: Scope, key: string): Option<Binding> {
    if !IsKey(key) then None
    else if key in scope.secretRefs && !Blank(scope.secretRefs[key]) then Some(Secret(scope.secretRefs[key]))
    else if key in scope.variables then Some(Public(scope.variables[key]))
    else None
  }

  /** The binding of the last scope that has one. */
  function Winning(scopes: seq<Scope>, key: string): Option<Binding> {
    if scopes == [] then None else
    var last := Bound(scopes[|scopes| - 1], key);
    if last.Some? then last else Winning(scopes[..|scopes| - 1], key)
  }

  lemma {:induction false} WinningIsLast(scopes: seq<Scope>, key: string, i: nat)
    requires i < |scopes| && Bound(scopes[i], key).Some?
    requires forall j :: i < j < |scopes| ==> Bound(scopes[j], key).None?
    ensures Winning(scopes, key) == Bound(scopes[i], key)
  {
    hide Bound;
    var n := |scopes| - 1;
    if i < n {
      WinningIsLast(scopes[..n], key, i);
    }
  }

  /** What a build sees of a binding; a secret that resolves to nothing is not set. */
  function Visible(binding: Option<Binding>, resolveSecret: string -> string): Option<string> {
    match binding
    case None => None
    case Some(Public(value)) => Some(value)
    case Some(Secret(ref)) => if resolveSecret(ref) == "" then None else Some(resolveSecret(ref))
  }

  predicate IsSecret(binding: Option<Binding>) {
    binding.Some? && binding.value.Secret?
  }

  class Snapshot {
    var variables: map<string, string>
    var secretRefs: map<string, string>

    constructor ()
      ensures Represents([])
    {
      variables, secretRefs := map[], map[];
    }

    function Lookup(key: string): Option<Binding>
      reads this
    {
      if key in secretRefs then Some(Secret(secretRefs[key]))
      else if key in variables then Some(Public(variables[key]))
      else None
    }

    /** No key is both public and secret, and every key is bound as the last scope that binds it says. */
    ghost predicate Represents(scopes: seq<Scope>)
      reads this
    {
      && variables.Keys !! secretRefs.Keys
      && forall key :: Lookup(key) == Winning(scopes, key)
    }

    /** The first loop: the variables of a scope. */
    method ApplyVariables(public: map<string, string>)
      requires variables.Keys !! secretRefs.Keys
      modifies this
      ensures variables.Keys !! secretRefs.Keys
      ensures forall key ::
                Lookup(key) == if IsKey(key) && key in public then Some(Public(public[key])) else old(Lookup(key))
    {
      hide IsKey;
      var left := public.Keys;
      while left != {}
        invariant left <= public.Keys && variables.Keys !! secretRefs.Keys
        invariant forall key :: Lookup(key)
                    == if IsKey(key) && key in public && key !in left then Some(Public(public[key]))
                        else old(Lookup(key))
      {
        var key :| key in left;
        left := left - {key};
        if !IsKey(key) {
          continue;
        }
        variables := variables[key := public[key]];
        secretRefs := secretRefs - {key};
      }
    }

    /** The second loop: its secret references. */
    method ApplySecretRefs(secret: map<string, string>)
      requires variables.Keys !! secretRefs.Keys
      modifies this
      ensures variables.Keys !! secretRefs.Keys
      ensures forall key :: Lookup(key)
                == if IsKey(key) && key in secret && !Blank(secret[key]) then Some(Secret(secret[key]))
                    else old(Lookup(key))
    {
      hide IsKey, Blank, TrimSpace;
      var left := secret.Keys;
      while left != {}
        invariant left <= secret.Keys && variables.Keys !! secretRefs.Keys
        invariant forall key :: Lookup(key)
                    == if IsKey(key) && key in secret && key !in left && !Blank(secret[key])
                       then Some(Secret(secret[key]))
                       else old(Lookup(key))
      {
        var key :| key in left;
        left := left - {key};
        var ref := secret[key];
        BlankIffTrimmedAway(ref);
        if !IsKey(key) || TrimSpace(ref) == "" {
          continue;
        }
        secretRefs := secretRefs[key := ref];
        variables := variables - {key};
      }
    }

    /** Overlaying one more scope keeps the snapshot equal to looking keys up from the last scope back. */
    method Apply(scope: Scope, ghost scopes: seq<Scope>)
      requires Represents(scopes)
      modifies this
      ensures Represents(scopes + [scope])
    {
      hide IsKey, Blank;
      ApplyVariables(scope.variables);
      ApplySecretRefs(scope.secretRefs);
      assert (scopes + [scope])[..|scopes|] == scopes;
    }

    /** What the build gets, and the values to mask in its logs. */
    method Resolve(resolveSecret: string -> string, ghost scopes: seq<Scope>)
      returns (output: map<string, string>, sensitive: seq<string>)
      requires Represents(scopes)
      ensures forall key ::
                (if key in output then Some(output[key]) else None) == Visible(Winning(scopes, key), resolveSecret)
      ensures forall key :: key in output && IsSecret(Winning(scopes, key)) ==> output[key] in sensitive
      ensures forall value :: value in sensitive ==>
              exists key :: key in output && IsSecret(Winning(scopes, key)) && output[key] == value
      ensures "" !in sensitive
    {
      assert forall key :: Lookup(key).Some? ==> IsKey(key) by {
        BoundKeys(scopes);
      }
      hide IsKey, Winning;
      output := map[];
      var left := variables.Keys;
      while left != {}
        invariant left <= variables.Keys
        invariant output.Keys == variables.Keys - left
        invariant forall key :: key in output ==> output[key] == variables[key]
      {
        var key :| key in left;
        left := left - {key};
        assert Lookup(key).Some?;
        if IsKey(key) {
          output := output[key := variables[key]];
        }
      }
      sensitive := [];
      left := secretRefs.Keys;
      while left != {}
        invariant left <= secretRefs.Keys
        invariant forall key :: key in output <==>
                    key in variables || (key in secretRefs && key !in left && resolveSecret(secretRefs[key]) != "")
        invariant forall key :: key in output ==>
                    output[key] == if key in variables then variables[key] else resolveSecret(secretRefs[key])
        invariant forall key :: key in output && key in secretRefs ==> output[key] in sensitive
        invariant forall value :: value in sensitive ==>
                exists key :: key in output && key in secretRefs && output[key] == value
        invariant "" !in sensitive
      {
        var key :| key in left;
        left := left - {key};
        assert Lookup(key).Some?;
        if !IsKey(key) {
          continue;
        }
        var value := resolveSecret(secretRefs[key]);
        if value != "" {
          output := output[key := value];
          sensitive := sensitive + [value];
        }
      }
      assert forall key :: Lookup(key) == Winning(scopes, key);
    }
  }

  lemma {:induction false} BoundKeys(scopes: seq<Scope>)
    ensures forall key :: Winning(scopes, key).Some? ==> IsKey(key)
  {
    hide IsKey;
    if scopes != [] {
      BoundKeys(scopes[..|scopes| - 1]);
    }
  }

  // ---- What a build sees, told from the scopes ----

  predicate Letter(c: char) {
    65 <= c as int <= 90 || 97 <= c as int <= 122 || c == '_'
  }

  /** One to 128 letters, digits and underscores, of which the first is no digit. */
  predicate Usable(key: string) {
    0 < |key| < 129 && Letter(key[0]) && forall i :: 0 <= i < |key| ==> Letter(key[i]) || 48 <= key[i] as int <= 57
  }

  predicate GivesSecret(scope: Scope, key: string) {
    && Usable(key) && key in scope.secretRefs
    && exists i :: 0 <= i < |scope.secretRefs[key]| && !IsSpace(scope.secretRefs[key][i])
  }

  predicate Gives(scope: Scope, key: string) {
    Usable(key) && (key in scope.variables || GivesSecret(scope, key))
  }

  /** Scope i is the last one that gives the key a value. */
  ghost predicate LastToGive(scopes: seq<Scope>, key: string, i: int) {
    0 <= i < |scopes| && Gives(scopes[i], key) && forall j :: i < j < |scopes| ==> !Gives(scopes[j], key)
  }

  lemma BoundIs(scope: Scope, key: string)
    ensures Bound(scope, key).Some? <==> Gives(scope, key)
    ensures GivesSecret(scope, key) ==> Bound(scope, key) == Some(Secret(scope.secretRefs[key]))
    ensures Gives(scope, key) && !GivesSecret(scope, key) ==> Bound(scope, key) == Some(Public(scope.variables[key]))
  {
    assert IsKey(key) <==> Usable(key);
    hide IsKey, Usable;
  }

  lemma {:induction false} NothingWins(scopes: seq<Scope>, key: string)
    requires forall i :: 0 <= i < |scopes| ==> Bound(scopes[i], key).None?
    ensures Winning(scopes, key) == None
  {
    hide Bound;
    if scopes != [] {
      NothingWins(scopes[..|scopes| - 1], key);
    }
  }

  /**
   A build sees the value of the last scope that gives the key one: the secret it refers to, unless that is
   empty, and otherwise the variable. A key that no scope gives a value is not set.
   */
  lemma SeenIs(scopes: seq<Scope>, key: string, resolveSecret: string -> string, i: int)
    ensures var seen := Visible(Winning(scopes, key), resolveSecret);
            && (LastToGive(scopes, key, i) ==>
                  if GivesSecret(scopes[i], key) then
                    var value := resolveSecret(scopes[i].secretRefs[key]);
                    IsSecret(Winning(scopes, key)) && seen == if |value| > 0 then Some(value) else None
                  else !IsSecret(Winning(scopes, key)) && seen == Some(scopes[i].variables[key]))
            && ((forall j :: 0 <= j < |scopes| ==> !Gives(scopes[j], key)) ==> seen == None)
  {
    forall j | 0 <= j < |scopes|
      ensures Bound(scopes[j], key).Some? <==> Gives(scopes[j], key)
    {
      BoundIs(scopes[j], key);
    }
    if LastToGive(scopes, key, i) {
      BoundIs(scopes[i], key);
      hide Bound, Gives, GivesSecret;
      WinningIsLast(scopes, key, i);
    }
    hide Bound, Gives;
    if forall j :: 0 <= j < |scopes| ==> !Gives(scopes[j], key) {
      NothingWins(scopes, key);
    }
  }
}
