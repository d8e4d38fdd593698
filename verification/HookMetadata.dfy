/**
 The metadata file of a build hook: HookMetadataEnv and shellQuote of internal/builder/payload.go
 write it, and the executor script internal/builder/executor/run.sh reads it with the dot command.
 */
module HookMetadata {
  import opened Wrappers
  import opened Numerals
  import opened Text

  datatype Hook = Hook(name: string, shell: string, timeoutSeconds: int, failurePolicy: string)

  // ---- Writing ----

  /** strings.ReplaceAll(value, "'", `'\''`) */
  function ReplaceQuotes(value: string): string {
    if value == "" then ""
    else (if value[0] == '\'' then "'\\''" else [value[0]]) + ReplaceQuotes(value[1..])
  }

  function ShellQuote(value: string): string {
    "'" + ReplaceQuotes(value) + "'"
  }

  function Shell(hook: Hook): string {
    if TrimSpace(hook.shell) == "bash" then "bash" else "sh"
  }

  function TimeoutSeconds(hook: Hook): nat {
    if hook.timeoutSeconds <= 0 then 300 else hook.timeoutSeconds
  }

  function Assign(name: string, word: string): string {
    name + ("=" + word + "\n")
  }

  function HookMetadataEnv(hook: Hook): string {
    Assign("HOOK_NAME", ShellQuote(hook.name))
    + Assign("HOOK_SHELL", ShellQuote(Shell(hook)))
    + Assign("HOOK_TIMEOUT_SECONDS", Decimal(TimeoutSeconds(hook)))
    + Assign("HOOK_FAILURE_POLICY", ShellQuote(hook.failurePolicy))
  }

  // ---- Reading: sections 2.2.1, 2.2.2 and 2.9.1 of the POSIX.1-2017 Shell Command Language ----

  const NUL: char := '\0'

  /** A word after quote removal, and the text behind it. */
  datatype Word = Word(value: string, rest: string)

  /** Characters that end a word, expand, or start a command: no assignment may hold them unquoted. */
  predicate Active(c: char) {
    c == NUL || c in " \t\"$`|&;<>()~"
  }

  function Literal(c: char, word: Option<Word>): Option<Word> {
    match word
    case None => None
    case Some(w) => Some(Word([c] + w.value, w.rest))
  }

  /** The rest of a word outside quotes; None when the shell would do more than remove quotes. */
  function Unquoted(s: string): Option<Word>
    decreases |s|
  {
    if s == "" || s[0] == '\n' then Some(Word("", s))
    else if s[0] == '\'' then Quoted(s[1..])
    else if s[0] == '\\' then
      if |s| == 1 || s[1] == NUL then None
      else if s[1] == '\n' then Unquoted(s[2..])
      else Literal(s[1], Unquoted(s[2..]))
    else if Active(s[0]) then None
    else Literal(s[0], Unquoted(s[1..]))
  }

  /** The rest of a word inside single quotes. */
  function Quoted(s: string): Option<Word>
    decreases |s|
  {
    if s == "" || s[0] == NUL then None
    else if s[0] == '\'' then Unquoted(s[1..])
    else Literal(s[0], Quoted(s[1..]))
  }

  predicate NameChar(c: char) {
    'A' <= c <= 'Z' || 'a' <= c <= 'z' || c == '_' || '0' <= c <= '9'
  }

  function NameLength(s: string): (n: nat)
    ensures n <= |s|
  {
    if s != "" && NameChar(s[0]) then 1 + NameLength(s[1..]) else 0
  }

  /**
   The variables after a file of assignments is read in with the dot command; None when it holds
   anything else, so that a value is a promise that nothing was run or expanded.
   */
  function Source(variables: map<string, string>, s: string): Option<map<string, string>>
    decreases |s|
  {
    if s == "" then Some(variables) else
    var n := NameLength(s);
    if n == 0 || '0' <= s[0] <= '9' || n == |s| || s[n] != '=' then None else
    match Unquoted(s[n + 1..])
    case None => None
    case Some(w) =>
      if w.rest == "" then Some(variables[s[..n] := w.value])
      else if |w.rest| >= |s| then None
      else Source(variables[s[..n] := w.value], w.rest[1..])
  }

  // ---- The round trip ----

  lemma QuotedStep(c: char, tail: string)
    ensures c == '\'' ==> Quoted("'\\''" + tail) == Literal('\'', Quoted(tail))
    ensures c != '\'' ==> Quoted([c] + tail) == if c == NUL then None else Literal(c, Quoted(tail))
  {
    assert ([c] + tail)[1..] == tail;
    assert ("'" + tail)[1..] == tail;
    assert Unquoted("'" + tail) == Quoted(tail);
    var escaped := "\\''" + tail;
    assert escaped[2..] == "'" + tail;
    assert Unquoted(escaped) == Literal('\'', Unquoted("'" + tail));
    assert ("'\\''" + tail)[1..] == escaped;
  }

  lemma QuotedEnd(rest: string)
    requires rest == "" || rest[0] == '\n'
    ensures Quoted("'" + rest) == Some(Word("", rest))
  {
    assert ("'" + rest)[1..] == rest;
  }

  lemma {:induction false} QuotedReadsBack(value: string, rest: string)
    requires rest == "" || rest[0] == '\n'
    ensures Quoted(ReplaceQuotes(value) + "'" + rest) == if NUL in value then None else Some(Word(value, rest))
  {
    hide Quoted, Unquoted;
    if value == "" {
      assert ReplaceQuotes(value) + "'" + rest == "'" + rest;
      QuotedEnd(rest);
    } else {
      QuotedReadsBack(value[1..], rest);
      QuotedStep(value[0], ReplaceQuotes(value[1..]) + "'" + rest);
      var head := if value[0] == '\'' then "'\\''" else [value[0]];
      assert ReplaceQuotes(value) + "'" + rest == head + (ReplaceQuotes(value[1..]) + "'" + rest);
      assert value == [value[0]] + value[1..];
    }
  }

  lemma WordReadsBack(value: string, rest: string)
    requires rest == "" || rest[0] == '\n'
    ensures Unquoted(ShellQuote(value) + rest) == if NUL in value then None else Some(Word(value, rest))
  {
    QuotedReadsBack(value, rest);
    assert (ShellQuote(value) + rest)[1..] == ReplaceQuotes(value) + "'" + rest;
  }

  lemma {:induction false} PlainReadsBack(value: string, rest: string)
    requires forall i :: 0 <= i < |value| ==> NameChar(value[i])
    requires rest == "" || rest[0] == '\n'
    ensures Unquoted(value + rest) == Some(Word(value, rest))
  {
    if value == "" {
      assert value + rest == rest;
    } else {
      PlainReadsBack(value[1..], rest);
      assert (value + rest)[1..] == value[1..] + rest;
      assert value == [value[0]] + value[1..];
    }
  }

  lemma {:induction false} NameReadsBack(name: string, rest: string)
    requires forall i :: 0 <= i < |name| ==> NameChar(name[i])
    requires rest == "" || !NameChar(rest[0])
    ensures NameLength(name + rest) == |name|
  {
    if name == "" {
      assert name + rest == rest;
    } else {
      assert (name + rest)[1..] == name[1..] + rest;
      NameReadsBack(name[1..], rest);
    }
  }

  predicate IsName(name: string) {
    name != "" && !('0' <= name[0] <= '9') && forall i :: 0 <= i < |name| ==> NameChar(name[i])
  }

  /** One line of the file sets one variable, or stops the shell when its value holds a NUL. */
  lemma AssignmentReadsBack(variables: map<string, string>, name: string, word: string, value: Option<string>,
                            rest: string)
    requires IsName(name)
    requires Unquoted(word + ("\n" + rest)) == if value.None? then None else Some(Word(value.value, "\n" + rest))
    ensures Source(variables, Assign(name, word) + rest)
         == if value.None? then None else Source(variables[name := value.value], rest)
  {
    hide Unquoted, NameLength;
    var tail := "=" + (word + ("\n" + rest));
    var s := Assign(name, word) + rest;
    assert s == name + tail;
    NameReadsBack(name, tail);
    assert s[|name| + 1..] == word + ("\n" + rest);
    assert s[..|name|] == name;
    assert ("\n" + rest)[1..] == rest;
  }

  lemma DecimalIsPlain(n: nat)
    ensures forall i :: 0 <= i < |Decimal(n)| ==> NameChar(Decimal(n)[i])
  {
    assert Digits(Decimal(n));
  }

  lemma QuotedLine(variables: map<string, string>, name: string, value: string, rest: string)
    requires IsName(name)
    ensures Source(variables, Assign(name, ShellQuote(value)) + rest)
         == if NUL in value then None else Source(variables[name := value], rest)
  {
    hide Source, Unquoted, ShellQuote, Assign, IsName;
    WordReadsBack(value, "\n" + rest);
    AssignmentReadsBack(variables, name, ShellQuote(value), if NUL in value then None else Some(value), rest);
  }

  lemma NumberLine(variables: map<string, string>, name: string, n: nat, rest: string)
    requires IsName(name)
    ensures Source(variables, Assign(name, Decimal(n)) + rest) == Source(variables[name := Decimal(n)], rest)
  {
    hide Source, Unquoted, Decimal, Assign, IsName;
    DecimalIsPlain(n);
    PlainReadsBack(Decimal(n), "\n" + rest);
    AssignmentReadsBack(variables, name, Decimal(n), Some(Decimal(n)), rest);
  }

  /**
   Whatever the hook says, reading its metadata sets exactly the four variables to the hook's own
   name, normalised shell, timeout and failure policy; the only texts that cannot be carried are
   those that hold a NUL character.
   */
  lemma SourcingRecoversTheHook(variables: map<string, string>, hook: Hook)
    ensures Source(variables, HookMetadataEnv(hook))
         == if NUL in hook.name || NUL in hook.failurePolicy then None
            else Some(variables["HOOK_NAME" := hook.name]
                               ["HOOK_SHELL" := if TrimSpace(hook.shell) == "bash" then "bash" else "sh"]
                               ["HOOK_TIMEOUT_SECONDS" := Decimal(if hook.timeoutSeconds > 0 then hook.timeoutSeconds
                                                                 else 300)]
                               ["HOOK_FAILURE_POLICY" := hook.failurePolicy])
  {
    hide Source, ShellQuote, Decimal, TrimSpace, Assign, IsName;
    var policy := Assign("HOOK_FAILURE_POLICY", ShellQuote(hook.failurePolicy));
    var fromTimeout := Assign("HOOK_TIMEOUT_SECONDS", Decimal(TimeoutSeconds(hook))) + policy;
    var fromShell := Assign("HOOK_SHELL", ShellQuote(Shell(hook))) + fromTimeout;
    assert HookMetadataEnv(hook) == Assign("HOOK_NAME", ShellQuote(hook.name)) + fromShell;
    HookNames();
    QuotedLine(variables, "HOOK_NAME", hook.name, fromShell);
    var v1 := variables["HOOK_NAME" := hook.name];
    QuotedLine(v1, "HOOK_SHELL", Shell(hook), fromTimeout);
    var v2 := v1["HOOK_SHELL" := Shell(hook)];
    NumberLine(v2, "HOOK_TIMEOUT_SECONDS", TimeoutSeconds(hook), policy);
    var v3 := v2["HOOK_TIMEOUT_SECONDS" := Decimal(TimeoutSeconds(hook))];
    assert policy + "" == policy;
    QuotedLine(v3, "HOOK_FAILURE_POLICY", hook.failurePolicy, "");
    EndOfFile(v3["HOOK_FAILURE_POLICY" := hook.failurePolicy]);
  }

  /** Nothing that the shell would act upon is read as text unless it is quoted. */
  lemma ActiveIsRefused(c: char, rest: string)
    requires c == NUL || c == ' ' || c == '\t' || c == '"' || c == '$' || c == '`' || c == '|' || c == '&' || c == ';'
             || c == '<' || c == '>' || c == '(' || c == ')' || c == '~'
    ensures Unquoted([c] + rest) == None
  {
    var active := " \t\"$`|&;<>()~";
    assert active[0] == ' ' && active[1] == '\t' && active[2] == '"' && active[3] == '$' && active[4] == '`';
    assert active[5] == '|' && active[6] == '&' && active[7] == ';' && active[8] == '<' && active[9] == '>';
    assert active[10] == '(' && active[11] == ')' && active[12] == '~';
  }

  lemma HookNames()
    ensures IsName("HOOK_NAME") && IsName("HOOK_SHELL")
    ensures IsName("HOOK_TIMEOUT_SECONDS") && IsName("HOOK_FAILURE_POLICY")
  {}

  lemma EndOfFile(variables: map<string, string>)
    ensures Source(variables, "") == Some(variables)
  {}
}
