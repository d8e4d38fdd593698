/**
 Collapsing the white space of a fetched page: normalizeExtractedText of internal/aitool/web.go. The
 specification replaces each run of white space between two words by a separator that depends on the
 run alone; the loop decides one character at a time.
 */
module ExtractedText {
  import opened Text

  predicate IsNewline(c: char) {
    c == '\n' || c == '\r'
  }

  function Newlines(run: string): nat {
    if run == "" then 0 else Newlines(run[..|run| - 1]) + if IsNewline(run[|run| - 1]) then 1 else 0
  }

  function Lead(run: string): string {
    if run != "" && !IsNewline(run[0]) then " " else ""
  }

  function Breaks(newlines: nat): string {
    if newlines == 0 then "" else if newlines == 1 then "\n" else "\n\n"
  }

  /** At most one space, then at most two newlines: a carriage return counts as a newline of its own. */
  function Separator(run: string): string {
    Lead(run) + Breaks(Newlines(run))
  }

  /** The words of s, every run of white space behind a word replaced by its separator. */
  function Compact(s: string): string
    decreases |s|
  {
    if s == "" then ""
    else if !IsSpace(s[|s| - 1]) then Compact(s[..|s| - 1]) + [s[|s| - 1]]
    else
      TrimRightParts(s);
      var words := TrimRight(s);
      if words == "" then "" else Compact(words) + Separator(s[|words|..])
  }

  function Normalized(value: string): string {
    Compact(TrimSpace(value))
  }

  // ---- One character at a time ----

  function Run(s: string): string
    ensures |TrimRight(s)| + |Run(s)| == |s|
  {
    TrimRightParts(s);
    s[|TrimRight(s)|..]
  }

  lemma TrimRightStep(s: string, c: char)
    ensures !IsSpace(c) ==> TrimRight(s + [c]) == s + [c] && Run(s + [c]) == ""
    ensures IsSpace(c) ==> TrimRight(s + [c]) == TrimRight(s) && Run(s + [c]) == Run(s) + [c]
  {
    assert (s + [c])[..|s|] == s;
    TrimRightParts(s);
    TrimRightParts(s + [c]);
  }

  lemma BreaksStep(newlines: nat)
    ensures Breaks(newlines + 1) == Breaks(newlines) + if newlines < 2 then "\n" else ""
  {}

  lemma LeadStep(run: string, c: char)
    ensures Lead(run + [c]) == if run == "" && !IsNewline(c) then " " else Lead(run)
    ensures Newlines(run + [c]) == Newlines(run) + if IsNewline(c) then 1 else 0
  {
    assert (run + [c])[..|run|] == run;
  }

  lemma SeparatorStep(run: string, c: char)
    ensures Newlines(run + [c]) == Newlines(run) + if IsNewline(c) then 1 else 0
    ensures IsNewline(c) ==> Separator(run + [c]) == Separator(run) + if Newlines(run) < 2 then "\n" else ""
    ensures !IsNewline(c) ==> Separator(run + [c]) == Separator(run) + if run == "" then " " else ""
  {
    assert Newlines("") == 0 && Lead("") == "" && Breaks(0) == "" by { Start(); }
    hide Newlines, IsNewline, Lead, Breaks;
    LeadStep(run, c);
    BreaksStep(Newlines(run));
  }

  lemma {:induction false} WordsRemain(s: string)
    requires s != "" && !IsSpace(s[0])
    ensures TrimRight(s) != ""
  {
    if IsSpace(s[|s| - 1]) {
      WordsRemain(s[..|s| - 1]);
    }
  }

  lemma SplitRun(s: string)
    ensures TrimRight(s) != "" ==> Compact(s) == Compact(TrimRight(s)) + Separator(Run(s))
  {
    hide IsSpace;
    if s != "" && !IsSpace(s[|s| - 1]) {
      Start();
      assert TrimRight(s) == s && Run(s) == "";
    }
  }

  lemma CompactWord(s: string, c: char)
    requires !IsSpace(c)
    ensures Compact(s + [c]) == Compact(s) + [c]
  {
    assert (s + [c])[..|s|] == s;
  }

  lemma CompactStep(s: string, c: char)
    requires s != "" ==> !IsSpace(s[0])
    requires s == "" ==> !IsSpace(c)
    ensures !IsSpace(c) ==> Compact(s + [c]) == Compact(s) + [c]
    ensures IsSpace(c) && IsNewline(c) ==> Compact(s + [c]) == Compact(s) + if Newlines(Run(s)) < 2 then "\n" else ""
    ensures IsSpace(c) && !IsNewline(c) ==> Compact(s + [c]) == Compact(s) + if Run(s) == "" then " " else ""
  {
    hide Compact, TrimRight, Run, Separator, IsSpace, IsNewline, Newlines;
    if IsSpace(c) {
      WordsRemain(s);
      TrimRightStep(s, c);
      SeparatorStep(Run(s), c);
      SplitRun(s);
      SplitRun(s + [c]);
    } else {
      CompactWord(s, c);
    }
  }

  lemma FlagsStep(s: string, c: char)
    ensures !IsSpace(c) ==> Run(s + [c]) == ""
    ensures IsSpace(c) ==>
              Run(s + [c]) != "" && Newlines(Run(s + [c])) == Newlines(Run(s)) + if IsNewline(c) then 1 else 0
  {
    TrimRightStep(s, c);
    TrimRightParts(s);
    if IsSpace(c) {
      SeparatorStep(Run(s), c);
    }
  }

  lemma TrimmedEnds(value: string)
    ensures var s := TrimSpace(value); s != "" ==> !IsSpace(s[0]) && !IsSpace(s[|s| - 1])
  {
    TrimLeftParts(value);
    TrimRightParts(TrimLeft(value));
  }

  lemma Start()
    ensures Compact("") == "" && Run("") == "" && Newlines("") == 0 && Separator("") == ""
  {}

  // ---- What the result looks like ----

  /**
   Starts with a word; white space is spaces and newlines only; a space never follows white space;
   there are never three newlines in a row.
   */
  predicate Tidy(s: string) {
    && (s != "" ==> !IsSpace(s[0]))
    && (forall i :: 0 <= i < |s| && IsSpace(s[i]) ==> s[i] == ' ' || s[i] == '\n')
    && (forall i :: 0 < i < |s| && s[i] == ' ' ==> !IsSpace(s[i - 1]))
    && (forall i :: 1 < i < |s| && s[i] == '\n' && s[i - 1] == '\n' ==> s[i - 2] != '\n')
  }

  predicate EndsInWord(s: string) {
    s != "" ==> !IsSpace(s[|s| - 1])
  }

  lemma TidyWord(s: string, c: char)
    requires Tidy(s) && !IsSpace(c)
    ensures Tidy(s + [c]) && EndsInWord(s + [c])
  {}

  lemma TidySeparator(s: string, run: string)
    requires Tidy(s) && EndsInWord(s) && s != ""
    ensures Tidy(s + Separator(run))
  {
    hide Newlines;
    var r := s + Separator(run);
    assert r == s + Lead(run) + Breaks(Newlines(run));
  }

  lemma {:induction false} CompactIsTidy(s: string)
    requires s != "" ==> !IsSpace(s[0])
    ensures Tidy(Compact(s))
    ensures EndsInWord(s) ==> EndsInWord(Compact(s))
    ensures s != "" ==> Compact(s) != ""
    decreases |s|
  {
    hide Tidy, Separator;
    if s == "" {
      NothingIsTidy();
    } else if !IsSpace(s[|s| - 1]) {
      CompactIsTidy(s[..|s| - 1]);
      TidyWord(Compact(s[..|s| - 1]), s[|s| - 1]);
    } else {
      TrimRightParts(s);
      WordsRemain(s);
      CompactIsTidy(TrimRight(s));
      TidySeparator(Compact(TrimRight(s)), s[|TrimRight(s)|..]);
    }
  }

  lemma NothingIsTidy()
    ensures Tidy("")
  {}

  lemma TidyStartsWithWord(s: string)
    requires Tidy(s) && s != ""
    ensures !IsSpace(s[0])
  {}

  lemma TidyPrefix(s: string, i: nat)
    requires Tidy(s) && i <= |s|
    ensures Tidy(s[..i])
  {}

  lemma TidyAt(s: string, i: nat)
    requires Tidy(s) && i < |s| && IsSpace(s[i])
    ensures s[i] == ' ' || s[i] == '\n'
    ensures i > 0 && IsSpace(s[i - 1]) ==> s[i] == '\n'
    ensures i > 1 && s[i] == '\n' && s[i - 1] == '\n' ==> s[i - 2] != '\n'
  {}

  /** In tidy text a run of white space is its own separator. */
  lemma TidyRun(s: string, i: nat)
    requires Tidy(s) && 0 < i < |s| && !IsSpace(s[i - 1]) && Blank(s[i..])
    ensures Separator(s[i..]) == s[i..]
  {
    hide Tidy, IsSpace, Separator;
    var run := s[i..];
    assert forall k :: 0 <= k < |run| ==> run[k] == s[i + k] && IsSpace(run[k]);
    forall k | 0 < k < |run|
      ensures run[k] == '\n'
    {
      assert run[k] == s[i + k] && run[k - 1] == s[i + (k - 1)];
      TidyAt(s, i + k);
    }
    TidyAt(s, i);
    if |run| > 2 {
      TidyAt(s, i + 2);
      assert s[i] == ' ';
    }
    if |run| > 3 {
      TidyAt(s, i + 3);
    }
    ShortRun(run);
  }

  lemma ShortRun(run: string)
    requires 0 < |run| <= 3
    requires run[0] == ' ' || run[0] == '\n'
    requires forall k :: 0 < k < |run| ==> run[k] == '\n'
    requires |run| == 3 ==> run[0] == ' '
    ensures Separator(run) == run
  {
    assert Newlines("") == 0;
    assert run[..1][..0] == "";
    assert Newlines(run[..1]) == if run[0] == '\n' then 1 else 0;
    if |run| == 1 {
      assert run == run[..1];
    } else {
      assert run[..2][..1] == run[..1];
      assert Newlines(run[..2]) == Newlines(run[..1]) + 1;
      if |run| == 2 {
        assert run == run[..2];
      }
    }
  }

  lemma TidyTail(s: string) returns (n: nat)
    requires Tidy(s) && s != "" && IsSpace(s[|s| - 1])
    ensures 0 < n < |s| && TrimRight(s) == s[..n] && Separator(s[n..]) == s[n..]
  {
    hide Tidy, Separator;
    TrimRightParts(s);
    TidyStartsWithWord(s);
    WordsRemain(s);
    n := |TrimRight(s)|;
    TidyRun(s, n);
  }

  lemma {:induction false} TidyIsFixed(s: string)
    requires Tidy(s)
    ensures Compact(s) == s
    decreases |s|
  {
    hide Tidy, Separator, TrimRight, IsSpace;
    if s == "" {
    } else if !IsSpace(s[|s| - 1]) {
      TidyPrefix(s, |s| - 1);
      TidyIsFixed(s[..|s| - 1]);
    } else {
      var n := TidyTail(s);
      TidyPrefix(s, n);
      TidyIsFixed(s[..n]);
      assert s == s[..n] + s[n..];
    }
  }

  /**
   The texts that normalising leaves alone are exactly the tidy ones that end in a word, and every
   result is one of them: normalising twice is normalising once.
   */
  lemma NormalizedExactly(value: string)
    ensures Tidy(Normalized(value)) && EndsInWord(Normalized(value))
    ensures Normalized(value) == value <==> Tidy(value) && EndsInWord(value)
    ensures Normalized(Normalized(value)) == Normalized(value)
  {
    hide Compact, TrimSpace, Tidy;
    TrimmedEnds(value);
    CompactIsTidy(TrimSpace(value));
    if Tidy(value) && EndsInWord(value) {
      TidyIsNormal(value);
    }
    TidyIsNormal(Normalized(value));
  }

  lemma TidyIsNormal(s: string)
    requires Tidy(s) && EndsInWord(s)
    ensures Normalized(s) == s
  {
    hide Compact, TrimSpace, Tidy;
    if s != "" {
      TidyStartsWithWord(s);
    }
    TrimSpaceFixed(s);
    TidyIsFixed(s);
  }

  // ---- No word is lost ----

  /** What is left of a text without its white space. */
  function Solid(s: string): string {
    if s == "" then "" else Solid(s[..|s| - 1]) + if IsSpace(s[|s| - 1]) then "" else [s[|s| - 1]]
  }

  lemma {:induction false} SolidBlankTail(s: string, blank: string)
    requires Blank(blank)
    ensures Solid(s + blank) == Solid(s)
  {
    if blank == "" {
      assert s + blank == s;
    } else {
      SolidBlankTail(s, blank[..|blank| - 1]);
      assert (s + blank)[..|s + blank| - 1] == s + blank[..|blank| - 1];
    }
  }

  lemma {:induction false} SolidBlankHead(blank: string, s: string)
    requires Blank(blank)
    ensures Solid(blank + s) == Solid(s)
  {
    if s == "" {
      assert blank + s == "" + blank;
      SolidBlankTail("", blank);
    } else {
      SolidBlankHead(blank, s[..|s| - 1]);
      assert (blank + s)[..|blank + s| - 1] == blank + s[..|s| - 1];
    }
  }

  lemma SolidStep(s: string, c: char)
    ensures Solid(s + [c]) == Solid(s) + if IsSpace(c) then "" else [c]
  {
    assert (s + [c])[..|s|] == s;
  }

  lemma {:induction false} CompactKeepsWords(s: string)
    requires s != "" ==> !IsSpace(s[0])
    ensures Solid(Compact(s)) == Solid(s)
    decreases |s|
  {
    hide Solid, Separator, IsSpace, Compact, TrimRight;
    if s == "" {
      Start();
    } else {
      var p, c := s[..|s| - 1], s[|s| - 1];
      assert s == p + [c];
      if !IsSpace(c) {
        CompactKeepsWords(p);
        CompactStep(p, c);
        SolidStep(p, c);
        SolidStep(Compact(p), c);
      } else {
        TrimRightParts(s);
        WordsRemain(s);
        TrimRightStep(p, c);
        SplitRun(s);
        var words := TrimRight(s);
        CompactKeepsWords(words);
        SeparatorIsBlank(Run(s));
        SolidBlankTail(Compact(words), Separator(Run(s)));
        SolidBlankTail(words, Run(s));
        assert s == words + Run(s);
      }
    }
  }

  lemma SeparatorIsBlank(run: string)
    ensures Blank(Separator(run))
  {}

  /** Every character that is not white space comes through, in order. */
  lemma NormalizedKeepsWords(value: string)
    ensures Solid(Normalized(value)) == Solid(value)
  {
    hide Compact, Solid, IsSpace;
    var left := TrimLeft(value);
    TrimLeftParts(value);
    TrimRightParts(left);
    TrimmedEnds(value);
    CompactKeepsWords(TrimSpace(value));
    var i, j := |value| - |left|, |TrimSpace(value)|;
    assert value == value[..i] + left && left == TrimSpace(value) + left[j..];
    SolidBlankHead(value[..i], left);
    SolidBlankTail(TrimSpace(value), left[j..]);
  }

  // ---- The loop ----

  method NormalizeExtractedText(value: string) returns (text: string)
    ensures text == Normalized(value)
  {
    hide Compact, TrimSpace, TrimRight, Newlines, Run;
    var trimmed := TrimSpace(value);
    TrimmedEnds(value);
    var builder, space, newlines := "", false, 0;
    Start();
    for i := 0 to |trimmed|
      invariant builder == Compact(trimmed[..i])
      invariant builder == "" <==> i == 0
      invariant newlines == Newlines(Run(trimmed[..i]))
      invariant !space && newlines == 0 <==> Run(trimmed[..i]) == ""
    {
      var current := trimmed[i];
      assert trimmed[..i + 1] == trimmed[..i] + [current];
      CompactStep(trimmed[..i], current);
      FlagsStep(trimmed[..i], current);
      if current == '\n' || current == '\r' {
        if |builder| > 0 && newlines < 2 {
          builder := builder + "\n";
        }
        newlines := newlines + 1;
        space := false;
      } else if IsSpace(current) {
        if |builder| > 0 && !space && newlines == 0 {
          builder := builder + " ";
        }
        space := true;
      } else {
        builder := builder + [current];
        space := false;
        newlines := 0;
      }
    }
    assert trimmed[..|trimmed|] == trimmed;
    CompactIsTidy(trimmed);
    assert builder != "" ==> !IsSpace(builder[0]);
    TrimSpaceFixed(builder);
    text := TrimSpace(builder);
  }
}
