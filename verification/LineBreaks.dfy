/** How normalizeExtractedText of internal/aitool/web.go treats Windows line breaks. */
module LineBreaks {
  import opened Text
  import opened ExtractedText

  /** strings.ReplaceAll(s, "\r\n", "\n") */
  function Unix(s: string): string {
    if s == "" then ""
    else if "\r\n" <= s then "\n" + Unix(s[2..])
    else [s[0]] + Unix(s[1..])
  }

  predicate NoBreak(s: string) {
    forall i :: 0 <= i < |s| ==> !IsNewline(s[i])
  }

  /** One Windows line break and no other. */
  predicate LoneBreak(run: string) {
    exists i :: 0 <= i < |run| - 1 && run[i] == '\r' && run[i + 1] == '\n' && NoBreak(run[..i]) && NoBreak(run[i + 2..])
  }

  /** Somewhere between two words, white space with one Windows line break and no other. */
  ghost predicate HasLoneBreak(s: string) {
    exists a, b :: LoneBreakAt(s, a, b)
  }

  predicate LoneBreakAt(s: string, a: int, b: int) {
    && 0 < a < b < |s|
    && !IsSpace(s[a - 1]) && !IsSpace(s[b])
    && Blank(s[a..b]) && LoneBreak(s[a..b])
  }

  /** A single line break should stay one, whatever system wrote it; a Windows one becomes an empty line. */
  lemma WindowsBreakDoubles(v: string, w: string)
    requires v != "" && w != "" && Solid(v) && Solid(w)
    ensures Normalized(v + "\n" + w) == v + "\n" + w
    ensures Normalized(v + "\r\n" + w) == v + "\n\n" + w
  {
    hide Compact, TrimSpace, Separator, IsSpace;
    BreakSeparators();
    BetweenWords(v, "\n", w);
    BetweenWords(v, "\r\n", w);
  }

  lemma BetweenWords(v: string, r: string, w: string)
    requires v != "" && w != "" && Solid(v) && Solid(w) && Blank(r)
    ensures Normalized(v + r + w) == v + Separator(r) + w
  {
    hide Compact, TrimSpace, Separator, IsSpace;
    var s := v + r + w;
    assert s[0] == v[0] && s[|s| - 1] == w[|w| - 1];
    TrimSpaceFixed(s);
    Word(v);
    WordsJoin(v, r, w);
  }

  lemma BreakSeparators()
    ensures Separator("\n") == "\n" && Separator("\r\n") == "\n\n"
    ensures Blank("\n") && Blank("\r\n")
  {
    assert "\n"[..0] == "" && "\r\n"[..1] == "\r" && "\r"[..0] == "";
    assert Newlines("") == 0 && Newlines("\n") == 1 && Newlines("\r") == 1 && Newlines("\r\n") == 2;
  }

  lemma WindowsBreakExample()
    ensures Normalized("a\r\nb") == "a\n\nb" && Normalized("a\nb") == "a\nb"
  {
    hide Normalized;
    WindowsBreakDoubles("a", "b");
    assert "a" + "\r\n" + "b" == "a\r\nb" && "a" + "\n" + "b" == "a\nb" && "a" + "\n\n" + "b" == "a\n\nb";
  }

  // ---- One run of white space ----

  lemma NewlinesFromLeft(c: char, s: string)
    ensures Newlines([c] + s) == (if IsNewline(c) then 1 else 0) + Newlines(s)
  {
    if s == "" {
      assert [c] + s == [c] && [c][..0] == "";
    } else {
      NewlinesFromLeft(c, s[..|s| - 1]);
      assert ([c] + s)[..|s|] == [c] + s[..|s| - 1];
    }
  }

  lemma {:induction false} NoNewlines(s: string)
    ensures Newlines(s) == 0 <==> NoBreak(s)
  {
    if s != "" {
      NoNewlines(s[..|s| - 1]);
      assert s == s[..|s| - 1] + [s[|s| - 1]];
    }
  }

  predicate LoneBreakAtIndex(run: string, i: int) {
    && 0 <= i < |run| - 1 && run[i] == '\r' && run[i + 1] == '\n'
    && forall k :: 0 <= k < |run| && k != i && k != i + 1 ==> !IsNewline(run[k])
  }

  lemma LoneBreakIs(run: string)
    ensures LoneBreak(run) <==> exists i :: LoneBreakAtIndex(run, i)
  {
    hide IsNewline;
    if LoneBreak(run) {
      var i :| 0 <= i < |run| - 1 && run[i] == '\r' && run[i + 1] == '\n' && NoBreak(run[..i]) && NoBreak(run[i + 2..]);
      assert forall k :: 0 <= k < i ==> run[k] == run[..i][k];
      assert forall k :: i + 2 <= k < |run| ==> run[k] == run[i + 2..][k - i - 2];
      assert LoneBreakAtIndex(run, i);
    }
    if i :| LoneBreakAtIndex(run, i) {
      assert NoBreak(run[..i]) && NoBreak(run[i + 2..]);
    }
  }

  lemma ShiftedIndex(c: char, s: string, i: int)
    requires !IsNewline(c)
    ensures LoneBreakAtIndex([c] + s, i + 1) <==> LoneBreakAtIndex(s, i)
    ensures !LoneBreakAtIndex([c] + s, 0)
  {
    var run := [c] + s;
    assert forall k :: 0 <= k < |s| ==> run[k + 1] == s[k];
    if LoneBreakAtIndex(run, i + 1) {
      forall k | 0 <= k < |s| && k != i && k != i + 1
        ensures !IsNewline(s[k])
      {
        assert !IsNewline(run[k + 1]);
      }
    }
  }

  lemma LoneBreakBehind(c: char, s: string)
    requires !IsNewline(c)
    ensures LoneBreak([c] + s) <==> LoneBreak(s)
  {
    hide LoneBreak, LoneBreakAtIndex, IsNewline;
    LoneBreakIs([c] + s);
    LoneBreakIs(s);
    forall i
      ensures LoneBreakAtIndex([c] + s, i + 1) <==> LoneBreakAtIndex(s, i)
    {
      ShiftedIndex(c, s, i);
    }
    ShiftedIndex(c, s, 0);
    if i :| LoneBreakAtIndex([c] + s, i) {
      assert i == (i - 1) + 1 && LoneBreakAtIndex(s, i - 1);
    }
    if i :| LoneBreakAtIndex(s, i) {
      assert LoneBreakAtIndex([c] + s, i + 1);
    }
  }

  /** A run that starts with a break has a lone one only there. */
  lemma LoneBreakAhead(run: string)
    requires run != "" && IsNewline(run[0])
    ensures LoneBreak(run) <==> "\r\n" <= run && NoBreak(run[2..])
  {
    LoneBreakIs(run);
    if i :| LoneBreakAtIndex(run, i) {
      assert i == 0;
    }
    if "\r\n" <= run && NoBreak(run[2..]) {
      assert run[0] == '\r' && run[1] == '\n';
      assert forall k :: 2 <= k < |run| ==> run[k] == run[2..][k - 2];
      assert LoneBreakAtIndex(run, 0);
    }
  }

  /** Replacing Windows line breaks in a run keeps some break if there was one, and halves the breaks at most. */
  lemma {:induction false} UnixNewlines(run: string)
    ensures var n, m := Newlines(run), Newlines(Unix(run));
            && m <= n <= 2 * m
            && (n == 2 && m == 1 <==> LoneBreak(run))
    decreases |run|
  {
    hide Newlines, LoneBreak, NoBreak;
    Start();
    if run == "" {
      LoneBreakIs(run);
    } else if "\r\n" <= run {
      var rest := run[2..];
      UnixNewlines(rest);
      assert run == ['\r'] + (['\n'] + rest);
      NewlinesFromLeft('\r', ['\n'] + rest);
      NewlinesFromLeft('\n', rest);
      assert Unix(run) == ['\n'] + Unix(rest);
      NewlinesFromLeft('\n', Unix(rest));
      LoneBreakAhead(run);
      NoNewlines(rest);
    } else {
      var rest := run[1..];
      UnixNewlines(rest);
      assert run == [run[0]] + rest;
      NewlinesFromLeft(run[0], rest);
      NewlinesFromLeft(run[0], Unix(rest));
      if IsNewline(run[0]) {
        LoneBreakAhead(run);
      } else {
        LoneBreakBehind(run[0], rest);
      }
    }
  }

  lemma UnixLead(run: string)
    ensures Lead(Unix(run)) == Lead(run)
  {}

  /** The separator of a run is the same after replacing exactly when it had no lone Windows line break. */
  lemma SameSeparator(run: string)
    ensures Separator(Unix(run)) == Separator(run) <==> !LoneBreak(run)
  {
    hide Unix, Newlines, LoneBreak, Lead;
    UnixLead(run);
    UnixNewlines(run);
    var n, m := Newlines(run), Newlines(Unix(run));
    assert Separator(run) == Lead(run) + Breaks(n) && Separator(Unix(run)) == Lead(run) + Breaks(m);
    assert |Breaks(n)| == if n < 2 then n else 2;
    assert |Breaks(m)| == if m < 2 then m else 2;
  }

  // ---- Words and runs ----

  predicate Solid(s: string) {
    forall i :: 0 <= i < |s| ==> !IsSpace(s[i])
  }

  /** The text of a word is its own normal form, and has no line break to replace. */
  lemma {:induction false} Word(w: string)
    requires Solid(w)
    ensures Compact(w) == w && Unix(w) == w
  {
    hide IsSpace;
    if w != "" {
      Word(w[..|w| - 1]);
      assert w == w[..|w| - 1] + [w[|w| - 1]];
      SolidUnix(w);
    }
  }

  lemma {:induction false} SolidUnix(w: string)
    requires Solid(w)
    ensures Unix(w) == w
  {
    if w != "" {
      SolidUnix(w[1..]);
      assert w == [w[0]] + w[1..];
      assert IsSpace('\r');
    }
  }

  predicate EndsSolid(s: string) {
    s != "" && !IsSpace(s[|s| - 1])
  }

  /** Words, a run behind them, and one more word. */
  lemma {:induction false} WordsJoin(p: string, r: string, w: string)
    requires EndsSolid(p) && Blank(r) && w != "" && Solid(w)
    ensures Compact(p + r + w) == Compact(p) + Separator(r) + w
    decreases |w|
  {
    hide Separator;
    var n := |w| - 1;
    var s := p + r + w;
    assert s[..|s| - 1] == p + r + w[..n] && w == w[..n] + [w[n]];
    assert Compact(s) == Compact(p + r + w[..n]) + [w[n]];
    if n == 0 {
      assert p + r + w[..n] == p + r;
      RunBehind(p, r);
    } else {
      WordsJoin(p, r, w[..n]);
    }
  }

  lemma RunBehind(p: string, r: string)
    requires EndsSolid(p) && Blank(r)
    ensures Compact(p + r) == Compact(p) + Separator(r)
  {
    TrimBlank(p, r);
    if r == "" {
      Start();
      assert p + r == p;
    }
  }

  lemma {:induction false} TrimBlank(p: string, r: string)
    requires EndsSolid(p) && Blank(r)
    ensures TrimRight(p + r) == p && (p + r)[|p|..] == r
  {
    if r != "" {
      TrimBlank(p, r[..|r| - 1]);
      assert (p + r)[..|p + r| - 1] == p + r[..|r| - 1];
    } else {
      assert p + r == p;
    }
  }

  /** Whether a carriage return stands right before a newline. */
  predicate Pair(c: char, s: string) {
    c == '\r' && s != "" && s[0] == '\n'
  }

  /** Seen one character at a time, replacing drops carriage returns right before a newline. */
  lemma UnixStep(c: char, s: string)
    ensures Unix([c] + s) == if Pair(c, s) then Unix(s) else [c] + Unix(s)
  {
    assert ([c] + s)[1..] == s;
    if Pair(c, s) {
      assert ([c] + s)[2..] == s[1..];
    }
  }

  predicate Joined(a: string, b: string) {
    a != "" && b != "" && a[|a| - 1] == '\r' && b[0] == '\n'
  }

  lemma JoinedRest(c: char, rest: string, b: string)
    requires !Joined([c] + rest, b)
    ensures !Joined(rest, b) && (Pair(c, rest + b) <==> Pair(c, rest))
  {
    var a := [c] + rest;
    if rest == "" {
      assert rest + b == b && a[|a| - 1] == c;
    } else {
      assert a[|a| - 1] == rest[|rest| - 1] && (rest + b)[0] == rest[0];
    }
  }

  /** Replacing works on two parts separately unless it finds a line break across them. */
  lemma {:induction false} UnixParts(a: string, b: string)
    requires !Joined(a, b)
    ensures Unix(a + b) == Unix(a) + Unix(b)
    decreases |a|
  {
    hide Unix, Joined, Pair;
    if a == "" {
      Nothing();
      assert a + b == b;
    } else {
      var c, rest := a[0], a[1..];
      assert a == [c] + rest && a + b == [c] + (rest + b);
      JoinedRest(c, rest, b);
      UnixParts(rest, b);
      UnixStep(c, rest);
      UnixStep(c, rest + b);
      assert [c] + Unix(rest) + Unix(b) == [c] + (Unix(rest) + Unix(b));
    }
  }

  lemma Nothing()
    ensures Unix("") == ""
  {}

  lemma {:induction false} UnixBlank(r: string)
    requires Blank(r)
    ensures Blank(Unix(r))
    decreases |r|
  {
    hide IsSpace;
    if r == "" {
    } else if "\r\n" <= r {
      assert r[1] == '\n';
      UnixBlank(r[2..]);
    } else {
      UnixBlank(r[1..]);
    }
  }

  /** Replacing leaves the first and the last character of a text alone when they are no line breaks. */
  lemma {:induction false} UnixEnds(s: string)
    requires EndsSolid(s) && !IsSpace(s[0])
    ensures EndsSolid(Unix(s)) && !IsSpace(Unix(s)[0])
  {
    hide IsSpace;
    assert IsSpace('\r') && IsSpace('\n') by { LineBreaksAreSpace(); }
    UnixLast(s);
  }

  lemma LineBreaksAreSpace()
    ensures IsSpace('\r') && IsSpace('\n')
  {}

  lemma {:induction false} UnixLast(s: string)
    requires EndsSolid(s)
    ensures EndsSolid(Unix(s))
    decreases |s|
  {
    hide IsSpace, Unix;
    var c, rest := s[0], s[1..];
    assert s == [c] + rest;
    UnixStep(c, rest);
    if rest != "" {
      UnixLast(rest);
    } else {
      Nothing();
    }
  }

  // ---- Word by word ----

  /** The last word of a trimmed text, the white space before it, and what comes before that. */
  lemma {:induction false} LastWord(s: string) returns (p: string, r: string, w: string)
    requires EndsSolid(s) && !IsSpace(s[0])
    ensures s == p + r + w && w != "" && Solid(w) && Blank(r)
    ensures (p == "" && r == "") || (r != "" && EndsSolid(p) && !IsSpace(p[0]))
  {
    var n := |s| - 1;
    if n == 0 {
      p, r, w := "", "", s;
    } else if IsSpace(s[n - 1]) {
      TrimRightParts(s[..n]);
      WordsRemain(s[..n]);
      p, w := TrimRight(s[..n]), s[n..];
      r := s[|p|..n];
      assert s[..n][|p|..] == r;
    } else {
      var w0: string;
      p, r, w0 := LastWord(s[..n]);
      w := w0 + [s[n]];
      assert s == s[..n] + [s[n]];
    }
  }

  /** A lone break of the whole lies before the last word, or is the white space right before it. */
  lemma LoneBreakParts(p: string, r: string, w: string)
    requires EndsSolid(p) && Blank(r) && r != "" && w != "" && Solid(w)
    ensures HasLoneBreak(p + r + w) <==> HasLoneBreak(p) || LoneBreak(r)
  {
    hide IsSpace, LoneBreak;
    var s := p + r + w;
    var n, m := |p|, |p| + |r|;
    assert s[n - 1] == p[n - 1] && s[m] == w[0] && s[n..m] == r;
    if LoneBreak(r) {
      assert LoneBreakAt(s, n, m);
    }
    if HasLoneBreak(p) {
      var a, b :| LoneBreakAt(p, a, b);
      assert s[a..b] == p[a..b];
      assert LoneBreakAt(s, a, b);
    }
    if HasLoneBreak(s) {
      var a, b :| LoneBreakAt(s, a, b);
      LoneBreakPlace(p, r, w, a, b);
    }
  }

  lemma LoneBreakPlace(p: string, r: string, w: string, a: int, b: int)
    requires EndsSolid(p) && Blank(r) && r != "" && w != "" && Solid(w)
    requires LoneBreakAt(p + r + w, a, b)
    ensures LoneBreakAt(p, a, b) || LoneBreak(r)
  {
    hide IsSpace, LoneBreak;
    var s := p + r + w;
    var n, m := |p|, |p| + |r|;
    assert s[n - 1] == p[n - 1];
    assert forall k :: n <= k < m ==> s[k] == r[k - n] && IsSpace(s[k]);
    assert forall k :: m <= k < |s| ==> s[k] == w[k - m] && !IsSpace(s[k]);
    assert forall k :: a <= k < b ==> s[k] == s[a..b][k - a] && IsSpace(s[k]);
    var last := s[b - 1];
    if b < n {
      assert s[a..b] == p[a..b];
    } else {
      assert b == m && a == n && s[a..b] == r;
    }
  }

  lemma SplitSame(x: string, r: string, y: string, q: string)
    requires EndsSolid(x) && EndsSolid(y) && Blank(r) && Blank(q)
    ensures x + r == y + q <==> x == y && r == q
  {
    if x + r == y + q {
      TrimBlank(x, r);
      TrimBlank(y, q);
    }
  }

  lemma CompactEnds(s: string)
    requires EndsSolid(s) && !IsSpace(s[0])
    ensures EndsSolid(Compact(s))
  {
    CompactIsTidy(s);
  }

  /** For trimmed texts: the result is the same exactly when no lone Windows line break lies between words. */
  lemma {:induction false} CompactUnix(s: string)
    requires EndsSolid(s) && !IsSpace(s[0])
    ensures Compact(Unix(s)) == Compact(s) <==> !HasLoneBreak(s)
    decreases |s|
  {
    hide Compact, Unix, IsSpace, LoneBreak, Separator, Solid;
    var p, r, w := LastWord(s);
    SolidUnix(w);
    if p == "" {
      assert s == w;
      WordHasNoBreak(w);
    } else {
      CompactUnix(p);
      UnixAround(p, r, w);
      UnixEnds(p);
      UnixBlank(r);
      WordsJoin(p, r, w);
      WordsJoin(Unix(p), Unix(r), w);
      CompactEnds(p);
      CompactEnds(Unix(p));
      SeparatorIsBlank(r);
      SeparatorIsBlank(Unix(r));
      SplitSame(Compact(p), Separator(r), Compact(Unix(p)), Separator(Unix(r)));
      SameTail(Compact(p) + Separator(r), Compact(Unix(p)) + Separator(Unix(r)), w);
      SameSeparator(r);
      LoneBreakParts(p, r, w);
    }
  }

  lemma SameTail(x: string, y: string, w: string)
    ensures x + w == y + w <==> x == y
  {
    if x + w == y + w {
      assert x == (x + w)[..|x|] && y == (y + w)[..|y|];
    }
  }

  lemma WordHasNoBreak(w: string)
    requires Solid(w)
    ensures !HasLoneBreak(w)
  {
    hide IsSpace, LoneBreak;
    forall a, b
      ensures !LoneBreakAt(w, a, b)
    {
      if 0 < a < b < |w| {
        assert w[a..b][0] == w[a];
      }
    }
  }

  lemma UnixAround(p: string, r: string, w: string)
    requires EndsSolid(p) && w != "" && Solid(w)
    ensures Unix(p + r + w) == Unix(p) + Unix(r) + Unix(w)
  {
    hide Unix, IsSpace;
    LineBreaksAreSpace();
    assert p + r + w == p + (r + w);
    UnixParts(p, r + w);
    UnixParts(r, w);
  }

  // ---- Any text ----

  lemma TrimAround(left: string, t: string, right: string)
    requires Blank(left) && Blank(right) && EndsSolid(t) && !IsSpace(t[0])
    ensures TrimSpace(left + t + right) == t
  {
    LeftBlank(left, t + right);
    assert left + t + right == left + (t + right);
    TrimBlank(t, right);
  }

  lemma {:induction false} LeftBlank(left: string, t: string)
    requires Blank(left) && t != "" && !IsSpace(t[0])
    ensures TrimLeft(left + t) == t
  {
    if left == "" {
      assert left + t == t;
    } else {
      LeftBlank(left[1..], t);
      assert (left + t)[1..] == left[1..] + t;
    }
  }

  lemma ShiftedBreak(left: string, t: string, right: string, a: int, b: int)
    requires 0 < a < b < |t|
    ensures LoneBreakAt(left + t + right, |left| + a, |left| + b) <==> LoneBreakAt(t, a, b)
  {
    hide IsSpace, LoneBreak, Blank;
    var v, n := left + t + right, |left|;
    assert v[n + a - 1] == t[a - 1] && v[n + b] == t[b];
    assert v[n + a..n + b] == t[a..b];
  }

  lemma BreakInside(left: string, t: string, right: string, a: int, b: int)
    requires Blank(left) && Blank(right) && LoneBreakAt(left + t + right, a, b)
    ensures |left| < a && b < |left| + |t|
  {
    hide IsSpace, LoneBreak;
    var v := left + t + right;
    assert forall k :: 0 <= k < |left| ==> v[k] == left[k] && IsSpace(v[k]);
    assert forall k :: |left| + |t| <= k < |v| ==> v[k] == right[k - |left| - |t|] && IsSpace(v[k]);
  }

  lemma LoneBreakInside(left: string, t: string, right: string)
    requires Blank(left) && Blank(right)
    ensures HasLoneBreak(left + t + right) <==> HasLoneBreak(t)
  {
    hide LoneBreakAt, Blank;
    var v := left + t + right;
    if a, b :| LoneBreakAt(t, a, b) {
      Bounds(t, a, b);
      ShiftedBreak(left, t, right, a, b);
    }
    if a, b :| LoneBreakAt(v, a, b) {
      Bounds(v, a, b);
      BreakInside(left, t, right, a, b);
      ShiftedBreak(left, t, right, a - |left|, b - |left|);
    }
  }

  lemma Bounds(s: string, a: int, b: int)
    requires LoneBreakAt(s, a, b)
    ensures 0 < a < b < |s|
  {}

  lemma BlankHasNoBreak(v: string)
    requires Blank(v)
    ensures !HasLoneBreak(v)
  {
    hide IsSpace, LoneBreak;
  }

  /**
   Replacing Windows line breaks beforehand makes no difference exactly when no two words have one
   Windows line break between them and no other.
   */
  lemma NormalizedUnix(v: string)
    ensures Normalized(Unix(v)) == Normalized(v) <==> !HasLoneBreak(v)
  {
    hide Compact, Unix, TrimSpace, IsSpace, HasLoneBreak;
    var t := TrimSpace(v);
    if t == "" {
      BlankIffTrimmedAway(v);
      UnixBlank(v);
      BlankIffTrimmedAway(Unix(v));
      BlankHasNoBreak(v);
    } else {
      var left, right := TrimmedParts(v);
      UnixAroundText(left, t, right);
      UnixBlank(left);
      UnixBlank(right);
      UnixEnds(t);
      TrimAround(Unix(left), Unix(t), Unix(right));
      CompactUnix(t);
      LoneBreakInside(left, t, right);
    }
  }

  lemma TrimmedParts(v: string) returns (left: string, right: string)
    requires TrimSpace(v) != ""
    ensures v == left + TrimSpace(v) + right && Blank(left) && Blank(right)
    ensures EndsSolid(TrimSpace(v)) && !IsSpace(TrimSpace(v)[0])
  {
    hide IsSpace;
    var l := TrimLeft(v);
    TrimLeftParts(v);
    TrimRightParts(l);
    TrimmedEnds(v);
    left, right := v[..|v| - |l|], l[|TrimSpace(v)|..];
    assert v == left + l && l == TrimSpace(v) + right;
  }

  lemma UnixAroundText(left: string, t: string, right: string)
    requires EndsSolid(t) && !IsSpace(t[0])
    ensures Unix(left + t + right) == Unix(left) + Unix(t) + Unix(right)
  {
    hide Unix, IsSpace;
    LineBreaksAreSpace();
    UnixParts(left + t, right);
    UnixParts(left, t);
  }
}
