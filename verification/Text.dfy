/** The white-space rules of Go's strings and unicode packages, on strings of Unicode code points. */
module Text {

  predicate IsSpace(c: char) {
    || '\t' <= c <= '\r' || c == ' ' || c == '\U{0085}' || c == '\U{00A0}' || c == '\U{1680}'
    || '\U{2000}' <= c <= '\U{200A}' || c == '\U{2028}' || c == '\U{2029}' || c == '\U{202F}'
    || c == '\U{205F}' || c == '\U{3000}'
  }

  function TrimLeft(s: string): string {
    if s != "" && IsSpace(s[0]) then TrimLeft(s[1..]) else s
  }

  function TrimRight(s: string): string {
    if s != "" && IsSpace(s[|s| - 1]) then TrimRight(s[..|s| - 1]) else s
  }

  /** strings.TrimSpace */
  function TrimSpace(s: string): string {
    TrimRight(TrimLeft(s))
  }

  predicate Blank(s: string) {
    forall i :: 0 <= i < |s| ==> IsSpace(s[i])
  }

  /** A string is blank exactly when trimming leaves nothing. */
  lemma BlankIffTrimmedAway(s: string)
    ensures Blank(s) <==> TrimSpace(s) == ""
  {
    TrimLeftParts(s);
    TrimRightParts(TrimLeft(s));
  }

  lemma {:induction false} TrimLeftParts(s: string)
    ensures var r := TrimLeft(s);
            && (r == "" || !IsSpace(r[0]))
            && |r| <= |s| && r == s[|s| - |r|..]
            && Blank(s[..|s| - |r|])
  {
    if s != "" && IsSpace(s[0]) {
      TrimLeftParts(s[1..]);
      assert s[..|s| - |TrimLeft(s)|] == [s[0]] + s[1..][..|s[1..]| - |TrimLeft(s)|];
    }
  }

  lemma {:induction false} TrimRightParts(s: string)
    ensures var r := TrimRight(s);
            && (r == "" || !IsSpace(r[|r| - 1]))
            && |r| <= |s| && r == s[..|r|]
            && Blank(s[|r|..])
  {
    if s != "" && IsSpace(s[|s| - 1]) {
      TrimRightParts(s[..|s| - 1]);
      assert s[|TrimRight(s)|..] == s[..|s| - 1][|TrimRight(s)|..] + [s[|s| - 1]];
    }
  }

  lemma TrimSpaceFixed(s: string)
    requires s != "" ==> !IsSpace(s[0]) && !IsSpace(s[|s| - 1])
    ensures TrimSpace(s) == s
  {}

  lemma TrimSpaceTwice(s: string)
    ensures TrimSpace(TrimSpace(s)) == TrimSpace(s)
  {
    TrimLeftParts(s);
    TrimRightParts(TrimLeft(s));
    TrimSpaceFixed(TrimSpace(s));
  }

  /** strings.Contains */
  predicate Contains(s: string, part: string) {
    exists i :: 0 <= i <= |s| && part <= s[i..]
  }

  /** A text contains another when something stands before it and something after it. */
  lemma ContainsIs(s: string, part: string)
    ensures Contains(s, part) <==> exists a, b :: s == a + part + b
  {
    if i :| 0 <= i <= |s| && part <= s[i..] {
      assert s == s[..i] + part + s[i + |part|..];
    }
    if a, b :| s == a + part + b {
      assert part <= s[|a|..];
    }
  }

  /** Trimming takes white space off both ends, all of it and nothing else. */
  lemma TrimSpaceIs(s: string) returns (before: string, after: string)
    ensures s == before + TrimSpace(s) + after && Blank(before) && Blank(after)
    ensures var r := TrimSpace(s); r != "" ==> !IsSpace(r[0]) && !IsSpace(r[|r| - 1])
  {
    hide TrimLeft, TrimRight, IsSpace, Blank;
    var left := TrimLeft(s);
    var r := TrimRight(left);
    assert TrimSpace(s) == r;
    hide TrimSpace;
    TrimLeftParts(s);
    TrimRightParts(left);
    before, after := s[..|s| - |left|], left[|r|..];
    assert left == r + after && s == before + left;
    assert s == before + (r + after) == before + r + after;
    assert r != "" ==> r[0] == left[0];
  }

  /** The characters that count as white space, by their code points. */
  lemma IsSpaceTable(c: char)
    ensures IsSpace(c) <==>
              c as int in {9, 10, 11, 12, 13, 32, 0x85, 0xA0, 0x1680, 0x2000, 0x2001, 0x2002, 0x2003, 0x2004, 0x2005,
                           0x2006, 0x2007, 0x2008, 0x2009, 0x200A, 0x2028, 0x2029, 0x202F, 0x205F, 0x3000}
  {}
}
