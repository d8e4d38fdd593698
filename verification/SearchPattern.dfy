/**
 The keyword search of the conversation pages: internal/agentobservability/conversation_store.go. The
 keyword becomes a LIKE pattern with its special characters escaped.
 */
module SearchPattern {
  import opened Text

  predicate Special(c: char) {
    c == '\\' || c == '%' || c == '_'
  }

  function Escape(keyword: string): string {
    if keyword == "" then ""
    else (if Special(keyword[0]) then ['\\', keyword[0]] else [keyword[0]]) + Escape(keyword[1..])
  }

  /** The pattern handed to the database for a keyword that is already lower-cased. */
  function Pattern(keyword: string): string {
    "%" + Escape(keyword) + "%"
  }

  // ---- LIKE with escape character backslash: section 8.5 of ISO/IEC 9075-2 ----

  /** A pattern is an error when the escape character stands before anything that is not special. */
  predicate WellFormed(pattern: string) {
    if pattern == "" then true
    else if pattern[0] == '\\' then |pattern| > 1 && Special(pattern[1]) && WellFormed(pattern[2..])
    else WellFormed(pattern[1..])
  }

  predicate Like(pattern: string, s: string)
    decreases |pattern| + |s|
  {
    if pattern == "" then s == ""
    else if pattern[0] == '\\' then
      |pattern| > 1 && s != "" && s[0] == pattern[1] && Like(pattern[2..], s[1..])
    else if pattern[0] == '%' then Like(pattern[1..], s) || (s != "" && Like(pattern, s[1..]))
    else s != "" && (pattern[0] == '_' || s[0] == pattern[0]) && Like(pattern[1..], s[1..])
  }

  /** An escaped keyword matches itself and nothing else. */
  lemma {:induction false} EscapedMatchesItself(k: string, rest: string, s: string)
    ensures Like(Escape(k) + rest, s) <==> k <= s && Like(rest, s[|k|..])
  {
    if k == "" {
      assert Escape(k) + rest == rest && s[|k|..] == s;
    } else {
      var head := if Special(k[0]) then ['\\', k[0]] else [k[0]];
      assert Escape(k) + rest == head + (Escape(k[1..]) + rest);
      if s != "" && s[0] == k[0] {
        EscapedMatchesItself(k[1..], rest, s[1..]);
        assert k == [k[0]] + k[1..] && s == [s[0]] + s[1..];
        if k[1..] <= s[1..] {
          assert s[1..][|k| - 1..] == s[|k|..];
        }
      }
    }
  }

  /** A leading percent sign skips any number of characters. */
  lemma {:induction false} PercentSkips(rest: string, s: string)
    ensures Like("%" + rest, s) <==> exists i :: 0 <= i <= |s| && Like(rest, s[i..])
    decreases |s|
  {
    assert ("%" + rest)[1..] == rest;
    assert s[0..] == s;
    if s != "" {
      PercentSkips(rest, s[1..]);
      forall i | 0 < i <= |s|
        ensures s[i..] == s[1..][i - 1..]
      {}
      if Like("%" + rest, s[1..]) {
        var j :| 0 <= j <= |s[1..]| && Like(rest, s[1..][j..]);
        assert s[1..][j..] == s[j + 1..];
      }
      if i :| 0 < i <= |s| && Like(rest, s[i..]) {
        assert Like(rest, s[1..][i - 1..]);
      }
    }
  }

  lemma {:induction false} EscapeIsWellFormed(k: string, rest: string)
    ensures WellFormed(Escape(k) + rest) <==> WellFormed(rest)
  {
    if k == "" {
      assert Escape(k) + rest == rest;
    } else {
      var head := if Special(k[0]) then ['\\', k[0]] else [k[0]];
      EscapeIsWellFormed(k[1..], rest);
      assert Escape(k) + rest == head + (Escape(k[1..]) + rest);
    }
  }

  /** The pattern never raises an error, and it matches exactly the strings that contain the keyword. */
  lemma SearchIsExact(keyword: string, s: string)
    ensures WellFormed(Pattern(keyword))
    ensures Like(Pattern(keyword), s) <==> Contains(s, keyword)
  {
    var tail := Escape(keyword) + "%";
    assert Pattern(keyword) == "%" + tail;
    EscapeIsWellFormed(keyword, "%");
    assert "%"[1..] == "" && WellFormed("%");
    assert Pattern(keyword)[1..] == tail;
    PercentSkips(tail, s);
    forall i | 0 <= i <= |s|
      ensures Like(tail, s[i..]) <==> keyword <= s[i..]
    {
      EscapedMatchesItself(keyword, "%", s[i..]);
      if keyword <= s[i..] {
        PercentMatchesAll(s[i..][|keyword|..]);
      }
    }
  }

  lemma PercentMatchesAll(s: string)
    ensures Like("%", s)
  {
    PercentSkips("", s);
    assert "%" + "" == "%";
    assert s[|s|..] == "" && Like("", s[|s|..]);
  }

  // ---- The list filter ----

  /**
   Whether a list shows a row: one of the columns it searches matches. Conversations search title, owner
   name and owner e-mail; tool summaries search the operation. The two lower-casings are the program's and
   the database's; nothing is assumed of them.
   */
  predicate Listed(search: string, columns: seq<string>, lowerKeyword: string -> string,
                   lowerColumn: string -> string) {
    var keyword := TrimSpace(search);
    keyword == "" || exists i :: 0 <= i < |columns| && Like(Pattern(lowerKeyword(keyword)), lowerColumn(columns[i]))
  }

  lemma ListedExactly(search: string, columns: seq<string>, lowerKeyword: string -> string,
                      lowerColumn: string -> string)
    ensures Listed(search, columns, lowerKeyword, lowerColumn)
       <==> Blank(search)
            || exists i :: 0 <= i < |columns| && Contains(lowerColumn(columns[i]), lowerKeyword(TrimSpace(search)))
  {
    BlankIffTrimmedAway(search);
    forall i | 0 <= i < |columns|
      ensures Like(Pattern(lowerKeyword(TrimSpace(search))), lowerColumn(columns[i]))
         <==> Contains(lowerColumn(columns[i]), lowerKeyword(TrimSpace(search)))
    {
      SearchIsExact(lowerKeyword(TrimSpace(search)), lowerColumn(columns[i]));
    }
  }
}
