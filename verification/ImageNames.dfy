/** Image names and tags, told from the texts they are made of. */
module ImageNames {
  import opened Text
  import opened ImageReference

  /** Trimming takes characters of the set off both ends, all of them and nothing else. */
  lemma TrimIs(s: string, cutset: string) returns (before: string, after: string)
    ensures s == before + Trim(s, cutset) + after
    ensures (forall c :: c in before ==> c in cutset) && forall c :: c in after ==> c in cutset
  {
    hide TrimStart, TrimEnd;
    var start := TrimStart(s, cutset);
    var r := TrimEnd(start, cutset);
    assert Trim(s, cutset) == r;
    hide Trim;
    StartIs(s, cutset);
    EndIs(start, cutset);
    before, after := s[..|s| - |start|], start[|r|..];
    assert start == r + after && s == before + start;
    assert s == before + (r + after) == before + r + after;
  }

  lemma {:induction false} StartIs(s: string, cutset: string)
    ensures forall i :: 0 <= i < |s| - |TrimStart(s, cutset)| ==> s[i] in cutset
  {
    if s != "" && s[0] in cutset {
      assert TrimStart(s, cutset) == TrimStart(s[1..], cutset);
      StartIs(s[1..], cutset);
      hide TrimStart;
      forall i | 0 < i < |s| - |TrimStart(s, cutset)|
        ensures s[i] in cutset
      {
        assert s[i] == s[1..][i - 1];
      }
    }
  }

  lemma {:induction false} EndIs(s: string, cutset: string)
    ensures forall i :: |TrimEnd(s, cutset)| <= i < |s| ==> s[i] in cutset
  {
    if s != "" && s[|s| - 1] in cutset {
      assert TrimEnd(s, cutset) == TrimEnd(s[..|s| - 1], cutset);
      EndIs(s[..|s| - 1], cutset);
      hide TrimEnd;
      forall i | |TrimEnd(s, cutset)| <= i < |s| - 1
        ensures s[i] in cutset
      {
        assert s[i] == s[..|s| - 1][i];
      }
    }
  }

  // ---- Tags ----

  /** A character that may stand in a tag, and a dash for any other. */
  predicate Becomes(c: char, d: char) {
    d == if WordChar(c) || c == '.' || c == '-' then c else '-'
  }

  /**
   A tag is the text between its first and its last letter, digit or underscore, cut off after 128
   characters, with dashes for what may not stand in a tag; a text without any of them is tagged "latest".
   */
  lemma TagIs(value: string) returns (from: nat, to: nat)
    ensures from <= to <= |TrimSpace(value)|
    ensures var text, tag := TrimSpace(value), SanitizedTag(value);
            && (from == to ==> tag == "latest" && forall c :: c in text ==> !WordChar(c))
            && (from < to ==>
                  && WordChar(text[from]) && WordChar(text[to - 1])
                  && (forall i :: 0 <= i < from || to <= i < |text| ==> !WordChar(text[i]))
                  && |tag| == (if to - from > 128 then 128 else to - from)
                  && forall i :: 0 <= i < |tag| ==> Becomes(text[from + i], tag[i]))
  {
    hide TrimSpace, Cleaned, Trim, WordChar, Becomes;
    var text := TrimSpace(value);
    var cleaned := Cleaned(text);
    from, to := TrimRange(cleaned, ".-");
    var kept := cleaned[from..to];
    WordsAre(text, 0, from);
    WordsAre(text, to, |text|);
    if from < to {
      TagChars(text, from, to);
      WordsAre(text, from, from + 1);
      WordsAre(text, to - 1, to);
      assert kept[0] == cleaned[from] && kept[|kept| - 1] == cleaned[to - 1];
    } else {
      assert forall c :: c in text ==> exists i :: 0 <= i < |text| && text[i] == c;
    }
  }

  /** Cleaning leaves dots and dashes exactly where no letter, digit or underscore is. */
  lemma WordsAre(text: string, from: nat, to: nat)
    requires from <= to <= |text|
    ensures forall i :: from <= i < to ==> (WordChar(text[i]) <==> Cleaned(text)[i] !in ".-")
  {
    hide Cleaned, WordChar;
    forall i | from <= i < to
      ensures WordChar(text[i]) <==> Cleaned(text)[i] !in ".-"
    {
      CleanedChar(text[i], Cleaned(text)[i]);
    }
  }

  lemma TagChars(text: string, from: nat, to: nat)
    requires from <= to <= |text|
    ensures forall i :: 0 <= i < to - from ==> Becomes(text[from + i], Cleaned(text)[from..to][i])
  {
    hide Cleaned, WordChar, Becomes;
    forall i | 0 <= i < to - from
      ensures Becomes(text[from + i], Cleaned(text)[from..to][i])
    {
      CleanedChar(text[from + i], Cleaned(text)[from + i]);
    }
  }

  /** Where the trimmed text stands in the text. */
  lemma TrimRange(s: string, cutset: string) returns (from: nat, to: nat)
    ensures from <= to <= |s| && Trim(s, cutset) == s[from..to]
    ensures forall i :: 0 <= i < from || to <= i < |s| ==> s[i] in cutset
  {
    var before, after := TrimIs(s, cutset);
    hide Trim;
    from, to := |before|, |before| + |Trim(s, cutset)|;
    assert forall i :: 0 <= i < from ==> s[i] == before[i] && before[i] in before;
    assert forall i :: to <= i < |s| ==> s[i] == after[i - to] && after[i - to] in after;
  }

  lemma CleanedChar(c: char, d: char)
    requires d == if TagChar(c) then c else '-'
    ensures Becomes(c, d) && (WordChar(c) <==> d !in ".-")
  {
    TagCharsAre();
    assert ".-"[0] == '.' && ".-"[1] == '-';
  }

  // ---- References ----

  /** What is split off a reference: a digest behind the first at sign, or else a tag behind the last colon. */
  lemma SplitIs(value: string, a: string, b: string)
    ensures TrimSpace(value) == a + "@" + b && '@' !in a ==> SplitImageRef(value) == (Trim(a, "/"), b)
    ensures TrimSpace(value) == a + ":" + b && '@' !in a && '@' !in b && ':' !in b && '/' !in b ==>
              SplitImageRef(value) == (Trim(a, "/"), b)
    ensures var v := TrimSpace(value);
            '@' !in v && (forall i :: 0 <= i < |v| && v[i] == ':' ==> '/' in v[i..]) ==>
              SplitImageRef(value) == (Trim(v, "/"), "")
  {
    hide TrimSpace, Trim, Index, LastIndex;
    var v := TrimSpace(value);
    if v == a + "@" + b && '@' !in a {
      SplitAtSign(v, a, b);
    }
    if v == a + ":" + b && '@' !in a && '@' !in b && ':' !in b && '/' !in b {
      SplitAtColon(v, a, b);
    }
    if '@' !in v && forall i :: 0 <= i < |v| && v[i] == ':' ==> '/' in v[i..] {
      NothingToSplit(v);
    }
  }

  lemma SplitAtSign(v: string, a: string, b: string)
    requires v == a + "@" + b && '@' !in a
    ensures SplitTrimmed(v) == (Trim(a, "/"), b)
  {
    hide Trim;
    assert v[|a|] == '@' && v[..|a|] == a && v[|a| + 1..] == b;
    assert forall i :: 0 <= i < |a| ==> v[i] == a[i];
    assert Index(v, '@') == |a|;
  }

  lemma SplitAtColon(v: string, a: string, b: string)
    requires v == a + ":" + b && '@' !in a && '@' !in b && ':' !in b && '/' !in b
    ensures SplitTrimmed(v) == (Trim(a, "/"), b)
  {
    hide Trim;
    assert v[|a|] == ':' && v[..|a|] == a && v[|a| + 1..] == b;
    assert forall i :: |a| < i < |v| ==> v[i] == b[i - |a| - 1];
    assert LastIndex(v, ':') == |a| && LastIndex(v, '/') < |a|;
  }

  lemma NothingToSplit(v: string)
    requires '@' !in v && forall i :: 0 <= i < |v| && v[i] == ':' ==> '/' in v[i..]
    ensures SplitTrimmed(v) == (Trim(v, "/"), "")
  {
    hide Trim;
    var colon, slash := LastIndex(v, ':'), LastIndex(v, '/');
    if colon >= 0 {
      assert '/' in v[colon..];
      var k :| 0 <= k < |v[colon..]| && v[colon..][k] == '/';
      assert v[colon + k] == '/';
    }
  }

  /** A repository names its own registry when its first part holds a dot or a colon or is "localhost". */
  lemma HostIs(path: string, first: string, rest: string)
    requires path == first + rest && '/' !in first && (rest == "" || rest[0] == '/')
    requires path == "" || (path[0] != '/' && path[|path| - 1] != '/')
    ensures HasRegistryHost(path) <==> '.' in first || ':' in first || first == "localhost"
  {
    TrimKeeps(path, "/");
    hide Trim;
    assert "/"[0] == '/';
    assert forall i :: 0 <= i < |first| ==> path[i] == first[i];
    assert path[..|first|] == first;
    assert rest != "" ==> path[|first|] == '/';
    assert Index(path, '/') == if rest == "" then -1 else |first|;
  }

  /** The registry's own host goes before a repository that names none, except on Docker Hub; the tag goes behind. */
  lemma ImageRefIs(registry: Registry, target: string, tag: string, first: string, rest: string)
    requires Trim(TrimSpace(target), "/") == first + rest && '/' !in first && (rest == "" || rest[0] == '/')
    ensures first + rest == "" ==> BuildImageRef(registry, target, tag) == ""
    ensures first + rest != "" && ('.' in first || ':' in first || first == "localhost" || registry.dockerHub
                                   || registry.host == "") ==>
              BuildImageRef(registry, target, tag) == first + rest + ":" + SanitizedTag(tag)
    ensures first + rest != "" && '.' !in first && ':' !in first && first != "localhost" && !registry.dockerHub
            && registry.host != "" ==>
              BuildImageRef(registry, target, tag) == registry.host + "/" + (first + rest) + ":" + SanitizedTag(tag)
  {
    assert "/"[0] == '/';
    HostIs(first + rest, first, rest);
    hide Trim, TrimSpace, HasRegistryHost, SanitizedTag;
  }
}
