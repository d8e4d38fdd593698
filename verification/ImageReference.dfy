/**
 Printing and splitting image references: internal/imageref/imageref.go. What net/url makes of an
 endpoint and what the template engine makes of a tag are inputs.
 */
module ImageReference {
  import opened Text

  const DEFAULT_TAG := "latest"

  const MAX_TAG := 128

  /** dockerHub is the answer of IsDockerHubRegistry, host that of RegistryImageHost. */
  datatype Registry = Registry(dockerHub: bool, host: string)

  // ---- Go's strings.Trim, Index and LastIndex ----

  function TrimStart(s: string, cutset: string): (r: string)
    ensures |r| <= |s| && r == s[|s| - |r|..]
    ensures r == "" || r[0] !in cutset
  {
    if s != "" && s[0] in cutset then TrimStart(s[1..], cutset) else s
  }

  function TrimEnd(s: string, cutset: string): (r: string)
    ensures |r| <= |s| && r == s[..|r|]
    ensures r == "" || r[|r| - 1] !in cutset
  {
    if s != "" && s[|s| - 1] in cutset then TrimEnd(s[..|s| - 1], cutset) else s
  }

  function Trim(s: string, cutset: string): (r: string)
    ensures |r| <= |s|
    ensures r == "" || (r[0] !in cutset && r[|r| - 1] !in cutset)
  {
    TrimEnd(TrimStart(s, cutset), cutset)
  }

  lemma TrimIsPart(s: string, cutset: string)
    ensures forall c :: c in Trim(s, cutset) ==> c in s
  {
    var start := TrimStart(s, cutset);
    assert forall i :: 0 <= i < |start| ==> start[i] == s[|s| - |start| + i];
    assert forall i :: 0 <= i < |Trim(s, cutset)| ==> Trim(s, cutset)[i] == start[i];
  }

  /** Trimming leaves a text alone exactly when it neither starts nor ends in the cutset. */
  lemma TrimKeeps(s: string, cutset: string)
    ensures Trim(s, cutset) == s <==> s == "" || (s[0] !in cutset && s[|s| - 1] !in cutset)
  {}

  function Index(s: string, c: char): (i: int)
    ensures -1 <= i < |s|
    ensures i >= 0 ==> s[i] == c && forall k :: 0 <= k < i ==> s[k] != c
    ensures i < 0 ==> c !in s
  {
    if s == "" then -1
    else if s[0] == c then 0
    else
      var i := Index(s[1..], c);
      if i < 0 then -1 else i + 1
  }

  function LastIndex(s: string, c: char): (i: int)
    ensures -1 <= i < |s|
    ensures i >= 0 ==> s[i] == c
    ensures forall k :: i < k < |s| ==> s[k] != c
  {
    if s == "" then -1
    else if s[|s| - 1] == c then |s| - 1
    else LastIndex(s[..|s| - 1], c)
  }

  // ---- Tags ----

  predicate TagChar(c: char) {
    'A' <= c <= 'Z' || 'a' <= c <= 'z' || '0' <= c <= '9' || c == '_' || c == '.' || c == '-'
  }

  /** The tag grammar in section "Pulling manifests" of the OCI Distribution Specification. */
  predicate IsTag(tag: string) {
    && 1 <= |tag| <= 128
    && tag[0] != '.' && tag[0] != '-'
    && forall i :: 0 <= i < |tag| ==> WordChar(tag[i]) || tag[i] == '.' || tag[i] == '-'
  }

  /** \w: ASCII letters, digits and the underscore, by their codes. */
  predicate WordChar(c: char) {
    48 <= c as int <= 57 || 65 <= c as int <= 90 || c as int == 95 || 97 <= c as int <= 122
  }

  lemma TagCharsAre()
    ensures forall c :: TagChar(c) <==> WordChar(c) || c == '.' || c == '-'
  {}

  function Cleaned(s: string): (r: string)
    ensures |r| == |s|
    ensures forall i :: 0 <= i < |s| ==> r[i] == if TagChar(s[i]) then s[i] else '-'
  {
    if s == "" then "" else Cleaned(s[..|s| - 1]) + [if TagChar(s[|s| - 1]) then s[|s| - 1] else '-']
  }

  function SanitizedTag(value: string): string {
    var output := Trim(Cleaned(TrimSpace(value)), ".-");
    if output == "" then DEFAULT_TAG
    else if |output| > MAX_TAG then output[..MAX_TAG]
    else output
  }

  method SanitizeImageTag(value: string) returns (tag: string)
    ensures tag == SanitizedTag(value)
  {
    hide TrimSpace;
    var trimmed := TrimSpace(value);
    if trimmed == "" {
      return DEFAULT_TAG;
    }
    var builder := "";
    for i := 0 to |trimmed|
      invariant builder == Cleaned(trimmed[..i])
    {
      assert trimmed[..i + 1][..i] == trimmed[..i];
      builder := builder + [if TagChar(trimmed[i]) then trimmed[i] else '-'];
    }
    assert trimmed[..|trimmed|] == trimmed;
    tag := Trim(builder, ".-");
    if tag == "" {
      return DEFAULT_TAG;
    }
    if |tag| > MAX_TAG {
      tag := tag[..MAX_TAG];
    }
  }

  lemma CleanedIsTagChars(s: string)
    ensures forall c :: c in Cleaned(s) ==> TagChar(c)
    ensures Cleaned(s) == s <==> forall i :: 0 <= i < |s| ==> TagChar(s[i])
  {}

  lemma TagCharIsSolid(c: char)
    requires TagChar(c)
    ensures !IsSpace(c)
  {}

  lemma TagsAreValid(value: string)
    ensures IsTag(SanitizedTag(value))
  {
    TagCharsAre();
    hide TrimSpace, Cleaned, Trim, TagChar, WordChar;
    var cleaned := Cleaned(TrimSpace(value));
    CleanedIsTagChars(TrimSpace(value));
    TrimIsPart(cleaned, ".-");
    var output := Trim(cleaned, ".-");
    assert output != "" ==> output[0] !in ".-" && ".-"[0] == '.' && ".-"[1] == '-';
    DefaultIsTag();
  }

  lemma DefaultIsTag()
    ensures IsTag(DEFAULT_TAG)
  {}

  /** An acceptable tag is kept as it is, unless it ends in a dot or a dash. */
  lemma ValidTagsAreKept(value: string)
    ensures SanitizedTag(value) == value <==> IsTag(value) && value[|value| - 1] !in ".-"
  {
    TagCharsAre();
    hide TrimSpace, Cleaned, Trim, TagChar, WordChar;
    TagsAreValid(value);
    CleanedIsTagChars(TrimSpace(value));
    TrimKeeps(Cleaned(TrimSpace(value)), ".-");
    TrimSpaceShrinks(value);
    if IsTag(value) && value[|value| - 1] !in ".-" {
      TagCharIsSolid(value[0]);
      TagCharIsSolid(value[|value| - 1]);
      TrimSpaceFixed(value);
      assert value[0] !in ".-";
    }
    assert DEFAULT_TAG[5] == 't' && 't' !in ".-";
  }

  lemma TrimSpaceShrinks(s: string)
    ensures |TrimSpace(s)| <= |s|
  {
    TrimLeftParts(s);
    TrimRightParts(TrimLeft(s));
  }

  // ---- References ----

  /** The repository and the tag or digest behind it. */
  function SplitImageRef(value: string): (string, string) {
    SplitTrimmed(TrimSpace(value))
  }

  function SplitTrimmed(v: string): (string, string) {
    if v == "" then ("", "") else
    var at := Index(v, '@');
    if at >= 0 then (Trim(v[..at], "/"), v[at + 1..]) else
    var lastSlash, lastColon := LastIndex(v, '/'), LastIndex(v, ':');
    if lastColon > lastSlash then (Trim(v[..lastColon], "/"), v[lastColon + 1..])
    else (Trim(v, "/"), "")
  }

  predicate HasRegistryHost(repository: string) {
    var path := Trim(repository, "/");
    var slash := Index(path, '/');
    var first := if slash < 0 then path else path[..slash];
    '.' in first || ':' in first || first == "localhost"
  }

  /** Whether the registry's own host is written before the repository. */
  predicate Hosted(registry: Registry, repository: string) {
    !HasRegistryHost(repository) && !registry.dockerHub && registry.host != ""
  }

  /** The name that BuildImageRef puts before the tag. */
  function ImageName(registry: Registry, targetRepository: string): string {
    var repository := Trim(TrimSpace(targetRepository), "/");
    if Hosted(registry, repository) then registry.host + "/" + repository else repository
  }

  function BuildImageRef(registry: Registry, targetRepository: string, renderedTag: string): string {
    if Trim(TrimSpace(targetRepository), "/") == "" then ""
    else ImageName(registry, targetRepository) + ":" + SanitizedTag(renderedTag)
  }

  function BuildImageNamePrefix(registry: Registry, targetRepository: string): string {
    var repository := Trim(TrimSpace(targetRepository), "/");
    if repository == "" then ""
    else if Hosted(registry, repository) then TrimEnd(registry.host, "/") + "/" + repository
    else repository
  }

  /** A repository that a tag can be put behind and taken off again. */
  predicate Splittable(repository: string) {
    && repository != ""
    && '@' !in repository
    && !IsSpace(repository[0])
    && repository[0] != '/' && repository[|repository| - 1] != '/'
  }

  /** Trimming takes off leading white space only, when there is a solid character behind. */
  lemma TrimBefore(s: string, k: nat) returns (j: nat)
    requires k < |s| && !IsSpace(s[k]) && !IsSpace(s[|s| - 1])
    ensures j <= k && TrimSpace(s) == s[j..] && Blank(s[..j]) && !IsSpace(s[j])
  {
    TrimLeftParts(s);
    j := |s| - |TrimLeft(s)|;
  }

  lemma TagHasNoMarks(tag: string)
    requires IsTag(tag)
    ensures ':' !in tag && '/' !in tag && '@' !in tag
    ensures !IsSpace(':') && !IsSpace('@') && !IsSpace(tag[|tag| - 1])
  {}

  lemma SplitWithTag(repository: string, tag: string)
    requires IsTag(tag)
    ensures '@' !in repository ==> SplitTrimmed(repository + ":" + tag) == (Trim(repository, "/"), tag)
    ensures '@' in repository ==> SplitTrimmed(repository + ":" + tag).1 != tag
  {
    TagHasNoMarks(tag);
    hide Trim, IsSpace, IsTag, Index, LastIndex;
    var v := repository + ":" + tag;
    var n := |repository|;
    assert v[n] == ':' && v[n + 1..] == tag && v[..n] == repository;
    assert forall k :: n < k < |v| ==> v[k] == tag[k - n - 1];
    assert forall k :: 0 <= k < n ==> v[k] == repository[k];
    if '@' in repository {
      var k :| 0 <= k < n && repository[k] == '@';
      assert v[k] == '@';
      assert Index(v, '@') <= k;
    } else {
      assert Index(v, '@') < 0;
      assert LastIndex(v, ':') == n;
      assert LastIndex(v, '/') < n;
    }
  }

  lemma SplitAfterTrim(repository: string, tag: string) returns (j: nat)
    requires IsTag(tag) && repository != ""
    ensures j <= |repository|
    ensures SplitImageRef(repository + ":" + tag) == SplitTrimmed(repository[j..] + ":" + tag)
    ensures j == 0 <==> !IsSpace(repository[0])
    ensures '@' in repository <==> '@' in repository[j..]
  {
    TagHasNoMarks(tag);
    hide SplitTrimmed, IsSpace, IsTag, TrimSpace, Blank;
    var v := repository + ":" + tag;
    j := TrimBefore(v, |repository|);
    assert v[j..] == repository[j..] + ":" + tag;
    BlankHead(repository, v, j);
  }

  /** Splitting undoes printing exactly for splittable repositories. */
  lemma SplitExactly(repository: string, tag: string)
    requires IsTag(tag) && repository != ""
    ensures SplitImageRef(repository + ":" + tag) == (repository, tag) <==> Splittable(repository)
  {
    hide Trim, SplitTrimmed, SplitImageRef, IsSpace, IsTag;
    var j := SplitAfterTrim(repository, tag);
    var rest := repository[j..];
    SplitWithTag(rest, tag);
    TrimKeeps(rest, "/");
    assert "/"[0] == '/';
    if j == 0 {
      assert rest == repository;
    } else {
      assert |Trim(rest, "/")| < |repository|;
    }
  }

  lemma BlankHead(repository: string, v: string, j: nat)
    requires repository != "" && |repository| <= |v| && repository == v[..|repository|]
    requires j <= |repository| && j < |v| && Blank(v[..j]) && !IsSpace(v[j])
    ensures j == 0 <==> !IsSpace(repository[0])
    ensures '@' in repository <==> '@' in repository[j..]
  {
    assert !IsSpace('@');
    hide IsSpace;
    assert forall k :: 0 <= k < j ==> v[..j][k] == repository[k];
    assert forall k :: j <= k < |repository| ==> repository[j..][k - j] == repository[k];
    assert j > 0 ==> IsSpace(v[..j][0]);
  }

  /**
   A printed reference splits into the printed name and the sanitised tag exactly when the name is
   splittable. The name is the one BuildImageNamePrefix gives, except for a host that ends in a slash,
   which only BuildImageNamePrefix takes off.
   */
  lemma ImageRefRoundTrip(registry: Registry, targetRepository: string, renderedTag: string)
    requires Trim(TrimSpace(targetRepository), "/") != ""
    ensures var name := ImageName(registry, targetRepository);
            var printed := BuildImageRef(registry, targetRepository, renderedTag);
            SplitImageRef(printed) == (name, SanitizedTag(renderedTag)) <==> Splittable(name)
    ensures ImageName(registry, targetRepository) == BuildImageNamePrefix(registry, targetRepository)
       <==> !Hosted(registry, Trim(TrimSpace(targetRepository), "/")) || registry.host[|registry.host| - 1] != '/'
  {
    hide Trim, SplitImageRef, IsSpace, SanitizedTag, HasRegistryHost, TrimSpace;
    var repository := Trim(TrimSpace(targetRepository), "/");
    var name := ImageName(registry, targetRepository);
    TagsAreValid(renderedTag);
    SplitExactly(name, SanitizedTag(renderedTag));
    if Hosted(registry, repository) {
      var host := TrimEnd(registry.host, "/");
      assert |name| == |registry.host| + 1 + |repository|;
      assert |BuildImageNamePrefix(registry, targetRepository)| == |host| + 1 + |repository|;
      assert "/"[0] == '/';
      if |host| == |registry.host| {
        assert host == registry.host;
      }
    }
  }

  lemma OneSlashOff(host: string)
    requires host != "" && host[|host| - 1] != '/'
    ensures TrimEnd(host + "/", "/") == host
  {
    var s := host + "/";
    assert "/"[0] == '/' && s[..|s| - 1] == host;
  }

  /** A host that ends in a slash: the printed name has the slash twice, the prefix once. */
  lemma SlashIsDoubled(host: string, repository: string)
    requires host != "" && host[|host| - 1] != '/'
    requires repository != "" && Trim(TrimSpace(repository), "/") == repository && !HasRegistryHost(repository)
    ensures ImageName(Registry(false, host + "/"), repository) == host + "//" + repository
    ensures BuildImageNamePrefix(Registry(false, host + "/"), repository) == host + "/" + repository
  {
    hide Trim, TrimSpace, HasRegistryHost, TrimEnd;
    OneSlashOff(host);
    assert host + "/" + "/" == host + "//";
  }

  /** A repository of one segment that is no host. */
  lemma PlainRepository(repository: string)
    requires repository != "" && !IsSpace(repository[0]) && !IsSpace(repository[|repository| - 1])
    requires '/' !in repository && '.' !in repository && ':' !in repository && repository != "localhost"
    ensures Trim(TrimSpace(repository), "/") == repository && !HasRegistryHost(repository)
  {
    TrimSpaceFixed(repository);
    TrimKeeps(repository, "/");
    hide Trim, TrimSpace, IsSpace;
    assert repository[0] in repository && repository[|repository| - 1] in repository;
    var path := Trim(repository, "/");
    assert Index(path, '/') < 0;
  }

  lemma SlashHostExample()
    ensures ImageName(Registry(false, "registry.local/"), "app") == "registry.local//app"
    ensures BuildImageNamePrefix(Registry(false, "registry.local/"), "app") == "registry.local/app"
  {
    AppIsPlain();
    hide Trim, TrimSpace, HasRegistryHost, ImageName, BuildImageNamePrefix;
    assert "registry.local" + "/" == "registry.local/";
    SlashIsDoubled("registry.local", "app");
    assert "registry.local" + "//" + "app" == "registry.local//app";
    assert "registry.local" + "/" + "app" == "registry.local/app";
  }

  lemma AppIsPlain()
    ensures "app" != "" && Trim(TrimSpace("app"), "/") == "app" && !HasRegistryHost("app")
  {
    hide Trim, TrimSpace, HasRegistryHost;
    assert |"localhost"| == 9;
    PlainRepository("app");
  }
}
