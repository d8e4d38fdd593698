/**
 Cleaning the arguments and results of a tool call before they are shown: sanitizeToolValue of
 internal/agentobservability/conversation_store.go. A map is walked in any order, so the result is a
 relation. Texts are Go strings, that is strings of bytes.
 */
module ToolValues {
  import opened Wrappers
  import opened Text

  datatype Value =
    | Text(text: string)
    | List(items: seq<Value>)
    | Object(fields: map<string, Value>)
    | Scalar(id: int)

  const MAX_DEPTH := 6
  const MAX_TEXT := 2000
  const MAX_ENTRIES := 50

  const TRUNCATED := Text("[TRUNCATED]")

  const FRAGMENTS := ["authorization", "cookie", "password", "secret", "token", "credential", "api_key", "apikey",
      "kubeconfig"]

  predicate SensitiveToolKey(key: string, lower: string -> string) {
    exists i :: 0 <= i < |FRAGMENTS| && Contains(lower(key), FRAGMENTS[i])
  }

  function OpenKeys(fields: map<string, Value>, lower: string -> string): set<string> {
    set key | key in fields && !SensitiveToolKey(key, lower)
  }

  function Min(a: nat, b: nat): nat {
    if a < b then a else b
  }

  /** r is what cleaning v at this depth may give. */
  ghost predicate Sanitizes(v: Value, depth: nat, lower: string -> string, r: Value)
    decreases MAX_DEPTH - depth
  {
    if depth >= MAX_DEPTH then r == TRUNCATED else
    match v
    case Text(text) => r == Text(text[..Min(|text|, MAX_TEXT)])
    case List(items) =>
      && r.List?
      && |r.items| == Min(|items|, MAX_ENTRIES)
      && forall i :: 0 <= i < |r.items| ==> Sanitizes(items[i], depth + 1, lower, r.items[i])
    case Object(fields) =>
      && r.Object?
      && r.fields.Keys <= OpenKeys(fields, lower)
      && |r.fields| == Min(|OpenKeys(fields, lower)|, MAX_ENTRIES)
      && forall key :: key in r.fields ==> Sanitizes(fields[key], depth + 1, lower, r.fields[key])
    case Scalar(_) => r == v
  }

  method SanitizeToolValue(value: Value, depth: nat, lower: string -> string) returns (result: Value)
    ensures Sanitizes(value, depth, lower, result)
    decreases MAX_DEPTH - depth, 1
  {
    if depth >= MAX_DEPTH {
      return TRUNCATED;
    }
    match value {
      case Text(text) =>
        if |text| > MAX_TEXT {
          return Text(text[..MAX_TEXT]);
        }
        assert text[..|text|] == text;
        return value;
      case List(items) =>
        var list := SanitizeItems(items, depth, lower);
        return List(list);
      case Object(fields) =>
        var cleaned := SanitizeFields(fields, depth, lower);
        return Object(cleaned);
      case Scalar(_) =>
        return value;
    }
  }

  method SanitizeItems(all: seq<Value>, depth: nat, lower: string -> string) returns (result: seq<Value>)
    requires depth < MAX_DEPTH
    ensures |result| == Min(|all|, MAX_ENTRIES)
    ensures forall i :: 0 <= i < |result| ==> Sanitizes(all[i], depth + 1, lower, result[i])
    decreases MAX_DEPTH - depth, 0
  {
    hide Sanitizes;
    var items := all;
    if |items| > MAX_ENTRIES {
      items := items[..MAX_ENTRIES];
    }
    result := [];
    for i := 0 to |items|
      invariant |result| == i
      invariant forall j :: 0 <= j < i ==> Sanitizes(items[j], depth + 1, lower, result[j])
    {
      var item := SanitizeToolValue(items[i], depth + 1, lower);
      result := result + [item];
    }
  }

  method SanitizeFields(fields: map<string, Value>, depth: nat, lower: string -> string)
    returns (result: map<string, Value>)
    requires depth < MAX_DEPTH
    ensures result.Keys <= OpenKeys(fields, lower) && |result| == Min(|OpenKeys(fields, lower)|, MAX_ENTRIES)
    ensures forall key :: key in result ==> Sanitizes(fields[key], depth + 1, lower, result[key])
    decreases MAX_DEPTH - depth, 0
  {
    hide Sanitizes, SensitiveToolKey, OpenKeys, Picked, Min;
    result := map[];
    var count := 0;
    var left := fields.Keys;
    NonePicked(fields, depth, lower);
    while left != {}
      invariant left <= fields.Keys
      invariant Picked(fields, depth, lower, left, result)
      invariant |result| == count < MAX_ENTRIES
    {
      var key :| key in left;
      if SensitiveToolKey(key, lower) {
        SkipKey(fields, depth, lower, left, result, key);
        left := left - {key};
        continue;
      }
      var item := SanitizeToolValue(fields[key], depth + 1, lower);
      PickKey(fields, depth, lower, left, result, key, item);
      left := left - {key};
      result := result[key := item];
      count := count + 1;
      if count >= MAX_ENTRIES {
        EnoughPicked(fields, depth, lower, left, result);
        return;
      }
    }
    EnoughPicked(fields, depth, lower, left, result);
  }

  /** The state of the walk: what is not left and not sensitive has been cleaned. */
  ghost predicate Picked(fields: map<string, Value>, depth: nat, lower: string -> string, left: set<string>,
                         result: map<string, Value>)
    requires depth < MAX_DEPTH
  {
    && (forall key :: key in result <==> key in OpenKeys(fields, lower) && key !in left)
    && (forall key :: key in result ==> Sanitizes(fields[key], depth + 1, lower, result[key]))
  }

  lemma NonePicked(fields: map<string, Value>, depth: nat, lower: string -> string)
    requires depth < MAX_DEPTH
    ensures Picked(fields, depth, lower, fields.Keys, map[])
  {
    hide SensitiveToolKey;
  }

  lemma SkipKey(fields: map<string, Value>, depth: nat, lower: string -> string, left: set<string>,
                result: map<string, Value>, key: string)
    requires depth < MAX_DEPTH && key in left && SensitiveToolKey(key, lower)
            && Picked(fields, depth, lower, left, result)
    ensures Picked(fields, depth, lower, left - {key}, result)
  {
    hide SensitiveToolKey, Sanitizes;
  }

  lemma PickKey(fields: map<string, Value>, depth: nat, lower: string -> string, left: set<string>,
                result: map<string, Value>, key: string, item: Value)
    requires depth < MAX_DEPTH && key in left && key in fields && !SensitiveToolKey(key, lower)
    requires Picked(fields, depth, lower, left, result) && Sanitizes(fields[key], depth + 1, lower, item)
    ensures Picked(fields, depth, lower, left - {key}, result[key := item])
    ensures |result[key := item]| == |result| + 1
  {
    hide SensitiveToolKey, Sanitizes;
    NewKey(result, key, item);
  }

  lemma EnoughPicked(fields: map<string, Value>, depth: nat, lower: string -> string, left: set<string>,
                     result: map<string, Value>)
    requires depth < MAX_DEPTH && Picked(fields, depth, lower, left, result)
    requires |result| == MAX_ENTRIES || (left == {} && |result| < MAX_ENTRIES)
    ensures result.Keys <= OpenKeys(fields, lower) && |result| == Min(|OpenKeys(fields, lower)|, MAX_ENTRIES)
    ensures forall key :: key in result ==> Sanitizes(fields[key], depth + 1, lower, result[key])
  {
    hide SensitiveToolKey, Sanitizes, OpenKeys;
    OpenKeysAre(fields, lower);
    Within(result.Keys, OpenKeys(fields, lower));
    if left == {} {
      assert result.Keys == OpenKeys(fields, lower);
    }
  }

  lemma OpenKeysAre(fields: map<string, Value>, lower: string -> string)
    ensures forall key :: key in OpenKeys(fields, lower) <==> key in fields && !SensitiveToolKey(key, lower)
  {
    hide SensitiveToolKey;
  }

  lemma NewKey(fields: map<string, Value>, key: string, item: Value)
    requires key !in fields
    ensures |fields[key := item]| == |fields| + 1
  {
    assert fields[key := item].Keys == fields.Keys + {key};
  }

  lemma {:induction false} Within<T>(a: set<T>, b: set<T>)
    requires a <= b
    ensures |a| <= |b|
    ensures |a| == |b| ==> a == b
  {
    if a != {} {
      var x :| x in a;
      Within(a - {x}, b - {x});
    } 
  }

  // ---- What every result has ----

  /** Nothing below a depth, nothing too long, and no sensitive key anywhere. */
  ghost predicate Presentable(r: Value, depth: nat, lower: string -> string)
    decreases MAX_DEPTH - depth
  {
    if depth >= MAX_DEPTH then r == TRUNCATED else
    match r
    case Text(text) => |text| <= MAX_TEXT
    case List(items) => |items| <= MAX_ENTRIES
        && forall i :: 0 <= i < |items| ==> Presentable(items[i], depth + 1, lower)
    case Object(fields) =>
      && |fields| <= MAX_ENTRIES
      && forall key :: key in fields ==> !SensitiveToolKey(key, lower) && Presentable(fields[key], depth + 1, lower)
    case Scalar(_) => true
  }

  lemma {:induction false} ResultIsPresentable(v: Value, depth: nat, lower: string -> string, r: Value)
    requires Sanitizes(v, depth, lower, r)
    ensures Presentable(r, depth, lower)
    decreases MAX_DEPTH - depth
  {
    hide SensitiveToolKey;
    if depth < MAX_DEPTH {
      match v {
        case List(items) =>
          forall i | 0 <= i < |r.items|
            ensures Presentable(r.items[i], depth + 1, lower)
          {
            ResultIsPresentable(items[i], depth + 1, lower, r.items[i]);
          }
        case Object(fields) =>
          forall key | key in r.fields
            ensures !SensitiveToolKey(key, lower) && Presentable(r.fields[key], depth + 1, lower)
          {
            ResultIsPresentable(fields[key], depth + 1, lower, r.fields[key]);
          }
        case _ =>
      }
    }
  }

  /** Presentable values are exactly those that cleaning leaves alone, in whatever order it walks. */
  lemma {:induction false} PresentableIsFixed(v: Value, depth: nat, lower: string -> string, r: Value)
    requires Presentable(v, depth, lower)
    ensures Sanitizes(v, depth, lower, r) <==> r == v
    decreases MAX_DEPTH - depth
  {
    hide SensitiveToolKey;
    if depth < MAX_DEPTH {
      match v {
        case Text(text) =>
          assert text[..|text|] == text;
        case List(items) =>
          if r.List? && |r.items| == |items| {
            forall i | 0 <= i < |items|
              ensures Sanitizes(items[i], depth + 1, lower, r.items[i]) <==> r.items[i] == items[i]
            {
              PresentableIsFixed(items[i], depth + 1, lower, r.items[i]);
            }
            assert r == v <==> forall i :: 0 <= i < |items| ==> r.items[i] == items[i];
          }
        case Object(fields) =>
          assert OpenKeys(fields, lower) == fields.Keys;
          if r.Object? && r.fields.Keys <= fields.Keys {
            forall key | key in r.fields
              ensures Sanitizes(fields[key], depth + 1, lower, r.fields[key]) <==> r.fields[key] == fields[key]
            {
              PresentableIsFixed(fields[key], depth + 1, lower, r.fields[key]);
            }
            Within(r.fields.Keys, fields.Keys);
            if r.fields.Keys == fields.Keys && (forall key :: key in fields ==> r.fields[key] == fields[key]) {
              assert r.fields == fields;
            }
          }
        case Scalar(_) =>
      }
    }
  }

  /** Cleaning twice is cleaning once, even when both walks pick their own fifty keys. */
  lemma SanitizingIsIdempotent(v: Value, depth: nat, lower: string -> string, r: Value, again: Value)
    requires Sanitizes(v, depth, lower, r) && Sanitizes(r, depth, lower, again)
    ensures again == r
  {
    ResultIsPresentable(v, depth, lower, r);
    PresentableIsFixed(r, depth, lower, again);
  }

  // ---- The result, place by place ----

  datatype Place = Item(i: nat) | Field(key: string)

  /** The value at the end of a path of items and fields. */
  function Walk(v: Value, path: seq<Place>): Option<Value> {
    if path == [] then Some(v) else
    match (v, path[0])
    case (List(items), Item(i)) => if i < |items| then Walk(items[i], path[1..]) else None
    case (Object(fields), Field(key)) => if key in fields then Walk(fields[key], path[1..]) else None
    case _ => None
  }

  predicate SecretWord(word: string) {
    || word == "authorization" || word == "cookie" || word == "password" || word == "secret" || word == "token"
    || word == "credential" || word == "api_key" || word == "apikey" || word == "kubeconfig"
  }

  /** The lower-cased key contains a word that stands for something secret. */
  ghost predicate Hidden(key: string, lower: string -> string) {
    exists word, a, b :: SecretWord(word) && lower(key) == a + word + b
  }

  /** What is left of a value that is not too deep: texts and lists cut to size, and hidden fields gone. */
  ghost predicate Cleaned(x: Value, y: Value, lower: string -> string) {
    match x
    case Text(text) => y == Text(if |text| > 2000 then text[..2000] else text)
    case Scalar(_) => y == x
    case List(items) => y.List? && |y.items| == if |items| > 50 then 50 else |items|
    case Object(fields) =>
      var open := set key | key in fields && !Hidden(key, lower);
      y.Object? && y.fields.Keys <= open && |y.fields| == if |open| > 50 then 50 else |open|
  }

  lemma HiddenIs(key: string, lower: string -> string)
    ensures SensitiveToolKey(key, lower) <==> Hidden(key, lower)
  {
    forall word
      ensures Contains(lower(key), word) <==> exists a, b :: lower(key) == a + word + b
    {
      ContainsIs(lower(key), word);
    }
    SecretWordsAre();
    hide SecretWord, Contains;
    if word, a, b :| SecretWord(word) && lower(key) == a + word + b {
      var i :| 0 <= i < |FRAGMENTS| && FRAGMENTS[i] == word;
      assert Contains(lower(key), FRAGMENTS[i]);
    }
  }

  lemma SecretWordsAre()
    ensures forall i :: 0 <= i < |FRAGMENTS| ==> SecretWord(FRAGMENTS[i])
    ensures forall word :: SecretWord(word) ==> exists i :: 0 <= i < |FRAGMENTS| && FRAGMENTS[i] == word
  {
    assert FRAGMENTS[0] == "authorization" && FRAGMENTS[1] == "cookie" && FRAGMENTS[2] == "password";
    assert FRAGMENTS[3] == "secret" && FRAGMENTS[4] == "token" && FRAGMENTS[5] == "credential";
    assert FRAGMENTS[6] == "api_key" && FRAGMENTS[7] == "apikey" && FRAGMENTS[8] == "kubeconfig";
  }

  /**
   Wherever the result has a value, it is the cleaned value of that place, or at the sixth level a mark; and
   there is nothing deeper than that.
   */
  lemma {:induction false} CleanedAt(v: Value, depth: nat, lower: string -> string, r: Value, path: seq<Place>)
    requires Sanitizes(v, depth, lower, r) && depth <= 6 && Walk(r, path).Some?
    ensures depth + |path| <= 6
    ensures depth + |path| == 6 ==> Walk(r, path) == Some(Text("[TRUNCATED]"))
    ensures depth + |path| < 6 ==> Walk(v, path).Some? && Cleaned(Walk(v, path).value, Walk(r, path).value, lower)
    decreases |path|
  {
    forall key
      ensures SensitiveToolKey(key, lower) <==> Hidden(key, lower)
    {
      HiddenIs(key, lower);
    }
    hide SensitiveToolKey, Hidden;
    if path == [] {
      assert v.Object? ==> OpenKeys(v.fields, lower) == set key | key in v.fields && !Hidden(key, lower);
    } else {
      match path[0]
      case Item(i) => CleanedAt(v.items[i], depth + 1, lower, r.items[i], path[1..]);
      case Field(key) => CleanedAt(v.fields[key], depth + 1, lower, r.fields[key], path[1..]);
    }
  }
}
