/**
 Shortening a commit message to a number of bytes without splitting a character:
 NormalizeSourceCommitMessage of internal/model/build.go, on messages that are valid UTF-8
 (section 3 of RFC 3629).
 */
module CommitMessage {
  import opened Text

  const MAX_BYTES := 4096

  newtype Byte = b: int | 0 <= b < 256

  /** The bytes of one character, section 3 of RFC 3629. */
  function EncodeChar(c: char): (bytes: seq<Byte>)
    ensures 1 <= |bytes| <= 4
    ensures RuneStart(bytes[0])
    ensures forall i :: 1 <= i < |bytes| ==> !RuneStart(bytes[i])
  {
    var n := c as int;
    if n < 0x80 then [n as Byte]
    else if n < 0x800 then [(0xC0 + n / 0x40) as Byte, (0x80 + n % 0x40) as Byte]
    else if n < 0x10000 then [(0xE0 + n / 0x1000) as Byte, (0x80 + n / 0x40 % 0x40) as Byte, (0x80 + n % 0x40) as Byte]
    else [(0xF0 + n / 0x40000) as Byte, (0x80 + n / 0x1000 % 0x40) as Byte, (0x80 + n / 0x40 % 0x40) as Byte,
        (0x80 + n % 0x40) as Byte]
  }

  /** utf8.RuneStart: not of the form 10xxxxxx */
  predicate RuneStart(b: Byte) {
    b < 0x80 || b >= 0xC0
  }

  function Encode(s: string): seq<Byte> {
    if s == "" then [] else Encode(s[..|s| - 1]) + EncodeChar(s[|s| - 1])
  }

  /** The longest prefix of whole characters that fits. */
  function Fitting(s: string, limit: nat): string {
    if |Encode(s)| <= limit then s else
    Fitting(s[..|s| - 1], limit)
  }

  function Normalized(message: string): string {
    TrimSpace(Fitting(TrimSpace(message), MAX_BYTES))
  }

  lemma {:induction false} FittingIsLongest(s: string, limit: nat)
    ensures Fitting(s, limit) <= s && |Encode(Fitting(s, limit))| <= limit
    ensures forall k :: |Fitting(s, limit)| < k <= |s| ==> |Encode(s[..k])| > limit
  {
    hide Encode;
    if |Encode(s)| > limit {
      assert Encode("") == [] by { Nothing(); }
      FittingIsLongest(s[..|s| - 1], limit);
      assert s[..|s|] == s;
      assert forall k :: 0 <= k < |s| ==> s[..|s| - 1][..k] == s[..k];
    } else {
      assert s[..|s|] == s;
    }
  }

  lemma Nothing()
    ensures Encode("") == []
  {}

  lemma {:induction false} EncodeSplit(a: string, b: string)
    ensures Encode(a + b) == Encode(a) + Encode(b)
  {
    hide EncodeChar;
    if b == "" {
      assert a + b == a;
    } else {
      EncodeSplit(a, b[..|b| - 1]);
      assert (a + b)[..|a + b| - 1] == a + b[..|b| - 1];
    }
  }

  /** Within the bytes of one character only the first is no continuation byte. */
  lemma InsideCharacter(s: string, k: nat, cut: nat)
    requires k < |s| && |Encode(s[..k])| <= cut < |Encode(s[..k + 1])|
    ensures cut < |Encode(s)|
    ensures RuneStart(Encode(s)[cut]) <==> cut == |Encode(s[..k])|
  {
    hide EncodeChar;
    assert s == s[..k + 1] + s[k + 1..];
    EncodeSplit(s[..k + 1], s[k + 1..]);
    assert s[..k + 1][..k] == s[..k];
    assert Encode(s[..k + 1]) == Encode(s[..k]) + EncodeChar(s[k]);
  }

  /** Stepping back from the limit over continuation bytes gives the longest prefix of whole characters that fits. */
  method CutAtCharacter(message: seq<Byte>, ghost text: string) returns (cut: nat)
    requires message == Encode(text)
    ensures cut <= |message| && message[..cut] == Encode(Fitting(text, MAX_BYTES))
  {
    hide Encode, RuneStart;
    FittingIsLongest(text, MAX_BYTES);
    if |message| <= MAX_BYTES {
      return |message|;
    }
    ghost var k := |Fitting(text, MAX_BYTES)|;
    assert text[..k] == Fitting(text, MAX_BYTES);
    assert text[..|text|] == text;
    ghost var start := |Encode(text[..k])|;
    cut := MAX_BYTES;
    InsideCharacter(text, k, cut);
    while cut > 0 && !RuneStart(message[cut])
      invariant start <= cut <= MAX_BYTES < |message|
      invariant RuneStart(message[cut]) <==> cut == start
    {
      cut := cut - 1;
      InsideCharacter(text, k, cut);
    }
    assert text == text[..k] + text[k..];
    EncodeSplit(text[..k], text[k..]);
  }

  /** Reading the cut bytes back gives the same characters. */
  lemma {:induction false} FittingAgain(s: string, limit: nat)
    ensures Fitting(s, |Encode(Fitting(s, limit))|) == Fitting(s, limit)
  {
    hide Encode;
    FittingIsLongest(s, limit);
    Nothing();
    if |Encode(s)| > limit {
      FittingAgain(s[..|s| - 1], limit);
    }
  }

  method NormalizeSourceCommitMessage(text: string) returns (message: string)
    ensures message == Normalized(text)
  {
    hide Encode, TrimSpace;
    var trimmed := TrimSpace(text);
    var cut := CutAtCharacter(Encode(trimmed), trimmed);
    FittingAgain(trimmed, MAX_BYTES);
    message := TrimSpace(Fitting(trimmed, cut));
  }

  lemma EncodeTrimmed(s: string)
    ensures |Encode(TrimSpace(s))| <= |Encode(s)|
  {
    hide Encode;
    var left := TrimLeft(s);
    TrimLeftParts(s);
    TrimRightParts(left);
    var t := TrimSpace(s);
    assert s == s[..|s| - |left|] + left && left == t + left[|t|..];
    EncodeSplit(s[..|s| - |left|], left);
    EncodeSplit(t, left[|t|..]);
  }

  /** The stored message never exceeds the limit, and storing it again changes nothing. */
  lemma NormalizedFits(message: string)
    ensures |Encode(Normalized(message))| <= MAX_BYTES
    ensures Normalized(Normalized(message)) == Normalized(message)
  {
    hide Encode, TrimSpace;
    var kept := Fitting(TrimSpace(message), MAX_BYTES);
    FittingIsLongest(TrimSpace(message), MAX_BYTES);
    EncodeTrimmed(kept);
    TrimSpaceTwice(kept);
  }

  /** Six more bits. */
  function Six(n: int, b: Byte): int {
    n * 64 + b as int - 0x80
  }

  /** The bytes of a character read back: the code point in groups of six bits, in the shortest form. */
  lemma EncodeCharReads(c: char)
    ensures var b, n := EncodeChar(c), c as int;
            && (forall i :: 1 <= i < |b| ==> 0x80 <= b[i] as int < 0xC0)
            && (|b| == 1 ==> n < 0x80 && n == b[0] as int)
            && (|b| == 2 ==> 0x80 <= n < 0x800 && n == Six(b[0] as int - 0xC0, b[1]))
            && (|b| == 3 ==> 0x800 <= n < 0x10000 && n == Six(Six(b[0] as int - 0xE0, b[1]), b[2]))
            && (|b| == 4 ==> 0x10000 <= n && n == Six(Six(Six(b[0] as int - 0xF0, b[1]), b[2]), b[3]))
  {
    SixBits(c as int);
    SixBits(c as int / 0x40);
    SixBits(c as int / 0x1000);
    Shifted(c as int);
  }

  lemma SixBits(n: nat)
    ensures n == n / 0x40 * 64 + n % 0x40 && 0 <= n % 0x40 < 0x40
  {}

  lemma Shifted(n: nat)
    ensures n / 0x40 / 0x40 == n / 0x1000 && n / 0x1000 / 0x40 == n / 0x40000
  {}

  /** A stored message is the longest prefix of the trimmed text within 4096 bytes, trimmed again. */
  lemma NormalizedIsPrefix(message: string) returns (n: nat)
    ensures n <= |TrimSpace(message)| && Normalized(message) == TrimSpace(TrimSpace(message)[..n])
    ensures |Encode(TrimSpace(message)[..n])| <= 4096
    ensures forall k :: n < k <= |TrimSpace(message)| ==> |Encode(TrimSpace(message)[..k])| > 4096
  {
    hide Encode, TrimSpace;
    var text := TrimSpace(message);
    FittingIsLongest(text, 4096);
    n := |Fitting(text, 4096)|;
    assert text[..n] == Fitting(text, 4096);
  }
}
