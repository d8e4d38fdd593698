/** Unsigned decimal numerals as Go's strconv and fmt packages read and write them. */
module Numerals {

  const MAX_INT64: int := 0x7FFF_FFFF_FFFF_FFFF

  predicate Digits(s: string) {
    s != "" && forall i :: 0 <= i < |s| ==> '0' <= s[i] <= '9'
  }

  type Numeral = s: string | Digits(s) witness "0"

  function Value(s: string): nat
    requires forall i :: 0 <= i < |s| ==> '0' <= s[i] <= '9'
  {
    if s == "" then 0 else Value(s[..|s| - 1]) * 10 + (s[|s| - 1] - '0') as nat
  }

  function Decimal(n: nat): (s: Numeral)
    ensures Value(s) == n
    ensures n > 0 ==> s[0] != '0'
  {
    if n < 10 then
      var s := [(n as char) + '0'];
      assert s[..0] == "" && Value("") == 0;
      s
    else
      var s := Decimal(n / 10) + [(n % 10) as char + '0'];
      assert s[..|s| - 1] == Decimal(n / 10);
      s
  }

  function Digit(d: nat): char
    requires d < 10
  {
    d as char + '0'
  }

  /** A printed number with one more digit. */
  lemma DecimalAppend(n: nat, d: nat)
    requires n > 0 && d < 10
    ensures Decimal(10 * n + d) == Decimal(n) + [Digit(d)]
  {
    assert (10 * n + d) / 10 == n && (10 * n + d) % 10 == d;
  }

  lemma {:induction false} NoLeadingZeroIsDecimal(s: Numeral)
    requires s == "0" || s[0] != '0'
    ensures s == Decimal(Value(s))
    decreases |s|
  {
    var n := |s| - 1;
    var last := (s[n] - '0') as nat;
    assert s == s[..n] + [s[n]];
    if n == 0 {
      assert s[..0] == "" && Value("") == 0;
      assert Value(s) == last < 10;
    } else {
      assert Value(s) == Value(s[..n]) * 10 + last && Digit(last) == s[n];
      hide Value, Decimal;
      NoLeadingZeroIsDecimal(s[..n]);
      Positive(s[..n]);
      DecimalAppend(Value(s[..n]), last);
    }
  }

  lemma {:induction false} Positive(s: Numeral)
    requires s[0] != '0'
    ensures Value(s) > 0
    decreases |s|
  {
    if |s| > 1 {
      Positive(s[..|s| - 1]);
    } else {
      assert s[..0] == "";
    }
  }
}
