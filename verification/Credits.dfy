/**
 Credit amounts. The database keeps every amount as numeric(24,8), so a stored amount is a whole
 number of quanta of 10^-8 credit and has type int. Amounts held in memory are exact decimals and
 have type real, in the same unit. Writing an amount to a column rounds it half away from zero.
 */
module Credits {

  function Round(x: real): int {
    if x >= 0.0 then (x + 0.5).Floor else -((0.5 - x).Floor)
  }

  predicate Whole(x: real) {
    x == x.Floor as real
  }

  lemma RoundNearest(x: real)
    ensures x - 0.5 <= Round(x) as real <= x + 0.5
  {}

  /** The nearest whole number and, halfway between two of them, the one farther from zero. */
  lemma RoundExactly(x: real, n: int)
    ensures Round(x) == n <==> (&& n as real - 0.5 <= x <= n as real + 0.5
                                && (x == n as real + 0.5 ==> x < 0.0)
                                && (x == n as real - 0.5 ==> x > 0.0))
  {}

  lemma RoundWhole(n: int)
    ensures Round(n as real) == n
  {
    if n >= 0 {
      assert (n as real + 0.5).Floor == n;
    } else {
      assert (0.5 - n as real).Floor == -n;
    }
  }

  lemma RoundMonotone(x: real, y: real)
    requires x <= y
    ensures Round(x) <= Round(y)
  {}

  lemma RoundNegate(x: real)
    ensures Round(-x) == -Round(x)
  {}

  lemma RoundShiftWhole(n: int, x: real)
    requires Whole(x)
    ensures Round(n as real + x) == n + Round(x)
  {
    var m := x.Floor;
    assert n as real + x == (n + m) as real;
    RoundWhole(n + m);
    RoundWhole(m);
  }

  /** A stored bound survives rounding: an exact amount at or above a whole number stays there. */
  lemma RoundKeepsFloor(n: int, x: real)
    requires n as real <= x
    ensures n <= Round(x)
  {
    RoundMonotone(n as real, x);
    RoundWhole(n);
  }
}
