/** The order of texts: what Go's sort.Strings sorts by, and PostgreSQL under the C collation. */
module TextOrder {

  /** Compared character by character; a text comes before all that it begins. */
  predicate Less(a: string, b: string) {
    b != "" && (a == "" || a[0] < b[0] || (a[0] == b[0] && Less(a[1..], b[1..])))
  }

  /** The first difference decides, and running out of characters is the least of differences. */
  lemma {:induction false} LessIs(a: string, b: string)
    ensures Less(a, b) <==> exists n :: 0 <= n <= |a| && n < |b| && a[..n] == b[..n] && (n == |a| || a[n] < b[n])
  {
    if a == "" {
      assert b != "" ==> a[..0] == b[..0];
    } else if b != "" && a[0] == b[0] {
      LessIs(a[1..], b[1..]);
      if n :| 0 <= n <= |a| - 1 && n < |b| - 1 && a[1..][..n] == b[1..][..n]
              && (n == |a| - 1 || a[1..][n] < b[1..][n]) {
        assert a[..n + 1] == [a[0]] + a[1..][..n] && b[..n + 1] == [b[0]] + b[1..][..n];
      }
      if n :| 0 <= n <= |a| && n < |b| && a[..n] == b[..n] && (n == |a| || a[n] < b[n]) {
        assert n > 0;
        assert a[1..][..n - 1] == a[..n][1..] && b[1..][..n - 1] == b[..n][1..];
      }
    } else if b != "" {
      assert a[..0] == b[..0];
      assert forall n :: 0 < n <= |a| && n < |b| ==> a[..n][0] == a[0] && b[..n][0] == b[0];
    }
  }

  /** Exactly one of two texts that differ comes first. */
  lemma {:induction false} LessIsTotal(a: string, b: string)
    ensures Less(a, b) || Less(b, a) <==> a != b
    ensures !(Less(a, b) && Less(b, a))
  {
    if a != "" && b != "" {
      LessIsTotal(a[1..], b[1..]);
      assert a == [a[0]] + a[1..] && b == [b[0]] + b[1..];
    }
  }

  lemma {:induction false} LessIsTransitive(a: string, b: string, c: string)
    requires Less(a, b) && Less(b, c)
    ensures Less(a, c)
  {
    if a != "" && a[0] == b[0] == c[0] {
      LessIsTransitive(a[1..], b[1..], c[1..]);
    }
  }

  predicate Sorted(xs: seq<string>) {
    forall i, j :: 0 <= i < j < |xs| ==> !Less(xs[j], xs[i])
  }

  function Insert(xs: seq<string>, x: string): (ys: seq<string>)
    ensures multiset(ys) == multiset(xs) + multiset{x}
  {
    if xs == [] || Less(x, xs[0]) then [x] + xs
    else
      assert xs == [xs[0]] + xs[1..];
      [xs[0]] + Insert(xs[1..], x)
  }

  lemma {:induction false} InsertOrders(xs: seq<string>, x: string)
    requires Sorted(xs)
    ensures Sorted(Insert(xs, x))
  {
    hide Less;
    var ys := Insert(xs, x);
    if xs != [] && !Less(x, xs[0]) {
      InsertOrders(xs[1..], x);
      forall j | 0 < j < |ys|
        ensures !Less(ys[j], ys[0])
      {
        assert ys[j] == Insert(xs[1..], x)[j - 1];
        assert ys[j] in multiset(Insert(xs[1..], x));
      }
    } else if xs != [] {
      forall j | 0 < j < |ys|
        ensures !Less(ys[j], ys[0])
      {
        LessIsTotal(x, xs[0]);
        if Less(ys[j], x) {
          LessIsTransitive(ys[j], x, xs[0]);
        }
      }
    }
  }

  function SortedTexts(xs: seq<string>): seq<string> {
    if xs == [] then [] else Insert(SortedTexts(xs[..|xs| - 1]), xs[|xs| - 1])
  }

  lemma {:induction false} SortedTextsAre(xs: seq<string>)
    ensures Sorted(SortedTexts(xs)) && multiset(SortedTexts(xs)) == multiset(xs)
  {
    hide Insert, Sorted;
    if xs == [] {
      NothingIsSorted();
    } else {
      var n := |xs| - 1;
      SortedTextsAre(xs[..n]);
      InsertOrders(SortedTexts(xs[..n]), xs[n]);
      assert xs == xs[..n] + [xs[n]];
    }
  }

  lemma NothingIsSorted()
    ensures Sorted([])
  {}

  /** sort.Strings */
  method SortStrings(xs: seq<string>) returns (ys: seq<string>)
    ensures ys == SortedTexts(xs)
  {
    ys := [];
    for i := 0 to |xs|
      invariant ys == SortedTexts(xs[..i])
    {
      assert xs[..i + 1][..i] == xs[..i];
      ys := Insert(ys, xs[i]);
    }
    assert xs[..|xs|] == xs;
  }

  /** slices.Compact: runs of equal texts become one. */
  function Compact(xs: seq<string>): (ys: seq<string>)
    ensures xs != [] ==> ys != [] && ys[|ys| - 1] == xs[|xs| - 1]
  {
    if xs == [] then [] else
    var n := |xs| - 1;
    if n > 0 && xs[n - 1] == xs[n] then Compact(xs[..n]) else Compact(xs[..n]) + [xs[n]]
  }

  /** Of sorted texts, that leaves each once. */
  lemma {:induction false} CompactIsDistinct(xs: seq<string>)
    requires Sorted(xs)
    ensures forall x :: x in Compact(xs) <==> x in xs
    ensures forall i, j :: 0 <= i < j < |Compact(xs)| ==> Compact(xs)[i] != Compact(xs)[j]
    decreases |xs|
  {
    hide Less;
    if xs != [] {
      var n := |xs| - 1;
      CompactIsDistinct(xs[..n]);
      assert xs == xs[..n] + [xs[n]];
      if n > 0 && xs[n - 1] != xs[n] {
        LastIsNew(xs);
      }
    }
  }

  lemma LastIsNew(xs: seq<string>)
    requires Sorted(xs) && |xs| > 1 && xs[|xs| - 2] != xs[|xs| - 1]
    ensures xs[|xs| - 1] !in xs[..|xs| - 1]
  {
    hide Less;
    var n := |xs| - 1;
    forall i | 0 <= i < n
      ensures xs[i] != xs[n]
    {
      LessIsTotal(xs[n - 1], xs[n]);
      if i < n - 1 {
        LessIsTotal(xs[i], xs[n - 1]);
      }
    }
  }
}
