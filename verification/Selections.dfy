/** Lists filtered and mapped element by element, in order. */
module Selections {

  function Select<T, U>(xs: seq<T>, keep: T -> bool, image: T -> U): (ys: seq<U>)
    ensures |ys| <= |xs|
  {
    if xs == [] then [] else
    var n := |xs| - 1;
    Select(xs[..n], keep, image) + if keep(xs[n]) then [image(xs[n])] else []
  }

  lemma SelectAppend<T, U>(xs: seq<T>, i: nat, keep: T -> bool, image: T -> U)
    requires i < |xs|
    ensures Select(xs[..i + 1], keep, image)
            == Select(xs[..i], keep, image) + if keep(xs[i]) then [image(xs[i])] else []
  {
    assert xs[..i + 1][..i] == xs[..i];
  }

  /** What is not to be kept adds nothing. */
  lemma {:induction false} SelectNoMore<T, U>(xs: seq<T>, more: seq<T>, keep: T -> bool, image: T -> U)
    requires forall x :: x in more ==> !keep(x)
    ensures Select(xs + more, keep, image) == Select(xs, keep, image)
    decreases |more|
  {
    if more == [] {
      assert xs + more == xs;
    } else {
      var n := |more| - 1;
      SelectNoMore(xs, more[..n], keep, image);
      assert (xs + more)[..|xs| + n] == xs + more[..n];
      assert more[n] in more;
    }
  }

  /** The positions of the elements to keep. */
  function Positions<T>(xs: seq<T>, keep: T -> bool): seq<nat> {
    if xs == [] then [] else
    var n := |xs| - 1;
    Positions(xs[..n], keep) + if keep(xs[n]) then [n] else []
  }

  /** A selection is the images of the elements at those positions. */
  lemma {:induction false} SelectAt<T, U>(xs: seq<T>, keep: T -> bool, image: T -> U)
    ensures |Positions(xs, keep)| == |Select(xs, keep, image)|
    ensures forall i :: 0 <= i < |Positions(xs, keep)| ==>
              Positions(xs, keep)[i] < |xs| && Select(xs, keep, image)[i] == image(xs[Positions(xs, keep)[i]])
  {
    if xs != [] {
      var n := |xs| - 1;
      SelectAt(xs[..n], keep, image);
    }
  }

  /** They are exactly the positions of the elements to keep. */
  lemma {:induction false} PositionsAre<T>(xs: seq<T>, keep: T -> bool, k: nat)
    requires k < |xs|
    ensures k in Positions(xs, keep) <==> keep(xs[k])
  {
    var n := |xs| - 1;
    if k < n {
      PositionsAre(xs[..n], keep, k);
    } else {
      PositionsBelow(xs[..n], keep);
    }
  }

  lemma {:induction false} PositionsBelow<T>(xs: seq<T>, keep: T -> bool)
    ensures forall p :: p in Positions(xs, keep) ==> p < |xs|
  {
    if xs != [] {
      PositionsBelow(xs[..|xs| - 1], keep);
    }
  }

  /** Strictly increasing: what they pick out is a subsequence, in the original order. */
  lemma {:induction false} PositionsIncrease<T>(xs: seq<T>, keep: T -> bool)
    ensures forall i, j :: 0 <= i < j < |Positions(xs, keep)| ==> Positions(xs, keep)[i] < Positions(xs, keep)[j]
  {
    if xs != [] {
      var before := Positions(xs[..|xs| - 1], keep);
      PositionsIncrease(xs[..|xs| - 1], keep);
      PositionsBelow(xs[..|xs| - 1], keep);
      assert forall i :: 0 <= i < |before| ==> before[i] in before;
    }
  }

  /** ys is exactly the images of the elements to keep, each once and in order. */
  ghost predicate IsSelection<T, U>(xs: seq<T>, keep: T -> bool, image: T -> U, ys: seq<U>) {
    var at := Positions(xs, keep);
    && |at| == |ys|
    && (forall i :: 0 <= i < |at| ==> at[i] < |xs| && ys[i] == image(xs[at[i]]))
    && (forall i, j :: 0 <= i < j < |at| ==> at[i] < at[j])
    && (forall k :: 0 <= k < |xs| ==> (k in at <==> keep(xs[k])))
  }

  lemma SelectIsSelection<T, U>(xs: seq<T>, keep: T -> bool, image: T -> U)
    ensures IsSelection(xs, keep, image, Select(xs, keep, image))
  {
    hide Positions, Select;
    SelectAt(xs, keep, image);
    PositionsIncrease(xs, keep);
    forall k | 0 <= k < |xs|
      ensures k in Positions(xs, keep) <==> keep(xs[k])
    {
      PositionsAre(xs, keep, k);
    }
  }
}
