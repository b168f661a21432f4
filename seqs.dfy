/** First-match search and removal on lists, the pattern every registry in hbox uses:
    scan from the front, stop at the first element with the wanted name. */
module Seqs {
  import opened Wrappers

  /** The list of `f` of each element, in order: the name lists the registries search. */
  function Map<T, U>(xs: seq<T>, f: T -> U): (ys: seq<U>)
    ensures |ys| == |xs| && forall i :: 0 <= i < |xs| ==> ys[i] == f(xs[i])
  {
    seq(|xs|, i requires 0 <= i < |xs| => f(xs[i]))
  }

  /** The index of the first `x` in `xs`, or `None` when there is none. */
  function FirstIndex<T(==)>(xs: seq<T>, x: T): (r: Option<nat>)
    ensures r.Some? ==> r.value < |xs| && xs[r.value] == x && x !in xs[..r.value]
    ensures r.None? <==> x !in xs
  {
    if |xs| == 0 then None
    else if xs[0] == x then Some(0)
    else match FirstIndex(xs[1..], x)
      case None => None
      case Some(k) =>
        assert xs[..k + 1] == [xs[0]] + xs[1..][..k];
        Some(k + 1)
  }

  /** A known first position is what `FirstIndex` finds. */
  lemma {:induction false} FirstIndexIs<T>(xs: seq<T>, x: T, k: nat)
    requires k < |xs| && xs[k] == x && x !in xs[..k]
    ensures FirstIndex(xs, x) == Some(k)
  {
    if k > 0 {
      assert xs[1..][..k - 1] == xs[1..k];
      assert xs[0] == xs[..k][0];
      FirstIndexIs(xs[1..], x, k - 1);
    }
  }

  /** The list without its element at `k`. */
  function RemoveAt<T>(xs: seq<T>, k: nat): (r: seq<T>)
    requires k < |xs|
    ensures |r| == |xs| - 1
    ensures forall i :: 0 <= i < k ==> r[i] == xs[i]
    ensures forall i :: k <= i < |r| ==> r[i] == xs[i + 1]
  {
    xs[..k] + xs[k + 1..]
  }

  /** No value occurs twice. */
  predicate Distinct<T(==)>(xs: seq<T>) {
    forall i, j :: 0 <= i < j < |xs| ==> xs[i] != xs[j]
  }

  /** In a distinct list the element removed appears nowhere else. */
  lemma RemoveAtDistinctDrops<T>(xs: seq<T>, k: nat)
    requires Distinct(xs) && k < |xs|
    ensures xs[k] !in RemoveAt(xs, k)
  {
    var r := RemoveAt(xs, k);
    forall i | 0 <= i < |r|
      ensures r[i] != xs[k]
    {
      if i < k {
        assert r[i] == xs[i];
      } else {
        assert r[i] == xs[i + 1];
      }
    }
  }

  lemma DistinctRemoveAt<T>(xs: seq<T>, k: nat)
    requires Distinct(xs) && k < |xs|
    ensures Distinct(RemoveAt(xs, k))
  {
    var r := RemoveAt(xs, k);
    forall i, j | 0 <= i < j < |r|
      ensures r[i] != r[j]
    {
      var i' := if i < k then i else i + 1;
      var j' := if j < k then j else j + 1;
      assert r[i] == xs[i'] && r[j] == xs[j'];
    }
  }

  /** Removing from a list without repeats leaves no copy of the removed value. */
  lemma RemoveFirstFromDistinct<T>(xs: seq<T>, x: T)
    requires Distinct(xs) && x in xs
    ensures var k := FirstIndex(xs, x).value; x !in RemoveAt(xs, k) && Distinct(RemoveAt(xs, k))
  {
    var k := FirstIndex(xs, x).value;
    var r := RemoveAt(xs, k);
    forall i | 0 <= i < |r|
      ensures r[i] != x
    {
      if i < k {
        assert r[i] == xs[i];
      } else {
        assert r[i] == xs[i + 1];
      }
    }
  }
}
