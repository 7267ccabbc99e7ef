/**
 * Keep-in-order filtering. The runtime's loops that `push` an item for some
 * inputs and `continue` past the others all compute `FilterMap`.
 */
module Seqs {
  import opened Wrappers

  /** Apply `f` to each element in order and keep the `Some` results. */
  function FilterMap<A, B>(xs: seq<A>, f: A -> Option<B>): (r: seq<B>)
    ensures |r| <= |xs|
  {
    if xs == [] then [] else OptionToSeq(f(xs[0])) + FilterMap(xs[1..], f)
  }

  lemma {:induction false} FilterMapAppend<A, B>(xs: seq<A>, ys: seq<A>, f: A -> Option<B>)
    ensures FilterMap(xs + ys, f) == FilterMap(xs, f) + FilterMap(ys, f)
  {
    if xs != [] {
      assert (xs + ys)[1..] == xs[1..] + ys;
      FilterMapAppend(xs[1..], ys, f);
    } else {
      assert xs + ys == ys;
    }
  }

  /** One more input adds its own result, if any, at the end. */
  lemma FilterMapSnoc<A, B>(xs: seq<A>, x: A, f: A -> Option<B>)
    ensures FilterMap(xs + [x], f) == FilterMap(xs, f) + OptionToSeq(f(x))
  {
    FilterMapAppend(xs, [x], f);
  }

  /**
   * Order is kept: the result of the element at `i` sits right after the
   * results of the elements before it.
   */
  lemma FilterMapPosition<A, B>(xs: seq<A>, i: nat, f: A -> Option<B>)
    requires i < |xs| && f(xs[i]).Some?
    ensures |FilterMap(xs[..i], f)| < |FilterMap(xs, f)|
    ensures FilterMap(xs, f)[|FilterMap(xs[..i], f)|] == f(xs[i]).value
  {
    assert xs == xs[..i] + [xs[i]] + xs[i + 1..];
    FilterMapAppend(xs[..i] + [xs[i]], xs[i + 1..], f);
    FilterMapSnoc(xs[..i], xs[i], f);
  }

  /** Nothing is kept exactly when no element gives a result. */
  lemma {:induction false} FilterMapEmpty<A, B>(xs: seq<A>, f: A -> Option<B>)
    ensures FilterMap(xs, f) == [] <==> forall i :: 0 <= i < |xs| ==> f(xs[i]).None?
  {
    if xs != [] {
      FilterMapEmpty(xs[1..], f);
      assert forall i :: 1 <= i < |xs| ==> xs[i] == xs[1..][i - 1];
    }
  }

  /** Every kept result is the result of some element, found at index `i`. */
  lemma {:induction false} FilterMapFrom<A, B>(xs: seq<A>, f: A -> Option<B>, j: nat) returns (i: nat)
    requires j < |FilterMap(xs, f)|
    ensures i < |xs| && f(xs[i]) == Some(FilterMap(xs, f)[j])
  {
    var head := OptionToSeq(f(xs[0]));
    if j < |head| {
      i := 0;
    } else {
      var k := FilterMapFrom(xs[1..], f, j - |head|);
      i := k + 1;
      assert xs[1..][k] == xs[i];
    }
  }

  /** When every element gives a result, the results are kept one for one. */
  lemma {:induction false} FilterMapAllSome<A, B>(xs: seq<A>, f: A -> Option<B>, ys: seq<B>)
    requires |xs| == |ys|
    requires forall i :: 0 <= i < |xs| ==> f(xs[i]) == Some(ys[i])
    ensures FilterMap(xs, f) == ys
  {
    if xs != [] {
      FilterMapAllSome(xs[1..], f, ys[1..]);
      assert ys == [ys[0]] + ys[1..];
    }
  }
}
