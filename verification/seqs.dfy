/** Sequence helpers shared by the list-state updaters: JavaScript's `Array.prototype.filter`
    and the subsequence relation that states "keeps the rest in order". */
module Seqs {

  /** `a` can be obtained from `b` by deleting elements, without reordering. */
  ghost predicate SubsequenceOf<T>(a: seq<T>, b: seq<T>)
    decreases |b|
  {
    a == [] || (b != [] && ((a[0] == b[0] && SubsequenceOf(a[1..], b[1..])) || SubsequenceOf(a, b[1..])))
  }

  /** Every sequence is a subsequence of itself. */
  lemma {:induction false} SubsequenceOfSelf<T>(xs: seq<T>)
    ensures SubsequenceOf(xs, xs)
    decreases |xs|
  {
    if xs != [] {
      SubsequenceOfSelf(xs[1..]);
    }
  }

  /** `xs.filter(keep)`: the elements satisfying `keep`, in their original order. */
  function Filter<T(!new)>(xs: seq<T>, keep: T -> bool): (r: seq<T>)
    ensures |r| <= |xs|
    ensures forall x :: x in r <==> x in xs && keep(x)
    // Every kept element keeps all its copies, every other one none.
    ensures forall x :: multiset(r)[x] == if keep(x) then multiset(xs)[x] else 0
    ensures SubsequenceOf(r, xs)
    ensures (forall x :: x in xs ==> keep(x)) ==> r == xs
    ensures (forall x :: x in xs ==> !keep(x)) ==> r == []
  {
    if xs == [] then []
    else
      assert xs == [xs[0]] + xs[1..];
      if keep(xs[0]) then [xs[0]] + Filter(xs[1..], keep)
      else Filter(xs[1..], keep)
  }

  /** Filtering with two tests that agree on the elements gives the same result. */
  lemma {:induction false} FilterAgreeing<T(!new)>(xs: seq<T>, f: T -> bool, g: T -> bool)
    requires forall x :: x in xs ==> f(x) == g(x)
    ensures Filter(xs, f) == Filter(xs, g)
    decreases |xs|
  {
    if xs != [] {
      assert forall x :: x in xs[1..] ==> x in xs;
      FilterAgreeing(xs[1..], f, g);
    }
  }

  /** Number of elements satisfying `p` (the `length` of a filter). */
  function Count<T(!new)>(xs: seq<T>, p: T -> bool): (n: nat)
    ensures n <= |xs|
    ensures n == |Filter(xs, p)|
    ensures n == |xs| <==> forall i :: 0 <= i < |xs| ==> p(xs[i])
    ensures n == 0 <==> forall i :: 0 <= i < |xs| ==> !p(xs[i])
  {
    if xs == [] then 0
    else (if p(xs[0]) then 1 else 0) + Count(xs[1..], p)
  }
}
