/** Sequence operations shared by the pages: `Array.prototype.filter`, the
    subsequence relation that describes it, and the insertion-ordered
    de-duplication that `Array.from(new Set(xs))` performs. */
module Seqs {

  /** `xs.filter(keep)`: the elements that satisfy `keep`, in their order. */
  function Filter<T>(xs: seq<T>, keep: T -> bool): (r: seq<T>)
    ensures |r| <= |xs|
    ensures forall x :: x in r ==> x in xs && keep(x)
    decreases |xs|
  {
    if xs == [] then []
    else if keep(xs[0]) then [xs[0]] + Filter(xs[1..], keep)
    else Filter(xs[1..], keep)
  }

  /** `sub` is `xs` with some elements dropped and the rest kept in order. */
  ghost predicate IsSubsequence<T>(sub: seq<T>, xs: seq<T>)
    decreases |xs|
  {
    sub == [] ||
    (xs != [] &&
      ((sub[0] == xs[0] && IsSubsequence(sub[1..], xs[1..])) || IsSubsequence(sub, xs[1..])))
  }

  /** Filtering only drops elements: the result is an order-preserving subsequence. */
  lemma {:induction false} FilterIsSubsequence<T>(xs: seq<T>, keep: T -> bool)
    ensures IsSubsequence(Filter(xs, keep), xs)
    decreases |xs|
  {
    if xs != [] {
      FilterIsSubsequence(xs[1..], keep);
    }
  }

  /** An element of `xs` is kept exactly when it satisfies `keep`. */
  lemma {:induction false} FilterMembership<T>(xs: seq<T>, keep: T -> bool, x: T)
    ensures x in Filter(xs, keep) <==> x in xs && keep(x)
    decreases |xs|
  {
    if xs != [] {
      FilterMembership(xs[1..], keep, x);
      assert x in xs <==> x == xs[0] || x in xs[1..];
    }
  }

  /** Filtering keeps every element exactly when all of them satisfy `keep`. */
  lemma {:induction false} FilterKeepsAll<T>(xs: seq<T>, keep: T -> bool)
    ensures Filter(xs, keep) == xs <==> forall i :: 0 <= i < |xs| ==> keep(xs[i])
    decreases |xs|
  {
    if xs != [] {
      FilterKeepsAll(xs[1..], keep);
      if !keep(xs[0]) {
        assert |Filter(xs, keep)| < |xs| by { assert |Filter(xs[1..], keep)| <= |xs[1..]|; }
      } else if forall i :: 0 <= i < |xs| ==> keep(xs[i]) {
        assert forall i :: 0 <= i < |xs[1..]| ==> keep(xs[1..][i]) by {
          forall i | 0 <= i < |xs[1..]| ensures keep(xs[1..][i]) { assert xs[1..][i] == xs[i + 1]; }
        }
      } else if Filter(xs, keep) == xs {
        assert Filter(xs[1..], keep) == xs[1..];
        forall i | 0 <= i < |xs| ensures keep(xs[i]) {
          if i > 0 { assert xs[i] == xs[1..][i - 1]; }
        }
      }
    }
  }

  /** Number of occurrences of `x` in `xs`. */
  function Count<T(==)>(xs: seq<T>, x: T): (n: nat)
    ensures n <= |xs|
    ensures n > 0 <==> x in xs
  {
    if xs == [] then 0 else (if xs[0] == x then 1 else 0) + Count(xs[1..], x)
  }

  /** Filtering keeps every copy of a kept element and no copy of a dropped
      one. */
  lemma {:induction false} FilterCount<T>(xs: seq<T>, keep: T -> bool, x: T)
    ensures Count(Filter(xs, keep), x) == if keep(x) then Count(xs, x) else 0
    decreases |xs|
  {
    if xs != [] {
      FilterCount(xs[1..], keep, x);
      if keep(xs[0]) {
        var r := [xs[0]] + Filter(xs[1..], keep);
        assert r[0] == xs[0] && r[1..] == Filter(xs[1..], keep);
      }
    }
  }

  /** Index of the first occurrence of `x` in `xs`. */
  function FirstIndex<T(==)>(xs: seq<T>, x: T): (i: nat)
    requires x in xs
    ensures i < |xs| && xs[i] == x
    ensures forall j :: 0 <= j < i ==> xs[j] != x
  {
    if xs[0] == x then 0 else 1 + FirstIndex(xs[1..], x)
  }

  /** `Array.from(new Set(xs))`: each element once, at the place it first
      appears. Built left to right, as a Set records insertions. */
  function Distinct<T(==)>(xs: seq<T>): (r: seq<T>)
    decreases |xs|
  {
    if xs == [] then []
    else
      var prefix := Distinct(xs[..|xs| - 1]);
      if xs[|xs| - 1] in prefix then prefix else prefix + [xs[|xs| - 1]]
  }

  /** The de-duplicated sequence holds the same elements as `xs`. */
  lemma {:induction false} DistinctSameElements<T>(xs: seq<T>, x: T)
    ensures x in Distinct(xs) <==> x in xs
    decreases |xs|
  {
    if xs != [] {
      DistinctSameElements(xs[..|xs| - 1], x);
      assert xs == xs[..|xs| - 1] + [xs[|xs| - 1]];
    }
  }

  /** Each element appears in the de-duplicated sequence exactly once. */
  lemma {:induction false} DistinctOnce<T>(xs: seq<T>, x: T)
    ensures x in xs ==> Count(Distinct(xs), x) == 1
    ensures x !in xs ==> Count(Distinct(xs), x) == 0
    decreases |xs|
  {
    DistinctSameElements(xs, x);
    if xs != [] {
      var init, last := xs[..|xs| - 1], xs[|xs| - 1];
      DistinctOnce(init, x);
      DistinctSameElements(init, x);
      DistinctSameElements(init, last);
      assert xs == init + [last];
      if last !in Distinct(init) {
        CountAppend(Distinct(init), last, x);
      }
    }
  }

  lemma {:induction false} CountAppend<T>(xs: seq<T>, y: T, x: T)
    ensures Count(xs + [y], x) == Count(xs, x) + (if y == x then 1 else 0)
    decreases |xs|
  {
    if xs != [] {
      CountAppend(xs[1..], y, x);
      assert (xs + [y])[1..] == xs[1..] + [y];
    }
  }

  /** The de-duplicated sequence lists elements in order of first occurrence. */
  lemma {:induction false} DistinctFirstOccurrenceOrder<T>(xs: seq<T>, i: int, j: int)
    requires 0 <= i < j < |Distinct(xs)|
    ensures Distinct(xs)[i] in xs && Distinct(xs)[j] in xs
    ensures FirstIndex(xs, Distinct(xs)[i]) < FirstIndex(xs, Distinct(xs)[j])
    decreases |xs|
  {
    var r := Distinct(xs);
    DistinctSameElements(xs, r[i]);
    DistinctSameElements(xs, r[j]);
    var init, last := xs[..|xs| - 1], xs[|xs| - 1];
    var p := Distinct(init);
    DistinctSameElements(init, r[i]);
    DistinctSameElements(init, r[j]);
    if j < |p| {
      DistinctOrderPrefix(init, xs, i, j);
    } else {
      // r[j] is the newly inserted last element, which is not in init
      assert r[j] == last && last !in p;
      DistinctSameElements(init, last);
      assert r[i] == p[i];
      FirstIndexPrefix(init, xs, r[i]);
      assert FirstIndex(xs, last) == |init| by {
        forall k | 0 <= k < |init| ensures xs[k] != last { assert xs[k] == init[k]; }
      }
    }
  }

  /** Helper: the order already established for `init` carries over to `xs`. */
  lemma {:induction false} DistinctOrderPrefix<T>(init: seq<T>, xs: seq<T>, i: int, j: int)
    requires |xs| > 0 && init == xs[..|xs| - 1]
    requires 0 <= i < j < |Distinct(init)|
    ensures Distinct(xs)[i] == Distinct(init)[i] && Distinct(xs)[j] == Distinct(init)[j]
    ensures Distinct(xs)[i] in xs && Distinct(xs)[j] in xs
    ensures FirstIndex(xs, Distinct(xs)[i]) < FirstIndex(xs, Distinct(xs)[j])
    decreases |xs|, 0
  {
    var p := Distinct(init);
    DistinctSameElements(init, p[i]);
    DistinctSameElements(init, p[j]);
    DistinctFirstOccurrenceOrder(init, i, j);
    FirstIndexPrefix(init, xs, p[i]);
    FirstIndexPrefix(init, xs, p[j]);
  }

  lemma FirstIndexPrefix<T>(init: seq<T>, xs: seq<T>, x: T)
    requires init <= xs && x in init
    ensures x in xs && FirstIndex(xs, x) == FirstIndex(init, x)
  {
    var k := FirstIndex(init, x);
    assert xs[k] == x;
    var k' := FirstIndex(xs, x);
  }

  /** A subsequence holds only elements of the sequence. */
  lemma {:induction false} SubsequenceElements<T>(sub: seq<T>, xs: seq<T>)
    requires IsSubsequence(sub, xs)
    ensures forall x :: x in sub ==> x in xs
    decreases |xs|
  {
    if sub != [] {
      if sub[0] == xs[0] && IsSubsequence(sub[1..], xs[1..]) {
        SubsequenceElements(sub[1..], xs[1..]);
        assert forall x :: x in sub ==> x == sub[0] || x in sub[1..];
      } else {
        SubsequenceElements(sub, xs[1..]);
      }
    }
  }
}
