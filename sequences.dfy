/** The array operations the views are built from: `filter`, a comparator
    sort, and `slice`. */
module Sequences {

  // ---------------------------------------------------------------------
  // filter

  /** `xs.filter(p)`: the elements satisfying `p`, in their original order. */
  function Filter<T(!new)>(xs: seq<T>, p: T -> bool): (r: seq<T>)
    ensures |r| <= |xs|
    ensures forall x :: x in r <==> x in xs && p(x)
  {
    if xs == [] then []
    else
      var front, last := xs[..|xs| - 1], xs[|xs| - 1];
      assert xs == front + [last];
      Filter(front, p) + (if p(last) then [last] else [])
  }

  lemma {:induction false} FilterAppend<T(!new)>(a: seq<T>, b: seq<T>, p: T -> bool)
    ensures Filter(a + b, p) == Filter(a, p) + Filter(b, p)
  {
    if b == [] {
      assert a + b == a;
    } else {
      var front, last := b[..|b| - 1], b[|b| - 1];
      assert (a + b)[..|a + b| - 1] == a + front;
      assert (a + b)[|a + b| - 1] == last;
      FilterAppend(a, front, p);
      assert Filter(a + b, p) == Filter(a, p) + Filter(front, p) + (if p(last) then [last] else []);
    }
  }

  /** Taking out the element at `i` takes one copy of it out of the multiset. */
  lemma MultisetRemoveAt<T>(ys: seq<T>, i: nat)
    requires i < |ys|
    ensures multiset(ys[..i] + ys[i + 1..]) == multiset(ys) - multiset{ys[i]}
  {
    assert ys == ys[..i] + [ys[i]] + ys[i + 1..];
  }

  /** The positions whose element satisfies `p`. */
  function IndicesWhere<T>(xs: seq<T>, p: T -> bool): set<int> {
    set i | 0 <= i < |xs| && p(xs[i])
  }

  /** One element further, the positions grow by the last one when it
      satisfies `p`. */
  lemma IndicesWhereSnoc<T>(xs: seq<T>, p: T -> bool)
    requires xs != []
    ensures var k := |xs| - 1;
            && k !in IndicesWhere(xs[..k], p)
            && IndicesWhere(xs, p) == IndicesWhere(xs[..k], p) + (if p(xs[k]) then {k} else {})
  {
    var k := |xs| - 1;
    assert forall i :: i in IndicesWhere(xs, p) && i != k ==> i in IndicesWhere(xs[..k], p);
  }

  /** A filter keeps as many elements as there are positions satisfying `p`. */
  lemma {:induction false} FilterCountIsCardinality<T(!new)>(xs: seq<T>, p: T -> bool)
    ensures |Filter(xs, p)| == |IndicesWhere(xs, p)|
  {
    if xs != [] {
      var k := |xs| - 1;
      FilterCountIsCardinality(xs[..k], p);
      IndicesWhereSnoc(xs, p);
      assert |Filter(xs, p)| == |Filter(xs[..k], p)| + (if p(xs[k]) then 1 else 0);
    }
  }

  /** A filter that keeps everything is the identity. */
  lemma {:induction false} FilterKeepsAll<T(!new)>(xs: seq<T>, p: T -> bool)
    requires forall x :: x in xs ==> p(x)
    ensures Filter(xs, p) == xs
  {
    if xs != [] {
      assert xs == xs[..|xs| - 1] + [xs[|xs| - 1]];
      FilterKeepsAll(xs[..|xs| - 1], p);
    }
  }

  /** A filter that keeps nothing is empty. */
  lemma {:induction false} FilterKeepsNone<T(!new)>(xs: seq<T>, p: T -> bool)
    requires forall x :: x in xs ==> !p(x)
    ensures Filter(xs, p) == []
  {
    if xs != [] {
      assert xs == xs[..|xs| - 1] + [xs[|xs| - 1]];
      FilterKeepsNone(xs[..|xs| - 1], p);
    }
  }

  /** A filter that rejects exactly one element between kept ones removes
      just that element. */
  lemma {:induction false} FilterDropsOne<T(!new)>(front: seq<T>, x: T, back: seq<T>, p: T -> bool)
    requires forall y :: y in front ==> p(y)
    requires !p(x)
    requires forall y :: y in back ==> p(y)
    ensures Filter(front + [x] + back, p) == front + back
  {
    FilterKeepsAll(front, p);
    FilterKeepsAll(back, p);
    FilterKeepsNone([x], p);
    FilterAppend(front, [x], p);
    assert Filter(front + [x], p) == front;
    FilterAppend(front + [x], back, p);
    assert Filter(front + [x] + back, p) == Filter(front + [x], p) + Filter(back, p);
    assert Filter(front + [x] + back, p) == front + back;
  }

  /** Two filters that split the elements kept by a third one keep, between
      them, as many elements as the third. */
  lemma {:induction false} FilterCountSplit<T(!new)>(xs: seq<T>, p: T -> bool, q: T -> bool, r: T -> bool)
    requires forall x :: x in xs ==> (r(x) <==> p(x) || q(x)) && !(p(x) && q(x))
    ensures |Filter(xs, p)| + |Filter(xs, q)| == |Filter(xs, r)|
  {
    if xs != [] {
      var front := xs[..|xs| - 1];
      assert xs == front + [xs[|xs| - 1]];
      FilterCountSplit(front, p, q, r);
    }
  }

  /** A filter and its complement keep every element exactly once. */
  lemma {:induction false} FilterComplementCount<T(!new)>(xs: seq<T>, p: T -> bool, q: T -> bool)
    requires forall x :: x in xs ==> (q(x) <==> !p(x))
    ensures |Filter(xs, p)| + |Filter(xs, q)| == |xs|
  {
    if xs != [] {
      var front := xs[..|xs| - 1];
      assert xs == front + [xs[|xs| - 1]];
      FilterComplementCount(front, p, q);
    }
  }

  // ---------------------------------------------------------------------
  // sort by a comparator

  /** A comparator `le(a, b)` ("a may come before b") that orders any two
      values one way or the other, as the date and name comparators do. */
  ghost predicate Total<T(!new)>(le: (T, T) -> bool) {
    forall a: T, b: T :: le(a, b) || le(b, a)
  }

  /** Every element may come before its successor. */
  predicate SortedBy<T>(s: seq<T>, le: (T, T) -> bool) {
    forall i :: 0 < i < |s| ==> le(s[i - 1], s[i])
  }

  /** Inserts `x` in front of the first element it may precede. */
  function Insert<T(!new)>(x: T, s: seq<T>, le: (T, T) -> bool): (r: seq<T>)
    ensures multiset(r) == multiset(s) + multiset{x}
    ensures |r| == |s| + 1
    ensures r[0] == x || (s != [] && r[0] == s[0])
    ensures Total(le) && SortedBy(s, le) ==> SortedBy(r, le)
  {
    if s == [] then [x]
    else if le(x, s[0]) then [x] + s
    else
      assert s == [s[0]] + s[1..];
      [s[0]] + Insert(x, s[1..], le)
  }

  /** `xs.sort(cmp)`: a rearrangement of `xs` in comparator order. */
  function SortBy<T(!new)>(xs: seq<T>, le: (T, T) -> bool): (r: seq<T>)
    ensures multiset(r) == multiset(xs)
    ensures |r| == |xs|
    ensures Total(le) ==> SortedBy(r, le)
  {
    if xs == [] then []
    else
      assert xs == [xs[0]] + xs[1..];
      Insert(xs[0], SortBy(xs[1..], le), le)
  }

  // ---------------------------------------------------------------------
  // slice

  /** How `slice` reads one of its bounds: a negative bound counts back from
      the end, and the result is clamped to 0..n. */
  function SliceBound(i: int, n: nat): (k: nat)
    ensures k <= n
    ensures 0 <= i <= n ==> k == i
    ensures i > n ==> k == n
    ensures i < 0 ==> k == (if n + i < 0 then 0 else n + i)
  {
    if i < 0 then (if n + i < 0 then 0 else n + i)
    else if i > n then n
    else i
  }

  /** `xs.slice(start, end)`: empty when the resolved end is not past the
      resolved start. */
  function Slice<T>(xs: seq<T>, start: int, end: int): (r: seq<T>)
    ensures |r| <= |xs|
    ensures 0 <= start <= end ==> |r| <= end - start
  {
    var s, e := SliceBound(start, |xs|), SliceBound(end, |xs|);
    if s < e then xs[s..e] else []
  }
}
