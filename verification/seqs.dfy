/** The relational building blocks the pipeline is made of, over tables
    modelled as sequences of rows: a row filter, the subsequence order it
    respects, and surrogate-id numbering. */
module Seqs {

  /** `a` is obtained from `b` by deleting rows, keeping the order of the
      rest. */
  predicate IsSubsequence<T(==)>(a: seq<T>, b: seq<T>)
    decreases |b|
  {
    if |a| == 0 then true
    else if |b| == 0 then false
    else (a[0] == b[0] && IsSubsequence(a[1..], b[1..])) || IsSubsequence(a, b[1..])
  }

  /** `DataFrame.filter`: the rows of `xs` that satisfy `p`, in order. */
  function Filter<T>(p: T -> bool, xs: seq<T>): (r: seq<T>)
    ensures |r| <= |xs|
    ensures forall i :: 0 <= i < |r| ==> p(r[i])
    decreases |xs|
  {
    if |xs| == 0 then []
    else if p(xs[0]) then [xs[0]] + Filter(p, xs[1..])
    else Filter(p, xs[1..])
  }

  /** The filter deletes rows and never reorders the ones it keeps. */
  lemma {:induction false} FilterIsSubsequence<T>(p: T -> bool, xs: seq<T>)
    ensures IsSubsequence(Filter(p, xs), xs)
    decreases |xs|
  {
    if |xs| != 0 {
      FilterIsSubsequence(p, xs[1..]);
      if p(xs[0]) {
        var r := [xs[0]] + Filter(p, xs[1..]);
        assert r[0] == xs[0] && r[1..] == Filter(p, xs[1..]);
      }
    }
  }

  /** A row is kept exactly when it occurs in the input and passes. */
  lemma {:induction false} FilterMembers<T>(p: T -> bool, xs: seq<T>)
    ensures forall x :: x in Filter(p, xs) ==> x in xs && p(x)
    ensures forall x :: x in xs && p(x) ==> x in Filter(p, xs)
    decreases |xs|
  {
    if |xs| != 0 {
      FilterMembers(p, xs[1..]);
      assert xs == [xs[0]] + xs[1..];
    }
  }

  /** The filter keeps every copy of a passing row and no copy of a failing
      one: duplicates are neither merged nor invented. */
  lemma {:induction false} FilterCounts<T>(p: T -> bool, xs: seq<T>)
    ensures forall x :: multiset(Filter(p, xs))[x] == if p(x) then multiset(xs)[x] else 0
    decreases |xs|
  {
    if |xs| != 0 {
      FilterCounts(p, xs[1..]);
      assert xs == [xs[0]] + xs[1..];
    }
  }

  /** Filtering works partition by partition: the filter of a concatenation
      is the concatenation of the filters. */
  lemma {:induction false} FilterConcat<T>(p: T -> bool, a: seq<T>, b: seq<T>)
    ensures Filter(p, a + b) == Filter(p, a) + Filter(p, b)
    decreases |a|
  {
    if |a| == 0 {
      assert a + b == b;
    } else {
      assert (a + b)[0] == a[0];
      assert (a + b)[1..] == a[1..] + b;
      FilterConcat(p, a[1..], b);
    }
  }

  /** Applying the same filter twice changes nothing. */
  lemma {:induction false} FilterIdempotent<T>(p: T -> bool, xs: seq<T>)
    ensures Filter(p, Filter(p, xs)) == Filter(p, xs)
    decreases |xs|
  {
    if |xs| != 0 {
      FilterIdempotent(p, xs[1..]);
      if p(xs[0]) {
        var r := [xs[0]] + Filter(p, xs[1..]);
        assert r[0] == xs[0];
        assert r[1..] == Filter(p, xs[1..]);
      }
    }
  }

  /** A filter every row passes keeps the table as it is. */
  lemma {:induction false} FilterAll<T>(p: T -> bool, xs: seq<T>)
    requires forall i :: 0 <= i < |xs| ==> p(xs[i])
    ensures Filter(p, xs) == xs
    decreases |xs|
  {
    if |xs| != 0 {
      FilterAll(p, xs[1..]);
      assert xs == [xs[0]] + xs[1..];
    }
  }

  /** A filter no row passes yields the empty table. */
  lemma {:induction false} FilterNone<T>(p: T -> bool, xs: seq<T>)
    requires forall i :: 0 <= i < |xs| ==> !p(xs[i])
    ensures Filter(p, xs) == []
    decreases |xs|
  {
    if |xs| != 0 {
      FilterNone(p, xs[1..]);
    }
  }

  /** A row stamped with a surrogate id. */
  datatype Numbered<T> = Numbered(id: nat, item: T)

  /** `monotonically_increasing_id()` with the generator made explicit: the
      rows of `xs` get the ids `next`, `next + 1`, ... in order. */
  function Number<T>(xs: seq<T>, next: nat): (r: seq<Numbered<T>>)
    ensures |r| == |xs|
    ensures forall i :: 0 <= i < |r| ==> r[i].item == xs[i] && r[i].id == next + i
    decreases |xs|
  {
    if |xs| == 0 then []
    else [Numbered(next, xs[0])] + Number(xs[1..], next + 1)
  }

  /** The rows without their ids. */
  function Items<T>(xs: seq<Numbered<T>>): (r: seq<T>)
    ensures |r| == |xs|
    ensures forall i :: 0 <= i < |xs| ==> r[i] == xs[i].item
  {
    seq(|xs|, i requires 0 <= i < |xs| => xs[i].item)
  }

  /** Ids strictly increase along the table, so no two rows share one. */
  predicate IdsIncrease<T>(xs: seq<Numbered<T>>)
  {
    forall i, j :: 0 <= i < j < |xs| ==> xs[i].id < xs[j].id
  }

  /** Numbering then dropping the ids gives back the table. */
  lemma NumberThenItems<T>(xs: seq<T>, next: nat)
    ensures Items(Number(xs, next)) == xs
    ensures IdsIncrease(Number(xs, next))
  {
  }

  /** Filtering numbered rows keeps their ids increasing (though no longer
      contiguous): distinct ids survive any later filter. */
  lemma {:induction false} FilterKeepsIdsIncreasing<T>(p: Numbered<T> -> bool, xs: seq<Numbered<T>>)
    requires IdsIncrease(xs)
    ensures IdsIncrease(Filter(p, xs))
    decreases |xs|
  {
    if |xs| != 0 {
      var tail := xs[1..];
      var rest := Filter(p, tail);
      FilterKeepsIdsIncreasing(p, tail);
      FilterMembers(p, tail);
      forall j | 0 <= j < |rest|
        ensures xs[0].id < rest[j].id
      {
        assert rest[j] in tail;
        var k :| 0 <= k < |tail| && tail[k] == rest[j];
        assert xs[k + 1] == rest[j];
      }
    }
  }

  /** Ids drawn from `[lo, hi)` before a filter still are after it. */
  lemma FilterKeepsIdsWithin<T>(p: Numbered<T> -> bool, xs: seq<Numbered<T>>, lo: int, hi: int)
    requires forall i :: 0 <= i < |xs| ==> lo <= xs[i].id < hi
    ensures forall i :: 0 <= i < |Filter(p, xs)| ==> lo <= Filter(p, xs)[i].id < hi
  {
    var r := Filter(p, xs);
    FilterMembers(p, xs);
    forall i | 0 <= i < |r|
      ensures lo <= r[i].id < hi
    {
      assert r[i] in xs;
    }
  }

  /** Filtering numbered rows on a property of their items, then dropping
      the ids, is filtering the items. */
  lemma {:induction false} FilterItems<T>(pn: Numbered<T> -> bool, q: T -> bool, xs: seq<Numbered<T>>)
    requires forall n :: pn(n) == q(n.item)
    ensures Items(Filter(pn, xs)) == Filter(q, Items(xs))
    decreases |xs|
  {
    if |xs| != 0 {
      FilterItems(pn, q, xs[1..]);
      assert Items(xs)[0] == xs[0].item;
      assert Items(xs)[1..] == Items(xs[1..]);
      if pn(xs[0]) {
        var r := [xs[0]] + Filter(pn, xs[1..]);
        assert Items(r) == [xs[0].item] + Items(Filter(pn, xs[1..]));
      }
    }
  }
}
