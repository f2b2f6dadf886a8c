/** Sequence helpers shared by the model: the `Array.prototype.filter`
    the pages use, order-preserving subsequences, and the counting and
    first-occurrence grouping that the services do with maps. */
module Seqs {

  datatype Option<+T> = None | Some(value: T)

  datatype Result<+T, +E> = Ok(value: T) | Err(error: E)

  /** `xs.filter(p)`: the elements satisfying `p`, in their original order. */
  function Filter<T(!new)>(xs: seq<T>, p: T -> bool): (r: seq<T>)
    ensures |r| <= |xs|
    ensures forall x :: x in r <==> x in xs && p(x)
  {
    if xs == [] then [] else (if p(xs[0]) then [xs[0]] else []) + Filter(xs[1..], p)
  }

  /** `a` is obtained from `b` by deleting elements (greedy matching). */
  predicate IsSubsequence<T(==)>(a: seq<T>, b: seq<T>)
    decreases |b|
  {
    if a == [] then true
    else if b == [] then false
    else if a[0] == b[0] then IsSubsequence(a[1..], b[1..])
    else IsSubsequence(a, b[1..])
  }

  lemma {:induction false} FilterIsSubsequence<T(!new)>(xs: seq<T>, p: T -> bool)
    ensures IsSubsequence(Filter(xs, p), xs)
  {
    if xs != [] {
      FilterIsSubsequence(xs[1..], p);
      if p(xs[0]) {
        assert Filter(xs, p) == [xs[0]] + Filter(xs[1..], p);
        assert Filter(xs, p)[1..] == Filter(xs[1..], p);
      } else {
        assert Filter(xs, p) == Filter(xs[1..], p);
      }
    }
  }

  /** Filtering twice is filtering once by the conjunction. */
  lemma {:induction false} FilterFilter<T(!new)>(xs: seq<T>, p: T -> bool, q: T -> bool)
    ensures Filter(Filter(xs, p), q) == Filter(xs, x => p(x) && q(x))
  {
    if xs != [] {
      FilterFilter(xs[1..], p, q);
      if p(xs[0]) {
        assert Filter(xs, p) == [xs[0]] + Filter(xs[1..], p);
        assert Filter(xs, p)[1..] == Filter(xs[1..], p);
      } else {
        assert Filter(xs, p) == Filter(xs[1..], p);
      }
    }
  }

  /** Appending elements in front of the longer sequence keeps a
      subsequence one. */
  lemma {:induction false} IsSubsequenceCons<T>(a: seq<T>, b: seq<T>, y: T)
    requires IsSubsequence(a, b)
    ensures IsSubsequence(a, [y] + b)
    decreases |b|, 1
  {
    var yb := [y] + b;
    assert yb[1..] == b;
    if a != [] && a[0] == y {
      IsSubsequenceTail(a, b);
    }
  }

  /** Dropping the head of a subsequence keeps it a subsequence. */
  lemma {:induction false} IsSubsequenceTail<T>(a: seq<T>, b: seq<T>)
    requires a != [] && IsSubsequence(a, b)
    ensures IsSubsequence(a[1..], b)
    decreases |b|, 0
  {
    assert b != [];
    if a[0] == b[0] {
      if a[1..] != [] {
        IsSubsequenceCons(a[1..], b[1..], b[0]);
        assert [b[0]] + b[1..] == b;
      }
    } else {
      IsSubsequenceTail(a, b[1..]);
      IsSubsequenceCons(a[1..], b[1..], b[0]);
      assert [b[0]] + b[1..] == b;
    }
  }

  /** Being a subsequence is transitive. */
  lemma {:induction false} IsSubsequenceTrans<T>(a: seq<T>, b: seq<T>, c: seq<T>)
    requires IsSubsequence(a, b) && IsSubsequence(b, c)
    ensures IsSubsequence(a, c)
    decreases |c|
  {
    if a == [] {
    } else if b[0] == c[0] {
      if a[0] == b[0] {
        IsSubsequenceTrans(a[1..], b[1..], c[1..]);
      } else {
        IsSubsequenceTrans(a, b[1..], c[1..]);
        IsSubsequenceCons(a, c[1..], c[0]);
        assert [c[0]] + c[1..] == c;
      }
    } else {
      IsSubsequenceTrans(a, b, c[1..]);
      IsSubsequenceCons(a, c[1..], c[0]);
      assert [c[0]] + c[1..] == c;
    }
  }

  /** A filter whose predicate holds nowhere keeps nothing. */
  lemma {:induction false} FilterNone<T(!new)>(xs: seq<T>, p: T -> bool)
    requires forall x :: x in xs ==> !p(x)
    ensures Filter(xs, p) == []
  {
    if xs != [] {
      assert forall x :: x in xs[1..] ==> x in xs;
      FilterNone(xs[1..], p);
    }
  }

  /** A filter whose predicate holds everywhere keeps the whole sequence. */
  lemma {:induction false} FilterAll<T(!new)>(xs: seq<T>, p: T -> bool)
    requires forall x :: x in xs ==> p(x)
    ensures Filter(xs, p) == xs
  {
    if xs != [] {
      assert forall x :: x in xs[1..] ==> x in xs;
      FilterAll(xs[1..], p);
    }
  }

  /** Number of occurrences of `x` in `xs` (defined from the back, as a loop counts). */
  function Count<T(==)>(xs: seq<T>, x: T): nat
  {
    if xs == [] then 0
    else Count(xs[..|xs| - 1], x) + (if xs[|xs| - 1] == x then 1 else 0)
  }

  /** The distinct elements of `xs` in order of first occurrence. */
  function Distinct<T(==)>(xs: seq<T>): seq<T>
  {
    if xs == [] then []
    else
      var d := Distinct(xs[..|xs| - 1]);
      if xs[|xs| - 1] in d then d else d + [xs[|xs| - 1]]
  }

  predicate NoDuplicates<T(==)>(xs: seq<T>)
  {
    forall i, j :: 0 <= i < j < |xs| ==> xs[i] != xs[j]
  }

  /** Sum of the counts in `xs` of each key of `keys`. */
  function SumCounts<T(==)>(keys: seq<T>, xs: seq<T>): nat
  {
    if keys == [] then 0
    else SumCounts(keys[..|keys| - 1], xs) + Count(xs, keys[|keys| - 1])
  }

  lemma {:induction false} CountPositive<T>(xs: seq<T>, x: T)
    ensures Count(xs, x) > 0 <==> x in xs
  {
    if xs != [] {
      var init := xs[..|xs| - 1];
      CountPositive(init, x);
      assert xs == init + [xs[|xs| - 1]];
    }
  }

  lemma {:induction false} DistinctSpec<T>(xs: seq<T>)
    ensures forall x :: x in Distinct(xs) <==> x in xs
    ensures NoDuplicates(Distinct(xs))
  {
    if xs != [] {
      var init := xs[..|xs| - 1];
      DistinctSpec(init);
      assert xs == init + [xs[|xs| - 1]];
    }
  }

  /** The first-occurrence list of a prefix is a prefix of the whole list's. */
  lemma {:induction false} DistinctPrefix<T>(xs: seq<T>, n: nat)
    requires n <= |xs|
    ensures |Distinct(xs[..n])| <= |Distinct(xs)|
    ensures Distinct(xs[..n]) == Distinct(xs)[..|Distinct(xs[..n])|]
    decreases |xs| - n
  {
    if n < |xs| {
      DistinctPrefix(xs, n + 1);
      assert xs[..n + 1][..n] == xs[..n];
    } else {
      assert xs[..n] == xs;
    }
  }

  lemma {:induction false} SumCountsSnoc<T>(keys: seq<T>, xs: seq<T>, y: T)
    ensures SumCounts(keys, xs + [y]) == SumCounts(keys, xs) + Count(keys, y)
  {
    if keys != [] {
      var init := keys[..|keys| - 1];
      SumCountsSnoc(init, xs, y);
      assert (xs + [y])[..|xs + [y]| - 1] == xs;
    }
  }

  lemma {:induction false} CountOfDistinct<T>(keys: seq<T>, y: T)
    requires NoDuplicates(keys) && y in keys
    ensures Count(keys, y) == 1
  {
    var init := keys[..|keys| - 1];
    if keys[|keys| - 1] == y {
      assert y !in init;
      CountPositive(init, y);
    } else {
      assert keys == init + [keys[|keys| - 1]];
      assert y in init;
      CountOfDistinct(init, y);
    }
  }

  /** Counting every distinct element accounts for every element exactly once. */
  lemma {:induction false} SumOfDistinctCounts<T>(xs: seq<T>)
    ensures SumCounts(Distinct(xs), xs) == |xs|
  {
    if xs != [] {
      var init := xs[..|xs| - 1];
      var y := xs[|xs| - 1];
      assert xs == init + [y];
      SumOfDistinctCounts(init);
      var d := Distinct(init);
      DistinctSpec(init);
      DistinctSpec(xs);
      SumCountsSnoc(d, init, y);
      if y in d {
        CountOfDistinct(d, y);
        assert Distinct(xs) == d;
      } else {
        CountPositive(d, y);
        CountPositive(init, y);
        assert Distinct(xs) == d + [y];
        assert (d + [y])[..|d + [y]| - 1] == d;
        assert Count(xs, y) == 1;
      }
    }
  }
}
