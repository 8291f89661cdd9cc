/**
 * The list operations the components use on their record arrays
 * (`filter`, `find`, `map`, a `reduce` that sums), with the facts the
 * other modules rely on.
 */
module Seqs {
  import opened Types

  /** `xs.filter(p)`: the elements satisfying `p`, in their original order. */
  function Filter<T>(xs: seq<T>, p: T -> bool): (r: seq<T>)
    ensures |r| <= |xs|
    ensures forall i :: 0 <= i < |r| ==> p(r[i])
  {
    if |xs| == 0 then []
    else
      assert xs == [xs[0]] + xs[1..];
      (if p(xs[0]) then [xs[0]] else []) + Filter(xs[1..], p)
  }

  /** Filtering keeps each element at most as often as it occurs. */
  lemma {:induction false} FilterMultiset<T>(xs: seq<T>, p: T -> bool)
    ensures multiset(Filter(xs, p)) <= multiset(xs)
  {
    if |xs| > 0 {
      FilterMultiset(xs[1..], p);
      assert xs == [xs[0]] + xs[1..];
    }
  }

  /** One step of the filter: the head, if it passes, then the filtered tail. */
  lemma FilterCons<T>(x: T, xs: seq<T>, p: T -> bool)
    ensures Filter([x] + xs, p) == (if p(x) then [x] else []) + Filter(xs, p)
  {
    assert ([x] + xs)[0] == x && ([x] + xs)[1..] == xs;
  }

  /** `xs.filter(p).length`, counted directly. */
  function Count<T>(xs: seq<T>, p: T -> bool): nat
  {
    if |xs| == 0 then 0 else (if p(xs[0]) then 1 else 0) + Count(xs[1..], p)
  }

  /** The count is the length of the filtered list. */
  lemma {:induction false} CountFilter<T>(xs: seq<T>, p: T -> bool)
    ensures Count(xs, p) == |Filter(xs, p)|
  {
    if |xs| > 0 {
      CountFilter(xs[1..], p);
    }
  }

  /** At most every element is counted, and every one is exactly when all satisfy `p`. */
  lemma {:induction false} CountBounds<T>(xs: seq<T>, p: T -> bool)
    ensures Count(xs, p) <= |xs|
    ensures Count(xs, p) == |xs| <==> forall x :: x in xs ==> p(x)
  {
    if |xs| > 0 {
      CountBounds(xs[1..], p);
      assert forall x :: x in xs <==> x == xs[0] || x in xs[1..];
    }
  }

  /** `xs.map(f)` */
  function Map<T, U>(xs: seq<T>, f: T -> U): (r: seq<U>)
    ensures |r| == |xs|
    ensures forall i :: 0 <= i < |xs| ==> r[i] == f(xs[i])
  {
    seq(|xs|, i requires 0 <= i < |xs| => f(xs[i]))
  }

  /** `xs.reduce((acc, x) => acc + f(x), 0)` over exact reals. */
  function Sum<T>(xs: seq<T>, f: T -> real): real
  {
    if |xs| == 0 then 0.0 else f(xs[0]) + Sum(xs[1..], f)
  }

  /** The index `xs.findIndex(p)` would return, if any. */
  function FindIndex<T>(xs: seq<T>, p: T -> bool): (r: Option<nat>)
    ensures r.Some? ==> r.value < |xs| && p(xs[r.value])
    ensures r.Some? ==> forall j :: 0 <= j < r.value ==> !p(xs[j])
    ensures r.None? ==> forall j :: 0 <= j < |xs| ==> !p(xs[j])
  {
    if |xs| == 0 then None
    else if p(xs[0]) then Some(0)
    else match FindIndex(xs[1..], p)
      case None => None
      case Some(k) => Some(k + 1)
  }

  /** The index of an element that satisfies `p` with none before it is what `findIndex` returns. */
  lemma {:induction false} FindIndexIs<T>(xs: seq<T>, p: T -> bool, i: nat)
    requires i < |xs| && p(xs[i])
    requires forall j :: 0 <= j < i ==> !p(xs[j])
    ensures FindIndex(xs, p) == Some(i)
  {
    if i > 0 {
      FindIndexIs(xs[1..], p, i - 1);
    }
  }

  /** `xs.find(p)`: the first element satisfying `p`. */
  function Find<T>(xs: seq<T>, p: T -> bool): (r: Option<T>)
    ensures r.None? <==> forall j :: 0 <= j < |xs| ==> !p(xs[j])
    ensures r.Some? ==> p(r.value)
    ensures r.Some? ==> exists i :: 0 <= i < |xs| && xs[i] == r.value && forall j :: 0 <= j < i ==> !p(xs[j])
  {
    match FindIndex(xs, p)
    case None => None
    case Some(i) => Some(xs[i])
  }

  /** `a` is `b` with some elements left out, the rest in the same order. */
  predicate IsSubsequence<T(==)>(a: seq<T>, b: seq<T>)
  {
    if |a| == 0 then true
    else if |b| == 0 then false
    else if a[0] == b[0] then IsSubsequence(a[1..], b[1..])
    else IsSubsequence(a, b[1..])
  }

  lemma {:induction false} SubsequenceOfSelf<T>(a: seq<T>)
    ensures IsSubsequence(a, a)
  {
    if |a| > 0 { SubsequenceOfSelf(a[1..]); }
  }

  lemma {:induction false} SubsequenceDropFront<T>(a: seq<T>, b: seq<T>)
    requires |b| > 0 && IsSubsequence(a, b[1..])
    ensures IsSubsequence(a, b)
    decreases |a| + |b|
  {
    if |a| > 0 && a[0] == b[0] {
      SubsequenceDropHead(a, b[1..]);
    }
  }

  lemma {:induction false} SubsequenceDropHead<T>(a: seq<T>, b: seq<T>)
    requires |a| > 0 && IsSubsequence(a, b)
    ensures IsSubsequence(a[1..], b)
    decreases |a| + |b|
  {
    if a[0] == b[0] {
      SubsequenceDropFront(a[1..], b);
    } else {
      SubsequenceDropHead(a, b[1..]);
      SubsequenceDropFront(a[1..], b);
    }
  }

  /** A filter result is an order-preserving sub-list of its input. */
  lemma {:induction false} FilterIsSubsequence<T>(xs: seq<T>, p: T -> bool)
    ensures IsSubsequence(Filter(xs, p), xs)
  {
    if |xs| > 0 {
      FilterIsSubsequence(xs[1..], p);
      if p(xs[0]) {
        assert Filter(xs, p) == [xs[0]] + Filter(xs[1..], p);
        assert Filter(xs, p)[1..] == Filter(xs[1..], p);
      } else {
        assert Filter(xs, p) == Filter(xs[1..], p);
        SubsequenceDropFront(Filter(xs, p), xs);
      }
    }
  }

  lemma {:induction false} FilterConcat<T>(a: seq<T>, b: seq<T>, p: T -> bool)
    ensures Filter(a + b, p) == Filter(a, p) + Filter(b, p)
  {
    if |a| == 0 {
      assert a + b == b;
    } else {
      assert (a + b)[1..] == a[1..] + b;
      FilterConcat(a[1..], b, p);
    }
  }

  /** Membership in a filter result, both directions. */
  lemma {:induction false} FilterMember<T>(xs: seq<T>, p: T -> bool, x: T)
    ensures x in Filter(xs, p) <==> x in xs && p(x)
  {
    if |xs| > 0 {
      FilterMember(xs[1..], p, x);
      assert xs == [xs[0]] + xs[1..];
    }
  }

  lemma {:induction false} FilterAll<T>(xs: seq<T>, p: T -> bool)
    requires forall i :: 0 <= i < |xs| ==> p(xs[i])
    ensures Filter(xs, p) == xs
  {
    if |xs| > 0 {
      FilterAll(xs[1..], p);
    }
  }

  /** A list with an element failing `p` has a strictly shorter filter. */
  lemma {:induction false} FilterMissesOne<T>(xs: seq<T>, p: T -> bool, i: nat)
    requires i < |xs| && !p(xs[i])
    ensures |Filter(xs, p)| < |xs|
  {
    if i > 0 {
      FilterMissesOne(xs[1..], p, i - 1);
    }
  }

  lemma {:induction false} FilterNone<T>(xs: seq<T>, p: T -> bool)
    requires forall i :: 0 <= i < |xs| ==> !p(xs[i])
    ensures Filter(xs, p) == []
  {
    if |xs| > 0 {
      FilterNone(xs[1..], p);
    }
  }

  /** Two predicates that agree on the elements give the same filter. */
  lemma {:induction false} FilterExt<T>(xs: seq<T>, p: T -> bool, q: T -> bool)
    requires forall i :: 0 <= i < |xs| ==> p(xs[i]) == q(xs[i])
    ensures Filter(xs, p) == Filter(xs, q)
  {
    if |xs| > 0 {
      FilterExt(xs[1..], p, q);
    }
  }

  /** Filtering by `p` and by its negation splits the list: the counts add up. */
  lemma {:induction false} FilterComplement<T>(xs: seq<T>, p: T -> bool, q: T -> bool)
    requires forall i :: 0 <= i < |xs| ==> q(xs[i]) == !p(xs[i])
    ensures |Filter(xs, p)| + |Filter(xs, q)| == |xs|
  {
    if |xs| > 0 {
      FilterComplement(xs[1..], p, q);
    }
  }

  /** Filtering twice: if `q` implies `p`, then filtering by `p` first changes nothing. */
  lemma {:induction false} FilterFilter<T>(xs: seq<T>, p: T -> bool, q: T -> bool)
    requires forall i :: 0 <= i < |xs| ==> q(xs[i]) ==> p(xs[i])
    ensures Filter(Filter(xs, p), q) == Filter(xs, q)
  {
    if |xs| > 0 {
      FilterFilter(xs[1..], p, q);
      if p(xs[0]) {
        assert Filter(xs, p) == [xs[0]] + Filter(xs[1..], p);
        FilterConcat([xs[0]], Filter(xs[1..], p), q);
        assert Filter([xs[0]], q) == if q(xs[0]) then [xs[0]] else [];
      } else {
        assert Filter(xs, p) == Filter(xs[1..], p);
      }
    }
  }

  lemma {:induction false} MapConcat<T, U>(a: seq<T>, b: seq<T>, f: T -> U)
    ensures Map(a + b, f) == Map(a, f) + Map(b, f)
  {
  }

  lemma {:induction false} SumConcat<T>(a: seq<T>, b: seq<T>, f: T -> real)
    ensures Sum(a + b, f) == Sum(a, f) + Sum(b, f)
  {
    if |a| == 0 {
      assert a + b == b;
    } else {
      assert (a + b)[1..] == a[1..] + b;
      SumConcat(a[1..], b, f);
    }
  }

  /** A sum of `n` terms each in `[lo, hi]` lies in `[n * lo, n * hi]`. */
  lemma {:induction false} SumBounds<T>(xs: seq<T>, f: T -> real, lo: real, hi: real)
    requires forall i :: 0 <= i < |xs| ==> lo <= f(xs[i]) <= hi
    ensures |xs| as real * lo <= Sum(xs, f) <= |xs| as real * hi
  {
    if |xs| > 0 {
      SumBounds(xs[1..], f, lo, hi);
    }
  }

  /** A pointwise larger term gives a larger sum. */
  lemma {:induction false} SumMonotone<T>(xs: seq<T>, f: T -> real, g: T -> real)
    requires forall i :: 0 <= i < |xs| ==> f(xs[i]) <= g(xs[i])
    ensures Sum(xs, f) <= Sum(xs, g)
  {
    if |xs| > 0 {
      SumMonotone(xs[1..], f, g);
    }
  }

  /** Terms that agree on the elements give the same sum. */
  lemma {:induction false} SumExt<T>(xs: seq<T>, f: T -> real, g: T -> real)
    requires forall i :: 0 <= i < |xs| ==> f(xs[i]) == g(xs[i])
    ensures Sum(xs, f) == Sum(xs, g)
  {
    if |xs| > 0 {
      SumExt(xs[1..], f, g);
    }
  }

  /** A sum of indicator terms (1 when `p`, else 0) is the size of the filter by `p`. */
  lemma {:induction false} SumCountsFilter<T>(xs: seq<T>, f: T -> real, p: T -> bool)
    requires forall i :: 0 <= i < |xs| ==> f(xs[i]) == if p(xs[i]) then 1.0 else 0.0
    ensures Sum(xs, f) == |Filter(xs, p)| as real
  {
    if |xs| > 0 {
      SumCountsFilter(xs[1..], f, p);
    }
  }

  /** Replacing one element changes the sum by the difference of the terms. */
  lemma {:induction false} SumUpdate<T>(xs: seq<T>, i: nat, x: T, f: T -> real)
    requires i < |xs|
    ensures Sum(xs[i := x], f) == Sum(xs, f) - f(xs[i]) + f(x)
  {
    if i > 0 {
      SumUpdate(xs[1..], i - 1, x, f);
      assert xs[i := x][1..] == xs[1..][i - 1 := x];
    }
  }
}
