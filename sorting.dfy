/**
 * `Array.prototype.sort` with a comparator `(a, b) => key(b) - key(a)`: a
 * stable sort into non-increasing key order. The components sort risk rows by
 * tier weight, teacher rows by average and announcements by date this way.
 */
module Sorting {
  import opened Seqs

  ghost predicate SortedDesc<T>(s: seq<T>, key: T -> real)
  {
    forall i, j :: 0 <= i < j < |s| ==> key(s[i]) >= key(s[j])
  }

  /** The elements whose key is exactly `k`. */
  function KeyIs<T>(key: T -> real, k: real): T -> bool
  {
    (x: T) => key(x) == k
  }

  /** Puts `x` before the first element whose key is not larger than its own. */
  function Insert<T>(x: T, s: seq<T>, key: T -> real): (r: seq<T>)
    ensures |r| == |s| + 1
    ensures multiset(r) == multiset(s) + multiset{x}
  {
    if |s| == 0 then [x]
    else if key(s[0]) <= key(x) then [x] + s
    else
      assert s == [s[0]] + s[1..];
      [s[0]] + Insert(x, s[1..], key)
  }

  function SortDesc<T>(xs: seq<T>, key: T -> real): (r: seq<T>)
    ensures |r| == |xs|
    ensures multiset(r) == multiset(xs)
  {
    if |xs| == 0 then []
    else
      assert xs == [xs[0]] + xs[1..];
      Insert(xs[0], SortDesc(xs[1..], key), key)
  }

  lemma {:induction false} InsertElements<T>(x: T, s: seq<T>, key: T -> real)
    ensures forall i :: 0 <= i < |Insert(x, s, key)| ==>
      Insert(x, s, key)[i] == x || Insert(x, s, key)[i] in s
  {
    var r := Insert(x, s, key);
    forall i | 0 <= i < |r| ensures r[i] == x || r[i] in s {
      assert r[i] in multiset(r);
    }
  }

  lemma {:induction false} InsertSorted<T>(x: T, s: seq<T>, key: T -> real)
    requires SortedDesc(s, key)
    ensures SortedDesc(Insert(x, s, key), key)
  {
    if |s| > 0 && key(s[0]) > key(x) {
      InsertSorted(x, s[1..], key);
      var t := Insert(x, s[1..], key);
      InsertElements(x, s[1..], key);
      forall j | 0 <= j < |t| ensures key(s[0]) >= key(t[j]) {
        if t[j] != x {
          var k :| 1 <= k < |s| && s[k] == t[j];
        }
      }
    }
  }

  /** The result is in non-increasing key order. */
  lemma {:induction false} SortDescSorted<T>(xs: seq<T>, key: T -> real)
    ensures SortedDesc(SortDesc(xs, key), key)
  {
    if |xs| > 0 {
      SortDescSorted(xs[1..], key);
      InsertSorted(xs[0], SortDesc(xs[1..], key), key);
    }
  }

  lemma {:induction false} InsertStable<T>(x: T, s: seq<T>, key: T -> real, k: real)
    decreases |s|, 1
    ensures Filter(Insert(x, s, key), KeyIs(key, k)) ==
      (if key(x) == k then [x] else []) + Filter(s, KeyIs(key, k))
  {
    var p := KeyIs(key, k);
    FilterSingleton(x, p);
    if |s| == 0 {
    } else if key(s[0]) <= key(x) {
      FilterConcat([x], s, p);
    } else {
      InsertStableStep(x, s, key, k);
    }
  }

  lemma {:induction false} InsertStableStep<T>(x: T, s: seq<T>, key: T -> real, k: real)
    requires |s| > 0 && key(s[0]) > key(x)
    ensures Filter(Insert(x, s, key), KeyIs(key, k)) ==
      (if key(x) == k then [x] else []) + Filter(s, KeyIs(key, k))
    decreases |s|, 0
  {
    var p := KeyIs(key, k);
    var t := Insert(x, s[1..], key);
    assert Insert(x, s, key) == [s[0]] + t;
    InsertStable(x, s[1..], key, k);
    FilterConcat([s[0]], t, p);
    assert s == [s[0]] + s[1..];
    FilterConcat([s[0]], s[1..], p);
    FilterSingleton(s[0], p);
    assert p(s[0]) == (key(s[0]) == k);
    if key(x) == k {
      assert !p(s[0]);
      assert Filter([s[0]], p) == [];
    } else {
      assert Filter(t, p) == Filter(s[1..], p);
    }
  }

  lemma FilterSingleton<T>(x: T, p: T -> bool)
    ensures Filter([x], p) == if p(x) then [x] else []
  {
  }

  /**
   * Stability: the elements with any one key keep their original relative
   * order, so the sort only moves elements across different keys.
   */
  lemma {:induction false} SortDescStable<T>(xs: seq<T>, key: T -> real, k: real)
    ensures Filter(SortDesc(xs, key), KeyIs(key, k)) == Filter(xs, KeyIs(key, k))
  {
    if |xs| > 0 {
      SortDescStable(xs[1..], key, k);
      InsertStable(xs[0], SortDesc(xs[1..], key), key, k);
    }
  }

  /**
   * The head of the sorted list has the largest key, and it is the first
   * element of the input carrying that key: ties go to the earlier element.
   */
  lemma SortDescHead<T>(xs: seq<T>, key: T -> real)
    requires |xs| > 0
    ensures forall j :: 0 <= j < |xs| ==> key(xs[j]) <= key(SortDesc(xs, key)[0])
    ensures exists i :: 0 <= i < |xs| && xs[i] == SortDesc(xs, key)[0] &&
                        forall j :: 0 <= j < i ==> key(xs[j]) < key(xs[i])
  {
    var r := SortDesc(xs, key);
    var k := key(r[0]);
    SortDescSorted(xs, key);
    forall j | 0 <= j < |xs| ensures key(xs[j]) <= k {
      assert xs[j] in multiset(r);
    }
    SortDescStable(xs, key, k);
    var p := KeyIs(key, k);
    FilterHead(r, p, 0);
    assert Filter(xs, p) == Filter(r, p);
    FilterHeadIsFirst(xs, p);
    var i := FindIndex(xs, p).value;
    assert xs[i] == r[0];
    forall j | 0 <= j < i ensures key(xs[j]) < key(xs[i]) {
      assert !p(xs[j]);
    }
  }

  /** If `s[i]` is the first element satisfying `p`, the filter starts with it. */
  lemma {:induction false} FilterHead<T>(s: seq<T>, p: T -> bool, i: nat)
    requires i < |s| && p(s[i]) && forall j :: 0 <= j < i ==> !p(s[j])
    ensures |Filter(s, p)| > 0 && Filter(s, p)[0] == s[i]
  {
    if i > 0 {
      FilterHead(s[1..], p, i - 1);
    }
  }

  /** A non-empty filter starts with the first element `findIndex` reports. */
  lemma FilterHeadIsFirst<T>(s: seq<T>, p: T -> bool)
    requires |Filter(s, p)| > 0
    ensures FindIndex(s, p).Some?
    ensures Filter(s, p)[0] == s[FindIndex(s, p).value]
  {
    assert Filter(s, p)[0] in multiset(s);
    assert p(Filter(s, p)[0]);
    FilterHead(s, p, FindIndex(s, p).value);
  }

  lemma {:induction false} SumInsert<T>(x: T, s: seq<T>, key: T -> real, f: T -> real)
    ensures Sum(Insert(x, s, key), f) == f(x) + Sum(s, f)
  {
    if |s| > 0 && key(s[0]) > key(x) {
      SumInsert(x, s[1..], key, f);
      assert Insert(x, s, key)[1..] == Insert(x, s[1..], key);
    }
  }

  /** Sorting does not change a sum over the list. */
  lemma {:induction false} SumSortDesc<T>(xs: seq<T>, key: T -> real, f: T -> real)
    ensures Sum(SortDesc(xs, key), f) == Sum(xs, f)
  {
    if |xs| > 0 {
      SumSortDesc(xs[1..], key, f);
      SumInsert(xs[0], SortDesc(xs[1..], key), key, f);
    }
  }

  /** Sorting does not change how many elements satisfy a predicate. */
  lemma {:induction false} FilterCountSortDesc<T>(xs: seq<T>, key: T -> real, p: T -> bool)
    ensures |Filter(SortDesc(xs, key), p)| == |Filter(xs, p)|
  {
    if |xs| > 0 {
      FilterCountSortDesc(xs[1..], key, p);
      FilterCountInsert(xs[0], SortDesc(xs[1..], key), key, p);
    }
  }

  lemma {:induction false} FilterCountInsert<T>(x: T, s: seq<T>, key: T -> real, p: T -> bool)
    ensures |Filter(Insert(x, s, key), p)| == (if p(x) then 1 else 0) + |Filter(s, p)|
  {
    if |s| > 0 && key(s[0]) > key(x) {
      FilterCountInsert(x, s[1..], key, p);
      assert Insert(x, s, key)[1..] == Insert(x, s[1..], key);
    }
  }
}
