/** The stable sort that `sorted(..., key=...)` performs, with the order given as a relation. */
module StableSort {

  ghost predicate TotalOrder<T(!new)>(le: (T, T) -> bool) {
    && (forall a, b :: le(a, b) || le(b, a))
    && (forall a, b, c :: le(a, b) && le(b, c) ==> le(a, c))
  }

  ghost predicate Pairwise<T>(s: seq<T>, le: (T, T) -> bool) {
    forall i, j :: 0 <= i < j < |s| ==> le(s[i], s[j])
  }

  lemma PairwiseTail<T>(s: seq<T>, le: (T, T) -> bool)
    requires s != [] && Pairwise(s, le)
    ensures Pairwise(s[1..], le)
    ensures forall y :: y in s[1..] ==> le(s[0], y)
  {
    forall i, j | 0 <= i < j < |s[1..]|
      ensures le(s[1..][i], s[1..][j])
    {
      assert le(s[i + 1], s[j + 1]);
    }
  }

  /** First by `major`, and among equals by `minor`. */
  function Then<T>(major: (T, T) -> bool, minor: (T, T) -> bool): (T, T) -> bool {
    (a, b) => major(a, b) && (major(b, a) ==> minor(a, b))
  }

  function Insert<T>(x: T, s: seq<T>, le: (T, T) -> bool): seq<T> {
    if s == [] || le(x, s[0]) then [x] + s else [s[0]] + Insert(x, s[1..], le)
  }

  function Sort<T>(s: seq<T>, le: (T, T) -> bool): seq<T> {
    if s == [] then [] else Insert(s[0], Sort(s[1..], le), le)
  }

  lemma {:induction false} InsertKeeps<T>(x: T, s: seq<T>, le: (T, T) -> bool)
    ensures multiset(Insert(x, s, le)) == multiset(s) + multiset{x}
  {
    if s != [] && !le(x, s[0]) {
      InsertKeeps(x, s[1..], le);
      assert s == [s[0]] + s[1..];
    }
  }

  lemma {:induction false} SortKeeps<T>(s: seq<T>, le: (T, T) -> bool)
    ensures multiset(Sort(s, le)) == multiset(s)
  {
    if s != [] {
      SortKeeps(s[1..], le);
      InsertKeeps(s[0], Sort(s[1..], le), le);
      assert s == [s[0]] + s[1..];
    }
  }

  lemma SameElements<T>(a: seq<T>, b: seq<T>, x: T)
    requires multiset(a) == multiset(b)
    ensures x in a <==> x in b
  {
    assert x in a <==> x in multiset(a);
    assert x in b <==> x in multiset(b);
  }

  lemma {:induction false} InsertSorts<T(!new)>(x: T, s: seq<T>, major: (T, T) -> bool, minor: (T, T) -> bool)
    requires TotalOrder(major) && Pairwise(s, Then(major, minor))
    requires forall y :: y in s ==> minor(x, y)
    ensures Pairwise(Insert(x, s, major), Then(major, minor))
  {
    var r := Insert(x, s, major);
    if s == [] || major(x, s[0]) {
      forall j | 0 <= j < |s|
        ensures Then(major, minor)(x, s[j])
      {
        assert j > 0 ==> Then(major, minor)(s[0], s[j]);
        assert minor(x, s[j]);
      }
    } else {
      var tail := Insert(x, s[1..], major);
      PairwiseTail(s, Then(major, minor));
      InsertSorts(x, s[1..], major, minor);
      forall j | 0 <= j < |tail|
        ensures Then(major, minor)(s[0], tail[j])
      {
        InsertKeeps(x, s[1..], major);
        assert tail[j] in multiset(tail);
        assert tail[j] == x || tail[j] in s[1..];
      }
    }
  }

  /** Sorting by `major` what is in `minor` order gives the lexicographic order of both. */
  lemma {:induction false} SortIsLexicographic<T(!new)>(s: seq<T>, major: (T, T) -> bool, minor: (T, T) -> bool)
    requires TotalOrder(major) && Pairwise(s, minor)
    ensures Pairwise(Sort(s, major), Then(major, minor))
  {
    if s != [] {
      PairwiseTail(s, minor);
      SortIsLexicographic(s[1..], major, minor);
      SortKeeps(s[1..], major);
      forall y | y in Sort(s[1..], major)
        ensures minor(s[0], y)
      {
        SameElements(Sort(s[1..], major), s[1..], y);
      }
      InsertSorts(s[0], Sort(s[1..], major), major, minor);
    }
  }

  function Filter<T>(s: seq<T>, p: T -> bool): seq<T> {
    if s == [] then [] else (if p(s[0]) then [s[0]] else []) + Filter(s[1..], p)
  }

  lemma {:induction false} FilterIn<T>(s: seq<T>, p: T -> bool, x: T)
    ensures x in Filter(s, p) <==> x in s && p(x)
  {
    if s != [] {
      FilterIn(s[1..], p, x);
      assert s == [s[0]] + s[1..];
    }
  }

  /** Filtering keeps the order. */
  lemma {:induction false} FilterOrdered<T>(s: seq<T>, p: T -> bool, le: (T, T) -> bool)
    requires Pairwise(s, le)
    ensures Pairwise(Filter(s, p), le)
  {
    if s != [] {
      PairwiseTail(s, le);
      FilterOrdered(s[1..], p, le);
      forall y | y in Filter(s[1..], p)
        ensures le(s[0], y)
      {
        FilterIn(s[1..], p, y);
      }
    }
  }

  /** A filter splits what its disjuncts pick. */
  lemma {:induction false} FilterSplits<T>(s: seq<T>, p: T -> bool, q: T -> bool, both: T -> bool)
    requires forall x :: x in s ==> !(p(x) && q(x)) && (both(x) <==> p(x) || q(x))
    ensures multiset(Filter(s, both)) == multiset(Filter(s, p)) + multiset(Filter(s, q))
  {
    if s != [] {
      FilterSplits(s[1..], p, q, both);
    }
  }

  lemma {:induction false} FilterAll<T>(s: seq<T>, p: T -> bool)
    requires forall x :: x in s ==> p(x)
    ensures Filter(s, p) == s
  {
    if s != [] {
      FilterAll(s[1..], p);
    }
  }
}
