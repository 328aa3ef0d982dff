/**
 A stable sort by any order, and the fact that it ignores the order of its input
 where the order tells elements apart.
 */
module Sorting {
  import opened Listings

  function Insert<T>(x: T, s: seq<T>, le: (T, T) -> bool): seq<T> {
    if s == [] || le(x, s[0]) then [x] + s else [s[0]] + Insert(x, s[1..], le)
  }

  function Sort<T>(s: seq<T>, le: (T, T) -> bool): seq<T> {
    if s == [] then [] else Insert(s[0], Sort(s[1..], le), le)
  }

  ghost predicate Sorted<T>(s: seq<T>, le: (T, T) -> bool) {
    forall i, j :: 0 <= i < j < |s| ==> le(s[i], s[j])
  }

  /** Any two elements compare, and comparisons chain. */
  ghost predicate Linear<T(!new)>(le: (T, T) -> bool) {
    && (forall x, y :: le(x, y) || le(y, x))
    && forall x, y, z :: le(x, y) && le(y, z) ==> le(x, z)
  }

  /** No two different elements of `s` count as equal. */
  ghost predicate Separates<T>(s: seq<T>, le: (T, T) -> bool) {
    forall i, j :: 0 <= i < |s| && 0 <= j < |s| && le(s[i], s[j]) && le(s[j], s[i]) ==> s[i] == s[j]
  }

  lemma {:induction false} InsertMultiset<T>(x: T, s: seq<T>, le: (T, T) -> bool)
    ensures multiset(Insert(x, s, le)) == multiset{x} + multiset(s)
  {
    if s != [] && !le(x, s[0]) {
      InsertMultiset(x, s[1..], le);
      assert s == [s[0]] + s[1..];
    }
  }

  lemma {:induction false} SortMultiset<T>(s: seq<T>, le: (T, T) -> bool)
    ensures multiset(Sort(s, le)) == multiset(s)
  {
    if s != [] {
      SortMultiset(s[1..], le);
      InsertMultiset(s[0], Sort(s[1..], le), le);
      assert s == [s[0]] + s[1..];
    }
  }

  lemma {:induction false} InsertSorted<T(!new)>(x: T, s: seq<T>, le: (T, T) -> bool)
    requires Linear(le) && Sorted(s, le)
    ensures Sorted(Insert(x, s, le), le)
  {
    if s != [] && !le(x, s[0]) {
      InsertSorted(x, s[1..], le);
      InsertMultiset(x, s[1..], le);
      var r := Insert(x, s[1..], le);
      forall i | 0 <= i < |r|
        ensures le(s[0], r[i])
      {
        assert r[i] in multiset(r);
        if r[i] != x {
          assert r[i] in multiset(s[1..]);
        }
      }
    }
  }

  lemma {:induction false} SortSorted<T(!new)>(s: seq<T>, le: (T, T) -> bool)
    requires Linear(le)
    ensures Sorted(Sort(s, le), le)
  {
    if s != [] {
      SortSorted(s[1..], le);
      InsertSorted(s[0], Sort(s[1..], le), le);
    }
  }

  /** The first of a sorted list comes before the first of any permutation of it. */
  lemma FirstComesFirst<T(!new)>(a: seq<T>, b: seq<T>, le: (T, T) -> bool)
    requires Linear(le) && Sorted(a, le) && multiset(a) == multiset(b) && |a| == |b| > 0
    ensures le(a[0], b[0]) && b[0] in a
  {
    assert b[0] in multiset(a);
    var j :| 0 <= j < |a| && a[j] == b[0];
  }

  lemma {:induction false} SortedUnique<T(!new)>(a: seq<T>, b: seq<T>, le: (T, T) -> bool)
    requires Linear(le) && Sorted(a, le) && Sorted(b, le) && multiset(a) == multiset(b) && Separates(a, le)
    ensures a == b
  {
    assert |multiset(a)| == |multiset(b)|;
    if a != [] {
      FirstComesFirst(a, b, le);
      FirstComesFirst(b, a, le);
      var j :| 0 <= j < |a| && a[j] == b[0];
      assert a[0] == b[0];
      assert Without(a, 0) == a[1..] && Without(b, 0) == b[1..];
      WithoutMultiset(a, 0);
      WithoutMultiset(b, 0);
      CancelOne(a[0], multiset(a[1..]), multiset(b[1..]));
      SortedUnique(a[1..], b[1..], le);
    }
  }

  lemma SeparatesPermuted<T>(a: seq<T>, b: seq<T>, le: (T, T) -> bool)
    requires Separates(a, le) && multiset(a) == multiset(b)
    ensures Separates(b, le)
  {
    forall i, j | 0 <= i < |b| && 0 <= j < |b| && le(b[i], b[j]) && le(b[j], b[i])
      ensures b[i] == b[j]
    {
      assert b[i] in multiset(a) && b[j] in multiset(a);
    }
  }

  /** Two permutations of elements that the order tells apart sort alike. */
  lemma SortOrderFree<T(!new)>(a: seq<T>, b: seq<T>, le: (T, T) -> bool)
    requires Linear(le) && multiset(a) == multiset(b) && Separates(a, le)
    ensures Sort(a, le) == Sort(b, le)
  {
    SortMultiset(a, le);
    SortMultiset(b, le);
    SortSorted(a, le);
    SortSorted(b, le);
    SeparatesPermuted(a, Sort(a, le), le);
    SortedUnique(Sort(a, le), Sort(b, le), le);
  }
}
