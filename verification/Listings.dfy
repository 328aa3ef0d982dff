/**
 Sequences that list a set in some order, and what does not depend on the order.
 */
module Listings {

  ghost predicate Distinct<T>(s: seq<T>) {
    forall i, j :: 0 <= i < j < |s| ==> s[i] != s[j]
  }

  /** `s` holds exactly the elements of `keys`, each once. */
  ghost predicate Lists<T(!new)>(s: seq<T>, keys: set<T>) {
    Distinct(s) && forall x :: x in s <==> x in keys
  }

  function Without<T>(s: seq<T>, i: nat): seq<T>
    requires i < |s|
  {
    s[..i] + s[i + 1..]
  }

  lemma WithoutLists<T(!new)>(s: seq<T>, keys: set<T>, i: nat)
    requires Lists(s, keys) && i < |s|
    ensures Lists(Without(s, i), keys - {s[i]})
  {
    var r := Without(s, i);
    forall j, k | 0 <= j < k < |r|
      ensures r[j] != r[k]
    {
      assert r[j] == s[if j < i then j else j + 1];
      assert r[k] == s[if k < i then k else k + 1];
    }
    forall x
      ensures x in r <==> x in keys - {s[i]}
    {
      if x in keys - {s[i]} {
        var j :| 0 <= j < |s| && s[j] == x;
        assert r[if j < i then j else j - 1] == x;
      }
      if x in r {
        var j :| 0 <= j < |r| && r[j] == x;
        assert x == s[if j < i then j else j + 1];
      }
    }
  }

  lemma {:induction false} ListsLength<T(!new)>(s: seq<T>, keys: set<T>)
    requires Lists(s, keys)
    ensures |s| == |keys|
  {
    if s == [] {
      assert keys == {};
    } else {
      WithoutLists(s, keys, 0);
      assert Without(s, 0) == s[1..];
      ListsLength(s[1..], keys - {s[0]});
    }
  }

  lemma MapGrows<K, V>(m: map<K, V>, k: K, v: V)
    requires k !in m
    ensures |m[k := v]| == |m| + 1
  {
    var m' := m[k := v];
    assert m'.Keys == m.Keys + {k};
    assert |m'.Keys| == |m.Keys| + 1;
  }

  /** Removing one element leaves the multiset without it. */
  lemma WithoutMultiset<T>(s: seq<T>, i: nat)
    requires i < |s|
    ensures multiset(s) == multiset{s[i]} + multiset(Without(s, i))
  {
    assert s == s[..i] + [s[i]] + s[i + 1..];
  }

  lemma {:induction false} ListsMultiset<T(!new)>(a: seq<T>, b: seq<T>, keys: set<T>)
    requires Lists(a, keys) && Lists(b, keys)
    ensures multiset(a) == multiset(b)
    decreases |a|
  {
    ListsLength(a, keys);
    ListsLength(b, keys);
    if a != [] {
      assert a[0] in keys;
      var i :| 0 <= i < |b| && b[i] == a[0];
      WithoutLists(a, keys, 0);
      WithoutLists(b, keys, i);
      assert Without(a, 0) == a[1..];
      ListsMultiset(a[1..], Without(b, i), keys - {a[0]});
      WithoutMultiset(a, 0);
      WithoutMultiset(b, i);
    }
  }

  /** An element found at two places counts twice. */
  lemma CountedTwice<T>(s: seq<T>, i: nat, j: nat)
    requires i < j < |s| && s[i] == s[j]
    ensures multiset(s)[s[i]] >= 2
  {
    assert s == s[..j] + ([s[j]] + s[j + 1..]);
    assert s[i] in s[..j];
  }

  lemma InLarger<T>(c: seq<T>, s: seq<T>, i: nat)
    requires multiset(c) <= multiset(s) && i < |c|
    ensures c[i] in s
  {
    assert c[i] in multiset(c);
  }

  function Reverse<T>(s: seq<T>): seq<T> {
    if s == [] then [] else Reverse(s[1..]) + [s[0]]
  }

  lemma {:induction false} ReverseMultiset<T>(s: seq<T>)
    ensures multiset(Reverse(s)) == multiset(s)
    ensures |Reverse(s)| == |s|
  {
    if s != [] {
      ReverseMultiset(s[1..]);
      assert s == [s[0]] + s[1..];
    }
  }

  lemma {:induction false} ReverseAt<T>(s: seq<T>)
    ensures |Reverse(s)| == |s|
    ensures forall i :: 0 <= i < |s| ==> Reverse(s)[i] == s[|s| - 1 - i]
  {
    if s != [] {
      ReverseAt(s[1..]);
    }
  }

  lemma AppendFirst<T>(a: seq<T>, x: T, b: seq<T>)
    ensures a + ([x] + b) == (a + [x]) + b
  {
  }

  lemma CancelOne<T>(x: T, m: multiset<T>, n: multiset<T>)
    requires multiset{x} + m == multiset{x} + n
    ensures m == n
  {
    assert m == multiset{x} + m - multiset{x};
    assert n == multiset{x} + n - multiset{x};
  }

  function Min(a: int, b: int): int {
    if a <= b then a else b
  }

  // ---------------------------------------------------------------------
  // Sums along a sequence.

  function Sum<T>(s: seq<T>, f: T -> int): int {
    if s == [] then 0 else f(s[0]) + Sum(s[1..], f)
  }

  lemma {:induction false} SumConcat<T>(a: seq<T>, b: seq<T>, f: T -> int)
    ensures Sum(a + b, f) == Sum(a, f) + Sum(b, f)
  {
    if a == [] {
      assert a + b == b;
    } else {
      assert (a + b)[1..] == a[1..] + b;
      SumConcat(a[1..], b, f);
    }
  }

  lemma {:induction false} SumSame<T>(s: seq<T>, f: T -> int, g: T -> int)
    requires forall x :: x in s ==> f(x) == g(x)
    ensures Sum(s, f) == Sum(s, g)
  {
    if s != [] {
      assert s[0] in s;
      SumSame(s[1..], f, g);
    }
  }

  lemma SumWithout<T>(s: seq<T>, i: nat, f: T -> int)
    requires i < |s|
    ensures Sum(s, f) == f(s[i]) + Sum(Without(s, i), f)
  {
    var head, tail := s[..i], s[i..];
    assert s == head + tail && tail[0] == s[i] && tail[1..] == s[i + 1..];
    SumConcat(head, tail, f);
    SumConcat(head, tail[1..], f);
  }

  /** A sum depends on what is summed, not on the order. */
  lemma {:induction false} SumPermutation<T>(a: seq<T>, b: seq<T>, f: T -> int)
    requires multiset(a) == multiset(b)
    ensures Sum(a, f) == Sum(b, f)
  {
    if a == [] {
      assert |multiset(b)| == 0;
    } else {
      assert a[0] in multiset(a);
      var i :| 0 <= i < |b| && b[i] == a[0];
      WithoutMultiset(b, i);
      assert Without(a, 0) == a[1..];
      WithoutMultiset(a, 0);
      CancelOne(a[0], multiset(a[1..]), multiset(Without(b, i)));
      SumPermutation(a[1..], Without(b, i), f);
      SumWithout(b, i, f);
    }
  }

  // ---------------------------------------------------------------------
  // Groups visited in some order.

  /** The records of the groups, one group after the other. */
  function Flatten<K, V>(order: seq<K>, groups: map<K, seq<V>>): seq<V>
    requires forall k :: k in order ==> k in groups
  {
    if order == [] then [] else groups[order[0]] + Flatten(order[1..], groups)
  }

  lemma {:induction false} FlattenConcat<K, V>(a: seq<K>, b: seq<K>, groups: map<K, seq<V>>)
    requires forall k :: k in a + b ==> k in groups
    ensures Flatten(a + b, groups) == Flatten(a, groups) + Flatten(b, groups)
  {
    if a == [] {
      assert a + b == b;
    } else {
      assert (a + b)[1..] == a[1..] + b;
      assert forall k :: k in a[1..] + b ==> k in a + b;
      FlattenConcat(a[1..], b, groups);
    }
  }

  /** Two listings of the same groups flatten to the same records. */
  lemma {:induction false} FlattenPermutation<K(!new), V>(a: seq<K>, b: seq<K>, keys: set<K>, groups: map<K, seq<V>>)
    requires Lists(a, keys) && Lists(b, keys) && keys <= groups.Keys
    ensures multiset(Flatten(a, groups)) == multiset(Flatten(b, groups))
    decreases |a|
  {
    ListsLength(a, keys);
    ListsLength(b, keys);
    if a != [] {
      var k := a[0];
      assert k in keys;
      var i :| 0 <= i < |b| && b[i] == k;
      WithoutLists(a, keys, 0);
      WithoutLists(b, keys, i);
      assert Without(a, 0) == a[1..];
      FlattenPermutation(a[1..], Without(b, i), keys - {k}, groups);
      FlattenWithout(b, i, groups);
    }
  }

  lemma FlattenWithout<K, V>(s: seq<K>, i: nat, groups: map<K, seq<V>>)
    requires i < |s| && forall k :: k in s ==> k in groups
    ensures multiset(Flatten(s, groups)) == multiset(groups[s[i]]) + multiset(Flatten(Without(s, i), groups))
  {
    assert s == s[..i] + s[i..];
    FlattenConcat(s[..i], s[i..], groups);
    FlattenConcat(s[..i], s[i + 1..], groups);
    assert s[i..][1..] == s[i + 1..];
  }
}
