// Sorting and filtering of lists, with what callers need to know about them.

module Sorting {

  /** Reflexive in pairs and transitive. */
  ghost predicate TotalOrder<T(!new)>(le: (T, T) -> bool) {
    && (forall a, b :: le(a, b) || le(b, a))
    && (forall a, b, c :: le(a, b) && le(b, c) ==> le(a, c))
  }

  ghost predicate SortedBy<T>(xs: seq<T>, le: (T, T) -> bool) {
    forall i, j :: 0 <= i < j < |xs| ==> le(xs[i], xs[j])
  }

  function Insert<T>(x: T, xs: seq<T>, le: (T, T) -> bool): (r: seq<T>) {
    if xs == [] || le(x, xs[0]) then [x] + xs else [xs[0]] + Insert(x, xs[1..], le)
  }

  function Sort<T>(xs: seq<T>, le: (T, T) -> bool): (r: seq<T>) {
    if xs == [] then [] else Insert(xs[0], Sort(xs[1..], le), le)
  }

  lemma {:induction false} InsertKeepsElements<T>(x: T, xs: seq<T>, le: (T, T) -> bool)
    ensures multiset(Insert(x, xs, le)) == multiset([x] + xs)
  {
    if xs != [] && !le(x, xs[0]) {
      InsertKeepsElements(x, xs[1..], le);
      assert xs == [xs[0]] + xs[1..];
      assert multiset([x] + xs) == multiset{x} + multiset(xs);
    }
  }

  lemma {:induction false} SortKeepsElements<T>(xs: seq<T>, le: (T, T) -> bool)
    ensures multiset(Sort(xs, le)) == multiset(xs)
    ensures |Sort(xs, le)| == |xs|
  {
    if xs != [] {
      SortKeepsElements(xs[1..], le);
      InsertKeepsElements(xs[0], Sort(xs[1..], le), le);
      assert xs == [xs[0]] + xs[1..];
      assert multiset([xs[0]] + Sort(xs[1..], le)) == multiset{xs[0]} + multiset(Sort(xs[1..], le));
      assert |multiset(Sort(xs, le))| == |multiset(xs)|;
    }
  }

  lemma {:induction false} InsertKeepsOrder<T(!new)>(x: T, xs: seq<T>, le: (T, T) -> bool)
    requires TotalOrder(le) && SortedBy(xs, le)
    ensures SortedBy(Insert(x, xs, le), le)
  {
    if xs != [] && !le(x, xs[0]) {
      InsertKeepsOrder(x, xs[1..], le);
      var rest := Insert(x, xs[1..], le);
      InsertKeepsElements(x, xs[1..], le);
      forall y | y in rest ensures le(xs[0], y) {
        assert y in multiset(rest);
        assert y in multiset([x] + xs[1..]);
        assert y == x || y in xs[1..];
      }
    } else if xs != [] {
      assert forall j :: 0 <= j < |xs| ==> le(x, xs[j]);
    }
  }

  /** The result is ordered. */
  lemma {:induction false} SortIsSorted<T(!new)>(xs: seq<T>, le: (T, T) -> bool)
    requires TotalOrder(le)
    ensures SortedBy(Sort(xs, le), le)
  {
    if xs != [] {
      SortIsSorted(xs[1..], le);
      InsertKeepsOrder(xs[0], Sort(xs[1..], le), le);
    }
  }

  lemma SortMembers<T>(xs: seq<T>, le: (T, T) -> bool)
    ensures forall x :: x in Sort(xs, le) <==> x in xs
    ensures |Sort(xs, le)| == |xs|
  {
    SortKeepsElements(xs, le);
    assert forall x :: x in Sort(xs, le) <==> x in multiset(Sort(xs, le));
    assert forall x :: x in xs <==> x in multiset(xs);
  }

  function Filter<T>(xs: seq<T>, keep: T -> bool): (r: seq<T>) {
    if xs == [] then [] else Filter(xs[..|xs| - 1], keep) + if keep(xs[|xs| - 1]) then [xs[|xs| - 1]] else []
  }

  lemma {:induction false} FilterMembers<T>(xs: seq<T>, keep: T -> bool)
    ensures forall x :: x in Filter(xs, keep) <==> x in xs && keep(x)
    ensures |Filter(xs, keep)| <= |xs|
  {
    if xs != [] {
      FilterMembers(xs[..|xs| - 1], keep);
      assert xs == xs[..|xs| - 1] + [xs[|xs| - 1]];
    }
  }

  lemma FilterMember<T>(xs: seq<T>, keep: T -> bool, x: T)
    ensures x in Filter(xs, keep) <==> x in xs && keep(x)
  {
    FilterMembers(xs, keep);
  }

  lemma {:induction false} FilterConcat<T>(a: seq<T>, b: seq<T>, keep: T -> bool)
    ensures Filter(a + b, keep) == Filter(a, keep) + Filter(b, keep)
  {
    if b == [] {
      assert a + b == a;
    } else {
      assert (a + b)[..|a + b| - 1] == a + b[..|b| - 1];
      FilterConcat(a, b[..|b| - 1], keep);
    }
  }

  lemma {:induction false} FilterAll<T>(xs: seq<T>, keep: T -> bool)
    requires forall x :: x in xs ==> keep(x)
    ensures Filter(xs, keep) == xs
  {
    if xs != [] {
      FilterAll(xs[..|xs| - 1], keep);
      assert xs == xs[..|xs| - 1] + [xs[|xs| - 1]];
    }
  }

  /** No key occurs twice. */
  ghost predicate UniqueKeys<T>(xs: seq<T>, key: T -> int) {
    forall i, j :: 0 <= i < j < |xs| ==> key(xs[i]) != key(xs[j])
  }

  ghost function Keys<T>(xs: seq<T>, key: T -> int): (r: set<int>) {
    set i | 0 <= i < |xs| :: key(xs[i])
  }

  /** Keys are unique exactly when there are as many of them as elements. */
  lemma {:induction false} UniqueKeysCount<T>(xs: seq<T>, key: T -> int)
    ensures |Keys(xs, key)| <= |xs|
    ensures UniqueKeys(xs, key) <==> |Keys(xs, key)| == |xs|
  {
    if xs != [] {
      var n := |xs| - 1;
      var rest, k := xs[..n], key(xs[n]);
      UniqueKeysCount(rest, key);
      assert forall i :: 0 <= i < n ==> rest[i] == xs[i];
      assert Keys(xs, key) == Keys(rest, key) + {k} by {
        forall x | x in Keys(rest, key) + {k} ensures x in Keys(xs, key) {
          if x in Keys(rest, key) {
            var i :| 0 <= i < n && key(rest[i]) == x;
            assert key(xs[i]) == x;
          }
        }
      }
      if k in Keys(rest, key) {
        var i :| 0 <= i < n && key(rest[i]) == k;
        assert key(xs[i]) == key(xs[n]);
      }
    }
  }

  lemma {:induction false} FilterUnique<T>(xs: seq<T>, key: T -> int, keep: T -> bool)
    requires UniqueKeys(xs, key)
    ensures UniqueKeys(Filter(xs, keep), key)
  {
    if xs != [] {
      var n := |xs| - 1;
      FilterUnique(xs[..n], key, keep);
      var f := Filter(xs[..n], keep);
      forall i | 0 <= i < |f| ensures key(f[i]) != key(xs[n]) {
        var y := f[i];
        assert y in f;
        FilterMember(xs[..n], keep, y);
        NewKey(xs, n, key, y);
      }
    }
  }

  lemma NewKey<T>(xs: seq<T>, n: nat, key: T -> int, y: T)
    requires n < |xs| && UniqueKeys(xs, key) && y in xs[..n]
    ensures key(y) != key(xs[n])
  {
    var j :| 0 <= j < |xs[..n]| && xs[..n][j] == y;
    assert xs[j] == y;
  }

  /** Sorting does not disturb uniqueness. */
  lemma SortUnique<T>(xs: seq<T>, key: T -> int, le: (T, T) -> bool)
    requires UniqueKeys(xs, key)
    ensures UniqueKeys(Sort(xs, le), key)
  {
    UniqueKeysCount(xs, key);
    UniqueKeysCount(Sort(xs, le), key);
    SortMembers(xs, le);
    SameKeys(xs, Sort(xs, le), key);
  }

  lemma SameKeys<T>(a: seq<T>, b: seq<T>, key: T -> int)
    requires forall x :: x in a <==> x in b
    ensures Keys(a, key) == Keys(b, key)
  {
    forall k | k in Keys(a, key) ensures k in Keys(b, key) {
      var i :| 0 <= i < |a| && key(a[i]) == k;
      assert a[i] in b;
      var j :| 0 <= j < |b| && b[j] == a[i];
      assert key(b[j]) == k;
    }
    forall k | k in Keys(b, key) ensures k in Keys(a, key) {
      var i :| 0 <= i < |b| && key(b[i]) == k;
      assert b[i] in a;
      var j :| 0 <= j < |a| && a[j] == b[i];
      assert key(a[j]) == k;
    }
  }

  /** No key of `a` is a key of `b`. */
  ghost predicate Apart<T>(a: seq<T>, b: seq<T>, key: T -> int) {
    forall i, j :: 0 <= i < |a| && 0 <= j < |b| ==> key(a[i]) != key(b[j])
  }

  lemma UniqueConcat<T>(a: seq<T>, b: seq<T>, key: T -> int)
    ensures UniqueKeys(a + b, key) <==> UniqueKeys(a, key) && UniqueKeys(b, key) && Apart(a, b, key)
  {
    var c := a + b;
    assert forall i :: 0 <= i < |a| ==> c[i] == a[i];
    assert forall j :: 0 <= j < |b| ==> c[|a| + j] == b[j];
  }

  /** In a list with unique keys, elements with the same key are the same element. */
  lemma SameKeySameElement<T>(xs: seq<T>, key: T -> int, x: T, y: T)
    requires UniqueKeys(xs, key) && x in xs && y in xs && key(x) == key(y)
    ensures x == y
  {
    var i :| 0 <= i < |xs| && xs[i] == x;
    var j :| 0 <= j < |xs| && xs[j] == y;
    assert key(xs[i]) == key(xs[j]);
    assert i == j;
  }

  /** Filters that never agree pick elements with different keys. */
  lemma FiltersApart<T>(xs: seq<T>, key: T -> int, p: T -> bool, q: T -> bool)
    requires UniqueKeys(xs, key) && forall x :: x in xs ==> !(p(x) && q(x))
    ensures Apart(Filter(xs, p), Filter(xs, q), key)
  {
    var a, b := Filter(xs, p), Filter(xs, q);
    forall i, j | 0 <= i < |a| && 0 <= j < |b| ensures key(a[i]) != key(b[j]) {
      var x, y := a[i], b[j];
      assert x in a && y in b;
      FilterMember(xs, p, x);
      FilterMember(xs, q, y);
      if key(x) == key(y) {
        SameKeySameElement(xs, key, x, y);
      }
    }
  }

  lemma ApartMembers<T>(a: seq<T>, b: seq<T>, a': seq<T>, b': seq<T>, key: T -> int)
    requires Apart(a, b, key)
    requires (forall x :: x in a' ==> x in a) && (forall x :: x in b' ==> x in b)
    ensures Apart(a', b', key)
  {
    forall i, j | 0 <= i < |a'| && 0 <= j < |b'| ensures key(a'[i]) != key(b'[j]) {
      var x, y := a'[i], b'[j];
      assert x in a' && y in b';
      var k :| 0 <= k < |a| && a[k] == x;
      var l :| 0 <= l < |b| && b[l] == y;
      assert key(a[k]) != key(b[l]);
    }
  }
}
