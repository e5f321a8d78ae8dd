// Picking elements of finite sets, and their sizes.

module Sets {

  /** Some element of a set that has one. */
  ghost function AnyOf<T>(s: set<T>): (x: T)
    requires s != {}
    ensures x in s
  {
    var x :| x in s;
    x
  }

  method Pick<T(==)>(s: set<T>) returns (x: T)
    requires s != {}
    ensures x in s
  {
    x :| x in s;
  }

  lemma SubsetIsSmaller<T>(a: set<T>, b: set<T>)
    requires a <= b
    ensures |a| <= |b|
  {
    assert b == a + (b - a) && a !! (b - a);
  }

  lemma SameSize<T>(a: set<T>, b: set<T>)
    requires a <= b && |a| == |b|
    ensures a == b
  {
    assert b == a + (b - a) && a !! (b - a);
    assert b - a == {};
  }

  lemma UnionSize<T>(a: set<T>, b: set<T>)
    ensures |a + b| == |a| + |b| - |a * b|
  {
    assert a + b == a + (b - a) && a !! (b - a);
    assert b == (b - a) + (a * b) && (b - a) !! (a * b);
  }

  lemma {:induction false} SubsetOfSize<T>(s: set<T>, k: nat) returns (r: set<T>)
    requires k <= |s|
    ensures r <= s && |r| == k
  {
    if k == 0 {
      r := {};
    } else {
      var x := AnyOf(s);
      var rest := SubsetOfSize(s - {x}, k - 1);
      r := rest + {x};
    }
  }
}
