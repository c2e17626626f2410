// What the modules share: an optional value, and the sizes of sets.

module Collections {

  datatype Option<+T> = None | Some(value: T)

  ghost predicate Distinct<T>(xs: seq<T>) {
    forall i, j | 0 <= i < j < |xs| :: xs[i] != xs[j]
  }

  function Elements<T>(xs: seq<T>): set<T> { set x | x in xs }

  lemma SubsetSize<T>(a: set<T>, b: set<T>)
    requires a <= b
    ensures |a| <= |b| && (a != b ==> |a| < |b|)
  {
    assert a + (b - a) == b;
    assert a != b ==> b - a != {};
  }

  lemma DisjointSize<T>(a: set<T>, b: set<T>)
    requires a !! b
    ensures |a + b| == |a| + |b|
  {
  }

  lemma {:induction false} ElementCount<T>(xs: seq<T>)
    requires Distinct(xs)
    ensures |Elements(xs)| == |xs|
    decreases |xs|
  {
    if xs != [] {
      var n := |xs| - 1;
      ElementCount(xs[..n]);
      assert Elements(xs) == Elements(xs[..n]) + {xs[n]};
    }
  }
}
