// Python's stable sort, as the profiling code uses it.

module StableSort {

  /** An element under its sort key. */
  datatype Keyed<T> = Keyed(key: int, value: T)

  lemma {:induction false} Associative<T>(a: seq<T>, b: seq<T>, c: seq<T>)
    ensures a + (b + c) == a + b + c
  {
  }

  predicate Sorted<T>(xs: seq<Keyed<T>>) {
    forall i, j | 0 <= i < j < |xs| :: xs[i].key <= xs[j].key
  }

  /** Inserts x before the elements that it does not come after: x is the earliest of its equals. */
  function Insert<T>(x: Keyed<T>, xs: seq<Keyed<T>>): seq<Keyed<T>> {
    if xs == [] then [x]
    else if x.key <= xs[0].key then [x] + xs
    else [xs[0]] + Insert(x, xs[1..])
  }

  function Sort<T>(xs: seq<Keyed<T>>): seq<Keyed<T>> {
    if xs == [] then [] else Insert(xs[0], Sort(xs[1..]))
  }

  lemma {:induction false} InsertContents<T>(x: Keyed<T>, xs: seq<Keyed<T>>)
    ensures multiset(Insert(x, xs)) == multiset(xs) + multiset{x}
  {
    if xs != [] && x.key > xs[0].key {
      InsertContents(x, xs[1..]);
      assert xs == [xs[0]] + xs[1..];
    }
  }

  lemma {:induction false} InsertSorted<T>(x: Keyed<T>, xs: seq<Keyed<T>>)
    requires Sorted(xs)
    ensures Sorted(Insert(x, xs))
  {
    if xs != [] && x.key > xs[0].key {
      InsertSorted(x, xs[1..]);
      InsertContents(x, xs[1..]);
      forall k | k in Insert(x, xs[1..])
        ensures xs[0].key <= k.key
      {
        assert k in multiset(Insert(x, xs[1..]));
        assert k == x || k in xs[1..];
      }
    }
  }

  /** The sort rearranges its input into order. */
  lemma {:induction false} SortSorts<T>(xs: seq<Keyed<T>>)
    ensures multiset(Sort(xs)) == multiset(xs)
    ensures Sorted(Sort(xs))
  {
    if xs != [] {
      SortSorts(xs[1..]);
      InsertContents(xs[0], Sort(xs[1..]));
      InsertSorted(xs[0], Sort(xs[1..]));
      assert xs == [xs[0]] + xs[1..];
    }
  }

  lemma SortMembers<T>(xs: seq<Keyed<T>>)
    ensures |Sort(xs)| == |xs|
    ensures forall k :: k in Sort(xs) <==> k in xs
  {
    SortSorts(xs);
    assert |multiset(Sort(xs))| == |multiset(xs)|;
    assert forall k :: k in Sort(xs) <==> k in multiset(Sort(xs));
    assert forall k :: k in xs <==> k in multiset(xs);
  }

  lemma SortMember<T>(xs: seq<Keyed<T>>, i: nat)
    requires i < |Sort(xs)|
    ensures Sort(xs)[i] in xs
  {
    SortSorts(xs);
    assert Sort(xs)[i] in multiset(Sort(xs));
    assert Sort(xs)[i] in multiset(xs);
  }

  /** The elements under one key, in order. */
  function Under<T>(xs: seq<Keyed<T>>, key: int): seq<Keyed<T>> {
    if xs == [] then [] else UnderOne(xs[0], key) + Under(xs[1..], key)
  }

  function UnderOne<T>(x: Keyed<T>, key: int): seq<Keyed<T>> { if x.key == key then [x] else [] }

  lemma UnderCons<T>(x: Keyed<T>, xs: seq<Keyed<T>>, key: int)
    ensures Under([x] + xs, key) == UnderOne(x, key) + Under(xs, key)
  {
    assert ([x] + xs)[1..] == xs;
  }

  /** Elements under different keys pass each other. */
  lemma {:induction false} UnderSwap<T>(x: Keyed<T>, y: Keyed<T>, xs: seq<Keyed<T>>, key: int)
    requires x.key != y.key
    ensures UnderOne(x, key) + (UnderOne(y, key) + Under(xs, key)) == UnderOne(y, key) + (UnderOne(x, key) + Under(xs, key))
  {
  }

  lemma {:induction false} InsertStable<T>(x: Keyed<T>, xs: seq<Keyed<T>>, key: int)
    ensures Under(Insert(x, xs), key) == UnderOne(x, key) + Under(xs, key)
  {
    if xs == [] {
      UnderCons(x, [], key);
      assert [x] + [] == [x];
    } else if x.key <= xs[0].key {
      UnderCons(x, xs, key);
    } else {
      InsertStable(x, xs[1..], key);
      UnderCons(xs[0], Insert(x, xs[1..]), key);
      UnderSwap(x, xs[0], xs[1..], key);
    }
  }

  /** The sort is stable: elements with equal keys keep their order. */
  lemma {:induction false} SortIsStable<T>(xs: seq<Keyed<T>>, key: int)
    ensures Under(Sort(xs), key) == Under(xs, key)
  {
    if xs != [] {
      SortIsStable(xs[1..], key);
      InsertStable(xs[0], Sort(xs[1..]), key);
      UnderCons(xs[0], Sort(xs[1..]), key);
    }
  }

  /** What is sorted stays as it is. */
  lemma {:induction false} SortedStays<T>(xs: seq<Keyed<T>>)
    requires Sorted(xs)
    ensures Sort(xs) == xs
  {
    if xs != [] {
      SortedStays(xs[1..]);
      assert xs == [xs[0]] + xs[1..];
    }
  }

  lemma NothingUnder<T>(xs: seq<Keyed<T>>)
    requires forall key :: Under(xs, key) == []
    ensures xs == []
  {
    assert xs != [] ==> Under(xs, xs[0].key) != [];
  }

  lemma {:induction false} SameUnder<T>(xs: seq<Keyed<T>>, ys: seq<Keyed<T>>)
    requires Sorted(xs) && Sorted(ys)
    requires forall key :: Under(xs, key) == Under(ys, key)
    ensures xs == ys
    decreases |xs| + |ys|
  {
    if xs == [] {
      NothingUnder(ys);
    } else if ys == [] {
      NothingUnder(xs);
    } else {
      var k := if xs[0].key <= ys[0].key then xs[0].key else ys[0].key;
      assert Under(xs, k) == Under(ys, k);
      assert xs[0].key == k by {
        if xs[0].key > k {
          UnderAbsent(xs, k);
        }
      }
      assert ys[0].key == k by {
        if ys[0].key > k {
          UnderAbsent(ys, k);
        }
      }
      assert xs[0] == Under(xs, k)[0] == ys[0];
      forall key
        ensures Under(xs[1..], key) == Under(ys[1..], key)
      {
        assert Under(xs, key) == Under(ys, key);
        var head := UnderOne(xs[0], key);
        assert (head + Under(xs[1..], key))[|head|..] == Under(xs[1..], key);
        assert (head + Under(ys[1..], key))[|head|..] == Under(ys[1..], key);
      }
      SameUnder(xs[1..], ys[1..]);
    }
  }

  lemma {:induction false} UnderAbsent<T>(xs: seq<Keyed<T>>, key: int)
    requires Sorted(xs) && xs != [] && key < xs[0].key
    ensures Under(xs, key) == []
  {
    if |xs| > 1 {
      UnderAbsent(xs[1..], key);
    } else {
      assert xs[1..] == [];
    }
  }

  /** Being sorted and stable determines the result: any list with both properties is the sorted list. */
  lemma SortIsUnique<T>(xs: seq<Keyed<T>>, ys: seq<Keyed<T>>)
    requires Sorted(ys) && forall key :: Under(ys, key) == Under(xs, key)
    ensures ys == Sort(xs)
  {
    forall key
      ensures Under(ys, key) == Under(Sort(xs), key)
    {
      SortIsStable(xs, key);
    }
    SortSorts(xs);
    SameUnder(ys, Sort(xs));
  }

  /** A list without elements is empty. */
  lemma {:induction false} NoElements<T(!new)>(xs: seq<T>)
    requires forall x :: x !in xs
    ensures xs == []
  {
    if xs != [] {
      First(xs);
    }
  }

  lemma {:induction false} First<T>(xs: seq<T>)
    requires xs != []
    ensures exists x :: x in xs
  {
    assert xs[0] in xs;
  }

  ghost predicate DistinctValues<T>(xs: seq<Keyed<T>>) {
    forall i, j | 0 <= i < j < |xs| :: xs[i].value != xs[j].value
  }

  lemma {:induction false} InsertDistinct<T>(x: Keyed<T>, xs: seq<Keyed<T>>)
    requires DistinctValues(xs) && forall k | k in xs :: k.value != x.value
    ensures DistinctValues(Insert(x, xs))
  {
    if xs != [] && x.key > xs[0].key {
      InsertDistinct(x, xs[1..]);
      InsertContents(x, xs[1..]);
      forall k | k in Insert(x, xs[1..])
        ensures k.value != xs[0].value
      {
        assert k in multiset(Insert(x, xs[1..]));
        assert k == x || k in xs[1..];
      }
    }
  }

  lemma {:induction false} SortDistinct<T>(xs: seq<Keyed<T>>)
    requires DistinctValues(xs)
    ensures DistinctValues(Sort(xs))
  {
    if xs != [] {
      SortDistinct(xs[1..]);
      SortMembers(xs[1..]);
      InsertDistinct(xs[0], Sort(xs[1..]));
    }
  }

  /** Of two elements with equal keys the one with the lesser value comes first. */
  ghost predicate EqualsInOrder(xs: seq<Keyed<int>>) {
    forall i, j | 0 <= i < j < |xs| && xs[i].key == xs[j].key :: xs[i].value < xs[j].value
  }

  lemma {:induction false} InsertInOrder(x: Keyed<int>, xs: seq<Keyed<int>>)
    requires EqualsInOrder(xs) && forall k | k in xs :: x.value < k.value
    ensures EqualsInOrder(Insert(x, xs))
  {
    if xs != [] && x.key > xs[0].key {
      InsertInOrder(x, xs[1..]);
      InsertContents(x, xs[1..]);
      forall k | k in Insert(x, xs[1..]) && k.key == xs[0].key
        ensures xs[0].value < k.value
      {
        assert k in multiset(Insert(x, xs[1..]));
        assert k in xs[1..];
      }
    }
  }

  /** Values that increase along the list increase among equals after it is sorted. */
  lemma {:induction false} SortInOrder(xs: seq<Keyed<int>>)
    requires forall i, j | 0 <= i < j < |xs| :: xs[i].value < xs[j].value
    ensures EqualsInOrder(Sort(xs))
  {
    if xs != [] {
      SortInOrder(xs[1..]);
      SortMembers(xs[1..]);
      InsertInOrder(xs[0], Sort(xs[1..]));
    }
  }

  function Values<T>(xs: seq<Keyed<T>>): (r: seq<T>)
    ensures |r| == |xs|
    ensures forall i | 0 <= i < |xs| :: r[i] == xs[i].value
  {
    if xs == [] then [] else [xs[0].value] + Values(xs[1..])
  }
}
