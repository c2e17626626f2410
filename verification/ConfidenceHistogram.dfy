// The confidence histogram that is stored in file names: one counter file per bucket,
// class, process and hour.

module ConfidenceHistogram {
  import opened Collections
  import opened FileNames
  import opened HistogramNames

  /** A recorded confidence: its bucket, its class if it has one, and the process that recorded it. */
  datatype Call = Call(confidence: real, class_: Option<nat>, pid: nat)

  predicate Possible(c: Call) { 0.0 <= c.confidence <= 1.0 }

  // ---- what the counters should say ----

  /** The call counts under this label. */
  predicate Hits(c: Call, want: Label)
    requires Possible(c)
  {
    want.index == BucketOf(c.confidence)
    && (want.class_.None? || (c.class_.Some? && Digits(c.class_.value) == want.class_.value))
  }

  function CountCalls(calls: seq<Call>, want: Label): nat
    requires forall c | c in calls :: Possible(c)
  {
    if calls == [] then 0
    else CountCalls(calls[..|calls| - 1], want) + if Hits(calls[|calls| - 1], want) then 1 else 0
  }

  // ---- what the files say ----

  function One(b: bool): nat { if b then 1 else 0 }

  /** The counters in the files that decode to this label. */
  function CountFiles(names: seq<string>, counters: map<string, nat>, want: Label): nat
    requires forall name | name in names :: name in counters
  {
    if names == [] then 0
    else
      var name := names[|names| - 1];
      CountFiles(names[..|names| - 1], counters, want) + if Decode(name) == Some(want) then counters[name] else 0
  }

  lemma {:induction false} CountElsewhere(names: seq<string>, counters: map<string, nat>, name: string, n: nat, want: Label)
    requires (forall f | f in names :: f in counters) && name !in names
    ensures CountFiles(names, counters[name := n], want) == CountFiles(names, counters, want)
  {
    if names != [] {
      CountElsewhere(names[..|names| - 1], counters, name, n, want);
    }
  }

  lemma {:induction false} CountAfterIncrement(names: seq<string>, counters: map<string, nat>, name: string, want: Label)
    requires (forall f | f in names :: f in counters) && Distinct(names) && name in names
    ensures CountFiles(names, counters[name := counters[name] + 1], want)
            == CountFiles(names, counters, want) + One(Decode(name) == Some(want))
  {
    var n := |names| - 1;
    if name == names[n] {
      CountElsewhere(names[..n], counters, name, counters[name] + 1, want);
    } else {
      assert name in names[..n];
      CountAfterIncrement(names[..n], counters, name, want);
    }
  }

  lemma {:induction false} CountAfterCreate(names: seq<string>, counters: map<string, nat>, name: string, want: Label)
    requires (forall f | f in names :: f in counters) && name !in names
    ensures CountFiles(names + [name], counters[name := 1], want)
            == CountFiles(names, counters, want) + One(Decode(name) == Some(want))
  {
    CountElsewhere(names, counters, name, 1, want);
    assert (names + [name])[..|names|] == names;
  }

  /** A call counts under its bucket, and under its bucket and class. */
  lemma {:induction false} HitsOnce(c: Call, want: Label)
    requires Possible(c)
    ensures One(Hits(c, want)) == One(LabelOf(None, BucketOf(c.confidence)) == want)
                                  + One(c.class_.Some? && LabelOf(c.class_, BucketOf(c.confidence)) == want)
  {
  }

  /** The folder of a detector, restricted to the confidence files of one hour. */
  class Folder {
    const hour: string
    var names: seq<string> // as the directory lists them
    var counters: map<string, nat>

    ghost predicate Valid()
      reads this
    {
      Distinct(names) && forall f :: f in names <==> f in counters
    }

    ghost function Count(want: Label): nat
      reads this
      requires Valid()
    {
      CountFiles(names, counters, want)
    }

    constructor (hour: string)
      ensures Valid() && this.hour == hour && names == []
    {
      this.hour := hour;
      names, counters := [], map[];
    }

    /** Adds one to a counter file, or creates it with 1. */
    method Increment(name: string)
      requires Valid()
      modifies this
      ensures Valid()
      ensures forall want :: Count(want) == old(Count(want)) + One(Decode(name) == Some(want))
    {
      forall want
        ensures name in names ==> CountFiles(names, counters[name := counters[name] + 1], want)
                                  == CountFiles(names, counters, want) + One(Decode(name) == Some(want))
        ensures name !in names ==> CountFiles(names + [name], counters[name := 1], want)
                                   == CountFiles(names, counters, want) + One(Decode(name) == Some(want))
      {
        if name in names {
          CountAfterIncrement(names, counters, name, want);
        } else {
          CountAfterCreate(names, counters, name, want);
        }
      }
      if name in counters {
        counters := counters[name := counters[name] + 1];
      } else {
        names := names + [name];
        counters := counters[name := 1];
      }
    }

    /** Records a confidence: the counter of its bucket, and that of its bucket and class. */
    method Record(c: Call)
      requires Valid() && Possible(c)
      modifies this
      ensures Valid()
      ensures forall want :: Count(want) == old(Count(want)) + One(Hits(c, want))
    {
      var bucket := BucketOf(c.confidence);
      forall want
        ensures One(Hits(c, want)) == One(Some(LabelOf(None, bucket)) == Some(want))
                                      + One(c.class_.Some? && Some(LabelOf(c.class_, bucket)) == Some(want))
      {
        HitsOnce(c, want);
      }
      NameRoundTrip(None, bucket, c.pid, hour);
      Increment(FileName(None, bucket, c.pid, hour));
      if c.class_.Some? {
        NameRoundTrip(c.class_, bucket, c.pid, hour);
        Increment(FileName(c.class_, bucket, c.pid, hour));
      }
    }

    /** Reads the counters back by decoding the file names. Files with a bad bucket are skipped. */
    method Histogram() returns (counts: seq<nat>, byClass: map<string, seq<nat>>)
      requires Valid()
      ensures |counts| == NUM_BUCKETS && forall i | 0 <= i < NUM_BUCKETS :: counts[i] == Count(Label(None, i))
      ensures forall k | k in byClass ::
                |byClass[k]| == NUM_BUCKETS && forall i | 0 <= i < NUM_BUCKETS :: byClass[k][i] == Count(Label(Some(k), i))
      ensures forall k, i | k !in byClass && 0 <= i < NUM_BUCKETS :: Count(Label(Some(k), i)) == 0
    {
      var empty := Empty();
      counts, byClass := empty, map[];
      for n := 0 to |names|
        invariant Shows(names[..n], counters, counts, byClass)
      {
        var name := names[n];
        assert names[..n + 1] == names[..n] + [name];
        var decoded := Decode(name);
        if decoded.None? {
          ShowsSkip(names[..n], counters, counts, byClass, name);
        } else {
          if decoded.value.class_.None? {
            ShowsAll(names[..n], counters, counts, byClass, name, decoded.value.index);
            counts := counts[decoded.value.index := counts[decoded.value.index] + counters[name]];
          } else {
            var k := decoded.value.class_.value;
            ShowsClass(names[..n], counters, counts, byClass, name, k, decoded.value.index);
            var of := if k in byClass then byClass[k] else empty;
            byClass := byClass[k := of[decoded.value.index := of[decoded.value.index] + counters[name]]];
          }
        }
      }
      assert names[..|names|] == names;
    }
  }

  function Empty(): seq<nat> { seq(NUM_BUCKETS, i => 0) }

  /** The decoded counts are those of the files read so far. */
  ghost predicate Shows(names: seq<string>, counters: map<string, nat>, counts: seq<nat>, byClass: map<string, seq<nat>>) {
    && (forall f | f in names :: f in counters)
    && |counts| == NUM_BUCKETS
    && (forall i | 0 <= i < NUM_BUCKETS :: counts[i] == CountFiles(names, counters, Label(None, i)))
    && (forall k | k in byClass :: |byClass[k]| == NUM_BUCKETS)
    && (forall k, i | k in byClass && 0 <= i < NUM_BUCKETS :: byClass[k][i] == CountFiles(names, counters, Label(Some(k), i)))
    && (forall k, i | k !in byClass && 0 <= i < NUM_BUCKETS :: CountFiles(names, counters, Label(Some(k), i)) == 0)
  }

  lemma {:induction false} DecodedIndex(name: string)
    ensures Decode(name).Some? ==> Decode(name).value.index < NUM_BUCKETS
  {
  }

  lemma {:induction false} CountThen(names: seq<string>, counters: map<string, nat>, name: string, want: Label)
    requires (forall f | f in names :: f in counters) && name in counters
    ensures CountFiles(names + [name], counters, want)
            == CountFiles(names, counters, want) + if Decode(name) == Some(want) then counters[name] else 0
  {
    assert (names + [name])[..|names|] == names;
  }

  lemma {:induction false} CountsThen(names: seq<string>, counters: map<string, nat>, name: string)
    requires (forall f | f in names :: f in counters) && name in counters
    ensures forall want :: CountFiles(names + [name], counters, want)
                           == CountFiles(names, counters, want) + if Decode(name) == Some(want) then counters[name] else 0
  {
    forall want
      ensures CountFiles(names + [name], counters, want)
              == CountFiles(names, counters, want) + if Decode(name) == Some(want) then counters[name] else 0
    {
      CountThen(names, counters, name, want);
    }
  }

  lemma {:induction false} ShowsSkip(names: seq<string>, counters: map<string, nat>, counts: seq<nat>,
                                     byClass: map<string, seq<nat>>, name: string)
    requires Shows(names, counters, counts, byClass) && name in counters && Decode(name).None?
    ensures Shows(names + [name], counters, counts, byClass)
  {
    CountsThen(names, counters, name);
  }

  lemma {:induction false} ShowsAll(names: seq<string>, counters: map<string, nat>, counts: seq<nat>,
                                    byClass: map<string, seq<nat>>, name: string, i: nat)
    requires Shows(names, counters, counts, byClass) && name in counters && Decode(name) == Some(Label(None, i))
    ensures i < NUM_BUCKETS && Shows(names + [name], counters, counts[i := counts[i] + counters[name]], byClass)
  {
    DecodedIndex(name);
    CountsThen(names, counters, name);
  }

  lemma {:induction false} ShowsClass(names: seq<string>, counters: map<string, nat>, counts: seq<nat>,
                                      byClass: map<string, seq<nat>>, name: string, k: string, i: nat)
    requires Shows(names, counters, counts, byClass) && name in counters && Decode(name) == Some(Label(Some(k), i))
    ensures i < NUM_BUCKETS
    ensures var of := if k in byClass then byClass[k] else Empty();
            Shows(names + [name], counters, counts, byClass[k := of[i := of[i] + counters[name]]])
  {
    DecodedIndex(name);
    CountsThen(names, counters, name);
  }

  // ---- the round trip ----

  /** Recording calls one after the other, by any processes, and reading the files back counts the calls. */
  method RecordAll(calls: seq<Call>, hour: string) returns (folder: Folder)
    requires forall c | c in calls :: Possible(c)
    ensures fresh(folder) && folder.Valid()
    ensures forall want :: folder.Count(want) == CountCalls(calls, want)
  {
    folder := new Folder(hour);
    for n := 0 to |calls|
      invariant fresh(folder) && folder.Valid()
      invariant forall want :: folder.Count(want) == CountCalls(calls[..n], want)
    {
      assert calls[..n + 1][..n] == calls[..n];
      folder.Record(calls[n]);
    }
    assert calls[..|calls|] == calls;
  }

  function Sum(counts: seq<nat>): nat {
    if counts == [] then 0 else Sum(counts[..|counts| - 1]) + counts[|counts| - 1]
  }

  function Bucketed(calls: seq<Call>, n: nat): seq<nat>
    requires forall c | c in calls :: Possible(c)
  {
    seq(n, i requires 0 <= i < n => CountCalls(calls, Label(None, i)))
  }

  /** The buckets add up to the number of calls. */
  lemma {:induction false} BucketsAddUp(calls: seq<Call>)
    requires forall c | c in calls :: Possible(c)
    ensures Sum(Bucketed(calls, NUM_BUCKETS)) == |calls|
  {
    if calls == [] {
      ZeroSum(NUM_BUCKETS);
    } else {
      var m := |calls| - 1;
      BucketsAddUp(calls[..m]);
      assert calls[m] in calls;
      OneMore(calls, NUM_BUCKETS);
    }
  }

  lemma {:induction false} ZeroSum(n: nat)
    ensures Sum(Bucketed([], n)) == 0
  {
    if n > 0 {
      ZeroSum(n - 1);
      assert Bucketed([], n)[..n - 1] == Bucketed([], n - 1);
    }
  }

  lemma {:induction false} OneMore(calls: seq<Call>, n: nat)
    requires calls != [] && Possible(calls[|calls| - 1]) && forall c | c in calls :: Possible(c)
    ensures Sum(Bucketed(calls, n))
            == Sum(Bucketed(calls[..|calls| - 1], n)) + One(BucketOf(calls[|calls| - 1].confidence) < n)
  {
    if n > 0 {
      OneMore(calls, n - 1);
      assert Bucketed(calls, n)[..n - 1] == Bucketed(calls, n - 1);
      assert Bucketed(calls[..|calls| - 1], n)[..n - 1] == Bucketed(calls[..|calls| - 1], n - 1);
    }
  }

  /** The counts of these classes in one bucket, added up. */
  function SumOfClasses(calls: seq<Call>, classes: seq<nat>, i: nat): nat
    requires forall c | c in calls :: Possible(c)
  {
    if classes == [] then 0
    else SumOfClasses(calls, classes[..|classes| - 1], i) + CountCalls(calls, LabelOf(Some(classes[|classes| - 1]), i))
  }

  lemma {:induction false} DigitsDiffer(a: nat, b: nat)
    requires Digits(a) == Digits(b)
    ensures a == b
  {
    DigitsParse(a);
    DigitsParse(b);
  }

  lemma {:induction false} OneCallInClasses(calls: seq<Call>, classes: seq<nat>, i: nat)
    requires calls != [] && Possible(calls[|calls| - 1]) && (forall c | c in calls :: Possible(c)) && Distinct(classes)
    ensures var last := calls[|calls| - 1];
            SumOfClasses(calls, classes, i)
            == SumOfClasses(calls[..|calls| - 1], classes, i)
               + One(BucketOf(last.confidence) == i && last.class_.Some? && last.class_.value in classes)
  {
    if classes != [] {
      var n := |classes| - 1;
      var last := calls[|calls| - 1];
      OneCallInClasses(calls, classes[..n], i);
      assert last.class_.Some? ==> (last.class_.value in classes <==> last.class_.value in classes[..n] || last.class_.value == classes[n]);
      if last.class_.Some? && Digits(last.class_.value) == Digits(classes[n]) {
        DigitsDiffer(last.class_.value, classes[n]);
      }
    }
  }

  lemma {:induction false} NoCalls(classes: seq<nat>, i: nat)
    ensures SumOfClasses([], classes, i) == 0
  {
    if classes != [] {
      NoCalls(classes[..|classes| - 1], i);
    }
  }

  /**
   * In every bucket the classes together count at most as many calls as there are, and exactly as many
   * if every call had one of the classes.
   */
  lemma {:induction false} ClassesAddUp(calls: seq<Call>, classes: seq<nat>, i: nat)
    requires (forall c | c in calls :: Possible(c)) && Distinct(classes)
    ensures SumOfClasses(calls, classes, i) <= CountCalls(calls, Label(None, i))
    ensures (forall c | c in calls :: c.class_.Some? && c.class_.value in classes) ==>
              SumOfClasses(calls, classes, i) == CountCalls(calls, Label(None, i))
  {
    if calls == [] {
      NoCalls(classes, i);
    } else {
      var m := |calls| - 1;
      ClassesAddUp(calls[..m], classes, i);
      assert calls[m] in calls;
      OneCallInClasses(calls, classes, i);
      assert forall c | c in calls[..m] :: c in calls;
    }
  }

  lemma {:induction false} CountedAtLeastOnce(calls: seq<Call>, c: Call, want: Label)
    requires (forall d | d in calls :: Possible(d)) && c in calls && Hits(c, want)
    ensures CountCalls(calls, want) >= 1
  {
    var n := |calls| - 1;
    if calls[n] != c {
      assert c in calls[..n];
      CountedAtLeastOnce(calls[..n], c, want);
    }
  }

  /**
   * The round trip: whatever processes recorded the calls of an hour, reading the file names back gives
   * the number of calls in every bucket, altogether and for every class that occurred.
   */
  method RecordAndRead(calls: seq<Call>, hour: string) returns (counts: seq<nat>, byClass: map<string, seq<nat>>)
    requires forall c | c in calls :: Possible(c)
    ensures |counts| == NUM_BUCKETS && forall i | 0 <= i < NUM_BUCKETS :: counts[i] == CountCalls(calls, Label(None, i))
    ensures Sum(counts) == |calls|
    ensures forall k | k in byClass :: |byClass[k]| == NUM_BUCKETS
    ensures forall k, i | k in byClass && 0 <= i < NUM_BUCKETS :: byClass[k][i] == CountCalls(calls, Label(Some(k), i))
    ensures forall c | c in calls && c.class_.Some? :: Digits(c.class_.value) in byClass
  {
    var folder := RecordAll(calls, hour);
    counts, byClass := folder.Histogram();
    assert counts == Bucketed(calls, NUM_BUCKETS);
    BucketsAddUp(calls);
    forall c | c in calls && c.class_.Some?
      ensures Digits(c.class_.value) in byClass
    {
      CountedAtLeastOnce(calls, c, LabelOf(c.class_, BucketOf(c.confidence)));
    }
  }
}
