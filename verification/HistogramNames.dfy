// The names of the counter files: what they are made of, and how they are read back.

module HistogramNames {
  import opened Collections
  import opened FileNames

  const VERSION: nat := 2
  const BUCKET_WIDTH: nat := 5
  const NUM_BUCKETS: nat := 100 / BUCKET_WIDTH

  /** The bucket of a confidence: the last bucket includes 1. */
  function BucketOf(confidence: real): (i: nat)
    requires 0.0 <= confidence <= 1.0
    ensures i < NUM_BUCKETS
    ensures confidence == 1.0 ==> i == NUM_BUCKETS - 1
    ensures confidence < 1.0 ==> (BUCKET_WIDTH * i) as real <= 100.0 * confidence < (BUCKET_WIDTH * (i + 1)) as real
  {
    if confidence == 1.0 then (100 - BUCKET_WIDTH) / BUCKET_WIDTH else (confidence * 100.0).Floor / BUCKET_WIDTH
  }

  function BucketName(i: nat): string {
    Digits(BUCKET_WIDTH * i) + "-" + Digits(BUCKET_WIDTH * i + BUCKET_WIDTH)
  }

  /** The index of a bucket name, or nothing if it is malformed, of another width or out of range. */
  function BucketIndex(bucket: string): Option<nat> {
    var parts := Split(bucket, '-');
    if |parts| < 2 then None
    else
      var low, high := ParseNat(parts[0]), ParseNat(parts[1]);
      if low.None? || high.None? || high.value - low.value != BUCKET_WIDTH then None
      else if low.value / BUCKET_WIDTH < NUM_BUCKETS then Some(low.value / BUCKET_WIDTH) else None
  }

  lemma {:induction false} RangeSplits(low: nat, high: nat)
    ensures Split(Digits(low) + "-" + Digits(high), '-') == [Digits(low), Digits(high)]
    ensures ParseNat(Digits(low)) == Some(low) && ParseNat(Digits(high)) == Some(high)
    ensures '_' !in Digits(low) + "-" + Digits(high) && Digits(low) + "-" + Digits(high) != "class"
  {
    DigitsParse(low);
    DigitsParse(high);
    SplitFirst(Digits(low), Digits(high), '-');
    SplitOne(Digits(high), '-');
    assert (Digits(low) + "-" + Digits(high))[0] == Digits(low)[0];
  }

  lemma {:induction false} BucketRoundTrip(i: nat)
    requires i < NUM_BUCKETS
    ensures BucketIndex(BucketName(i)) == Some(i)
    ensures Split(BucketName(i), '-') == [Digits(5 * i), Digits(5 * i + 5)]
    ensures '_' !in BucketName(i) && BucketName(i) != "class"
  {
    var low := BUCKET_WIDTH * i;
    RangeSplits(low, low + BUCKET_WIDTH);
    assert low / BUCKET_WIDTH == i;
  }

  /** What a counter file counts: calls of one bucket, over all classes or of one class. */
  datatype Label = Label(class_: Option<string>, index: nat)

  /** The name of a counter file of this version. */
  function FileName(class_: Option<nat>, i: nat, pid: nat, hour: string): string {
    var prefix := "confidence" + "_" + ("v" + Digits(VERSION)) + "_";
    if class_.None? then prefix + (BucketName(i) + "_" + (Digits(pid) + "_" + hour))
    else prefix + ("class" + "_" + (Digits(class_.value) + "_" + (BucketName(i) + "_" + (Digits(pid) + "_" + hour))))
  }

  /** What the reader makes of a file name. */
  function Decode(name: string): Option<Label> {
    var parts := Split(name, '_');
    if |parts| < 3 then None
    else if parts[2] == "class" then
      if |parts| < 5 then None
      else
        var index := BucketIndex(parts[4]);
        if index.None? then None else Some(Label(Some(parts[3]), index.value))
    else
      var index := BucketIndex(parts[2]);
      if index.None? then None else Some(Label(None, index.value))
  }

  function LabelOf(class_: Option<nat>, i: nat): Label {
    Label(if class_.None? then None else Some(Digits(class_.value)), i)
  }

  lemma {:induction false} PrefixSplits(rest: string)
    ensures Split("confidence" + "_" + ("v" + Digits(VERSION)) + "_" + rest, '_')
            == ["confidence"] + (["v" + Digits(VERSION)] + Split(rest, '_'))
  {
    var v := "v" + Digits(VERSION);
    DigitsParse(VERSION);
    SplitFirst("confidence", v + "_" + rest, '_');
    SplitFirst(v, rest, '_');
    assert "confidence" + "_" + v + "_" + rest == "confidence" + ['_'] + (v + "_" + rest);
    assert v + "_" + rest == v + ['_'] + rest;
  }

  /** Reading a file name back gives what it was made from. */
  lemma {:induction false} NameRoundTrip(class_: Option<nat>, i: nat, pid: nat, hour: string)
    requires i < NUM_BUCKETS
    ensures Decode(FileName(class_, i, pid, hour)) == Some(LabelOf(class_, i))
  {
    BucketRoundTrip(i);
    var tail := Digits(pid) + "_" + hour;
    SplitFirst(BucketName(i), tail, '_');
    assert BucketName(i) + "_" + tail == BucketName(i) + ['_'] + tail;
    if class_.None? {
      PrefixSplits(BucketName(i) + "_" + tail);
    } else {
      DigitsParse(class_.value);
      var c := Digits(class_.value);
      SplitFirst(c, BucketName(i) + "_" + tail, '_');
      assert c + "_" + (BucketName(i) + "_" + tail) == c + ['_'] + (BucketName(i) + "_" + tail);
      SplitFirst("class", c + "_" + (BucketName(i) + "_" + tail), '_');
      assert "class" + "_" + (c + "_" + (BucketName(i) + "_" + tail)) == "class" + ['_'] + (c + "_" + (BucketName(i) + "_" + tail));
      PrefixSplits("class" + "_" + (c + "_" + (BucketName(i) + "_" + tail)));
    }
  }
}
