// One record out of several records of the same trace.

module TraceRecords {
  import opened Collections
  import opened TraceSpans
  import opened StableSort

  datatype Record = Record(traceId: Option<Id>, detectorId: Option<string>, wallTime: Option<string>, spans: seq<Span>)

  // ---- the record that lends its metadata ----

  /** What Python's `strip` removes. */
  predicate IsSpace(c: char) {
    var n := c as int;
    || c in {' ', '\t', '\n', '\r'} || n in {0x0b, 0x0c, 0x1c, 0x1d, 0x1e, 0x1f, 0x85, 0xa0, 0x1680}
    || 0x2000 <= n <= 0x200a || n in {0x2028, 0x2029, 0x202f, 0x205f, 0x3000}
  }

  function StripLeft(s: string): string {
    if s != [] && IsSpace(s[0]) then StripLeft(s[1..]) else s
  }

  function StripRight(s: string): string {
    if s != [] && IsSpace(s[|s| - 1]) then StripRight(s[..|s| - 1]) else s
  }

  function DetectorScore(id: Option<string>): int {
    var det := if id.Some? then StripRight(StripLeft(id.value)) else "";
    if det == "" then 0 else if det == "unknown" then 1 else 2
  }

  predicate MoreInformative(a: Record, b: Record) {
    var x, y := DetectorScore(a.detectorId), DetectorScore(b.detectorId);
    x > y || (x == y && |a.spans| > |b.spans|)
  }

  /** The first of the most informative records. */
  function Base(records: seq<Record>): (r: Record)
    requires records != []
    ensures r in records
    ensures forall other | other in records :: !MoreInformative(other, r)
  {
    if |records| == 1 then records[0]
    else
      var best, last := Base(records[..|records| - 1]), records[|records| - 1];
      assert records == records[..|records| - 1] + [last];
      if MoreInformative(last, best) then last else best
  }

  // ---- which record that is ----

  /** The text is its core between spaces. */
  ghost predicate CoreOf(text: string, core: string) {
    exists a: nat, b: nat :: Around(text, core, a, b)
  }

  ghost predicate Around(text: string, core: string, a: nat, b: nat) {
    && a + |core| + b == |text| && text[a..a + |core|] == core
    && (forall i | 0 <= i < a || a + |core| <= i < |text| :: IsSpace(text[i]))
    && (core != [] ==> !IsSpace(core[0]) && !IsSpace(core[|core| - 1]))
  }

  lemma {:induction false} LeftIs(s: string) returns (a: nat)
    ensures a <= |s| && StripLeft(s) == s[a..] && forall i | 0 <= i < a :: IsSpace(s[i])
    ensures StripLeft(s) != [] ==> !IsSpace(StripLeft(s)[0])
  {
    a := 0;
    if s != [] && IsSpace(s[0]) {
      var rest := LeftIs(s[1..]);
      a := rest + 1;
    }
  }

  lemma {:induction false} RightIs(s: string) returns (n: nat)
    ensures n <= |s| && StripRight(s) == s[..n] && forall i | n <= i < |s| :: IsSpace(s[i])
    ensures n > 0 ==> !IsSpace(s[n - 1])
  {
    n := |s|;
    if s != [] && IsSpace(s[|s| - 1]) {
      n := RightIs(s[..|s| - 1]);
      assert s[..|s| - 1][..n] == s[..n];
    }
  }

  /** Stripping leaves the core of a text. */
  lemma {:induction false} StrippedIs(text: string)
    ensures CoreOf(text, StripRight(StripLeft(text)))
  {
    var a := LeftIs(text);
    var left := StripLeft(text);
    var n := RightIs(left);
    var core := left[..n];
    assert text[a..a + n] == core;
    forall i | 0 <= i < a || a + n <= i < |text|
      ensures IsSpace(text[i])
    {
      assert i >= a + n ==> text[i] == left[i - a];
    }
    assert Around(text, core, a, |text| - a - n);
  }

  /** A text has only one core. */
  lemma {:induction false} OneCore(text: string, x: string, y: string)
    requires CoreOf(text, x) && CoreOf(text, y)
    ensures x == y
  {
    var a: nat, b: nat :| Around(text, x, a, b);
    var c: nat, d: nat :| Around(text, y, c, d);
    if x != [] {
      EndsIn(text, x, a, b, y, c, d);
    }
    if y != [] {
      EndsIn(text, y, c, d, x, a, b);
    }
  }

  /** The ends of a core are in every core. */
  lemma EndsIn(text: string, x: string, a: nat, b: nat, y: string, c: nat, d: nat)
    requires Around(text, x, a, b) && Around(text, y, c, d) && x != []
    ensures c <= a && a + |x| <= c + |y|
  {
    var s := text[a..a + |x|];
    assert s[0] == text[a] && s[|x| - 1] == text[a + |x| - 1];
  }

  /** The id names a detector: something other than spaces, and not "unknown". */
  ghost predicate NamesDetector(id: Option<string>) {
    id.Some? && exists core :: CoreOf(id.value, core) && core != "" && core != "unknown"
  }

  /** The id says that the detector is unknown. */
  ghost predicate SaysUnknown(id: Option<string>) { id.Some? && CoreOf(id.value, "unknown") }

  lemma ScoreMeans(id: Option<string>)
    ensures DetectorScore(id) == 2 <==> NamesDetector(id)
    ensures DetectorScore(id) == 1 <==> SaysUnknown(id)
    ensures !(NamesDetector(id) && SaysUnknown(id))
  {
    if id.Some? {
      var core := StripRight(StripLeft(id.value));
      StrippedIs(id.value);
      forall other | CoreOf(id.value, other)
        ensures other == core
      {
        OneCore(id.value, other, core);
      }
    }
  }

  ghost predicate SameKind(a: Record, b: Record) {
    && (NamesDetector(a.detectorId) <==> NamesDetector(b.detectorId))
    && (SaysUnknown(a.detectorId) <==> SaysUnknown(b.detectorId))
  }

  /** Record k has the most spans of its kind, and is the first such. */
  ghost predicate FirstLargest(records: seq<Record>, k: int) {
    && 0 <= k < |records|
    && forall j | 0 <= j < |records| && SameKind(records[j], records[k]) ::
         |records[j].spans| <= |records[k].spans| && (j < k ==> |records[j].spans| < |records[k].spans|)
  }

  /**
   * The merged record keeps what is known of the detector: its id names one if that of any record does, and
   * otherwise says "unknown" if that of any record does. Its metadata are those of the first record with
   * the most spans among those of that kind.
   */
  lemma {:induction false} MergedDetector(records: seq<Record>)
    requires records != []
    ensures (exists r :: r in records && NamesDetector(r.detectorId)) ==> NamesDetector(Merged(records).detectorId)
    ensures (forall r | r in records :: !NamesDetector(r.detectorId)) && (exists r :: r in records && SaysUnknown(r.detectorId)) ==>
              SaysUnknown(Merged(records).detectorId)
    ensures exists k :: FirstLargest(records, k) && Merged(records) == records[k].(spans := Merged(records).spans)
  {
    var k := FirstBase(records);
    forall r | r in records
      ensures !MoreInformative(r, records[k])
      ensures NamesDetector(r.detectorId) ==> NamesDetector(records[k].detectorId)
      ensures SaysUnknown(r.detectorId) ==> SaysUnknown(records[k].detectorId) || NamesDetector(records[k].detectorId)
    {
      ScoreMeans(r.detectorId);
      ScoreMeans(records[k].detectorId);
    }
    forall j | 0 <= j < |records| && SameKind(records[j], records[k])
      ensures |records[j].spans| <= |records[k].spans| && (j < k ==> |records[j].spans| < |records[k].spans|)
    {
      ScoreMeans(records[j].detectorId);
      ScoreMeans(records[k].detectorId);
      assert records[j] in records;
    }
    assert FirstLargest(records, k);
  }

  lemma {:induction false} BeatsAll(a: Record, b: Record, others: seq<Record>)
    requires MoreInformative(a, b) && forall c | c in others :: !MoreInformative(c, b)
    ensures forall j | 0 <= j < |others| :: MoreInformative(a, others[j])
  {
    assert forall j | 0 <= j < |others| :: others[j] in others;
  }

  /** The base is record k, and it is more informative than every record before it. */
  ghost predicate BaseAt(records: seq<Record>, k: nat) {
    && k < |records| && Base(records) == records[k]
    && forall j | 0 <= j < k :: MoreInformative(records[k], records[j])
  }

  lemma {:induction false} BaseThen(records: seq<Record>, last: Record, k: nat)
    requires BaseAt(records, k)
    ensures BaseAt(records + [last], if MoreInformative(last, records[k]) then |records| else k)
  {
    assert (records + [last])[..|records|] == records;
    if MoreInformative(last, records[k]) {
      BeatsAll(last, records[k], records);
    }
  }

  lemma {:induction false} FirstBase(records: seq<Record>) returns (k: nat)
    requires records != []
    ensures BaseAt(records, k)
    decreases |records|
  {
    var n := |records| - 1;
    if n == 0 {
      k := 0;
    } else {
      k := FirstBase(records[..n]);
      BaseThen(records[..n], records[n], k);
      assert records == records[..n] + [records[n]];
      k := if MoreInformative(records[n], records[k]) then n else k;
    }
  }

  // ---- the spans, one copy of each ----

  function AllSpans(records: seq<Record>): seq<Span> {
    if records == [] then [] else AllSpans(records[..|records| - 1]) + records[|records| - 1].spans
  }

  /** The span is the first copy under its id at this position. A span without an id is always its own. */
  predicate FirstCopy(spans: seq<Span>, i: nat)
    requires i < |spans|
  {
    spans[i].spanId.Some? ==> forall j | 0 <= j < i :: spans[j].spanId != spans[i].spanId
  }

  function FirstCopies(spans: seq<Span>): seq<Span> {
    if spans == [] then []
    else
      var n := |spans| - 1;
      FirstCopies(spans[..n]) + if FirstCopy(spans, n) then [spans[n]] else []
  }

  ghost predicate UniqueIds(spans: seq<Span>) {
    forall i, j | 0 <= i < j < |spans| && spans[i].spanId.Some? :: spans[i].spanId != spans[j].spanId
  }

  lemma {:induction false} CopiesAreFirst(spans: seq<Span>, s: Span)
    ensures s in FirstCopies(spans) <==> exists i :: 0 <= i < |spans| && spans[i] == s && FirstCopy(spans, i)
  {
    if spans != [] {
      var n := |spans| - 1;
      CopiesAreFirst(spans[..n], s);
      assert forall i | 0 <= i < n :: FirstCopy(spans[..n], i) <==> FirstCopy(spans, i);
      if i :| 0 <= i < |spans| && spans[i] == s && FirstCopy(spans, i) {
        assert i < n ==> spans[..n][i] == s && FirstCopy(spans[..n], i);
      }
    }
  }

  /** The positions `at`, in order, are those of the first spans under their ids. */
  ghost predicate FirstAt(spans: seq<Span>, at: seq<int>) {
    && (forall k, l | 0 <= k < l < |at| :: at[k] < at[l])
    && (forall i :: i in at <==> FirstHere(spans, i))
  }

  /** No span before number i has its id, if it has one. */
  ghost predicate FirstHere(spans: seq<Span>, i: int) {
    0 <= i < |spans| && (spans[i].spanId.Some? ==> forall j | 0 <= j < i :: spans[j].spanId != spans[i].spanId)
  }

  /** They are taken in the order of the spans. */
  lemma {:induction false} CopiesInOrder(spans: seq<Span>) returns (at: seq<int>)
    ensures FirstAt(spans, at)
    ensures |FirstCopies(spans)| == |at| && forall k | 0 <= k < |at| :: at[k] in at && FirstCopies(spans)[k] == spans[at[k]]
  {
    at := [];
    if spans != [] {
      var n := |spans| - 1;
      var before := CopiesInOrder(spans[..n]);
      at := before + if FirstCopy(spans, n) then [n] else [];
      FirstAtThen(spans, before, at);
    }
  }

  lemma {:induction false} FirstAtThen(spans: seq<Span>, before: seq<int>, at: seq<int>)
    requires spans != [] && FirstAt(spans[..|spans| - 1], before)
    requires at == before + if FirstCopy(spans, |spans| - 1) then [|spans| - 1] else []
    ensures FirstAt(spans, at)
  {
    var n := |spans| - 1;
    assert forall k | 0 <= k < |before| :: before[k] in before;
    forall i
      ensures i in at <==> FirstHere(spans, i)
    {
      assert i < n ==> (FirstHere(spans[..n], i) <==> FirstHere(spans, i));
      assert i in before <==> FirstHere(spans[..n], i);
    }
  }

  lemma {:induction false} CopiesAmong(spans: seq<Span>, c: Span)
    requires c in FirstCopies(spans)
    ensures c in spans
  {
    CopiesAreFirst(spans, c);
  }

  /** No id survives twice. */
  lemma {:induction false} CopiesAreUnique(spans: seq<Span>)
    ensures UniqueIds(FirstCopies(spans))
  {
    if spans != [] {
      var n := |spans| - 1;
      CopiesAreUnique(spans[..n]);
      if FirstCopy(spans, n) && spans[n].spanId.Some? {
        forall c | c in FirstCopies(spans[..n])
          ensures c.spanId != spans[n].spanId
        {
          CopiesAmong(spans[..n], c);
          var j :| 0 <= j < n && spans[..n][j] == c;
          assert spans[j] == c;
        }
      } else if FirstCopy(spans, n) {
        UniqueAfter(FirstCopies(spans[..n]), spans[n]);
      }
    }
  }

  lemma UniqueAfter(spans: seq<Span>, s: Span)
    requires UniqueIds(spans) && s.spanId.None?
    ensures UniqueIds(spans + [s])
  {
  }

  lemma {:induction false} UniqueStay(spans: seq<Span>)
    requires UniqueIds(spans)
    ensures FirstCopies(spans) == spans
  {
    if spans != [] {
      UniqueStay(spans[..|spans| - 1]);
    }
  }

  // ---- sorted by start ----

  function KeyedByStart(spans: seq<Span>): (r: seq<Keyed<Span>>)
    ensures |r| == |spans| && forall i | 0 <= i < |r| :: r[i] == Keyed(StartOf(spans[i]), spans[i])
  {
    seq(|spans|, i requires 0 <= i < |spans| => Keyed(StartOf(spans[i]), spans[i]))
  }

  function SortByStart(spans: seq<Span>): seq<Span> { Values(Sort(KeyedByStart(spans))) }

  ghost predicate UniqueKeyed(xs: seq<Keyed<Span>>) {
    forall i, j | 0 <= i < j < |xs| && xs[i].value.spanId.Some? :: xs[i].value.spanId != xs[j].value.spanId
  }

  ghost predicate NotAmong(x: Keyed<Span>, xs: seq<Keyed<Span>>) {
    x.value.spanId.Some? ==> forall k | k in xs :: k.value.spanId != x.value.spanId
  }

  lemma {:induction false} InsertUnique(x: Keyed<Span>, xs: seq<Keyed<Span>>)
    requires UniqueKeyed(xs) && NotAmong(x, xs)
    ensures UniqueKeyed(Insert(x, xs))
  {
    if xs != [] && x.key > xs[0].key {
      InsertUnique(x, xs[1..]);
      InsertContents(x, xs[1..]);
      var rest := Insert(x, xs[1..]);
      forall k | k in rest
        ensures xs[0].value.spanId.Some? ==> k.value.spanId != xs[0].value.spanId
      {
        assert k in multiset(rest);
        assert k == x || k in xs[1..];
      }
    }
  }

  lemma {:induction false} SortUnique(xs: seq<Keyed<Span>>)
    requires UniqueKeyed(xs)
    ensures UniqueKeyed(Sort(xs))
  {
    if xs != [] {
      SortUnique(xs[1..]);
      SortMembers(xs[1..]);
      InsertUnique(xs[0], Sort(xs[1..]));
    }
  }

  lemma SortedOnce(spans: seq<Span>)
    ensures SortByStart(SortByStart(spans)) == SortByStart(spans)
    ensures UniqueIds(spans) ==> UniqueIds(SortByStart(spans))
  {
    var sorted := Sort(KeyedByStart(spans));
    SortSorts(KeyedByStart(spans));
    SortMembers(KeyedByStart(spans));
    forall i | 0 <= i < |sorted|
      ensures sorted[i].key == StartOf(sorted[i].value)
    {
      SortMember(KeyedByStart(spans), i);
      assert sorted[i] in KeyedByStart(spans);
    }
    assert KeyedByStart(SortByStart(spans)) == sorted;
    SortedStays(sorted);
    if UniqueIds(spans) {
      SortUnique(KeyedByStart(spans));
    }
  }

  // ---- one record ----

  function Merged(records: seq<Record>): Record
    requires records != []
  {
    Base(records).(spans := SortByStart(FirstCopies(AllSpans(records))))
  }

  /** The spans r are exactly the first copies among `all`, each id once, sorted by start and stable. */
  ghost predicate MergeOf(all: seq<Span>, r: seq<Span>) {
    && UniqueIds(r)
    && (forall s :: s in r <==>
          exists i :: 0 <= i < |all| && all[i] == s && (s.spanId.Some? ==> forall j | 0 <= j < i :: all[j].spanId != s.spanId))
    && (forall i, j | 0 <= i < j < |r| :: StartOf(r[i]) <= StartOf(r[j]))
    && (forall start :: Under(KeyedByStart(r), start) == Under(KeyedByStart(FirstCopies(all)), start))
  }

  lemma MergedSpans(records: seq<Record>)
    requires records != []
    ensures MergeOf(AllSpans(records), Merged(records).spans)
    ensures Merged(records).(spans := Base(records).spans) == Base(records)
  {
    var all := AllSpans(records);
    CopiesAreUnique(all);
    SortedOnce(FirstCopies(all));
    SortedStable(FirstCopies(all));
    forall s
      ensures s in Merged(records).spans <==>
              exists i :: 0 <= i < |all| && all[i] == s && (s.spanId.Some? ==> forall j | 0 <= j < i :: all[j].spanId != s.spanId)
    {
      CopiesAreFirst(all, s);
      SortedMember(FirstCopies(all), s);
    }
  }

  lemma SortedStable(spans: seq<Span>)
    ensures var r := SortByStart(spans);
            && (forall i, j | 0 <= i < j < |r| :: StartOf(r[i]) <= StartOf(r[j]))
            && (forall start :: Under(KeyedByStart(r), start) == Under(KeyedByStart(spans), start))
  {
    var keyed := KeyedByStart(spans);
    var sorted := Sort(keyed);
    SortSorts(keyed);
    SortMembers(keyed);
    forall i | 0 <= i < |sorted|
      ensures sorted[i].key == StartOf(sorted[i].value)
    {
      SortMember(keyed, i);
      assert sorted[i] in keyed;
    }
    assert KeyedByStart(SortByStart(spans)) == sorted;
    forall start
      ensures Under(sorted, start) == Under(keyed, start)
    {
      SortIsStable(keyed, start);
    }
  }

  lemma SortedMember(spans: seq<Span>, s: Span)
    ensures s in SortByStart(spans) <==> s in spans
  {
    var keyed := KeyedByStart(spans);
    SortMembers(keyed);
    if i :| 0 <= i < |spans| && spans[i] == s {
      assert keyed[i] in Sort(keyed);
      var j :| 0 <= j < |Sort(keyed)| && Sort(keyed)[j] == keyed[i];
      assert SortByStart(spans)[j] == s;
    }
    if j :| 0 <= j < |SortByStart(spans)| && SortByStart(spans)[j] == s {
      assert Sort(keyed)[j] in keyed;
    }
  }

  /** Merging a merged record changes nothing. */
  lemma MergedOnce(records: seq<Record>)
    requires records != []
    ensures Merged([Merged(records)]) == Merged(records)
  {
    var m := Merged(records);
    assert AllSpans([m]) == m.spans by {
      assert [m][..0] == [];
      assert [] + m.spans == m.spans;
    }
    CopiesAreUnique(AllSpans(records));
    SortedOnce(FirstCopies(AllSpans(records)));
    UniqueStay(m.spans);
  }

  /** The ids of the spans taken so far. */
  ghost predicate Seen(ids: set<Id>, spans: seq<Span>) {
    forall id :: id in ids <==> exists s :: s in spans && s.spanId == Some(id)
  }

  lemma SeenThen(ids: set<Id>, spans: seq<Span>, s: Span)
    requires Seen(ids, spans)
    ensures Seen(if s.spanId.Some? then ids + {s.spanId.value} else ids, spans + [s])
  {
    forall id
      ensures id in (if s.spanId.Some? then ids + {s.spanId.value} else ids)
              <==> exists t :: t in spans + [s] && t.spanId == Some(id)
    {
      if s.spanId == Some(id) {
        assert s in spans + [s];
      } else if t :| t in spans && t.spanId == Some(id) {
        assert t in spans + [s];
      }
    }
  }

  lemma CopyThen(ids: set<Id>, spans: seq<Span>, s: Span)
    requires Seen(ids, spans)
    ensures FirstCopies(spans + [s]) ==
            FirstCopies(spans) + if s.spanId.Some? && s.spanId.value in ids then [] else [s]
  {
    CopiesThen(spans, s);
    if s.spanId.Some? {
      var id := s.spanId.value;
      assert id in ids <==> exists t :: t in spans && t.spanId == Some(id);
    }
  }

  method MergeTraceRecords(records: seq<Record>) returns (r: Record)
    requires records != []
    ensures r == Merged(records)
  {
    var seen: set<Id> := {};
    var merged: seq<Span> := [];
    for i := 0 to |records|
      invariant merged == FirstCopies(AllSpans(records[..i])) && Seen(seen, AllSpans(records[..i]))
    {
      seen, merged := TakeSpans(seen, merged, records[i].spans, AllSpans(records[..i]));
      assert records[..i + 1][..i] == records[..i];
    }
    assert records[..|records|] == records;
    r := Base(records).(spans := SortByStart(merged));
  }

  /** The inner loop: takes the spans of one record that were not seen before. */
  method TakeSpans(seen0: set<Id>, merged0: seq<Span>, spans: seq<Span>, ghost before: seq<Span>)
    returns (seen: set<Id>, merged: seq<Span>)
    requires merged0 == FirstCopies(before) && Seen(seen0, before)
    ensures merged == FirstCopies(before + spans) && Seen(seen, before + spans)
  {
    seen, merged := seen0, merged0;
    assert before + spans[..0] == before;
    for j := 0 to |spans|
      invariant merged == FirstCopies(before + spans[..j]) && Seen(seen, before + spans[..j])
    {
      var s := spans[j];
      assert before + spans[..j + 1] == before + spans[..j] + [s];
      SeenThen(seen, before + spans[..j], s);
      CopyThen(seen, before + spans[..j], s);
      if s.spanId.Some? {
        if s.spanId.value in seen {
          assert seen + {s.spanId.value} == seen;
          continue;
        }
        seen := seen + {s.spanId.value};
      }
      merged := merged + [s];
    }
    assert spans[..|spans|] == spans;
  }

  lemma CopiesThen(spans: seq<Span>, s: Span)
    ensures FirstCopies(spans + [s]) ==
            FirstCopies(spans) + if s.spanId.Some? && exists t :: t in spans && t.spanId == s.spanId then [] else [s]
  {
    assert (spans + [s])[..|spans|] == spans;
  }
}
