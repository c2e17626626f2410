// The numbered versions of a model on disk: when a new one is needed, and which old
// ones are deleted.

module VersionRules {
  import opened Collections

  /** An id or a parsed pipeline configuration, of which only equality and emptiness matter: 0 is empty. */
  type Content = int

  const EMPTY: Content := 0

  /** What the cloud says about a model. */
  datatype Info = WithBinary(binaryId: Content, config: Content) | PipelineOnly(config: Content)

  /** The files in a version directory: two that later decisions read, and whether the predictor's metadata is there. */
  datatype Version = Version(binaryId: Option<Content>, config: Option<Content>, metadata: bool)

  type Versions = map<nat, Version>

  ghost function Max(s: set<nat>): (m: nat)
    requires s != {}
    ensures m in s && forall x | x in s :: x <= m
    decreases |s|
  {
    var x :| x in s;
    if s == {x} then x
    else
      assert s - {x} != {};
      var m := Max(s - {x});
      assert forall y | y in s :: y == x || y in s - {x};
      if x < m then m else x
  }

  ghost function Current(vs: Versions): Option<nat> { if vs == map[] then None else Some(Max(vs.Keys)) }

  /** The number of the next version. */
  ghost function Next(vs: Versions): nat { if vs == map[] then 1 else Max(vs.Keys) + 1 }

  /** How far a save got after it created the directory: configuration, metadata, and last the id of a binary. */
  datatype End = Complete | BeforeConfig | AfterConfig | AfterMetadata

  function Written(info: Info, end: End): Version {
    Version(if info.WithBinary? && end.Complete? then Some(info.binaryId) else None,
            if end.BeforeConfig? then None else Some(info.config),
            end.AfterMetadata? || end.Complete?)
  }

  ghost function Saved(vs: Versions, info: Info, end: End): Versions { vs[Next(vs) := Written(info, end)] }

  predicate NeedsUpdate(info: Info, vs: Versions, version: Option<nat>)
    requires version.Some? ==> version.value in vs
  {
    if version.None? then true
    else
      var on := vs[version.value];
      if info.WithBinary? then !(on.binaryId.Some? && on.binaryId.value != EMPTY && on.binaryId.value == info.binaryId)
      else !(on.config.Some? && on.config.value != EMPTY && on.config.value == info.config)
  }

  function Newer(s: set<nat>, k: nat): set<nat> { set j | j in s && j > k }

  /** The versions that have fewer than `keep` newer ones. To keep none deletes none. */
  function Kept(vs: Versions, keep: nat): Versions {
    if keep == 0 then vs else map k | k in vs && |Newer(vs.Keys, k)| < keep :: vs[k]
  }

  // ---- runs ----

  datatype Op = Save(info: Info, end: End) | Clean(keep: nat)

  ghost function After(vs: Versions, op: Op): Versions {
    match op
    case Save(info, end) => Saved(vs, info, end)
    case Clean(keep) => Kept(vs, keep)
  }

  ghost function Run(vs: Versions, ops: seq<Op>): Versions
    decreases |ops|
  {
    if ops == [] then vs else Run(After(vs, ops[0]), ops[1..])
  }

  /** The numbers given out over a run. */
  ghost function Numbers(vs: Versions, ops: seq<Op>): seq<nat>
    decreases |ops|
  {
    if ops == [] then []
    else (if ops[0].Clean? then [] else [Next(vs)]) + Numbers(After(vs, ops[0]), ops[1..])
  }

  lemma {:induction false} MaxIs(s: set<nat>, m: nat)
    requires m in s && forall x | x in s :: x <= m
    ensures Max(s) == m
  {
  }

  /** A cleanup keeps the newest version, and with it the next number. */
  lemma {:induction false} KeptKeepsCurrent(vs: Versions, keep: nat)
    ensures Current(Kept(vs, keep)) == Current(vs) && Next(Kept(vs, keep)) == Next(vs)
    ensures vs != map[] ==> Max(vs.Keys) in Kept(vs, keep)
  {
    if vs != map[] && keep > 0 {
      var m := Max(vs.Keys);
      assert Newer(vs.Keys, m) == {};
      MaxIs(Kept(vs, keep).Keys, m);
    }
  }

  lemma {:induction false} SavedIsCurrent(vs: Versions, v: Version)
    ensures Current(vs[Next(vs) := v]) == Some(Next(vs)) && Next(vs[Next(vs) := v]) == Next(vs) + 1
    ensures Next(vs) !in vs
  {
    MaxIs(vs[Next(vs) := v].Keys, Next(vs));
  }

  /** Over any run the version numbers are consecutive, so no number is ever used again. */
  lemma {:induction false} NumbersIncrease(vs: Versions, ops: seq<Op>)
    ensures forall i | 0 <= i < |Numbers(vs, ops)| :: Numbers(vs, ops)[i] == Next(vs) + i
    ensures Next(Run(vs, ops)) == Next(vs) + |Numbers(vs, ops)|
    decreases |ops|
  {
    if ops != [] {
      NumbersIncrease(After(vs, ops[0]), ops[1..]);
      if ops[0].Clean? {
        KeptKeepsCurrent(vs, ops[0].keep);
      } else {
        SavedIsCurrent(vs, Written(ops[0].info, ops[0].end));
      }
    }
  }

  /** The part of the information that a check compares. */
  function Compared(info: Info): Content { if info.WithBinary? then info.binaryId else info.config }

  /**
   * Checking what the cloud says (`asked`) after a save of what it said before asks for no update exactly when the
   * part of it that is compared was written, is the same and is not empty; cleanups in between do not matter. So an
   * interrupted save is retried, unless it was of a pipeline alone and got past its configuration.
   */
  lemma {:induction false} RecheckAfterSave(vs: Versions, info: Info, end: End, keep: nat, asked: Info)
    ensures var now := Kept(Saved(vs, info, end), keep);
            Current(now).Some? && Current(now).value in now
            && (!NeedsUpdate(asked, now, Current(now)) <==>
                  if asked.WithBinary? then end.Complete? && info.WithBinary? && info.binaryId == asked.binaryId != 0
                  else !end.BeforeConfig? && info.config == asked.config != 0)
            && (!NeedsUpdate(info, now, Current(now)) <==>
                  Compared(info) != 0 && (end.Complete? || (info.PipelineOnly? && !end.BeforeConfig?)))
  {
    SavedIsCurrent(vs, Written(info, end));
    KeptKeepsCurrent(Saved(vs, info, end), keep);
  }

  /** Such a save leaves a version without the predictor's metadata that no check asks to replace. */
  lemma {:induction false} CutShortForGood(config: Content, keep: nat)
    requires config != EMPTY
    ensures var now := Kept(Saved(map[], PipelineOnly(config), AfterConfig), keep);
            && now == map[1 := Version(None, Some(config), false)]
            && Current(now) == Some(1) && !NeedsUpdate(PipelineOnly(config), now, Some(1))
  {
    var saved := Saved(map[], PipelineOnly(config), AfterConfig);
    RecheckAfterSave(map[], PipelineOnly(config), AfterConfig, keep, PipelineOnly(config));
    assert saved == map[1 := Version(None, Some(config), false)];
    assert Newer(saved.Keys, 1) == {};
    assert Kept(saved, keep) == saved;
    MaxIs(saved.Keys, 1);
  }

  // ---- how many a cleanup leaves ----

  ghost predicate Ascending(xs: seq<nat>) {
    forall i, j | 0 <= i < j < |xs| :: xs[i] < xs[j]
  }

  lemma {:induction false} NewerInOrder(xs: seq<nat>, i: nat)
    requires Ascending(xs) && i < |xs|
    ensures |Newer(Elements<nat>(xs), xs[i])| == |xs| - 1 - i
  {
    ElementCount(xs[i + 1..]);
    assert Newer(Elements<nat>(xs), xs[i]) == Elements<nat>(xs[i + 1..]);
  }

  /** With the versions in ascending order, what is kept are the last ones. */
  lemma {:induction false} KeptAreLast(vs: Versions, xs: seq<nat>, keep: nat)
    requires Ascending(xs) && Elements<nat>(xs) == vs.Keys && keep > 0
    ensures Kept(vs, keep).Keys == Elements<nat>(if |xs| <= keep then xs else xs[|xs| - keep..])
  {
    var last := if |xs| <= keep then xs else xs[|xs| - keep..];
    forall k
      ensures k in Kept(vs, keep) <==> k in last
    {
      if i :| 0 <= i < |xs| && xs[i] == k {
        NewerInOrder(xs, i);
        if |xs| > keep && i >= |xs| - keep {
          assert last[i - (|xs| - keep)] == k;
        }
      } else {
        assert k in last ==> k in xs;
      }
    }
  }

  /** All but the last `keep`. A slice that ends at index -0 ends at index 0. */
  function Doomed(sorted: seq<nat>, keep: nat): seq<nat> {
    if |sorted| <= keep || keep == 0 then [] else sorted[..|sorted| - keep]
  }

  lemma {:induction false} LeftAreKept(vs: Versions, sorted: seq<nat>, keep: nat)
    requires Ascending(sorted) && Elements<nat>(sorted) == vs.Keys
    ensures vs - Elements<nat>(Doomed(sorted, keep)) == Kept(vs, keep)
  {
    var doomed := Elements<nat>(Doomed(sorted, keep));
    if keep == 0 || |sorted| <= keep {
      assert doomed == {};
      assert vs - {} == vs;
    } else {
      Complement(sorted, |sorted| - keep);
    }
    if keep > 0 {
      KeptAreLast(vs, sorted, keep);
      SameRest(vs, doomed, keep);
    }
  }

  lemma {:induction false} SameRest(vs: Versions, doomed: set<nat>, keep: nat)
    requires keep > 0 && vs.Keys - doomed == Kept(vs, keep).Keys
    ensures vs - doomed == Kept(vs, keep)
  {
    var left := vs - doomed;
    assert left.Keys == vs.Keys - doomed;
  }

  lemma {:induction false} Complement(xs: seq<nat>, n: nat)
    requires Ascending(xs) && n <= |xs|
    ensures Elements<nat>(xs) - Elements<nat>(xs[..n]) == Elements<nat>(xs[n..])
  {
  }

  lemma {:induction false} Extended(xs: seq<nat>, x: nat)
    requires Ascending(xs) && forall y | y in Elements<nat>(xs) :: y < x
    ensures Ascending(xs + [x]) && Elements<nat>(xs + [x]) == Elements<nat>(xs) + {x}
  {
    assert forall i | 0 <= i < |xs| :: xs[i] in Elements<nat>(xs);
    forall y
      ensures y in xs + [x] <==> y in xs || y == x
    {
    }
  }

  lemma {:induction false} InOrder(s: set<nat>) returns (xs: seq<nat>)
    ensures Ascending(xs) && Elements<nat>(xs) == s
    decreases |s|
  {
    if s == {} {
      xs := [];
    } else {
      var m := Max(s);
      var rest := InOrder(s - {m});
      Extended(rest, m);
      xs := rest + [m];
    }
  }

  /** A cleanup leaves as many versions as it was asked to keep, or all if there are fewer, and those are the newest. */
  lemma {:induction false} KeepsTheNewest(vs: Versions, keep: nat)
    requires keep > 0
    ensures |Kept(vs, keep)| == if |vs| < keep then |vs| else keep
    ensures forall j, k | j in vs && k in Kept(vs, keep) && j > k :: j in Kept(vs, keep)
  {
    var xs := InOrder(vs.Keys);
    KeptAreLast(vs, xs, keep);
    ElementCount(xs);
    ElementCount(if |xs| <= keep then xs else xs[|xs| - keep..]);
    forall j, k | j in vs && k in Kept(vs, keep) && j > k
      ensures j in Kept(vs, keep)
    {
      SubsetSize(Newer(vs.Keys, j), Newer(vs.Keys, k));
    }
  }

  /**
   * A cleanup leaves as many versions as it was asked to keep, or all if there are fewer, if and only if it was
   * asked to keep any or there is none: to keep none keeps all.
   */
  lemma {:induction false} KeepsAsManyIff(vs: Versions, keep: nat)
    ensures |Kept(vs, keep)| == (if |vs| < keep then |vs| else keep) <==> keep > 0 || vs == map[]
    ensures keep == 0 ==> Kept(vs, keep) == vs
  {
    if keep > 0 {
      KeepsTheNewest(vs, keep);
    } else {
      SubsetSize<nat>({}, vs.Keys);
    }
  }
}
