// The directory of a model as an object.

module ModelRepository {
  import opened Collections
  import opened VersionRules

  /** The directory of one model, primary or out-of-distribution. */
  class ModelDir {
    var versions: Versions

    constructor ()
      ensures versions == map[]
    {
      versions := map[];
    }

    method CurrentVersion() returns (version: Option<nat>)
      ensures version == Current(versions)
    {
      version := None;
      var todo := versions.Keys;
      while todo != {}
        invariant todo <= versions.Keys
        invariant version.None? ==> todo == versions.Keys
        invariant version.Some? ==> version.value in versions
                                    && forall k | k in versions && k !in todo :: k <= version.value
        decreases |todo|
      {
        var k :| k in todo;
        if version.None? || k > version.value {
          version := Some(k);
        }
        todo := todo - {k};
      }
    }

    /** Writes the model to a new version directory, or as much of it as it gets to. */
    method Save(info: Info, end: End)
      modifies this
      ensures versions == Saved(old(versions), info, end)
      ensures var n := Next(old(versions));
              && n !in old(versions) && versions == old(versions)[n := versions[n]]
              && versions[n].config == (if end.BeforeConfig? then None else Some(info.config))
              && versions[n].binaryId == (if end.Complete? && info.WithBinary? then Some(info.binaryId) else None)
              && (versions[n].metadata <==> end.AfterMetadata? || end.Complete?)
    {
      SavedIsCurrent(versions, Written(info, end));
      var before := CurrentVersion();
      var version := if before.None? then 1 else before.value + 1;
      versions := versions[version := Version(None, None, false)];
      if end.BeforeConfig? {
        return;
      }
      versions := versions[version := Version(None, Some(info.config), false)];
      if end.AfterConfig? {
        return;
      }
      versions := versions[version := versions[version].(metadata := true)];
      if info.WithBinary? && end.Complete? {
        versions := versions[version := versions[version].(binaryId := Some(info.binaryId))];
      }
    }

    method ShouldUpdate(info: Info, version: Option<nat>) returns (update: bool)
      requires version.Some? ==> version.value in versions
      ensures update == NeedsUpdate(info, versions, version)
    {
      if version.None? {
        return true;
      }
      var on := versions[version.value];
      if info.WithBinary? {
        if on.binaryId.Some? && on.binaryId.value != EMPTY && info.binaryId == on.binaryId.value {
          return false;
        }
        return true;
      } else {
        if on.config.Some? && on.config.value != EMPTY && on.config.value == info.config {
          return false;
        }
        return true;
      }
    }

    /** The version numbers in ascending order. */
    method SortedVersions() returns (sorted: seq<nat>)
      ensures Ascending(sorted) && Elements<nat>(sorted) == versions.Keys
    {
      sorted := [];
      var todo := versions.Keys;
      while todo != {}
        invariant todo <= versions.Keys && Ascending(sorted) && Elements<nat>(sorted) == versions.Keys - todo
        invariant forall x, y | x in Elements<nat>(sorted) && y in todo :: x < y
        decreases |todo|
      {
        var k := Least(todo);
        Extended(sorted, k);
        sorted := sorted + [k];
        todo := todo - {k};
      }
    }

    static method Least(s: set<nat>) returns (least: nat)
      requires s != {}
      ensures least in s && forall x | x in s :: least <= x
    {
      least :| least in s;
      var todo := s;
      while todo != {}
        invariant todo <= s && least in s && forall x | x in s && x !in todo :: least <= x
        decreases |todo|
      {
        var x :| x in todo;
        if x < least {
          least := x;
        }
        todo := todo - {x};
      }
    }

    /** Deletes all but the newest `keep` versions. */
    method DeleteOld(keep: nat)
      modifies this
      ensures versions == Kept(old(versions), keep)
    {
      var sorted := SortedVersions();
      LeftAreKept(versions, sorted, keep);
      DeleteAll(Doomed(sorted, keep));
    }

    method DeleteAll(doomed: seq<nat>)
      modifies this
      ensures versions == old(versions) - Elements<nat>(doomed)
    {
      for i := 0 to |doomed|
        invariant versions == old(versions) - Elements<nat>(doomed[..i])
      {
        assert Elements<nat>(doomed[..i + 1]) == Elements<nat>(doomed[..i]) + {doomed[i]};
        versions := versions - {doomed[i]};
      }
      assert doomed[..|doomed|] == doomed;
    }
  }
}
