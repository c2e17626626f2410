// The cache of request ids: a directory of empty files that behaves as the bounded
// window.

module RequestCacheModel {
  import RequestWindow
  import opened QueueTypes

  /** The window lists exactly the entries, by modification time, and no two times are equal. */
  ghost predicate Lists(window: seq<RequestId>, entries: map<RequestId, int>) {
    && (forall id | id in window :: id in entries)
    && (forall id | id in entries :: id in window)
    && (forall i, j | 0 <= i < j < |window| :: entries[window[i]] < entries[window[j]])
  }

  lemma {:induction false} ListsAll(window: seq<RequestId>, entries: map<RequestId, int>)
    requires Lists(window, entries)
    ensures |entries| == |window|
    decreases |window|
  {
    if window == [] {
      assert entries == map[];
    } else {
      ListsRest(window, entries);
      ListsAll(window[1..], entries - {window[0]});
      assert entries.Keys == (entries - {window[0]}).Keys + {window[0]};
    }
  }

  lemma ListsRest(window: seq<RequestId>, entries: map<RequestId, int>)
    requires Lists(window, entries) && window != []
    ensures Lists(window[1..], entries - {window[0]})
    ensures forall id | id in entries :: entries[window[0]] <= entries[id]
    ensures forall id | id in entries && entries[id] <= entries[window[0]] :: id == window[0]
  {
    var rest := window[1..];
    forall id | id in entries && id != window[0]
      ensures id in rest && entries[window[0]] < entries[id]
    {
      var k :| 0 <= k < |window| && window[k] == id;
      assert rest[k - 1] == id;
    }
    forall id | id in rest
      ensures id in entries && id != window[0]
    {
      var k :| 0 <= k < |rest| && rest[k] == id;
      assert window[k + 1] == id;
    }
  }

  lemma NextOldest(window: seq<RequestId>, k: nat)
    requires k < |window|
    ensures window[..k] + [window[k..][0]] == window[..k + 1] && window[k..][1..] == window[k + 1..]
  {
  }

  lemma ListsNewest(window: seq<RequestId>, entries: map<RequestId, int>, id: RequestId, now: int)
    requires Lists(window, entries) && id !in entries && forall other | other in entries :: entries[other] < now
    ensures Lists(window + [id], entries[id := now])
  {
  }

  /** A directory with one empty file per cached request id; only names and modification times matter. */
  class RequestCache {
    const maxEntries: nat
    var entries: map<RequestId, int>
    ghost var window: seq<RequestId> // the ids, oldest first

    ghost predicate Valid()
      reads this
    {
      Lists(window, entries)
    }

    constructor (maxEntries: nat)
      ensures Valid() && window == [] && this.maxEntries == maxEntries
    {
      this.maxEntries := maxEntries;
      entries := map[];
      window := [];
    }

    /** The n oldest entries, oldest first. */
    method OldestEntries(n: nat) returns (oldest: seq<RequestId>)
      requires Valid() && n <= |entries|
      ensures n <= |window| && oldest == window[..n]
    {
      ListsAll(window, entries);
      oldest := [];
      var rest := entries;
      while |oldest| < n
        invariant |oldest| <= n && oldest == window[..|oldest|]
        invariant Lists(window[|oldest|..], rest)
      {
        var id := Oldest(rest, window[|oldest|..]);
        ListsRest(window[|oldest|..], rest);
        NextOldest(window, |oldest|);
        rest := rest - {id};
        oldest := oldest + [id];
      }
    }

    /** The entry with the smallest modification time. */
    static method Oldest(entries: map<RequestId, int>, ghost listed: seq<RequestId>) returns (id: RequestId)
      requires Lists(listed, entries) && listed != []
      ensures id == listed[0]
    {
      ListsRest(listed, entries);
      assert listed[0] in entries;
      id :| id in entries && forall other | other in entries :: entries[id] <= entries[other];
    }

    /** Adds an id at time `now`, evicting the oldest entries if the cache is full. */
    method Add(id: RequestId, now: int)
      requires Valid() && forall other | other in entries :: entries[other] < now
      modifies this
      ensures Valid()
      ensures window == RequestWindow.Add(old(window), id, maxEntries)
      ensures forall other | other in entries && other != id :: other in old(entries) && entries[other] == old(entries)[other]
      ensures id in old(entries) ==> entries == old(entries)
      ensures forall other | other in entries :: entries[other] <= now
    {
      if id in entries {
        return;
      }
      MakeRoom();
      ListsNewest(window, entries, id, now);
      entries := entries[id := now];
      window := window + [id];
    }

    /** If the cache is full, removes as many of the oldest entries as one more needs. */
    method MakeRoom()
      requires Valid()
      modifies this
      ensures Valid() && window == RequestWindow.MakeRoom(old(window), maxEntries)
      ensures forall id | id in entries :: id in old(entries) && entries[id] == old(entries)[id]
    {
      ListsAll(window, entries);
      if |entries| >= maxEntries {
        // A slice longer than the list stops at its end.
        var excess := if maxEntries == 0 then |entries| else |entries| - maxEntries + 1;
        Evict(excess);
      }
    }

    /** Removes the n oldest entries. */
    method Evict(n: nat)
      requires Valid() && n <= |entries|
      modifies this
      ensures Valid() && n <= |old(window)| && window == old(window)[n..]
      ensures forall id | id in entries :: id in old(entries) && entries[id] == old(entries)[id]
    {
      var oldest := OldestEntries(n);
      var i := 0;
      while i < |oldest|
        invariant 0 <= i <= |oldest| == n <= |old(window)| && oldest == old(window)[..n]
        invariant window == old(window)[i..] && Valid()
        invariant forall id | id in entries :: id in old(entries) && entries[id] == old(entries)[id]
      {
        assert window[0] == oldest[i];
        ListsRest(window, entries);
        entries := entries - {oldest[i]};
        window := window[1..];
        i := i + 1;
      }
    }

    /** True if the id is cached. */
    method Contains(id: RequestId) returns (cached: bool)
      requires Valid()
      ensures cached <==> id in window
    {
      cached := id in entries;
    }
  }
}
