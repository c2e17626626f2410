// The cached metadata of detectors, and their refresh.

module DetectorMetadata {
  import opened TimestampedCaches

  /** What fetching the metadata of a detector does. */
  datatype Fetch = Fetched(value: Value) | FetchKeyError | FetchError

  const STALE_METADATA_THRESHOLD_SEC := 60

  /** The cached look-up of metadata: fetches only what is not cached. */
  method GetDetectorMetadata(cache: TimestampedCache, d: Key, fetch: Fetch, now: int) returns (result: Fetch)
    requires cache.Valid()
    modifies cache
    ensures cache.Valid() && cache.suspended == old(cache.suspended)
    ensures d in old(cache.values) ==> result == Fetched(old(cache.values)[d])
    ensures d !in old(cache.values) ==> result == fetch
    ensures d in old(cache.values) || !fetch.Fetched? ==>
              cache.values == old(cache.values) && cache.timestamps == old(cache.timestamps) && cache.order == old(cache.order)
    ensures d !in old(cache.values) && fetch.Fetched? ==>
              && cache.order == RequestWindow.Add(old(cache.order), d, cache.maxsize)
              && d in cache.values && cache.values[d] == fetch.value && cache.timestamps[d] == now
              && forall k | k in cache.values && k != d ::
                   k in old(cache.values) && cache.values[k] == old(cache.values)[k]
                   && cache.timestamps[k] == old(cache.timestamps)[k]
    ensures d !in old(cache.values) && fetch.Fetched? && |old(cache.order)| < cache.maxsize ==>
              && cache.values == old(cache.values)[d := fetch.value]
              && cache.timestamps == old(cache.timestamps)[d := now]
  {
    if d in cache.values {
      return Fetched(cache.values[d]);
    }
    if fetch.Fetched? {
      cache.SetItem(d, fetch.value, now);
    }
    return fetch;
  }

  /** How a refresh ends: nothing to do, a KeyError because None was cached, or a fetch was made. */
  datatype Refresh = Fresh | NotSuspended | Attempted

  /**
   * Replaces metadata that is older than the threshold at time `now`; `later` is the time at which a value
   * is put into the cache. After a fetch the detector is cached, with a new timestamp and nothing suspended, if
   * and only if the fetch did not fail with a KeyError. A stale None is lost without a fetch. Other detectors are
   * never evicted.
   */
  method RefreshIfNeeded(cache: TimestampedCache, d: Key, fetch: Fetch, now: int, later: int) returns (refresh: Refresh)
    requires cache.Valid()
    modifies cache
    ensures cache.Valid()
    ensures refresh.Fresh? <==> d !in old(cache.timestamps) || now - old(cache.timestamps)[d] <= 60
    ensures refresh.NotSuspended? <==> !refresh.Fresh? && old(cache.values)[d] == NoValue
    ensures refresh.Fresh? ==>
              cache.values == old(cache.values) && cache.timestamps == old(cache.timestamps) && cache.suspended == old(cache.suspended)
    ensures refresh.NotSuspended? ==>
              && cache.values == old(cache.values) - {d} && cache.timestamps == old(cache.timestamps) - {d}
              && cache.suspended == old(cache.suspended)
    ensures refresh.Attempted? ==>
              && (d in cache.values <==> fetch != FetchKeyError) && (d !in cache.suspended <==> fetch != FetchKeyError)
              && (fetch.Fetched? ==> cache.values == old(cache.values)[d := fetch.value])
              && (fetch.FetchKeyError? ==> cache.values == old(cache.values) - {d})
              && (fetch.FetchError? ==> cache.values == old(cache.values))
              && (fetch.FetchKeyError? ==> cache.suspended[d] == old(cache.values)[d])
              && cache.timestamps == (if fetch.FetchKeyError? then old(cache.timestamps) - {d} else old(cache.timestamps)[d := later])
              && cache.suspended - {d} == old(cache.suspended) - {d}
  {
    if d !in cache.timestamps || now - cache.timestamps[d] <= STALE_METADATA_THRESHOLD_SEC {
      return Fresh;
    }
    var suspended := cache.Suspend(d);
    if !suspended {
      return NotSuspended;
    }
    AttemptRefresh(cache, d, fetch, later, old(cache.values), old(cache.timestamps));
    return Attempted;
  }

  /** The cached values after a fetch for the stale detector d. */
  function AfterFetch(values: map<Key, Value>, d: Key, fetch: Fetch): map<Key, Value> {
    match fetch
    case Fetched(value) => values[d := value]
    case FetchKeyError => values - {d}
    case FetchError => values
  }

  lemma PutBack<T>(m: map<Key, T>, d: Key, value: T)
    requires d in m
    ensures (m - {d})[d := value] == m[d := value] && (value == m[d] ==> m[d := value] == m)
  {
  }

  /** The fetch, once the old value was set aside: it is deleted, forgotten, or put back. */
  method AttemptRefresh(cache: TimestampedCache, d: Key, fetch: Fetch, later: int,
                        ghost values: map<Key, Value>, ghost timestamps: map<Key, int>)
    requires cache.Valid() && |cache.order| < cache.maxsize && d in values && d in timestamps
    requires cache.values == values - {d} && cache.timestamps == timestamps - {d}
    requires d in cache.suspended && cache.suspended[d] == values[d]
    modifies cache
    ensures cache.Valid() && cache.values == AfterFetch(values, d, fetch)
    ensures d !in cache.suspended <==> fetch != FetchKeyError
    ensures fetch.FetchKeyError? ==> cache.suspended[d] == values[d]
    ensures cache.timestamps == if fetch.FetchKeyError? then timestamps - {d} else timestamps[d := later]
    ensures cache.suspended - {d} == old(cache.suspended) - {d}
  {
    var result := GetDetectorMetadata(cache, d, fetch, later);
    match result
    case Fetched(value) =>
      PutBack(values, d, value);
      PutBack(timestamps, d, later);
      var deleted := cache.DeleteSuspended(d);
    case FetchKeyError =>
    case FetchError =>
      PutBack(values, d, values[d]);
      PutBack(timestamps, d, later);
      var restored := cache.Restore(d, later);
  }

  /** A KeyError from the fetch leaves the stale value suspended: the detector has no metadata from then on. */
  method KeyErrorLosesMetadata() returns (values: map<Key, Value>, suspended: map<Key, Value>)
    ensures values == map[] && suspended == map[1 := Metadata(7)]
  {
    var cache := new TimestampedCache(1000);
    cache.SetItem(1, Metadata(7), 0);
    var refresh := RefreshIfNeeded(cache, 1, FetchKeyError, STALE_METADATA_THRESHOLD_SEC + 1, STALE_METADATA_THRESHOLD_SEC + 2);
    values, suspended := cache.values, cache.suspended;
    assert forall k | k in suspended && k != 1 :: k in suspended - {1};
  }

  /** A stale None is not refreshed: the refresh fails before the fetch, and the detector is not cached. */
  method StaleNoneIsLost(fetch: Fetch) returns (refresh: Refresh, values: map<Key, Value>, suspended: map<Key, Value>)
    ensures refresh == NotSuspended && values == map[] && suspended == map[]
  {
    var cache := new TimestampedCache(1000);
    cache.SetItem(1, NoValue, 0);
    refresh := RefreshIfNeeded(cache, 1, fetch, STALE_METADATA_THRESHOLD_SEC + 1, STALE_METADATA_THRESHOLD_SEC + 2);
    return refresh, cache.values, cache.suspended;
  }
}
