// A bounded cache that knows when its values were added and can set a value aside.

module TimestampedCaches {
  import opened Collections
  import RequestWindow

  type Key = int

  /** What is cached; a function can also have returned None. */
  datatype Value = NoValue | Metadata(id: int)

  class TimestampedCache {
    const maxsize: nat
    var order: seq<Key>               // the cached keys, in order of insertion
    var values: map<Key, Value>
    var timestamps: map<Key, int>
    var suspended: map<Key, Value>

    ghost predicate Valid()
      reads this
    {
      && maxsize >= 1 && |order| <= maxsize
      && Distinct(order)
      && (forall k :: k in order <==> k in values)
      && timestamps.Keys == values.Keys
      && (forall k | k in suspended :: suspended[k] != NoValue)
    }

    constructor (maxsize: nat)
      requires maxsize >= 1
      ensures Valid() && order == [] && suspended == map[] && this.maxsize == maxsize
    {
      this.maxsize := maxsize;
      order, values, timestamps, suspended := [], map[], map[], map[];
    }

    /** Removes a cached key and its timestamp. */
    method DelItem(key: Key)
      requires Valid() && key in values
      modifies `order, `values, `timestamps
      ensures Valid() && values == old(values) - {key} && timestamps == old(timestamps) - {key}
      ensures |order| == |old(order)| - 1 && (old(order)[0] == key ==> order == old(order)[1..])
    {
      order := WithoutKey(order, key);
      values := values - {key};
      timestamps := timestamps - {key};
    }

    /** Makes room: the oldest keys go, with their timestamps, while the cache has no room for one more. */
    method Evict()
      requires Valid()
      modifies `order, `values, `timestamps
      ensures Valid() && |order| < maxsize && order == RequestWindow.MakeRoom(old(order), maxsize)
      ensures forall k | k in values :: k in old(values) && values[k] == old(values)[k] && timestamps[k] == old(timestamps)[k]
      ensures |old(order)| < maxsize ==> values == old(values) && timestamps == old(timestamps)
    {
      ghost var all := order;
      var i := 0;
      while |order| + 1 > maxsize
        invariant Valid() && 0 <= i <= |all| && order == all[i..]
        invariant i > 0 ==> |order| + 1 >= maxsize && |old(order)| >= maxsize
        invariant i == 0 ==> values == old(values) && timestamps == old(timestamps)
        invariant forall k | k in values :: k in old(values) && values[k] == old(values)[k] && timestamps[k] == old(timestamps)[k]
        decreases |order|
      {
        DelItem(order[0]);
        i := i + 1;
      }
    }

    /** Caches a value; a key that is cached already keeps its place. */
    method SetItem(key: Key, value: Value, now: int)
      requires Valid()
      modifies this
      ensures Valid() && suspended == old(suspended)
      ensures order == RequestWindow.Add(old(order), key, maxsize)
      ensures key in values && values[key] == value && timestamps[key] == now
      ensures forall k | k in values && k != key ::
                k in old(values) && values[k] == old(values)[k] && timestamps[k] == old(timestamps)[k]
      ensures key in old(values) || |old(order)| < maxsize ==>
                values == old(values)[key := value] && timestamps == old(timestamps)[key := now]
    {
      if key !in values {
        Evict();
        order := order + [key];
      }
      values := values[key := value];
      timestamps := timestamps[key := now];
    }

    /**
     * Sets a value aside. It fails, as a KeyError, exactly if the key is not cached or None is cached under it;
     * the key is not cached afterwards in any case, so a cached None is lost.
     */
    method Suspend(key: Key) returns (ok: bool)
      requires Valid()
      modifies this
      ensures Valid() && (ok <==> key in old(values) && old(values)[key] != NoValue)
      ensures values == old(values) - {key} && timestamps == old(timestamps) - {key}
      ensures suspended == if ok then old(suspended)[key := old(values)[key]] else old(suspended)
      ensures |order| == |old(order)| - if key in old(values) then 1 else 0
    {
      if key !in values || key !in timestamps {
        assert values - {key} == values && timestamps - {key} == timestamps;
        return false;
      }
      var value := values[key];
      DelItem(key);
      if value.NoValue? {
        return false;
      }
      suspended := suspended[key := value];
      return true;
    }

    /** Puts a suspended value back, as if it were new. */
    method Restore(key: Key, now: int) returns (ok: bool)
      requires Valid()
      modifies this
      ensures Valid() && (ok <==> key in old(suspended)) && suspended == old(suspended) - {key}
      ensures ok ==> order == RequestWindow.Add(old(order), key, maxsize)
                     && key in values && values[key] == old(suspended)[key] && timestamps[key] == now
                     && forall k | k in values && k != key ::
                          k in old(values) && values[k] == old(values)[k] && timestamps[k] == old(timestamps)[k]
      ensures ok && |old(order)| < maxsize ==>
                values == old(values)[key := old(suspended)[key]] && timestamps == old(timestamps)[key := now]
      ensures !ok ==> values == old(values) && timestamps == old(timestamps) && order == old(order)
    {
      if key !in suspended {
        assert suspended - {key} == suspended;
        return false;
      }
      var value := suspended[key];
      suspended := suspended - {key};
      SetItem(key, value, now);
      return true;
    }

    method DeleteSuspended(key: Key) returns (ok: bool)
      requires Valid()
      modifies `suspended
      ensures Valid() && (ok <==> key in old(suspended)) && suspended == old(suspended) - {key}
    {
      ok := key in suspended;
      suspended := suspended - {key};
    }
  }

  /** The keys without this one, in the order they had. */
  method WithoutKey(order: seq<Key>, key: Key) returns (rest: seq<Key>)
    requires Distinct(order) && key in order
    ensures Distinct(rest) && |rest| == |order| - 1 && forall k :: k in rest <==> k in order && k != key
    ensures order[0] == key ==> rest == order[1..]
  {
    ghost var at :| 0 <= at < |order| && order[at] == key;
    var i := 0;
    while order[i] != key
      invariant 0 <= i <= at
      decreases at - i
    {
      i := i + 1;
    }
    RemovedAt(order, i);
    rest := order[..i] + order[i + 1..];
  }

  lemma {:induction false} RemovedAt(order: seq<Key>, i: nat)
    requires i < |order| && Distinct(order)
    ensures var rest := order[..i] + order[i + 1..];
            && Distinct(rest)
            && (forall k :: k in rest <==> k in order && k != order[i])
  {
    var rest := order[..i] + order[i + 1..];
    forall k
      ensures k in rest <==> k in order && k != order[i]
    {
      if j :| 0 <= j < |order| && order[j] == k && j != i {
        assert rest[if j < i then j else j - 1] == k;
      }
    }
  }
}
