/** The bounded caches of internal/tlsverify/tlsverify.go: a map and the list of its
    keys in insertion order, evicted from the front. Both the issuer cache and the
    per-host transports have this shape. */
module FifoCache {
  import opened Common

  /** The last `n` elements of a sequence, or all of it. */
  function Last<T>(s: seq<T>, n: nat): seq<T> {
    if |s| <= n then s else s[|s| - n..]
  }

  class Cache<V> {
    const capacity: nat
    var entries: map<string, V>
    var order: seq<string>
    // Every key ever inserted, in order of insertion.
    ghost var log: seq<string>

    /** The order list is exactly the latest `capacity` insertions, and names the keys of the map once each. */
    ghost predicate Valid()
      reads this
    {
      && capacity > 0
      && order == Last(log, capacity)
      && IsKeyed()
    }

    lemma SizeBounded()
      requires Valid()
      ensures |entries| == |order| <= capacity
    {
      DistinctSize(order);
    }

    constructor (capacity: nat)
      requires capacity > 0
      ensures Valid() && this.capacity == capacity && entries == map[] && log == []
    {
      this.capacity := capacity;
      entries, order, log := map[], [], [];
    }

    predicate IsKeyed()
      reads this
    {
      Distinct(order) && Elements(order) == entries.Keys
    }

    /** One turn of the eviction loop. */
    method EvictOldest()
      requires order != [] && IsKeyed()
      modifies this`entries, this`order
      ensures IsKeyed() && order == old(order)[1..] && entries == old(entries) - {old(order)[0]}
    {
      var evicted := order[0];
      order := order[1..];
      entries := entries - {evicted};
      assert old(order) == [evicted] + order;
    }

    /** The eviction loop: drops from the front until one more entry fits. */
    method MakeRoom()
      requires capacity > 0 && IsKeyed()
      modifies this`entries, this`order
      ensures IsKeyed() && order == Last(old(order), capacity - 1)
      ensures forall k :: k in entries ==> k in old(entries) && entries[k] == old(entries)[k]
    {
      while |order| >= capacity
        invariant IsKeyed()
        invariant |order| <= |old(order)| && order == old(order)[|old(order)| - |order|..]
        invariant |order| >= capacity - 1 || order == old(order)
        invariant forall k :: k in entries ==> k in old(entries) && entries[k] == old(entries)[k]
      {
        EvictOldest();
      }
    }

    method Append(key: string, value: V)
      requires IsKeyed() && key !in entries
      modifies this`entries, this`order
      ensures IsKeyed() && order == old(order) + [key] && entries == old(entries)[key := value]
    {
      assert key !in order;
      entries := entries[key := value];
      order := order + [key];
    }

    /** Insert unless the key is there. A full cache loses its oldest insertion, and only that. */
    method PutIfAbsent(key: string, value: V)
      requires Valid()
      modifies this
      ensures Valid() && key in entries
      ensures key in old(entries) ==> entries == old(entries) && log == old(log)
      ensures key !in old(entries) ==> log == old(log) + [key] && entries[key] == value
      ensures key !in old(entries) ==> forall k :: k in entries && k != key ==> k in old(entries) && entries[k] == old(entries)[k]
    {
      if key in entries {
        return;
      }
      MakeRoom();
      Append(key, value);
      LastGrows(log, key, capacity);
      log := log + [key];
    }
  }

  lemma LastGrows<T>(log: seq<T>, x: T, n: nat)
    requires n > 0
    ensures Last(log + [x], n) == Last(Last(log, n), n - 1) + [x]
  {
  }
}
