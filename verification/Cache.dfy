/** The TTL cache (core/cache/cache.go), as one object used by one caller at a time.
    CacheRaces treats concurrent callers. */
module Cache {
  import opened Wrappers

  /** `expiresAt` means nothing when the TTL is not positive. */
  datatype Entry<+V> = Entry(value: V, expiresAt: int)

  predicate Stale<V>(ttl: int, e: Entry<V>, now: int) {
    ttl > 0 && now > e.expiresAt
  }

  function Fresh<V>(ttl: int, value: V, now: int): Entry<V> {
    Entry(value, if ttl > 0 then now + ttl else 0)
  }

  /** The entries after `Get(key)`: the clock is read once after the read lock and, if the
      entry looked stale, once more under the write lock. */
  function AfterGet<V>(ttl: int, entries: map<string, Entry<V>>, key: string, checked: int, deleting: int)
    : map<string, Entry<V>>
  {
    if key in entries && Stale(ttl, entries[key], checked) && Stale(ttl, entries[key], deleting)
    then entries - {key} else entries
  }

  function GetResult<V>(ttl: int, entries: map<string, Entry<V>>, key: string, checked: int): Option<V> {
    if key in entries && !Stale(ttl, entries[key], checked) then Some(entries[key].value) else None
  }

  class TtlCache<V> {
    const ttl: int
    var entries: map<string, Entry<V>>

    constructor (ttl: int)
      ensures this.ttl == ttl && entries == map[]
    {
      this.ttl, entries := ttl, map[];
    }

    method Get(key: string, checked: int, deleting: int) returns (result: Option<V>)
      modifies this
      ensures result == GetResult(ttl, old(entries), key, checked)
      ensures entries == AfterGet(ttl, old(entries), key, checked, deleting)
      ensures result.Some? <==> key in old(entries) && (ttl <= 0 || checked <= old(entries)[key].expiresAt)
      ensures result.Some? ==> result.value == old(entries)[key].value
      ensures key !in entries <==>
        || key !in old(entries)
        || (ttl > 0 && checked > old(entries)[key].expiresAt && deleting > old(entries)[key].expiresAt)
      ensures forall k :: k in old(entries) && (k != key || k in entries) ==>
        k in entries && entries[k] == old(entries)[k]
      ensures forall k :: k in entries ==> k in old(entries)
    {
      if key !in entries {
        return None;
      }
      var cached := entries[key];
      if ttl > 0 && checked > cached.expiresAt {
        if key in entries && deleting > entries[key].expiresAt {
          entries := entries - {key};
        }
        return None;
      }
      return Some(cached.value);
    }

    method Set(key: string, value: V, now: int)
      modifies this
      ensures entries == old(entries)[key := Fresh(ttl, value, now)]
      ensures entries == old(entries)[key := Entry(value, if ttl > 0 then now + ttl else 0)]
    {
      var expiresAt := 0;
      if ttl > 0 {
        expiresAt := now + ttl;
      }
      entries := entries[key := Entry(value, expiresAt)];
    }

    method Remove(key: string)
      modifies this
      ensures entries == old(entries) - {key}
    {
      entries := entries - {key};
    }

    method Purge()
      modifies this
      ensures entries == map[]
    {
      entries := map[];
    }
  }

  /** A `Get` finds an entry exactly while its expiry is not past, or the cache has no TTL. */
  lemma GetFindsExactly<V>(ttl: int, entries: map<string, Entry<V>>, key: string, checked: int, value: V)
    ensures GetResult(ttl, entries, key, checked) == Some(value) <==>
      key in entries && entries[key].value == value && (ttl <= 0 || checked <= entries[key].expiresAt)
  {
  }

  /** A value set at `now` is found up to a TTL later and not a moment more; without a TTL,
      always.  A `Get` that finds it leaves it, and one that misses it at both readings
      removes it. */
  lemma SetThenGet<V>(
    ttl: int, entries: map<string, Entry<V>>, key: string, value: V, now: int, checked: int, deleting: int)
    ensures var after := entries[key := Fresh(ttl, value, now)];
      && GetResult(ttl, after, key, checked) == (if ttl <= 0 || checked <= now + ttl then Some(value) else None)
      && (key !in AfterGet(ttl, after, key, checked, deleting) <==>
            ttl > 0 && checked > now + ttl && deleting > now + ttl)
  {
    GetFindsExactly(ttl, entries[key := Fresh(ttl, value, now)], key, checked, value);
  }
}
