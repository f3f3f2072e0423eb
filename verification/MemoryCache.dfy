/** The in-memory cache with time to live (internal/cache/memory.go:12-186).
    The clock is a parameter; metrics are the set and delete counters. */
module MemoryCache {
  import opened Text

  type Bytes = string

  datatype Entry = Entry(value: Bytes, expiresAt: Option<int>)

  predicate Expired(e: Entry, now: int) {
    e.expiresAt.Some? && now > e.expiresAt.value
  }

  // What a reader can see at a time.
  function Live(entries: map<string, Entry>, now: int): map<string, Bytes> {
    map k | k in entries && !Expired(entries[k], now) :: entries[k].value
  }

  function Lookup(m: map<string, Bytes>, key: string): Option<Bytes> {
    if key in m then Some(m[key]) else None
  }

  function Without(m: map<string, Bytes>, prefix: string): map<string, Bytes> {
    map k | k in m && !(prefix <= k) :: m[k]
  }

  datatype Item = Item(value: Bytes, ttl: int)

  function NewEntry(item: Item, now: int): Entry {
    Entry(item.value, if item.ttl > 0 then Some(now + item.ttl) else None)
  }

  class MemoryCache {
    var entries: map<string, Entry>
    var sets: nat
    var deletes: nat

    constructor ()
      ensures entries == map[] && sets == 0 && deletes == 0
    {
      entries, sets, deletes := map[], 0, 0;
    }

    // An expired entry is forgotten on the way; nothing a later reader can see changes.
    // The look and the drop are under one lock each.
    method Get(key: string, now: int) returns (value: Option<Bytes>)
      modifies this`entries
      ensures value == Lookup(Live(old(entries), now), key)
      ensures forall t :: t >= now ==> Live(entries, t) == Live(old(entries), t)
    {
      var entry := Look(key);
      if entry.None? || Expired(entry.value, now) {
        if entry.Some? {
          Drop({key});
        }
        return None;
      }
      return Some(entry.value.value);
    }

    method Look(key: string) returns (entry: Option<Entry>)
      ensures entry == if key in entries then Some(entries[key]) else None
    {
      if key in entries {
        return Some(entries[key]);
      }
      return None;
    }

    // The keys found expired go, whatever they hold by now.
    method Drop(keys: set<string>)
      modifies this`entries
      ensures entries == old(entries) - keys
    {
      entries := entries - keys;
    }

    method Set(key: string, value: Bytes, ttl: int, now: int)
      modifies this
      ensures entries == old(entries)[key := NewEntry(Item(value, ttl), now)]
      ensures Live(entries, now) == Live(old(entries), now)[key := value]
      ensures sets == old(sets) + 1 && deletes == old(deletes)
    {
      entries := entries[key := NewEntry(Item(value, ttl), now)];
      sets := sets + 1;
    }

    method Delete(key: string)
      modifies this
      ensures entries == old(entries) - {key}
      ensures sets == old(sets) && deletes == old(deletes) + 1
    {
      entries := entries - {key};
      deletes := deletes + 1;
    }

    method GetMulti(keys: seq<string>, now: int) returns (results: map<string, Bytes>)
      modifies this`entries
      ensures results == map k | k in keys && k in Live(old(entries), now) :: Live(old(entries), now)[k]
      ensures forall t :: t >= now ==> Live(entries, t) == Live(old(entries), t)
    {
      results := map[];
      var expired: set<string> := {};
      for i := 0 to |keys|
        invariant results == map k | k in keys[..i] && k in Live(entries, now) :: Live(entries, now)[k]
        invariant forall k :: k in expired ==> k in entries && Expired(entries[k], now)
      {
        var key := keys[i];
        assert keys[..i + 1] == keys[..i] + [key];
        if key in entries {
          if Expired(entries[key], now) {
            expired := expired + {key};
          } else {
            results := results[key := entries[key].value];
          }
        }
      }
      assert keys[..|keys|] == keys;
      Drop(expired);
    }

    method SetMulti(items: map<string, Item>, now: int)
      modifies this
      ensures entries == old(entries) + map k | k in items :: NewEntry(items[k], now)
      ensures sets == old(sets) + |items| && deletes == old(deletes)
    {
      hide NewEntry;
      var todo := items.Keys;
      while todo != {}
        invariant todo <= items.Keys
        invariant forall k :: k in entries <==> k in old(entries) || (k in items && k !in todo)
        invariant forall k :: k in entries ==>
          entries[k] == if k in items && k !in todo then NewEntry(items[k], now) else old(entries)[k]
        invariant sets == old(sets) && deletes == old(deletes)
        decreases |todo|
      {
        var key :| key in todo;
        entries := entries[key := NewEntry(items[key], now)];
        todo := todo - {key};
      }
      sets := sets + |items|;
    }

    method DeleteMulti(keys: seq<string>)
      modifies this
      ensures entries == map k | k in old(entries) && k !in keys :: old(entries)[k]
      ensures sets == old(sets) && deletes == old(deletes) + |keys|
    {
      for i := 0 to |keys|
        invariant entries == map k | k in old(entries) && k !in keys[..i] :: old(entries)[k]
        invariant sets == old(sets) && deletes == old(deletes)
      {
        assert keys[..i + 1] == keys[..i] + [keys[i]];
        entries := entries - {keys[i]};
      }
      assert keys[..|keys|] == keys;
      deletes := deletes + |keys|;
    }

    // A wildcard is refused; otherwise exactly the keys with the prefix go.
    method DeleteByPrefix(prefix: string) returns (ok: bool)
      modifies this
      ensures ok <==> '*' !in prefix
      ensures !ok ==> entries == old(entries) && deletes == old(deletes)
      ensures ok ==> entries == map k | k in old(entries) && !(prefix <= k) :: old(entries)[k]
      ensures ok ==> forall t :: Live(entries, t) == Without(Live(old(entries), t), prefix)
      ensures ok ==> deletes == old(deletes) + |old(entries)| - |entries|
      ensures sets == old(sets)
    {
      if '*' in prefix {
        return false;
      }
      hide Live, Without;
      ghost var start := |entries|;
      var count := 0;
      var todo := entries.Keys;
      while todo != {}
        invariant todo <= old(entries).Keys
        invariant forall k :: k in entries <==> k in old(entries) && (k in todo || !(prefix <= k))
        invariant forall k :: k in entries ==> entries[k] == old(entries)[k]
        invariant count + |entries| == start
        invariant sets == old(sets) && deletes == old(deletes)
        decreases |todo|
      {
        var key :| key in todo;
        if prefix <= key {
          OneLess(entries, key);
          entries := entries - {key};
          count := count + 1;
        }
        todo := todo - {key};
      }
      deletes := deletes + count;
      forall t ensures Live(entries, t) == Without(Live(old(entries), t), prefix) {
        SweepLive(old(entries), prefix, t);
      }
      return true;
    }

    // Nothing a reader can see from now on changes.
    method EvictExpired(now: int)
      modifies this`entries
      ensures entries == map k | k in old(entries) && !Expired(old(entries)[k], now) :: old(entries)[k]
      ensures forall t :: t >= now ==> Live(entries, t) == Live(old(entries), t)
    {
      var todo := entries.Keys;
      while todo != {}
        invariant todo <= old(entries).Keys
        invariant entries ==
          map k | k in old(entries) && (k in todo || !Expired(old(entries)[k], now)) :: old(entries)[k]
        decreases |todo|
      {
        var key :| key in todo;
        if Expired(entries[key], now) {
          entries := entries - {key};
        }
        todo := todo - {key};
      }
    }
  }

  lemma OneLess(entries: map<string, Entry>, key: string)
    requires key in entries
    ensures |entries - {key}| == |entries| - 1
  {
    assert entries.Keys == (entries - {key}).Keys + {key};
  }

  lemma SweepLive(entries: map<string, Entry>, prefix: string, t: int)
    ensures Live(map k | k in entries && !(prefix <= k) :: entries[k], t) == Without(Live(entries, t), prefix)
  {}

  // A value set for some time is seen until that time is over, and one set for no
  // time for ever; until then nothing else is seen under its key.
  lemma SeenUntil(entries: map<string, Entry>, key: string, value: Bytes, ttl: int, now: int, later: int)
    requires now <= later
    ensures Lookup(Live(entries[key := NewEntry(Item(value, ttl), now)], later), key)
         == if ttl <= 0 || later - now <= ttl then Some(value) else None
  {}
}
