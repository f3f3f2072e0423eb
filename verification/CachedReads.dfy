/** Cache-aside reads, prefix invalidation and the insert that triggers it
    (internal/storage/cached_storage.go:160-258,
    internal/storage/cached_storage_invalidation.go:24-123,
    internal/storage/cached_storage_nodes.go:87-97).
    A query's answer is a function of the query and the database; encoding is
    assumed to round-trip. */
module CachedReads {
  import opened Text
  import opened CacheKeys
  import M = MemoryCache

  datatype Fetched<+A> = Ok(value: A) | Fault

  // Which helper a reader uses: cachedFetch, cachedFetchPtr or cachedFetchSlice.
  datatype Helper = Plain | Nilable | Slice

  // answer is what the database says; missing says nil or empty.
  datatype World<!D, !A> = World(answer: (Query, D) -> A, missing: A -> bool,
                                 encode: A -> M.Bytes, decode: M.Bytes -> Option<A>)

  ghost predicate RoundTrips<D, A(!new)>(w: World<D, A>) {
    forall a :: w.decode(w.encode(a)) == Some(a)
  }

  datatype State<D> = State(data: D, cache: map<string, M.Bytes>)

  // What the helper accepts from the cache.
  function Cached<D, A>(w: World<D, A>, s: State<D>, q: Query, helper: Helper): Option<A> {
    if Key(q) !in s.cache then None
    else
      var found := w.decode(s.cache[Key(q)]);
      if found.Some? && helper.Nilable? && w.missing(found.value) then None else found
  }

  function ReadValue<D, A>(w: World<D, A>, s: State<D>, q: Query, helper: Helper, fault: bool): Fetched<A> {
    var found := Cached(w, s, q, helper);
    if found.Some? then Ok(found.value) else if fault then Fault else Ok(w.answer(q, s.data))
  }

  predicate Storable<D, A>(w: World<D, A>, helper: Helper, a: A) {
    helper.Plain? || !w.missing(a)
  }

  // fault: the query fails. stored: the cache takes the answer.
  // An insert either fails, leaving the data alone, or succeeds for all its nodes.
  datatype Step<D> =
    | Read(query: Query, helper: Helper, fault: bool, stored: bool)
    | Insert(data: D, failed: bool, nodes: nat, recent: bool)

  const SWEPT := ["stats", "search", "dates", "analytics"]

  predicate Swept(family: string, recent: bool) {
    family in SWEPT || (recent && family == "sysops")
  }

  function SweepAll(cache: map<string, M.Bytes>, recent: bool): map<string, M.Bytes> {
    var c := M.Without(M.Without(M.Without(M.Without(cache, SweepPrefix("stats")), SweepPrefix("search")),
                                 SweepPrefix("dates")), SweepPrefix("analytics"));
    if recent then M.Without(c, SweepPrefix("sysops")) else c
  }

  function Apply<D, A>(w: World<D, A>, s: State<D>, step: Step<D>): State<D> {
    match step
    case Read(q, helper, fault, stored) =>
      if Cached(w, s, q, helper).None? && !fault && stored && Storable(w, helper, w.answer(q, s.data))
      then s.(cache := s.cache[Key(q) := w.encode(w.answer(q, s.data))])
      else s
    case Insert(data, failed, nodes, recent) =>
      if failed || nodes == 0 then s
      else State(data, SweepAll(s.cache, recent))
  }

  // A second read hits exactly when the first left an answer the helper keeps:
  // nil and empty answers are asked for again, except by the plain helper.
  lemma SecondReadHits<D, A(!new)>(w: World<D, A>, s: State<D>, q: Query, helper: Helper)
    requires RoundTrips(w) && Key(q) !in s.cache
    ensures var t, a := Apply(w, s, Read(q, helper, false, true)), w.answer(q, s.data);
      Cached(w, t, q, helper).Some? <==> helper.Plain? || !w.missing(a)
  {}

  // A nil in the cache is a miss to the pointer helper and an answer to the others:
  // with a query that fails, it alone returns the fault.
  lemma StoredNilIsAsked<D, A(!new)>(w: World<D, A>, s: State<D>, q: Query, nil: A)
    requires RoundTrips(w) && w.missing(nil) && Key(q) in s.cache && s.cache[Key(q)] == w.encode(nil)
    ensures ReadValue(w, s, q, Nilable, true) == Fault
    ensures ReadValue(w, s, q, Plain, true) == ReadValue(w, s, q, Slice, true) == Ok(nil)
  {
    assert w.decode(w.encode(nil)) == Some(nil);
  }

  // What the cache holds under the key decides what the helper accepts.
  lemma CachedBy<D, A>(w: World<D, A>, s: State<D>, q: Query, helper: Helper, found: Option<M.Bytes>)
    requires found == M.Lookup(s.cache, Key(q))
    ensures Cached(w, s, q, helper) ==
      if found.None? then None
      else
        var value := w.decode(found.value);
        if value.Some? && helper.Nilable? && w.missing(value.value) then None else value
  {}

  lemma ReadBy<D, A>(w: World<D, A>, s: State<D>, q: Query, helper: Helper, fault: bool)
    ensures var found, a := Cached(w, s, q, helper), w.answer(q, s.data);
      && ReadValue(w, s, q, helper, fault) == (if found.Some? then Ok(found.value) else if fault then Fault else Ok(a))
      && Apply(w, s, Read(q, helper, fault, true)) ==
           if found.None? && !fault && Storable(w, helper, a) then s.(cache := s.cache[Key(q) := w.encode(a)]) else s
  {}

  class CachedStorage<D, A> {
    const world: World<D, A>
    const enabled: bool
    const cache: M.MemoryCache
    var data: D
    var hits: nat
    var misses: nat

    constructor (w: World<D, A>, on: bool, c: M.MemoryCache, d: D)
      ensures world == w && enabled == on && cache == c && data == d && hits == 0 && misses == 0
    {
      world, enabled, cache, data, hits, misses := w, on, c, d, 0, 0;
    }

    ghost function At(now: int): State<D>
      reads this, cache
    {
      State(data, M.Live(cache.entries, now))
    }

    method CachedFetch(q: Query, key: string, ttl: int, now: int, fault: bool) returns (r: Fetched<A>)
      requires key == Key(q)
      modifies this`hits, this`misses, cache
      ensures !enabled ==>
        cache.entries == old(cache.entries) && r == if fault then Fault else Ok(world.answer(q, data))
      ensures enabled ==> r == ReadValue(world, old(At(now)), q, Plain, fault)
      ensures enabled ==> At(now) == Apply(world, old(At(now)), Read(q, Plain, fault, true))
      ensures enabled ==> hits + misses == old(hits + misses) + 1
                          && (hits == old(hits) + 1 <==> Cached(world, old(At(now)), q, Plain).Some?)
    {
      hide M.Live, M.Without, SweepAll, Key, Cached, Apply, ReadValue;
      if !enabled {
        return if fault then Fault else Ok(world.answer(q, data));
      }
      var found := cache.Get(key, now);
      CachedBy(world, old(At(now)), q, Plain, found);
      ReadBy(world, old(At(now)), q, Plain, fault);
      if found.Some? {
        var result := world.decode(found.value);
        if result.Some? {
          hits := hits + 1;
          return Ok(result.value);
        }
      }
      misses := misses + 1;
      if fault {
        return Fault;
      }
      var answer := world.answer(q, data);
      cache.Set(key, world.encode(answer), ttl, now);
      return Ok(answer);
    }

    method CachedFetchPtr(q: Query, key: string, ttl: int, now: int, fault: bool) returns (r: Fetched<A>)
      requires key == Key(q)
      modifies this`hits, this`misses, cache
      ensures !enabled ==>
        cache.entries == old(cache.entries) && r == if fault then Fault else Ok(world.answer(q, data))
      ensures enabled ==> r == ReadValue(world, old(At(now)), q, Nilable, fault)
      ensures enabled ==> At(now) == Apply(world, old(At(now)), Read(q, Nilable, fault, true))
      ensures enabled ==> hits + misses == old(hits + misses) + 1
                          && (hits == old(hits) + 1 <==> Cached(world, old(At(now)), q, Nilable).Some?)
    {
      hide M.Live, M.Without, SweepAll, Key, Cached, Apply, ReadValue;
      if !enabled {
        return if fault then Fault else Ok(world.answer(q, data));
      }
      var found := cache.Get(key, now);
      CachedBy(world, old(At(now)), q, Nilable, found);
      ReadBy(world, old(At(now)), q, Nilable, fault);
      if found.Some? {
        var result := world.decode(found.value);
        // A stored nil is a miss.
        if result.Some? && !world.missing(result.value) {
          hits := hits + 1;
          return Ok(result.value);
        }
      }
      misses := misses + 1;
      if fault {
        return Fault;
      }
      var answer := world.answer(q, data);
      if !world.missing(answer) {
        cache.Set(key, world.encode(answer), ttl, now);
      }
      return Ok(answer);
    }

    method CachedFetchSlice(q: Query, key: string, ttl: int, now: int, fault: bool) returns (r: Fetched<A>)
      requires key == Key(q)
      modifies this`hits, this`misses, cache
      ensures !enabled ==>
        cache.entries == old(cache.entries) && r == if fault then Fault else Ok(world.answer(q, data))
      ensures enabled ==> r == ReadValue(world, old(At(now)), q, Slice, fault)
      ensures enabled ==> At(now) == Apply(world, old(At(now)), Read(q, Slice, fault, true))
      ensures enabled ==> hits + misses == old(hits + misses) + 1
                          && (hits == old(hits) + 1 <==> Cached(world, old(At(now)), q, Slice).Some?)
    {
      hide M.Live, M.Without, SweepAll, Key, Cached, Apply, ReadValue;
      if !enabled {
        return if fault then Fault else Ok(world.answer(q, data));
      }
      var found := cache.Get(key, now);
      CachedBy(world, old(At(now)), q, Slice, found);
      ReadBy(world, old(At(now)), q, Slice, fault);
      if found.Some? {
        var result := world.decode(found.value);
        if result.Some? {
          hits := hits + 1;
          return Ok(result.value);
        }
      }
      misses := misses + 1;
      if fault {
        return Fault;
      }
      var answer := world.answer(q, data);
      if !world.missing(answer) {
        cache.Set(key, world.encode(answer), ttl, now);
      }
      return Ok(answer);
    }

    // InvalidateAfterImport with clearAll false; recent: the nodelist is less
    // than seven days old.
    method InvalidateAfterImport(recent: bool)
      modifies cache
      ensures !enabled ==> cache.entries == old(cache.entries)
      ensures enabled ==> forall t :: M.Live(cache.entries, t) == SweepAll(M.Live(old(cache.entries), t), recent)
    {
      hide M.Live, M.Without;
      if !enabled {
        return;
      }
      var ok := cache.DeleteByPrefix(SweepPrefix("stats"));
      ok := cache.DeleteByPrefix(SweepPrefix("search"));
      ok := cache.DeleteByPrefix(SweepPrefix("dates"));
      ok := cache.DeleteByPrefix(SweepPrefix("analytics"));
      if recent {
        ok := cache.DeleteByPrefix(SweepPrefix("sysops"));
      }
    }

    // newData is the database once these nodes are in it.
    method InsertNodes(newData: D, nodes: nat, failed: bool, recent: bool, now: int) returns (ok: bool)
      requires nodes == 0 ==> newData == data
      modifies this`data, cache
      ensures ok == !failed
      ensures enabled ==> At(now) == Apply(world, old(At(now)), Insert(newData, failed, nodes, recent))
    {
      if failed {
        return false;
      }
      data := newData;
      if nodes > 0 {
        InvalidateAfterImport(recent);
      }
      return true;
    }
  }
}
