/** Caching does not change what a read returns, over every run in which queries,
    stores of their answers, database writes and sweeps interleave
    (internal/storage/cached_storage.go:160-258,
    internal/storage/cached_storage_invalidation.go:78-123,
    internal/storage/cached_storage_nodes.go:87-97). */
module Transparency {
  import opened Text
  import opened CacheKeys
  import opened CachedReads
  import opened Catalogue
  import M = MemoryCache

  // A query answered whose answer is not yet in the cache.
  datatype Pending<+A> = Pending(query: Query, helper: Helper, answer: A)

  // swept: the families swept since the last write, once there was one.
  datatype System<D, +A> = System(data: D, cache: map<string, M.Bytes>, pending: map<nat, Pending<A>>,
                                  written: bool, swept: set<string>)

  // A cached read is Begin and Fill; an insert is Write and a Sweep for each
  // family, any of which may fail to happen.
  datatype Event<D> =
    | Begin(reader: nat, query: Query, helper: Helper, fault: bool)
    | Fill(reader: nat, stored: bool)
    | Write(data: D)
    | Sweep(family: string)
    | Lose(keys: set<string>)

  function View<D, A>(s: System<D, A>): State<D> {
    State(s.data, s.cache)
  }

  function Start<D, A>(data: D): System<D, A> {
    System(data, map[], map[], false, {})
  }

  function Stored<D, A>(w: World<D, A>, cache: map<string, M.Bytes>, p: Pending<A>): map<string, M.Bytes> {
    if Storable(w, p.helper, p.answer) then cache[Key(p.query) := w.encode(p.answer)] else cache
  }

  function Happen<D, A>(w: World<D, A>, s: System<D, A>, e: Event<D>): System<D, A> {
    match e
    case Begin(r, q, helper, fault) =>
      if Cached(w, View(s), q, helper).None? && !fault
      then s.(pending := s.pending[r := Pending(q, helper, w.answer(q, s.data))])
      else s
    case Fill(r, stored) =>
      if r !in s.pending then s
      else s.(cache := if stored then Stored(w, s.cache, s.pending[r]) else s.cache, pending := s.pending - {r})
    case Write(data) => s.(data := data, written := true, swept := {})
    case Sweep(f) => s.(cache := M.Without(s.cache, SweepPrefix(f)), swept := s.swept + {f})
    case Lose(keys) => s.(cache := s.cache - keys)
  }

  function Exec<D, A>(w: World<D, A>, s: System<D, A>, run: seq<Event<D>>): System<D, A>
    decreases |run|
  {
    if run == [] then s else Exec(w, Happen(w, s, run[0]), run[1..])
  }

  /******* Reads and inserts as events *******/

  // A read that nothing interrupts is its two events.
  lemma ReadIsBeginFill<D, A>(w: World<D, A>, s: System<D, A>, r: nat, q: Query, helper: Helper,
                              fault: bool, stored: bool)
    requires r !in s.pending
    ensures var t := Exec(w, s, [Begin(r, q, helper, fault), Fill(r, stored)]);
      View(t) == Apply(w, View(s), Read(q, helper, fault, stored)) && t.pending == s.pending
  {
    var run: seq<Event<D>> := [Begin(r, q, helper, fault), Fill(r, stored)];
    ExecPair(w, s, run);
    hide Key, Cached;
    var s1 := Happen(w, s, run[0]);
    assert s1.pending - {r} == s.pending - {r} == s.pending;
  }

  // Time passing is a loss of the entries that expire.
  lemma TimeIsALoss<D, A>(w: World<D, A>, s: System<D, A>, entries: map<string, M.Entry>, now: int, later: int)
    returns (lost: set<string>)
    requires now <= later && s.cache == M.Live(entries, now)
    ensures Happen(w, s, Lose(lost)) == s.(cache := M.Live(entries, later))
  {
    lost := set k | k in entries && M.Expired(entries[k], later);
    assert s.cache - lost == M.Live(entries, later);
  }

  // So is dropping keys that were found expired, even if other readers have set
  // them again since.
  lemma DropIsALoss<D, A>(w: World<D, A>, s: System<D, A>, entries: map<string, M.Entry>, keys: set<string>, now: int)
    requires s.cache == M.Live(entries, now)
    ensures Happen(w, s, Lose(keys)) == s.(cache := M.Live(entries - keys, now))
  {
    assert s.cache - keys == M.Live(entries - keys, now);
  }

  function Sweeps<D>(recent: bool): seq<Event<D>> {
    [Sweep("stats"), Sweep("search"), Sweep("dates"), Sweep("analytics")] + if recent then [Sweep("sysops")] else []
  }

  // An insert that nothing interrupts is its write and its sweeps.
  lemma InsertIsWriteSweeps<D, A>(w: World<D, A>, s: System<D, A>, data: D, nodes: nat, recent: bool)
    requires nodes > 0
    ensures var t := Exec(w, s, [Write(data)] + Sweeps(recent));
      View(t) == Apply(w, View(s), Insert(data, false, nodes, recent))
      && forall f :: f in t.swept <==> Swept(f, recent)
  {
    hide M.Without, SweepPrefix, Exec;
    var run: seq<Event<D>> := [Write(data)] + Sweeps(recent);
    assert run[0..] == run && run[5..] == if recent then [Sweep("sysops")] else [];
    var s1 := Happen(w, s, run[0]);
    ExecStep(w, s, run, 0);
    FourSweeps(w, s1, run);
    var s5 := s1.(cache := SweepAll(s1.cache, false), swept := {"stats", "search", "dates", "analytics"});
    SweptFamilies();
    ExecNothing(w, s5);
    if recent {
      var s6 := Happen(w, s5, run[5]);
      ExecStep(w, s5, run, 5);
      assert run[6..] == [];
      ExecNothing(w, s6);
      assert s6.cache == SweepAll(s1.cache, true);
      assert s6.swept == {"stats", "search", "dates", "analytics", "sysops"};
    }
  }

  lemma SweptFamilies()
    ensures forall f :: Swept(f, false) <==> f in {"stats", "search", "dates", "analytics"}
    ensures forall f :: Swept(f, true) <==> f in {"stats", "search", "dates", "analytics", "sysops"}
  {}

  lemma FourSweeps<D, A>(w: World<D, A>, s: System<D, A>, run: seq<Event<D>>)
    requires |run| >= 5 && run[1] == Sweep("stats") && run[2] == Sweep("search")
    requires run[3] == Sweep("dates") && run[4] == Sweep("analytics") && s.swept == {}
    ensures Exec(w, s, run[1..])
         == Exec(w, s.(cache := SweepAll(s.cache, false), swept := {"stats", "search", "dates", "analytics"}), run[5..])
  {
    hide M.Without, SweepPrefix, Exec;
    var s2 := Happen(w, s, run[1]);
    var s3 := Happen(w, s2, run[2]);
    var s4 := Happen(w, s3, run[3]);
    ExecStep(w, s, run, 1);
    ExecStep(w, s2, run, 2);
    ExecStep(w, s3, run, 3);
    ExecStep(w, s4, run, 4);
    var s5 := Happen(w, s4, run[4]);
    assert s5.cache == SweepAll(s.cache, false);
    assert s5.swept == {"stats", "search", "dates", "analytics"};
  }

  lemma ExecNothing<D, A>(w: World<D, A>, s: System<D, A>)
    ensures Exec(w, s, []) == s
  {}

  lemma ExecPair<D, A>(w: World<D, A>, s: System<D, A>, run: seq<Event<D>>)
    requires |run| == 2
    ensures Exec(w, s, run) == Happen(w, Happen(w, s, run[0]), run[1])
  {
    hide Happen;
    ExecStep(w, s, run, 0);
    ExecStep(w, Happen(w, s, run[0]), run, 1);
    assert run[0..] == run && run[2..] == [];
  }

  lemma ExecStep<D, A>(w: World<D, A>, s: System<D, A>, run: seq<Event<D>>, i: nat)
    requires i < |run|
    ensures Exec(w, s, run[i..]) == Exec(w, Happen(w, s, run[i]), run[i + 1..])
  {
    hide Happen;
    assert run[i..][0] == run[i] && run[i..][1..] == run[i + 1..];
  }

  lemma {:induction false} OthersKeepPending<D, A>(w: World<D, A>, s: System<D, A>, run: seq<Event<D>>)
    requires forall i :: 0 <= i < |run| ==> run[i].Write? || run[i].Sweep? || run[i].Lose?
    ensures Exec(w, s, run).pending == s.pending
    decreases |run|
  {
    if run != [] {
      OthersKeepPending(w, Happen(w, s, run[0]), run[1..]);
    }
  }

  /******* What every event keeps *******/

  // The family was swept since the last write, or nothing was written.
  predicate Clean<D, A>(s: System<D, A>, family: string) {
    !s.written || family in s.swept
  }

  // The event stores an answer of a clean family that is not today's.
  ghost predicate Late<D, A>(w: World<D, A>, s: System<D, A>, e: Event<D>, family: string) {
    && Clean(s, family) && e.Fill? && e.stored && e.reader in s.pending
    && var p := s.pending[e.reader];
       && Family(p.query) == family && Storable(w, p.helper, p.answer)
       && p.answer != w.answer(p.query, s.data)
  }

  ghost predicate NeverLate<D, A>(w: World<D, A>, s: System<D, A>, run: seq<Event<D>>, family: string)
    decreases |run|
  {
    run != [] ==> !Late(w, s, run[0], family) && NeverLate(w, Happen(w, s, run[0]), run[1..], family)
  }

  // Unless the family is unclean, a cached read of it returns today's answer.
  ghost predicate ReadsCurrent<D, A>(w: World<D, A>, s: System<D, A>, family: string, names: set<string>) {
    Clean(s, family) ==> forall q :: WellFormed(q, names) && Family(q) == family ==> ReadsNow(w, s, q)
  }

  predicate ReadsNow<D, A(==)>(w: World<D, A>, s: System<D, A>, q: Query) {
    ReadValue(w, View(s), q, Plain, false) == Ok(w.answer(q, s.data))
  }

  // The same at every state of the run.
  ghost predicate AllReadsCurrent<D, A>(w: World<D, A>, s: System<D, A>, run: seq<Event<D>>, family: string,
                                        names: set<string>)
    decreases |run|
  {
    && ReadsCurrent(w, s, family, names)
    && (run != [] ==> AllReadsCurrent(w, Happen(w, s, run[0]), run[1..], family, names))
  }

  // Well-formed queries of the family, and sweeps of families.
  predicate Formed<D>(e: Event<D>, family: string, names: set<string>) {
    && (e.Begin? && Family(e.query) == family ==> WellFormed(e.query, names))
    && (e.Sweep? ==> ':' !in e.family)
  }

  predicate AllFormed<D>(run: seq<Event<D>>, family: string, names: set<string>) {
    forall i :: 0 <= i < |run| ==> Formed(run[i], family, names)
  }

  predicate PendingFormed<D, A>(s: System<D, A>, family: string, names: set<string>) {
    forall r :: r in s.pending && Family(s.pending[r].query) == family ==> WellFormed(s.pending[r].query, names)
  }

  // A read is current when its entry is missing, unreadable or today's.
  lemma ReadsNowIff<D, A>(w: World<D, A>, s: System<D, A>, q: Query)
    ensures ReadsNow(w, s, q) <==>
      (Key(q) in s.cache ==> w.decode(s.cache[Key(q)]) in {None, Some(w.answer(q, s.data))})
  {}

  lemma SameFamily(a: Query, b: Query)
    requires Key(a) == Key(b)
    ensures Family(a) == Family(b)
  {
    SameKeyIff(a, b);
  }

  lemma FillIff<D, A(!new)>(w: World<D, A>, s: System<D, A>, e: Event<D>, family: string, names: set<string>)
    requires RoundTrips(w) && PrefixFree(names) && e.Fill?
    requires ReadsCurrent(w, s, family, names) && PendingFormed(s, family, names)
    ensures ReadsCurrent(w, Happen(w, s, e), family, names) <==> !Late(w, s, e, family)
  {
    hide Key, WellFormed, PrefixFree, Family, ReadsNow;
    var t := Happen(w, s, e);
    if Clean(s, family) && e.reader in s.pending {
      var p := s.pending[e.reader];
      ReadsNowIff(w, t, p.query);
      if !Late(w, s, e, family) {
        forall q | WellFormed(q, names) && Family(q) == family ensures ReadsNow(w, t, q) {
          assert ReadsNow(w, s, q);
          ReadsNowIff(w, s, q);
          ReadsNowIff(w, t, q);
          if Key(q) == Key(p.query) {
            SameFamily(q, p.query);
            KeysInjective(q, p.query, names);
          }
        }
      }
    } else if Clean(s, family) {
      assert t == s;
    }
  }

  lemma OthersKeepCurrent<D, A>(w: World<D, A>, s: System<D, A>, e: Event<D>, family: string, names: set<string>)
    requires !e.Fill? && Formed(e, family, names) && ReadsCurrent(w, s, family, names)
    ensures ReadsCurrent(w, Happen(w, s, e), family, names)
  {
    hide Key, WellFormed, Family, SweepPrefix, ReadsNow;
    var t := Happen(w, s, e);
    if Clean(t, family) {
      forall q | WellFormed(q, names) && Family(q) == family ensures ReadsNow(w, t, q) {
        ReadsNowIff(w, s, q);
        ReadsNowIff(w, t, q);
        if e.Sweep? {
          SweepIff(q, e.family);
        }
      }
    }
  }

  // One event: the reads stay current exactly when it is not late.
  lemma EventIff<D, A(!new)>(w: World<D, A>, s: System<D, A>, e: Event<D>, family: string, names: set<string>)
    requires RoundTrips(w) && PrefixFree(names) && Formed(e, family, names)
    requires ReadsCurrent(w, s, family, names) && PendingFormed(s, family, names)
    ensures PendingFormed(Happen(w, s, e), family, names)
    ensures ReadsCurrent(w, Happen(w, s, e), family, names) <==> !Late(w, s, e, family)
  {
    hide Key, WellFormed, PrefixFree, Family, SweepPrefix, ReadsCurrent;
    if e.Fill? {
      FillIff(w, s, e, family, names);
    } else {
      OthersKeepCurrent(w, s, e, family, names);
    }
  }

  lemma {:induction false} RunIff<D, A(!new)>(w: World<D, A>, s: System<D, A>, run: seq<Event<D>>, family: string,
                                              names: set<string>)
    requires RoundTrips(w) && PrefixFree(names) && AllFormed(run, family, names)
    requires ReadsCurrent(w, s, family, names) && PendingFormed(s, family, names)
    ensures AllReadsCurrent(w, s, run, family, names) <==> NeverLate(w, s, run, family)
    ensures NeverLate(w, s, run, family) ==> ReadsCurrent(w, Exec(w, s, run), family, names)
    decreases |run|
  {
    hide ReadsCurrent, PendingFormed, Happen, RoundTrips, PrefixFree, Late, Formed;
    if run != [] {
      assert forall i :: 0 <= i < |run| - 1 ==> run[1..][i] == run[i + 1];
      EventIff(w, s, run[0], family, names);
      if !Late(w, s, run[0], family) {
        RunIff(w, Happen(w, s, run[0]), run[1..], family, names);
      } else {
        assert !AllReadsCurrent(w, Happen(w, s, run[0]), run[1..], family, names);
      }
    }
  }

  lemma StartsCurrent<D, A>(w: World<D, A>, data: D, family: string, names: set<string>)
    ensures ReadsCurrent(w, Start(data), family, names) && PendingFormed(Start<D, A>(data), family, names)
  {}

  /******* Main results *******/

  // From an empty cache, over any interleaving of queries, stores, writes, sweeps
  // and losses: at every moment at which a family is clean its cached reads return
  // what uncached reads return, exactly when no answer is stored late in it.
  lemma TransparentIff<D, A(!new)>(w: World<D, A>, data: D, run: seq<Event<D>>, family: string)
    requires RoundTrips(w) && AllFormed(run, family, Names())
    ensures AllReadsCurrent(w, Start(data), run, family, Names()) <==> NeverLate(w, Start(data), run, family)
  {
    hide RoundTrips, PrefixFree, AllFormed, Names, ReadsCurrent, PendingFormed, AllReadsCurrent, NeverLate;
    NamesPrefixFree();
    StartsCurrent(w, data, family, Names());
    RunIff(w, Start(data), run, family, Names());
  }

  // After a run that is never late in a family, a read of it by any helper returns
  // today's answer or the query's own fault, when the family is clean.
  lemma CachingIsTransparent<D, A(!new)>(w: World<D, A>, data: D, run: seq<Event<D>>,
                                         q: Query, helper: Helper, fault: bool)
    requires RoundTrips(w) && AllFormed(run, Family(q), Names()) && WellFormed(q, Names())
    requires NeverLate(w, Start(data), run, Family(q)) && Clean(Exec(w, Start(data), run), Family(q))
    ensures var s := Exec(w, Start(data), run);
      var r := ReadValue(w, View(s), q, helper, fault);
      r == Ok(w.answer(q, s.data)) || (fault && r == Fault)
  {
    hide RoundTrips, PrefixFree, AllFormed, Exec, WellFormed, Names, Key, Family, NeverLate;
    NamesPrefixFree();
    StartsCurrent(w, data, Family(q), Names());
    RunIff(w, Start(data), run, Family(q), Names());
    ReadsNowIff(w, Exec(w, Start(data), run), q);
  }

  /******* The conditions are needed *******/

  // A sweep leaves no key of a swept family, and touches no other.
  lemma SweptAway(cache: map<string, M.Bytes>, q: Query, recent: bool)
    ensures Key(q) in SweepAll(cache, recent) <==> Key(q) in cache && !Swept(Family(q), recent)
    ensures Key(q) in SweepAll(cache, recent) ==> SweepAll(cache, recent)[Key(q)] == cache[Key(q)]
  {
    hide Key, SweepPrefix, Family, SweepAll, M.Without, Swept;
    SweepIff(q, "stats");
    SweepIff(q, "search");
    SweepIff(q, "dates");
    SweepIff(q, "analytics");
    SweepIff(q, "sysops");
    SweepAllIff(cache, Key(q), recent);
    SweptFamilies();
  }

  lemma SweepAllIff(cache: map<string, M.Bytes>, k: string, recent: bool)
    ensures k in SweepAll(cache, recent) <==>
      && k in cache && !(SweepPrefix("stats") <= k) && !(SweepPrefix("search") <= k) && !(SweepPrefix("dates") <= k)
      && !(SweepPrefix("analytics") <= k) && (recent ==> !(SweepPrefix("sysops") <= k))
    ensures k in SweepAll(cache, recent) ==> SweepAll(cache, recent)[k] == cache[k]
  {
    hide SweepPrefix;
  }

  // A read outside the families that an insert sweeps keeps returning the answer
  // from before it.
  lemma UnsweptGoesStale<D, A(!new)>(w: World<D, A>, q: Query, before: D, after: D, nodes: nat, recent: bool)
    requires RoundTrips(w) && !Swept(Family(q), recent) && nodes > 0
    ensures var s := Exec(w, Start(before), [Begin(0, q, Plain, false), Fill(0, true)]);
      var t := Exec(w, s, [Write(after)] + Sweeps(recent));
      t.data == after && ReadValue(w, View(t), q, Plain, false) == Ok(w.answer(q, before))
  {
    hide Key, Family, SweepAll, Sweeps, Exec;
    var start: System<D, A> := Start(before);
    ReadIsBeginFill(w, start, 0, q, Plain, false, true);
    var s := Exec(w, start, [Begin(0, q, Plain, false), Fill(0, true)]);
    InsertIsWriteSweeps(w, s, after, nodes, recent);
    SweptAway(s.cache, q, recent);
    assert s.cache[Key(q)] == w.encode(w.answer(q, before));
  }

  // A query from before an insert whose answer is stored after it: every family
  // was swept, and the old answer stays in the cache.
  lemma SplitReadGoesStale<D, A(!new)>(w: World<D, A>, q: Query, before: D, after: D, recent: bool)
    requires RoundTrips(w)
    ensures var s := Happen(w, Start(before), Begin(0, q, Plain, false));
      var t := Happen(w, Exec(w, s, [Write(after)] + Sweeps(recent)), Fill(0, true));
      t.data == after && ReadValue(w, View(t), q, Plain, false) == Ok(w.answer(q, before))
  {
    hide Key, Family, SweepAll, Sweeps;
    var s := Happen(w, Start(before), Begin(0, q, Plain, false));
    InsertIsWriteSweeps(w, s, after, 1, recent);
    SweepsAreSweeps<D>(recent);
    OthersKeepPending(w, s, [Write(after)] + Sweeps(recent));
  }

  lemma SweepsAreSweeps<D>(recent: bool)
    ensures forall i :: 0 <= i < |Sweeps<D>(recent)| ==> Sweeps<D>(recent)[i].Sweep?
  {}
}
