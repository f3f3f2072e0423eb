/** Runs of uninterrupted reads and inserts, with entries lost in between: they
    store nothing late, and every family that each insert sweeps is always
    transparent (internal/storage/cached_storage.go:160-264,
    internal/storage/cached_storage_nodes.go:87-97). */
module AtomicRuns {
  import opened CacheKeys
  import opened CachedReads
  import opened Catalogue
  import opened Transparency

  datatype Act<D> = Do(step: Step<D>) | Forget(keys: set<string>)

  function Perform<D, A>(w: World<D, A>, s: State<D>, a: Act<D>): State<D> {
    match a
    case Do(step) => Apply(w, s, step)
    case Forget(keys) => s.(cache := s.cache - keys)
  }

  function PerformAll<D, A>(w: World<D, A>, s: State<D>, acts: seq<Act<D>>): State<D>
    decreases |acts|
  {
    if acts == [] then s else PerformAll(w, Perform(w, s, acts[0]), acts[1..])
  }

  function EventsOf<D>(a: Act<D>): seq<Event<D>> {
    match a
    case Do(Read(q, helper, fault, stored)) => [Begin(0, q, helper, fault), Fill(0, stored)]
    case Do(Insert(data, failed, nodes, recent)) => if failed || nodes == 0 then [] else [Write(data)] + Sweeps(recent)
    case Forget(keys) => [Lose(keys)]
  }

  function AllEvents<D>(acts: seq<Act<D>>): seq<Event<D>> {
    if acts == [] then [] else EventsOf(acts[0]) + AllEvents(acts[1..])
  }

  // If the act is an insert that does something, it sweeps the family.
  predicate SweepsIfInsert<D>(a: Act<D>, family: string) {
    a.Do? && a.step.Insert? && !a.step.failed && a.step.nodes > 0 ==> Swept(family, a.step.recent)
  }

  predicate AllSweep<D>(acts: seq<Act<D>>, family: string) {
    forall i :: 0 <= i < |acts| ==> SweepsIfInsert(acts[i], family)
  }

  // Reads of the family are of well-formed queries.
  predicate AllReadsFormed<D>(acts: seq<Act<D>>, family: string, names: set<string>) {
    forall i :: 0 <= i < |acts| && acts[i].Do? && acts[i].step.Read? && Family(acts[i].step.query) == family ==>
      WellFormed(acts[i].step.query, names)
  }

  /******* Events one after the other *******/

  lemma {:induction false} ExecAppend<D, A>(w: World<D, A>, s: System<D, A>, a: seq<Event<D>>, b: seq<Event<D>>)
    ensures Exec(w, s, a + b) == Exec(w, Exec(w, s, a), b)
    decreases |a|
  {
    hide Happen;
    if a == [] {
      assert a + b == b;
    } else {
      ExecAppend(w, Happen(w, s, a[0]), a[1..], b);
      assert (a + b)[0] == a[0] && (a + b)[1..] == a[1..] + b;
    }
  }

  lemma {:induction false} NeverLateAppend<D, A>(w: World<D, A>, s: System<D, A>, a: seq<Event<D>>,
                                                 b: seq<Event<D>>, family: string)
    ensures NeverLate(w, s, a + b, family)
       <==> NeverLate(w, s, a, family) && NeverLate(w, Exec(w, s, a), b, family)
    decreases |a|
  {
    hide Happen, Late;
    if a == [] {
      assert a + b == b;
    } else {
      NeverLateAppend(w, Happen(w, s, a[0]), a[1..], b, family);
      assert (a + b)[0] == a[0] && (a + b)[1..] == a[1..] + b;
    }
  }

  lemma {:induction false} NoStoreNeverLate<D, A>(w: World<D, A>, s: System<D, A>, run: seq<Event<D>>, family: string)
    requires forall i :: 0 <= i < |run| ==> !run[i].Fill?
    ensures NeverLate(w, s, run, family)
    decreases |run|
  {
    hide Happen;
    if run != [] {
      NoStoreNeverLate(w, Happen(w, s, run[0]), run[1..], family);
    }
  }

  /******* One act *******/

  // Between acts nothing is pending.
  ghost predicate ActAsEvents<D, A>(w: World<D, A>, s: System<D, A>, a: Act<D>, family: string) {
    var t := Exec(w, s, EventsOf(a));
    && View(t) == Perform(w, View(s), a) && t.pending == map[]
    && NeverLate(w, s, EventsOf(a), family)
    && (Clean(s, family) && SweepsIfInsert(a, family) ==> Clean(t, family))
  }

  lemma ReadAct<D, A>(w: World<D, A>, s: System<D, A>, a: Act<D>, family: string)
    requires s.pending == map[] && a.Do? && a.step.Read?
    ensures ActAsEvents(w, s, a, family)
  {
    var q, helper, fault, stored := a.step.query, a.step.helper, a.step.fault, a.step.stored;
    var run: seq<Event<D>> := [Begin(0, q, helper, fault), Fill(0, stored)];
    ReadIsBeginFill(w, s, 0, q, helper, fault, stored);
    ExecPair(w, s, run);
    hide Key, Cached, Exec, Apply, Family;
    var s1 := Happen(w, s, run[0]);
    assert EventsOf(a) == run;
    assert !Late(w, s, run[0], family) && !Late(w, s1, run[1], family);
    NeverLatePair(w, s, run, family);
  }

  lemma NeverLatePair<D, A>(w: World<D, A>, s: System<D, A>, run: seq<Event<D>>, family: string)
    requires |run| == 2 && !Late(w, s, run[0], family) && !Late(w, Happen(w, s, run[0]), run[1], family)
    ensures NeverLate(w, s, run, family)
  {
    hide Late, Happen;
    var rest := run[1..];
    assert rest[0] == run[1] && rest[1..] == [];
    assert NeverLate(w, Happen(w, s, run[0]), rest, family);
  }

  lemma InsertAct<D, A>(w: World<D, A>, s: System<D, A>, a: Act<D>, family: string)
    requires s.pending == map[] && a.Do? && a.step.Insert?
    ensures ActAsEvents(w, s, a, family)
  {
    if !a.step.failed && a.step.nodes > 0 {
      hide Sweeps, Exec, SweepAll, Swept;
      InsertIsWriteSweeps(w, s, a.step.data, a.step.nodes, a.step.recent);
      SweepsAreSweeps<D>(a.step.recent);
      OthersKeepPending(w, s, EventsOf(a));
      NoStoreNeverLate(w, s, EventsOf(a), family);
    }
  }

  lemma OneAct<D, A>(w: World<D, A>, s: System<D, A>, a: Act<D>, family: string)
    requires s.pending == map[]
    ensures ActAsEvents(w, s, a, family)
  {
    if a.Do? && a.step.Read? {
      ReadAct(w, s, a, family);
    } else if a.Do? {
      InsertAct(w, s, a, family);
    } else {
      ForgetAct(w, s, a, family);
    }
  }

  lemma ForgetAct<D, A>(w: World<D, A>, s: System<D, A>, a: Act<D>, family: string)
    requires s.pending == map[] && a.Forget?
    ensures ActAsEvents(w, s, a, family)
  {
    var run: seq<Event<D>> := [Lose(a.keys)];
    assert run[1..] == [];
  }

  /******* Main results *******/

  // Uninterrupted reads and inserts are a run of events with the same outcome, and
  // it never stores late.
  lemma {:induction false} AtomicRunsAreNeverLate<D, A>(w: World<D, A>, s: System<D, A>, acts: seq<Act<D>>,
                                                        family: string)
    requires s.pending == map[]
    ensures NeverLate(w, s, AllEvents(acts), family)
    ensures View(Exec(w, s, AllEvents(acts))) == PerformAll(w, View(s), acts)
    ensures Clean(s, family) && AllSweep(acts, family) ==> Clean(Exec(w, s, AllEvents(acts)), family)
    decreases |acts|
  {
    hide EventsOf, Perform, NeverLate, Exec, Clean, SweepsIfInsert;
    if acts == [] {
      NoActs(w, s, family);
    } else {
      OneAct(w, s, acts[0], family);
      var t := Exec(w, s, EventsOf(acts[0]));
      AtomicRunsAreNeverLate(w, t, acts[1..], family);
      ExecAppend(w, s, EventsOf(acts[0]), AllEvents(acts[1..]));
      NeverLateAppend(w, s, EventsOf(acts[0]), AllEvents(acts[1..]), family);
    }
  }

  lemma NoActs<D, A>(w: World<D, A>, s: System<D, A>, family: string)
    ensures Exec(w, s, []) == s && NeverLate(w, s, [], family)
  {}

  lemma {:induction false} EventsFormed<D>(acts: seq<Act<D>>, family: string, names: set<string>)
    requires AllReadsFormed(acts, family, names)
    ensures AllFormed(AllEvents(acts), family, names)
    decreases |acts|
  {
    hide WellFormed, Family, EventsOf, Formed;
    if acts != [] {
      assert forall i :: 0 <= i < |acts| - 1 ==> acts[1..][i] == acts[i + 1];
      EventsFormed(acts[1..], family, names);
      ActFormed(acts[0], family, names);
    }
  }

  lemma ActFormed<D>(a: Act<D>, family: string, names: set<string>)
    requires a.Do? && a.step.Read? && Family(a.step.query) == family ==> WellFormed(a.step.query, names)
    ensures AllFormed(EventsOf(a), family, names)
  {
    hide WellFormed, Family;
  }

  // Every insert that does something is of a recent nodelist.
  predicate AllRecent<D>(acts: seq<Act<D>>) {
    forall i :: 0 <= i < |acts| && acts[i].Do? && acts[i].step.Insert? ==>
      acts[i].step.failed || acts[i].step.nodes == 0 || acts[i].step.recent
  }

  predicate NoInsert<D>(acts: seq<Act<D>>) {
    forall i :: 0 <= i < |acts| && acts[i].Do? ==> acts[i].step.Read?
  }

  // So after any such run a read by any helper returns what an uncached read
  // returns now: always in the stats, search, dates and analytics families, in
  // sysops when the inserts are recent, and in the others without an insert.
  lemma AtomicRunsAreTransparent<D, A(!new)>(w: World<D, A>, data: D, acts: seq<Act<D>>,
                                             q: Query, helper: Helper, fault: bool)
    requires RoundTrips(w) && AllReadsFormed(acts, Family(q), Names()) && WellFormed(q, Names())
    requires Family(q) in {"stats", "search", "dates", "analytics"}
             || (Family(q) == "sysops" && AllRecent(acts)) || NoInsert(acts)
    ensures var s := PerformAll(w, State(data, map[]), acts);
      var r := ReadValue(w, s, q, helper, fault);
      r == Ok(w.answer(q, s.data)) || (fault && r == Fault)
  {
    hide RoundTrips, AllFormed, Names, WellFormed, Family, NeverLate, Exec, AllEvents, PerformAll, ReadValue;
    SweptFamilies();
    assert AllSweep(acts, Family(q));
    EventsFormed(acts, Family(q), Names());
    AtomicRunsAreNeverLate(w, Start(data), acts, Family(q));
    CachingIsTransparent(w, data, AllEvents(acts), q, helper, fault);
  }
}
