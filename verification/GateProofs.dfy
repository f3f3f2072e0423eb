/** What the import gate guarantees over any sequence of runs, each possibly
    stopped at any effect (cmd/parser/pointlist.go:140-295). */
module GateProofs {
  import opened Text
  import opened ImportGate
  import opened Snapshot

  // No file is kept with an empty list of rows.
  predicate Compact(s: Store) {
    forall k :: k in s.rows ==> s.rows[k] != []
  }

  function SetRows(s: Store, k: Key, points: seq<Row>): Store {
    s.(rows := if points == [] then s.rows - {k} else s.rows[k := points])
  }

  // The store with exactly this file's points under its key, and gated.
  function Final(s: Store, r: Run): Store
    requires r.date.Some?
  {
    var k := KeyOf(r);
    SetRows(s, k, r.points).(gate := s.gate[k := GateRow(|r.points|)])
  }

  /******* One run *******/

  lemma FinalRows(t: Store, r: Run)
    requires r.date.Some?
    ensures var u, k := Final(t, r), KeyOf(r);
      RowsAt(u, k) == r.points && k in u.gate && u.gate - {k} == t.gate - {k} && u.rows - {k} == t.rows - {k}
  {}

  lemma {:induction false} InsertsAppend(s: Store, k: Key, points: seq<Row>, size: nat)
    requires Compact(s) && size > 0
    ensures PerformAll(s, Inserts(k, points, size)) == SetRows(s, k, RowsAt(s, k) + points)
    decreases |points|
  {
    if points == [] {
      assert RowsAt(s, k) + points == RowsAt(s, k);
    } else if |points| <= size {
      OneEffect(s, InsertRows(k, points));
    } else {
      var first, rest := points[..size], points[size..];
      var e := InsertRows(k, first);
      assert points == first + rest;
      OneChunk(s, k, first, rest);
      InsertsAppend(Perform(s, e), k, rest, size);
      hide PerformAll, Perform, SetRows;
      PerformAppend(s, [e], Inserts(k, rest, size));
      OneEffect(s, e);
    }
  }

  lemma OneChunk(s: Store, k: Key, first: seq<Row>, rest: seq<Row>)
    requires Compact(s) && first != []
    ensures var t := Perform(s, InsertRows(k, first));
      Compact(t) && SetRows(t, k, RowsAt(t, k) + rest) == SetRows(s, k, RowsAt(s, k) + (first + rest))
  {
    assert RowsAt(s, k) + first + rest == RowsAt(s, k) + (first + rest);
  }

  lemma CleaningClears(s: Store, k: Key, includeGate: bool)
    requires Compact(s)
    ensures PerformAll(s, Cleaning(s, k, includeGate))
            == Store(if includeGate then s.gate - {k} else s.gate, s.rows - {k})
  {
    assert [DropGate(k)][1..] == [] && [DropRows(k)][1..] == [];
    assert [DropGate(k), DropRows(k)][1..] == [DropRows(k)];
    var d := Store(s.gate - {k}, s.rows);
    assert PerformAll(s, [DropGate(k)]) == PerformAll(d, []) == d;
    assert PerformAll(s, [DropRows(k)]) == PerformAll(Perform(s, DropRows(k)), []);
    assert PerformAll(s, [DropGate(k), DropRows(k)]) == PerformAll(d, [DropRows(k)])
        == PerformAll(Perform(d, DropRows(k)), []);
    assert k !in s.rows ==> s.rows - {k} == s.rows;
    assert [DropGate(k)] + [DropRows(k)] == [DropGate(k), DropRows(k)];
    assert [DropGate(k)] + [] == [DropGate(k)] && [] + [DropRows(k)] == [DropRows(k)];
  }

  // A run that is not stopped leaves exactly its points under its key.
  lemma CompleteRun(s: Store, r: Run)
    requires Compact(s) && r.date.Some? && (Decide(s, r) == Go)
    ensures PerformAll(s, Plan(s, r)) == Final(s, r)
  {
    hide PerformAll, InsertsOf, Cleaning, Decide;
    var k := KeyOf(r);
    var gate := r.kind.PointlistFile? && r.kind.reimport && Imported(s, k);
    CleaningClears(s, k, gate);
    PerformAppend(s, Cleaning(s, k, gate) + InsertsOf(r), [AddGate(k, GateRow(|r.points|))]);
    PerformAppend(s, Cleaning(s, k, gate), InsertsOf(r));
    var t := PerformAll(s, Cleaning(s, k, gate));
    InsertsOfAppend(t, r);
    assert [] + r.points == r.points;
    OneEffect(PerformAll(t, InsertsOf(r)), AddGate(k, GateRow(|r.points|)));
  }

  lemma InsertsOfAppend(s: Store, r: Run)
    requires Compact(s) && r.date.Some?
    ensures PerformAll(s, InsertsOf(r)) == SetRows(s, KeyOf(r), RowsAt(s, KeyOf(r)) + r.points)
  {
    InsertsAppend(s, KeyOf(r), r.points, InsertSize(r.native, r.points));
  }

  lemma OneEffect(s: Store, e: Effect)
    ensures PerformAll(s, [e]) == Perform(s, e)
  {
    assert PerformAll(s, [e]) == PerformAll(Perform(s, e), [e][1..]);
  }

  // An effect on the key's rows, or the removal of its gate row.
  predicate Quiet(e: Effect, k: Key) {
    e.key == k && !e.AddGate?
  }

  lemma {:induction false} QuietEffects(s: Store, es: seq<Effect>, k: Key)
    requires Compact(s)
    requires forall i :: 0 <= i < |es| ==> Quiet(es[i], k)
    requires forall i :: 0 <= i < |es| && es[i].InsertRows? ==> es[i].chunk != []
    ensures var t := PerformAll(s, es);
      && Compact(t) && t.gate - {k} == s.gate - {k} && t.rows - {k} == s.rows - {k}
      && (k in t.gate ==> t.gate == s.gate) && (es != [] && es[0].DropGate? ==> k !in t.gate)
    decreases |es|
  {
    if es != [] {
      QuietEffects(Perform(s, es[0]), es[1..], k);
    }
  }

  lemma {:induction false} InsertsQuiet(k: Key, points: seq<Row>, size: nat)
    requires size > 0
    ensures forall e :: e in Inserts(k, points, size) ==> Quiet(e, k) && e.InsertRows? && e.chunk != []
    decreases |points|
  {
    if |points| > size {
      InsertsQuiet(k, points[size..], size);
    }
  }

  // A stopped run changes nothing outside its key, and the key is still gated
  // only if nothing has changed at all.
  lemma StoppedRun(s: Store, r: Run)
    requires Compact(s) && r.date.Some? && !Completes(s, r)
    ensures var t, k := After(s, r), KeyOf(r);
      && Compact(t) && t.gate - {k} == s.gate - {k} && t.rows - {k} == s.rows - {k}
      && (k in t.gate ==> t == s)
  {
    if Decide(s, r) == Go {
      var k, plan := KeyOf(r), Plan(s, r);
      InsertsQuiet(k, r.points, InsertSize(r.native, r.points));
      var es := plan[..r.crashAfter];
      hide Inserts, Decide, PerformAll;
      QuietEffects(s, es, k);
      if Imported(s, k) && es != [] {
        ImportedGo(s, r);
        assert es[0] == DropGate(k);
      }
      if es == [] {
        NothingRan(s, 0);
      } else if !Imported(s, k) {
        assert k !in PerformAll(s, es).gate;
      }
    }
  }

  lemma ImportedGo(s: Store, r: Run)
    requires Decide(s, r) == Go && Imported(s, KeyOf(r))
    ensures r.kind.PointlistFile? && r.kind.reimport && Plan(s, r)[0] == DropGate(KeyOf(r))
  {}

  lemma RunKeepsCompact(s: Store, r: Run)
    requires Compact(s)
    ensures Compact(After(s, r))
  {
    if r.date.None? {
      NothingRan(s, 0);
    } else if Completes(s, r) {
      WholePlan(s, r);
    } else {
      StoppedRun(s, r);
    }
  }

  lemma WholePlan(s: Store, r: Run)
    requires Compact(s) && Completes(s, r)
    ensures After(s, r) == Final(s, r)
  {
    CompleteRun(s, r);
    assert Plan(s, r)[..|Plan(s, r)|] == Plan(s, r);
  }

  /******* When a run must go ahead *******/

  // The run may store its points: dated, and for a pointlist not there yet or a
  // reimport, with points or forced, and forced, only warned about, without a
  // counted neighbour, or at least half of it; for a nodelist not there yet, and
  // with points, gated for its own sake, or in a series that exists.
  predicate MayStore(s: Store, r: Run) {
    && r.date.Some?
    && match r.kind
       case PointlistFile(reimport, force, shrinkWarn) =>
         && (KeyOf(r) !in s.gate || reimport)
         && (r.points != [] || force)
         && (force || shrinkWarn || r.near.None? || r.near.value.count == 0
             || 2 * |r.points| >= r.near.value.count)
       case NodelistIssue(alwaysGate) =>
         KeyOf(r) !in s.gate && (r.points != [] || alwaysGate || r.near.Some?)
  }

  // An uninterrupted run leaves its key gated with exactly its points, and nothing
  // else changed, when it may; otherwise the store stays as it is.
  lemma StoresIffItMay(s: Store, r: Run)
    requires Compact(s) && r.crashAfter >= |r.points| + 3
    ensures MayStore(s, r) ==> After(s, r) == Final(s, r) && Completes(s, r)
    ensures !MayStore(s, r) ==> After(s, r) == s && !Completes(s, r)
  {
    if Decide(s, r) == Go {
      FewEffects(s, r);
      WholePlan(s, r);
    } else {
      SkippedRun(s, r);
    }
  }

  lemma FewEffects(s: Store, r: Run)
    requires r.date.Some?
    ensures |Plan(s, r)| <= |r.points| + 3
  {
    FewInserts(KeyOf(r), r.points, InsertSize(r.native, r.points));
  }

  lemma {:induction false} FewInserts(k: Key, points: seq<Row>, size: nat)
    requires size > 0
    ensures |Inserts(k, points, size)| <= |points|
    decreases |points|
  {
    if |points| > size {
      FewInserts(k, points[size..], size);
    }
  }

  // The rows of the inserts, and how many each has.
  function RowsIn(es: seq<Effect>): seq<Row> {
    if es == [] then [] else (if es[0].InsertRows? then es[0].chunk else []) + RowsIn(es[1..])
  }

  // The native connection takes the points in order, 5000 at a time and the rest
  // last; the other one takes them all at once.
  lemma ChunksAreFull(r: Run, i: nat)
    requires r.date.Some? && i < |InsertsOf(r)|
    ensures RowsIn(InsertsOf(r)) == r.points && InsertsOf(r)[i].InsertRows? && InsertsOf(r)[i].key == KeyOf(r)
    ensures r.native ==>
      |InsertsOf(r)[i].chunk| == if i < |InsertsOf(r)| - 1 then 5000 else |r.points| - 5000 * i
    ensures !r.native ==> |InsertsOf(r)| == 1
  {
    ChunksOf(KeyOf(r), r.points, InsertSize(r.native, r.points), i);
  }

  lemma {:induction false} ChunksOf(k: Key, points: seq<Row>, size: nat, i: nat)
    requires size > 0 && i < |Inserts(k, points, size)|
    ensures var es := Inserts(k, points, size);
      && RowsIn(es) == points && es[i].InsertRows? && es[i].key == k
      && |es[i].chunk| == (if i < |es| - 1 then size else |points| - size * i)
      && (|points| <= size ==> |es| == 1)
    decreases |points|
  {
    var es := Inserts(k, points, size);
    if |points| > size {
      var rest := Inserts(k, points[size..], size);
      assert es[1..] == rest && es[0] == InsertRows(k, points[..size]);
      assert points == points[..size] + points[size..];
      ChunksOf(k, points[size..], size, if i > 0 then i - 1 else 0);
      if i > 0 {
        assert es[i] == rest[i - 1];
        OneMoreChunk(size, i);
      }
    } else {
      assert RowsIn(es[1..]) == [] && points + [] == points;
    }
  }

  lemma OneMoreChunk(size: nat, i: nat)
    requires i > 0
    ensures size * i == size * (i - 1) + size
  {}

  /******* A gate row means a complete file *******/

  function AfterAll(s: Store, runs: seq<Run>): Store
    decreases |runs|
  {
    if runs == [] then s else After(AfterAll(s, runs[..|runs| - 1]), runs[|runs| - 1])
  }

  // Run i got as far as registering the file with this key.
  predicate Registers(s: Store, runs: seq<Run>, i: nat, k: Key) {
    i < |runs| && Completes(AfterAll(s, runs[..i]), runs[i]) && KeyOf(runs[i]) == k
  }

  // The rows and the count of the key are those of run i, the last to register it.
  ghost predicate BackedBy(s: Store, runs: seq<Run>, k: Key, i: nat) {
    var t := AfterAll(s, runs);
    && Registers(s, runs, i, k)
    && RowsAt(t, k) == runs[i].points && k in t.gate && t.gate[k] == GateRow(|runs[i].points|)
    && forall j :: i < j < |runs| ==> !Registers(s, runs, j, k)
  }

  lemma {:induction false} AllCompact(s: Store, runs: seq<Run>)
    requires Compact(s)
    ensures Compact(AfterAll(s, runs))
    decreases |runs|
  {
    if runs != [] {
      AllCompact(s, runs[..|runs| - 1]);
      RunKeepsCompact(AfterAll(s, runs[..|runs| - 1]), runs[|runs| - 1]);
    }
  }

  // Over any runs, each possibly stopped at any effect: a gate row implies that
  // the stored rows are exactly the points of the file whose run registered it.
  lemma {:induction false} GateMeansComplete(s: Store, runs: seq<Run>, k: Key)
    requires Compact(s) && k !in s.gate && k in AfterAll(s, runs).gate
    ensures exists i: nat :: BackedBy(s, runs, k, i)
    decreases |runs|
  {
    hide After, Completes;
    var before, n := runs[..|runs| - 1], |runs| - 1;
    var t, r := AfterAll(s, before), runs[n];
    assert AfterAll(s, runs) == After(t, r);
    AllCompact(s, before);
    if Completes(t, r) && KeyOf(r) == k {
      WholePlan(t, r);
      assert BackedBy(s, runs, k, n);
    } else {
      KeyUntouched(t, r, k);
      GateMeansComplete(s, before, k);
      var i: nat :| BackedBy(s, before, k, i);
      StillBacked(s, runs, k, i);
    }
  }

  lemma StillBacked(s: Store, runs: seq<Run>, k: Key, i: nat)
    requires runs != []
    requires var before, r := runs[..|runs| - 1], runs[|runs| - 1];
      var t := AfterAll(s, before);
      && BackedBy(s, before, k, i) && !(Completes(t, r) && KeyOf(r) == k)
      && RowsAt(After(t, r), k) == RowsAt(t, k) && k in After(t, r).gate && After(t, r).gate[k] == t.gate[k]
    ensures BackedBy(s, runs, k, i)
  {
    hide After, Completes, KeyOf, RowsAt;
    var before, n := runs[..|runs| - 1], |runs| - 1;
    assert AfterAll(s, runs) == After(AfterAll(s, before), runs[n]);
    hide AfterAll;
    forall j: nat | j < n ensures Registers(s, runs, j, k) == Registers(s, before, j, k) {
      assert before[..j] == runs[..j];
    }
    assert !Registers(s, runs, n, k);
  }

  // A run that does not register the key, and leaves it gated, leaves its rows alone.
  lemma KeyUntouched(t: Store, r: Run, k: Key)
    requires Compact(t) && k in After(t, r).gate
    requires !(Completes(t, r) && KeyOf(r) == k)
    ensures k in t.gate && After(t, r).gate[k] == t.gate[k] && RowsAt(After(t, r), k) == RowsAt(t, k)
  {
    hide After, Completes;
    if r.date.None? {
      DatelessRun(t, r);
    } else if Completes(t, r) {
      WholePlan(t, r);
    } else {
      StoppedRun(t, r);
      OutsideKey(t, After(t, r), KeyOf(r), k);
    }
  }

  lemma DatelessRun(t: Store, r: Run)
    requires r.date.None?
    ensures After(t, r) == t && !Completes(t, r)
  {}

  lemma OutsideKey(s: Store, t: Store, k: Key, other: Key)
    requires t.gate - {k} == s.gate - {k} && t.rows - {k} == s.rows - {k}
    ensures other != k ==> RowsAt(t, other) == RowsAt(s, other)
    ensures other != k ==>
      (other in t.gate <==> other in s.gate) && (other in t.gate ==> t.gate[other] == s.gate[other])
  {
    if other != k {
      assert other in t.rows <==> other in t.rows - {k};
      assert other in s.rows <==> other in s.rows - {k};
      assert other in t.rows ==> (t.rows - {k})[other] == t.rows[other];
      assert other in s.rows ==> (s.rows - {k})[other] == s.rows[other];
      assert other in t.gate <==> other in t.gate - {k};
      assert other in s.gate <==> other in s.gate - {k};
      assert other in t.gate ==> (t.gate - {k})[other] == t.gate[other];
      assert other in s.gate ==> (s.gate - {k})[other] == s.gate[other];
    }
  }

  /******* What the checks keep out *******/

  // A run that may replace what is already imported.
  predicate Replaces(r: Run) {
    r.kind.PointlistFile? && r.kind.reimport
  }

  // Without -reimport an imported file is never touched again, whatever is run.
  lemma {:induction false} GatedFileStays(s: Store, runs: seq<Run>, k: Key)
    requires Compact(s) && k in s.gate
    requires forall i :: 0 <= i < |runs| && runs[i].date.Some? && KeyOf(runs[i]) == k ==> !Replaces(runs[i])
    ensures var t := AfterAll(s, runs);
      k in t.gate && t.gate[k] == s.gate[k] && RowsAt(t, k) == RowsAt(s, k)
    decreases |runs|
  {
    if runs != [] {
      var before, r := runs[..|runs| - 1], runs[|runs| - 1];
      GatedFileStays(s, before, k);
      AllCompact(s, before);
      var t := AfterAll(s, before);
      hide AfterAll, After, Completes, Plan;
      if r.date.None? {
        DatelessRun(t, r);
      } else if KeyOf(r) == k {
        SkippedRun(t, r);
      } else if Completes(t, r) {
        WholePlan(t, r);
      } else {
        StoppedRun(t, r);
        OutsideKey(t, After(t, r), KeyOf(r), k);
      }
    }
  }

  // A pointlist run with every check on.
  predicate Strict(r: Run) {
    r.kind.PointlistFile? && !r.kind.force && !r.kind.shrinkWarn
  }

  // Over any runs: a strict run that registers its file stored at least one point,
  // and at least half as many as the nearest issue of its series then has stored.
  lemma StrictRunNeverHalves(s: Store, runs: seq<Run>, i: nat, k: Key, d: int)
    requires Compact(s) && s.gate == map[]
    requires Registers(s, runs, i, k) && Strict(runs[i])
    requires IsNearest(AfterAll(s, runs[..i]), k, runs[i].near)
    requires runs[i].near.Some? ==> runs[i].near.value.date == d
    ensures runs[i].points != []
    ensures runs[i].near.Some? ==>
      2 * |runs[i].points| >= |RowsAt(AfterAll(s, runs[..i]), k.(date := d))|
  {
    CheckedCounts(AfterAll(s, runs[..i]), runs[i]);
    if runs[i].near.Some? {
      var there := k.(date := d);
      GateMeansComplete(s, runs[..i], there);
      var j: nat :| BackedBy(s, runs[..i], there, j);
    }
  }

  lemma CheckedCounts(s: Store, r: Run)
    requires Completes(s, r) && Strict(r)
    ensures r.points != [] && (r.near.Some? ==> 2 * |r.points| >= r.near.value.count)
  {}

  /******* A crash and a retry *******/

  function Limited(r: Run, effects: nat): Run {
    r.(crashAfter := effects)
  }

  // The same run over and over, stopped after so many effects each time.
  function AfterStops(s: Store, r: Run, stops: seq<nat>): Store {
    if stops == [] then s else After(AfterStops(s, r, stops[..|stops| - 1]), Limited(r, stops[|stops| - 1]))
  }

  // However often it is stopped, the run has touched its key only, and the key is
  // gated only in the state before it or in the final one.
  ghost predicate OnTheWay(s: Store, t: Store, r: Run)
    requires r.date.Some?
  {
    var k := KeyOf(r);
    && Compact(t) && t.gate - {k} == s.gate - {k} && t.rows - {k} == s.rows - {k}
    && (k in t.gate ==> t == s || t == Final(s, r))
  }

  lemma FinalOnTheWay(s: Store, r: Run)
    requires Compact(s) && r.date.Some?
    ensures OnTheWay(s, Final(s, r), r)
  {}

  lemma OneMoreStop(s: Store, t: Store, r: Run, effects: nat)
    requires Decide(s, r) == Go && Compact(s) && OnTheWay(s, t, r)
    ensures OnTheWay(s, After(t, Limited(r, effects)), r)
  {
    hide After, Completes, Decide, Final;
    var again := Limited(r, effects);
    FinalOnTheWay(s, r);
    if Completes(t, again) {
      WholePlan(t, again);
      SameOutside(s, t, r);
      SameFinal(t, r, effects);
    } else {
      StoppedRun(t, again);
    }
  }

  lemma SameFinal(t: Store, r: Run, effects: nat)
    requires r.date.Some?
    ensures Final(t, Limited(r, effects)) == Final(t, r)
  {}

  lemma {:induction false} StopsOnTheWay(s: Store, r: Run, stops: seq<nat>)
    requires Compact(s) && Decide(s, r) == Go
    ensures OnTheWay(s, AfterStops(s, r, stops), r)
    decreases |stops|
  {
    hide After, Decide, OnTheWay;
    if stops == [] {
      NotYetOnTheWay(s, r);
    } else {
      StopsOnTheWay(s, r, stops[..|stops| - 1]);
      OneMoreStop(s, AfterStops(s, r, stops[..|stops| - 1]), r, stops[|stops| - 1]);
    }
  }

  lemma NotYetOnTheWay(s: Store, r: Run)
    requires Compact(s) && r.date.Some?
    ensures OnTheWay(s, s, r)
  {}

  // A run that would have passed the checks, stopped any number of times at any
  // effects and then repeated to its end, ends in the state of the run that is
  // never stopped: the last repeat goes ahead or finds the file registered.
  lemma CrashThenRetry(s: Store, r: Run, stops: seq<nat>, last: nat)
    requires Compact(s) && Decide(s, r) == Go
    requires var t := AfterStops(s, r, stops); Decide(t, r) == Go ==> last >= |Plan(t, r)|
    ensures var t := AfterStops(s, r, stops);
      && (Decide(t, r) == Go || (Decide(t, r) == Skip && t == Final(s, r)))
      && After(t, Limited(r, last)) == Final(s, r)
  {
    var t, retry := AfterStops(s, r, stops), Limited(r, last);
    hide AfterStops, After, Completes, Plan, Final;
    StopsOnTheWay(s, r, stops);
    assert Decide(t, retry) == Decide(t, r);
    if Decide(t, r) == Go {
      SamePlan(t, r, last);
      RetryCompletes(t, retry);
      WholePlan(t, retry);
      SameOutside(s, t, r);
      SameFinal(t, r, last);
    } else {
      SkippedRun(t, retry);
    }
  }

  lemma SamePlan(t: Store, r: Run, effects: nat)
    requires r.date.Some?
    ensures Plan(t, Limited(r, effects)) == Plan(t, r)
  {}

  lemma RetryCompletes(t: Store, retry: Run)
    requires Decide(t, retry) == Go && retry.crashAfter >= |Plan(t, retry)|
    ensures Completes(t, retry)
  {}

  lemma SkippedRun(t: Store, r: Run)
    requires Decide(t, r) != Go
    ensures After(t, r) == t && !Completes(t, r)
  {}

  lemma SameOutside(s: Store, t: Store, r: Run)
    requires r.date.Some?
    requires t.gate - {KeyOf(r)} == s.gate - {KeyOf(r)} && t.rows - {KeyOf(r)} == s.rows - {KeyOf(r)}
    ensures Final(t, r) == Final(s, r)
  {
    var k := KeyOf(r);
    assert t.gate[k := GateRow(|r.points|)] == (t.gate - {k})[k := GateRow(|r.points|)];
    assert s.gate[k := GateRow(|r.points|)] == (s.gate - {k})[k := GateRow(|r.points|)];
    assert t.rows[k := r.points] == (t.rows - {k})[k := r.points];
    assert s.rows[k := r.points] == (s.rows - {k})[k := r.points];
  }

  // The store answers each repeat's query for the nearest issue as it did the first.
  lemma CrashKeepsNearest(s: Store, r: Run, stops: seq<nat>, near: Option<Near>)
    requires Compact(s) && Decide(s, r) == Go
    ensures IsNearest(AfterStops(s, r, stops), KeyOf(r), near) <==> IsNearest(s, KeyOf(r), near)
  {
    StopsOnTheWay(s, r, stops);
    hide AfterStops, Decide;
    var t, k := AfterStops(s, r, stops), KeyOf(r);
    forall d | d != k.date
      ensures var other := Key(k.domain, k.source, d);
        (other in t.gate <==> other in s.gate) && (other in t.gate ==> t.gate[other] == s.gate[other])
    {
      OutsideKey(s, t, k, Key(k.domain, k.source, d));
    }
  }
}
