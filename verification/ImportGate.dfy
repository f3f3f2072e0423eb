/** Importing pointlists and inline points of nodelists behind an import gate:
    check, clean, insert in chunks, register last. A run may stop between any two
    store effects, by a crash or by an error
    (cmd/parser/pointlist.go:90-295, internal/storage/point_operations.go:59-260,
    internal/storage/query_builder_points.go:42-88, 95-146). */
module ImportGate {
  import opened Text
  import opened Addresses
  import opened Snapshot

  const CHUNK_SIZE := 5000

  datatype Key = Key(domain: string, source: string, date: int)

  datatype GateRow = GateRow(pointsCount: nat)

  // The tables pointlist_files and points, by file.
  datatype Store = Store(gate: map<Key, GateRow>, rows: map<Key, seq<Row>>)

  function RowsAt(s: Store, k: Key): seq<Row> {
    if k in s.rows then s.rows[k] else []
  }

  /******* Store effects *******/

  datatype Effect =
    | DropGate(key: Key) | DropRows(key: Key) | InsertRows(key: Key, chunk: seq<Row>)
    | AddGate(key: Key, row: GateRow)

  function Perform(s: Store, e: Effect): Store {
    match e
    case DropGate(k) => s.(gate := s.gate - {k})
    case DropRows(k) => s.(rows := s.rows - {k})
    case InsertRows(k, chunk) => s.(rows := s.rows[k := RowsAt(s, k) + chunk])
    case AddGate(k, row) => s.(gate := s.gate[k := row])
  }

  function PerformAll(s: Store, es: seq<Effect>): Store
    decreases |es|
  {
    if es == [] then s else PerformAll(Perform(s, es[0]), es[1..])
  }

  // The inserts of a file: its points in order, so many at a time.
  function Inserts(k: Key, points: seq<Row>, size: nat): seq<Effect>
    requires size > 0
    decreases |points|
  {
    if points == [] then []
    else if |points| <= size then [InsertRows(k, points)]
    else [InsertRows(k, points[..size])] + Inserts(k, points[size..], size)
  }

  /******* Runs *******/

  // The imported issue of the series nearest in time, as the store answers.
  datatype Near = Near(count: nat, date: int)

  datatype Kind =
    | PointlistFile(reimport: bool, force: bool, shrinkWarn: bool)
    | NodelistIssue(alwaysGate: bool)

  // near is the store's answer to the query; native says which connection inserts
  // the points; crashAfter is how many effects are performed if the run is stopped.
  datatype Run = Run(domain: string, source: string, date: Option<int>, points: seq<Row>, kind: Kind,
                     near: Option<Near>, native: bool, crashAfter: nat)

  // The native connection inserts chunks, the other one the file in one transaction.
  function InsertSize(native: bool, points: seq<Row>): (size: nat)
    ensures size > 0
  {
    if native then CHUNK_SIZE else |points| + 1
  }

  function InsertsOf(r: Run): seq<Effect>
    requires r.date.Some?
  {
    Inserts(KeyOf(r), r.points, InsertSize(r.native, r.points))
  }

  datatype Verdict = Go | Skip | NoDate | NoPoints | Shrunk | NothingToGate

  function KeyOf(r: Run): Key
    requires r.date.Some?
  {
    Key(Normalized(r.domain), if r.kind.NodelistIssue? then NODELIST_SOURCE else r.source, r.date.value)
  }

  predicate Imported(s: Store, k: Key) {
    k in s.gate
  }

  // What NearestPointsCount may answer: an issue of the same series on another
  // date, none of them nearer; on a tie, any of the nearest.
  ghost predicate IsNearest(s: Store, k: Key, near: Option<Near>) {
    if near.None? then forall d :: d != k.date ==> Key(k.domain, k.source, d) !in s.gate
    else
      var n := near.value;
      var there := Key(k.domain, k.source, n.date);
      && n.date != k.date && there in s.gate && s.gate[there].pointsCount == n.count
      && forall d :: d != k.date && Key(k.domain, k.source, d) in s.gate ==>
           Distance(k.date, n.date) <= Distance(k.date, d)
  }

  function Distance(a: int, b: int): nat {
    if a <= b then b - a else a - b
  }

  // The checks before anything is changed.
  function Decide(s: Store, r: Run): (verdict: Verdict)
    ensures verdict == Go ==> r.date.Some?
  {
    if r.kind.PointlistFile? then
      if r.date.None? then NoDate
      else if Imported(s, KeyOf(r)) && !r.kind.reimport then Skip
      else if r.points == [] && !r.kind.force then NoPoints
      else if r.near.Some? && r.near.value.count > 0 && |r.points| * 2 < r.near.value.count
           && !r.kind.force && !r.kind.shrinkWarn then Shrunk
      else Go
    else
      if r.date.None? then (if r.points == [] then NothingToGate else NoDate)
      else if r.points == [] && !r.kind.alwaysGate && r.near.None? then NothingToGate
      else if Imported(s, KeyOf(r)) then Skip
      else Go
  }

  // Nothing is to be done, and that is no error: the file is there already, or the
  // nodelist has no inline points to gate.
  predicate NothingToDo(s: Store, r: Run) {
    if r.kind.PointlistFile? then r.date.Some? && KeyOf(r) in s.gate && !r.kind.reimport
    else if r.date.None? then r.points == []
    else KeyOf(r) in s.gate || (r.points == [] && !r.kind.alwaysGate && r.near.None?)
  }

  function Remnants(s: Store, k: Key): seq<Effect> {
    if RowsAt(s, k) == [] then [] else [DropRows(k)]
  }

  // DeletePointlistData: the gate row first.
  function Cleaning(s: Store, k: Key, includeGate: bool): seq<Effect> {
    (if includeGate then [DropGate(k)] else []) + Remnants(s, k)
  }

  // The effects of a run that passes the checks, the gate row last.
  function Plan(s: Store, r: Run): seq<Effect>
    requires r.date.Some?
  {
    var k := KeyOf(r);
    Cleaning(s, k, r.kind.PointlistFile? && r.kind.reimport && Imported(s, k)) +
    InsertsOf(r) +
    [AddGate(k, GateRow(|r.points|))]
  }

  function Min(a: nat, b: nat): nat {
    if a <= b then a else b
  }

  // A run stopped after some of its effects, or none to speak of when the checks refuse it.
  function Performed(s: Store, r: Run): seq<Effect> {
    if Decide(s, r) != Go then []
    else
      var plan := Plan(s, r);
      plan[..Min(r.crashAfter, |plan|)]
  }

  predicate Completes(s: Store, r: Run): (done: bool)
    ensures done ==> r.date.Some?
  {
    Decide(s, r) == Go && r.crashAfter >= |Plan(s, r)|
  }

  function After(s: Store, r: Run): Store {
    PerformAll(s, Performed(s, r))
  }

  /******* The import as it runs *******/

  // From s with n effects left, the plan was performed as far as they lasted.
  ghost predicate Ran(s: Store, n: nat, plan: seq<Effect>, after: Store, left: nat, ok: bool) {
    && (ok <==> n >= |plan|)
    && after == PerformAll(s, plan[..Min(n, |plan|)])
    && left == n - Min(n, |plan|)
  }

  lemma {:induction false} PerformAppend(s: Store, a: seq<Effect>, b: seq<Effect>)
    ensures PerformAll(s, a + b) == PerformAll(PerformAll(s, a), b)
    decreases |a|
  {
    if a == [] {
      assert a + b == b;
    } else {
      PerformAppend(Perform(s, a[0]), a[1..], b);
      assert (a + b)[1..] == a[1..] + b;
    }
  }

  lemma RanThen(s: Store, n: nat, a: seq<Effect>, s1: Store, n1: nat, b: seq<Effect>, s2: Store, n2: nat, ok: bool)
    requires Ran(s, n, a, s1, n1, true) && Ran(s1, n1, b, s2, n2, ok)
    ensures Ran(s, n, a + b, s2, n2, ok)
  {
    assert a[..|a|] == a;
    PerformAppend(s, a, b[..Min(n1, |b|)]);
    assert (a + b)[..Min(n, |a + b|)] == a + b[..Min(n1, |b|)];
  }

  lemma RanStops(s: Store, n: nat, a: seq<Effect>, s1: Store, n1: nat, b: seq<Effect>)
    requires Ran(s, n, a, s1, n1, false)
    ensures Ran(s, n, a + b, s1, n1, false)
  {
    assert (a + b)[..n] == a[..n];
  }

  // The store as the importer drives it: an effect may fail, after which the
  // importer returns at once. effectsLeft counts down to the failure.
  class PointTables {
    var store: Store
    var effectsLeft: nat

    constructor (s: Store, effects: nat)
      ensures store == s && effectsLeft == effects
    {
      store, effectsLeft := s, effects;
    }

    method Do(e: Effect) returns (ok: bool)
      modifies this
      ensures Ran(old(store), old(effectsLeft), [e], store, effectsLeft, ok)
    {
      if effectsLeft == 0 {
        return false;
      }
      assert [e][..1] == [e];
      store := Perform(store, e);
      effectsLeft := effectsLeft - 1;
      return true;
    }

    method DeletePointlistData(k: Key, includeGate: bool) returns (ok: bool)
      modifies this
      ensures Ran(old(store), old(effectsLeft), Cleaning(old(store), k, includeGate), store, effectsLeft, ok)
    {
      hide Perform, Ran, PerformAll;
      NothingRan(store, effectsLeft);
      if includeGate {
        ok := Do(DropGate(k));
        GateApart(old(store), old(effectsLeft), k, store, effectsLeft, ok);
        if !ok {
          RanStops(old(store), old(effectsLeft), [DropGate(k)], store, effectsLeft, Remnants(old(store), k));
          return;
        }
      }
      ghost var s1, n1 := store, effectsLeft;
      NothingRan(store, effectsLeft);
      ok := true;
      if RowsAt(store, k) != [] {
        ok := Do(DropRows(k));
      }
      RanThen(old(store), old(effectsLeft), if includeGate then [DropGate(k)] else [], s1, n1,
              Remnants(old(store), k), store, effectsLeft, ok);
    }

    method InsertPoints(k: Key, points: seq<Row>, native: bool) returns (ok: bool)
      modifies this
      ensures Ran(old(store), old(effectsLeft), Inserts(k, points, InsertSize(native, points)), store, effectsLeft, ok)
    {
      if points == [] {
        NothingRan(store, effectsLeft);
        return true;
      }
      if native {
        ok := InsertPointsNative(k, points);
      } else {
        ok := Do(InsertRows(k, points));
      }
    }

    method InsertPointsNative(k: Key, points: seq<Row>) returns (ok: bool)
      modifies this
      ensures Ran(old(store), old(effectsLeft), Inserts(k, points, CHUNK_SIZE), store, effectsLeft, ok)
    {
      hide Perform, Ran, PerformAll, Inserts;
      ghost var planned: seq<Effect> := [];
      NothingRan(store, effectsLeft);
      NoInserts(k);
      assert From(points, 0) == points;
      var i := 0;
      while i < |points|
        invariant 0 <= i
        invariant planned + Inserts(k, From(points, i), CHUNK_SIZE) == Inserts(k, points, CHUNK_SIZE)
        invariant Ran(old(store), old(effectsLeft), planned, store, effectsLeft, true)
      {
        var end := if i + CHUNK_SIZE > |points| then |points| else i + CHUNK_SIZE;
        ghost var s1, n1, e := store, effectsLeft, InsertRows(k, points[i..end]);
        FirstInsert(k, points, i);
        ghost var rest := Inserts(k, From(points, i + CHUNK_SIZE), CHUNK_SIZE);
        assert planned + ([e] + rest) == planned + [e] + rest;
        ok := Do(InsertRows(k, points[i..end]));
        RanThen(old(store), old(effectsLeft), planned, s1, n1, [e], store, effectsLeft, ok);
        planned := planned + [e];
        i := i + CHUNK_SIZE;
        if !ok {
          RanStops(old(store), old(effectsLeft), planned, store, effectsLeft, rest);
          return;
        }
      }
      assert planned + [] == planned;
      return true;
    }

    // importPointlistFile and importNodelistPoints after parsing; count is the
    // number of points reported as imported.
    method Import(r: Run) returns (ok: bool, count: nat)
      requires effectsLeft == r.crashAfter
      modifies this
      ensures store == After(old(store), r)
      ensures count > 0 ==> Completes(old(store), r) && count == |r.points|
      ensures ok && Decide(old(store), r) == Go <==> Completes(old(store), r)
      ensures ok <==> Completes(old(store), r) || NothingToDo(old(store), r)
    {
      hide Perform, Ran, PerformAll;
      var verdict := Decide(store, r);
      if verdict != Go {
        NothingRan(store, effectsLeft);
        assert Performed(old(store), r) == [];
        return verdict == Skip || verdict == NothingToGate, 0;
      }
      var k := KeyOf(r);
      var s0, n0 := store, effectsLeft;
      ghost var cleaning := Cleaning(s0, k, r.kind.PointlistFile? && r.kind.reimport && Imported(s0, k));
      ghost var inserts := InsertsOf(r);
      ghost var register := [AddGate(k, GateRow(|r.points|))];
      assert Plan(s0, r) == cleaning + inserts + register;
      ok := DeletePointlistData(k, r.kind.PointlistFile? && r.kind.reimport && Imported(s0, k));
      if !ok {
        RanStops(s0, n0, cleaning, store, effectsLeft, inserts);
        RanStops(s0, n0, cleaning + inserts, store, effectsLeft, register);
        RanIsAfter(s0, r, store, effectsLeft, false);
        return false, 0;
      }
      ghost var s1, n1 := store, effectsLeft;
      ok := InsertPoints(k, r.points, r.native);
      RanThen(s0, n0, cleaning, s1, n1, inserts, store, effectsLeft, ok);
      if !ok {
        RanStops(s0, n0, cleaning + inserts, store, effectsLeft, register);
        RanIsAfter(s0, r, store, effectsLeft, false);
        return false, 0;
      }
      ghost var s2, n2 := store, effectsLeft;
      ok := Do(AddGate(k, GateRow(|r.points|)));
      RanThen(s0, n0, cleaning + inserts, s2, n2, register, store, effectsLeft, ok);
      RanIsAfter(s0, r, store, effectsLeft, ok);
      count := if ok then |r.points| else 0;
    }
  }

  lemma NothingRan(s: Store, n: nat)
    ensures Ran(s, n, [], s, n, true) && PerformAll(s, []) == s
  {}

  lemma GateApart(s: Store, n: nat, k: Key, after: Store, left: nat, ok: bool)
    requires Ran(s, n, [DropGate(k)], after, left, ok)
    ensures after.rows == s.rows
  {
    assert [DropGate(k)][..1] == [DropGate(k)];
    assert PerformAll(s, [DropGate(k)]) == PerformAll(Perform(s, DropGate(k)), []);
  }

  function From(points: seq<Row>, i: nat): seq<Row> {
    if i < |points| then points[i..] else []
  }

  lemma NoInserts(k: Key)
    ensures Inserts(k, [], CHUNK_SIZE) == []
  {}

  lemma FirstInsert(k: Key, points: seq<Row>, i: nat)
    requires i < |points|
    ensures var end := if i + CHUNK_SIZE > |points| then |points| else i + CHUNK_SIZE;
      Inserts(k, From(points, i), CHUNK_SIZE)
      == [InsertRows(k, points[i..end])] + Inserts(k, From(points, i + CHUNK_SIZE), CHUNK_SIZE)
  {
    var rest := points[i..];
    if i + CHUNK_SIZE < |points| {
      assert rest[..CHUNK_SIZE] == points[i..i + CHUNK_SIZE] && rest[CHUNK_SIZE..] == points[i + CHUNK_SIZE..];
    } else {
      assert rest == points[i..|points|];
    }
  }

  lemma RanIsAfter(s: Store, r: Run, after: Store, left: nat, ok: bool)
    requires Decide(s, r) == Go && Ran(s, r.crashAfter, Plan(s, r), after, left, ok)
    ensures after == After(s, r) && (ok <==> Completes(s, r))
  {}
}
