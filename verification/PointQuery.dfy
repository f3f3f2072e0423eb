/** The snapshot query over all point sources: the newest gated issue of each
    source in the window, and of the rows at one address the most authoritative
    (internal/storage/query_builder_points.go:104-166, 217-256). */
module PointQuery {
  import opened ImportGate
  import opened Snapshot
  import PointLines
  import G = GateProofs

  const STALENESS_DAYS := 60

  predicate InWindow(d: int, asOf: int) {
    asOf - STALENESS_DAYS < d <= asOf
  }

  // A row with its domain, source and issue date.
  datatype Seen = Seen(key: Key, row: Row)

  predicate SameAddress(a: Seen, b: Seen) {
    a.key.domain == b.key.domain && SamePoint(a.row, b.row)
  }

  // The file's source priority first, then the newer issue, then the conflict sequence.
  predicate AtMost(priority: Key -> int, a: Seen, b: Seen) {
    var m, n := priority(a.key), priority(b.key);
    m < n || (m == n && (a.key.date > b.key.date
                         || (a.key.date == b.key.date && a.row.conflictSequence <= b.row.conflictSequence)))
  }

  // The newest gated issue of its source in the window.
  ghost predicate IsNewest(s: Store, k: Key, asOf: int) {
    && k in s.gate && InWindow(k.date, asOf)
    && forall d :: k.(date := d) in s.gate && InWindow(d, asOf) ==> d <= k.date
  }

  // The rows before the collapse; keep is the inner condition of the query.
  ghost predicate Selected(s: Store, asOf: int, keep: Seen -> bool, x: Seen) {
    keep(x) && IsNewest(s, x.key, asOf) && x.row in RowsAt(s, x.key)
  }

  ghost predicate IsWinner(s: Store, asOf: int, priority: Key -> int, keep: Seen -> bool, x: Seen) {
    Selected(s, asOf, keep, x)
    && forall y :: Selected(s, asOf, keep, y) && SameAddress(y, x) ==> AtMost(priority, x, y)
  }

  // An answer of the query: a winner for each address, in order; rows of the same
  // rank may come in any order.
  ghost predicate IsAnswer(s: Store, asOf: int, priority: Key -> int, keep: Seen -> bool, shown: seq<Seen>) {
    && (forall i, j :: 0 <= i < j < |shown| ==> !SameAddress(shown[i], shown[j]))
    && (forall i, j :: 0 <= i < j < |shown| ==> AtMost(priority, shown[i], shown[j]))
    && (forall x :: x in shown ==> IsWinner(s, asOf, priority, keep, x))
    && (forall x :: Selected(s, asOf, keep, x) ==> x in shown || exists w :: w in shown && SameAddress(w, x))
  }

  // A condition on the address alone.
  ghost predicate OnAddress(keep: Seen -> bool) {
    forall a, b :: SameAddress(a, b) ==> keep(a) == keep(b)
  }

  // Every gated file was numbered by its parser; remnants may be cut off anywhere.
  ghost predicate FilesNumbered(s: Store) {
    forall k :: k in s.gate ==> FromOneFile(RowsAt(s, k))
  }

  // Imports of parsed files keep it, wherever they stop.
  lemma {:induction false} RunsKeepNumbered(s: Store, runs: seq<Run>)
    requires G.Compact(s) && FilesNumbered(s) && forall i :: 0 <= i < |runs| ==> FromOneFile(runs[i].points)
    ensures FilesNumbered(G.AfterAll(s, runs))
    decreases |runs|
  {
    if runs != [] {
      hide FromOneFile, After, Completes;
      var before, r := runs[..|runs| - 1], runs[|runs| - 1];
      RunsKeepNumbered(s, before);
      G.AllCompact(s, before);
      var t := G.AfterAll(s, before);
      forall k | k in After(t, r).gate ensures FromOneFile(RowsAt(After(t, r), k)) {
        if Completes(t, r) && KeyOf(r) == k {
          G.WholePlan(t, r);
          G.FinalRows(t, r);
        } else {
          G.KeyUntouched(t, r, k);
        }
      }
    }
  }

  /******* What the collapse shows *******/

  // Each row shown is the first of its address in its file, the newest of its
  // source, and no newest file of a source with more authority, or of the same
  // and a later date, lists the address.
  lemma WinnersAreAuthoritative(s: Store, asOf: int, priority: Key -> int, keep: Seen -> bool,
                                shown: seq<Seen>, x: Seen)
    requires FilesNumbered(s) && OnAddress(keep)
    requires IsAnswer(s, asOf, priority, keep, shown) && x in shown
    ensures IsNewest(s, x.key, asOf) && x.row in FirstRows(RowsAt(s, x.key))
    ensures forall k: Key, i: nat ::
      IsNewest(s, k, asOf) && i < |RowsAt(s, k)| && SameAddress(Seen(k, RowsAt(s, k)[i]), x) ==>
        || priority(x.key) < priority(k)
        || (priority(x.key) == priority(k) && x.key.date >= k.date)
  {
    hide FromOneFile, FirstRows, IsNewest, RowsAt, SameAddress, AtMost;
    WinnerIsFirst(s, asOf, priority, keep, x);
    forall k: Key, j: nat | IsNewest(s, k, asOf) && j < |RowsAt(s, k)| && SameAddress(Seen(k, RowsAt(s, k)[j]), x)
      ensures || priority(x.key) < priority(k)
              || (priority(x.key) == priority(k) && x.key.date >= k.date)
    {
      assert Selected(s, asOf, keep, Seen(k, RowsAt(s, k)[j]));
      RankOf(priority, x, Seen(k, RowsAt(s, k)[j]));
    }
  }

  lemma RankOf(priority: Key -> int, x: Seen, y: Seen)
    requires AtMost(priority, x, y)
    ensures || priority(x.key) < priority(y.key)
            || (priority(x.key) == priority(y.key) && x.key.date >= y.key.date)
  {}

  lemma WinnerIsFirst(s: Store, asOf: int, priority: Key -> int, keep: Seen -> bool, x: Seen)
    requires FilesNumbered(s) && OnAddress(keep) && IsWinner(s, asOf, priority, keep, x)
    ensures x.row in FirstRows(RowsAt(s, x.key))
  {
    hide FromOneFile, FirstRows, SamePoint;
    assert x.key in s.gate;
    hide IsNewest;
    var rows := RowsAt(s, x.key);
    FirstRowsAre(rows);
    var i: nat :| i < |rows| && rows[i] == x.row;
    var f := FirstExists(rows, i);
    assert SameAddress(Seen(x.key, rows[f]), x);
    assert Selected(s, asOf, keep, Seen(x.key, rows[f]));
  }

  function Filtered(shown: seq<Seen>, keep: Seen -> bool): seq<Seen> {
    if shown == [] then []
    else (if keep(shown[0]) then [shown[0]] else []) + Filtered(shown[1..], keep)
  }

  function Both(f: Seen -> bool, g: Seen -> bool): Seen -> bool {
    x => f(x) && g(x)
  }

  lemma {:induction false} FilteredHas(shown: seq<Seen>, keep: Seen -> bool, x: Seen)
    ensures x in Filtered(shown, keep) <==> x in shown && keep(x)
    decreases |shown|
  {
    if shown != [] {
      FilteredHas(shown[1..], keep, x);
      assert shown == [shown[0]] + shown[1..];
    }
  }

  predicate InOrder(priority: Key -> int, shown: seq<Seen>) {
    && (forall i, j :: 0 <= i < j < |shown| ==> !SameAddress(shown[i], shown[j]))
    && (forall i, j :: 0 <= i < j < |shown| ==> AtMost(priority, shown[i], shown[j]))
  }

  lemma {:induction false} FilteredInOrder(priority: Key -> int, shown: seq<Seen>, keep: Seen -> bool)
    requires InOrder(priority, shown)
    ensures InOrder(priority, Filtered(shown, keep))
    decreases |shown|
  {
    hide AtMost, SameAddress;
    if shown != [] {
      var rest := Filtered(shown[1..], keep);
      FilteredInOrder(priority, shown[1..], keep);
      forall j | 0 <= j < |rest| ensures !SameAddress(shown[0], rest[j]) && AtMost(priority, shown[0], rest[j]) {
        FilteredHas(shown[1..], keep, rest[j]);
        var i :| 0 <= i < |shown[1..]| && shown[1..][i] == rest[j];
        assert shown[i + 1] == rest[j];
      }
    }
  }

  // A condition on the address may go inside the collapse: it narrows the answer
  // and changes no winner.
  lemma AddressConditionsCommute(s: Store, asOf: int, priority: Key -> int, keep: Seen -> bool,
                                 extra: Seen -> bool, shown: seq<Seen>)
    requires OnAddress(extra) && IsAnswer(s, asOf, priority, keep, shown)
    ensures IsAnswer(s, asOf, priority, Both(keep, extra), Filtered(shown, extra))
    ensures forall x :: IsWinner(s, asOf, priority, Both(keep, extra), x)
                        <==> IsWinner(s, asOf, priority, keep, x) && extra(x)
  {
    hide AtMost, SameAddress, Filtered, IsNewest, RowsAt;
    assert InOrder(priority, shown);
    FilteredInOrder(priority, shown, extra);
    forall x { FilteredHas(shown, extra, x); }
    forall x ensures Selected(s, asOf, Both(keep, extra), x) <==> Selected(s, asOf, keep, x) && extra(x) {}
  }

  // One point in the lists of two sources.
  function TwoSources(domain: string, d: int, p: PointLines.Point, q: PointLines.Point): Store {
    var net, region := Key(domain, "net", d), Key(domain, "region", d);
    Store(map[net := GateRow(1), region := GateRow(1)],
          map[net := PointLines.NumberedPoints([p]), region := PointLines.NumberedPoints([q])])
  }

  // A condition on another column may not: inside the collapse it shows a row that
  // the authoritative source overrides, and that the condition outside does not.
  lemma OtherConditionsDoNot(domain: string, d: int, p: PointLines.Point, q: PointLines.Point,
                             priority: Key -> int, named: Seen -> bool, shown: seq<Seen>, inner: seq<Seen>)
    requires p.addr == q.addr && p.pointNum == q.pointNum && p.systemName != q.systemName
    requires priority(Key(domain, "net", d)) < priority(Key(domain, "region", d))
    requires forall x :: named(x) <==> x.row.item.systemName == q.systemName
    requires IsAnswer(TwoSources(domain, d, p, q), d, priority, _ => true, shown)
    requires IsAnswer(TwoSources(domain, d, p, q), d, priority, named, inner)
    ensures Filtered(shown, named) == [] && |inner| == 1 && inner[0].row.item == q
  {
    var s := TwoSources(domain, d, p, q);
    var x, y := Seen(Key(domain, "net", d), PointLines.NumberedPoints([p])[0]),
                Seen(Key(domain, "region", d), PointLines.NumberedPoints([q])[0]);
    OnlyTwoRows(domain, d, p, q);
    hide IsNewest, RowsAt, PointLines.NumberedPoints, TwoSources, Filtered, IsAnswer;
    FirstShown(s, d, priority, _ => true, x, y, shown);
    OnlyShown(s, d, priority, named, y, inner);
    FilteredNone(shown, named);
  }

  lemma FirstShown(s: Store, asOf: int, priority: Key -> int, keep: Seen -> bool, x: Seen, y: Seen, shown: seq<Seen>)
    requires IsAnswer(s, asOf, priority, keep, shown) && SameAddress(x, y) && !AtMost(priority, y, x)
    requires forall z :: Selected(s, asOf, keep, z) <==> z == x || z == y
    ensures forall z :: z in shown ==> z == x
  {
    hide IsNewest, RowsAt, AtMost, Selected;
    assert SameAddress(x, y);
  }

  lemma OnlyShown(s: Store, asOf: int, priority: Key -> int, keep: Seen -> bool, y: Seen, shown: seq<Seen>)
    requires IsAnswer(s, asOf, priority, keep, shown)
    requires forall z :: Selected(s, asOf, keep, z) <==> z == y
    ensures shown == [y]
  {
    hide IsNewest, RowsAt, AtMost, Selected;
    assert Selected(s, asOf, keep, y);
    var w :| w in shown && SameAddress(w, y);
    if |shown| > 1 {
      TwoAlike(shown, y);
      assert false;
    }
  }

  lemma TwoAlike(shown: seq<Seen>, y: Seen)
    requires |shown| > 1 && forall z :: z in shown ==> z == y
    ensures SameAddress(shown[0], shown[1])
  {
    assert shown[0] in shown && shown[1] in shown;
  }

  lemma {:induction false} FilteredNone(shown: seq<Seen>, keep: Seen -> bool)
    requires forall z :: z in shown ==> !keep(z)
    ensures Filtered(shown, keep) == []
    decreases |shown|
  {
    if shown != [] {
      assert shown[0] in shown;
      FilteredNone(shown[1..], keep);
    }
  }

  lemma OnlyTwoRows(domain: string, d: int, p: PointLines.Point, q: PointLines.Point)
    ensures var s := TwoSources(domain, d, p, q);
      var x := Seen(Key(domain, "net", d), PointLines.NumberedPoints([p])[0]);
      var y := Seen(Key(domain, "region", d), PointLines.NumberedPoints([q])[0]);
      && x.row.item == p && y.row.item == q
      && IsNewest(s, x.key, d) && x.row in RowsAt(s, x.key) && IsNewest(s, y.key, d) && y.row in RowsAt(s, y.key)
      && forall z: Seen :: IsNewest(s, z.key, d) && z.row in RowsAt(s, z.key) ==> z == x || z == y
  {
    OneRow(p);
    OneRow(q);
    hide PointLines.NumberedPoints;
  }

  lemma OneRow(p: PointLines.Point)
    ensures PointLines.NumberedPoints([p]) == [PointLines.NumberedPoints([p])[0]]
    ensures PointLines.NumberedPoints([p])[0].item == p
  {}
}
