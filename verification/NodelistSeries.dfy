/** The inline points of a network's nodelists as a series: nodelists imported in
    date order, and the snapshot the readers take of it
    (cmd/parser/pointlist.go:227-295, internal/storage/query_builder_points.go:100-146). */
module NodelistSeries {
  import opened Text
  import opened Addresses
  import opened ImportGate
  import opened Snapshot
  import opened PointQuery
  import PointLines
  import G = GateProofs

  function IssueKey(domain: string, d: int): Key {
    Key(Normalized(domain), NODELIST_SOURCE, d)
  }

  predicate Gated(s: Store, domain: string, d: int) {
    IssueKey(domain, d) in s.gate
  }

  // A dated run whose file belongs to the network's nodelist source.
  predicate InSeries(r: Run, domain: string) {
    r.date.Some? && KeyOf(r).domain == Normalized(domain) && KeyOf(r).source == NODELIST_SOURCE
  }

  // Every dated nodelist of the network belongs to it, and no pointlist but one that
  // bears the same source name.
  lemma SeriesMembers(r: Run, domain: string)
    requires r.date.Some?
    ensures var same := (if r.domain == "" then "fidonet" else r.domain) == if domain == "" then "fidonet" else domain;
      InSeries(r, domain) <==> same && (r.kind.NodelistIssue? || r.source == "nodelist")
  {}

  // Runs of any kind and network. Those of this network's series are nodelists, no
  // pointlist passed off as one, in date order; the same date comes back only for
  // the same issue, whose points are numbered as its parser numbers them. The
  // store answers their queries for the nearest issue.
  ghost predicate Series(s: Store, runs: seq<Run>, domain: string) {
    && (forall i :: 0 <= i < |runs| && InSeries(runs[i], domain) ==>
         runs[i].kind.NodelistIssue? && FromOneFile(runs[i].points))
    && (forall i, j :: 0 <= i < j < |runs| && InSeries(runs[i], domain) && InSeries(runs[j], domain) ==>
         && runs[i].date.value <= runs[j].date.value
         && (runs[i].date == runs[j].date ==> runs[i].points == runs[j].points))
    && Answered(s, runs, domain)
  }

  ghost predicate Answered(s: Store, runs: seq<Run>, domain: string)
    decreases |runs|
  {
    runs != [] ==>
      var before, last := runs[..|runs| - 1], runs[|runs| - 1];
      Answered(s, before, domain)
      && (InSeries(last, domain) ==> IsNearest(G.AfterAll(s, before), KeyOf(last), last.near))
  }

  // Not stopped on the way.
  predicate Finished(s: Store, runs: seq<Run>, i: nat)
    requires i < |runs|
  {
    var t := G.AfterAll(s, runs[..i]);
    Decide(t, runs[i]) != Go || Completes(t, runs[i])
  }

  // What a reader sees of the nodelist source as of a date: of the newest gated
  // issue in the window, one row for each address.
  ghost predicate IsSnapshot(s: Store, domain: string, asOf: int, shown: seq<Row>) {
    || (exists d :: Newest(s, domain, asOf, d) && IsCollapse(RowsAt(s, IssueKey(domain, d)), shown))
    || ((forall d :: Gated(s, domain, d) ==> !InWindow(d, asOf)) && shown == [])
  }

  ghost predicate Newest(s: Store, domain: string, asOf: int, d: int) {
    && Gated(s, domain, d) && InWindow(d, asOf)
    && forall e :: Gated(s, domain, e) && InWindow(e, asOf) ==> e <= d
  }

  /******* What each import keeps *******/

  // A gated issue was finished and has its points.
  ghost predicate GatedFinished(s: Store, runs: seq<Run>, domain: string, d: int) {
    exists i: nat ::
      FinishedOn(s, runs, i, domain, d) && RowsAt(G.AfterAll(s, runs), IssueKey(domain, d)) == runs[i].points
  }

  predicate FinishedOn(s: Store, runs: seq<Run>, i: nat, domain: string, d: int) {
    FinishedIssue(s, runs, i, domain) && runs[i].date == Some(d)
  }

  // Run i is an issue of the series and was not stopped.
  predicate FinishedIssue(s: Store, runs: seq<Run>, i: nat, domain: string) {
    i < |runs| && InSeries(runs[i], domain) && Finished(s, runs, i)
  }

  // A finished issue is gated with its points, or has none and comes before any gate row.
  ghost predicate Settled(t: Store, domain: string, r: Run)
    requires r.date.Some?
  {
    var d := r.date.value;
    || (Gated(t, domain, d) && RowsAt(t, IssueKey(domain, d)) == r.points)
    || (r.points == [] && forall e :: e <= d ==> !Gated(t, domain, e))
  }

  ghost predicate SeriesInv(s: Store, runs: seq<Run>, domain: string) {
    var t := G.AfterAll(s, runs);
    && (forall d :: Gated(t, domain, d) ==> GatedFinished(s, runs, domain, d))
    && (forall i: nat :: FinishedIssue(s, runs, i, domain) ==> Settled(t, domain, runs[i]))
  }

  lemma PrefixSeries(s: Store, runs: seq<Run>, domain: string)
    requires Series(s, runs, domain) && runs != []
    ensures Series(s, runs[..|runs| - 1], domain)
  {
    hide G.AfterAll, IsNearest, KeyOf, FromOneFile;
    var before := runs[..|runs| - 1];
    assert forall i :: 0 <= i < |before| ==> before[i] == runs[i];
  }

  // What one import does to the series' gate rows and their rows.
  ghost predicate Kept(t: Store, u: Store, domain: string, d: int) {
    (Gated(t, domain, d) <==> Gated(u, domain, d)) &&
    (Gated(t, domain, d) ==> RowsAt(t, IssueKey(domain, d)) == RowsAt(u, IssueKey(domain, d)))
  }

  lemma ImportStep(t: Store, r: Run, domain: string)
    requires G.Compact(t) && InSeries(r, domain) && r.kind.NodelistIssue?
    ensures var u, d := After(t, r), r.date.value;
      if Completes(t, r) then
        && !Gated(t, domain, d) && Gated(u, domain, d) && RowsAt(u, IssueKey(domain, d)) == r.points
        && forall e :: e != d ==> Kept(t, u, domain, e)
      else forall e :: Kept(t, u, domain, e)
  {
    hide After, Completes, Decide, G.Final;
    var u, d, k := After(t, r), r.date.value, KeyOf(r);
    assert k == IssueKey(domain, d);
    if Completes(t, r) {
      G.WholePlan(t, r);
      G.FinalRows(t, r);
      CompletedWasNew(t, r);
    } else {
      G.StoppedRun(t, r);
      StoppedWasNew(t, r);
    }
    forall e | e != d || !Completes(t, r) ensures Kept(t, u, domain, e) {
      G.OutsideKey(t, u, k, IssueKey(domain, e));
    }
  }

  // A run of another network or source, complete or stopped, changes none of it.
  lemma OtherStep(t: Store, r: Run, domain: string)
    requires G.Compact(t) && !InSeries(r, domain)
    ensures forall e :: Kept(t, After(t, r), domain, e)
  {
    hide After, Completes, Decide, G.Final;
    if r.date.None? {
      G.DatelessRun(t, r);
    } else {
      var u, k := After(t, r), KeyOf(r);
      if Completes(t, r) {
        G.WholePlan(t, r);
        G.FinalRows(t, r);
      } else {
        G.StoppedRun(t, r);
      }
      forall e ensures Kept(t, u, domain, e) {
        G.OutsideKey(t, u, k, IssueKey(domain, e));
      }
    }
  }

  lemma CompletedWasNew(t: Store, r: Run)
    requires Completes(t, r) && r.kind.NodelistIssue?
    ensures KeyOf(r) !in t.gate
  {}

  lemma StoppedWasNew(t: Store, r: Run)
    requires !Completes(t, r) && r.kind.NodelistIssue? && r.date.Some?
    ensures After(t, r) == t || KeyOf(r) !in t.gate
  {
    if Decide(t, r) != Go {
      NothingRan(t, 0);
    }
  }

  lemma FinishedPrefix(s: Store, runs: seq<Run>, i: nat)
    requires i + 1 < |runs|
    ensures Finished(s, runs, i) == Finished(s, runs[..|runs| - 1], i)
  {
    assert runs[..|runs| - 1][..i] == runs[..i];
  }

  lemma {:induction false} SeriesKept(s: Store, runs: seq<Run>, domain: string)
    requires G.Compact(s) && Series(s, runs, domain) && forall d :: !Gated(s, domain, d)
    ensures SeriesInv(s, runs, domain)
    decreases |runs|
  {
    if runs != [] {
      var before, n := runs[..|runs| - 1], |runs| - 1;
      PrefixSeries(s, runs, domain);
      SeriesKept(s, before, domain);
      G.AllCompact(s, before);
      GatedKept(s, runs, domain);
      AllSettled(s, runs, domain);
    }
  }

  lemma AllSettled(s: Store, runs: seq<Run>, domain: string)
    requires runs != [] && Series(s, runs, domain)
    requires SeriesInv(s, runs[..|runs| - 1], domain)
    requires G.Compact(G.AfterAll(s, runs[..|runs| - 1]))
    ensures forall i: nat :: FinishedIssue(s, runs, i, domain) ==> Settled(G.AfterAll(s, runs), domain, runs[i])
  {
    hide G.AfterAll, Finished, Gated, GatedFinished, Settled, IsNearest, G.Compact;
    var n := |runs| - 1;
    forall i: nat | FinishedIssue(s, runs, i, domain) ensures Settled(G.AfterAll(s, runs), domain, runs[i]) {
      if i < n {
        FinishedPrefix(s, runs, i);
        assert FinishedIssue(s, runs[..n], i, domain);
        SettledKept(s, runs, domain, i);
      } else {
        NewSettled(s, runs, domain);
      }
    }
  }

  lemma GatedKept(s: Store, runs: seq<Run>, domain: string)
    requires runs != [] && Series(s, runs, domain)
    requires SeriesInv(s, runs[..|runs| - 1], domain)
    requires G.Compact(G.AfterAll(s, runs[..|runs| - 1]))
    ensures forall d :: Gated(G.AfterAll(s, runs), domain, d) ==> GatedFinished(s, runs, domain, d)
  {
    var before, n := runs[..|runs| - 1], |runs| - 1;
    var t, r := G.AfterAll(s, before), runs[n];
    assert G.AfterAll(s, runs) == After(t, r);
    NewestFinished(s, runs);
    hide After, Completes, Decide, G.AfterAll, Finished, IsNearest, RowsAt, InSeries, FromOneFile;
    if InSeries(r, domain) {
      ImportStep(t, r, domain);
    } else {
      OtherStep(t, r, domain);
    }
    forall d | Gated(G.AfterAll(s, runs), domain, d) ensures GatedFinished(s, runs, domain, d) {
      if InSeries(r, domain) && Completes(t, r) && r.date == Some(d) {
        assert FinishedOn(s, runs, n, domain, d);
      } else {
        assert Kept(t, After(t, r), domain, d);
        var i: nat :| FinishedOn(s, before, i, domain, d) && RowsAt(t, IssueKey(domain, d)) == before[i].points;
        FinishedPrefix(s, runs, i);
        assert FinishedOn(s, runs, i, domain, d);
      }
    }
  }

  lemma NewestFinished(s: Store, runs: seq<Run>)
    requires runs != []
    ensures Completes(G.AfterAll(s, runs[..|runs| - 1]), runs[|runs| - 1]) ==> Finished(s, runs, |runs| - 1)
  {}

  lemma SettledKept(s: Store, runs: seq<Run>, domain: string, i: nat)
    requires runs != [] && Series(s, runs, domain) && i < |runs| - 1 && InSeries(runs[i], domain)
    requires var t := G.AfterAll(s, runs[..|runs| - 1]); G.Compact(t) && Settled(t, domain, runs[i])
    ensures Settled(G.AfterAll(s, runs), domain, runs[i])
  {
    var t, r := G.AfterAll(s, runs[..|runs| - 1]), runs[|runs| - 1];
    var u, d := After(t, r), runs[i].date.value;
    hide After, Completes, Decide, FromOneFile;
    if InSeries(r, domain) {
      ImportStep(t, r, domain);
      assert d <= r.date.value;
    } else {
      OtherStep(t, r, domain);
    }
    if Gated(t, domain, d) {
      assert Kept(t, u, domain, d);
    } else if InSeries(r, domain) && Completes(t, r) && r.date.value == d {
      assert runs[i].points == r.points;
    } else {
      forall e | e <= d ensures !Gated(u, domain, e) {
        assert Kept(t, u, domain, e);
      }
    }
  }

  lemma NewSettled(s: Store, runs: seq<Run>, domain: string)
    requires runs != [] && Series(s, runs, domain) && FinishedIssue(s, runs, |runs| - 1, domain)
    requires SeriesInv(s, runs[..|runs| - 1], domain)
    requires G.Compact(G.AfterAll(s, runs[..|runs| - 1]))
    ensures Settled(G.AfterAll(s, runs), domain, runs[|runs| - 1])
  {
    var before, n := runs[..|runs| - 1], |runs| - 1;
    var t, r := G.AfterAll(s, before), runs[n];
    ImportStep(t, r, domain);
    if !Completes(t, r) {
      G.SkippedRun(t, r);
      if Gated(t, domain, r.date.value) {
        assert GatedFinished(s, before, domain, r.date.value);
      } else {
        NothingGated(t, r, domain);
      }
    }
  }

  // An issue passed over without a gate row has no points, and the series no gate rows.
  lemma NothingGated(t: Store, r: Run, domain: string)
    requires InSeries(r, domain) && r.kind.NodelistIssue? && IsNearest(t, KeyOf(r), r.near)
    requires Decide(t, r) != Go && !Gated(t, domain, r.date.value)
    ensures r.points == [] && forall d :: !Gated(t, domain, d)
  {}

  /******* Main results *******/

  // Run i is the last finished issue up to a date.
  ghost predicate LastFinished(s: Store, runs: seq<Run>, domain: string, i: nat, asOf: int) {
    && FinishedIssue(s, runs, i, domain) && runs[i].date.value <= asOf
    && forall j: nat :: i < j && FinishedIssue(s, runs, j, domain) ==> runs[j].date.value > asOf
  }

  // As of any date, the snapshot is the first row of each address in the last
  // nodelist imported up to that date, or nothing when that is too old.
  lemma SnapshotIsLastIssue(s: Store, runs: seq<Run>, domain: string, asOf: int, last: nat, shown: seq<Row>)
    requires G.Compact(s) && Series(s, runs, domain) && forall d :: !Gated(s, domain, d)
    requires LastFinished(s, runs, domain, last, asOf)
    requires IsSnapshot(G.AfterAll(s, runs), domain, asOf, shown)
    ensures multiset(shown)
         == multiset(if asOf - runs[last].date.value < 60 then FirstRows(runs[last].points) else [])
  {
    SeriesKept(s, runs, domain);
    NoneGatedSince(s, runs, domain, asOf, last);
    assert FromOneFile(runs[last].points);
    hide G.AfterAll, Finished, RowsAt, Series, IsCollapse, FromOneFile;
    var t, d := G.AfterAll(s, runs), runs[last].date.value;
    assert Settled(t, domain, runs[last]);
    if Gated(t, domain, d) && InWindow(d, asOf) {
      var e :| Newest(t, domain, asOf, e) && IsCollapse(RowsAt(t, IssueKey(domain, e)), shown);
      assert e == d;
      ShowsFirstRows(runs[last].points, shown);
    }
  }

  // A reader sees all inline points of that nodelist exactly when no address
  // repeats in it.
  lemma SnapshotIsWholeIssueIff(s: Store, runs: seq<Run>, domain: string, asOf: int, last: nat, shown: seq<Row>)
    requires G.Compact(s) && Series(s, runs, domain) && forall d :: !Gated(s, domain, d)
    requires LastFinished(s, runs, domain, last, asOf) && InWindow(runs[last].date.value, asOf)
    requires IsSnapshot(G.AfterAll(s, runs), domain, asOf, shown)
    ensures multiset(shown) == multiset(runs[last].points) <==> NoConflict(runs[last].points)
  {
    SnapshotIsLastIssue(s, runs, domain, asOf, last, shown);
    AllFirstIff(runs[last].points);
  }

  // A nodelist with two lines for one point.
  function TwinIssue(domain: string, d: int, p: PointLines.Point, q: PointLines.Point): Run {
    Run(domain, NODELIST_SOURCE, Some(d), PointLines.NumberedPoints([p, q]), NodelistIssue(false), None, true, 2)
  }

  // Both rows are stored and counted; a reader sees the first.
  lemma RepeatedAddressIsHidden(domain: string, d: int, p: PointLines.Point, q: PointLines.Point, shown: seq<Row>)
    requires p.addr == q.addr && p.pointNum == q.pointNum
    requires IsSnapshot(After(Store(map[], map[]), TwinIssue(domain, d, p, q)), domain, d, shown)
    ensures var t, r := After(Store(map[], map[]), TwinIssue(domain, d, p, q)), TwinIssue(domain, d, p, q);
      && RowsAt(t, KeyOf(r)) == r.points && t.gate == map[KeyOf(r) := GateRow(2)]
      && r.points[0].item == p && r.points[1].item == q && shown == [r.points[0]]
  {
    var s, r := Store(map[], map[]), TwinIssue(domain, d, p, q);
    var t := After(s, r);
    TwinCompletes(s, r);
    G.WholePlan(s, r);
    SecondHidden(p, q);
    G.FinalRows(s, r);
    hide After, FirstRows, PointLines.NumberedPoints, FromOneFile, IsCollapse;
    assert IssueKey(domain, d) == KeyOf(r);
    assert Newest(t, domain, d, d);
    var e :| Newest(t, domain, d, e) && IsCollapse(RowsAt(t, IssueKey(domain, e)), shown);
    ShowsFirstRows(r.points, shown);
    OneShown(shown, r.points[0]);
  }

  lemma TwinCompletes(s: Store, r: Run)
    requires s == Store(map[], map[]) && r.kind == NodelistIssue(false) && r.date.Some?
    requires |r.points| == 2 && r.native && r.crashAfter == 2
    ensures Completes(s, r)
  {}

  lemma OneShown(shown: seq<Row>, r: Row)
    requires multiset(shown) == multiset([r])
    ensures shown == [r]
  {
    assert |shown| == |multiset(shown)| == 1;
    assert shown[0] in multiset(shown);
  }

  // The inner condition of a query for one network's nodelist source.
  function FromNodelists(domain: string): Seen -> bool {
    (x: Seen) => x.key.domain == Normalized(domain) && x.key.source == NODELIST_SOURCE
  }

  function RowsOf(shown: seq<Seen>): (rows: seq<Row>)
    ensures |rows| == |shown|
  {
    seq(|shown|, i requires 0 <= i < |shown| => shown[i].row)
  }

  // Its answers are the snapshots above, whatever the other sources have.
  lemma SourceViewIsSnapshot(s: Store, domain: string, asOf: int, priority: Key -> int, shown: seq<Seen>)
    requires IsAnswer(s, asOf, priority, FromNodelists(domain), shown)
    ensures IsSnapshot(s, domain, asOf, RowsOf(shown))
  {
    var keep := FromNodelists(domain);
    if e :| Gated(s, domain, e) && InWindow(e, asOf) {
      var d := NewestExists(s, domain, asOf, e);
      forall x | Selected(s, asOf, keep, x) ensures x.key == IssueKey(domain, d) {
        assert Gated(s, domain, x.key.date) && IssueKey(domain, d) == x.key.(date := d);
      }
      assert IsNewest(s, IssueKey(domain, d), asOf) by {
        forall f | IssueKey(domain, d).(date := f) in s.gate && InWindow(f, asOf) ensures f <= d {
          assert Gated(s, domain, f);
        }
      }
      ViewCollapses(s, asOf, priority, keep, IssueKey(domain, d), shown);
    } else if shown != [] {
      assert shown[0] in shown;
      assert Gated(s, domain, shown[0].key.date);
    }
  }

  lemma {:induction false} NewestExists(s: Store, domain: string, asOf: int, e: int) returns (d: int)
    requires Gated(s, domain, e) && InWindow(e, asOf)
    ensures Newest(s, domain, asOf, d)
    decreases asOf - e
  {
    if f :| Gated(s, domain, f) && InWindow(f, asOf) && f > e {
      d := NewestExists(s, domain, asOf, f);
    } else {
      d := e;
    }
  }

  // An answer about one issue is a collapse of its rows.
  lemma ViewCollapses(s: Store, asOf: int, priority: Key -> int, keep: Seen -> bool, k: Key, shown: seq<Seen>)
    requires IsAnswer(s, asOf, priority, keep, shown)
    requires forall row :: row in RowsAt(s, k) ==> Selected(s, asOf, keep, Seen(k, row))
    requires forall x :: Selected(s, asOf, keep, x) ==> x.key == k
    ensures IsCollapse(RowsAt(s, k), RowsOf(shown))
  {
    hide IsNewest, RowsAt, SamePoint, IsLeast, IsAnswer, Selected;
    var rows, seen := RowsAt(s, k), RowsOf(shown);
    AnswerOrdered(s, asOf, priority, keep, k, shown);
    forall row | row in seen ensures IsLeast(rows, row) {
      var i :| 0 <= i < |shown| && shown[i].row == row;
      ShownLeast(s, asOf, priority, keep, k, shown, i);
    }
    forall row | row in rows ensures exists w :: w in seen && SamePoint(w, row) {
      AddressShown(s, asOf, priority, keep, k, shown, row);
    }
  }

  lemma AnswerOrdered(s: Store, asOf: int, priority: Key -> int, keep: Seen -> bool, k: Key, shown: seq<Seen>)
    requires IsAnswer(s, asOf, priority, keep, shown)
    requires forall x :: Selected(s, asOf, keep, x) ==> x.key == k
    ensures forall i, j :: 0 <= i < j < |shown| ==>
      !SamePoint(shown[i].row, shown[j].row) && shown[i].row.conflictSequence <= shown[j].row.conflictSequence
  {
    hide IsNewest, RowsAt, SamePoint, Selected;
    assert forall i :: 0 <= i < |shown| ==> shown[i] in shown;
    forall i, j | 0 <= i < j < |shown|
      ensures !SamePoint(shown[i].row, shown[j].row) && shown[i].row.conflictSequence <= shown[j].row.conflictSequence
    {
      assert !SameAddress(shown[i], shown[j]) && AtMost(priority, shown[i], shown[j]);
    }
  }

  lemma ShownLeast(s: Store, asOf: int, priority: Key -> int, keep: Seen -> bool, k: Key, shown: seq<Seen>, i: nat)
    requires IsAnswer(s, asOf, priority, keep, shown) && i < |shown|
    requires forall row :: row in RowsAt(s, k) ==> Selected(s, asOf, keep, Seen(k, row))
    requires forall x :: Selected(s, asOf, keep, x) ==> x.key == k
    ensures IsLeast(RowsAt(s, k), shown[i].row)
  {
    hide IsNewest, RowsAt, SamePoint;
    var x := shown[i];
    assert x in shown && x.key == k;
    forall other | other in RowsAt(s, k) && SamePoint(other, x.row)
      ensures x.row.conflictSequence <= other.conflictSequence
    {
      assert SameAddress(Seen(k, other), x);
      assert AtMost(priority, x, Seen(k, other));
    }
  }

  lemma AddressShown(s: Store, asOf: int, priority: Key -> int, keep: Seen -> bool, k: Key, shown: seq<Seen>,
                     row: Row)
    requires IsAnswer(s, asOf, priority, keep, shown) && Selected(s, asOf, keep, Seen(k, row))
    ensures exists w :: w in RowsOf(shown) && SamePoint(w, row)
  {
    hide IsNewest, RowsAt, Selected, IsWinner, AtMost;
    var x := Seen(k, row);
    assert SamePoint(x.row, x.row);
    var w: Seen :| w in shown && SamePoint(w.row, row);
    var i :| 0 <= i < |shown| && shown[i] == w;
    assert RowsOf(shown)[i] in RowsOf(shown) && SamePoint(RowsOf(shown)[i], row);
  }

  lemma NoneGatedSince(s: Store, runs: seq<Run>, domain: string, asOf: int, last: nat)
    requires Series(s, runs, domain) && SeriesInv(s, runs, domain) && LastFinished(s, runs, domain, last, asOf)
    ensures forall e :: Gated(G.AfterAll(s, runs), domain, e) && e <= asOf ==> e <= runs[last].date.value
  {
    hide G.AfterAll, Finished, RowsAt;
    var t := G.AfterAll(s, runs);
    forall e | Gated(t, domain, e) && e <= asOf ensures e <= runs[last].date.value {
      assert GatedFinished(s, runs, domain, e);
      var i: nat :| FinishedOn(s, runs, i, domain, e);
      assert i <= last;
    }
  }

  // Before the first finished issue there is nothing to see.
  lemma NothingBeforeFirst(s: Store, runs: seq<Run>, domain: string, asOf: int, shown: seq<Row>)
    requires G.Compact(s) && Series(s, runs, domain) && forall d :: !Gated(s, domain, d)
    requires forall i: nat :: FinishedIssue(s, runs, i, domain) ==> runs[i].date.value > asOf
    requires IsSnapshot(G.AfterAll(s, runs), domain, asOf, shown)
    ensures shown == []
  {
    SeriesKept(s, runs, domain);
    var t := G.AfterAll(s, runs);
    forall e | Gated(t, domain, e) ensures e > asOf {
      assert GatedFinished(s, runs, domain, e);
      var i: nat :| FinishedOn(s, runs, i, domain, e);
    }
  }

  // A network whose nodelists never had inline points never gets a gate row, unless
  // a backfill asks for rows for their own sake.
  lemma {:induction false} NoPointsNoGate(s: Store, runs: seq<Run>, domain: string)
    requires G.Compact(s) && Series(s, runs, domain) && forall d :: !Gated(s, domain, d)
    requires forall i :: 0 <= i < |runs| && InSeries(runs[i], domain) ==>
      runs[i].points == [] && runs[i].kind == NodelistIssue(false)
    ensures forall d :: !Gated(G.AfterAll(s, runs), domain, d)
    decreases |runs|
  {
    if runs != [] {
      var before, n := runs[..|runs| - 1], |runs| - 1;
      PrefixSeries(s, runs, domain);
      G.AllCompact(s, before);
      NoPointsNoGate(s, before, domain);
      var t, r := G.AfterAll(s, before), runs[n];
      hide After, Decide, Completes, IsNearest, FromOneFile;
      if InSeries(r, domain) {
        NearNothing(t, r, domain);
        G.SkippedRun(t, r);
      } else {
        OtherStep(t, r, domain);
        forall d ensures !Gated(After(t, r), domain, d) {
          assert Kept(t, After(t, r), domain, d);
        }
      }
    }
  }

  lemma NearNothing(t: Store, r: Run, domain: string)
    requires InSeries(r, domain) && IsNearest(t, KeyOf(r), r.near)
    requires r.points == [] && r.kind == NodelistIssue(false)
    requires forall d :: !Gated(t, domain, d)
    ensures Decide(t, r) == NothingToGate
  {
    if r.near.Some? {
      assert Gated(t, domain, r.near.value.date);
    }
  }
}
