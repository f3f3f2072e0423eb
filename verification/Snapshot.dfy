/** One source's rows as a snapshot reader sees them: of the rows at one 4-D
    address only the one with the least conflict sequence
    (internal/storage/query_builder_points.go:123-146, the ORDER BY with LIMIT 1 BY). */
module Snapshot {
  import opened Addresses
  import opened Duplicates
  import opened PointLines

  // A stored row: a point of a file with its conflict marks.
  type Row = Entry<Point>

  predicate SamePoint(a: Row, b: Row) {
    a.item.addr == b.item.addr && a.item.pointNum == b.item.pointNum
  }

  // A result of the query over one issue's rows: one row for each address, the
  // least in sequence; equal sequences may come in any order.
  ghost predicate IsCollapse(rows: seq<Row>, shown: seq<Row>) {
    && (forall i, j :: 0 <= i < j < |shown| ==> !SamePoint(shown[i], shown[j]))
    && (forall i, j :: 0 <= i < j < |shown| ==> shown[i].conflictSequence <= shown[j].conflictSequence)
    && (forall r :: r in shown ==> IsLeast(rows, r))
    && (forall r :: r in rows ==> r in shown || exists w :: w in shown && SamePoint(w, r))
  }

  ghost predicate IsLeast(rows: seq<Row>, r: Row) {
    r in rows && forall other :: other in rows && SamePoint(other, r) ==> r.conflictSequence <= other.conflictSequence
  }

  // The rows of a parsed file: numbered by their keys, one key for each address.
  predicate FromOneFile(rows: seq<Row>) {
    && rows == Numbered(PointsOf(rows), KeysIn(rows))
    && forall i, j :: 0 <= i < j < |rows| ==> (rows[i].key == rows[j].key <==> SamePoint(rows[i], rows[j]))
  }

  function PointsOf(rows: seq<Row>): (points: seq<Point>)
    ensures |points| == |rows|
  {
    seq(|rows|, i requires 0 <= i < |rows| => rows[i].item)
  }

  function KeysIn(rows: seq<Row>): (keys: seq<string>)
    ensures |keys| == |rows|
  {
    seq(|rows|, i requires 0 <= i < |rows| => rows[i].key)
  }

  // What the parsers number is such a file.
  lemma ParsedRows(points: seq<Point>)
    ensures FromOneFile(NumberedPoints(points)) && PointsOf(NumberedPoints(points)) == points
  {
    hide KeyOf, IndicesOf;
    var rows := NumberedPoints(points);
    assert PointsOf(rows) == points && KeysIn(rows) == KeysOf(points);
    forall i, j | 0 <= i < j < |rows| ensures rows[i].key == rows[j].key <==> SamePoint(rows[i], rows[j]) {
      KeyIsAddress(points[i], points[j]);
    }
  }

  lemma KeyIsAddress(p: Point, q: Point)
    ensures KeyOf(p) == KeyOf(q) <==> p.addr == q.addr && p.pointNum == q.pointNum
  {
    if KeyOf(p) == KeyOf(q) {
      PointKeyInjective(p.addr, p.pointNum, q.addr, q.pointNum);
    }
  }

  // The first row of each address, in file order.
  function FirstRows(rows: seq<Row>): seq<Row> {
    if rows == [] then []
    else FirstRows(rows[..|rows| - 1]) + if rows[|rows| - 1].conflictSequence == 0 then [rows[|rows| - 1]] else []
  }

  predicate NoConflict(rows: seq<Row>) {
    forall i :: 0 <= i < |rows| ==> !rows[i].hasConflict
  }

  /******* Numbered rows *******/

  // The same address and sequence mean the same row of the file.
  lemma RowDetermined(rows: seq<Row>, i: nat, j: nat)
    requires FromOneFile(rows) && i < |rows| && j < |rows|
    requires SamePoint(rows[i], rows[j]) && rows[i].conflictSequence == rows[j].conflictSequence
    ensures i == j
  {
    hide IndicesOf;
    if i != j {
      assert rows[i].key == rows[j].key;
      NumberingIdentifies(PointsOf(rows), KeysIn(rows), i, j);
    }
  }

  // Every address has a row with sequence 0.
  lemma FirstExists(rows: seq<Row>, i: nat) returns (f: nat)
    requires FromOneFile(rows) && i < |rows|
    ensures f < |rows| && SamePoint(rows[f], rows[i]) && rows[f].conflictSequence == 0
  {
    var points, keys := PointsOf(rows), KeysIn(rows);
    IndicesAreOccurrences(keys, keys[i]);
    assert i in IndicesOf(keys, keys[i]);
    f := IndicesOf(keys, keys[i])[0];
    SequencesCountUp(points, keys, keys[i], 0);
    assert rows[f].key == rows[i].key;
  }

  /******* What is shown *******/

  lemma {:induction false} FirstRowsAre(rows: seq<Row>)
    ensures forall r :: r in FirstRows(rows) <==> r in rows && r.conflictSequence == 0
    decreases |rows|
  {
    if rows != [] {
      FirstRowsAre(rows[..|rows| - 1]);
      assert rows == rows[..|rows| - 1] + [rows[|rows| - 1]];
    }
  }

  lemma ShownIsFirst(rows: seq<Row>, shown: seq<Row>, r: Row)
    requires FromOneFile(rows) && IsCollapse(rows, shown)
    ensures r in shown <==> r in FirstRows(rows)
  {
    hide FromOneFile, FirstRows, IsLeast;
    assert SamePoint(r, r);
    FirstRowsAre(rows);
    if r in shown {
      LeastIsFirst(rows, r);
    }
    if r in rows && r.conflictSequence == 0 {
      var w :| w in shown && SamePoint(w, r);
      LeastIsFirst(rows, w);
      SameFirst(rows, w, r);
    }
  }

  lemma LeastIsFirst(rows: seq<Row>, r: Row)
    requires FromOneFile(rows) && IsLeast(rows, r)
    ensures r in rows && r.conflictSequence == 0
  {
    hide FromOneFile;
    var i :| 0 <= i < |rows| && rows[i] == r;
    var f := FirstExists(rows, i);
    assert rows[f] in rows;
  }

  lemma SameFirst(rows: seq<Row>, w: Row, r: Row)
    requires FromOneFile(rows) && w in rows && r in rows
    requires SamePoint(w, r) && w.conflictSequence == r.conflictSequence
    ensures w == r
  {
    hide FromOneFile, SamePoint;
    var i :| 0 <= i < |rows| && rows[i] == w;
    var j :| 0 <= j < |rows| && rows[j] == r;
    RowDetermined(rows, i, j);
  }

  predicate Distinct(s: seq<Row>) {
    forall i, j :: 0 <= i < j < |s| ==> s[i] != s[j]
  }

  lemma {:induction false} CountDistinct(s: seq<Row>, r: Row)
    requires Distinct(s)
    ensures multiset(s)[r] == if r in s then 1 else 0
    decreases |s|
  {
    if s != [] {
      var before, last := s[..|s| - 1], s[|s| - 1];
      assert s == before + [last];
      CountDistinct(before, r);
      assert last !in before;
    }
  }

  lemma RowsDistinct(rows: seq<Row>)
    requires FromOneFile(rows)
    ensures Distinct(rows)
  {
    forall i, j | 0 <= i < j < |rows| ensures rows[i] != rows[j] {
      if rows[i] == rows[j] {
        RowDetermined(rows, i, j);
      }
    }
  }

  lemma {:induction false} FirstRowsDistinct(rows: seq<Row>)
    requires Distinct(rows)
    ensures Distinct(FirstRows(rows))
    decreases |rows|
  {
    if rows != [] {
      FirstRowsDistinct(rows[..|rows| - 1]);
      FirstRowsAre(rows[..|rows| - 1]);
    }
  }

  // A reader of one issue sees the first row of each address and no other.
  lemma ShowsFirstRows(rows: seq<Row>, shown: seq<Row>)
    requires FromOneFile(rows) && IsCollapse(rows, shown)
    ensures multiset(shown) == multiset(FirstRows(rows))
  {
    hide FromOneFile, FirstRows;
    RowsDistinct(rows);
    FirstRowsDistinct(rows);
    assert Distinct(shown);
    forall r ensures multiset(shown)[r] == multiset(FirstRows(rows))[r] {
      ShownIsFirst(rows, shown, r);
      CountDistinct(shown, r);
      CountDistinct(FirstRows(rows), r);
    }
  }

  // The first rows are the whole issue exactly when no address repeats in it.
  lemma AllFirstIff(rows: seq<Row>)
    requires FromOneFile(rows)
    ensures multiset(FirstRows(rows)) == multiset(rows) <==> NoConflict(rows)
  {
    FirstRowsAre(rows);
    if NoConflict(rows) {
      forall i | 0 <= i < |rows| ensures rows[i].conflictSequence == 0 {
        var f := FirstExists(rows, i);
        AloneIsFirst(rows, f, i);
      }
      AllFirst(rows);
    } else {
      var i :| 0 <= i < |rows| && rows[i].hasConflict;
      var later := LaterRow(rows, i);
      assert rows[later] in multiset(rows) && rows[later] !in multiset(FirstRows(rows));
    }
  }

  lemma AloneIsFirst(rows: seq<Row>, f: nat, i: nat)
    requires FromOneFile(rows) && f < |rows| && i < |rows| && SamePoint(rows[f], rows[i]) && !rows[i].hasConflict
    ensures f == i
  {
    assert f != i ==> rows[f].key == rows[i].key;
    ConflictMeansShared(PointsOf(rows), KeysIn(rows), i);
  }

  // An address that conflicts has a row that is not its first.
  lemma LaterRow(rows: seq<Row>, i: nat) returns (j: nat)
    requires FromOneFile(rows) && i < |rows| && rows[i].hasConflict
    ensures j < |rows| && rows[j].conflictSequence != 0
  {
    var points, keys := PointsOf(rows), KeysIn(rows);
    SequencesCountUp(points, keys, keys[i], 1);
    j := IndicesOf(keys, keys[i])[1];
  }

  lemma {:induction false} AllFirst(rows: seq<Row>)
    requires forall i :: 0 <= i < |rows| ==> rows[i].conflictSequence == 0
    ensures FirstRows(rows) == rows
    decreases |rows|
  {
    if rows != [] {
      AllFirst(rows[..|rows| - 1]);
    }
  }

  // Two lines for one point: the first row is shown, the second is not.
  lemma SecondHidden(p: Point, q: Point)
    requires p.addr == q.addr && p.pointNum == q.pointNum
    ensures var rows := NumberedPoints([p, q]);
      FromOneFile(rows) && rows[0].item == p && rows[1].item == q && FirstRows(rows) == [rows[0]]
  {
    hide KeyOf, Numbered, FirstRows, IndicesOf;
    var points, rows := [p, q], NumberedPoints([p, q]);
    ParsedRows(points);
    assert rows[0].item == points[0] && rows[1].item == points[1];
    FirstIsEarliest(points);
    if rows[1].conflictSequence == 0 {
      RowDetermined(rows, 0, 1);
    }
    TwoRows(rows);
  }

  lemma FirstIsEarliest(points: seq<Point>)
    requires points != []
    ensures NumberedPoints(points)[0].conflictSequence == 0
  {}

  lemma TwoRows(rows: seq<Row>)
    requires |rows| == 2 && rows[0].conflictSequence == 0 && rows[1].conflictSequence != 0
    ensures FirstRows(rows) == [rows[0]]
  {
    var before := rows[..1];
    assert before[0] == rows[0] && before[..0] == [];
    assert FirstRows(before) == [rows[0]];
  }
}
