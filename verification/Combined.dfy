/** The combined or V7 pointlist (FTS-5002 section 2.2): a nodelist whose node
    lines set the context and whose Point lines are the points
    (internal/parser/pointlist_combined.go:18-103). */
module Combined {
  import opened Text
  import opened Keywords
  import opened Addresses
  import opened Duplicates
  import opened PointLines
  import opened Folds
  import BossFamily

  datatype State = State(zone: int, net: int, node: int, haveContext: bool, points: seq<Point>,
                         bossesWithPoints: set<string>, skippedLines: nat)

  function Init(defaultZone: int): State {
    State(defaultZone, 0, 0, false, [], {}, 0)
  }

  // The number of a context line: missing, unreadable and negative numbers are all refused.
  function ContextNum(fields: seq<string>): Option<int> {
    if |fields| < 2 then None
    else
      var n := Atoi(Trim(fields[1]));
      if n.Some? && n.value >= 0 then n else None
  }

  predicate IsNodeWord(k: Keyword) {
    k.NoWord? || k.Hub? || k.Pvt? || k.Down? || k.Hold?
  }

  predicate IsNetWord(k: Keyword) {
    k.Zone? || k.Region? || k.Host?
  }

  function Step(st: State, raw: string): State {
    match ReadLine(raw)
    case Nothing => st
    case Fields(keyword, fields) =>
      var n := ContextNum(fields);
      var skip := st.(skippedLines := st.skippedLines + 1);
      if keyword == Zone then
        if n.Some? then st.(zone := n.value, net := n.value, node := 0, haveContext := true)
        else skip.(haveContext := false)
      else if keyword == Region || keyword == Host then
        if n.Some? then st.(net := n.value, node := 0, haveContext := true)
        else skip.(haveContext := false)
      else if IsNodeWord(keyword) then
        if n.Some? && st.haveContext then st.(node := n.value)
        else skip.(haveContext := false)
      else if keyword == PointWord then
        var point := ParsePointFields(fields);
        if !st.haveContext || point.None? then skip
        else
          var a := Addr(st.zone, st.net, st.node);
          st.(points := st.points + [point.value.(addr := a, rawLine := raw)],
              bossesWithPoints := st.bossesWithPoints + {NodeKey(a)})
      else skip
  }

  function Stepper(): (State, string) -> State {
    (st, raw) => Step(st, raw)
  }

  function Run(defaultZone: int, lines: seq<string>): State {
    Fold(Stepper(), Init(defaultZone), lines)
  }

  method ParseCombinedFormat(lines: seq<string>, defaultZone: int)
    returns (points: seq<Entry<Point>>, bossCount: nat, skippedLines: nat)
    ensures var st := Run(defaultZone, lines);
      && points == NumberedPoints(st.points)
      && (bossCount, skippedLines) == (|st.bossesWithPoints|, st.skippedLines)
  {
    hide ReadLine, ParsePointFields, ContextNum, NodeKey, Numbered, KeysOf, KeyOf, IndicesOf;
    var out := new DuplicateTracker<Point>();
    var zone, curNet, curNode, haveContext := defaultZone, 0, 0, false;
    var bossesWithPoints: set<string> := {};
    skippedLines := 0;
    for i := 0 to |lines|
      invariant fresh(out) && out.Valid() && out.keys == KeysOf(out.items)
      invariant Run(defaultZone, lines[..i])
        == State(zone, curNet, curNode, haveContext, out.items, bossesWithPoints, skippedLines)
    {
      FoldNext(Stepper(), Init(defaultZone), lines, i);
      var line := ReadLine(lines[i]);
      if line.Nothing? {
        continue;
      }
      var fields := line.fields;
      var num := ContextNum(fields);
      match line.keyword {
        case Zone =>
          if num.Some? {
            zone, curNet, curNode := num.value, num.value, 0;
            haveContext := true;
          } else {
            skippedLines := skippedLines + 1;
            haveContext := false;
          }
        case Region | Host =>
          if num.Some? {
            curNet, curNode := num.value, 0;
            haveContext := true;
          } else {
            skippedLines := skippedLines + 1;
            haveContext := false;
          }
        case NoWord | Hub | Pvt | Down | Hold =>
          if num.Some? && haveContext {
            curNode := num.value;
          } else {
            skippedLines := skippedLines + 1;
            haveContext := false;
          }
        case PointWord =>
          var point := ParsePointFields(fields);
          if !haveContext || point.None? {
            skippedLines := skippedLines + 1;
            continue;
          }
          var p := point.value.(addr := Addr(zone, curNet, curNode), rawLine := lines[i]);
          bossesWithPoints := bossesWithPoints + {NodeKey(p.addr)};
          KeysOfNext(out.items, p);
          out.Add(p, KeyOf(p));
        case Boss | Unknown =>
          skippedLines := skippedLines + 1;
      }
    }
    assert lines[..|lines|] == lines;
    points, bossCount := out.entries, |bossesWithPoints|;
  }

  /******* Every line is accounted for *******/

  // The context lines taken: net lines with a number, and node lines with a number
  // where there is a context.
  function Taken(st: State, lines: seq<string>): nat
    decreases |lines|
  {
    if lines == [] then 0
    else (if TakesContext(st.haveContext, lines[0]) then 1 else 0) + Taken(Step(st, lines[0]), lines[1..])
  }

  predicate TakesContext(haveContext: bool, raw: string) {
    var line := ReadLine(raw);
    line.Fields? && ContextNum(line.fields).Some?
    && (IsNetWord(line.keyword) || (IsNodeWord(line.keyword) && haveContext))
  }

  // Each line that is not blank or a comment is exactly one of: a context line
  // taken, a point, a skipped line.
  lemma {:induction false} LinesAccounted(st: State, lines: seq<string>)
    ensures var r := Fold(Stepper(), st, lines);
      |r.points| + r.skippedLines + Taken(st, lines)
      == |st.points| + st.skippedLines + BossFamily.CountLines(lines, BossFamily.DATA_LINE)
    decreases |lines|
  {
    hide ReadLine, ParsePointFields, ContextNum, NodeKey;
    if lines != [] {
      LinesAccounted(Step(st, lines[0]), lines[1..]);
    }
  }

  /******* The boss count *******/

  function Bosses(points: seq<Point>): set<Addr> {
    set i | 0 <= i < |points| :: points[i].addr
  }

  function KeysOfBosses(bosses: set<Addr>): set<string> {
    set a | a in bosses :: NodeKey(a)
  }

  // The count reported is the number of different nodes that own a point.
  lemma BossCountIsOwners(defaultZone: int, lines: seq<string>)
    ensures var st := Run(defaultZone, lines); |st.bossesWithPoints| == |Bosses(st.points)|
  {
    BossKeysKept(Init(defaultZone), lines);
    AsManyKeysAsBosses(Bosses(Run(defaultZone, lines).points));
  }

  lemma BossesNext(points: seq<Point>, p: Point)
    ensures KeysOfBosses(Bosses(points + [p])) == KeysOfBosses(Bosses(points)) + {NodeKey(p.addr)}
  {
    hide NodeKey;
    var all := points + [p];
    assert Bosses(all) == Bosses(points) + {p.addr} by {
      assert all[|points|] == p;
      forall a | a in Bosses(points) ensures a in Bosses(all) {
        var i :| 0 <= i < |points| && points[i].addr == a;
        assert all[i] == points[i];
      }
    }
  }

  lemma {:induction false} BossKeysKept(st: State, lines: seq<string>)
    requires st.bossesWithPoints == KeysOfBosses(Bosses(st.points))
    ensures var r := Fold(Stepper(), st, lines); r.bossesWithPoints == KeysOfBosses(Bosses(r.points))
    decreases |lines|
  {
    hide ReadLine, ParsePointFields, ContextNum, NodeKey, Bosses, KeysOfBosses;
    if lines != [] {
      var next := Step(st, lines[0]);
      if next.points != st.points {
        BossesNext(st.points, next.points[|st.points|]);
      }
      BossKeysKept(next, lines[1..]);
    }
  }

  lemma {:induction false} AsManyKeysAsBosses(bosses: set<Addr>)
    ensures |KeysOfBosses(bosses)| == |bosses|
    decreases |bosses|
  {
    if a :| a in bosses {
      AsManyKeysAsBosses(bosses - {a});
      assert KeysOfBosses(bosses) == KeysOfBosses(bosses - {a}) + {NodeKey(a)};
      if NodeKey(a) in KeysOfBosses(bosses - {a}) {
        var b :| b in bosses - {a} && NodeKey(b) == NodeKey(a);
        AddrTextInjective(a, b);
      }
    }
  }

  /******* No point lands under a stale boss *******/

  predicate SetsNet(raw: string) {
    var line := ReadLine(raw);
    line.Fields? && IsNetWord(line.keyword) && ContextNum(line.fields).Some?
  }

  // After a context line without a number, nothing is emitted until a Zone,
  // Region or Host line has one again: node lines alone do not restore the context.
  lemma NoStaleContext(defaultZone: int, before: seq<string>, bad: string, after: seq<string>)
    requires ReadLine(bad).Fields? && ContextNum(ReadLine(bad).fields).None?
    requires IsNetWord(ReadLine(bad).keyword) || IsNodeWord(ReadLine(bad).keyword)
    requires forall i :: 0 <= i < |after| ==> !SetsNet(after[i])
    ensures Run(defaultZone, before + [bad] + after).points == Run(defaultZone, before).points
  {
    var f := Stepper();
    var st := Run(defaultZone, before);
    FoldAppend(f, Init(defaultZone), before + [bad], after);
    FoldAppend(f, Init(defaultZone), before, [bad]);
    assert Fold(f, st, [bad]) == Fold(f, f(st, bad), []);
    NoContextNoPoints(Step(st, bad), after);
  }

  lemma {:induction false} NoContextNoPoints(st: State, lines: seq<string>)
    requires !st.haveContext
    requires forall i :: 0 <= i < |lines| ==> !SetsNet(lines[i])
    ensures Fold(Stepper(), st, lines).points == st.points
    decreases |lines|
  {
    hide ReadLine, ParsePointFields, ContextNum;
    if lines != [] {
      NoContextNoPoints(Step(st, lines[0]), lines[1..]);
    }
  }
}
