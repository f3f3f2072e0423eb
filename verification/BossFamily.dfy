/** The boss family of pointlists (FTS-5002 sections 2.1 and 2.3): Boss lines set
    the boss, point lines attach to it (internal/parser/pointlist.go:346-422). */
module BossFamily {
  import opened Text
  import opened Keywords
  import opened Addresses
  import opened Duplicates
  import opened PointLines
  import opened Folds

  datatype State = State(boss: Option<Addr>, points: seq<Point>,
                         bossCount: nat, skippedLines: nat, skippedBosses: nat)

  const INIT := State(None, [], 0, 0, 0)

  predicate IsPointLineKeyword(k: Keyword) {
    k.NoWord? || k.PointWord? || k.Pvt? || k.Down? || k.Hold?
  }

  // The address a Boss line states, if it can be read.
  function BossOf(fields: seq<string>, defaultZone: int): Option<Addr> {
    if |fields| < 2 then None else ParseAddress(Trim(fields[1]), defaultZone)
  }

  function Step(defaultZone: int, st: State, raw: string): State {
    match ReadLine(raw)
    case Nothing => st
    case Fields(keyword, fields) =>
      var skip := st.(skippedLines := st.skippedLines + 1);
      if keyword == Boss then
        var boss := BossOf(fields, defaultZone);
        if boss.Some? then st.(boss := boss, bossCount := st.bossCount + 1)
        else if |fields| < 2 then skip.(boss := None)
        else skip.(boss := None, skippedBosses := st.skippedBosses + 1)
      else if IsPointLineKeyword(keyword) then
        var point := ParsePointFields(fields);
        if st.boss.None? || point.None? then skip
        else st.(points := st.points + [point.value.(addr := st.boss.value, rawLine := raw)])
      else skip
  }

  function Stepper(defaultZone: int): (State, string) -> State {
    (st, raw) => Step(defaultZone, st, raw)
  }

  function Run(defaultZone: int, lines: seq<string>): State {
    Fold(Stepper(defaultZone), INIT, lines)
  }

  method ParseBossFamily(lines: seq<string>, defaultZone: int)
    returns (points: seq<Entry<Point>>, bossCount: nat, skippedLines: nat, skippedBosses: nat)
    ensures var st := Run(defaultZone, lines);
      && points == NumberedPoints(st.points)
      && (bossCount, skippedLines, skippedBosses) == (st.bossCount, st.skippedLines, st.skippedBosses)
  {
    hide ReadLine, ParsePointFields, ParseAddress, Trim, Numbered, KeysOf, KeyOf, IndicesOf;
    var out := new DuplicateTracker<Point>();
    var bossZone, bossNet, bossNode := 0, 0, 0;
    var haveBoss := false;
    bossCount, skippedLines, skippedBosses := 0, 0, 0;
    for i := 0 to |lines|
      invariant fresh(out) && out.Valid() && out.keys == KeysOf(out.items)
      invariant Run(defaultZone, lines[..i]) ==
        State(if haveBoss then Some(Addr(bossZone, bossNet, bossNode)) else None, out.items,
              bossCount, skippedLines, skippedBosses)
    {
      FoldNext(Stepper(defaultZone), INIT, lines, i);
      var line := ReadLine(lines[i]);
      if line.Nothing? {
        continue;
      }
      var fields := line.fields;
      if line.keyword == Boss {
        if |fields| < 2 {
          skippedLines := skippedLines + 1;
          haveBoss := false;
          continue;
        }
        var addr := ParseAddress(Trim(fields[1]), defaultZone);
        if addr.None? {
          skippedLines := skippedLines + 1;
          skippedBosses := skippedBosses + 1;
          haveBoss := false;
          continue;
        }
        bossZone, bossNet, bossNode := addr.value.zone, addr.value.net, addr.value.node;
        haveBoss := true;
        bossCount := bossCount + 1;
        continue;
      }
      if IsPointLineKeyword(line.keyword) {
        if !haveBoss {
          skippedLines := skippedLines + 1;
          continue;
        }
        var point := ParsePointFields(fields);
        if point.None? {
          skippedLines := skippedLines + 1;
          continue;
        }
        var p := point.value.(addr := Addr(bossZone, bossNet, bossNode), rawLine := lines[i]);
        KeysOfNext(out.items, p);
        out.Add(p, KeyOf(p));
      } else {
        skippedLines := skippedLines + 1;
      }
    }
    assert lines[..|lines|] == lines;
    points := out.entries;
  }

  /******* Every line is accounted for *******/

  function CountLines(lines: seq<string>, p: string -> bool): nat {
    if lines == [] then 0 else (if p(lines[0]) then 1 else 0) + CountLines(lines[1..], p)
  }

  const DATA_LINE := (raw: string) => ReadLine(raw).Fields?

  predicate IsBossLine(raw: string) {
    var line := ReadLine(raw);
    line.Fields? && line.keyword == Boss
  }

  // A Boss line whose address can be read, and one that has an address that cannot.
  function GoodBoss(defaultZone: int): string -> bool {
    (raw: string) => SetsBoss(defaultZone, raw)
  }

  function BadBoss(defaultZone: int): string -> bool {
    (raw: string) => IsBossLine(raw) && |ReadLine(raw).fields| >= 2 && !SetsBoss(defaultZone, raw)
  }

  // Each line that is not blank or a comment is exactly one of: a boss, a point, a
  // skipped line. The bosses counted are the Boss lines that can be read, the bosses
  // skipped those with an address that cannot.
  lemma {:induction false} LinesAccounted(defaultZone: int, st: State, lines: seq<string>)
    ensures var r := Fold(Stepper(defaultZone), st, lines);
      && r.bossCount + |r.points| + r.skippedLines
         == st.bossCount + |st.points| + st.skippedLines + CountLines(lines, DATA_LINE)
      && r.bossCount == st.bossCount + CountLines(lines, GoodBoss(defaultZone))
      && r.skippedBosses == st.skippedBosses + CountLines(lines, BadBoss(defaultZone))
    decreases |lines|
  {
    hide ReadLine, ParsePointFields, BossOf;
    if lines != [] {
      LinesAccounted(defaultZone, Step(defaultZone, st, lines[0]), lines[1..]);
    }
  }

  /******* No point lands under a stale boss *******/

  predicate SetsBoss(defaultZone: int, raw: string) {
    var line := ReadLine(raw);
    line.Fields? && line.keyword == Boss && BossOf(line.fields, defaultZone).Some?
  }

  // After a Boss line that cannot be read, nothing is emitted until one that can.
  lemma NoStaleBoss(defaultZone: int, before: seq<string>, bad: string, after: seq<string>)
    requires ReadLine(bad).Fields? && ReadLine(bad).keyword == Boss && !SetsBoss(defaultZone, bad)
    requires forall i :: 0 <= i < |after| ==> !SetsBoss(defaultZone, after[i])
    ensures Run(defaultZone, before + [bad] + after).points == Run(defaultZone, before).points
  {
    var f := Stepper(defaultZone);
    var st := Run(defaultZone, before);
    FoldAppend(f, INIT, before + [bad], after);
    FoldAppend(f, INIT, before, [bad]);
    assert Fold(f, st, [bad]) == Fold(f, f(st, bad), []);
    NoBossNoPoints(defaultZone, Step(defaultZone, st, bad), after);
  }

  lemma {:induction false} NoBossNoPoints(defaultZone: int, st: State, lines: seq<string>)
    requires st.boss.None?
    requires forall i :: 0 <= i < |lines| ==> !SetsBoss(defaultZone, lines[i])
    ensures Fold(Stepper(defaultZone), st, lines).points == st.points
    decreases |lines|
  {
    hide ReadLine, ParsePointFields, BossOf;
    if lines != [] {
      NoBossNoPoints(defaultZone, Step(defaultZone, st, lines[0]), lines[1..]);
    }
  }
}
