/** Fakenet pointlists (FTS-5002 section 2.4): Host and Hub lines name the real
    boss and the node lines under them are its points
    (internal/parser/pointlist_combined.go:105-262). */
module Fakenet {
  import opened Text
  import opened Keywords
  import opened Addresses
  import opened Duplicates
  import opened PointLines
  import opened Folds
  import BossFamily

  datatype State = State(zone: int, boss: Option<Addr>, points: seq<Point>,
                         bossCount: nat, skippedLines: nat, skippedBosses: nat)

  function Init(defaultZone: int): State {
    State(defaultZone, None, [], 0, 0, 0)
  }

  // The first UBOSS:<address> field that can be read
  function UbossOf(fields: seq<string>, zone: int): Option<Addr> {
    if fields == [] then None
    else
      var f := Trim(fields[0]);
      var here := if |f| > 6 && EqualFold(f[..6], "UBOSS:") then ParseAddress(f[6..], zone) else None;
      if here.Some? then here else UbossOf(fields[1..], zone)
  }

  // resolveFakenetBoss: the system name when it is an address, else a UBOSS flag
  function ResolveBoss(fields: seq<string>, zone: int): Option<Addr> {
    var named := if |fields| > 2 then ParseAddress(Trim(fields[2]), zone) else None;
    if named.Some? then named else UbossOf(fields, zone)
  }

  function LeafAddress(fields: seq<string>, zone: int): Option<(Addr, int)> {
    if |fields| < 3 then None else ParseLeafAddress(Trim(fields[2]), zone)
  }

  function ZoneOf(fields: seq<string>, zone: int): int {
    if |fields| < 2 then zone
    else
      var n := Atoi(Trim(fields[1]));
      if n.Some? && n.value > 0 then n.value else zone
  }

  // A leaf line's point: its own 4-D address wins over the block's boss.
  function LeafPoint(fields: seq<string>, zone: int, boss: Option<Addr>, raw: string): Option<Point> {
    var point, own := ParsePointFields(fields), LeafAddress(fields, zone);
    if point.None? then None
    else if own.Some? then
      Some(point.value.(addr := own.value.0, pointNum := own.value.1, rawLine := raw))
    else if boss.Some? then Some(point.value.(addr := boss.value, rawLine := raw))
    else None
  }

  function Step(st: State, raw: string): State {
    match ReadLine(raw)
    case Nothing => st
    case Fields(keyword, fields) =>
      var skip := st.(skippedLines := st.skippedLines + 1);
      if keyword == Zone then st.(zone := ZoneOf(fields, st.zone), boss := None)
      else if keyword == Region then st.(boss := None)
      else if keyword == Hub || keyword == Host then
        var boss := ResolveBoss(fields, st.zone);
        if boss.Some? then st.(boss := boss, bossCount := st.bossCount + 1)
        else if keyword == Hub then st.(boss := None)
        else skip.(boss := None, skippedBosses := st.skippedBosses + 1)
      else if BossFamily.IsPointLineKeyword(keyword) then
        var point := LeafPoint(fields, st.zone, st.boss, raw);
        if point.Some? then st.(points := st.points + [point.value]) else skip
      else skip
  }

  function Stepper(): (State, string) -> State {
    (st, raw) => Step(st, raw)
  }

  function Run(defaultZone: int, lines: seq<string>): State {
    Fold(Stepper(), Init(defaultZone), lines)
  }

  method ParseFakenetFormat(lines: seq<string>, defaultZone: int)
    returns (points: seq<Entry<Point>>, bossCount: nat, skippedLines: nat, skippedBosses: nat)
    ensures var st := Run(defaultZone, lines);
      && points == NumberedPoints(st.points)
      && (bossCount, skippedLines, skippedBosses) == (st.bossCount, st.skippedLines, st.skippedBosses)
  {
    hide ReadLine, LeafPoint, ResolveBoss, Atoi, Trim, Numbered, KeysOf, KeyOf, IndicesOf;
    var out := new DuplicateTracker<Point>();
    var zone := defaultZone;
    var boss: Option<Addr> := None;
    bossCount, skippedLines, skippedBosses := 0, 0, 0;
    for i := 0 to |lines|
      invariant fresh(out) && out.Valid() && out.keys == KeysOf(out.items)
      invariant Run(defaultZone, lines[..i])
        == State(zone, boss, out.items, bossCount, skippedLines, skippedBosses)
    {
      FoldNext(Stepper(), Init(defaultZone), lines, i);
      var line := ReadLine(lines[i]);
      if line.Nothing? {
        continue;
      }
      var fields := line.fields;
      match line.keyword {
        case Zone =>
          if |fields| > 1 {
            var n := Atoi(Trim(fields[1]));
            if n.Some? && n.value > 0 {
              zone := n.value;
            }
          }
          boss := None;
        case Region =>
          boss := None;
        case Hub =>
          boss := ResolveBoss(fields, zone);
          if boss.Some? {
            bossCount := bossCount + 1;
          }
        case Host =>
          boss := ResolveBoss(fields, zone);
          if boss.None? {
            skippedLines := skippedLines + 1;
            skippedBosses := skippedBosses + 1;
            continue;
          }
          bossCount := bossCount + 1;
        case NoWord | PointWord | Pvt | Down | Hold =>
          var p := LeafPoint(fields, zone, boss, lines[i]);
          if p.None? {
            skippedLines := skippedLines + 1;
            continue;
          }
          KeysOfNext(out.items, p.value);
          out.Add(p.value, KeyOf(p.value));
        case Boss | Unknown =>
          skippedLines := skippedLines + 1;
      }
    }
    assert lines[..|lines|] == lines;
    points := out.entries;
  }

  /******* Every line is accounted for *******/

  // The lines taken that are no point: Zone, Region and Hub lines, and Host lines
  // whose boss can be read.
  function Taken(st: State, lines: seq<string>): nat
    decreases |lines|
  {
    if lines == [] then 0
    else (if TakesLine(st.zone, lines[0]) then 1 else 0) + Taken(Step(st, lines[0]), lines[1..])
  }

  predicate TakesLine(zone: int, raw: string) {
    var line := ReadLine(raw);
    line.Fields? && (line.keyword.Zone? || line.keyword.Region? || line.keyword.Hub?
                     || (line.keyword.Host? && ResolveBoss(line.fields, zone).Some?))
  }

  // The Host and Hub lines whose boss can be read, and the Host lines whose cannot.
  function Named(st: State, lines: seq<string>): nat
    decreases |lines|
  {
    if lines == [] then 0
    else (if Attaches(lines[0]) && ResolveBoss(ReadLine(lines[0]).fields, st.zone).Some? then 1 else 0)
         + Named(Step(st, lines[0]), lines[1..])
  }

  function Nameless(st: State, lines: seq<string>): nat
    decreases |lines|
  {
    if lines == [] then 0
    else
      var line := ReadLine(lines[0]);
      (if line.Fields? && line.keyword.Host? && ResolveBoss(line.fields, st.zone).None? then 1 else 0)
      + Nameless(Step(st, lines[0]), lines[1..])
  }

  // Each line that is not blank or a comment is exactly one of: a line taken, a
  // point, a skipped line. The bosses counted are those named, the bosses skipped
  // the Host lines that name none.
  lemma {:induction false} LinesAccounted(st: State, lines: seq<string>)
    ensures var r := Fold(Stepper(), st, lines);
      && |r.points| + r.skippedLines + Taken(st, lines)
         == |st.points| + st.skippedLines + BossFamily.CountLines(lines, BossFamily.DATA_LINE)
      && r.bossCount == st.bossCount + Named(st, lines)
      && r.skippedBosses == st.skippedBosses + Nameless(st, lines)
    decreases |lines|
  {
    hide ReadLine, LeafPoint, ResolveBoss, ZoneOf;
    if lines != [] {
      LinesAccounted(Step(st, lines[0]), lines[1..]);
    }
  }

  /******* The zone of the block *******/

  // A Zone line with a positive number sets the zone of the addresses that state
  // none: the boss of such a Host or Hub line is in that zone.
  lemma ZonelessBoss(st: State, zoneLine: string, hostLine: string)
    requires var z, h := ReadLine(zoneLine), ReadLine(hostLine);
      && z.Fields? && z.keyword.Zone? && |z.fields| >= 2
      && h.Fields? && (h.keyword.Host? || h.keyword.Hub?) && |h.fields| >= 3
    ensures var z, m := Atoi(Trim(ReadLine(zoneLine).fields[1])), MatchAddress(Trim(ReadLine(hostLine).fields[2]));
      var r := Step(Step(st, zoneLine), hostLine);
      m.Some? && m.value.zone.None? && ParseAddress(Trim(ReadLine(hostLine).fields[2]), 0).Some? ==>
        r.boss.Some? && r.boss.value.zone == if z.Some? && z.value >= 1 then z.value else st.zone
  {
    hide ReadLine, MatchAddress, Atoi, Trim;
  }

  /******* No point lands under a stale boss *******/

  // A Zone, Region or unresolvable Hub or Host line detaches the boss; no later
  // line attaches a point to one until a Host or Hub line resolves again. Only a
  // leaf that carries its own 4-D address is still emitted.
  predicate Detaches(raw: string, zone: int) {
    var line := ReadLine(raw);
    line.Fields? && (line.keyword.Zone? || line.keyword.Region?
                     || ((line.keyword.Hub? || line.keyword.Host?) && ResolveBoss(line.fields, zone).None?))
  }

  predicate Attaches(raw: string) {
    var line := ReadLine(raw);
    line.Fields? && (line.keyword.Hub? || line.keyword.Host?)
  }

  ghost predicate OwnAddress(raw: string, p: Point) {
    var line := ReadLine(raw);
    line.Fields? && exists zone :: LeafAddress(line.fields, zone) == Some((p.addr, p.pointNum))
  }

  ghost predicate OwnAddressIn(lines: seq<string>, p: Point) {
    exists i :: 0 <= i < |lines| && OwnAddress(lines[i], p)
  }

  lemma NoStaleBoss(defaultZone: int, before: seq<string>, bad: string, after: seq<string>, k: nat)
    requires Detaches(bad, Run(defaultZone, before).zone)
    requires forall i :: 0 <= i < |after| ==> !Attaches(after[i])
    requires |Run(defaultZone, before).points| <= k < |Run(defaultZone, before + [bad] + after).points|
    ensures OwnAddressIn(after, Run(defaultZone, before + [bad] + after).points[k])
  {
    hide ReadLine, LeafPoint, ResolveBoss, Attaches, OwnAddressIn;
    var f := Stepper();
    var st := Run(defaultZone, before);
    FoldAppend(f, Init(defaultZone), before + [bad], after);
    FoldAppend(f, Init(defaultZone), before, [bad]);
    assert Fold(f, st, [bad]) == Fold(f, f(st, bad), []);
    NoBossOwnAddresses(Step(st, bad), after, k);
  }

  lemma {:induction false} NoBossOwnAddresses(st: State, lines: seq<string>, k: nat)
    requires st.boss.None?
    requires forall i :: 0 <= i < |lines| ==> !Attaches(lines[i])
    requires |st.points| <= k < |Fold(Stepper(), st, lines).points|
    ensures OwnAddressIn(lines, Fold(Stepper(), st, lines).points[k])
    decreases |lines|
  {
    hide Step, Attaches, OwnAddress;
    var next := Step(st, lines[0]);
    var p := Fold(Stepper(), st, lines).points[k];
    LeafKeepsOwnAddress(st, lines[0]);
    PointsOnlyGrow(next, lines[1..]);
    if k < |next.points| {
      assert OwnAddress(lines[0], p);
    } else {
      NoBossOwnAddresses(next, lines[1..], k);
      var i :| 0 <= i < |lines| - 1 && OwnAddress(lines[1..][i], p);
      assert OwnAddress(lines[i + 1], p);
    }
  }

  lemma LeafKeepsOwnAddress(st: State, raw: string)
    requires st.boss.None? && !Attaches(raw)
    ensures Step(st, raw).boss.None?
    ensures Step(st, raw).points != st.points ==>
      |Step(st, raw).points| == |st.points| + 1 && OwnAddress(raw, Step(st, raw).points[|st.points|])
  {
    hide ReadLine, ParsePointFields, LeafAddress;
  }

  lemma {:induction false} PointsOnlyGrow(st: State, lines: seq<string>)
    ensures st.points <= Fold(Stepper(), st, lines).points
    decreases |lines|
  {
    hide ReadLine, LeafPoint, ResolveBoss;
    if lines != [] {
      PointsOnlyGrow(Step(st, lines[0]), lines[1..]);
    }
  }

  /******* Which boss a Host or Hub line names *******/

  // The boss a field states as a UBOSS flag, if it can be read.
  function UbossField(field: string, zone: int): Option<Addr> {
    var f := Trim(field);
    if |f| > 6 && EqualFold(f[..6], "UBOSS:") then ParseAddress(f[6..], zone) else None
  }

  // A readable name wins; otherwise the first readable UBOSS flag; otherwise nothing.
  lemma BossNamed(fields: seq<string>, zone: int)
    ensures var named := if |fields| > 2 then ParseAddress(Trim(fields[2]), zone) else None;
      && (named.Some? ==> ResolveBoss(fields, zone) == named)
      && (named.None? && ResolveBoss(fields, zone).Some? ==>
           exists i :: 0 <= i < |fields| && UbossField(fields[i], zone) == ResolveBoss(fields, zone)
                       && forall j :: 0 <= j < i ==> UbossField(fields[j], zone).None?)
      && (named.None? && ResolveBoss(fields, zone).None? ==>
           forall i :: 0 <= i < |fields| ==> UbossField(fields[i], zone).None?)
  {
    hide ParseAddress, Trim, EqualFold;
    FirstUboss(fields, zone);
  }

  lemma {:induction false} FirstUboss(fields: seq<string>, zone: int)
    ensures UbossOf(fields, zone).Some? ==>
      exists i :: 0 <= i < |fields| && UbossField(fields[i], zone) == UbossOf(fields, zone)
                  && forall j :: 0 <= j < i ==> UbossField(fields[j], zone).None?
    ensures UbossOf(fields, zone).None? ==> forall i :: 0 <= i < |fields| ==> UbossField(fields[i], zone).None?
    decreases |fields|
  {
    hide ParseAddress, Trim, EqualFold;
    if fields != [] {
      FirstUboss(fields[1..], zone);
      var rest := UbossOf(fields[1..], zone);
      if UbossField(fields[0], zone).None? && rest.Some? {
        var i :| 0 <= i < |fields| - 1 && UbossField(fields[1..][i], zone) == rest
                 && forall j :: 0 <= j < i ==> UbossField(fields[1..][j], zone).None?;
        forall j | 0 <= j < i + 1 ensures UbossField(fields[j], zone).None? {
          assert j > 0 ==> fields[j] == fields[1..][j - 1];
        }
        assert UbossField(fields[i + 1], zone) == rest;
      } else if rest.None? {
        forall i | 0 < i < |fields| ensures UbossField(fields[i], zone).None? {
          assert fields[i] == fields[1..][i - 1];
        }
      }
    }
  }
}
