/** Format detection and dispatch of a pointlist file
    (internal/parser/pointlist_formats.go:27-107, internal/parser/pointlist.go:143-158). */
module Detection {
  import opened Text
  import opened Keywords
  import opened Addresses
  import opened Duplicates
  import opened PointLines
  import opened Folds
  import BossFamily
  import Combined
  import Fakenet

  datatype Format = BossFormat | PossFormat | PvtFormat | PointFormat | FakenetFormat

  // The line kinds a file holds.
  datatype Counts = Counts(bossLines: nat, emptyFieldPoints: nat, possPoints: nat, pvtPoints: nat,
                           hostLines: nat, nodeContextLines: nat, fakenetSignals: nat)

  const NO_COUNTS := Counts(0, 0, 0, 0, 0, 0, 0)

  // strings.Contains(strings.ToUpper(line), upper)
  predicate ContainsFold(line: string, upper: string)
    requires upper != ""
  {
    |upper| <= |line| && (EqualFold(line[..|upper|], upper) || ContainsFold(line[1..], upper))
  }

  // A Host or Hub line that names a real boss. SplitN(line, ",", 4) and Split
  // agree on the third field.
  predicate HostSignal(line: string, fields: seq<string>) {
    (|fields| > 2 && MatchAddress(Trim(fields[2])).Some?) || ContainsFold(line, "UBOSS:")
  }

  // A leaf line whose system name is a full 4-D address.
  predicate LeafSignal(fields: seq<string>) {
    |fields| > 2 && MatchAddress(Trim(fields[2])).Some? && MatchAddress(Trim(fields[2])).value.point.Some?
  }

  function CountLine(c: Counts, raw: string): Counts {
    match ReadLine(raw)
    case Nothing => c
    case Fields(keyword, fields) =>
      var signal :=
        if keyword == Host || keyword == Hub then HostSignal(Trim(raw), fields)
        else (keyword == NoWord || keyword == Pvt) && LeafSignal(fields);
      var d := if signal then c.(fakenetSignals := c.fakenetSignals + 1) else c;
      match keyword
      case Boss => d.(bossLines := c.bossLines + 1)
      case NoWord => d.(emptyFieldPoints := c.emptyFieldPoints + 1)
      case PointWord => d.(possPoints := c.possPoints + 1)
      case Pvt => d.(pvtPoints := c.pvtPoints + 1)
      case Host => d.(hostLines := c.hostLines + 1)
      case Hub | Zone | Region => d.(nodeContextLines := c.nodeContextLines + 1)
      case _ => d
  }

  function Counter(): (Counts, string) -> Counts {
    (c, raw) => CountLine(c, raw)
  }

  // None is the error that asks for an explicit format.
  function Decide(c: Counts): Option<Format> {
    if c.bossLines > 0 then
      if c.emptyFieldPoints > 0 then Some(BossFormat)
      else if c.possPoints > 0 then Some(PossFormat)
      else if c.pvtPoints > 0 then Some(PvtFormat)
      else Some(BossFormat)
    else if c.hostLines > 0 || c.nodeContextLines > 0 then
      if c.fakenetSignals > 0 then Some(FakenetFormat)
      else if c.possPoints > 0 then Some(PointFormat)
      else None
    else None
  }

  function Detect(lines: seq<string>): Option<Format> {
    Decide(Fold(Counter(), NO_COUNTS, lines))
  }

  method DetectPointlistFormat(lines: seq<string>) returns (format: Option<Format>)
    ensures format == Detect(lines)
  {
    hide CountLine;
    var c := NO_COUNTS;
    for i := 0 to |lines|
      invariant c == Fold(Counter(), NO_COUNTS, lines[..i])
    {
      FoldNext(Counter(), NO_COUNTS, lines, i);
      c := CountLine(c, lines[i]);
    }
    assert lines[..|lines|] == lines;
    format := Decide(c);
  }

  // The points a file yields in a format, before numbering.
  function PointsIn(format: Format, lines: seq<string>, defaultZone: int): seq<Point> {
    match format
    case PointFormat => Combined.Run(defaultZone, lines).points
    case FakenetFormat => Fakenet.Run(defaultZone, lines).points
    case _ => BossFamily.Run(defaultZone, lines).points
  }

  // ParseFile from the lines on: no format given means autodetection.
  method ParseFile(lines: seq<string>, given: Option<Format>, defaultZone: int)
    returns (format: Option<Format>, points: seq<Entry<Point>>)
    ensures format == if given.Some? then given else Detect(lines)
    ensures points == if format.Some? then NumberedPoints(PointsIn(format.value, lines, defaultZone)) else []
  {
    hide NumberedPoints, Detect;
    format, points := given, [];
    if format.None? {
      format := DetectPointlistFormat(lines);
      if format.None? {
        return;
      }
    }
    match format.value {
      case BossFormat | PossFormat | PvtFormat =>
        var ps, bosses, skipped, lost := BossFamily.ParseBossFamily(lines, defaultZone);
        points := ps;
      case PointFormat =>
        var ps, bosses, skipped := Combined.ParseCombinedFormat(lines, defaultZone);
        points := ps;
      case FakenetFormat =>
        var ps, bosses, skipped, lost := Fakenet.ParseFakenetFormat(lines, defaultZone);
        points := ps;
    }
  }

  /******* Detection never guesses between dialects *******/

  predicate HasWord(raw: string, k: Keyword) {
    var line := ReadLine(raw);
    line.Fields? && line.keyword == k
  }

  predicate IsContextLine(raw: string) {
    HasWord(raw, Host) || HasWord(raw, Hub) || HasWord(raw, Zone) || HasWord(raw, Region)
  }

  predicate IsSignal(raw: string) {
    var line := ReadLine(raw);
    line.Fields? &&
      if HasWord(raw, Host) || HasWord(raw, Hub) then HostSignal(Trim(raw), line.fields)
      else (HasWord(raw, NoWord) || HasWord(raw, Pvt)) && LeafSignal(line.fields)
  }

  predicate Any(lines: seq<string>, p: string -> bool) {
    exists i :: 0 <= i < |lines| && p(lines[i])
  }

  lemma AnyFirst(lines: seq<string>, p: string -> bool)
    requires lines != []
    ensures Any(lines, p) <==> p(lines[0]) || Any(lines[1..], p)
  {
    if Any(lines, p) {
      var i :| 0 <= i < |lines| && p(lines[i]);
      assert i > 0 ==> p(lines[1..][i - 1]);
    }
    if Any(lines[1..], p) {
      var i :| 0 <= i < |lines| - 1 && p(lines[1..][i]);
      assert p(lines[i + 1]);
    }
  }

  const BOSS_LINE := (raw: string) => HasWord(raw, Boss)
  const EMPTY_LINE := (raw: string) => HasWord(raw, NoWord)
  const POINT_LINE := (raw: string) => HasWord(raw, PointWord)
  const PVT_LINE := (raw: string) => HasWord(raw, Pvt)
  const CONTEXT_LINE := (raw: string) => IsContextLine(raw)
  const SIGNAL_LINE := (raw: string) => IsSignal(raw)

  lemma {:induction false} CountsAreLines(c: Counts, lines: seq<string>)
    ensures var d := Fold(Counter(), c, lines);
      && (d.bossLines > 0 <==> c.bossLines > 0 || Any(lines, BOSS_LINE))
      && (d.emptyFieldPoints > 0 <==> c.emptyFieldPoints > 0 || Any(lines, EMPTY_LINE))
      && (d.possPoints > 0 <==> c.possPoints > 0 || Any(lines, POINT_LINE))
      && (d.pvtPoints > 0 <==> c.pvtPoints > 0 || Any(lines, PVT_LINE))
      && (d.hostLines + d.nodeContextLines > 0 <==> c.hostLines + c.nodeContextLines > 0 || Any(lines, CONTEXT_LINE))
      && (d.fakenetSignals > 0 <==> c.fakenetSignals > 0 || Any(lines, SIGNAL_LINE))
    decreases |lines|
  {
    hide ReadLine, HostSignal, LeafSignal, Any;
    if lines == [] {
      NoneInEmpty();
    } else {
      AnyFirst(lines, BOSS_LINE);
      AnyFirst(lines, EMPTY_LINE);
      AnyFirst(lines, POINT_LINE);
      AnyFirst(lines, PVT_LINE);
      AnyFirst(lines, CONTEXT_LINE);
      AnyFirst(lines, SIGNAL_LINE);
      CountsAreLines(CountLine(c, lines[0]), lines[1..]);
    }
  }

  lemma NoneInEmpty()
    ensures forall p: string -> bool :: !Any([], p)
  {}

  // The line has UBOSS: in it, in some letter case.
  ghost predicate MentionsUboss(line: string) {
    exists before, word, after :: line == before + word + after && EqualFold(word, "UBOSS:")
  }

  lemma ContainsIsMention(line: string)
    ensures ContainsFold(line, "UBOSS:") <==> MentionsUboss(line)
  {
    hide EqualFold, ContainsFold;
    if ContainsFold(line, "UBOSS:") {
      var before, word, after := MentionOf(line);
    }
    if before, word, after :| line == before + word + after && EqualFold(word, "UBOSS:") {
      ContainsAfter(before, word, after);
    }
  }

  lemma {:induction false} MentionOf(line: string) returns (before: string, word: string, after: string)
    requires ContainsFold(line, "UBOSS:")
    ensures line == before + word + after && EqualFold(word, "UBOSS:")
    decreases |line|
  {
    hide EqualFold;
    if EqualFold(line[..6], "UBOSS:") {
      before, word, after := "", line[..6], line[6..];
    } else {
      before, word, after := MentionOf(line[1..]);
      before := [line[0]] + before;
    }
  }

  lemma {:induction false} ContainsAfter(before: string, word: string, after: string)
    requires EqualFold(word, "UBOSS:")
    ensures ContainsFold(before + word + after, "UBOSS:")
    decreases |before|
  {
    var line := before + word + after;
    assert |Lower(word)| == |word| && |Lower("UBOSS:")| == 6;
    hide EqualFold;
    if before == "" {
      assert line[..6] == word;
    } else {
      assert line[1..] == before[1..] + word + after;
      ContainsAfter(before[1..], word, after);
    }
  }

  // A name that is a full address, with a point where one is asked for.
  ghost predicate NamedAddress(fields: seq<string>, withPoint: bool) {
    |fields| > 2 && exists a :: AddressShaped(a) && Trim(fields[2]) == Render(a) && (withPoint ==> a.point.Some?)
  }

  // What a fakenet mark is: a Host or Hub line that is named after an address or
  // mentions UBOSS, or a leaf with an empty or Pvt keyword named after a 4-D address.
  lemma MarkIff(raw: string)
    ensures IsSignal(raw) <==>
      var line := ReadLine(raw);
      && line.Fields?
      && (|| ((line.keyword.Host? || line.keyword.Hub?)
              && (NamedAddress(line.fields, false) || MentionsUboss(Trim(raw))))
          || ((line.keyword.NoWord? || line.keyword.Pvt?) && NamedAddress(line.fields, true)))
  {
    hide ReadLine, MatchAddress, ContainsFold, Trim, Render, AddressShaped;
    ContainsIsMention(Trim(raw));
    var line := ReadLine(raw);
    if line.Fields? && |line.fields| > 2 {
      NamedIff(line.fields);
    }
  }

  lemma NamedIff(fields: seq<string>)
    requires |fields| > 2
    ensures NamedAddress(fields, false) <==> MatchAddress(Trim(fields[2])).Some?
    ensures NamedAddress(fields, true) <==> LeafSignal(fields)
  {
    hide MatchAddress, Trim, Render, AddressShaped;
    var s := Trim(fields[2]);
    forall a { MatchIsShape(s, a); }
    if MatchAddress(s).Some? {
      assert MatchAddress(s) == Some(MatchAddress(s).value);
    }
  }

  // Any Boss line makes the file a boss list, named after the first of these that
  // it has: empty keywords, Point, Pvt. Otherwise it needs a context line, and is a
  // fakenet exactly when some line carries a fakenet mark, a combined list exactly
  // when it has Point lines and no such mark. Everything else is refused.
  lemma DetectionByEvidence(lines: seq<string>)
    ensures var boss, empty := Any(lines, BOSS_LINE), Any(lines, EMPTY_LINE);
      var point, pvt := Any(lines, POINT_LINE), Any(lines, PVT_LINE);
      var context, signal := Any(lines, CONTEXT_LINE), Any(lines, SIGNAL_LINE);
      && (Detect(lines) == Some(BossFormat) <==> boss && (empty || (!point && !pvt)))
      && (Detect(lines) == Some(PossFormat) <==> boss && !empty && point)
      && (Detect(lines) == Some(PvtFormat) <==> boss && !empty && !point && pvt)
      && (Detect(lines) == Some(FakenetFormat) <==> !boss && context && signal)
      && (Detect(lines) == Some(PointFormat) <==> !boss && context && !signal && point)
      && (Detect(lines).None? <==> !boss && !(context && (signal || point)))
  {
    CountsAreLines(NO_COUNTS, lines);
  }
}
