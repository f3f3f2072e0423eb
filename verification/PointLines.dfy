/** One line of a list: what every parser does first with a raw line, and the
    point entry line <keyword>,<point>,<system>,<location>,<sysop>,<phone>,<speed>[,flags...]
    (internal/parser/pointlist.go:444-494). */
module PointLines {
  import opened Text
  import opened Keywords
  import opened Addresses
  import opened Duplicates

  // The flag text stays uninterpreted: every parser applies the same functions to it.
  datatype Point = Point(addr: Addr, pointNum: int, systemName: string, location: string,
                         sysopName: string, phone: string, maxSpeed: nat, flagText: string, rawLine: string)

  const NO_ADDR := Addr(0, 0, 0)

  // A raw line after trimming: nothing to read, or its comma-separated fields.
  datatype Line = Nothing | Fields(keyword: Keyword, fields: seq<string>)

  function ReadLine(raw: string): (line: Line)
    ensures line.Fields? ==> |line.fields| >= 1
  {
    var line := Trim(raw);
    if line == "" || line[0] == ';' then Nothing
    else
      var fields := Split(line, ',');
      Fields(KeywordOf(Trim(fields[0])), fields)
  }

  // parsePointFields: None is its error return
  function ParsePointFields(fields: seq<string>): Option<Point> {
    if |fields| < 7 then None
    else
      var num := Atoi(Trim(fields[1]));
      if num.None? then None
      else Some(Point(NO_ADDR, num.value, Trim(fields[2]), Trim(fields[3]), Trim(fields[4]),
                      Trim(fields[5]), ParseUint32(Trim(fields[6])), Join(fields[7..], ','), ""))
  }

  function KeyOf(p: Point): string {
    PointKey(p.addr, p.pointNum)
  }

  function KeysOf(points: seq<Point>): (r: seq<string>)
    ensures |r| == |points|
  {
    seq(|points|, i requires 0 <= i < |points| => KeyOf(points[i]))
  }

  // The numbering of a file's points.
  function NumberedPoints(points: seq<Point>): (r: seq<Entry<Point>>)
    ensures |r| == |points|
  {
    Numbered(points, KeysOf(points))
  }

  lemma KeysOfNext(points: seq<Point>, p: Point)
    ensures KeysOf(points + [p]) == KeysOf(points) + [KeyOf(p)]
  {}

  // The rows of one parsed point file carry pairwise distinct identifiers.
  lemma PointIdentifiersDistinct(points: seq<Point>, date: string, domain: string, i: nat, j: nat)
    requires i < j < |points|
    ensures var rows := NumberedPoints(points);
      FtsId(rows[i].key, date, rows[i].conflictSequence, domain)
      != FtsId(rows[j].key, date, rows[j].conflictSequence, domain)
  {
    PointKeyPlain(points[i]);
    PointKeyPlain(points[j]);
    IdentifiersDistinct(points, KeysOf(points), date, domain, i, j);
  }

  lemma PointKeyPlain(p: Point)
    ensures '@' !in KeyOf(p)
  {
    AddrTextPlain(p.addr, '@');
    ItoaPlain(p.pointNum, '@');
  }

  // Two points of a file conflict exactly when their 4-D addresses are equal.
  lemma PointsConflictByAddress(points: seq<Point>, i: nat)
    requires i < |points|
    ensures NumberedPoints(points)[i].hasConflict
        <==> (exists j :: 0 <= j < |points| && j != i
                       && points[j].addr == points[i].addr && points[j].pointNum == points[i].pointNum)
  {
    var keys := KeysOf(points);
    ConflictMeansShared(points, keys, i);
    forall j | 0 <= j < |points|
      ensures keys[j] == keys[i] <==> points[j].addr == points[i].addr && points[j].pointNum == points[i].pointNum
    {
      if keys[j] == keys[i] {
        PointKeyInjective(points[j].addr, points[j].pointNum, points[i].addr, points[i].pointNum);
      }
    }
  }

  /******* Printing *******/

  predicate Clean(s: string) {
    ',' !in s && Trimmed(s)
  }

  // A point whose text fields survive a comma-separated line.
  predicate PrintablePoint(p: Point) {
    && Printable(p.addr) && Int64(p.pointNum)
    && Clean(p.systemName) && Clean(p.location) && Clean(p.sysopName) && Clean(p.phone)
    && (p.flagText != "" ==> !IsSpace(p.flagText[|p.flagText| - 1]))
  }

  // How a line is set: its keyword, white space around the line and around each
  // of the first seven fields, the number's sign and digits, the text of the speed.
  datatype Layout = Layout(word: string, pads: seq<(string, string)>, sign: string, digits: string,
                           speed: string, start: string, end: string)

  predicate NumberText(sign: string, digits: string, n: int) {
    && sign in ["", "+", "-"] && digits != "" && AllDigits(digits)
    && var v: int := Value(digits);
       n == if sign == "-" then -v else v
  }

  // A speed is a number of at most 32 bits; any other text means 0.
  predicate SpeedText(s: string, speed: nat) {
    if s != "" && AllDigits(s) && Value(s) < 0x1_0000_0000 then speed == Value(s) else speed == 0
  }

  predicate Spaces(pad: (string, string)) {
    AllSpace(pad.0) && AllSpace(pad.1)
  }

  // The white space at the ends of the line is in start and end.
  predicate LaidOut(l: Layout, p: Point) {
    && |l.pads| == 7 && (forall i :: 0 <= i < 7 ==> Spaces(l.pads[i])) && AllSpace(l.start) && AllSpace(l.end)
    && Clean(l.word) && (l.word != "" ==> l.word[0] != ';')
    && l.pads[0].0 == "" && (l.word == "" ==> l.pads[0].1 == "")
    && NumberText(l.sign, l.digits, p.pointNum)
    && Clean(l.speed) && SpeedText(l.speed, p.maxSpeed)
    && (p.flagText == "" ==> l.pads[6].1 == "" && (l.speed == "" ==> l.pads[6].0 == ""))
  }

  function Texts(l: Layout, p: Point): (r: seq<string>)
    ensures |r| == 7
  {
    [l.word, l.sign + l.digits, p.systemName, p.location, p.sysopName, p.phone, l.speed]
  }

  function Padded(pad: (string, string), s: string): string {
    pad.0 + s + pad.1
  }

  function HeadFields(l: Layout, p: Point): (r: seq<string>)
    requires |l.pads| == 7
    ensures |r| == 7
  {
    seq(7, i requires 0 <= i < 7 => Padded(l.pads[i], Texts(l, p)[i]))
  }

  function LineFields(l: Layout, p: Point): seq<string>
    requires |l.pads| == 7
  {
    HeadFields(l, p) + if p.flagText == "" then [] else Split(p.flagText, ',')
  }

  // The line between the white space at its ends.
  function LineText(l: Layout, p: Point): string
    requires |l.pads| == 7
  {
    var head := Join(HeadFields(l, p), ',');
    if p.flagText == "" then head else head + [','] + p.flagText
  }

  function PointLine(l: Layout, p: Point): string
    requires |l.pads| == 7
  {
    l.start + LineText(l, p) + l.end
  }

  lemma TextsClean(l: Layout, p: Point)
    requires PrintablePoint(p) && LaidOut(l, p)
    ensures forall i :: 0 <= i < 7 ==> Clean(Texts(l, p)[i])
  {
    hide SpeedText, Spaces;
    var s := l.sign + l.digits;
    assert IsDigit(l.digits[0]) && IsDigit(l.digits[|l.digits| - 1]);
    assert s[|s| - 1] == l.digits[|l.digits| - 1];
  }

  lemma HeadReads(l: Layout, p: Point, i: nat)
    requires PrintablePoint(p) && LaidOut(l, p) && i < 7
    ensures ',' !in HeadFields(l, p)[i] && Trim(HeadFields(l, p)[i]) == Texts(l, p)[i]
  {
    hide Texts, Trim;
    TextsClean(l, p);
    var pad := l.pads[i];
    assert Spaces(pad) && !IsSpace(',');
    TrimPadded(pad.0, Texts(l, p)[i], pad.1);
  }

  lemma LineTextEnds(l: Layout, p: Point)
    requires PrintablePoint(p) && LaidOut(l, p)
    ensures var text := LineText(l, p); text != "" && Trimmed(text) && text[0] != ';'
  {
    var head, text := HeadFields(l, p), LineText(l, p);
    assert head[0] == Padded(l.pads[0], l.word) && head[6] == Padded(l.pads[6], l.speed);
    JoinFirst(head, ',');
    assert head == head[..6] + [head[6]];
    JoinLast(head[..6], head[6], ',');
    assert text[0] == if l.word == "" then ',' else l.word[0];
    if p.flagText != "" {
      assert text[|text| - 1] == p.flagText[|p.flagText| - 1];
    } else if l.speed != "" {
      assert head[6][|head[6]| - 1] == l.speed[|l.speed| - 1];
      assert text[|text| - 1] == head[6][|head[6]| - 1];
    } else {
      assert head[6] == "" && text[|text| - 1] == ',';
    }
  }

  lemma LineTextSplits(l: Layout, p: Point)
    requires PrintablePoint(p) && LaidOut(l, p)
    ensures Split(LineText(l, p), ',') == LineFields(l, p)
  {
    assert |l.pads| == 7;
    hide Split, Join, LaidOut, PrintablePoint;
    forall i | 0 <= i < 7 ensures ',' !in HeadFields(l, p)[i] {
      HeadReads(l, p, i);
    }
    SplitOfJoin(HeadFields(l, p), ',');
    SplitAppend(Join(HeadFields(l, p), ','), p.flagText, ',');
    assert HeadFields(l, p) + [] == HeadFields(l, p);
  }

  lemma LineFieldsRead(l: Layout, p: Point)
    requires PrintablePoint(p) && LaidOut(l, p)
    ensures var f := LineFields(l, p);
      && |f| >= 7 && Trim(f[0]) == l.word && Trim(f[1]) == l.sign + l.digits && Trim(f[2]) == p.systemName
      && Trim(f[3]) == p.location && Trim(f[4]) == p.sysopName && Trim(f[5]) == p.phone
      && Trim(f[6]) == l.speed && Join(f[7..], ',') == p.flagText
  {
    assert |l.pads| == 7;
    hide LaidOut, PrintablePoint, Trim, Itoa, Split, Join;
    HeadReads(l, p, 0);
    HeadReads(l, p, 1);
    HeadReads(l, p, 2);
    HeadReads(l, p, 3);
    HeadReads(l, p, 4);
    HeadReads(l, p, 5);
    HeadReads(l, p, 6);
    FlagsRead(p.flagText);
    assert LineFields(l, p)[7..] == if p.flagText == "" then [] else Split(p.flagText, ',');
  }

  lemma FlagsRead(flags: string)
    ensures Join(if flags == "" then [] else Split(flags, ','), ',') == flags
  {
    JoinOfSplit(flags, ',');
  }

  lemma SpeedReads(s: string, speed: nat)
    requires SpeedText(s, speed)
    ensures ParseUint32(s) == speed
  {}

  // A printed point line reads back as the point, with the printed keyword,
  // however it is set.
  lemma PointLineReads(l: Layout, p: Point)
    requires PrintablePoint(p) && LaidOut(l, p)
    ensures Trim(PointLine(l, p)) == LineText(l, p)
    ensures ReadLine(PointLine(l, p)) == Fields(KeywordOf(l.word), LineFields(l, p))
    ensures ParsePointFields(LineFields(l, p)) == Some(p.(addr := NO_ADDR, rawLine := ""))
    ensures |LineFields(l, p)| >= 7 && Trim(LineFields(l, p)[2]) == p.systemName
  {
    hide LineText, LineFields, Trim, Split, Join, ParseUint32, Atoi;
    LineTextEnds(l, p);
    LineTextSplits(l, p);
    LineFieldsRead(l, p);
    TrimPadded(l.start, LineText(l, p), l.end);
    SpeedReads(l.speed, p.maxSpeed);
    AtoiOfSigned(l.sign, l.digits);
  }
}
