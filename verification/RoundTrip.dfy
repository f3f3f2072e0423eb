/** Printing points in a pointlist dialect, detecting the dialect and parsing it
    gives the points back: the three dialects mean the same. */
module RoundTrip {
  import opened Text
  import opened Keywords
  import opened Addresses
  import opened Duplicates
  import opened PointLines
  import opened Folds
  import opened Detection
  import BossFamily
  import Combined
  import Fakenet

  // The boss family with its keywords, the combined list, the fakenet.
  datatype Dialect = InBoss | InCombined | InFakenet

  predicate IsFormatOf(d: Dialect, f: Format) {
    match d
    case InBoss => f.BossFormat? || f.PossFormat? || f.PvtFormat?
    case InCombined => f.PointFormat?
    case InFakenet => f.FakenetFormat?
  }

  // How the lines that name a boss are set: their keywords, and white space in
  // front of the number or address.
  datatype Owner = Owner(words: seq<string>, before: string)

  // A point to print, and how its lines are set.
  datatype Item = Item(owner: Owner, layout: Layout, point: Point)

  predicate OwnerFits(d: Dialect, o: Owner) {
    && AllSpace(o.before)
    && match d
       case InBoss => |o.words| == 1 && Is(o.words[0], Boss)
       case InCombined =>
         && |o.words| == 3 && Is(o.words[0], Zone) && (Is(o.words[1], Host) || Is(o.words[1], Region))
         && (o.words[2] == "" || Is(o.words[2], Hub) || Is(o.words[2], Pvt) || Is(o.words[2], Hold)
             || Is(o.words[2], Down))
       case InFakenet => |o.words| == 1 && (Is(o.words[0], Host) || Is(o.words[0], Hub))
  }

  // The keywords of a point line: five in two dialects, Point alone in the third.
  predicate WordFits(d: Dialect, word: string) {
    Is(word, PointWord)
    || (d != InCombined && (word == "" || Is(word, Pvt) || Is(word, Hold) || Is(word, Down)))
  }

  predicate Fits(d: Dialect, item: Item) {
    && OwnerFits(d, item.owner) && WordFits(d, item.layout.word)
    && PrintablePoint(item.point) && LaidOut(item.layout, item.point)
  }

  predicate AllFit(d: Dialect, items: seq<Item>) {
    forall i :: 0 <= i < |items| ==> Fits(d, items[i])
  }

  // The lines that put the parser under a boss, by their fields.
  function ContextFields(d: Dialect, a: Addr, o: Owner): seq<seq<string>>
    requires OwnerFits(d, o)
  {
    match d
    case InBoss => [[o.words[0], o.before + AddrText(a)]]
    case InCombined =>
      [[o.words[0], o.before + Itoa(a.zone)], [o.words[1], o.before + Itoa(a.net)],
       [o.words[2], o.before + Itoa(a.node)]]
    case InFakenet => [[o.words[0], "1", o.before + AddrText(a)]]
  }

  function ContextLines(d: Dialect, a: Addr, o: Owner): (lines: seq<string>)
    requires OwnerFits(d, o)
    ensures |lines| == |ContextFields(d, a, o)|
  {
    var fields := ContextFields(d, a, o);
    seq(|fields|, i requires 0 <= i < |fields| => Join(fields[i], ','))
  }

  // A list with its context lines printed only where the boss changes.
  function Print(d: Dialect, items: seq<Item>, prev: Option<Addr>): seq<string>
    requires AllFit(d, items)
  {
    if items == [] then []
    else PrintOne(d, items[0], prev) + Print(d, items[1..], Some(items[0].point.addr))
  }

  function PrintOne(d: Dialect, item: Item, prev: Option<Addr>): seq<string>
    requires Fits(d, item)
  {
    (if prev == Some(item.point.addr) then [] else ContextLines(d, item.point.addr, item.owner))
    + [PointLine(item.layout, item.point)]
  }

  // The points as a reader of the printed list sees them.
  function AsRead(items: seq<Item>): (r: seq<Point>)
    requires forall i :: 0 <= i < |items| ==> |items[i].layout.pads| == 7
    ensures |r| == |items|
  {
    seq(|items|, i requires 0 <= i < |items| => AsReadOne(items[i]))
  }

  function AsReadOne(item: Item): Point
    requires |item.layout.pads| == 7
  {
    item.point.(rawLine := PointLine(item.layout, item.point))
  }

  lemma FitPads(d: Dialect, items: seq<Item>)
    requires AllFit(d, items)
    ensures forall i :: 0 <= i < |items| ==> |items[i].layout.pads| == 7
  {}

  /******* Reading one printed line *******/

  predicate PlainFields(parts: seq<string>) {
    && |parts| >= 2
    && (forall i :: 0 <= i < |parts| ==> ',' !in parts[i])
    && (parts[0] != "" ==> parts[0][0] != ';' && !IsSpace(parts[0][0]))
    && var last := parts[|parts| - 1]; last != "" && !IsSpace(last[|last| - 1])
  }

  lemma FieldsRead(parts: seq<string>)
    requires PlainFields(parts)
    ensures Trim(Join(parts, ',')) == Join(parts, ',')
    ensures ReadLine(Join(parts, ',')) == Fields(KeywordOf(Trim(parts[0])), parts)
  {
    var line, n := Join(parts, ','), |parts| - 1;
    JoinFirst(parts, ',');
    assert parts == parts[..n] + [parts[n]];
    JoinLast(parts[..n], parts[n], ',');
    assert line[|line| - 1] == parts[n][|parts[n]| - 1];
    TrimOfTrimmed(line);
    SplitOfJoin(parts, ',');
  }

  // A keyword in any letter case, for a field of its own.
  lemma WordPlain(word: string, k: Keyword)
    requires !k.Unknown? && Is(word, k)
    ensures Clean(word) && (word != "" ==> word[0] != ';' && !IsSpace(word[0])) && ':' !in word
    ensures KeywordOf(word) == k && Trim(word) == word
  {
    KeywordIff(word, k);
    KeywordLetters(word, k);
    TrimOfTrimmed(word);
  }

  // White space, then a text of its own.
  predicate FieldText(s: string) {
    ',' !in s && Trimmed(s) && s != ""
  }

  lemma FieldPlain(before: string, s: string)
    requires AllSpace(before) && FieldText(s)
    ensures var f := before + s; ',' !in f && f != "" && !IsSpace(f[|f| - 1]) && Trim(f) == s
  {
    assert !IsSpace(',');
    TrimPadded(before, s, "");
    assert before + s + "" == before + s;
  }

  lemma NumberPlain(n: int)
    ensures FieldText(Itoa(n))
  {
    ItoaPlain(n, ',');
    ItoaTrimmed(n);
  }

  lemma AddrPlain(a: Addr)
    ensures FieldText(AddrText(a))
  {
    AddrTextPlain(a, ',');
    ItoaTrimmed(a.zone);
    ItoaTrimmed(a.node);
    var s := AddrText(a);
    assert s[0] == Itoa(a.zone)[0];
    assert s[|s| - 1] == Itoa(a.node)[|Itoa(a.node)| - 1];
  }

  lemma OneStep<S, L>(f: (S, L) -> S, st: S, l: L)
    ensures Fold(f, st, [l]) == f(st, l)
  {
    assert Fold(f, st, [l]) == Fold(f, f(st, l), []);
  }

  lemma FoldNone<S, L>(f: (S, L) -> S, st: S)
    ensures Fold(f, st, []) == st
  {}

  // A context line of two fields.
  lemma TwoFieldsRead(word: string, k: Keyword, before: string, s: string)
    requires !k.Unknown? && Is(word, k) && AllSpace(before) && FieldText(s)
    ensures var line := Join([word, before + s], ',');
      ReadLine(line) == Fields(k, [word, before + s]) && Trim(line) == line && Trim(before + s) == s
  {
    hide ReadLine, Join, KeywordOf, Trim, Is;
    WordPlain(word, k);
    FieldPlain(before, s);
    FieldsRead([word, before + s]);
  }

  lemma BossLineReads(a: Addr, o: Owner)
    requires OwnerFits(InBoss, o)
    ensures var line := ContextLines(InBoss, a, o)[0];
      && ReadLine(line) == Fields(Boss, [o.words[0], o.before + AddrText(a)])
      && Trim(o.before + AddrText(a)) == AddrText(a)
  {
    hide ReadLine, AddrText, Join, KeywordOf, Trim, Is;
    AddrPlain(a);
    TwoFieldsRead(o.words[0], Boss, o.before, AddrText(a));
  }

  function NetWord(o: Owner): (k: Keyword)
    requires OwnerFits(InCombined, o)
    ensures !k.Unknown? && Is(o.words[1], k) && (k.Host? || k.Region?)
  {
    if Is(o.words[1], Host) then Host else Region
  }

  function NodeWord(o: Owner): (k: Keyword)
    requires OwnerFits(InCombined, o)
    ensures !k.Unknown? && Is(o.words[2], k) && (k.NoWord? || k.Hub? || k.Pvt? || k.Hold? || k.Down?)
  {
    EmptyFolds(o.words[2]);
    if o.words[2] == "" then NoWord
    else if Is(o.words[2], Hub) then Hub
    else if Is(o.words[2], Pvt) then Pvt
    else if Is(o.words[2], Hold) then Hold
    else Down
  }

  lemma NodeLinesRead(a: Addr, o: Owner)
    requires OwnerFits(InCombined, o)
    ensures var lines := ContextLines(InCombined, a, o);
      && ReadLine(lines[0]) == Fields(Zone, [o.words[0], o.before + Itoa(a.zone)])
      && ReadLine(lines[1]) == Fields(NetWord(o), [o.words[1], o.before + Itoa(a.net)])
      && ReadLine(lines[2]) == Fields(NodeWord(o), [o.words[2], o.before + Itoa(a.node)])
      && Trim(o.before + Itoa(a.zone)) == Itoa(a.zone) && Trim(o.before + Itoa(a.net)) == Itoa(a.net)
      && Trim(o.before + Itoa(a.node)) == Itoa(a.node)
      && Trim(lines[1]) == lines[1] && Trim(lines[2]) == lines[2]
  {
    hide ReadLine, Itoa, Join, KeywordOf, Trim, Is, NetWord, NodeWord;
    NumberPlain(a.zone);
    NumberPlain(a.net);
    NumberPlain(a.node);
    TwoFieldsRead(o.words[0], Zone, o.before, Itoa(a.zone));
    TwoFieldsRead(o.words[1], NetWord(o), o.before, Itoa(a.net));
    TwoFieldsRead(o.words[2], NodeWord(o), o.before, Itoa(a.node));
  }

  function HostWord(o: Owner): (k: Keyword)
    requires OwnerFits(InFakenet, o)
    ensures !k.Unknown? && Is(o.words[0], k) && (k.Host? || k.Hub?)
  {
    if Is(o.words[0], Host) then Host else Hub
  }

  lemma HostLineReads(a: Addr, o: Owner)
    requires OwnerFits(InFakenet, o)
    ensures var line := ContextLines(InFakenet, a, o)[0];
      && ReadLine(line) == Fields(HostWord(o), [o.words[0], "1", o.before + AddrText(a)])
      && Trim(o.before + AddrText(a)) == AddrText(a)
  {
    hide ReadLine, AddrText, Join, KeywordOf, Trim, Is, HostWord;
    AddrPlain(a);
    WordPlain(o.words[0], HostWord(o));
    FieldPlain(o.before, AddrText(a));
    FieldsRead([o.words[0], "1", o.before + AddrText(a)]);
  }

  function PointWordOf(d: Dialect, word: string): (k: Keyword)
    requires WordFits(d, word)
    ensures k.PointWord? || (d != InCombined && (k.NoWord? || k.Pvt? || k.Hold? || k.Down?))
  {
    if Is(word, PointWord) then PointWord
    else if word == "" then NoWord
    else if Is(word, Pvt) then Pvt
    else if Is(word, Hold) then Hold
    else Down
  }

  lemma PointWordRead(d: Dialect, word: string)
    requires WordFits(d, word)
    ensures KeywordOf(word) == PointWordOf(d, word)
  {
    hide KeywordOf, EqualFold;
    EmptyFolds(word);
    KeywordIff(word, PointWordOf(d, word));
  }

  // A printed point line as every parser reads it.
  lemma ItemReads(d: Dialect, item: Item) returns (k: Keyword)
    requires Fits(d, item)
    ensures k.PointWord? || (d != InCombined && (k.NoWord? || k.Pvt? || k.Hold? || k.Down?))
    ensures |item.layout.pads| == 7
    ensures var fields := LineFields(item.layout, item.point);
      && ReadLine(PointLine(item.layout, item.point)) == Fields(k, fields)
      && ParsePointFields(fields) == Some(item.point.(addr := NO_ADDR, rawLine := ""))
      && |fields| >= 7 && Trim(fields[2]) == item.point.systemName
  {
    hide ReadLine, ParsePointFields, LineFields, PointLine, Trim;
    PointLineReads(item.layout, item.point);
    PointWordRead(d, item.layout.word);
    k := PointWordOf(d, item.layout.word);
  }

  /******* The boss dialect *******/

  lemma BossContextRuns(defaultZone: int, st: BossFamily.State, a: Addr, o: Owner)
    requires Printable(a) && OwnerFits(InBoss, o)
    ensures var r := Fold(BossFamily.Stepper(defaultZone), st, ContextLines(InBoss, a, o));
      r.boss == Some(a) && r.points == st.points
  {
    hide ReadLine, AddrText, Trim, ParseAddress, Join, Fold, OwnerFits;
    BossLineReads(a, o);
    ParseOfAddrText(a, defaultZone);
    OneStep(BossFamily.Stepper(defaultZone), st, ContextLines(InBoss, a, o)[0]);
    assert ContextLines(InBoss, a, o) == [ContextLines(InBoss, a, o)[0]];
  }

  lemma BossPointRuns(defaultZone: int, st: BossFamily.State, item: Item)
    requires Fits(InBoss, item) && st.boss == Some(item.point.addr)
    ensures BossFamily.Step(defaultZone, st, PointLine(item.layout, item.point))
         == st.(points := st.points + [AsReadOne(item)])
  {
    hide ReadLine, ParsePointFields, LineFields, PointLine, Fits, Trim;
    var k := ItemReads(InBoss, item);
  }

  lemma BossOneRuns(defaultZone: int, st: BossFamily.State, item: Item, prev: Option<Addr>)
    requires Fits(InBoss, item) && (prev.Some? ==> st.boss == prev)
    ensures var r := Fold(BossFamily.Stepper(defaultZone), st, PrintOne(InBoss, item, prev));
      r.boss == Some(item.point.addr) && r.points == st.points + [AsReadOne(item)]
  {
    assert |item.layout.pads| == 7;
    hide BossFamily.Step, Fold, PointLine, ContextLines, LaidOut, OwnerFits, WordFits;
    var f, line, a := BossFamily.Stepper(defaultZone), PointLine(item.layout, item.point), item.point.addr;
    var context := if prev == Some(a) then [] else ContextLines(InBoss, a, item.owner);
    BossContextRuns(defaultZone, st, a, item.owner);
    FoldNone(f, st);
    var mid := Fold(f, st, context);
    FoldAppend(f, st, context, [line]);
    OneStep(f, mid, line);
    BossPointRuns(defaultZone, mid, item);
  }

  lemma AsReadFirst(items: seq<Item>)
    requires items != [] && forall i :: 0 <= i < |items| ==> |items[i].layout.pads| == 7
    ensures AsRead(items) == [AsReadOne(items[0])] + AsRead(items[1..])
  {}

  lemma {:induction false} BossPrintRuns(defaultZone: int, st: BossFamily.State, items: seq<Item>, prev: Option<Addr>)
    requires AllFit(InBoss, items) && (prev.Some? ==> st.boss == prev)
    ensures Fold(BossFamily.Stepper(defaultZone), st, Print(InBoss, items, prev)).points
         == st.points + AsRead(items)
    decreases |items|
  {
    hide PrintOne, AsReadOne, AsRead, Fold, Fits;
    FitPads(InBoss, items);
    FoldNone(BossFamily.Stepper(defaultZone), st);
    if items != [] {
      var f, first := BossFamily.Stepper(defaultZone), PrintOne(InBoss, items[0], prev);
      BossOneRuns(defaultZone, st, items[0], prev);
      FoldAppend(f, st, first, Print(InBoss, items[1..], Some(items[0].point.addr)));
      BossPrintRuns(defaultZone, Fold(f, st, first), items[1..], Some(items[0].point.addr));
      AsReadFirst(items);
    }
  }

  /******* The combined dialect *******/

  ghost predicate Under(st: Combined.State, a: Addr) {
    st.haveContext && Addr(st.zone, st.net, st.node) == a
  }

  lemma CombinedContextRuns(st: Combined.State, a: Addr, o: Owner)
    requires Printable(a) && OwnerFits(InCombined, o)
    ensures var r := Fold(Combined.Stepper(), st, ContextLines(InCombined, a, o));
      Under(r, a) && r.points == st.points
  {
    hide ReadLine, Itoa, Atoi, Trim, Join, Fold, ParsePointFields, NodeKey, Is, NetWord, NodeWord;
    var f, lines := Combined.Stepper(), ContextLines(InCombined, a, o);
    NodeLinesRead(a, o);
    AtoiOfItoa(a.zone);
    AtoiOfItoa(a.net);
    AtoiOfItoa(a.node);
    var s1 := f(st, lines[0]);
    var s2 := f(s1, lines[1]);
    OneStep(f, st, lines[0]);
    FoldNext(f, st, lines, 1);
    FoldNext(f, st, lines, 2);
    assert lines[..1] == [lines[0]] && lines[..3] == lines;
  }

  lemma CombinedPointRuns(st: Combined.State, item: Item)
    requires Fits(InCombined, item) && Under(st, item.point.addr)
    ensures var r := Combined.Step(st, PointLine(item.layout, item.point));
      Under(r, item.point.addr) && r.points == st.points + [AsReadOne(item)]
  {
    hide ReadLine, ParsePointFields, LineFields, PointLine, Fits, Trim;
    hide NodeKey, KeywordOf, Combined.ContextNum;
    var k := ItemReads(InCombined, item);
  }

  lemma CombinedOneRuns(st: Combined.State, item: Item, prev: Option<Addr>)
    requires Fits(InCombined, item) && (prev.Some? ==> Under(st, prev.value))
    ensures var r := Fold(Combined.Stepper(), st, PrintOne(InCombined, item, prev));
      Under(r, item.point.addr) && r.points == st.points + [AsReadOne(item)]
  {
    assert |item.layout.pads| == 7;
    hide Combined.Step, Fold, PointLine, ContextLines, LaidOut, OwnerFits, WordFits;
    var f, line, a := Combined.Stepper(), PointLine(item.layout, item.point), item.point.addr;
    var context := if prev == Some(a) then [] else ContextLines(InCombined, a, item.owner);
    CombinedContextRuns(st, a, item.owner);
    FoldNone(f, st);
    var mid := Fold(f, st, context);
    FoldAppend(f, st, context, [line]);
    OneStep(f, mid, line);
    CombinedPointRuns(mid, item);
  }

  lemma {:induction false} CombinedPrintRuns(st: Combined.State, items: seq<Item>, prev: Option<Addr>)
    requires AllFit(InCombined, items) && (prev.Some? ==> Under(st, prev.value))
    ensures Fold(Combined.Stepper(), st, Print(InCombined, items, prev)).points == st.points + AsRead(items)
    decreases |items|
  {
    hide PrintOne, AsReadOne, AsRead, Fold, Fits;
    FitPads(InCombined, items);
    FoldNone(Combined.Stepper(), st);
    if items != [] {
      var f, first := Combined.Stepper(), PrintOne(InCombined, items[0], prev);
      CombinedOneRuns(st, items[0], prev);
      FoldAppend(f, st, first, Print(InCombined, items[1..], Some(items[0].point.addr)));
      CombinedPrintRuns(Fold(f, st, first), items[1..], Some(items[0].point.addr));
      AsReadFirst(items);
    }
  }

  /******* The fakenet dialect *******/

  // The point a fakenet parser makes of a leaf line: an address-shaped name
  // overrides the block's boss.
  function FakenetReadOne(item: Item, zone: int): Point
    requires |item.layout.pads| == 7
  {
    var p := item.point;
    var own := ParseLeafAddress(p.systemName, zone);
    AsReadOne(item).(addr := if own.Some? then own.value.0 else p.addr,
                     pointNum := if own.Some? then own.value.1 else p.pointNum)
  }

  // A name that is no full 4-D address, or is the point's own.
  predicate HarmlessName(p: Point, zone: int) {
    var own := ParseLeafAddress(p.systemName, zone);
    own.Some? ==> own.value == (p.addr, p.pointNum)
  }

  predicate AllHarmless(items: seq<Item>, zone: int) {
    forall i :: 0 <= i < |items| ==> HarmlessName(items[i].point, zone)
  }

  function FakenetReads(items: seq<Item>, zone: int): (r: seq<Point>)
    requires forall i :: 0 <= i < |items| ==> |items[i].layout.pads| == 7
    ensures |r| == |items|
  {
    seq(|items|, i requires 0 <= i < |items| => FakenetReadOne(items[i], zone))
  }

  lemma FakenetReadsFirst(items: seq<Item>, zone: int)
    requires items != [] && forall i :: 0 <= i < |items| ==> |items[i].layout.pads| == 7
    ensures FakenetReads(items, zone) == [FakenetReadOne(items[0], zone)] + FakenetReads(items[1..], zone)
  {
    hide FakenetReadOne;
  }

  lemma FakenetContextRuns(st: Fakenet.State, a: Addr, o: Owner)
    requires Printable(a) && OwnerFits(InFakenet, o)
    ensures var r := Fold(Fakenet.Stepper(), st, ContextLines(InFakenet, a, o));
      r.boss == Some(a) && r.zone == st.zone && r.points == st.points
  {
    hide ReadLine, AddrText, Trim, ParseAddress, Join, Fold, Fakenet.UbossOf, Fakenet.LeafPoint, Is, HostWord;
    HostLineReads(a, o);
    ParseOfAddrText(a, st.zone);
    OneStep(Fakenet.Stepper(), st, ContextLines(InFakenet, a, o)[0]);
    assert ContextLines(InFakenet, a, o) == [ContextLines(InFakenet, a, o)[0]];
  }

  lemma FakenetPointRuns(st: Fakenet.State, item: Item)
    requires Fits(InFakenet, item) && st.boss == Some(item.point.addr)
    ensures Fakenet.Step(st, PointLine(item.layout, item.point))
         == st.(points := st.points + [FakenetReadOne(item, st.zone)])
  {
    hide ReadLine, ParsePointFields, LineFields, PointLine, Fits, Trim;
    hide ParseLeafAddress, Fakenet.ResolveBoss, Fakenet.ZoneOf;
    var k := ItemReads(InFakenet, item);
  }

  lemma FakenetOneRuns(st: Fakenet.State, item: Item, prev: Option<Addr>)
    requires Fits(InFakenet, item) && (prev.Some? ==> st.boss == prev)
    ensures var r := Fold(Fakenet.Stepper(), st, PrintOne(InFakenet, item, prev));
      && r.boss == Some(item.point.addr) && r.zone == st.zone
      && r.points == st.points + [FakenetReadOne(item, st.zone)]
  {
    assert |item.layout.pads| == 7;
    hide Fakenet.Step, Fold, PointLine, ContextLines, FakenetReadOne, LaidOut, OwnerFits, WordFits;
    var f, line, a := Fakenet.Stepper(), PointLine(item.layout, item.point), item.point.addr;
    var context := if prev == Some(a) then [] else ContextLines(InFakenet, a, item.owner);
    FakenetContextRuns(st, a, item.owner);
    FoldNone(f, st);
    var mid := Fold(f, st, context);
    FoldAppend(f, st, context, [line]);
    OneStep(f, mid, line);
    FakenetPointRuns(mid, item);
  }

  lemma {:induction false} FakenetPrintRuns(st: Fakenet.State, items: seq<Item>, prev: Option<Addr>)
    requires AllFit(InFakenet, items) && (prev.Some? ==> st.boss == prev)
    requires forall i :: 0 <= i < |items| ==> |items[i].layout.pads| == 7
    ensures Fold(Fakenet.Stepper(), st, Print(InFakenet, items, prev)).points
         == st.points + FakenetReads(items, st.zone)
    decreases |items|
  {
    hide PrintOne, FakenetReadOne, FakenetReads, Fold, Fits;
    FoldNone(Fakenet.Stepper(), st);
    if items != [] {
      var f, first := Fakenet.Stepper(), PrintOne(InFakenet, items[0], prev);
      FakenetOneRuns(st, items[0], prev);
      FoldAppend(f, st, first, Print(InFakenet, items[1..], Some(items[0].point.addr)));
      FakenetPrintRuns(Fold(f, st, first), items[1..], Some(items[0].point.addr));
      FakenetReadsFirst(items, st.zone);
    }
  }

  // The fakenet dialect gives the points back exactly when no name reads as another point's address.
  lemma FakenetRoundTripIff(items: seq<Item>, defaultZone: int)
    requires AllFit(InFakenet, items)
    ensures Fakenet.Run(defaultZone, Print(InFakenet, items, None)).points == AsRead(items)
       <==> AllHarmless(items, defaultZone)
  {
    hide Print, AsRead, FakenetReads, Fold, HarmlessName, Fits;
    FitPads(InFakenet, items);
    FakenetPrintRuns(Fakenet.Init(defaultZone), items, None);
    ReadsSameIff(items, defaultZone);
    assert [] + FakenetReads(items, defaultZone) == FakenetReads(items, defaultZone);
  }

  // A point named like another address is read back at that address.
  lemma MisleadingName(item: Item, a: Addr, n: int, defaultZone: int)
    requires Fits(InFakenet, item) && Printable(a) && 0 <= n <= MAX_INT64
    requires (a, n) != (item.point.addr, item.point.pointNum)
    ensures var it := item.(point := item.point.(systemName := PointKey(a, n)));
      && Fits(InFakenet, it)
      && Fakenet.Run(defaultZone, Print(InFakenet, [it], None)).points
         == [AsReadOne(it).(addr := a, pointNum := n)] != AsRead([it])
  {
    PointKeyClean(a, n);
    hide Print, Fold, PointKey, AsReadOne, FakenetReadOne, AsRead, FakenetReads;
    var it := item.(point := item.point.(systemName := PointKey(a, n)));
    assert Fits(InFakenet, it);
    FakenetPrintRuns(Fakenet.Init(defaultZone), [it], None);
    MisreadAt(it, a, n, defaultZone);
    assert [] + FakenetReads([it], defaultZone) == FakenetReads([it], defaultZone);
  }

  lemma MisreadAt(it: Item, a: Addr, n: int, zone: int)
    requires |it.layout.pads| == 7 && Printable(a) && 0 <= n <= MAX_INT64
    requires it.point.systemName == PointKey(a, n) && (a, n) != (it.point.addr, it.point.pointNum)
    ensures FakenetReads([it], zone) == [AsReadOne(it).(addr := a, pointNum := n)]
    ensures FakenetReads([it], zone) != AsRead([it])
  {
    hide PointKey, ParseLeafAddress, PointLine;
    LeafOfPointKey(a, n, zone);
    assert FakenetReads([it], zone)[0] == FakenetReadOne(it, zone);
    assert AsRead([it])[0] == AsReadOne(it);
  }

  lemma PointKeyClean(a: Addr, n: int)
    requires Printable(a) && 0 <= n
    ensures Clean(PointKey(a, n))
  {
    AddrTextPlain(a, ',');
    ItoaPlain(n, ',');
    ItoaTrimmed(n);
    ItoaTrimmed(a.zone);
  }

  lemma ReadsSameIff(items: seq<Item>, zone: int)
    requires forall i :: 0 <= i < |items| ==> |items[i].layout.pads| == 7
    ensures FakenetReads(items, zone) == AsRead(items) <==> AllHarmless(items, zone)
  {
    hide AsReadOne, FakenetReadOne, HarmlessName;
    var got, want := FakenetReads(items, zone), AsRead(items);
    forall i | 0 <= i < |items| ensures HarmlessName(items[i].point, zone) <==> got[i] == want[i] {
      HarmlessIsSame(items[i], zone);
    }
  }

  lemma HarmlessIsSame(item: Item, zone: int)
    requires |item.layout.pads| == 7
    ensures HarmlessName(item.point, zone) <==> FakenetReadOne(item, zone) == AsReadOne(item)
  {}

  /******* Detection recognises what was printed *******/

  lemma {:induction false} UbossHasColon(line: string)
    requires ContainsFold(line, "UBOSS:")
    ensures ':' in line
    decreases |line|
  {
    if EqualFold(line[..6], "UBOSS:") {
      assert Lower(line[..6])[5] == Lower("UBOSS:")[5] == ':';
      assert line[5] == ':';
    } else {
      UbossHasColon(line[1..]);
    }
  }

  // The net and node lines of a combined list are no fakenet marks.
  lemma NumberLinePlain(word: string, k: Keyword, before: string, n: int)
    requires !k.Unknown? && Is(word, k) && AllSpace(before)
    ensures var line := Join([word, before + Itoa(n)], ',');
      !ContainsFold(line, "UBOSS:")
  {
    hide Join, ContainsFold, Itoa, Is;
    WordPlain(word, k);
    ItoaPlain(n, ':');
    assert !IsSpace(':');
    JoinPlain([word, before + Itoa(n)], ',', ':');
    var line := Join([word, before + Itoa(n)], ',');
    if ContainsFold(line, "UBOSS:") {
      UbossHasColon(line);
    }
  }

  lemma NodeLinesPlain(a: Addr, o: Owner, i: nat)
    requires OwnerFits(InCombined, o) && i < 3
    ensures !HasWord(ContextLines(InCombined, a, o)[i], Boss) && !IsSignal(ContextLines(InCombined, a, o)[i])
  {
    hide ReadLine, Itoa, Join, ContainsFold, MatchAddress, Trim, Is, NetWord, NodeWord;
    NodeLinesRead(a, o);
    NumberLinePlain(o.words[1], NetWord(o), o.before, a.net);
    NumberLinePlain(o.words[2], NodeWord(o), o.before, a.node);
  }

  lemma PointLinesPlain(d: Dialect, item: Item)
    requires Fits(d, item)
    ensures |item.layout.pads| == 7
    ensures var line := PointLine(item.layout, item.point);
      !HasWord(line, Boss) && (d == InCombined ==> HasWord(line, PointWord) && !IsSignal(line))
  {
    hide ReadLine, ParsePointFields, LineFields, PointLine, Fits, Trim, HostSignal, LeafSignal;
    var k := ItemReads(d, item);
  }

  // No printed line looks like another dialect's.
  predicate Faithful(d: Dialect, raw: string) {
    (d != InBoss ==> !HasWord(raw, Boss)) && (d == InCombined ==> !IsSignal(raw))
  }

  lemma ContextLinesFaithful(d: Dialect, a: Addr, o: Owner, i: nat)
    requires OwnerFits(d, o) && i < |ContextLines(d, a, o)|
    ensures Faithful(d, ContextLines(d, a, o)[i])
  {
    hide ReadLine, AddrText, Itoa, Join, IsSignal, Is;
    match d {
      case InBoss =>
      case InCombined =>
        NodeLinesPlain(a, o, i);
      case InFakenet =>
        HostLineReads(a, o);
    }
  }

  lemma {:induction false} PrintFaithful(d: Dialect, items: seq<Item>, prev: Option<Addr>, i: nat)
    requires AllFit(d, items) && i < |Print(d, items, prev)|
    ensures Faithful(d, Print(d, items, prev)[i])
    decreases |items|
  {
    hide Faithful, ContextLines, PointLine, OwnerFits, LaidOut, WordFits, PrintablePoint;
    var one := PrintOne(d, items[0], prev);
    if i < |one| - 1 {
      ContextLinesFaithful(d, items[0].point.addr, items[0].owner, i);
    } else if i == |one| - 1 {
      PointLineFaithful(d, items[0]);
    } else {
      PrintFaithful(d, items[1..], Some(items[0].point.addr), i - |one|);
    }
  }

  lemma PointLineFaithful(d: Dialect, item: Item)
    requires Fits(d, item)
    ensures Faithful(d, PointLine(item.layout, item.point))
  {
    hide HasWord, IsSignal, PointLine, LaidOut, OwnerFits;
    PointLinesPlain(d, item);
  }

  // The first lines printed carry the dialect's mark.
  lemma PrintMarked(d: Dialect, items: seq<Item>)
    requires AllFit(d, items) && items != []
    ensures var lines := Print(d, items, None);
      && (d == InBoss ==> Any(lines, BOSS_LINE))
      && (d == InCombined ==> Any(lines, CONTEXT_LINE) && Any(lines, POINT_LINE))
      && (d == InFakenet ==> Any(lines, CONTEXT_LINE) && Any(lines, SIGNAL_LINE))
  {
    var lines, item := Print(d, items, None), items[0];
    var a, o, n := item.point.addr, item.owner, |ContextLines(d, item.point.addr, item.owner)|;
    assert Fits(d, item);
    assert lines[0] == ContextLines(d, a, o)[0] && lines[n] == PointLine(item.layout, item.point);
    MarksLine(d, item);
    hide ContextLines, PointLine, Fits, HasWord, IsSignal, IsContextLine, Print;
    match d {
      case InBoss =>
        assert BOSS_LINE(lines[0]);
      case InCombined =>
        assert CONTEXT_LINE(lines[0]) && POINT_LINE(lines[n]);
      case InFakenet =>
        assert CONTEXT_LINE(lines[0]) && SIGNAL_LINE(lines[0]);
    }
  }

  lemma MarksLine(d: Dialect, item: Item)
    requires Fits(d, item)
    ensures var first, point := ContextLines(d, item.point.addr, item.owner)[0], PointLine(item.layout, item.point);
      && (d == InBoss ==> HasWord(first, Boss))
      && (d == InCombined ==> IsContextLine(first) && HasWord(point, PointWord))
      && (d == InFakenet ==> IsContextLine(first) && IsSignal(first))
  {
    var a, o := item.point.addr, item.owner;
    hide ReadLine, AddrText, Itoa, Join, PointLine, KeywordOf, ContainsFold, MatchAddress, Trim, Is, LaidOut;
    PointLinesPlain(d, item);
    match d {
      case InBoss =>
        BossLineReads(a, o);
      case InCombined =>
        NodeLinesRead(a, o);
      case InFakenet =>
        HostLineReads(a, o);
        AddrMatches(item.point);
    }
  }

  lemma AddrMatches(p: Point)
    requires PrintablePoint(p)
    ensures MatchAddress(AddrText(p.addr)).Some?
  {
    hide MatchAddress;
    ParseOfAddrText(p.addr, 0);
  }

  // Any non-empty list printed in a dialect is detected as one of its formats.
  lemma DetectsPrinted(d: Dialect, items: seq<Item>)
    requires AllFit(d, items) && items != []
    ensures Detect(Print(d, items, None)).Some? && IsFormatOf(d, Detect(Print(d, items, None)).value)
  {
    hide Detect, Print, Fits, HasWord, IsSignal, IsContextLine;
    var lines := Print(d, items, None);
    PrintMarked(d, items);
    DetectionByEvidence(lines);
    forall i | 0 <= i < |lines| ensures Faithful(d, lines[i]) {
      PrintFaithful(d, items, None, i);
    }
  }

  /******* The main results *******/

  // A non-empty list printed in a dialect, with any of its keywords in any letter
  // case and white space around the fields, is detected as that dialect and reads
  // back as the same points; the fakenet dialect needs harmless names.
  lemma ListsRoundTrip(d: Dialect, items: seq<Item>, defaultZone: int)
    requires items != [] && AllFit(d, items) && (d == InFakenet ==> AllHarmless(items, defaultZone))
    ensures var lines := Print(d, items, None);
      && Detect(lines).Some? && IsFormatOf(d, Detect(lines).value)
      && (forall i :: 0 <= i < |items| ==> |items[i].layout.pads| == 7)
      && PointsIn(Detect(lines).value, lines, defaultZone) == AsRead(items)
  {
    hide Detect, Print, Fits, HarmlessName, AsRead, Fold;
    FitPads(d, items);
    DetectsPrinted(d, items);
    match d {
      case InBoss => BossPrintRuns(defaultZone, BossFamily.INIT, items, None);
      case InCombined => CombinedPrintRuns(Combined.Init(defaultZone), items, None);
      case InFakenet => FakenetRoundTripIff(items, defaultZone);
    }
  }

  predicate SamePoints(a: seq<Item>, b: seq<Item>) {
    |a| == |b| && forall i :: 0 <= i < |a| ==> a[i].point == b[i].point
  }

  // The same points in any two dialects, however they are set, parse to the same
  // rows, conflict marks included; only the raw line differs.
  lemma DialectsMeanTheSame(d: Dialect, e: Dialect, a: seq<Item>, b: seq<Item>, defaultZone: int, i: nat)
    requires i < |a| && SamePoints(a, b) && AllFit(d, a) && AllFit(e, b)
    requires d == InFakenet || e == InFakenet ==> AllHarmless(a, defaultZone)
    ensures var x, y := Detect(Print(d, a, None)), Detect(Print(e, b, None));
      && x.Some? && y.Some?
      && var p := NumberedPoints(PointsIn(x.value, Print(d, a, None), defaultZone));
         var q := NumberedPoints(PointsIn(y.value, Print(e, b, None), defaultZone));
         && |p| == |q| == |a|
         && p[i].(item := p[i].item.(rawLine := "")) == q[i].(item := q[i].item.(rawLine := ""))
  {
    hide Print, Fits, HarmlessName, KeyOf, IndicesOf, PointsIn, Detect;
    ListsRoundTrip(d, a, defaultZone);
    ListsRoundTrip(e, b, defaultZone);
    SameKeys(a, b);
  }

  lemma SameKeys(a: seq<Item>, b: seq<Item>)
    requires SamePoints(a, b)
    requires forall i :: 0 <= i < |a| ==> |a[i].layout.pads| == |b[i].layout.pads| == 7
    ensures KeysOf(AsRead(a)) == KeysOf(AsRead(b))
  {
    hide PointKey;
  }
}
