/** Printing nodes as a nodelist and parsing it gives the nodes back: type,
    address, region and every text (internal/parser/parser.go:330-439,
    internal/parser/parser_node.go:14-157, 162-230). */
module NodeRoundTrip {
  import opened Text
  import opened Keywords
  import opened Addresses
  import opened PointLines
  import opened Folds
  import opened Nodelist

  // A node to print and how its line is set; a minus sign on its number is the
  // legacy mark.
  datatype Item = Item(layout: Layout, node: Node)

  const END_MARK := '\U{001A}'

  // The part of the address that the line states.
  function Number(n: Node): int {
    match n.nodeType
    case Zone => n.addr.zone
    case Region => n.addr.net
    case Host => n.addr.net
    case _ => n.addr.node
  }

  // The texts of the line; a node line has the fields of a point line.
  function LineOf(item: Item): Point {
    var n := item.node;
    Point(n.addr, if item.layout.sign == "-" then -Number(n) else Number(n), n.systemName, n.location, n.sysopName,
          n.phone, n.maxSpeed, n.flagText, "")
  }

  predicate Fits(item: Item) {
    var n := item.node;
    && !n.nodeType.Boss? && !n.nodeType.PointWord? && !n.nodeType.Unknown? && Is(item.layout.word, n.nodeType)
    && PrintablePoint(LineOf(item)) && LaidOut(item.layout, LineOf(item))
    && END_MARK !in n.systemName && END_MARK !in n.location && END_MARK !in n.sysopName && END_MARK !in n.phone
    && END_MARK !in n.flagText && END_MARK !in item.layout.speed
  }

  // The node is where its line stands: a Zone line is node 0 of the net of its own
  // number, a Region or Host line node 0 of a net of the zone, any other line a node
  // of the net. A Region line starts its region; all others are in the current one.
  predicate Placed(n: Node, c: Context) {
    match n.nodeType
    case Zone => n.addr.net == n.addr.zone && n.addr.node == 0 && n.region == c.region
    case Region => n.addr.zone == c.zone && n.addr.node == 0 && n.region == Some(n.addr.net)
    case Host => n.addr.zone == c.zone && n.addr.node == 0 && n.region == c.region
    case _ => n.addr.zone == c.zone && n.addr.net == c.net && n.region == c.region
  }

  // The lines after a node are in its zone, net and region.
  function Next(n: Node): Context {
    Context(n.addr.zone, n.addr.net, n.region)
  }

  predicate AllPlaced(items: seq<Item>, c: Context) {
    items != [] ==> Placed(items[0].node, c) && AllPlaced(items[1..], Next(items[0].node))
  }

  predicate AllFit(items: seq<Item>) {
    forall i :: 0 <= i < |items| ==> Fits(items[i])
  }

  function Print(items: seq<Item>): (lines: seq<string>)
    requires AllFit(items)
    ensures |lines| == |items|
  {
    seq(|items|, i requires 0 <= i < |items| => LineFor(items[i]))
  }

  function LineFor(item: Item): string
    requires Fits(item)
  {
    PointLine(item.layout, LineOf(item))
  }

  function AsRead(items: seq<Item>): (nodes: seq<Node>)
    requires AllFit(items)
    ensures |nodes| == |items|
  {
    seq(|items|, i requires 0 <= i < |items| => AsReadOne(items[i]))
  }

  function AsReadOne(item: Item): Node
    requires Fits(item)
  {
    item.node.(rawLine := LineText(item.layout, LineOf(item)))
  }

  lemma NumberReads(l: Layout, n: int)
    requires 0 <= n <= MAX_INT64 && NumberText(l.sign, l.digits, if l.sign == "-" then -n else n)
    ensures var s := l.sign + l.digits;
      Atoi(if s != "" && s[0] == '-' then s[1..] else s) == Some(n)
  {
    var s := l.sign + l.digits;
    assert IsDigit(l.digits[0]);
    if l.sign == "-" {
      assert s[1..] == "" + l.digits;
      AtoiOfSigned("", l.digits);
    } else {
      AtoiOfSigned(l.sign, l.digits);
    }
  }

  lemma NoEndMark(item: Item)
    requires Fits(item)
    ensures !EndOfFile(LineFor(item))
  {
    var l, p := item.layout, LineOf(item);
    assert !IsSpace(END_MARK);
    TextsUnmarked(item);
    hide PrintablePoint, Texts;
    forall i | 0 <= i < 7 ensures END_MARK !in HeadFields(l, p)[i] {
      assert Spaces(l.pads[i]);
    }
    JoinPlain(HeadFields(l, p), ',', END_MARK);
  }

  lemma TextsUnmarked(item: Item)
    requires Fits(item)
    ensures forall i :: 0 <= i < 7 ==> END_MARK !in Texts(item.layout, LineOf(item))[i]
  {
    var l := item.layout;
    KeywordLetters(l.word, item.node.nodeType);
    hide Is, PrintablePoint, Spaces, SpeedText;
    forall i | 0 <= i < |l.word| ensures l.word[i] != END_MARK {
      assert 'a' <= LowerChar(l.word[i]) <= 'z';
    }
    assert forall i :: 0 <= i < |l.digits| ==> IsDigit(l.digits[i]);
    assert END_MARK !in l.word && END_MARK !in l.digits && END_MARK !in l.sign;
  }

  lemma NodeReads(item: Item, c: Context)
    requires Fits(item) && Placed(item.node, c)
    ensures var l, p := item.layout, LineOf(item);
      ParseNode(LineFields(l, p), LineText(l, p), c) == Some((AsReadOne(item), Next(item.node)))
  {
    var l, p := item.layout, LineOf(item);
    hide Itoa, LineFields, LineText, Trim, NodeTypeOf, KeywordOf, Is, Atoi, Join, ParseUint32;
    LineFieldsRead(l, p);
    SpeedReads(l.speed, p.maxSpeed);
    NumberReads(l, Number(item.node));
    NodeTypeIsKeyword(l.word);
    KeywordIff(l.word, item.node.nodeType);
  }

  lemma OneNodeRuns(collectPoints: bool, st: State, item: Item)
    requires Fits(item) && !st.ended && Placed(item.node, st.context)
    ensures Step(collectPoints, st, LineFor(item))
         == st.(nodes := st.nodes + [AsReadOne(item)], context := Next(item.node))
  {
    hide ReadLine, LineFields, LineText, PointLine, KeywordOf, Is, ParseNode, Trim, EndOfFile, Placed, ParsePointFields;
    NoEndMark(item);
    PointLineReads(item.layout, LineOf(item));
    KeywordIff(item.layout.word, item.node.nodeType);
    NodeReads(item, st.context);
  }

  lemma {:induction false} NodesRun(collectPoints: bool, st: State, items: seq<Item>)
    requires AllFit(items) && !st.ended && AllPlaced(items, st.context)
    ensures var r := Fold(Stepper(collectPoints), st, Print(items));
      r.nodes == st.nodes + AsRead(items) && r.points == st.points
    decreases |items|
  {
    hide Fits, Placed, Step, AsReadOne, LineFor, Next;
    if items == [] {
      assert Print(items) == [] && AsRead(items) == [];
    } else {
      OneNodeRuns(collectPoints, st, items[0]);
      var next := Step(collectPoints, st, LineFor(items[0]));
      NodesRun(collectPoints, next, items[1..]);
      assert Print(items)[0] == LineFor(items[0]) && Print(items)[1..] == Print(items[1..]);
      assert AsRead(items) == [AsReadOne(items[0])] + AsRead(items[1..]);
    }
  }

  // A printed nodelist reads back as its nodes, whatever the letter case of its
  // keywords, the white space around its fields and the marks on its numbers, and
  // whether or not points are collected.
  lemma NodesRoundTrip(collectPoints: bool, defaultZone: int, items: seq<Item>)
    requires AllFit(items) && AllPlaced(items, Context(defaultZone, defaultZone, None))
    ensures var st := Run(collectPoints, defaultZone, Print(items));
      st.nodes == AsRead(items) && st.points == []
  {
    hide Print, AsRead, AllFit, AllPlaced, Fold;
    NodesRun(collectPoints, Init(defaultZone), items);
    assert [] + AsRead(items) == AsRead(items);
  }
}
