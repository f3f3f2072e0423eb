/** The nodelist parser's line loop with inline points: node lines keep the
    zone/net/region context and Point lines attach to the preceding node
    (internal/parser/parser.go:181-272, 330-439, internal/parser/parser_node.go:14-157). */
module Nodelist {
  import opened Text
  import opened Keywords
  import opened Addresses
  import opened Duplicates
  import opened PointLines
  import opened Folds

  datatype Node = Node(addr: Addr, nodeType: Keyword, region: Option<int>, systemName: string, location: string,
                       sysopName: string, phone: string, maxSpeed: nat, flagText: string, rawLine: string)

  // The zone/net/region a node line is read in.
  datatype Context = Context(zone: int, net: int, region: Option<int>)

  datatype State = State(context: Context, nodes: seq<Node>, points: seq<Point>, ended: bool)

  function Init(defaultZone: int): State {
    State(Context(defaultZone, defaultZone, None), [], [], false)
  }

  // A leading "-" of a node number is a legacy mark, not a sign.
  function NodeNumber(field: string): Option<int> {
    var num := Trim(field);
    Atoi(if num != "" && num[0] == '-' then num[1..] else num)
  }

  // parseNodeType and parseSpecialNodeType: the node's address and the context after it
  function NodeAddress(nodeType: Keyword, n: int, c: Context): (Addr, Context) {
    match nodeType
    case Zone => (Addr(n, n, 0), c.(zone := n, net := n))
    case Region => (Addr(c.zone, n, 0), c.(net := n, region := Some(n)))
    case Host => (Addr(c.zone, n, 0), c.(net := n))
    case _ => (Addr(c.zone, c.net, n), c)
  }

  // parseLine: None is its error return
  function ParseNode(fields: seq<string>, line: string, c: Context): Option<(Node, Context)> {
    if |fields| < 7 then None
    else
      var nodeType, num := NodeTypeOf(Trim(fields[0])), NodeNumber(fields[1]);
      if nodeType.Unknown? || num.None? then None
      else
        var (addr, next) := NodeAddress(nodeType, num.value, c);
        Some((Node(addr, nodeType, next.region, Trim(fields[2]), Trim(fields[3]), Trim(fields[4]),
                   Trim(fields[5]), ParseUint32(Trim(fields[6])), Join(fields[7..], ','), line), next))
  }

  predicate EndOfFile(raw: string) {
    '\U{001A}' in raw
  }

  function Step(collectPoints: bool, st: State, raw: string): State {
    if st.ended then st
    else if EndOfFile(raw) then st.(ended := true)
    else
      match ReadLine(raw)
      case Nothing => st
      case Fields(keyword, fields) =>
        if collectPoints && keyword == PointWord then
          var point := ParsePointFields(fields);
          if st.nodes == [] || point.None? then st
          else st.(points := st.points + [point.value.(addr := st.nodes[|st.nodes| - 1].addr, rawLine := raw)])
        else
          var node := ParseNode(fields, Trim(raw), st.context);
          if node.None? then st
          else st.(nodes := st.nodes + [node.value.0], context := node.value.1)
  }

  function Stepper(collectPoints: bool): (State, string) -> State {
    (st, raw) => Step(collectPoints, st, raw)
  }

  function Run(collectPoints: bool, defaultZone: int, lines: seq<string>): State {
    Fold(Stepper(collectPoints), Init(defaultZone), lines)
  }

  function NodeKeysOf(nodes: seq<Node>): (r: seq<string>)
    ensures |r| == |nodes|
  {
    seq(|nodes|, i requires 0 <= i < |nodes| => NodeKey(nodes[i].addr))
  }

  lemma NodeKeysOfNext(nodes: seq<Node>, n: Node)
    ensures NodeKeysOf(nodes + [n]) == NodeKeysOf(nodes) + [NodeKey(n.addr)]
  {}

  method ParseFileContent(lines: seq<string>, collectPoints: bool, defaultZone: int)
    returns (nodes: seq<Entry<Node>>, points: seq<Entry<Point>>)
    ensures var st := Run(collectPoints, defaultZone, lines);
      nodes == Numbered(st.nodes, NodeKeysOf(st.nodes)) && points == NumberedPoints(st.points)
  {
    hide ReadLine, ParsePointFields, ParseNode, Numbered, KeysOf, KeyOf, IndicesOf, NodeKey, NodeKeysOf, EndOfFile;
    var nodeTracker := new DuplicateTracker<Node>();
    var pointTracker := new DuplicateTracker<Point>();
    EmptyKeys();
    var context := Context(defaultZone, defaultZone, None);
    var i, ended := 0, false;
    while i < |lines| && !ended
      invariant i <= |lines| && fresh(nodeTracker) && fresh(pointTracker)
      invariant nodeTracker.Valid() && nodeTracker.keys == NodeKeysOf(nodeTracker.items)
      invariant pointTracker.Valid() && pointTracker.keys == KeysOf(pointTracker.items)
      invariant |nodeTracker.entries| == |nodeTracker.items|
      invariant nodeTracker.items != [] ==>
        nodeTracker.entries[|nodeTracker.items| - 1].item == nodeTracker.items[|nodeTracker.items| - 1]
      invariant Run(collectPoints, defaultZone, lines[..i])
        == State(context, nodeTracker.items, pointTracker.items, ended)
    {
      FoldNext(Stepper(collectPoints), Init(defaultZone), lines, i);
      var raw := lines[i];
      i := i + 1;
      if EndOfFile(raw) {
        ended := true;
        break;
      }
      var line := ReadLine(raw);
      if line.Nothing? {
        continue;
      }
      if collectPoints && line.keyword == PointWord {
        if |nodeTracker.entries| == 0 {
          continue;
        }
        var point := ParsePointFields(line.fields);
        if point.None? {
          continue;
        }
        var boss := nodeTracker.entries[|nodeTracker.entries| - 1].item;
        var p := point.value.(addr := boss.addr, rawLine := raw);
        KeysOfNext(pointTracker.items, p);
        pointTracker.Add(p, KeyOf(p));
        continue;
      }
      var node := ParseNode(line.fields, Trim(raw), context);
      if node.Some? {
        NodeKeysOfNext(nodeTracker.items, node.value.0);
        nodeTracker.Add(node.value.0, NodeKey(node.value.0.addr));
        LastEntry(nodeTracker.items, nodeTracker.keys);
        context := node.value.1;
      }
    }
    if ended {
      EndedStays(collectPoints, Run(collectPoints, defaultZone, lines[..i]), lines[i..]);
      FoldAppend(Stepper(collectPoints), Init(defaultZone), lines[..i], lines[i..]);
      assert lines[..i] + lines[i..] == lines;
    } else {
      assert lines[..i] == lines;
    }
    nodes, points := nodeTracker.entries, pointTracker.entries;
  }

  /******* A whole file *******/

  // A node and a point as they leave the parser.
  datatype NodeRow = NodeRow(entry: Entry<Node>, domain: string)
  datatype PointRow = PointRow(entry: Entry<Point>, domain: string, date: string, source: string, ftsId: string)

  // Lists of 1987 and later default to zone 2.
  function DefaultZone(year: int): int {
    if year >= 1987 then 2 else 1
  }

  // headerDate and pathDate are the dates found in the header and the file name;
  // year is the one in the path.
  method ParseFileWithCRC(lines: seq<string>, collectPoints: bool, year: int, headerDate: Option<string>,
                          pathDate: string, domain: string)
    returns (nodes: seq<NodeRow>, points: seq<PointRow>)
    ensures var st := Run(collectPoints, DefaultZone(year), lines);
      && |nodes| == |st.nodes| && |points| == |st.points|
      && (forall i :: 0 <= i < |nodes| ==> nodes[i].entry == Numbered(st.nodes, NodeKeysOf(st.nodes))[i])
      && forall i :: 0 <= i < |points| ==> points[i].entry == NumberedPoints(st.points)[i]
    ensures forall row :: row in nodes ==> row.domain == Normalized(domain)
    ensures nodes != [] && nodes[0].entry.item.nodeType != Zone ==>
      nodes[0].entry.item.addr.zone == if year >= 1987 then 2 else 1
    ensures forall row :: row in points ==>
      && row.domain == Normalized(domain) && row.source == NODELIST_SOURCE
      && row.date == if headerDate.Some? then headerDate.value else pathDate
    ensures forall i, j :: 0 <= i < j < |points| ==> points[i].ftsId != points[j].ftsId
  {
    hide Run, Numbered, FtsId, NodeKeysOf, KeysOf;
    var defaultZone := 1;
    if year >= 1987 {
      defaultZone := 2;
    }
    var nodeEntries, pointEntries := ParseFileContent(lines, collectPoints, defaultZone);
    ghost var st := Run(collectPoints, defaultZone, lines);
    FirstNodeZone(collectPoints, defaultZone, lines);
    ItemsOf(st.nodes, NodeKeysOf(st.nodes));
    var date := if headerDate.Some? then headerDate.value else pathDate;
    var network := Normalized(domain);
    nodes, points := [], [];
    for i := 0 to |nodeEntries|
      invariant |nodes| == i
      invariant forall k :: 0 <= k < i ==> nodes[k] == NodeRow(nodeEntries[k], network)
    {
      nodes := nodes + [NodeRow(nodeEntries[i], network)];
    }
    for i := 0 to |pointEntries|
      invariant |points| == i
      invariant forall k :: 0 <= k < i ==> points[k] == Stamp(pointEntries[k], network, date)
    {
      points := points + [Stamp(pointEntries[i], network, date)];
    }
    forall i, j | 0 <= i < j < |points| ensures points[i].ftsId != points[j].ftsId {
      PointIdentifiersDistinct(st.points, date, network, i, j);
    }
  }

  // ComputeFtsId and the fields beside it
  function Stamp(e: Entry<Point>, domain: string, date: string): PointRow {
    PointRow(e, domain, date, NODELIST_SOURCE, FtsId(e.key, date, e.conflictSequence, domain))
  }

  lemma {:induction false} NodesGrow(collectPoints: bool, st: State, lines: seq<string>)
    ensures st.nodes <= Fold(Stepper(collectPoints), st, lines).nodes
    decreases |lines|
  {
    hide ReadLine, ParsePointFields, ParseNode, EndOfFile;
    if lines != [] {
      NodesGrow(collectPoints, Step(collectPoints, st, lines[0]), lines[1..]);
    }
  }

  lemma ItemsOf(nodes: seq<Node>, keys: seq<string>)
    requires |nodes| == |keys|
    ensures forall i :: 0 <= i < |nodes| ==> Numbered(nodes, keys)[i].item == nodes[i]
  {}

  // A list that does not start with a Zone line starts in the default zone.
  lemma {:induction false} FirstNodeZone(collectPoints: bool, defaultZone: int, lines: seq<string>)
    ensures var st := Run(collectPoints, defaultZone, lines);
      st.nodes != [] && st.nodes[0].nodeType != Zone ==> st.nodes[0].addr.zone == defaultZone
    decreases |lines|
  {
    hide ReadLine, ParsePointFields, EndOfFile, ParseNode;
    if lines != [] {
      var next := Step(collectPoints, Init(defaultZone), lines[0]);
      FirstStep(collectPoints, defaultZone, defaultZone + 1, lines[0]);
      FirstStepZone(collectPoints, defaultZone, lines[0]);
      if next.ended {
        EndedStays(collectPoints, next, lines[1..]);
      } else if next.nodes == [] {
        FirstNodeZone(collectPoints, defaultZone, lines[1..]);
      } else {
        NodesGrow(collectPoints, next, lines[1..]);
        assert Run(collectPoints, defaultZone, lines).nodes[0] == next.nodes[0];
      }
    }
  }

  lemma FirstStepZone(collectPoints: bool, defaultZone: int, raw: string)
    ensures var next := Step(collectPoints, Init(defaultZone), raw);
      next.nodes != [] && next.nodes[0].nodeType != Zone ==> next.nodes[0].addr.zone == defaultZone
  {
    hide ReadLine, ParsePointFields, EndOfFile, NodeTypeOf, NodeNumber, Trim;
  }

  // The zone a list defaults to matters exactly when its first node line is not a
  // Zone line.
  lemma {:induction false} DefaultZoneMattersIff(collectPoints: bool, a: int, b: int, lines: seq<string>)
    requires a != b
    ensures var left, right := Run(collectPoints, a, lines), Run(collectPoints, b, lines);
      left.nodes == right.nodes && left.points == right.points
      <==> left.nodes == [] || left.nodes[0].nodeType == Zone
    decreases |lines|
  {
    hide ReadLine, ParsePointFields, EndOfFile, ParseNode;
    if lines != [] {
      var f, raw := Stepper(collectPoints), lines[0];
      var left, right := Step(collectPoints, Init(a), raw), Step(collectPoints, Init(b), raw);
      FirstStep(collectPoints, a, b, raw);
      if left.ended {
        EndedStays(collectPoints, left, lines[1..]);
        EndedStays(collectPoints, right, lines[1..]);
      } else if left.nodes == [] {
        DefaultZoneMattersIff(collectPoints, a, b, lines[1..]);
      } else {
        NodesGrow(collectPoints, left, lines[1..]);
        NodesGrow(collectPoints, right, lines[1..]);
        assert Run(collectPoints, a, lines).nodes[0] == left.nodes[0];
        assert Run(collectPoints, b, lines).nodes[0] == right.nodes[0];
      }
    }
  }

  // The first line leaves the defaults as they are, ends the list, or is a node.
  lemma FirstStep(collectPoints: bool, a: int, b: int, raw: string)
    requires a != b
    ensures var left, right := Step(collectPoints, Init(a), raw), Step(collectPoints, Init(b), raw);
      || (left == Init(a) && right == Init(b))
      || (left == Init(a).(ended := true) && right == Init(b).(ended := true))
      || (!left.ended && |left.nodes| == |right.nodes| == 1
          && if left.nodes[0].nodeType == Zone then left == right else left.nodes[0] != right.nodes[0])
  {
    hide ReadLine, ParsePointFields, EndOfFile, NodeTypeOf, NodeNumber, Trim;
  }

  lemma EmptyKeys()
    ensures NodeKeysOf([]) == [] && KeysOf([]) == []
  {}

  lemma LastEntry(items: seq<Node>, keys: seq<string>)
    requires |items| == |keys| && items != []
    ensures Numbered(items, keys)[|items| - 1].item == items[|items| - 1]
  {}

  lemma {:induction false} EndedStays(collectPoints: bool, st: State, lines: seq<string>)
    requires st.ended
    ensures Fold(Stepper(collectPoints), st, lines) == st
    decreases |lines|
  {
    if lines != [] {
      EndedStays(collectPoints, st, lines[1..]);
    }
  }

  // Nothing after the end-of-file mark is read.
  lemma NothingAfterEndOfFile(collectPoints: bool, defaultZone: int, before: seq<string>, mark: string,
                              after: seq<string>)
    requires EndOfFile(mark)
    ensures var full := Run(collectPoints, defaultZone, before + [mark] + after);
      var cut := Run(collectPoints, defaultZone, before);
      full.nodes == cut.nodes && full.points == cut.points
  {
    hide ReadLine, ParsePointFields, ParseNode;
    var f, st := Stepper(collectPoints), Run(collectPoints, defaultZone, before);
    FoldAppend(f, Init(defaultZone), before + [mark], after);
    FoldAppend(f, Init(defaultZone), before, [mark]);
    assert Fold(f, st, [mark]) == Fold(f, f(st, mark), []);
    EndedStays(collectPoints, Step(collectPoints, st, mark), after);
  }

  // Collecting inline points never changes the nodes.
  lemma {:induction false} CollectingKeepsNodes(st: State, other: State, lines: seq<string>)
    requires other == st.(points := other.points)
    ensures var r, s := Fold(Stepper(true), st, lines), Fold(Stepper(false), other, lines);
      r.nodes == s.nodes && r.context == s.context && r.ended == s.ended
    decreases |lines|
  {
    if lines != [] {
      var raw := lines[0];
      if ReadLine(raw).Fields? && ReadLine(raw).keyword == PointWord {
        NodeTypeIsKeyword(Trim(ReadLine(raw).fields[0]));
      }
      CollectedStep(st, other, raw);
      CollectingKeepsNodes(Step(true, st, raw), Step(false, other, raw), lines[1..]);
    }
  }

  lemma CollectedStep(st: State, other: State, raw: string)
    requires other == st.(points := other.points)
    ensures Step(false, other, raw) == Step(true, st, raw).(points := Step(false, other, raw).points)
  {
    hide ParsePointFields, NodeTypeOf, KeywordOf, NodeNumber, Trim, Split, EndOfFile;
    if ReadLine(raw).Fields? {
      NodeTypeIsKeyword(Trim(ReadLine(raw).fields[0]));
    }
  }

  // The nodes of one parsed file carry pairwise distinct identifiers.
  lemma NodeIdentifiersDistinct(nodes: seq<Node>, date: string, domain: string, i: nat, j: nat)
    requires i < j < |nodes|
    ensures var rows := Numbered(nodes, NodeKeysOf(nodes));
      FtsId(rows[i].key, date, rows[i].conflictSequence, domain)
      != FtsId(rows[j].key, date, rows[j].conflictSequence, domain)
  {
    hide FtsId, AddrText, Numbered;
    AddrTextPlain(nodes[i].addr, '@');
    AddrTextPlain(nodes[j].addr, '@');
    IdentifiersDistinct(nodes, NodeKeysOf(nodes), date, domain, i, j);
  }
}
