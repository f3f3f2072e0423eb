/** Two independently written parsers read the same list the same way: the
    nodelist parser collecting inline points, and the combined pointlist parser. */
module Agreement {
  import opened Text
  import opened Keywords
  import opened Addresses
  import opened PointLines
  import opened Folds
  import Combined
  import Nodelist

  predicate IsContextWord(k: Keyword) {
    Combined.IsNetWord(k) || Combined.IsNodeWord(k)
  }

  // A node line has at least 7 fields and a number that is not negative; unknown
  // keywords, malformed points, comments and blank lines are all allowed.
  predicate WellFormedLine(raw: string) {
    && !Nodelist.EndOfFile(raw)
    && var line := ReadLine(raw);
       line.Fields? && IsContextWord(line.keyword) ==>
         |line.fields| >= 7 && Combined.ContextNum(line.fields).Some?
  }

  // The first context line is a Zone line; a Region or Host line will do when
  // both parsers assume the same zone.
  predicate StartsInContext(lines: seq<string>, sameZone: bool) {
    if lines == [] then true
    else
      var line := ReadLine(lines[0]);
      if line.Fields? && IsContextWord(line.keyword) then
        line.keyword == Zone || (sameZone && Combined.IsNetWord(line.keyword))
      else StartsInContext(lines[1..], sameZone)
  }

  predicate WellFormedList(lines: seq<string>, sameZone: bool) {
    && (forall i :: 0 <= i < |lines| ==> WellFormedLine(lines[i]))
    && StartsInContext(lines, sameZone)
  }

  // How the two machines' states correspond.
  ghost predicate Corresponds(c: Combined.State, n: Nodelist.State) {
    && !n.ended
    && c.points == n.points
    && (c.haveContext <==> n.nodes != [])
    && (n.nodes != [] ==>
         && c.zone == n.context.zone && c.net == n.context.net
         && n.nodes[|n.nodes| - 1].addr == Addr(c.zone, c.net, c.node))
  }

  lemma MinusStripped(field: string)
    requires Atoi(Trim(field)).Some? && Atoi(Trim(field)).value >= 0
    ensures Nodelist.NodeNumber(field) == Atoi(Trim(field))
  {
    var num := Trim(field);
    if num[0] == '-' {
      assert Value(num[1..]) == 0;
    }
  }

  lemma StepsCorrespond(c: Combined.State, n: Nodelist.State, raw: string)
    requires Corresponds(c, n) && WellFormedLine(raw)
    requires c.haveContext || StartsInContext([raw], c.zone == n.context.zone)
    ensures Corresponds(Combined.Step(c, raw), Nodelist.Step(true, n, raw))
    ensures var line, next := ReadLine(raw), Combined.Step(c, raw);
      next.haveContext
      || (!c.haveContext && !(line.Fields? && IsContextWord(line.keyword))
          && next.zone == c.zone && Nodelist.Step(true, n, raw).context == n.context)
  {
    hide ParsePointFields, NodeTypeOf, KeywordOf, Trim, Split, Atoi, Join, Nodelist.EndOfFile, NodeKey, ParseUint32;
    var line := ReadLine(raw);
    if line.Fields? {
      NodeTypeIsKeyword(Trim(line.fields[0]));
      if IsContextWord(line.keyword) {
        MinusStripped(line.fields[1]);
      }
    }
  }

  lemma {:induction false} RunsCorrespond(c: Combined.State, n: Nodelist.State, lines: seq<string>)
    requires Corresponds(c, n)
    requires forall i :: 0 <= i < |lines| ==> WellFormedLine(lines[i])
    requires c.haveContext || StartsInContext(lines, c.zone == n.context.zone)
    ensures Corresponds(Fold(Combined.Stepper(), c, lines), Fold(Nodelist.Stepper(true), n, lines))
    decreases |lines|
  {
    hide Combined.Step, Nodelist.Step, WellFormedLine, ReadLine;
    if lines != [] {
      StepsCorrespond(c, n, lines[0]);
      RunsCorrespond(Combined.Step(c, lines[0]), Nodelist.Step(true, n, lines[0]), lines[1..]);
    }
  }

  // On a well-formed list the two parsers emit the same points, with the same
  // addresses and conflict numbers, in the same order.
  lemma ParsersAgree(lines: seq<string>, combinedZone: int, nodelistZone: int)
    requires WellFormedList(lines, combinedZone == nodelistZone)
    ensures Combined.Run(combinedZone, lines).points == Nodelist.Run(true, nodelistZone, lines).points
    ensures NumberedPoints(Combined.Run(combinedZone, lines).points)
         == NumberedPoints(Nodelist.Run(true, nodelistZone, lines).points)
  {
    RunsCorrespond(Combined.Init(combinedZone), Nodelist.Init(nodelistZone), lines);
  }
}
