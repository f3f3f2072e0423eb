/** The cache keys of the read wrappers and the prefixes that sweep them
    (internal/cache/keys.go:26-139, internal/storage/cached_storage.go:267-280,
    and the key expressions of internal/storage/cached_storage_*.go).
    Hashes are texts of hexadecimal digits, dates are formatted texts. */
module CacheKeys {
  import opened Text

  const PREFIX := "ndb"

  // A cached read, by the key it uses. Analytics covers every report keyed by analyticsKey.
  datatype Query =
    | Stats(date: string, domain: string)
    | LatestStatsDate(domain: string)
    | NodeCountHistory(domain: string)
    | CountNodes(date: string, domain: string)
    | AvailableDates(domain: string)
    | NearestDate(date: string, domain: string)
    | Nodes(hash: string)
    | Points(hash: string)
    | PointSummaries(hash: string)
    | Analytics(name: string, parts: seq<string>)
    | OneNode(zone: int, net: int, node: int)
    | NodeDomains(zone: int, net: int, node: int)
    | NodeHistory(zone: int, net: int, node: int, domain: string)
    | NodeChanges(zone: int, net: int, node: int, domain: string)
    | UniqueSysops(hash: string, limit: int, offset: int)
    | NodesBySysop(hash: string, limit: int)
    | PointsByBoss(domain: string, zone: int, net: int, node: int, asOf: Option<string>)
    | PointHistory(domain: string, zone: int, net: int, node: int, pointNum: int)
    | PointStats(domain: string, asOf: Option<string>)
    | PointCounts(domain: string, zone: int, net: int, asOf: Option<string>)
    | PointlistDates(domain: string, listSource: string)
    | PointlistSources(domain: string)
    | PointDomains(zone: int, net: int, node: int, point: Option<int>)
    | LatestPointlistDate(domain: string)
    | ReachabilityTrends(days: int, domain: string)
    | NodesByReachability(operational: bool, limit: int, days: int, domain: string)
    | NodeTestHistory(zone: int, net: int, node: int, days: int, domain: string)
    | ReachabilityStats(zone: int, net: int, node: int, days: int, domain: string)
    | DetailedTest(zone: int, net: int, node: int, testTime: string, domain: string)

  const ZERO_DATE := "0001-01-01"

  // pointAsOfKey: without a date, the latest
  function AsOfText(asOf: Option<string>): string {
    if asOf.None? then "latest" else asOf.value
  }

  function PointText(point: Option<int>): string {
    Itoa(if point.None? then -1 else point.value)
  }

  // The colon-separated arguments after the key's family.
  function Arguments(q: Query): (args: seq<string>)
    ensures args != []
  {
    match q
    case Stats(d, dom) => [d, dom]
    case LatestStatsDate(dom) => ["latest", dom]
    case NodeCountHistory(dom) => [ZERO_DATE, "history", dom]
    case CountNodes(d, dom) => [d, "count", dom]
    case AvailableDates(dom) => ["available", dom]
    case NearestDate(d, dom) => ["nearest", d, dom]
    case Nodes(h) => [h]
    case Points(h) => [h, "points"]
    case PointSummaries(h) => [h, "pointsum"]
    case Analytics(name, parts) => [name] + parts
    case OneNode(z, n, f) => [Itoa(z), Itoa(n), Itoa(f)]
    case NodeDomains(z, n, f) => ["domains", Itoa(z), Itoa(n), Itoa(f)]
    case NodeHistory(z, n, f, dom) => [Itoa(z), Itoa(n), Itoa(f), dom]
    case NodeChanges(z, n, f, dom) => [Itoa(z), Itoa(n), Itoa(f), dom]
    case UniqueSysops(h, limit, offset) => [h, Itoa(limit), Itoa(offset)]
    case NodesBySysop(h, limit) => [h, Itoa(limit)]
    case PointsByBoss(dom, z, n, f, asOf) => ["boss", dom, Itoa(z), Itoa(n), Itoa(f), AsOfText(asOf)]
    case PointHistory(dom, z, n, f, p) => ["history", dom, Itoa(z), Itoa(n), Itoa(f), Itoa(p)]
    case PointStats(dom, asOf) => ["stats", dom, AsOfText(asOf)]
    case PointCounts(dom, z, n, asOf) => ["netcounts", dom, Itoa(z), Itoa(n), AsOfText(asOf)]
    case PointlistDates(dom, source) => ["dates", dom, source]
    case PointlistSources(dom) => ["sources", dom]
    case PointDomains(z, n, f, p) => ["domains", Itoa(z), Itoa(n), Itoa(f), PointText(p)]
    case LatestPointlistDate(dom) => ["latest", dom]
    case ReachabilityTrends(days, dom) => ["trends", Itoa(days), dom]
    case NodesByReachability(up, limit, days, dom) =>
      ["search", if up then "true" else "false", Itoa(limit), Itoa(days), dom]
    case NodeTestHistory(z, n, f, days, dom) => ["history", Itoa(z), Itoa(n), Itoa(f), Itoa(days), dom]
    case ReachabilityStats(z, n, f, days, dom) => ["stats", "v2", Itoa(z), Itoa(n), Itoa(f), Itoa(days), dom]
    case DetailedTest(z, n, f, time, dom) => ["detail", Itoa(z), Itoa(n), Itoa(f), time, dom]
  }

  function Family(q: Query): (f: string)
    ensures ':' !in f
  {
    match q
    case Stats(_, _) => "stats"
    case LatestStatsDate(_) => "stats"
    case NodeCountHistory(_) => "stats"
    case CountNodes(_, _) => "stats"
    case AvailableDates(_) => "dates"
    case NearestDate(_, _) => "dates"
    case Nodes(_) => "search"
    case Points(_) => "search"
    case PointSummaries(_) => "search"
    case Analytics(_, _) => "analytics"
    case OneNode(_, _, _) => "node"
    case NodeDomains(_, _, _) => "node"
    case NodeHistory(_, _, _, _) => "history"
    case NodeChanges(_, _, _, _) => "changes"
    case UniqueSysops(_, _, _) => "sysops"
    case NodesBySysop(_, _) => "bysysop"
    case PointsByBoss(_, _, _, _, _) => "points"
    case PointHistory(_, _, _, _, _) => "points"
    case PointStats(_, _) => "points"
    case PointCounts(_, _, _, _) => "points"
    case PointlistDates(_, _) => "points"
    case PointlistSources(_) => "points"
    case PointDomains(_, _, _, _) => "points"
    case LatestPointlistDate(_) => "points"
    case ReachabilityTrends(_, _) => "reachability"
    case NodesByReachability(_, _, _, _) => "reachability"
    case NodeTestHistory(_, _, _, _, _) => "reachability"
    case ReachabilityStats(_, _, _, _, _) => "reachability"
    case DetailedTest(_, _, _, _, _) => "reachability"
  }

  function Key(q: Query): string {
    Join([PREFIX, Family(q)] + Arguments(q), ':')
  }

  // The literal prefix that DeleteByPrefix sweeps for a family.
  function SweepPrefix(family: string): string {
    PREFIX + ":" + family + ":"
  }

  // analyticsKey: the parts are appended in order, each after a colon.
  method AnalyticsKey(name: string, parts: seq<string>) returns (key: string)
    ensures key == Key(Analytics(name, parts))
  {
    key := PREFIX + ":analytics:" + name;
    AnalyticsHead(name);
    for i := 0 to |parts|
      invariant key == Join([PREFIX, "analytics", name] + parts[..i], ':')
    {
      JoinLast([PREFIX, "analytics", name] + parts[..i], parts[i], ':');
      assert [PREFIX, "analytics", name] + parts[..i + 1] == [PREFIX, "analytics", name] + parts[..i] + [parts[i]];
      key := key + ":" + parts[i];
    }
    assert parts[..|parts|] == parts;
    assert [PREFIX, "analytics"] + ([name] + parts) == [PREFIX, "analytics", name] + parts;
  }

  lemma AnalyticsHead(name: string)
    ensures PREFIX + ":analytics:" + name == Join([PREFIX, "analytics", name] + [], ':')
  {
    var all := [PREFIX, "analytics", name];
    assert all + [] == all && all[1..] == ["analytics", name] && all[1..][1..] == [name];
    assert Join([name], ':') == name;
    assert Join(["analytics", name], ':') == "analytics" + [':'] + name;
  }

  /******* When two keys are the same *******/

  // The colon-free pieces of a list of texts.
  function Pieces(parts: seq<string>): seq<string>
    decreases |parts|
  {
    if parts == [] then [] else Split(parts[0], ':') + Pieces(parts[1..])
  }

  lemma {:induction false} SplitOfJoinAny(parts: seq<string>)
    requires parts != []
    ensures Split(Join(parts, ':'), ':') == Pieces(parts)
    decreases |parts|
  {
    if |parts| == 1 {
      assert Pieces(parts[1..]) == [];
    } else {
      SplitOfJoinAny(parts[1..]);
      SplitAppend(parts[0], Join(parts[1..], ':'), ':');
    }
  }

  lemma SamePiecesSameText(a: seq<string>, b: seq<string>)
    requires a != [] && b != []
    ensures Join(a, ':') == Join(b, ':') <==> Pieces(a) == Pieces(b)
  {
    SplitOfJoinAny(a);
    SplitOfJoinAny(b);
    JoinOfSplit(Join(a, ':'), ':');
    JoinOfSplit(Join(b, ':'), ':');
  }

  // Two keys are equal exactly when their arguments fall into the same pieces at the colons.
  lemma SameKeyIff(a: Query, b: Query)
    ensures Key(a) == Key(b) <==> Family(a) == Family(b) && Pieces(Arguments(a)) == Pieces(Arguments(b))
  {
    hide Join, Pieces, Arguments, Family;
    SamePiecesSameText([PREFIX, Family(a)] + Arguments(a), [PREFIX, Family(b)] + Arguments(b));
    KeyPieces(a);
    KeyPieces(b);
    var p, q := Pieces(Arguments(a)), Pieces(Arguments(b));
    var x, y := [PREFIX, Family(a)] + p, [PREFIX, Family(b)] + q;
    assert x[1] == Family(a) && y[1] == Family(b) && x[2..] == p && y[2..] == q;
  }

  lemma KeyPieces(q: Query)
    ensures Pieces([PREFIX, Family(q)] + Arguments(q)) == [PREFIX, Family(q)] + Pieces(Arguments(q))
  {
    var args := Arguments(q);
    hide Arguments;
    var all := [PREFIX, Family(q)] + args;
    assert all[1..] == [Family(q)] + args && all[1..][1..] == args;
    SplitPlain(PREFIX);
    SplitPlain(Family(q));
  }

  lemma SplitPlain(s: string)
    requires ':' !in s
    ensures Split(s, ':') == [s]
  {
    SplitOfJoin([s], ':');
  }

  // So analytics keys can collide: two different calls, with a colon at the end
  // of one argument or at the start of the next.
  lemma AnalyticsKeysCollide(name: string, x: string, y: string, z: string)
    ensures var a, b := Analytics(name, [x + ":" + y, z]), Analytics(name, [x, y + ":" + z]);
      a != b && Key(a) == Key(b)
  {
    hide Key;
    TwoPartKey(name, x + ":" + y, z);
    TwoPartKey(name, x, y + ":" + z);
    assert (x + ":" + y) + ":" + z == x + ":" + (y + ":" + z);
    assert |[x + ":" + y, z][0]| > |[x, y + ":" + z][0]|;
  }

  lemma TwoPartKey(name: string, p: string, q: string)
    ensures Key(Analytics(name, [p, q])) == SweepPrefix("analytics") + (name + ":" + (p + ":" + q))
  {
    KeyShape(Analytics(name, [p, q]));
    assert Arguments(Analytics(name, [p, q])) == [name, p, q];
    hide Key, Join, Arguments;
    JoinOfThree(name, p, q);
  }

  lemma JoinOfThree(a: string, b: string, c: string)
    ensures Join([a, b, c], ':') == a + ":" + (b + ":" + c)
  {
    assert [a, b, c][1..] == [b, c] && [b, c][1..] == [c];
    assert Join([c], ':') == c;
    assert Join([b, c], ':') == b + [':'] + c;
  }

  /******* Families *******/

  predicate HasPrefix(s: string, p: string) {
    p <= s
  }

  // A sweep reaches exactly the keys of its family.
  lemma SweepIff(q: Query, family: string)
    requires ':' !in family
    ensures HasPrefix(Key(q), SweepPrefix(family)) <==> Family(q) == family
  {
    KeyShape(q);
    var key, rest, prefix := Key(q), Join(Arguments(q), ':'), SweepPrefix(family);
    hide Key, Join, Arguments, Split;
    SecondPiece(Family(q), rest);
    if prefix <= key {
      var tail := key[|prefix|..];
      assert key == prefix + tail;
      SecondPiece(family, tail);
      assert ([PREFIX, family] + Split(tail, ':'))[1] == ([PREFIX, Family(q)] + Split(rest, ':'))[1];
    }
  }

  lemma SecondPiece(family: string, rest: string)
    requires ':' !in family
    ensures Split(PREFIX + ":" + family + ":" + rest, ':') == [PREFIX, family] + Split(rest, ':')
  {
    hide Split;
    assert PREFIX + ":" + family + ":" + rest == PREFIX + [':'] + (family + [':'] + rest);
    SplitFirst(PREFIX, family + [':'] + rest, ':');
    SplitFirst(family, rest, ':');
  }

  lemma KeyShape(q: Query)
    ensures Key(q) == PREFIX + ":" + Family(q) + ":" + Join(Arguments(q), ':')
  {
    var args := Arguments(q);
    hide Arguments;
    var all := [PREFIX, Family(q)] + args;
    assert all[1..] == [Family(q)] + args && all[1..][1..] == args;
    assert Join(all, ':') == PREFIX + [':'] + Join(all[1..], ':');
    assert Join(all[1..], ':') == Family(q) + [':'] + Join(args, ':');
  }

  /******* Keys identify reads *******/

  predicate Plain(s: string) {
    ':' !in s
  }

  // A formatted date.
  predicate DateText(s: string) {
    Plain(s) && |s| >= 10
  }

  datatype Free = Free(parts: nat, at: nat)

  // The reports with an argument of any text: how many arguments they have, and
  // which of them it is (a flag, a country, a network, the time of a test).
  function FreeArgument(name: string): (free: Option<Free>)
    ensures free.Some? ==> free.value.at < free.value.parts
  {
    if name == "flag:first" || name == "flag:usage" then Some(Free(2, 0))
    else if name == "geo:country:v2" then Some(Free(3, 0))
    else if name == "nodes_in_network" then Some(Free(4, 0))
    else if name == "modem:detail" then Some(Free(4, 3))
    else None
  }

  // Colon-free but for one of them.
  predicate PlainBut(parts: seq<string>, at: nat) {
    forall i :: 0 <= i < |parts| && i != at ==> Plain(parts[i])
  }

  predicate PartsFormed(name: string, parts: seq<string>) {
    var free := FreeArgument(name);
    if free.Some? then |parts| == free.value.parts && PlainBut(parts, free.value.at) else PlainBut(parts, |parts|)
  }

  // Colon-free string arguments, the time of a test and the reports' free argument
  // excepted; a formatted date; a report name from the catalogue. Point -1 stands
  // for no point.
  predicate WellFormed(q: Query, names: set<string>) {
    match q
    case Stats(d, dom) => DateText(d) && Plain(dom)
    case LatestStatsDate(dom) => Plain(dom)
    case NodeCountHistory(dom) => Plain(dom)
    case CountNodes(d, dom) => DateText(d) && Plain(dom)
    case AvailableDates(dom) => Plain(dom)
    case NearestDate(d, dom) => DateText(d) && Plain(dom)
    case Nodes(h) => Plain(h)
    case Points(h) => Plain(h)
    case PointSummaries(h) => Plain(h)
    case Analytics(name, parts) => name in names && PartsFormed(name, parts)
    case OneNode(_, _, _) => true
    case NodeDomains(_, _, _) => true
    case NodeHistory(_, _, _, dom) => Plain(dom)
    case NodeChanges(_, _, _, dom) => Plain(dom)
    case UniqueSysops(h, _, _) => Plain(h)
    case NodesBySysop(h, _) => Plain(h)
    case PointsByBoss(dom, _, _, _, asOf) => Plain(dom) && (asOf.Some? ==> DateText(asOf.value))
    case PointHistory(dom, _, _, _, _) => Plain(dom)
    case PointStats(dom, asOf) => Plain(dom) && (asOf.Some? ==> DateText(asOf.value))
    case PointCounts(dom, _, _, asOf) => Plain(dom) && (asOf.Some? ==> DateText(asOf.value))
    case PointlistDates(dom, source) => Plain(dom) && Plain(source)
    case PointlistSources(dom) => Plain(dom)
    case PointDomains(_, _, _, p) => p != Some(-1)
    case LatestPointlistDate(dom) => Plain(dom)
    case ReachabilityTrends(_, dom) => Plain(dom)
    case NodesByReachability(_, _, _, dom) => Plain(dom)
    case NodeTestHistory(_, _, _, _, dom) => Plain(dom)
    case ReachabilityStats(_, _, _, _, dom) => Plain(dom)
    case DetailedTest(_, _, _, _, dom) => Plain(dom)
  }

  // No report name is another one with more pieces.
  ghost predicate PrefixFree(names: set<string>) {
    forall a, b :: a in names && b in names && Split(a, ':') <= Split(b, ':') ==> a == b
  }

  lemma {:induction false} PiecesPlain(parts: seq<string>)
    requires forall i :: 0 <= i < |parts| ==> Plain(parts[i])
    ensures Pieces(parts) == parts
    decreases |parts|
  {
    if parts != [] {
      SplitPlain(parts[0]);
      PiecesPlain(parts[1..]);
    }
  }

  lemma NumbersPlain()
    ensures forall n :: Plain(Itoa(n))
  {
    forall n ensures Plain(Itoa(n)) {
      ItoaPlain(n, ':');
    }
  }

  lemma ArgumentsPlain(q: Query, names: set<string>)
    requires WellFormed(q, names) && !q.Analytics? && !q.DetailedTest?
    ensures Pieces(Arguments(q)) == Arguments(q)
  {
    hide Itoa, Pieces;
    NumbersPlain();
    PiecesPlain(Arguments(q));
  }

  lemma DetailPieces(q: Query)
    requires q.DetailedTest? && Plain(q.domain)
    ensures Pieces(Arguments(q)) ==
      ["detail", Itoa(q.zone), Itoa(q.net), Itoa(q.node)] + Split(q.testTime, ':') + [q.domain]
  {
    hide Itoa, Split, Pieces;
    NumbersPlain();
    var head := ["detail", Itoa(q.zone), Itoa(q.net), Itoa(q.node)];
    assert Arguments(q) == head + [q.testTime, q.domain];
    PiecesAppend(head, [q.testTime, q.domain]);
    PiecesAppend([q.testTime], [q.domain]);
    PiecesPlain(head);
    PiecesPlain([q.domain]);
    OnePiece(q.testTime);
    assert [q.testTime] + [q.domain] == [q.testTime, q.domain];
  }

  lemma OnePiece(s: string)
    ensures Pieces([s]) == Split(s, ':')
  {
    assert Pieces([]) == [];
  }

  lemma {:induction false} PiecesAppend(a: seq<string>, b: seq<string>)
    ensures Pieces(a + b) == Pieces(a) + Pieces(b)
    decreases |a|
  {
    hide Split;
    if a == [] {
      assert a + b == b;
    } else {
      PiecesAppend(a[1..], b);
      assert (a + b)[1..] == a[1..] + b;
    }
  }

  /******* Reading a key back *******/

  // The number a text prints.
  ghost function Number(s: string): int {
    if n :| Itoa(n) == s then n else 0
  }

  lemma NumberOfItoa()
    ensures forall n :: Number(Itoa(n)) == n
  {
    forall n ensures Number(Itoa(n)) == n {
      ItoaInjective(Number(Itoa(n)), n);
    }
  }

  function AsOf(s: string): Option<string> {
    if s == "latest" then None else Some(s)
  }

  ghost function PointOf(s: string): Option<int> {
    if Number(s) == -1 then None else Some(Number(s))
  }

  ghost function ReadStats(a: seq<string>): Query {
    if |a| == 2 && a[0] == "latest" then LatestStatsDate(a[1])
    else if |a| == 2 then Stats(a[0], a[1])
    else if |a| == 3 && a[1] == "history" then NodeCountHistory(a[2])
    else if |a| == 3 then CountNodes(a[0], a[2])
    else Nodes("")
  }

  ghost function ReadSearch(a: seq<string>): Query {
    if |a| == 1 then Nodes(a[0])
    else if |a| == 2 && a[1] == "points" then Points(a[0])
    else if |a| == 2 then PointSummaries(a[0])
    else Nodes("")
  }

  ghost function ReadPoints(a: seq<string>): Query {
    if |a| == 6 && a[0] == "boss" then PointsByBoss(a[1], Number(a[2]), Number(a[3]), Number(a[4]), AsOf(a[5]))
    else if |a| == 6 then PointHistory(a[1], Number(a[2]), Number(a[3]), Number(a[4]), Number(a[5]))
    else if |a| == 5 && a[0] == "netcounts" then PointCounts(a[1], Number(a[2]), Number(a[3]), AsOf(a[4]))
    else if |a| == 5 then PointDomains(Number(a[1]), Number(a[2]), Number(a[3]), PointOf(a[4]))
    else if |a| == 3 && a[0] == "stats" then PointStats(a[1], AsOf(a[2]))
    else if |a| == 3 then PointlistDates(a[1], a[2])
    else if |a| == 2 && a[0] == "sources" then PointlistSources(a[1])
    else if |a| == 2 then LatestPointlistDate(a[1])
    else Nodes("")
  }

  ghost function ReadReachability(a: seq<string>): Query {
    if |a| == 3 then ReachabilityTrends(Number(a[1]), a[2])
    else if |a| == 5 then NodesByReachability(a[1] == "true", Number(a[2]), Number(a[3]), a[4])
    else if |a| == 6 && a[0] == "history" then
      NodeTestHistory(Number(a[1]), Number(a[2]), Number(a[3]), Number(a[4]), a[5])
    else if |a| == 7 && a[0] == "stats" then
      ReachabilityStats(Number(a[2]), Number(a[3]), Number(a[4]), Number(a[5]), a[6])
    else if |a| >= 6 then
      DetailedTest(Number(a[1]), Number(a[2]), Number(a[3]), Join(a[4..|a| - 1], ':'), a[|a| - 1])
    else Nodes("")
  }

  ghost function ReadOther(family: string, a: seq<string>): Query {
    if family == "dates" then
      (if |a| == 2 then AvailableDates(a[1]) else if |a| == 3 then NearestDate(a[1], a[2]) else Nodes(""))
    else if family == "node" && |a| == 3 then OneNode(Number(a[0]), Number(a[1]), Number(a[2]))
    else if family == "node" && |a| == 4 then NodeDomains(Number(a[1]), Number(a[2]), Number(a[3]))
    else if family == "history" && |a| == 4 then NodeHistory(Number(a[0]), Number(a[1]), Number(a[2]), a[3])
    else if family == "changes" && |a| == 4 then NodeChanges(Number(a[0]), Number(a[1]), Number(a[2]), a[3])
    else if family == "sysops" && |a| == 3 then UniqueSysops(a[0], Number(a[1]), Number(a[2]))
    else if family == "bysysop" && |a| == 2 then NodesBySysop(a[0], Number(a[1]))
    else Nodes("")
  }

  // The read with these pieces in its key, analytics excepted.
  ghost function ReadBack(family: string, pieces: seq<string>): Query {
    if family == "stats" then ReadStats(pieces)
    else if family == "search" then ReadSearch(pieces)
    else if family == "points" then ReadPoints(pieces)
    else if family == "reachability" then ReadReachability(pieces)
    else ReadOther(family, pieces)
  }

  lemma KeyReadsBack(q: Query, names: set<string>)
    requires WellFormed(q, names) && !q.Analytics?
    ensures ReadBack(Family(q), Pieces(Arguments(q))) == q
  {
    hide Itoa, Number, Pieces, Split;
    if q.DetailedTest? {
      DetailPieces(q);
      DetailReadsBack(q);
    } else {
      ArgumentsPlain(q, names);
      hide WellFormed, Arguments, ReadBack;
      if Family(q) == "points" {
        PointsReadBack(q, names);
      } else if Family(q) == "reachability" {
        ReachabilityReadsBack(q, names);
      } else if Family(q) == "stats" || Family(q) == "search" {
        SearchesReadBack(q, names);
      } else {
        OthersReadBack(q, names);
      }
    }
  }

  lemma PointsReadBack(q: Query, names: set<string>)
    requires WellFormed(q, names) && Family(q) == "points"
    ensures ReadBack(Family(q), Arguments(q)) == q
  {
    hide Itoa, Number, ReadReachability, ReadStats, ReadOther, ReadSearch;
    NumberOfItoa();
  }

  lemma ReachabilityReadsBack(q: Query, names: set<string>)
    requires WellFormed(q, names) && Family(q) == "reachability" && !q.DetailedTest?
    ensures ReadBack(Family(q), Arguments(q)) == q
  {
    hide Itoa, Number, ReadPoints, ReadStats, ReadOther, ReadSearch;
    NumberOfItoa();
  }

  lemma SearchesReadBack(q: Query, names: set<string>)
    requires WellFormed(q, names) && (Family(q) == "stats" || Family(q) == "search")
    ensures ReadBack(Family(q), Arguments(q)) == q
  {
    hide Itoa, Number, ReadPoints, ReadReachability, ReadOther;
  }

  lemma OthersReadBack(q: Query, names: set<string>)
    requires WellFormed(q, names) && !q.Analytics?
    requires Family(q) != "points" && Family(q) != "reachability" && Family(q) != "stats" && Family(q) != "search"
    ensures ReadBack(Family(q), Arguments(q)) == q
  {
    hide Itoa, Number, ReadPoints, ReadReachability, ReadStats, ReadSearch;
    NumberOfItoa();
  }

  lemma DetailReadsBack(q: Query)
    requires q.DetailedTest?
    ensures ReadReachability(["detail", Itoa(q.zone), Itoa(q.net), Itoa(q.node)] + Split(q.testTime, ':') + [q.domain])
            == q
  {
    hide Itoa, Number, Split;
    NumberOfItoa();
    JoinOfSplit(q.testTime, ':');
    var time := Split(q.testTime, ':');
    var a := ["detail", Itoa(q.zone), Itoa(q.net), Itoa(q.node)] + time + [q.domain];
    assert a[4..|a| - 1] == time;
    assert a[0] == "detail";
  }

  // Different well-formed reads have different keys.
  lemma KeysInjective(a: Query, b: Query, names: set<string>)
    requires WellFormed(a, names) && WellFormed(b, names) && PrefixFree(names)
    requires Key(a) == Key(b)
    ensures a == b
  {
    SameKeyIff(a, b);
    AnalyticsApart(a, b);
    hide Key, ReadBack, Arguments, Family, Pieces;
    if a.Analytics? {
      AnalyticsInjective(a, b, names);
    } else {
      KeyReadsBack(a, names);
      KeyReadsBack(b, names);
    }
  }

  lemma AnalyticsApart(a: Query, b: Query)
    requires Family(a) == Family(b)
    ensures a.Analytics? == b.Analytics?
  {
    AnalyticsFamily(a);
    AnalyticsFamily(b);
  }

  lemma AnalyticsFamily(q: Query)
    ensures q.Analytics? <==> Family(q) == "analytics"
  {}

  lemma AnalyticsInjective(a: Query, b: Query, names: set<string>)
    requires WellFormed(a, names) && WellFormed(b, names) && PrefixFree(names)
    requires a.Analytics? && b.Analytics? && Pieces(Arguments(a)) == Pieces(Arguments(b))
    ensures a == b
  {
    hide PartsFormed, Pieces, Arguments, PrefixFree;
    SameReport(a, b, names);
    SameParts(a.name, a.parts, b.parts);
  }

  lemma SameParts(name: string, x: seq<string>, y: seq<string>)
    requires PartsFormed(name, x) && PartsFormed(name, y) && Pieces(x) == Pieces(y)
    ensures x == y
  {
    hide FreeArgument, Pieces, Join;
    var free := FreeArgument(name);
    if free.Some? {
      FreeParts(x, free.value.at);
      FreeParts(y, free.value.at);
    } else {
      PiecesPlain(x);
      PiecesPlain(y);
    }
  }

  // Whatever the arguments are, the key tells the report and their pieces.
  lemma SameReport(a: Query, b: Query, names: set<string>)
    requires a.Analytics? && b.Analytics? && a.name in names && b.name in names && PrefixFree(names)
    requires Pieces(Arguments(a)) == Pieces(Arguments(b))
    ensures a.name == b.name && Pieces(a.parts) == Pieces(b.parts)
  {
    if |Split(a.name, ':')| <= |Split(b.name, ':')| {
      ShorterNameSame(a, b, names);
    } else {
      ShorterNameSame(b, a, names);
    }
  }

  lemma ShorterNameSame(a: Query, b: Query, names: set<string>)
    requires a.Analytics? && b.Analytics? && a.name in names && b.name in names && PrefixFree(names)
    requires Pieces(Arguments(a)) == Pieces(Arguments(b))
    requires |Split(a.name, ':')| <= |Split(b.name, ':')|
    ensures a.name == b.name && Pieces(a.parts) == Pieces(b.parts)
  {
    assert ([a.name] + a.parts)[1..] == a.parts && ([b.name] + b.parts)[1..] == b.parts;
    var m, n, x, y := Split(a.name, ':'), Split(b.name, ':'), Pieces(a.parts), Pieces(b.parts);
    assert m + x == n + y;
    hide Split, Pieces;
    assert m == (m + x)[..|m|] && n[..|m|] == (n + y)[..|m|];
    assert m <= n;
    assert x == (m + x)[|m|..] && y == (n + y)[|n|..];
  }

  // With one free argument at a known place, the arguments are in their pieces.
  lemma FreeParts(parts: seq<string>, at: nat)
    requires at < |parts| && PlainBut(parts, at)
    ensures var p, after := Pieces(parts), |parts| - 1 - at;
      |p| >= |parts| && parts == p[..at] + [Join(p[at..|p| - after], ':')] + p[|p| - after..]
  {
    hide Split, Join;
    var head, mid, tail := parts[..at], parts[at], parts[at + 1..];
    assert parts == head + ([mid] + tail);
    PiecesAppend(head, [mid] + tail);
    PiecesAppend([mid], tail);
    PiecesPlain(head);
    PiecesPlain(tail);
    OnePiece(mid);
    JoinOfSplit(mid, ':');
    var p := Pieces(parts);
    assert p == head + Split(mid, ':') + tail;
    assert p[at..|p| - |tail|] == Split(mid, ':') && p[..at] == head && p[|p| - |tail|..] == tail;
  }
}
