/** FidoNet addresses as text: the address pattern of boss lines and fakenet
    names, and the keys and identifiers printed from addresses. */
module Addresses {
  import opened Text
  import opened Duplicates

  datatype Addr = Addr(zone: int, net: int, node: int)

  // A text of the shape [zone:]net/node[.point], every number a run of digits.
  datatype AddressText = AddressText(zone: Option<string>, net: string, node: string, point: Option<string>)

  predicate Digits(s: string) {
    s != "" && AllDigits(s)
  }

  predicate AddressShaped(a: AddressText) {
    && Digits(a.net) && Digits(a.node)
    && (a.zone.Some? ==> Digits(a.zone.value))
    && (a.point.Some? ==> Digits(a.point.value))
  }

  function Render(a: AddressText): string {
    RenderZone(a.zone, a.net + "/" + RenderPoint(a.node, a.point))
  }

  function RenderZone(zone: Option<string>, rest: string): string {
    if zone.Some? then zone.value + ":" + rest else rest
  }

  function RenderPoint(node: string, point: Option<string>): string {
    if point.Some? then node + "." + point.value else node
  }

  // bossAddrPattern (and fakenetHostSignalRe, the same pattern), matched by hand
  function MatchAddress(s: string): (m: Option<AddressText>)
    ensures m.Some? ==> AddressShaped(m.value)
  {
    var (zone, rest) := CutZone(s);
    var slash := IndexOf(rest, '/');
    if slash == |rest| then None
    else
      var (node, point) := CutPoint(rest[slash + 1..]);
      var a := AddressText(zone, rest[..slash], node, point);
      if AddressShaped(a) then Some(a) else None
  }

  function CutZone(s: string): (r: (Option<string>, string))
    ensures RenderZone(r.0, r.1) == s
  {
    var colon := IndexOf(s, ':');
    if colon == |s| then (None, s) else (Some(s[..colon]), s[colon + 1..])
  }

  function CutPoint(s: string): (r: (string, Option<string>))
    ensures RenderPoint(r.0, r.1) == s
  {
    var dot := IndexOf(s, '.');
    if dot == |s| then (s, None) else (s[..dot], Some(s[dot + 1..]))
  }

  lemma IndexOfFirst(a: string, c: char, rest: string)
    requires c !in a
    ensures var s := a + [c] + rest;
      && IndexOf(s, c) == |a| && s[..|a|] == a && s[|a| + 1..] == rest
  {
    var s := a + [c] + rest;
    assert s[|a|] == c;
    assert forall j :: 0 <= j < |a| ==> s[j] == a[j];
  }

  // The matcher accepts exactly the texts of that shape, and reads their parts back.
  lemma MatchIsShape(s: string, a: AddressText)
    ensures MatchAddress(s) == Some(a) <==> AddressShaped(a) && s == Render(a)
  {
    hide MatchAddress, Render, AddressShaped;
    if MatchAddress(s) == Some(a) {
      MatchRenders(s, a);
    }
    if AddressShaped(a) && s == Render(a) {
      RenderedTextMatches(a);
    }
  }

  lemma MatchRenders(s: string, a: AddressText)
    requires MatchAddress(s) == Some(a)
    ensures AddressShaped(a) && s == Render(a)
  {
    hide IndexOf, Digits;
    var rest := CutZone(s).1;
    var slash := IndexOf(rest, '/');
    assert rest == rest[..slash] + "/" + rest[slash + 1..];
  }

  lemma RenderedTextMatches(a: AddressText)
    requires AddressShaped(a)
    ensures MatchAddress(Render(a)) == Some(a)
  {
    var tail := RenderPoint(a.node, a.point);
    var rest := a.net + ['/'] + tail;
    ZoneCutsOff(a.zone, a.net, a.node, a.point);
    IndexOfFirst(a.net, '/', tail);
    if a.point.Some? {
      IndexOfFirst(a.node, '.', a.point.value);
    }
    assert CutPoint(tail) == (a.node, a.point);
  }

  lemma ZoneCutsOff(zone: Option<string>, net: string, node: string, point: Option<string>)
    requires AddressShaped(AddressText(zone, net, node, point))
    ensures var rest := net + "/" + RenderPoint(node, point);
      CutZone(RenderZone(zone, rest)) == (zone, rest)
  {
    var rest := net + "/" + RenderPoint(node, point);
    if zone.Some? {
      IndexOfFirst(zone.value, ':', rest);
    } else {
      assert ':' !in RenderPoint(node, point);
      assert ':' !in rest;
    }
  }

  // parseBossAddress, and the parse step of resolveFakenetBoss: a missing zone
  // is the current one, an overflowing zone saturates, other overflows fail.
  function ParseAddress(s: string, defaultZone: int): Option<Addr> {
    var m := MatchAddress(s);
    if m.None? then None
    else
      var zone := if m.value.zone.Some? then AtoiSaturating(m.value.zone.value) else defaultZone;
      var net, node := Atoi(m.value.net), Atoi(m.value.node);
      if net.Some? && node.Some? then Some(Addr(zone, net.value, node.value)) else None
  }

  // parseLeaf4DSysname on the trimmed name: a full 4-D address
  function ParseLeafAddress(s: string, defaultZone: int): Option<(Addr, int)> {
    var m := MatchAddress(s);
    if m.None? || m.value.point.None? then None
    else
      var boss, point := ParseAddress(s, defaultZone), Atoi(m.value.point.value);
      if boss.Some? && point.Some? then Some((boss.value, point.value)) else None
  }

  // What an address text means: a zone of its own, at most the largest integer, or
  // else the current one; net and node must fit.
  lemma AddressMeans(a: AddressText, defaultZone: int)
    requires AddressShaped(a)
    ensures ParseAddress(Render(a), defaultZone) ==
      if Value(a.net) < 0x8000_0000_0000_0000 && Value(a.node) < 0x8000_0000_0000_0000 then
        var zone := if a.zone.None? then defaultZone
                    else if Value(a.zone.value) < 0x8000_0000_0000_0000 then Value(a.zone.value)
                    else 0x7FFF_FFFF_FFFF_FFFF;
        Some(Addr(zone, Value(a.net), Value(a.node)))
      else None
  {
    hide MatchAddress, Render;
    RenderedTextMatches(a);
    AtoiOfNumber(a.net);
    AtoiOfNumber(a.node);
  }

  // And of a leaf's own address: the same with a point that must fit too.
  lemma LeafAddressMeans(a: AddressText, defaultZone: int)
    requires AddressShaped(a)
    ensures ParseLeafAddress(Render(a), defaultZone).Some?
       <==> a.point.Some? && Value(a.point.value) < 0x8000_0000_0000_0000
            && ParseAddress(Render(a), defaultZone).Some?
    ensures var leaf := ParseLeafAddress(Render(a), defaultZone);
      leaf.Some? ==> Some(leaf.value.0) == ParseAddress(Render(a), defaultZone)
                     && leaf.value.1 == Value(a.point.value)
  {
    hide MatchAddress, Render, ParseAddress;
    RenderedTextMatches(a);
    if a.point.Some? {
      AtoiOfNumber(a.point.value);
    }
  }

  lemma AtoiOfNumber(s: string)
    requires Digits(s)
    ensures Atoi(s) == if Value(s) < 0x8000_0000_0000_0000 then Some(Value(s) as int) else None
  {
    assert IsDigit(s[0]);
    AtoiOfDigits(s, false);
  }

  /******* Printed addresses *******/

  predicate Printable(a: Addr) {
    0 <= a.zone <= MAX_INT64 && 0 <= a.net <= MAX_INT64 && 0 <= a.node <= MAX_INT64
  }

  function AddrText(a: Addr): string {
    Itoa(a.zone) + ":" + (Itoa(a.net) + "/" + Itoa(a.node))
  }

  lemma ParseOfAddrText(a: Addr, defaultZone: int)
    requires Printable(a)
    ensures ParseAddress(AddrText(a), defaultZone) == Some(a)
  {
    hide MatchAddress;
    var t := AddressText(Some(Itoa(a.zone)), Itoa(a.net), Itoa(a.node), None);
    assert AddrText(a) == Render(t);
    RenderedTextMatches(t);
    AtoiOfItoa(a.net);
    AtoiOfItoa(a.node);
    ValueOfNatText(a.zone);
  }

  // A printed 4-D address reads as a leaf's own address.
  lemma LeafOfPointKey(a: Addr, point: int, defaultZone: int)
    requires Printable(a) && 0 <= point <= MAX_INT64
    ensures ParseLeafAddress(PointKey(a, point), defaultZone) == Some((a, point))
  {
    hide MatchAddress;
    var t := AddressText(Some(Itoa(a.zone)), Itoa(a.net), Itoa(a.node), Some(Itoa(point)));
    assert PointKey(a, point) == Render(t);
    RenderedTextMatches(t);
    AtoiOfItoa(a.net);
    AtoiOfItoa(a.node);
    AtoiOfItoa(point);
    ValueOfNatText(a.zone);
  }

  // The key of trackDuplicates: "z:n/n"
  function NodeKey(a: Addr): string {
    AddrText(a)
  }

  // The key of trackPointDuplicates: "z:n/n.p"
  function PointKey(a: Addr, point: int): string {
    AddrText(a) + "." + Itoa(point)
  }

  // The part before a separator that occurs in neither head is determined by the whole.
  lemma CutDetermined(a: string, b: string, c: char, x: string, y: string)
    requires c !in a && c !in b
    requires a + [c] + x == b + [c] + y
    ensures a == b && x == y
  {
    IndexOfFirst(a, c, x);
    IndexOfFirst(b, c, y);
  }

  lemma AddrTextInjective(a: Addr, b: Addr)
    requires AddrText(a) == AddrText(b)
    ensures a == b
  {
    forall n: int ensures ':' !in Itoa(n) && '/' !in Itoa(n) {
      ItoaPlain(n, ':');
      ItoaPlain(n, '/');
    }
    var ra, rb := Itoa(a.net) + ['/'] + Itoa(a.node), Itoa(b.net) + ['/'] + Itoa(b.node);
    assert AddrText(a) == Itoa(a.zone) + [':'] + ra && AddrText(b) == Itoa(b.zone) + [':'] + rb;
    CutDetermined(Itoa(a.zone), Itoa(b.zone), ':', ra, rb);
    CutDetermined(Itoa(a.net), Itoa(b.net), '/', Itoa(a.node), Itoa(b.node));
    ItoaInjective(a.zone, b.zone);
    ItoaInjective(a.net, b.net);
    ItoaInjective(a.node, b.node);
  }

  lemma AddrTextPlain(a: Addr, c: char)
    requires !IsDigit(c) && c !in "-:/"
    ensures c !in AddrText(a)
  {
    ItoaPlain(a.zone, c);
    ItoaPlain(a.net, c);
    ItoaPlain(a.node, c);
  }

  // Two rows get the same tracker key exactly when they have the same 4-D address.
  lemma PointKeyInjective(a: Addr, p: int, b: Addr, q: int)
    requires PointKey(a, p) == PointKey(b, q)
    ensures a == b && p == q
  {
    AddrTextPlain(a, '.');
    AddrTextPlain(b, '.');
    CutDetermined(AddrText(a), AddrText(b), '.', Itoa(p), Itoa(q));
    AddrTextInjective(a, b);
    ItoaInjective(p, q);
  }

  /******* FTS identifiers *******/

  const DEFAULT_DOMAIN := "fidonet"
  const NODELIST_SOURCE := "nodelist"

  function Normalized(domain: string): string {
    if domain == "" then DEFAULT_DOMAIN else domain
  }

  // Node.ComputeFtsId and Point.ComputeFtsId, from the address key
  function FtsId(key: string, date: string, sequence: nat, domain: string): string {
    key + "@" + (date + "#" + (Itoa(sequence) + DomainSuffix(domain)))
  }

  function DomainSuffix(domain: string): string {
    if domain != "" && domain != DEFAULT_DOMAIN then "@" + domain else ""
  }

  lemma FtsIdDetermines(k: string, m: nat, l: string, n: nat, date: string, domain: string)
    requires '@' !in k && '@' !in l
    requires FtsId(k, date, m, domain) == FtsId(l, date, n, domain)
    ensures k == l && m == n
  {
    var d, suffix := date + "#", DomainSuffix(domain);
    var x, y := d + (Itoa(m) + suffix), d + (Itoa(n) + suffix);
    assert FtsId(k, date, m, domain) == k + ['@'] + x;
    assert FtsId(l, date, n, domain) == l + ['@'] + y;
    CutDetermined(k, l, '@', x, y);
    MiddleDetermined(d, Itoa(m), Itoa(n), suffix);
    ItoaInjective(m, n);
  }

  lemma MiddleDetermined(d: string, a: string, b: string, e: string)
    requires d + (a + e) == d + (b + e)
    ensures a == b
  {
    assert a + e == (d + (a + e))[|d|..] && b + e == (d + (b + e))[|d|..];
    assert a == (a + e)[..|a|] && b == (b + e)[..|b|];
  }

  // Within one file, whose rows share date and domain, no two rows get the same identifier.
  lemma IdentifiersDistinct<T>(items: seq<T>, keys: seq<string>, date: string, domain: string, i: nat, j: nat)
    requires i < j < |items| == |keys|
    requires '@' !in keys[i] && '@' !in keys[j]
    ensures var rows := Numbered(items, keys);
      FtsId(rows[i].key, date, rows[i].conflictSequence, domain)
      != FtsId(rows[j].key, date, rows[j].conflictSequence, domain)
  {
    var rows := Numbered(items, keys);
    if FtsId(rows[i].key, date, rows[i].conflictSequence, domain)
       == FtsId(rows[j].key, date, rows[j].conflictSequence, domain) {
      FtsIdDetermines(rows[i].key, rows[i].conflictSequence, rows[j].key, rows[j].conflictSequence, date, domain);
      NumberingIdentifies(items, keys, i, j);
    }
  }

  // Across files and networks: equal identifiers mean the same address key, date,
  // conflict sequence and network.
  lemma IdentifiersAcrossNetworks(k: string, date: string, m: nat, domain: string,
                                  l: string, date': string, n: nat, domain': string)
    requires '@' !in k && '@' !in l && '#' !in date && '#' !in date'
    requires FtsId(k, date, m, domain) == FtsId(l, date', n, domain')
    ensures k == l && date == date' && m == n && Normalized(domain) == Normalized(domain')
  {
    hide FtsId, Itoa, DomainSuffix, Normalized;
    FtsIdParts(k, date, m, domain);
    FtsIdParts(l, date', n, domain');
    var s, t := Itoa(m) + DomainSuffix(domain), Itoa(n) + DomainSuffix(domain');
    CutDetermined(k, l, '@', date + ['#'] + s, date' + ['#'] + t);
    CutDetermined(date, date', '#', s, t);
    SuffixDetermined(m, domain, n, domain');
  }

  lemma FtsIdParts(k: string, date: string, m: nat, domain: string)
    ensures FtsId(k, date, m, domain) == k + ['@'] + (date + ['#'] + (Itoa(m) + DomainSuffix(domain)))
  {
    hide Itoa, DomainSuffix;
  }

  lemma SuffixDetermined(m: nat, domain: string, n: nat, domain': string)
    requires Itoa(m) + DomainSuffix(domain) == Itoa(n) + DomainSuffix(domain')
    ensures m == n && Normalized(domain) == Normalized(domain')
  {
    ItoaPlain(m, '@');
    ItoaPlain(n, '@');
    hide Itoa;
    var a, b := DomainSuffix(domain), DomainSuffix(domain');
    assert a != "" ==> '@' in Itoa(m) + a;
    assert b != "" ==> '@' in Itoa(n) + b;
    if a == "" || b == "" {
      assert Itoa(m) + "" == Itoa(m) && Itoa(n) + "" == Itoa(n);
    } else {
      assert Itoa(m) + a == Itoa(m) + ['@'] + domain && Itoa(n) + b == Itoa(n) + ['@'] + domain';
      CutDetermined(Itoa(m), Itoa(n), '@', domain, domain');
    }
    ItoaInjective(m, n);
  }
}
