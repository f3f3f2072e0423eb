/** Email capabilities of a node (FTS-5001 revision 4, section "Email Flags";
    internal/emailflags/emailflags.go:80-112, 180-365).
    Letter case is ASCII only. The protocols of the internet configuration are a
    map in the program; here they come in the order the map is walked. */
module EmailFlags {
  import opened Text

  const ORDER := ["IEM", "IMI", "ITX", "ISE", "IUC", "EMA", "EVY"]

  function UpperChar(c: char): char {
    if 'a' <= c <= 'z' then c - ('a' - 'A') else c
  }

  function Upper(s: string): string {
    seq(|s|, i requires 0 <= i < |s| => UpperChar(s[i]))
  }

  /******* What a text says *******/

  // The flag and its value, split at the first colon.
  function SplitFlag(raw: string): (string, string) {
    var s := Trim(raw);
    var i := IndexOf(s, ':');
    (Upper(Trim(s[..i])), if i < |s| then Trim(s[i + 1..]) else "")
  }

  predicate DomainChar(c: char) {
    'a' <= c <= 'z' || 'A' <= c <= 'Z' || '0' <= c <= '9' || c == '.' || c == '-'
  }

  function LastIndexOf(s: string, c: char): (i: int)
    ensures -1 <= i < |s|
  {
    if s == "" then -1 else if s[|s| - 1] == c then |s| - 1 else LastIndexOf(s[..|s| - 1], c)
  }

  predicate LooksLikeEmail(s: string) {
    var at := LastIndexOf(s, '@');
    && ' ' !in s && '\t' !in s && ',' !in s
    && 0 < at < |s| - 1
    && var domain := s[at + 1..];
       && '.' in domain && domain[0] != '.' && domain[|domain| - 1] != '.'
       && forall i :: 0 <= i < |domain| ==> DomainChar(domain[i])
  }

  predicate Bracket(c: char) {
    c in "()<>[]\"';"
  }

  function Stripped(s: string): string {
    if s != "" && Bracket(s[0]) then Stripped(s[1..])
    else if s != "" && Bracket(s[|s| - 1]) then Stripped(s[..|s| - 1])
    else s
  }

  // The first token of a free-text field that looks like an address, or "".
  function FieldAddress(field: string): string {
    FirstAddress(field, "")
  }

  function FirstAddress(rest: string, token: string): string {
    if rest == "" || rest[0] == '_' || rest[0] == ' ' || rest[0] == '\t' then
      if token != "" && LooksLikeEmail(Stripped(token)) then Stripped(token)
      else if rest == "" then "" else FirstAddress(rest[1..], "")
    else FirstAddress(rest[1..], token + [rest[0]])
  }

  /******* What the flags advertise *******/

  // One mention of a known flag, with its value if any.
  datatype Mention = Mention(flag: string, value: string)

  datatype Protocol = Protocol(flag: string, emails: seq<string>)

  datatype Config = Config(protocols: seq<Protocol>, iemDefaults: seq<string>)

  datatype Options = Options(location: string, systemName: string, useFieldFallback: bool)

  datatype Source =
    | Unresolved | Explicit | IEMDefault | OtherEmailFlag | LocationField | SystemName

  datatype Capability = Capability(flag: string, addresses: seq<string>, source: Source,
                                   occurrences: nat, malformed: seq<string>)

  function FlatMap<A, B>(f: A -> seq<B>, s: seq<A>): seq<B> {
    if s == [] then [] else FlatMap(f, s[..|s| - 1]) + f(s[|s| - 1])
  }

  function OfRaw(raw: string): seq<Mention> {
    var (flag, value) := SplitFlag(raw);
    if flag in ORDER then [Mention(flag, value)] else []
  }

  function OfEmail(flag: string): string -> seq<Mention> {
    (email: string) => [Mention(flag, Trim(email))]
  }

  function OfProtocol(p: Protocol): seq<Mention> {
    var flag := Upper(Trim(p.flag));
    if flag in ORDER then FlatMap(OfEmail(flag), p.emails) else []
  }

  // Every mention, in the order met.
  function Mentions(flags: seq<string>, ic: Option<Config>): seq<Mention> {
    FlatMap(OfRaw, flags) +
    if ic.None? then []
    else FlatMap(OfProtocol, ic.value.protocols) + FlatMap(OfEmail("IEM"), ic.value.iemDefaults)
  }

  function CountOf(flag: string): Mention -> seq<Mention> {
    (m: Mention) => if m.flag == flag then [m] else []
  }

  function ValueOf(flag: string): Mention -> seq<string> {
    (m: Mention) => if m.flag == flag && m.value != "" then [m.value] else []
  }

  function Occurrences(ms: seq<Mention>, flag: string): nat {
    |FlatMap(CountOf(flag), ms)|
  }

  function Values(ms: seq<Mention>, flag: string): seq<string> {
    FlatMap(ValueOf(flag), ms)
  }

  // appendUnique
  function Added(list: seq<string>, value: string): seq<string> {
    if exists i :: 0 <= i < |list| && EqualFold(list[i], value) then list else list + [value]
  }

  function AddAll(list: seq<string>, values: seq<string>): seq<string> {
    if values == [] then list else Added(AddAll(list, values[..|values| - 1]), values[|values| - 1])
  }

  function Usable(values: seq<string>, good: bool): seq<string> {
    if values == [] then []
    else Usable(values[..|values| - 1], good) +
         if LooksLikeEmail(values[|values| - 1]) == good then [values[|values| - 1]] else []
  }

  function Addresses(ms: seq<Mention>, flag: string): seq<string> {
    AddAll([], Usable(Values(ms, flag), true))
  }

  function Malformed(ms: seq<Mention>, flag: string): seq<string> {
    AddAll([], Usable(Values(ms, flag), false))
  }

  // The addresses of all flags in the fixed order.
  function AnyAddress(ms: seq<Mention>, n: nat): seq<string>
    requires n <= |ORDER|
  {
    if n == 0 then [] else AddAll(AnyAddress(ms, n - 1), Addresses(ms, ORDER[n - 1]))
  }

  function Resolve(flag: string, own: seq<string>, iem: seq<string>, any: seq<string>, opts: Options)
    : (seq<string>, Source)
  {
    if own != [] then (own, Explicit)
    else if flag != "IEM" && iem != [] then (iem, IEMDefault)
    else if any != [] then (any, OtherEmailFlag)
    else if opts.useFieldFallback && FieldAddress(opts.location) != "" then
      ([FieldAddress(opts.location)], LocationField)
    else if opts.useFieldFallback && FieldAddress(opts.systemName) != "" then
      ([FieldAddress(opts.systemName)], SystemName)
    else ([], Unresolved)
  }

  function CapabilityOf(ms: seq<Mention>, flag: string, opts: Options): Capability {
    var (addresses, source) :=
      Resolve(flag, Addresses(ms, flag), Addresses(ms, "IEM"), AnyAddress(ms, |ORDER|), opts);
    Capability(flag, addresses, source, Occurrences(ms, flag), Malformed(ms, flag))
  }

  function IfMentioned(ms: seq<Mention>, flag: string, opts: Options): seq<Capability> {
    if Occurrences(ms, flag) > 0 then [CapabilityOf(ms, flag, opts)] else []
  }

  // The capabilities of the flags mentioned, in the fixed order.
  function Capabilities(ms: seq<Mention>, opts: Options, n: nat): seq<Capability>
    requires n <= |ORDER|
  {
    if n == 0 then []
    else Capabilities(ms, opts, n - 1) + IfMentioned(ms, ORDER[n - 1], opts)
  }

  /******* The extraction as it runs *******/

  // The counts and values collected so far are those of the mentions so far.
  ghost predicate Tallied(counts: map<string, nat>, values: map<string, seq<string>>, ms: seq<Mention>) {
    && (forall f :: f in counts <==> Occurrences(ms, f) > 0)
    && (forall f :: f in counts ==> counts[f] == Occurrences(ms, f))
    && (forall f :: f in values <==> Values(ms, f) != [])
    && (forall f :: f in values ==> values[f] == Values(ms, f))
  }

  method AppendUnique(list: seq<string>, value: string) returns (r: seq<string>)
    ensures r == Added(list, value)
  {
    for i := 0 to |list|
      invariant forall j :: 0 <= j < i ==> !EqualFold(list[j], value)
    {
      if EqualFold(list[i], value) {
        return list;
      }
    }
    return list + [value];
  }

  lemma FlatMapNext<A, B>(f: A -> seq<B>, s: seq<A>, x: A)
    ensures FlatMap(f, s + [x]) == FlatMap(f, s) + f(x)
  {
    assert (s + [x])[..|s|] == s;
  }

  lemma MentionCounts(ms: seq<Mention>, m: Mention, flag: string)
    ensures Occurrences(ms + [m], flag) == Occurrences(ms, flag) + if m.flag == flag then 1 else 0
    ensures Values(ms + [m], flag) == Values(ms, flag) + if m.flag == flag && m.value != "" then [m.value] else []
  {
    FlatMapNext(CountOf(flag), ms, m);
    FlatMapNext(ValueOf(flag), ms, m);
  }

  // note
  method Note(counts: map<string, nat>, values: map<string, seq<string>>, flag: string, value: string,
              ghost ms: seq<Mention>)
    returns (c: map<string, nat>, v: map<string, seq<string>>)
    requires Tallied(counts, values, ms)
    ensures Tallied(c, v, ms + [Mention(flag, value)])
  {
    hide Occurrences, Values;
    c := counts[flag := (if flag in counts then counts[flag] else 0) + 1];
    v := values;
    if value != "" {
      v := values[flag := (if flag in values then values[flag] else []) + [value]];
    }
    forall f
      ensures Occurrences(ms + [Mention(flag, value)], f) == Occurrences(ms, f) + if flag == f then 1 else 0
      ensures Values(ms + [Mention(flag, value)], f) == Values(ms, f) + if flag == f && value != "" then [value] else []
    {
      MentionCounts(ms, Mention(flag, value), f);
    }
  }

  method Collect(flags: seq<string>, ic: Option<Config>)
    returns (counts: map<string, nat>, values: map<string, seq<string>>)
    ensures Tallied(counts, values, Mentions(flags, ic))
  {
    hide Tallied, FlatMap, SplitFlag, Upper, Trim;
    counts, values := map[], map[];
    ghost var ms: seq<Mention> := [];
    NothingTallied();
    for i := 0 to |flags|
      invariant Tallied(counts, values, ms) && ms == FlatMap(OfRaw, flags[..i])
    {
      FlatMapNext(OfRaw, flags[..i], flags[i]);
      assert flags[..i + 1] == flags[..i] + [flags[i]];
      var (flag, value) := SplitFlag(flags[i]);
      if flag in ORDER {
        counts, values := Note(counts, values, flag, value, ms);
        ms := ms + [Mention(flag, value)];
      } else {
        assert ms + [] == ms;
      }
    }
    assert flags[..|flags|] == flags;
    if ic.Some? {
      ghost var fromFlags := ms;
      NothingMapped(OfProtocol);
      assert fromFlags + [] == ms;
      for i := 0 to |ic.value.protocols|
        invariant Tallied(counts, values, ms) && ms == fromFlags + FlatMap(OfProtocol, ic.value.protocols[..i])
      {
        var p := ic.value.protocols[i];
        FlatMapNext(OfProtocol, ic.value.protocols[..i], p);
        assert ic.value.protocols[..i + 1] == ic.value.protocols[..i] + [p];
        var flag := Upper(Trim(p.flag));
        if flag in ORDER {
          counts, values, ms := NoteAll(counts, values, flag, p.emails, ms);
        }
        assert ms == fromFlags + (FlatMap(OfProtocol, ic.value.protocols[..i]) + OfProtocol(p));
      }
      assert ic.value.protocols[..|ic.value.protocols|] == ic.value.protocols;
      counts, values, ms := NoteAll(counts, values, "IEM", ic.value.iemDefaults, ms);
    }
    assert ms == Mentions(flags, ic);
  }

  lemma NothingTallied()
    ensures Tallied(map[], map[], []) && FlatMap(OfRaw, []) == []
  {}

  lemma NothingMapped<A, B>(f: A -> seq<B>)
    ensures FlatMap(f, []) == []
  {}

  method NoteAll(counts: map<string, nat>, values: map<string, seq<string>>, flag: string, emails: seq<string>,
                 ghost ms: seq<Mention>)
    returns (c: map<string, nat>, v: map<string, seq<string>>, ghost after: seq<Mention>)
    requires Tallied(counts, values, ms)
    ensures after == ms + FlatMap(OfEmail(flag), emails) && Tallied(c, v, after)
  {
    hide Tallied, FlatMap, Trim;
    c, v, after := counts, values, ms;
    NothingMapped(OfEmail(flag));
    assert ms + [] == ms;
    for i := 0 to |emails|
      invariant after == ms + FlatMap(OfEmail(flag), emails[..i]) && Tallied(c, v, after)
    {
      FlatMapNext(OfEmail(flag), emails[..i], emails[i]);
      assert emails[..i + 1] == emails[..i] + [emails[i]];
      c, v := Note(c, v, flag, Trim(emails[i]), after);
      after := after + [Mention(flag, Trim(emails[i]))];
      assert after == ms + (FlatMap(OfEmail(flag), emails[..i]) + [Mention(flag, Trim(emails[i]))]);
    }
    assert emails[..|emails|] == emails;
  }

  // The usable and the malformed values of one flag, each once.
  method Partition(values: seq<string>) returns (good: seq<string>, bad: seq<string>)
    ensures good == AddAll([], Usable(values, true)) && bad == AddAll([], Usable(values, false))
  {
    hide LooksLikeEmail, Added;
    good, bad := [], [];
    for i := 0 to |values|
      invariant good == AddAll([], Usable(values[..i], true)) && bad == AddAll([], Usable(values[..i], false))
    {
      var v := values[i];
      assert values[..i + 1][..i] == values[..i];
      AddNext([], Usable(values[..i], true), v);
      AddNext([], Usable(values[..i], false), v);
      if LooksLikeEmail(v) {
        good := AppendUnique(good, v);
        assert Usable(values[..i], false) + [] == Usable(values[..i], false);
      } else {
        bad := AppendUnique(bad, v);
        assert Usable(values[..i], true) + [] == Usable(values[..i], true);
      }
    }
    assert values[..|values|] == values;
  }

  lemma AddNext(list: seq<string>, values: seq<string>, v: string)
    ensures AddAll(list, values + [v]) == Added(AddAll(list, values), v)
  {
    assert (values + [v])[..|values|] == values;
  }

  // A Go map without an entry reads as an empty slice.
  function Entry(m: map<string, seq<string>>, flag: string): seq<string> {
    if flag in m then m[flag] else []
  }

  method PartitionAll(values: map<string, seq<string>>, ghost ms: seq<Mention>)
    returns (addresses: map<string, seq<string>>, malformed: map<string, seq<string>>)
    requires forall f :: Entry(values, f) == Values(ms, f)
    ensures forall f :: Entry(addresses, f) == Addresses(ms, f) && Entry(malformed, f) == Malformed(ms, f)
  {
    hide AddAll, Usable, Values;
    addresses, malformed := map[], map[];
    var todo := values.Keys;
    while todo != {}
      invariant todo <= values.Keys
      invariant addresses.Keys == malformed.Keys == values.Keys - todo
      invariant forall f :: f in addresses ==> addresses[f] == Addresses(ms, f) && malformed[f] == Malformed(ms, f)
      decreases |todo|
    {
      var flag :| flag in todo;
      assert Entry(values, flag) == Values(ms, flag);
      var good, bad := Partition(values[flag]);
      addresses, malformed := addresses[flag := good], malformed[flag := bad];
      todo := todo - {flag};
    }
    NoValuesNoAddresses(ms);
  }

  method Extract(flags: seq<string>, ic: Option<Config>, opts: Options) returns (result: seq<Capability>)
    ensures result == Capabilities(Mentions(flags, ic), opts, |ORDER|)
  {
    hide Mentions, AddAll, Occurrences, Values, Addresses, Malformed, Resolve;
    var counts, values := Collect(flags, ic);
    ghost var ms := Mentions(flags, ic);
    var addresses, malformed := PartitionAll(values, ms);
    var iem, any := Entry(addresses, "IEM"), [];
    for i := 0 to |ORDER|
      invariant any == AnyAddress(ms, i)
    {
      any := AppendAll(any, Entry(addresses, ORDER[i]));
    }
    hide AnyAddress, Entry;
    result := [];
    for i := 0 to |ORDER|
      invariant result == Capabilities(ms, opts, i)
    {
      var flag := ORDER[i];
      if flag in counts {
        var (resolved, source) := Resolve(flag, Entry(addresses, flag), iem, any, opts);
        result := result + [Capability(flag, resolved, source, counts[flag], Entry(malformed, flag))];
      } else {
        assert result + [] == result;
      }
    }
  }

  lemma NoValuesNoAddresses(ms: seq<Mention>)
    ensures forall f :: Values(ms, f) == [] ==> Addresses(ms, f) == [] && Malformed(ms, f) == []
  {}

  method AppendAll(list: seq<string>, values: seq<string>) returns (r: seq<string>)
    ensures r == AddAll(list, values)
  {
    r := list;
    for i := 0 to |values|
      invariant r == AddAll(list, values[..i])
    {
      assert values[..i + 1] == values[..i] + [values[i]];
      AddNext(list, values[..i], values[i]);
      r := AppendUnique(r, values[i]);
    }
    assert values[..|values|] == values;
  }

  /******* All or none *******/

  lemma {:induction false} AddAllGrows(list: seq<string>, values: seq<string>)
    ensures AddAll(list, values) == [] ==> list == [] && values == []
    decreases |values|
  {
    if values != [] {
      AddAllGrows(list, values[..|values| - 1]);
    }
  }

  lemma {:induction false} AnyHasEach(ms: seq<Mention>, n: nat, i: nat)
    requires i < n <= |ORDER| && AnyAddress(ms, n) == []
    ensures Addresses(ms, ORDER[i]) == []
  {
    var before, last := AnyAddress(ms, n - 1), Addresses(ms, ORDER[n - 1]);
    assert AddAll(before, last) == [];
    hide Addresses, AddAll, AnyAddress;
    AddAllGrows(before, last);
    if i < n - 1 {
      AnyHasEach(ms, n - 1, i);
    }
  }

  ghost predicate IsCapability(ms: seq<Mention>, opts: Options, c: Capability) {
    exists i :: 0 <= i < |ORDER| && c == CapabilityOf(ms, ORDER[i], opts)
  }

  lemma MentionedIs(ms: seq<Mention>, opts: Options, i: nat)
    requires i < |ORDER|
    ensures forall k :: 0 <= k < |IfMentioned(ms, ORDER[i], opts)| ==>
      IsCapability(ms, opts, IfMentioned(ms, ORDER[i], opts)[k])
  {
    hide CapabilityOf, Occurrences;
  }

  lemma {:induction false} CapabilitiesAre(ms: seq<Mention>, opts: Options, n: nat)
    requires n <= |ORDER|
    ensures forall k :: 0 <= k < |Capabilities(ms, opts, n)| ==> IsCapability(ms, opts, Capabilities(ms, opts, n)[k])
    decreases n
  {
    if n > 0 {
      hide IfMentioned, IsCapability;
      CapabilitiesAre(ms, opts, n - 1);
      MentionedIs(ms, opts, n - 1);
    }
  }

  // There is an address to resolve with: under some flag, or in a field that may be used.
  predicate Reachable(ms: seq<Mention>, opts: Options) {
    || AnyAddress(ms, |ORDER|) != []
    || (opts.useFieldFallback && (FieldAddress(opts.location) != "" || FieldAddress(opts.systemName) != ""))
  }

  // The capabilities of a node resolve all or none: each has an address exactly
  // when some email flag of the node has one, or a field does.
  lemma AllOrNone(ms: seq<Mention>, opts: Options)
    ensures forall k :: 0 <= k < |Capabilities(ms, opts, |ORDER|)| ==>
      (Capabilities(ms, opts, |ORDER|)[k].addresses != [] <==> Reachable(ms, opts))
  {
    CapabilitiesAre(ms, opts, |ORDER|);
    hide Capabilities, Occurrences, Malformed, FieldAddress, Reachable;
    forall k | 0 <= k < |Capabilities(ms, opts, |ORDER|)|
      ensures Capabilities(ms, opts, |ORDER|)[k].addresses != [] <==> Reachable(ms, opts)
    {
      var c := Capabilities(ms, opts, |ORDER|)[k];
      assert IsCapability(ms, opts, c);
      var i :| 0 <= i < |ORDER| && c == CapabilityOf(ms, ORDER[i], opts);
      ResolvedIff(ms, opts, i);
    }
  }

  lemma ResolvedIff(ms: seq<Mention>, opts: Options, i: nat)
    requires i < |ORDER|
    ensures CapabilityOf(ms, ORDER[i], opts).addresses != [] <==> Reachable(ms, opts)
  {
    hide Occurrences, Malformed, FieldAddress, AnyAddress, Addresses;
    if AnyAddress(ms, |ORDER|) == [] {
      AnyHasEach(ms, |ORDER|, i);
      AnyHasEach(ms, |ORDER|, 0);
      assert ORDER[0] == "IEM";
    }
  }

  lemma {:induction false} AnyNeedsOne(ms: seq<Mention>, n: nat)
    requires n <= |ORDER| && AnyAddress(ms, n) != []
    ensures exists i :: 0 <= i < n && Addresses(ms, ORDER[i]) != []
  {
    var before, last := AnyAddress(ms, n - 1), Addresses(ms, ORDER[n - 1]);
    assert AnyAddress(ms, n) == AddAll(before, last) && AddAll([], []) == [];
    hide AnyAddress, Addresses, AddAll;
    if before != [] {
      AnyNeedsOne(ms, n - 1);
    } else {
      assert last != [];
    }
  }

  // A flag uses its own addresses if it has any, else those of IEM, else those of
  // any other email flag; the fields come last.
  lemma SourceMeans(ms: seq<Mention>, opts: Options, i: nat)
    requires i < |ORDER|
    ensures var c, own := CapabilityOf(ms, ORDER[i], opts), Addresses(ms, ORDER[i]);
      var iem := Addresses(ms, "IEM");
      && (c.source.Explicit? <==> own != [])
      && (c.source.IEMDefault? <==> own == [] && iem != [])
      && (c.source.OtherEmailFlag? <==>
           own == [] && iem == [] && exists j :: 0 <= j < |ORDER| && Addresses(ms, ORDER[j]) != [])
      && (c.source.Explicit? ==> c.addresses == own) && (c.source.IEMDefault? ==> c.addresses == iem)
  {
    hide Occurrences, Malformed, FieldAddress, AnyAddress, Addresses;
    assert ORDER[0] == "IEM";
    if AnyAddress(ms, |ORDER|) == [] {
      forall j: nat | j < |ORDER| ensures Addresses(ms, ORDER[j]) == [] {
        AnyHasEach(ms, |ORDER|, j);
      }
    } else {
      AnyNeedsOne(ms, |ORDER|);
    }
  }

  /******* The order does not matter *******/

  lemma {:induction false} FlatMapAppend<A, B>(f: A -> seq<B>, a: seq<A>, b: seq<A>)
    ensures FlatMap(f, a + b) == FlatMap(f, a) + FlatMap(f, b)
    decreases |b|
  {
    if b == [] {
      assert a + b == a;
    } else {
      var n := |b| - 1;
      FlatMapAppend(f, a, b[..n]);
      assert a + b == (a + b[..n]) + [b[n]] && b == b[..n] + [b[n]];
      FlatMapNext(f, a + b[..n], b[n]);
      FlatMapNext(f, b[..n], b[n]);
    }
  }

  lemma {:induction false} FlatMapPermuted<A, B>(f: A -> seq<B>, a: seq<A>, b: seq<A>)
    requires multiset(a) == multiset(b)
    ensures multiset(FlatMap(f, a)) == multiset(FlatMap(f, b))
    decreases |a|
  {
    if a == [] {
      assert |multiset(b)| == 0;
    } else {
      hide FlatMap;
      var n, x := |a| - 1, a[|a| - 1];
      assert a == a[..n] + [x];
      assert x in multiset(b);
      var i :| 0 <= i < |b| && b[i] == x;
      var rest := b[..i] + b[i + 1..];
      assert b == b[..i] + [x] + b[i + 1..];
      assert multiset(a) == multiset(a[..n]) + multiset{x};
      assert multiset(b) == multiset(rest) + multiset{x};
      assert multiset(a[..n]) == multiset(a) - multiset{x} == multiset(b) - multiset{x} == multiset(rest);
      FlatMapPermuted(f, a[..n], rest);
      FlatMapNext(f, a[..n], x);
      FlatMapNext(f, b[..i], x);
      FlatMapAppend(f, b[..i] + [x], b[i + 1..]);
      FlatMapAppend(f, b[..i], b[i + 1..]);
    }
  }

  lemma MentionsPermuted(flags: seq<string>, ic: Config, flags': seq<string>, ic': Config)
    requires multiset(flags) == multiset(flags')
    requires multiset(ic.protocols) == multiset(ic'.protocols) && multiset(ic.iemDefaults) == multiset(ic'.iemDefaults)
    ensures multiset(Mentions(flags, Some(ic))) == multiset(Mentions(flags', Some(ic')))
    ensures multiset(Mentions(flags, None)) == multiset(Mentions(flags', None))
  {
    FlatMapPermuted(OfRaw, flags, flags');
    FlatMapPermuted(OfProtocol, ic.protocols, ic'.protocols);
    FlatMapPermuted(OfEmail("IEM"), ic.iemDefaults, ic'.iemDefaults);
  }

  // Addresses up to order and letter case.
  function Lowers(list: seq<string>): set<string> {
    set v | v in list :: Lower(v)
  }

  predicate SameAddresses(a: seq<string>, b: seq<string>) {
    |a| == |b| && Lowers(a) == Lowers(b)
  }

  predicate Distinct(list: seq<string>) {
    forall i, j :: 0 <= i < j < |list| ==> Lower(list[i]) != Lower(list[j])
  }

  lemma LowersAppend(list: seq<string>, v: string)
    ensures Lowers(list + [v]) == Lowers(list) + {Lower(v)}
  {}

  lemma AddedMeans(list: seq<string>, value: string)
    requires Distinct(list)
    ensures Distinct(Added(list, value)) && Lowers(Added(list, value)) == Lowers(list) + {Lower(value)}
  {
    hide Lower;
    LowersAppend(list, value);
    if i :| 0 <= i < |list| && EqualFold(list[i], value) {
      assert list[i] in list;
    }
  }

  lemma {:induction false} AddAllMeans(list: seq<string>, values: seq<string>)
    requires Distinct(list)
    ensures Distinct(AddAll(list, values)) && Lowers(AddAll(list, values)) == Lowers(list) + Lowers(values)
    decreases |values|
  {
    if values != [] {
      var before, last := values[..|values| - 1], values[|values| - 1];
      assert values == before + [last];
      AddAllMeans(list, before);
      hide Added, Distinct, Lower;
      AddedMeans(AddAll(list, before), last);
      LowersAppend(before, last);
    } else {
      assert Lowers(values) == {};
    }
  }

  lemma {:induction false} SizeByLowers(list: seq<string>)
    requires Distinct(list)
    ensures |list| == |Lowers(list)|
    decreases |list|
  {
    if list != [] {
      var before, last := list[..|list| - 1], list[|list| - 1];
      assert list == before + [last];
      SizeByLowers(before);
      hide Lower;
      LowersAppend(before, last);
      assert Lower(last) !in Lowers(before);
    }
  }

  lemma SameByLowers(a: seq<string>, b: seq<string>)
    requires Distinct(a) && Distinct(b) && Lowers(a) == Lowers(b)
    ensures SameAddresses(a, b)
  {
    SizeByLowers(a);
    SizeByLowers(b);
  }

  lemma {:induction false} UsableMeans(values: seq<string>, good: bool)
    ensures forall v :: v in Usable(values, good) <==> v in values && LooksLikeEmail(v) == good
    decreases |values|
  {
    hide LooksLikeEmail;
    if values != [] {
      UsableMeans(values[..|values| - 1], good);
    }
  }

  // The addresses of a flag are, up to order and case, a function of the set of its values.
  lemma UsablePermuted(a: seq<string>, b: seq<string>, good: bool)
    requires multiset(a) == multiset(b)
    ensures var x, y := AddAll([], Usable(a, good)), AddAll([], Usable(b, good));
      SameAddresses(x, y) && Distinct(x) && Distinct(y) && Lowers(x) == Lowers(y) == Lowers(Usable(a, good))
  {
    UsableMeans(a, good);
    UsableMeans(b, good);
    assert forall v :: v in a <==> v in multiset(a);
    assert forall v :: v in b <==> v in multiset(b);
    hide Usable, AddAll, LooksLikeEmail;
    assert Lowers(Usable(a, good)) == Lowers(Usable(b, good));
    AddAllMeans([], Usable(a, good));
    AddAllMeans([], Usable(b, good));
    SameByLowers(AddAll([], Usable(a, good)), AddAll([], Usable(b, good)));
  }

  lemma FlagPermuted(ms: seq<Mention>, ms': seq<Mention>, flag: string)
    requires multiset(ms) == multiset(ms')
    ensures Occurrences(ms, flag) == Occurrences(ms', flag)
    ensures SameAddresses(Addresses(ms, flag), Addresses(ms', flag))
    ensures SameAddresses(Malformed(ms, flag), Malformed(ms', flag))
  {
    FlatMapPermuted(CountOf(flag), ms, ms');
    FlatMapPermuted(ValueOf(flag), ms, ms');
    assert |multiset(FlatMap(CountOf(flag), ms))| == |multiset(FlatMap(CountOf(flag), ms'))|;
    UsablePermuted(Values(ms, flag), Values(ms', flag), true);
    UsablePermuted(Values(ms, flag), Values(ms', flag), false);
  }

  lemma {:induction false} AnyPermuted(ms: seq<Mention>, ms': seq<Mention>, n: nat)
    requires multiset(ms) == multiset(ms') && n <= |ORDER|
    ensures Distinct(AnyAddress(ms, n)) && Distinct(AnyAddress(ms', n))
    ensures SameAddresses(AnyAddress(ms, n), AnyAddress(ms', n))
  {
    hide Addresses, AddAll, Lowers, Distinct;
    if n == 0 {
      NoneDistinct();
    } else {
      AnyPermuted(ms, ms', n - 1);
      FlagPermuted(ms, ms', ORDER[n - 1]);
      AddAllMeans(AnyAddress(ms, n - 1), Addresses(ms, ORDER[n - 1]));
      AddAllMeans(AnyAddress(ms', n - 1), Addresses(ms', ORDER[n - 1]));
      SameByLowers(AnyAddress(ms, n), AnyAddress(ms', n));
    }
  }

  lemma NoneDistinct()
    ensures Distinct([]) && SameAddresses([], [])
  {}

  predicate SameCapability(c: Capability, d: Capability) {
    && c.flag == d.flag && c.occurrences == d.occurrences && c.source == d.source
    && SameAddresses(c.addresses, d.addresses) && SameAddresses(c.malformed, d.malformed)
  }

  lemma CapabilityPermuted(ms: seq<Mention>, ms': seq<Mention>, flag: string, opts: Options)
    requires multiset(ms) == multiset(ms')
    ensures SameCapability(CapabilityOf(ms, flag, opts), CapabilityOf(ms', flag, opts))
  {
    FlagPermuted(ms, ms', flag);
    FlagPermuted(ms, ms', "IEM");
    AnyPermuted(ms, ms', |ORDER|);
    hide Addresses, Malformed, AnyAddress, Occurrences, Lowers, FieldAddress;
  }

  predicate SameCapabilities(a: seq<Capability>, b: seq<Capability>) {
    |a| == |b| && forall i :: 0 <= i < |a| ==> SameCapability(a[i], b[i])
  }

  lemma IfMentionedPermuted(ms: seq<Mention>, ms': seq<Mention>, flag: string, opts: Options)
    requires multiset(ms) == multiset(ms')
    ensures SameCapabilities(IfMentioned(ms, flag, opts), IfMentioned(ms', flag, opts))
  {
    hide CapabilityOf, Occurrences, SameCapability;
    CapabilityPermuted(ms, ms', flag, opts);
    FlagPermuted(ms, ms', flag);
  }

  lemma SameAppend(a: seq<Capability>, b: seq<Capability>, x: seq<Capability>, y: seq<Capability>)
    requires SameCapabilities(a, b) && SameCapabilities(x, y)
    ensures SameCapabilities(a + x, b + y)
  {
    hide SameCapability;
  }

  lemma {:induction false} CapabilitiesPermuted(ms: seq<Mention>, ms': seq<Mention>, opts: Options, n: nat)
    requires multiset(ms) == multiset(ms') && n <= |ORDER|
    ensures SameCapabilities(Capabilities(ms, opts, n), Capabilities(ms', opts, n))
  {
    if n > 0 {
      hide IfMentioned, SameCapabilities;
      CapabilitiesPermuted(ms, ms', opts, n - 1);
      IfMentionedPermuted(ms, ms', ORDER[n - 1], opts);
      SameAppend(Capabilities(ms, opts, n - 1), Capabilities(ms', opts, n - 1),
                 IfMentioned(ms, ORDER[n - 1], opts), IfMentioned(ms', ORDER[n - 1], opts));
    }
  }

  // Any permutation of the flags on the line, of the walk over the protocols, and
  // of the default addresses gives the same flags, occurrence counts and sources,
  // and the same addresses up to order and letter case.
  lemma OrderIrrelevant(flags: seq<string>, ic: Config, flags': seq<string>, ic': Config, opts: Options)
    requires multiset(flags) == multiset(flags')
    requires multiset(ic.protocols) == multiset(ic'.protocols) && multiset(ic.iemDefaults) == multiset(ic'.iemDefaults)
    ensures SameCapabilities(Capabilities(Mentions(flags, Some(ic)), opts, |ORDER|),
                             Capabilities(Mentions(flags', Some(ic')), opts, |ORDER|))
    ensures SameCapabilities(Capabilities(Mentions(flags, None), opts, |ORDER|),
                             Capabilities(Mentions(flags', None), opts, |ORDER|))
  {
    hide Mentions, Capabilities, SameCapabilities;
    MentionsPermuted(flags, ic, flags', ic');
    CapabilitiesPermuted(Mentions(flags, Some(ic)), Mentions(flags', Some(ic')), opts, |ORDER|);
    CapabilitiesPermuted(Mentions(flags, None), Mentions(flags', None), opts, |ORDER|);
  }
}
