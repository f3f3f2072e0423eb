/** What the email capabilities say about a line as it is written: a printed flag
    gives its address back, an address is what the rules say, and the free-text
    fields come last (internal/emailflags/emailflags.go:180-365). */
module EmailReading {
  import opened Text
  import opened EmailFlags

  /******* A printed flag *******/

  // How a flag is written: white space around it, around the colon and the value.
  datatype Setting = Setting(before: string, name: string, gap: string, rest: string, after: string)

  // The name is the flag's in some letter case.
  predicate Writes(w: Setting, flag: string) {
    && AllSpace(w.before) && AllSpace(w.gap) && AllSpace(w.rest) && AllSpace(w.after)
    && Trimmed(w.name) && w.name != "" && ':' !in w.name && Upper(w.name) == flag
  }

  function Written(w: Setting, value: string): string {
    w.before + (w.name + w.gap + [':'] + (w.rest + value)) + w.after
  }

  lemma FlagSplits(w: Setting, flag: string, value: string)
    requires Writes(w, flag) && Trimmed(value)
    ensures SplitFlag(Written(w, value)) == (flag, value)
  {
    var head, tail := w.name + w.gap, w.rest + value;
    assert !IsSpace(':');
    hide Upper, SplitFlag;
    TrimPadded("", w.name, w.gap);
    assert "" + w.name + w.gap == head;
    if value != "" {
      TrimPadded(w.before, head + [':'] + tail, w.after);
      TrimPadded(w.rest, value, "");
      assert w.rest + value + "" == tail;
      SplitsAt(Written(w, value), head, tail);
    } else {
      assert Written(w, value) == w.before + (head + [':']) + (w.rest + w.after);
      TrimPadded(w.before, head + [':'], w.rest + w.after);
      assert head + [':'] + "" == head + [':'] && Trim("") == "";
      SplitsAt(Written(w, value), head, "");
    }
  }

  lemma SplitsAt(raw: string, head: string, tail: string)
    requires ':' !in head && Trim(raw) == head + [':'] + tail
    ensures SplitFlag(raw) == (Upper(Trim(head)), Trim(tail))
  {
    hide Upper, Trim;
    CutAtColon(head, tail);
  }

  lemma CutAtColon(head: string, tail: string)
    requires ':' !in head
    ensures var s := head + [':'] + tail;
      IndexOf(s, ':') == |head| && s[..|head|] == head && s[|head| + 1..] == tail
  {
    var s := head + [':'] + tail;
    assert s[|head|] == ':';
    assert forall j :: 0 <= j < |head| ==> s[j] == head[j];
  }

  lemma BareFlagSplits(w: Setting, flag: string)
    requires Writes(w, flag)
    ensures SplitFlag(w.before + w.name + w.after) == (flag, "")
  {
    TrimPadded(w.before, w.name, w.after);
    TrimOfTrimmed(w.name);
    assert w.name[..|w.name|] == w.name;
  }

  predicate Known(flag: string) {
    flag in ["IEM", "IMI", "ITX", "ISE", "IUC", "EMA", "EVY"]
  }

  lemma OneMention(raw: string)
    ensures Mentions([raw], None) == OfRaw(raw)
  {
    hide OfRaw;
    FlatMapNext(OfRaw, [], raw);
    assert [] + [raw] == [raw];
    assert FlatMap(OfRaw, []) == [] && [] + OfRaw(raw) == OfRaw(raw) && OfRaw(raw) + [] == OfRaw(raw);
  }

  // One value of a flag: used when it is an address, reported when it is not.
  lemma OneValue(flag: string, value: string, opts: Options)
    requires Known(flag) && value != ""
    ensures var c := CapabilityOf([Mention(flag, value)], flag, opts);
      && c.flag == flag && c.occurrences == 1
      && (LooksLikeEmail(value) ==> c.addresses == [value] && c.source == Explicit && c.malformed == [])
      && (!LooksLikeEmail(value) ==> c.source != Explicit && c.malformed == [value])
  {
    hide LooksLikeEmail, FieldAddress, AnyAddress, AddAll, Usable, Values, Occurrences;
    OneMentionCounts(flag, value);
    OneUsable(value, true);
    OneUsable(value, false);
  }

  lemma OneMentionCounts(flag: string, value: string)
    ensures var ms := [Mention(flag, value)];
      Occurrences(ms, flag) == 1 && Values(ms, flag) == if value != "" then [value] else []
    ensures forall other :: other != flag ==> Occurrences([Mention(flag, value)], other) == 0
  {
    MentionCounts([], Mention(flag, value), flag);
    assert [] + [Mention(flag, value)] == [Mention(flag, value)];
    forall other | other != flag ensures Occurrences([Mention(flag, value)], other) == 0 {
      MentionCounts([], Mention(flag, value), other);
    }
  }

  lemma OneUsable(value: string, good: bool)
    ensures AddAll([], Usable([value], good)) == if LooksLikeEmail(value) == good then [value] else []
  {
    hide LooksLikeEmail;
    assert [value][..0] == [];
    assert Usable([], good) == [] && AddAll([], []) == [];
    if LooksLikeEmail(value) == good {
      assert Usable([value], good) == [value];
      assert AddAll([], [value]) == Added([], value);
    }
  }

  lemma {:induction false} OnlyOne(ms: seq<Mention>, flag: string, opts: Options, n: nat)
    requires n <= |ORDER| && Occurrences(ms, flag) > 0
    requires forall other :: other != flag ==> Occurrences(ms, other) == 0
    ensures Capabilities(ms, opts, n)
         == if exists i :: 0 <= i < n && ORDER[i] == flag then [CapabilityOf(ms, flag, opts)] else []
  {
    hide CapabilityOf, Occurrences;
    if n > 0 {
      OnlyOne(ms, flag, opts, n - 1);
      OrderDistinct();
    }
  }

  lemma OrderDistinct()
    ensures forall i, j :: 0 <= i < j < |ORDER| ==> ORDER[i] != ORDER[j]
    ensures forall flag :: Known(flag) <==> exists i :: 0 <= i < |ORDER| && ORDER[i] == flag
  {}

  // A flag printed with its address, in any letter case and with white space about,
  // is that one capability with that one address of its own.
  lemma PrintedFlagReads(w: Setting, flag: string, address: string, opts: Options)
    requires Known(flag) && Writes(w, flag) && Trimmed(address) && LooksLikeEmail(address)
    ensures Capabilities(Mentions([Written(w, address)], None), opts, |ORDER|)
         == [Capability(flag, [address], Explicit, 1, [])]
  {
    hide LooksLikeEmail, SplitFlag, Written, Writes, Capabilities, Mentions;
    AddressNotEmpty(address);
    FlagSplits(w, flag, address);
    OneMention(Written(w, address));
    OrderDistinct();
    assert OfRaw(Written(w, address)) == [Mention(flag, address)];
    ReadsAs([Mention(flag, address)], flag, address, opts);
  }

  // A flag without a value is counted, and has no address of its own.
  lemma BareFlagReads(w: Setting, flag: string, opts: Options)
    requires Known(flag) && Writes(w, flag)
    ensures var cs := Capabilities(Mentions([w.before + w.name + w.after], None), opts, |ORDER|);
      |cs| == 1 && cs[0].flag == flag && cs[0].occurrences == 1 && cs[0].source != Explicit && cs[0].malformed == []
  {
    hide LooksLikeEmail, SplitFlag, Writes, Capabilities, Mentions, Occurrences, Values, FieldAddress, AnyAddress;
    var raw, ms := w.before + w.name + w.after, [Mention(flag, "")];
    BareFlagSplits(w, flag);
    OneMention(raw);
    OrderDistinct();
    assert OfRaw(raw) == ms;
    OneMentionCounts(flag, "");
    OnlyOne(ms, flag, opts, |ORDER|);
    assert Addresses(ms, flag) == [] && Malformed(ms, flag) == [];
  }

  lemma AddressNotEmpty(address: string)
    requires LooksLikeEmail(address)
    ensures address != ""
  {}

  // The same from the configuration: a protocol under its name in any letter case,
  // and a default address of IEM.
  lemma ConfiguredReads(w: Setting, flag: string, address: string, opts: Options)
    requires Known(flag) && Writes(w, flag) && Trimmed(address) && LooksLikeEmail(address)
    ensures var p := Protocol(w.before + w.name + w.after, [w.rest + address + w.gap]);
      Capabilities(Mentions([], Some(Config([p], []))), opts, |ORDER|)
      == [Capability(flag, [address], Explicit, 1, [])]
    ensures Capabilities(Mentions([], Some(Config([], [w.rest + address + w.gap]))), opts, |ORDER|)
         == [Capability("IEM", [address], Explicit, 1, [])]
  {
    hide LooksLikeEmail, CapabilityOf, Capabilities, Upper, Trim;
    AddressNotEmpty(address);
    TrimPadded(w.before, w.name, w.after);
    TrimPadded(w.rest, address, w.gap);
    OrderDistinct();
    var p, email := Protocol(w.before + w.name + w.after, [w.rest + address + w.gap]), w.rest + address + w.gap;
    OneMapped(OfEmail(flag), email);
    OneMapped(OfEmail("IEM"), email);
    OneMapped(OfProtocol, p);
    ConfigMentions(Config([p], []));
    ConfigMentions(Config([], [email]));
    ReadsAs([Mention(flag, address)], flag, address, opts);
    ReadsAs([Mention("IEM", address)], "IEM", address, opts);
  }

  lemma ConfigMentions(ic: Config)
    ensures Mentions([], Some(ic)) == FlatMap(OfProtocol, ic.protocols) + FlatMap(OfEmail("IEM"), ic.iemDefaults)
    ensures ic.iemDefaults == [] ==> Mentions([], Some(ic)) == FlatMap(OfProtocol, ic.protocols)
    ensures ic.protocols == [] ==> Mentions([], Some(ic)) == FlatMap(OfEmail("IEM"), ic.iemDefaults)
  {}

  lemma OneMapped<A, B>(f: A -> seq<B>, x: A)
    ensures FlatMap(f, [x]) == f(x)
  {
    FlatMapNext(f, [], x);
    assert [] + [x] == [x];
    assert FlatMap(f, []) == [] && [] + f(x) == f(x);
  }

  lemma ReadsAs(ms: seq<Mention>, flag: string, address: string, opts: Options)
    requires ms == [Mention(flag, address)] && Known(flag) && address != "" && LooksLikeEmail(address)
    ensures Capabilities(ms, opts, |ORDER|) == [Capability(flag, [address], Explicit, 1, [])]
  {
    hide LooksLikeEmail, CapabilityOf, Capabilities;
    OrderDistinct();
    OneMentionCounts(flag, address);
    OnlyOne(ms, flag, opts, |ORDER|);
    OneValue(flag, address, opts);
  }

  /******* What an address is *******/

  // A domain of letters, digits, dots and hyphens with a dot inside.
  predicate IsDomain(s: string) {
    && '.' in s && s[0] != '.' && s[|s| - 1] != '.'
    && forall i :: 0 <= i < |s| ==>
         'a' <= s[i] <= 'z' || 'A' <= s[i] <= 'Z' || '0' <= s[i] <= '9' || s[i] == '.' || s[i] == '-'
  }

  ghost predicate IsAddress(s: string) {
    && ' ' !in s && '\t' !in s && ',' !in s
    && exists at: nat :: at > 0 && at < |s| && s[at] == '@' && IsDomain(s[at + 1..])
  }

  // The check on an address accepts exactly a non-empty name, an @ and a domain,
  // without blanks and commas.
  lemma AddressIff(s: string)
    ensures LooksLikeEmail(s) <==> IsAddress(s)
  {
    LastAt(s);
    var last := LastIndexOf(s, '@');
    hide IsDomain, LastIndexOf;
    if at: nat :| at > 0 && at < |s| && s[at] == '@' && IsDomain(s[at + 1..]) {
      NoAtAfter(s, at);
      assert at == last;
    }
    CheckIs(s, last);
  }

  lemma NoAtAfter(s: string, at: nat)
    requires at < |s| && IsDomain(s[at + 1..])
    ensures forall j :: at < j < |s| ==> s[j] != '@'
  {
    forall j | at < j < |s| ensures s[j] != '@' {
      assert s[at + 1..][j - at - 1] == s[j];
    }
  }

  // The check, with the last @ found.
  lemma CheckIs(s: string, last: int)
    requires last == LastIndexOf(s, '@')
    ensures LooksLikeEmail(s) <==>
      ' ' !in s && '\t' !in s && ',' !in s && 0 < last < |s| && IsDomain(s[last + 1..])
  {
    hide LastIndexOf;
  }

  lemma {:induction false} LastAt(s: string)
    ensures var at := LastIndexOf(s, '@');
      (at >= 0 ==> s[at] == '@') && forall i :: at < i < |s| ==> s[i] != '@'
    decreases |s|
  {
    if s != "" && s[|s| - 1] != '@' {
      LastAt(s[..|s| - 1]);
    }
  }

  /******* The free-text fields *******/

  predicate Separator(c: char) {
    c == '_' || c == ' ' || c == '\t'
  }

  // The tokens between the separators.
  function Tokens(field: string, token: string): seq<string> {
    if field == "" then [token]
    else if Separator(field[0]) then [token] + Tokens(field[1..], "")
    else Tokens(field[1..], token + [field[0]])
  }

  // The first token that is an address once its brackets and quotes are off.
  function FirstGood(tokens: seq<string>): string {
    if tokens == [] then ""
    else if tokens[0] != "" && LooksLikeEmail(Stripped(tokens[0])) then Stripped(tokens[0])
    else FirstGood(tokens[1..])
  }

  lemma {:induction false} FieldAddressIsFirst(field: string, token: string)
    ensures FirstAddress(field, token) == FirstGood(Tokens(field, token))
    decreases |field|
  {
    hide LooksLikeEmail, Stripped;
    if field != "" {
      if Separator(field[0]) {
        FieldAddressIsFirst(field[1..], "");
        assert ([token] + Tokens(field[1..], ""))[1..] == Tokens(field[1..], "");
      } else {
        FieldAddressIsFirst(field[1..], token + [field[0]]);
      }
    }
  }

  // What is left of a token: brackets, quotes and semicolons go at both ends only.
  lemma {:induction false} StrippedOf(open: string, core: string, shut: string)
    requires forall i :: 0 <= i < |open| ==> open[i] in "()<>[]\"';"
    requires forall i :: 0 <= i < |shut| ==> shut[i] in "()<>[]\"';"
    requires core != "" && core[0] !in "()<>[]\"';" && core[|core| - 1] !in "()<>[]\"';"
    ensures Stripped(open + core + shut) == core
    decreases |open| + |shut|
  {
    var s := open + core + shut;
    if open != "" {
      assert s[1..] == open[1..] + core + shut;
      StrippedOf(open[1..], core, shut);
    } else if shut != "" {
      assert s == core + shut && s[..|s| - 1] == "" + core + shut[..|shut| - 1];
      StrippedOf("", core, shut[..|shut| - 1]);
    } else {
      assert s == core;
    }
  }

  predicate NoAddress(ms: seq<Mention>) {
    forall i :: 0 <= i < |ORDER| ==> Addresses(ms, ORDER[i]) == []
  }

  // The fields are used when no flag has an address and they may be: the location
  // first, then the system name.
  lemma FieldsComeLast(ms: seq<Mention>, opts: Options, i: nat)
    requires i < |ORDER|
    ensures var c := CapabilityOf(ms, ORDER[i], opts);
      var place, name := FieldAddress(opts.location), FieldAddress(opts.systemName);
      var fields := NoAddress(ms) && opts.useFieldFallback;
      && (c.source.LocationField? <==> fields && place != "")
      && (c.source.SystemName? <==> fields && place == "" && name != "")
      && (c.source.Unresolved? <==> NoAddress(ms) && (opts.useFieldFallback ==> place == "" && name == ""))
      && (c.source.LocationField? ==> c.addresses == [place]) && (c.source.SystemName? ==> c.addresses == [name])
      && (c.source.Unresolved? ==> c.addresses == [])
  {
    SourceMeans(ms, opts, i);
    hide Occurrences, Malformed, FieldAddress, AnyAddress, Addresses;
    assert ORDER[0] == "IEM";
    if AnyAddress(ms, |ORDER|) == [] {
      forall j: nat | j < |ORDER| ensures Addresses(ms, ORDER[j]) == [] {
        AnyHasEach(ms, |ORDER|, j);
      }
    } else {
      AnyNeedsOne(ms, |ORDER|);
    }
  }

  // Under "other email flag" come the addresses of all flags, each once.
  lemma OtherFlagsMean(ms: seq<Mention>, opts: Options, i: nat)
    requires i < |ORDER| && CapabilityOf(ms, ORDER[i], opts).source.OtherEmailFlag?
    ensures var all := CapabilityOf(ms, ORDER[i], opts).addresses;
      && Distinct(all)
      && forall v :: v in Lowers(all) <==> exists j :: 0 <= j < |ORDER| && v in Lowers(Addresses(ms, ORDER[j]))
  {
    AnyMeans(ms, |ORDER|);
    hide Occurrences, Malformed, FieldAddress, AnyAddress, Addresses;
  }

  lemma {:induction false} AnyMeans(ms: seq<Mention>, n: nat)
    requires n <= |ORDER|
    ensures Distinct(AnyAddress(ms, n))
    ensures forall v ::
      v in Lowers(AnyAddress(ms, n)) <==> exists j :: 0 <= j < n && v in Lowers(Addresses(ms, ORDER[j]))
  {
    hide Addresses, AddAll, Lowers, Distinct;
    if n == 0 {
      NoneDistinct();
      assert Lowers([]) == {} by { NoLowers(); }
    } else {
      AnyMeans(ms, n - 1);
      AddAllMeans(AnyAddress(ms, n - 1), Addresses(ms, ORDER[n - 1]));
    }
  }

  lemma NoLowers()
    ensures Lowers([]) == {}
  {}
}
