/** The text helpers the parsers share: Go's strings.TrimSpace, Split, Join and
    EqualFold, and strconv's Atoi, ParseUint and decimal printing.
    Strings are sequences of Unicode characters; letter case is ASCII only. */
module Text {

  datatype Option<+T> = None | Some(value: T)

  /******* White space *******/

  // unicode.IsSpace
  predicate IsSpace(c: char) {
    || '\t' <= c <= '\r'
    || c in {' ', '\U{0085}', '\U{00A0}', '\U{1680}', '\U{2028}', '\U{2029}', '\U{202F}', '\U{205F}', '\U{3000}'}
    || '\U{2000}' <= c <= '\U{200A}'
  }

  function TrimLeft(s: string): string {
    if s != "" && IsSpace(s[0]) then TrimLeft(s[1..]) else s
  }

  function TrimRight(s: string): string {
    if s != "" && IsSpace(s[|s| - 1]) then TrimRight(s[..|s| - 1]) else s
  }

  function Trim(s: string): string {
    TrimRight(TrimLeft(s))
  }

  // A text with no white space at either end.
  predicate Trimmed(s: string) {
    s != "" ==> !IsSpace(s[0]) && !IsSpace(s[|s| - 1])
  }

  lemma TrimOfTrimmed(s: string)
    requires Trimmed(s)
    ensures Trim(s) == s
  {}

  predicate AllSpace(s: string) {
    forall i :: 0 <= i < |s| ==> IsSpace(s[i])
  }

  lemma {:induction false} TrimLeftPad(pad: string, s: string)
    requires AllSpace(pad)
    ensures TrimLeft(pad + s) == TrimLeft(s)
    decreases |pad|
  {
    if pad == "" {
      assert pad + s == s;
    } else {
      assert (pad + s)[1..] == pad[1..] + s;
      TrimLeftPad(pad[1..], s);
    }
  }

  lemma {:induction false} TrimRightPad(s: string, pad: string)
    requires AllSpace(pad)
    ensures TrimRight(s + pad) == TrimRight(s)
    decreases |pad|
  {
    if pad == "" {
      assert s + pad == s;
    } else {
      assert (s + pad)[..|s + pad| - 1] == s + pad[..|pad| - 1];
      TrimRightPad(s, pad[..|pad| - 1]);
    }
  }

  // White space around a trimmed text is what trimming takes away.
  lemma TrimPadded(before: string, s: string, after: string)
    requires AllSpace(before) && AllSpace(after) && Trimmed(s)
    ensures Trim(before + s + after) == s
  {
    assert before + s + after == before + (s + after);
    TrimLeftPad(before, s + after);
    if s == "" {
      TrimLeftPad(after, "");
      assert after + "" == s + after;
    } else {
      TrimRightPad(s, after);
    }
  }

  /******* Splitting and joining *******/

  function IndexOf(s: string, c: char): (i: nat)
    ensures i <= |s|
    ensures forall j :: 0 <= j < i ==> s[j] != c
    ensures i < |s| ==> s[i] == c
    ensures i == |s| <==> c !in s
  {
    if s == "" then 0
    else if s[0] == c then 0
    else
      var i := 1 + IndexOf(s[1..], c);
      assert forall j :: 0 < j < |s| ==> s[j] == s[1..][j - 1];
      i
  }

  // strings.Split with a one-character separator
  function Split(s: string, sep: char): (parts: seq<string>)
    ensures |parts| >= 1
    decreases |s|
  {
    var i := IndexOf(s, sep);
    if i == |s| then [s] else [s[..i]] + Split(s[i + 1..], sep)
  }

  function Join(parts: seq<string>, sep: char): string {
    if parts == [] then ""
    else if |parts| == 1 then parts[0]
    else parts[0] + [sep] + Join(parts[1..], sep)
  }

  lemma SplitFirst(a: string, rest: string, sep: char)
    requires sep !in a
    ensures Split(a + [sep] + rest, sep) == [a] + Split(rest, sep)
  {
    var s := a + [sep] + rest;
    var i := IndexOf(s, sep);
    assert s[|a|] == sep;
    assert forall j :: 0 <= j < |a| ==> s[j] == a[j];
    assert s[..i] == a && s[i + 1..] == rest;
  }

  lemma {:induction false} SplitAppend(a: string, b: string, sep: char)
    ensures Split(a + [sep] + b, sep) == Split(a, sep) + Split(b, sep)
    decreases |a|
  {
    var i := IndexOf(a, sep);
    if i == |a| {
      SplitFirst(a, b, sep);
    } else {
      hide Split, IndexOf;
      var first, rest := a[..i], a[i + 1..];
      assert a == first + [sep] + rest;
      SplitFirst(first, rest, sep);
      SplitAppend(rest, b, sep);
      SplitFirst(first, rest + [sep] + b, sep);
      Regroup(first, [sep], rest, [sep] + b);
      Regroup(rest, [sep], b, []);
      Regroup(a, [sep], b, []);
      Regroup([first], Split(rest, sep), Split(b, sep), []);
    }
  }

  lemma Regroup<T>(a: seq<T>, b: seq<T>, c: seq<T>, d: seq<T>)
    ensures a + b + c + d == a + b + (c + d) == a + (b + c) + d == a + (b + (c + d))
    ensures c + [] == c
  {}

  // Joining undoes splitting.
  lemma {:induction false} JoinOfSplit(s: string, sep: char)
    ensures Join(Split(s, sep), sep) == s
    decreases |s|
  {
    var i := IndexOf(s, sep);
    if i < |s| {
      var rest := Split(s[i + 1..], sep);
      assert Split(s, sep) == [s[..i]] + rest;
      JoinOfSplit(s[i + 1..], sep);
      hide Split, IndexOf;
      assert ([s[..i]] + rest)[1..] == rest;
    }
  }

  // Splitting undoes joining when no part holds the separator.
  lemma {:induction false} SplitOfJoin(parts: seq<string>, sep: char)
    requires parts != []
    requires forall i :: 0 <= i < |parts| ==> sep !in parts[i]
    ensures Split(Join(parts, sep), sep) == parts
    decreases |parts|
  {
    if |parts| == 1 {
    } else {
      SplitOfJoin(parts[1..], sep);
      SplitFirst(parts[0], Join(parts[1..], sep), sep);
    }
  }

  lemma {:induction false} JoinLast(parts: seq<string>, last: string, sep: char)
    requires parts != []
    ensures Join(parts + [last], sep) == Join(parts, sep) + [sep] + last
    decreases |parts|
  {
    var all := parts + [last];
    if |parts| == 1 {
      assert all[1..] == [last];
    } else {
      JoinLast(parts[1..], last, sep);
      assert all[1..] == parts[1..] + [last];
    }
  }

  lemma {:induction false} JoinPlain(parts: seq<string>, sep: char, c: char)
    requires c != sep && forall i :: 0 <= i < |parts| ==> c !in parts[i]
    ensures c !in Join(parts, sep)
    decreases |parts|
  {
    if |parts| > 1 {
      JoinPlain(parts[1..], sep, c);
    }
  }

  lemma JoinFirst(parts: seq<string>, sep: char)
    requires |parts| > 1
    ensures Join(parts, sep) != ""
    ensures Join(parts, sep)[0] == if parts[0] == "" then sep else parts[0][0]
  {}

  /******* Letter case *******/

  function LowerChar(c: char): char {
    if 'A' <= c <= 'Z' then (c as int + 32) as char else c
  }

  function Lower(s: string): (r: string)
    ensures |r| == |s|
    ensures forall i :: 0 <= i < |s| ==> r[i] == LowerChar(s[i])
  {
    seq(|s|, i requires 0 <= i < |s| => LowerChar(s[i]))
  }

  // strings.EqualFold on ASCII letters
  predicate EqualFold(a: string, b: string) {
    Lower(a) == Lower(b)
  }

  /******* Numbers *******/

  const MAX_INT64: int := 0x7FFF_FFFF_FFFF_FFFF
  const MIN_INT64: int := -0x8000_0000_0000_0000
  const MAX_UINT32: int := 0xFFFF_FFFF

  predicate IsDigit(c: char) {
    '0' <= c <= '9'
  }

  predicate AllDigits(s: string) {
    forall i :: 0 <= i < |s| ==> IsDigit(s[i])
  }

  function DigitValue(c: char): nat
    requires IsDigit(c)
  {
    c as int - '0' as int
  }

  function Value(s: string): nat
    requires AllDigits(s)
  {
    if s == "" then 0 else 10 * Value(s[..|s| - 1]) + DigitValue(s[|s| - 1])
  }

  function NatText(n: nat): (s: string)
    ensures s != "" && AllDigits(s)
  {
    if n < 10 then [(n + '0' as int) as char] else NatText(n / 10) + NatText(n % 10)
  }

  // fmt's %d
  function Itoa(n: int): string {
    if n < 0 then "-" + NatText(-n) else NatText(n)
  }

  lemma {:induction false} ValueOfNatText(n: nat)
    ensures Value(NatText(n)) == n
  {
    var s := NatText(n);
    if n >= 10 {
      ValueOfNatText(n / 10);
      assert s[..|s| - 1] == NatText(n / 10);
    } else {
      assert s[..|s| - 1] == "";
    }
  }

  predicate Int64(n: int) {
    MIN_INT64 <= n <= MAX_INT64
  }

  // strconv.Atoi: one optional sign, at least one digit, in the int64 range
  function Atoi(s: string): Option<int> {
    var signed := s != "" && (s[0] == '-' || s[0] == '+');
    var digits := if signed then s[1..] else s;
    if digits == "" || !AllDigits(digits) then None
    else
      var v: int := Value(digits);
      var n := if signed && s[0] == '-' then -v else v;
      if Int64(n) then Some(n) else None
  }

  lemma AtoiOfItoa(n: int)
    ensures Atoi(Itoa(n)) == if Int64(n) then Some(n) else None
  {
    hide NatText, Value, AllDigits;
    var magnitude: nat := if n < 0 then -n else n;
    ValueOfNatText(magnitude);
    AtoiOfDigits(NatText(magnitude), n < 0);
  }

  lemma AtoiOfDigits(digits: string, negative: bool)
    requires digits != "" && AllDigits(digits)
    ensures var v: int := Value(digits);
      var n := if negative then -v else v;
      Atoi(if negative then "-" + digits else digits) == if Int64(n) then Some(n) else None
  {
    assert IsDigit(digits[0]);
    assert ("-" + digits)[1..] == digits;
  }

  // A number with a sign or without.
  lemma AtoiOfSigned(sign: string, digits: string)
    requires sign in ["", "+", "-"] && digits != "" && AllDigits(digits)
    ensures var v: int := Value(digits);
      var n := if sign == "-" then -v else v;
      Atoi(sign + digits) == if Int64(n) then Some(n) else None
  {
    assert IsDigit(digits[0]);
    if sign != "" {
      assert (sign + digits)[1..] == digits && (sign + digits)[0] == sign[0];
    } else {
      assert "" + digits == digits;
    }
  }

  lemma ItoaInjective(m: int, n: int)
    requires Itoa(m) == Itoa(n)
    ensures m == n
  {
    assert IsDigit(NatText(if m < 0 then -m else m)[0]) && IsDigit(NatText(if n < 0 then -n else n)[0]);
    ValueOfNatText(if m < 0 then -m else m);
    ValueOfNatText(if n < 0 then -n else n);
    if m < 0 && n < 0 {
      assert Itoa(m)[1..] == NatText(-m) && Itoa(n)[1..] == NatText(-n);
    }
  }

  // The texts Itoa prints hold digits and a minus sign only.
  lemma ItoaPlain(n: int, c: char)
    requires !IsDigit(c) && c != '-'
    ensures c !in Itoa(n)
  {}

  lemma ItoaTrimmed(n: int)
    ensures Itoa(n) != "" && Trimmed(Itoa(n))
  {
    var s := Itoa(n);
    assert n < 0 ==> s[|s| - 1] == NatText(-n)[|s| - 2];
  }

  // strconv.ParseUint(s, 10, 32), with a failed parse read as 0
  function ParseUint32(s: string): nat {
    if s != "" && AllDigits(s) && Value(s) <= MAX_UINT32 then Value(s) else 0
  }

  // A number whose overflow error the caller drops: Atoi then hands back the largest int64.
  function AtoiSaturating(s: string): nat
    requires AllDigits(s)
  {
    if Value(s) <= MAX_INT64 then Value(s) else MAX_INT64
  }
}
