/** The keyword in the first field of a list line (FTS-5000), as the pointlist
    parsers and the nodelist parser recognise it. */
module Keywords {
  import opened Text

  datatype Keyword = NoWord | Boss | Zone | Region | Host | Hub | Pvt | Hold | Down | PointWord | Unknown

  // The EqualFold chains of internal/parser/pointlist.go and pointlist_combined.go
  function KeywordOf(word: string): Keyword {
    if word == "" then NoWord
    else if EqualFold(word, "Boss") then Boss
    else if EqualFold(word, "Zone") then Zone
    else if EqualFold(word, "Region") then Region
    else if EqualFold(word, "Host") then Host
    else if EqualFold(word, "Hub") then Hub
    else if EqualFold(word, "Pvt") then Pvt
    else if EqualFold(word, "Hold") then Hold
    else if EqualFold(word, "Down") then Down
    else if EqualFold(word, "Point") then PointWord
    else Unknown
  }

  // cases.Title on a lower-cased word: a letter that opens a run of letters goes upper case.
  function Title(s: string): (r: string)
    ensures |r| == |s|
  {
    seq(|s|, i requires 0 <= i < |s| =>
      if 'a' <= s[i] <= 'z' && (i == 0 || !('a' <= s[i - 1] <= 'z')) then UpperChar(s[i]) else s[i])
  }

  function UpperChar(c: char): char {
    if 'a' <= c <= 'z' then (c as int - 32) as char else c
  }

  // The node types of parseNodeType and parseSpecialNodeType
  function NodeTypeOf(word: string): Keyword {
    if word == "" then NoWord
    else
      var t := Title(Lower(word));
      if t == "Zone" then Zone
      else if t == "Region" then Region
      else if t == "Host" then Host
      else if t == "Hub" then Hub
      else if t == "Pvt" then Pvt
      else if t == "Hold" then Hold
      else if t == "Down" then Down
      else Unknown
  }

  predicate IsCapitalised(name: string) {
    && name != "" && 'A' <= name[0] <= 'Z'
    && forall i :: 1 <= i < |name| ==> 'a' <= name[i] <= 'z'
  }

  // Title-casing a word gives a capitalised name exactly when the word folds to it.
  lemma TitleIsFold(word: string, name: string)
    requires IsCapitalised(name)
    ensures Title(Lower(word)) == name <==> EqualFold(word, name)
  {
    var low, t := Lower(word), Title(Lower(word));
    if t == name {
      assert forall i :: 0 <= i < |word| ==> low[i] == LowerChar(t[i]);
      assert low == Lower(name);
    }
    if low == Lower(name) {
      assert forall i :: 0 <= i < |word| ==> 'a' <= low[i] <= 'z';
      assert t == name;
    }
  }

  // The two recognisers agree on every word that is not a point-list keyword.
  lemma NodeTypeIsKeyword(word: string)
    ensures NodeTypeOf(word) ==
      var k := KeywordOf(word); if k.Boss? || k.PointWord? then Unknown else k
  {
    TitleIsFold(word, "Zone");
    TitleIsFold(word, "Region");
    TitleIsFold(word, "Host");
    TitleIsFold(word, "Hub");
    TitleIsFold(word, "Pvt");
    TitleIsFold(word, "Hold");
    TitleIsFold(word, "Down");
    if EqualFold(word, "Boss") {
      BossIsNoNodeType(word);
    } else if EqualFold(word, "Point") {
      PointIsNoNodeType(word);
    }
  }

  lemma BossIsNoNodeType(word: string)
    requires EqualFold(word, "Boss")
    ensures NodeTypeOf(word) == Unknown
  {
    TitleIsFold(word, "Boss");
  }

  lemma PointIsNoNodeType(word: string)
    requires EqualFold(word, "Point")
    ensures NodeTypeOf(word) == Unknown
  {
    TitleIsFold(word, "Point");
  }

  function TextOf(k: Keyword): string
    requires !k.Unknown?
  {
    match k
    case NoWord => ""
    case Boss => "Boss"
    case Zone => "Zone"
    case Region => "Region"
    case Host => "Host"
    case Hub => "Hub"
    case Pvt => "Pvt"
    case Hold => "Hold"
    case Down => "Down"
    case PointWord => "Point"
  }

  // The word is the keyword's text in some letter case.
  predicate Is(word: string, k: Keyword)
    requires !k.Unknown?
  {
    EqualFold(word, TextOf(k))
  }

  // A word is a keyword exactly when it is its text in any letter case, so no word
  // is two of them.
  lemma KeywordIff(word: string, k: Keyword)
    requires !k.Unknown?
    ensures KeywordOf(word) == k <==> Is(word, k)
  {
    hide Lower;
    EmptyFolds(word);
    var l := KeywordOf(word);
    if EqualFold(word, TextOf(k)) {
      assert !l.Unknown? && EqualFold(word, TextOf(l));
      PairDiffers(k, l);
    }
  }

  lemma EmptyFolds(word: string)
    ensures EqualFold(word, "") <==> word == ""
  {
    assert |Lower(word)| == |word|;
  }

  // The length, or else the first or the third letter.
  function Mark(s: string): (nat, char, char) {
    (|s|, if |s| > 0 then LowerChar(s[0]) else ' ', if |s| > 2 then LowerChar(s[2]) else ' ')
  }

  lemma PairDiffers(k: Keyword, l: Keyword)
    requires !k.Unknown? && !l.Unknown? && Lower(TextOf(k)) == Lower(TextOf(l))
    ensures k == l
  {
    SameMark(TextOf(k), TextOf(l));
    hide Lower;
  }

  lemma SameMark(s: string, t: string)
    requires Lower(s) == Lower(t)
    ensures Mark(s) == Mark(t)
  {
    assert |Lower(s)| == |s| && |Lower(t)| == |t|;
    if |s| > 0 {
      assert Lower(s)[0] == LowerChar(s[0]) && Lower(t)[0] == LowerChar(t[0]);
    }
    if |s| > 2 {
      assert Lower(s)[2] == LowerChar(s[2]) && Lower(t)[2] == LowerChar(t[2]);
    }
  }

  // A keyword has letters only.
  lemma KeywordLetters(word: string, k: Keyword)
    requires !k.Unknown? && Is(word, k)
    ensures forall i :: 0 <= i < |word| ==> 'a' <= LowerChar(word[i]) <= 'z'
  {
    forall i | 0 <= i < |word| ensures 'a' <= LowerChar(word[i]) <= 'z' {
      assert Lower(word)[i] == Lower(TextOf(k))[i];
    }
  }
}
