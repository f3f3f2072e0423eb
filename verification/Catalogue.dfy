/** The report names in use with analyticsKey, in the order of their texts
    (internal/storage/cached_storage_analytics.go, cached_storage_test_analytics.go,
    cached_storage_whois.go). */
module Catalogue {
  import opened Text
  import opened CacheKeys

  const REPORTS: seq<string> := [
    "aka:mismatch", "binkd:stats", "binkp:enabled", "binkp:software",
    "email:nodes", "email:trend", "filerequest", "flag:first",
    "flag:usage", "ftp:enabled", "geo:country:v2", "geo:hosting",
    "geo:provider:v2", "ifcico:enabled", "ifcico:software", "ipv4_incorrect_ipv6_correct",
    "ipv6:enabled", "ipv6:ipv4only", "ipv6:nodelist", "ipv6:nonworking",
    "ipv6:only", "ipv6:pureonly", "ipv6:weeklynews", "ipv6_incorrect_ipv4_correct",
    "modem:accessible", "modem:detail", "modem:noanswer", "network",
    "nodes_in_network", "onthisday", "other_networks_summary", "pioneers",
    "pstn:cm", "pstn:nodes", "telnet:enabled", "vmodem:enabled",
    "vmodem:unconfirmed", "whois:domain:v2", "whois:results:v4"
  ]

  // Where each name first differs from the next one.
  const DIFFERENCES: seq<nat> := [
    0, 4, 6, 0, 6, 0, 1, 5, 1, 0, 4, 4, 0, 7, 1, 3, 5, 5, 7, 5, 5, 5, 4, 0, 6, 6, 0, 1, 0, 1, 0, 1, 5, 0, 0, 7, 0, 6
  ]

  // Where two names, each closed by a colon, first differ, a comes before b.
  predicate Before(a: string, b: string, i: nat) {
    i < |a + ":"| && i < |b + ":"| && (a + ":")[..i] == (b + ":")[..i] && (a + ":")[i] < (b + ":")[i]
  }

  predicate InOrder(k: nat)
    requires k < |REPORTS| - 1
  {
    Before(REPORTS[k], REPORTS[k + 1], DIFFERENCES[k])
  }

  lemma FirstInOrder()
    ensures forall k: nat :: 0 <= k < 7 ==> InOrder(k)
  {}

  lemma SecondInOrder()
    ensures forall k: nat :: 7 <= k < 14 ==> InOrder(k)
  {}

  lemma ThirdInOrder()
    ensures forall k: nat :: 14 <= k < 20 ==> InOrder(k)
  {}

  lemma FourthInOrder()
    ensures forall k: nat :: 20 <= k < 26 ==> InOrder(k)
  {}

  lemma FifthInOrder()
    ensures forall k: nat :: 26 <= k < 32 ==> InOrder(k)
  {}

  lemma SixthInOrder()
    ensures forall k: nat :: 32 <= k < 38 ==> InOrder(k)
  {}

  lemma NextInOrder(k: nat)
    requires k < |REPORTS| - 1
    ensures InOrder(k)
  {
    FirstInOrder();
    SecondInOrder();
    ThirdInOrder();
    FourthInOrder();
    FifthInOrder();
    SixthInOrder();
  }

  lemma BeforeTransitive(a: string, b: string, c: string, i: nat, j: nat)
    requires Before(a, b, i) && Before(b, c, j)
    ensures exists k :: Before(a, c, k)
  {
    var x, y, z := a + ":", b + ":", c + ":";
    if i <= j {
      assert x[..i] == y[..i] == z[..i] by {
        assert y[..i] == y[..j][..i] && z[..i] == z[..j][..i];
      }
      assert z[i] == if i < j then z[..j][i] else z[j];
      assert Before(a, c, i);
    } else {
      assert x[..j] == y[..j] == z[..j] by {
        assert x[..j] == x[..i][..j] && y[..j] == y[..i][..j];
      }
      assert x[j] == x[..i][j] && y[j] == y[..i][j];
      assert Before(a, c, j);
    }
  }

  lemma {:induction false} AllInOrder(j: nat, k: nat)
    requires j < k < |REPORTS|
    ensures exists i :: Before(REPORTS[j], REPORTS[k], i)
    decreases k - j
  {
    hide Before;
    NextInOrder(k - 1);
    assert Before(REPORTS[k - 1], REPORTS[k], DIFFERENCES[k - 1]);
    if j < k - 1 {
      AllInOrder(j, k - 1);
      var i :| Before(REPORTS[j], REPORTS[k - 1], i);
      BeforeTransitive(REPORTS[j], REPORTS[k - 1], REPORTS[k], i, DIFFERENCES[k - 1]);
    }
  }

  lemma BeforeNoPrefix(a: string, b: string, i: nat)
    requires Before(a, b, i)
    ensures !(a + ":" <= b + ":") && !(b + ":" <= a + ":")
  {
    assert (a + ":")[i] != (b + ":")[i];
  }

  lemma {:induction false} JoinAppend(a: seq<string>, b: seq<string>)
    requires a != [] && b != []
    ensures Join(a + b, ':') == Join(a, ':') + ":" + Join(b, ':')
    decreases |a|
  {
    assert (a + b)[1..] == a[1..] + b;
    if |a| > 1 {
      JoinAppend(a[1..], b);
    }
  }

  // A name whose pieces begin another's is the beginning of its text.
  lemma PiecesBeginText(a: string, b: string)
    requires Split(a, ':') <= Split(b, ':')
    ensures a + ":" <= b + ":"
  {
    var x, y := Split(a, ':'), Split(b, ':');
    JoinOfSplit(a, ':');
    JoinOfSplit(b, ':');
    if |x| < |y| {
      assert y == x + y[|x|..];
      JoinAppend(x, y[|x|..]);
    } else {
      assert x == y;
    }
  }

  function Names(): set<string> {
    set i | 0 <= i < |REPORTS| :: REPORTS[i]
  }

  // The names in use are prefix-free.
  lemma NamesPrefixFree()
    ensures PrefixFree(Names())
  {
    forall j, k | 0 <= j < |REPORTS| && 0 <= k < |REPORTS| && Split(REPORTS[j], ':') <= Split(REPORTS[k], ':')
      ensures j == k
    {
      NoNameBegins(j, k);
    }
  }

  lemma NoNameBegins(j: nat, k: nat)
    requires j < |REPORTS| && k < |REPORTS| && Split(REPORTS[j], ':') <= Split(REPORTS[k], ':')
    ensures j == k
  {
    hide Before, Split;
    PiecesBeginText(REPORTS[j], REPORTS[k]);
    if j < k {
      AllInOrder(j, k);
      var i :| Before(REPORTS[j], REPORTS[k], i);
      BeforeNoPrefix(REPORTS[j], REPORTS[k], i);
    } else if k < j {
      AllInOrder(k, j);
      var i :| Before(REPORTS[k], REPORTS[j], i);
      BeforeNoPrefix(REPORTS[k], REPORTS[j], i);
    }
  }

  // For the reports of the program, different well-formed reads have different keys.
  lemma ReadsHaveOwnKeys(a: Query, b: Query)
    requires WellFormed(a, Names()) && WellFormed(b, Names())
    requires Key(a) == Key(b)
    ensures a == b
  {
    NamesPrefixFree();
    KeysInjective(a, b, Names());
  }

  // Two different calls of the first-appearance report share a key when the network
  // of the second has a colon; a colon in the flag alone does no harm.
  lemma FlagReportsCollide(x: string, y: string, z: string)
    ensures var a, b := Analytics("flag:first", [x + ":" + y, z]), Analytics("flag:first", [x, y + ":" + z]);
      "flag:first" in Names() && a != b && Key(a) == Key(b)
  {
    assert REPORTS[7] == "flag:first";
    AnalyticsKeysCollide("flag:first", x, y, z);
  }
}
