/** Conflict numbering of repeated addresses within one file. The nodelist
    parser, its inline point lines and the pointlist parser all number the same
    way: internal/parser/parser.go:441-478, internal/parser/parser.go:403-413,
    internal/parser/pointlist.go:497-512. */
module Duplicates {

  // A stored row, the address text it is filed under, and its conflict marks.
  datatype Entry<+T> = Entry(item: T, key: string, conflictSequence: nat, hasConflict: bool)

  // The positions at which an address occurs, in file order.
  function IndicesOf(keys: seq<string>, k: string): (r: seq<nat>)
    ensures forall j :: 0 <= j < |r| ==> r[j] < |keys|
  {
    if keys == [] then []
    else
      var n := |keys| - 1;
      IndicesOf(keys[..n], k) + if keys[n] == k then [n] else []
  }

  // What the numbering of a whole file means: an entry's sequence counts the
  // earlier entries at its address, and it conflicts when the address occurs twice or more.
  function Numbered<T>(items: seq<T>, keys: seq<string>): (r: seq<Entry<T>>)
    requires |items| == |keys|
    ensures |r| == |items|
  {
    seq(|items|, i requires 0 <= i < |items| => EntryAt(items, keys, i))
  }

  function EntryAt<T>(items: seq<T>, keys: seq<string>, i: nat): Entry<T>
    requires i < |items| == |keys|
  {
    Entry(items[i], keys[i], |IndicesOf(keys[..i], keys[i])|, |IndicesOf(keys, keys[i])| >= 2)
  }

  /******* The positions are the right ones *******/

  lemma {:induction false} IndicesAreOccurrences(keys: seq<string>, k: string)
    ensures forall i :: i in IndicesOf(keys, k) <==> 0 <= i < |keys| && keys[i] == k
  {
    if keys != [] {
      var n := |keys| - 1;
      IndicesAreOccurrences(keys[..n], k);
      assert forall i :: 0 <= i < n ==> keys[..n][i] == keys[i];
    }
  }

  // The j-th occurrence has exactly j occurrences before it.
  lemma {:induction false} EarlierOccurrences(keys: seq<string>, k: string, j: nat)
    requires j < |IndicesOf(keys, k)|
    ensures var i := IndicesOf(keys, k)[j];
      i < |keys| && keys[i] == k && |IndicesOf(keys[..i], k)| == j
    decreases |keys|
  {
    var n := |keys| - 1;
    var front := IndicesOf(keys[..n], k);
    if j < |front| {
      EarlierOccurrences(keys[..n], k, j);
      assert keys[..n][..front[j]] == keys[..front[j]];
    }
  }

  /******* What the numbering gives a reader *******/

  // The entries at one address carry 0, 1, 2, ... in file order.
  lemma SequencesCountUp<T>(items: seq<T>, keys: seq<string>, k: string, j: nat)
    requires |items| == |keys| && j < |IndicesOf(keys, k)|
    ensures var e := Numbered(items, keys)[IndicesOf(keys, k)[j]];
      e.key == k && e.conflictSequence == j
  {
    EarlierOccurrences(keys, k, j);
  }

  // An entry conflicts exactly when another entry shares its address.
  lemma ConflictMeansShared<T>(items: seq<T>, keys: seq<string>, i: nat)
    requires i < |items| == |keys|
    ensures Numbered(items, keys)[i].hasConflict
        <==> exists j :: 0 <= j < |items| && j != i && keys[j] == keys[i]
  {
    var r := IndicesOf(keys, keys[i]);
    IndicesAreOccurrences(keys, keys[i]);
    if |r| >= 2 {
      EarlierOccurrences(keys, keys[i], 0);
      EarlierOccurrences(keys, keys[i], 1);
      assert r[0] != i || r[1] != i;
    }
    if |r| < 2 {
      assert i in r;
      assert forall j :: j in r ==> j == r[0];
    }
  }

  // Address and sequence together identify an entry of the file.
  lemma NumberingIdentifies<T>(items: seq<T>, keys: seq<string>, i: nat, j: nat)
    requires i < |items| == |keys| && j < |items|
    requires keys[i] == keys[j]
    requires Numbered(items, keys)[i].conflictSequence == Numbered(items, keys)[j].conflictSequence
    ensures i == j
  {
    var r := IndicesOf(keys, keys[i]);
    IndicesAreOccurrences(keys, keys[i]);
    assert i in r && j in r;
    var a :| 0 <= a < |r| && r[a] == i;
    var b :| 0 <= b < |r| && r[b] == j;
    EarlierOccurrences(keys, keys[i], a);
    EarlierOccurrences(keys, keys[i], b);
  }

  // The rows with the conflict flag set at the given positions.
  function Flagged<T>(entries: seq<Entry<T>>, at: seq<nat>): (r: seq<Entry<T>>)
    ensures |r| == |entries|
  {
    seq(|entries|, i requires 0 <= i < |entries| =>
      if i in at then entries[i].(hasConflict := true) else entries[i])
  }

  // Adding one row renumbers nothing but the conflict flags at its address.
  lemma NumberedNext<T>(items: seq<T>, keys: seq<string>, item: T, k: string)
    requires |items| == |keys|
    ensures var earlier := IndicesOf(keys, k);
      Numbered(items + [item], keys + [k])
      == Flagged(Numbered(items, keys), earlier) + [Entry(item, k, |earlier|, earlier != [])]
  {
    hide IndicesOf;
    var all, earlier := keys + [k], IndicesOf(keys, k);
    assert all[..|keys|] == keys;
    IndicesAreOccurrences(keys, k);
    IndicesNext(keys, k, k);
    forall i | 0 <= i < |items|
      ensures EntryAt(items + [item], all, i) == Flagged(Numbered(items, keys), earlier)[i]
    {
      assert all[..i] == keys[..i];
      IndicesNext(keys, k, keys[i]);
    }
  }

  lemma IndicesNext(keys: seq<string>, k: string, x: string)
    ensures IndicesOf(keys + [k], x) == IndicesOf(keys, x) + if k == x then [|keys|] else []
  {
    assert (keys + [k])[..|keys|] == keys;
  }

  /******* The tracker *******/

  // One file's rows and the map from an address to the rows that carry it.
  class DuplicateTracker<T> {
    var tracker: map<string, seq<nat>>
    var entries: seq<Entry<T>>
    ghost var items: seq<T>      // the rows added so far, without their marks
    ghost var keys: seq<string>  // and their addresses

    ghost predicate Valid()
      reads this
    {
      && |items| == |keys|
      && entries == Numbered(items, keys)
      && TracksKeys(tracker, keys)
    }

    constructor ()
      ensures Valid() && items == [] && keys == []
    {
      tracker := map[];
      entries, items, keys := [], [], [];
    }

    // trackDuplicates followed by the append
    method Add(item: T, k: string)
      requires Valid()
      modifies this
      ensures Valid()
      ensures items == old(items) + [item] && keys == old(keys) + [k]
    {
      NumberedNext(items, keys, item, k);
      TracksNext(tracker, keys, k);
      if k in tracker {
        var existing := tracker[k];
        tracker := tracker[k := existing + [|entries|]];
        Flag(existing);
        entries := entries + [Entry(item, k, |existing|, true)];
      } else {
        tracker := tracker[k := [|entries|]];
        assert Flagged(entries, []) == entries;
        entries := entries + [Entry(item, k, 0, false)];
      }
      items, keys := items + [item], keys + [k];
    }

    // Marks every earlier row at the address, in place.
    method Flag(existing: seq<nat>)
      requires forall n :: 0 <= n < |existing| ==> existing[n] < |entries|
      modifies this`entries
      ensures entries == Flagged(old(entries), existing)
    {
      for n := 0 to |existing|
        invariant entries == Flagged(old(entries), existing[..n])
      {
        var idx := existing[n];
        entries := entries[idx := entries[idx].(hasConflict := true)];
        assert existing[..n + 1] == existing[..n] + [idx];
      }
      assert existing[..|existing|] == existing;
    }
  }

  ghost predicate TracksKeys(tracker: map<string, seq<nat>>, keys: seq<string>) {
    forall k :: (k in tracker <==> IndicesOf(keys, k) != [])
             && (k in tracker ==> tracker[k] == IndicesOf(keys, k))
  }

  lemma TracksNext(tracker: map<string, seq<nat>>, keys: seq<string>, k: string)
    requires TracksKeys(tracker, keys)
    ensures TracksKeys(tracker[k := IndicesOf(keys, k) + [|keys|]], keys + [k])
  {
    hide IndicesOf;
    forall x ensures IndicesOf(keys + [k], x) == IndicesOf(keys, x) + if k == x then [|keys|] else [] {
      IndicesNext(keys, k, x);
    }
  }
}
