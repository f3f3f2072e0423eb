/** Choosing one file for each weekly of an archive (cmd/fsxnetarchive/main.go:63-100,
    206-245, 308-374). Reading, unpacking and dating a candidate is an oracle. */
module Archive {

  datatype Reading =
    | Unreadable
    | Undated
    | Weekly(year: int, day: int, content: string, exact: bool)

  datatype Candidate = Candidate(path: string, curated: bool, reading: Reading)

  datatype Slot = Slot(year: int, day: int)

  datatype Resolved = Resolved(content: string, curated: bool)

  datatype Stats = Stats(unreadable: nat, undated: nat, headerDated: nat, guessed: nat,
                         duplicates: nat, conflicts: nat, written: nat)

  function SlotOf(r: Reading): Slot
    requires r.Weekly?
  {
    Slot(r.year, r.day)
  }

  /******* One candidate *******/

  function ResolvedWith(resolved: map<Slot, Resolved>, c: Candidate): map<Slot, Resolved> {
    if !c.reading.Weekly? then resolved
    else
      var slot, mine := SlotOf(c.reading), Resolved(c.reading.content, c.curated);
      if slot !in resolved then resolved[slot := mine]
      else
        var prev := resolved[slot];
        if prev.content == c.reading.content then resolved
        else if (c.curated && !prev.curated) || (c.curated == prev.curated && !c.curated)
        then resolved[slot := mine]
        else resolved
  }

  function StatsWith(resolved: map<Slot, Resolved>, st: Stats, c: Candidate): Stats {
    match c.reading
    case Unreadable => st.(unreadable := st.unreadable + 1)
    case Undated => st.(undated := st.undated + 1)
    case Weekly(y, d, content, exact) =>
      var dated := if exact then st.(headerDated := st.headerDated + 1) else st.(guessed := st.guessed + 1);
      if Slot(y, d) !in resolved then dated
      else if resolved[Slot(y, d)].content == content then dated.(duplicates := st.duplicates + 1)
      else dated.(duplicates := st.duplicates + 1, conflicts := st.conflicts + 1)
  }

  class Builder {
    var resolved: map<Slot, Resolved>
    var st: Stats

    constructor ()
      ensures resolved == map[] && st == Stats(0, 0, 0, 0, 0, 0, 0)
    {
      resolved, st := map[], Stats(0, 0, 0, 0, 0, 0, 0);
    }

    method Resolve(c: Candidate)
      modifies this
      ensures resolved == ResolvedWith(old(resolved), c)
      ensures st == StatsWith(old(resolved), old(st), c)
    {
      if c.reading.Unreadable? {
        st := st.(unreadable := st.unreadable + 1);
        return;
      }
      if c.reading.Undated? {
        st := st.(undated := st.undated + 1);
        return;
      }
      if c.reading.exact {
        st := st.(headerDated := st.headerDated + 1);
      } else {
        st := st.(guessed := st.guessed + 1);
      }
      var slot := SlotOf(c.reading);
      if slot !in resolved {
        resolved := resolved[slot := Resolved(c.reading.content, c.curated)];
        return;
      }
      var prev := resolved[slot];
      st := st.(duplicates := st.duplicates + 1);
      if prev.content == c.reading.content {
        return;
      }
      st := st.(conflicts := st.conflicts + 1);
      if (c.curated && !prev.curated) || (c.curated == prev.curated && !c.curated) {
        resolved := resolved[slot := Resolved(c.reading.content, c.curated)];
      }
    }

    method ResolveAll(cs: seq<Candidate>)
      requires resolved == map[] && st == Stats(0, 0, 0, 0, 0, 0, 0)
      modifies this
      ensures resolved == Slots(cs) && st == Counters(cs)
    {
      for i := 0 to |cs|
        invariant resolved == Slots(cs[..i]) && st == Counters(cs[..i])
      {
        assert cs[..i + 1][..i] == cs[..i];
        Resolve(cs[i]);
      }
      assert cs[..|cs|] == cs;
    }

    // Every slot is published or its write fails; a failure counts as unreadable.
    method WriteAll(fails: set<Slot>) returns (failed: nat)
      modifies this`st
      ensures failed == |resolved.Keys * fails| && failed <= |resolved|
      ensures st == old(st).(unreadable := old(st).unreadable + failed,
                             written := old(st).written + |resolved| - failed)
    {
      var todo := resolved.Keys;
      failed := 0;
      ghost var written := 0;
      while todo != {}
        invariant todo <= resolved.Keys
        invariant failed + |todo * fails| == |resolved.Keys * fails|
        invariant failed + written + |todo| == |resolved|
        invariant st == old(st).(unreadable := old(st).unreadable + failed, written := old(st).written + written)
        decreases |todo|
      {
        var slot :| slot in todo;
        if slot in fails {
          assert todo * fails == (todo - {slot}) * fails + {slot};
          failed := failed + 1;
          st := st.(unreadable := st.unreadable + 1);
        } else {
          assert todo * fails == (todo - {slot}) * fails;
          written := written + 1;
          st := st.(written := st.written + 1);
        }
        todo := todo - {slot};
      }
    }

    // The build from the collected candidates to the counters it reports.
    method Build(cs: seq<Candidate>, fails: set<Slot>)
      requires resolved == map[] && st == Stats(0, 0, 0, 0, 0, 0, 0)
      modifies this
      ensures resolved == Slots(cs) && st == Reported(cs, fails)
    {
      ResolveAll(cs);
      var failed := WriteAll(fails);
      CountersBalance(cs);
    }
  }

  /******* All candidates *******/

  function Slots(cs: seq<Candidate>): map<Slot, Resolved> {
    if cs == [] then map[] else ResolvedWith(Slots(cs[..|cs| - 1]), cs[|cs| - 1])
  }

  function Counters(cs: seq<Candidate>): Stats {
    if cs == [] then Stats(0, 0, 0, 0, 0, 0, 0)
    else StatsWith(Slots(cs[..|cs| - 1]), Counters(cs[..|cs| - 1]), cs[|cs| - 1])
  }

  // The counters once the slots are written, some of which fail.
  function Reported(cs: seq<Candidate>, fails: set<Slot>): Stats {
    var st, failed := Counters(cs), |Slots(cs).Keys * fails|;
    FailedAtMost(Slots(cs).Keys, fails);
    st.(unreadable := st.unreadable + failed, written := |Slots(cs)| - failed)
  }

  lemma FailedAtMost(slots: set<Slot>, fails: set<Slot>)
    ensures |slots * fails| <= |slots|
  {
    assert slots == slots * fails + (slots - fails);
  }

  // The order in which the candidates are collected: curated before history.
  predicate Collected(cs: seq<Candidate>) {
    forall i, j :: 0 <= i < j < |cs| && cs[j].curated ==> cs[i].curated
  }

  predicate At(cs: seq<Candidate>, i: int, slot: Slot) {
    0 <= i < |cs| && cs[i].reading.Weekly? && SlotOf(cs[i].reading) == slot
  }

  // The winner of a slot: the first curated candidate, or else the last one of all.
  predicate Wins(cs: seq<Candidate>, i: int, slot: Slot) {
    At(cs, i, slot) &&
    if cs[i].curated then forall j :: 0 <= j < i ==> !At(cs, j, slot)
    else forall j :: 0 <= j < |cs| && At(cs, j, slot) ==> !cs[j].curated && j <= i
  }

  lemma CollectedPrefix(cs: seq<Candidate>)
    requires Collected(cs) && cs != []
    ensures Collected(cs[..|cs| - 1])
  {}

  // Folding the candidates in the collected order publishes, for every year and
  // day, the first curated content or else the last one from history.
  lemma {:induction false} WinnerIsPublished(cs: seq<Candidate>, slot: Slot)
    requires Collected(cs)
    ensures slot in Slots(cs) <==> exists i :: At(cs, i, slot)
    ensures slot in Slots(cs) ==>
      exists i :: Wins(cs, i, slot) && Slots(cs)[slot].content == cs[i].reading.content
                  && (cs[i].curated <==> Slots(cs)[slot].curated)
    decreases |cs|
  {
    if cs != [] {
      var before, n := cs[..|cs| - 1], |cs| - 1;
      CollectedPrefix(cs);
      WinnerIsPublished(before, slot);
      forall i | 0 <= i < n ensures At(cs, i, slot) == At(before, i, slot) {}
      if At(cs, n, slot) {
        if slot !in Slots(before) {
          assert Wins(cs, n, slot);
        } else {
          var i :| Wins(before, i, slot) && Slots(before)[slot].content == before[i].reading.content
                   && (before[i].curated <==> Slots(before)[slot].curated);
          RivalWins(cs, i, slot);
        }
      } else if slot in Slots(before) {
        var i :| Wins(before, i, slot) && Slots(before)[slot].content == before[i].reading.content
                 && (before[i].curated <==> Slots(before)[slot].curated);
        assert Wins(cs, i, slot);
      }
    }
  }

  // A second candidate for a slot: a curated holder keeps it, a historical one yields.
  lemma RivalWins(cs: seq<Candidate>, i: int, slot: Slot)
    requires cs != [] && Collected(cs) && Wins(cs[..|cs| - 1], i, slot) && At(cs, |cs| - 1, slot)
    ensures Wins(cs, if cs[i].curated then i else |cs| - 1, slot)
  {
    var before, n := cs[..|cs| - 1], |cs| - 1;
    forall j | 0 <= j < n ensures At(cs, j, slot) == At(before, j, slot) {}
  }

  // Every candidate is counted once; the dated ones are the slots and the duplicates.
  lemma {:induction false} CountersBalance(cs: seq<Candidate>)
    ensures var st := Counters(cs);
      && st.unreadable + st.undated + st.headerDated + st.guessed == |cs|
      && st.headerDated + st.guessed == |Slots(cs)| + st.duplicates
      && st.conflicts <= st.duplicates && st.written == 0
    decreases |cs|
  {
    if cs != [] {
      CountersBalance(cs[..|cs| - 1]);
      SlotAdded(Slots(cs[..|cs| - 1]), cs[|cs| - 1]);
    }
  }

  // As reported, the counters add up to the candidates and the failed writes: they
  // balance exactly when no slot fails. The rest of the slots are written.
  lemma {:induction false} ReportBalances(cs: seq<Candidate>, fails: set<Slot>)
    ensures var st, failed := Reported(cs, fails), |Slots(cs).Keys * fails|;
      && st.unreadable + st.undated + st.headerDated + st.guessed == |cs| + failed
      && st.headerDated + st.guessed == st.written + failed + st.duplicates
      && (st.unreadable + st.undated + st.headerDated + st.guessed == |cs| <==> Slots(cs).Keys !! fails)
  {
    CountersBalance(cs);
    FailedAtMost(Slots(cs).Keys, fails);
    hide Counters, Slots;
    var keys := Slots(cs).Keys;
    if slot :| slot in keys && slot in fails {
      assert slot in keys * fails;
    }
  }

  lemma SlotAdded(resolved: map<Slot, Resolved>, c: Candidate)
    ensures |ResolvedWith(resolved, c)| == |resolved| +
      if c.reading.Weekly? && SlotOf(c.reading) !in resolved then 1 else 0
  {
    if c.reading.Weekly? {
      SlotHeld(resolved, c);
      hide ResolvedWith;
      var keys := ResolvedWith(resolved, c).Keys;
      assert |ResolvedWith(resolved, c)| == |keys| && |resolved| == |resolved.Keys|;
    }
  }

  lemma SlotHeld(resolved: map<Slot, Resolved>, c: Candidate)
    requires c.reading.Weekly?
    ensures ResolvedWith(resolved, c).Keys == resolved.Keys + {SlotOf(c.reading)}
    ensures SlotOf(c.reading) in resolved ==> resolved.Keys + {SlotOf(c.reading)} == resolved.Keys
  {}

  function CountOf(cs: seq<Candidate>, p: Candidate -> bool): nat {
    if cs == [] then 0 else CountOf(cs[..|cs| - 1], p) + if p(cs[|cs| - 1]) then 1 else 0
  }

  // Another candidate of the slot came before it.
  predicate Repeats(cs: seq<Candidate>, i: nat)
    requires i < |cs|
  {
    cs[i].reading.Weekly?
    && exists j :: 0 <= j < i && cs[j].reading.Weekly? && SlotOf(cs[j].reading) == SlotOf(cs[i].reading)
  }

  // And what the slot held then was not the same.
  predicate Conflicts(cs: seq<Candidate>, i: nat)
    requires i < |cs|
  {
    Repeats(cs, i) && var slot := SlotOf(cs[i].reading);
      slot in Slots(cs[..i]) && Slots(cs[..i])[slot].content != cs[i].reading.content
  }

  function RepeatCount(cs: seq<Candidate>): nat {
    if cs == [] then 0 else RepeatCount(cs[..|cs| - 1]) + if Repeats(cs, |cs| - 1) then 1 else 0
  }

  function ConflictCount(cs: seq<Candidate>): nat {
    if cs == [] then 0 else ConflictCount(cs[..|cs| - 1]) + if Conflicts(cs, |cs| - 1) then 1 else 0
  }

  // What each counter counts: candidates that cannot be read, that cannot be dated,
  // that their header dates, that are guessed, that repeat a slot, and that differ
  // from what the slot held.
  lemma {:induction false} CountersMean(cs: seq<Candidate>)
    ensures var st := Counters(cs);
      && st.unreadable == CountOf(cs, (c: Candidate) => c.reading.Unreadable?)
      && st.undated == CountOf(cs, (c: Candidate) => c.reading.Undated?)
      && st.headerDated == CountOf(cs, (c: Candidate) => c.reading.Weekly? && c.reading.exact)
      && st.guessed == CountOf(cs, (c: Candidate) => c.reading.Weekly? && !c.reading.exact)
      && st.duplicates == RepeatCount(cs) && st.conflicts == ConflictCount(cs)
    ensures forall slot :: slot in Slots(cs) <==> exists j :: At(cs, j, slot)
    decreases |cs|
  {
    if cs != [] {
      var before, n := cs[..|cs| - 1], |cs| - 1;
      CountersMean(before);
      SlotsGrow(before, cs[n]);
      assert cs == before + [cs[n]];
      assert cs[n].reading.Weekly? ==> (Repeats(cs, n) <==> SlotOf(cs[n].reading) in Slots(before)) by {
        if cs[n].reading.Weekly? {
          RepeatsIff(cs, n);
        }
      }
      forall slot ensures slot in Slots(cs) <==> exists j :: At(cs, j, slot) {
        AtNext(before, cs[n], slot);
      }
    }
  }

  lemma SlotsGrow(before: seq<Candidate>, c: Candidate)
    ensures forall slot :: slot in Slots(before + [c]) <==>
      slot in Slots(before) || (c.reading.Weekly? && SlotOf(c.reading) == slot)
  {
    assert (before + [c])[..|before|] == before;
  }

  lemma RepeatsIff(cs: seq<Candidate>, n: nat)
    requires n == |cs| - 1 && cs[n].reading.Weekly?
    ensures Repeats(cs, n) <==> exists j :: At(cs[..n], j, SlotOf(cs[n].reading))
  {
    var slot := SlotOf(cs[n].reading);
    forall j | 0 <= j < n ensures At(cs[..n], j, slot) <==> cs[j].reading.Weekly? && SlotOf(cs[j].reading) == slot {}
  }

  lemma AtNext(before: seq<Candidate>, c: Candidate, slot: Slot)
    ensures (exists j :: At(before + [c], j, slot)) <==>
      (exists j :: At(before, j, slot)) || (c.reading.Weekly? && SlotOf(c.reading) == slot)
  {
    var cs := before + [c];
    forall j ensures At(cs, j, slot) <==> At(before, j, slot) || (j == |before| && At(cs, j, slot)) {}
    assert c.reading.Weekly? && SlotOf(c.reading) == slot ==> At(cs, |before|, slot);
  }
}
