/** The disk-budget policy of the on-disk cache (internal/cache/badger.go:424-571):
    suspend writes over the limit, resume at nine tenths of it, reset the store
    when draining does not help. Sizes are whole megabytes. */
module DiskBudget {

  const RESET_AFTER_TICKS := 3

  // One measurement by the collection goroutine, and whether a reset would succeed.
  datatype Tick = Tick(totalMB: int, dropSucceeds: bool)

  datatype Budget = Budget(blocked: bool, overTicks: nat)

  const OPEN := Budget(false, 0)

  function ResumeMB(limit: int): int {
    limit * 9 / 10
  }

  predicate Over(limit: int, t: Tick) {
    t.totalMB > limit
  }

  predicate ResetsAt(limit: int, b: Budget, t: Tick) {
    b.blocked && t.totalMB > ResumeMB(limit) && Over(limit, t) && b.overTicks + 1 >= RESET_AFTER_TICKS
  }

  function Next(limit: int, b: Budget, t: Tick): Budget {
    if b.blocked && t.totalMB <= ResumeMB(limit) then OPEN
    else if ResetsAt(limit, b, t) then (if t.dropSucceeds then OPEN else Budget(true, b.overTicks + 1))
    else if b.blocked && Over(limit, t) then Budget(true, b.overTicks + 1)
    else if !b.blocked && Over(limit, t) then Budget(true, 1)
    else b
  }

  class BadgerCache {
    const maxDiskMB: int
    var admissionBlocked: bool
    var overBudgetTicks: nat
    var resets: nat       // attempts

    constructor (limit: int)
      ensures maxDiskMB == limit && State() == OPEN && resets == 0
    {
      maxDiskMB, admissionBlocked, overBudgetTicks, resets := limit, false, 0, 0;
    }

    function State(): Budget
      reads this
    {
      Budget(admissionBlocked, overBudgetTicks)
    }

    // No cap when the limit is zero or negative.
    method EnforceDiskBudget(t: Tick)
      modifies this
      ensures State() == if maxDiskMB <= 0 then old(State()) else Next(maxDiskMB, old(State()), t)
      ensures resets == old(resets) + if maxDiskMB > 0 && ResetsAt(maxDiskMB, old(State()), t) then 1 else 0
    {
      if maxDiskMB > 0 {
        ApplyDiskBudget(t);
      }
    }

    method ApplyDiskBudget(t: Tick)
      modifies this
      ensures State() == Next(maxDiskMB, old(State()), t)
      ensures resets == old(resets) + if ResetsAt(maxDiskMB, old(State()), t) then 1 else 0
    {
      var resume := ResumeMB(maxDiskMB);
      if admissionBlocked && t.totalMB <= resume {
        admissionBlocked := false;
        overBudgetTicks := 0;
      } else if admissionBlocked && t.totalMB > maxDiskMB {
        overBudgetTicks := overBudgetTicks + 1;
        if overBudgetTicks >= RESET_AFTER_TICKS {
          Reset(t.dropSucceeds);
        }
      } else if admissionBlocked {
        // draining: neither counted nor cleared
      } else if t.totalMB > maxDiskMB {
        admissionBlocked := true;
        overBudgetTicks := 1;
      }
    }

    // A failed reset stays suspended and keeps the count.
    method Reset(dropSucceeds: bool)
      modifies this
      ensures resets == old(resets) + 1
      ensures State() == if dropSucceeds then OPEN else old(State())
    {
      resets := resets + 1;
      if !dropSucceeds {
        return;
      }
      admissionBlocked := false;
      overBudgetTicks := 0;
    }
  }

  /******* Every run *******/

  function After(limit: int, ts: seq<Tick>): Budget {
    if ts == [] then OPEN else Next(limit, After(limit, ts[..|ts| - 1]), ts[|ts| - 1])
  }

  function CountOver(limit: int, ts: seq<Tick>): nat {
    if ts == [] then 0 else CountOver(limit, ts[..|ts| - 1]) + if Over(limit, ts[|ts| - 1]) then 1 else 0
  }

  // Writes are suspended after the first n ticks.
  predicate BlockedAfter(limit: int, ts: seq<Tick>, n: int)
    requires 0 <= n <= |ts|
  {
    After(limit, ts[..n]).blocked
  }

  // The tick that suspended writes, with no resumption since.
  ghost predicate SuspendedSince(limit: int, ts: seq<Tick>, i: nat) {
    && i < |ts| && !BlockedAfter(limit, ts, i) && Over(limit, ts[i])
    && (forall j :: i < j < |ts| ==> ts[j].totalMB > ResumeMB(limit))
    && (forall j :: i < j <= |ts| ==> BlockedAfter(limit, ts, j))
  }

  lemma Extend(limit: int, ts: seq<Tick>, t: Tick)
    ensures After(limit, ts + [t]) == Next(limit, After(limit, ts), t)
    ensures CountOver(limit, ts + [t]) == CountOver(limit, ts) + if Over(limit, t) then 1 else 0
  {
    assert (ts + [t])[..|ts|] == ts;
  }

  // Writes are suspended exactly when the counter is positive, and then the
  // counter is the number of over-limit ticks since the suspension, the
  // suspending one included.
  lemma {:induction false} CounterMeaning(limit: int, ts: seq<Tick>)
    requires limit > 0
    ensures After(limit, ts).blocked <==> After(limit, ts).overTicks > 0
    ensures After(limit, ts).blocked ==>
      exists i :: 0 <= i < |ts| && SuspendedSince(limit, ts, i)
                  && After(limit, ts).overTicks == CountOver(limit, ts[i..])
    decreases |ts|
  {
    if ts != [] {
      var before, n := ts[..|ts| - 1], |ts| - 1;
      CounterMeaning(limit, before);
      if After(limit, ts).blocked {
        if !After(limit, before).blocked {
          SuspendsNow(limit, ts);
        } else {
          var i :| 0 <= i < |before| && SuspendedSince(limit, before, i)
                   && After(limit, before).overTicks == CountOver(limit, before[i..]);
          StaysSuspended(limit, ts, i);
        }
      }
    }
  }

  lemma SuspendsNow(limit: int, ts: seq<Tick>)
    requires ts != [] && After(limit, ts).blocked && !After(limit, ts[..|ts| - 1]).blocked
    ensures SuspendedSince(limit, ts, |ts| - 1)
    ensures After(limit, ts).overTicks == CountOver(limit, ts[|ts| - 1..]) == 1
  {
    var n := |ts| - 1;
    assert ts[..|ts|] == ts;
    assert ts[n..][..0] == [] && ts[n..][0] == ts[n];
  }

  lemma StaysSuspended(limit: int, ts: seq<Tick>, i: nat)
    requires ts != [] && After(limit, ts).blocked && After(limit, ts[..|ts| - 1]).blocked
    requires SuspendedSince(limit, ts[..|ts| - 1], i)
    requires After(limit, ts[..|ts| - 1]).overTicks == CountOver(limit, ts[..|ts| - 1][i..])
    ensures SuspendedSince(limit, ts, i) && After(limit, ts).overTicks == CountOver(limit, ts[i..])
  {
    var before, n := ts[..|ts| - 1], |ts| - 1;
    assert After(limit, ts) == Next(limit, After(limit, before), ts[n]);
    StillBlocked(limit, After(limit, before), ts[n]);
    assert ts[..|ts|] == ts;
    forall j | 0 <= j < |ts| ensures BlockedAfter(limit, ts, j) == BlockedAfter(limit, before, j) {
      assert ts[..j] == before[..j];
    }
    assert BlockedAfter(limit, ts, |ts|);
    hide After, Next, CountOver, ResumeMB, Over, BlockedAfter;
    assert ts[i..] == before[i..] + [ts[n]];
    Extend(limit, before[i..], ts[n]);
  }

  // One more tick under suspension.
  lemma StillBlocked(limit: int, b: Budget, t: Tick)
    requires b.blocked && Next(limit, b, t).blocked
    ensures t.totalMB > ResumeMB(limit)
    ensures Next(limit, b, t).overTicks == b.overTicks + if Over(limit, t) then 1 else 0
  {}

  // A reset is attempted exactly on an over-limit tick that brings the over-limit
  // ticks since the suspension to three or more.
  lemma ResetIff(limit: int, ts: seq<Tick>, t: Tick)
    requires limit > 0
    ensures ResetsAt(limit, After(limit, ts), t) <==>
      Over(limit, t) && exists i :: 0 <= i < |ts| && SuspendedSince(limit, ts, i)
                             && CountOver(limit, ts[i..]) + 1 >= 3
  {
    CounterMeaning(limit, ts);
    assert ts[..|ts|] == ts;
    assert BlockedAfter(limit, ts, |ts|) == After(limit, ts).blocked;
    hide After, BlockedAfter, CountOver, Over;
    if After(limit, ts).blocked {
      var i :| 0 <= i < |ts| && SuspendedSince(limit, ts, i) && After(limit, ts).overTicks == CountOver(limit, ts[i..]);
      forall j | 0 <= j < |ts| && SuspendedSince(limit, ts, j) ensures j == i {
        OneSuspension(limit, ts, i, j);
      }
    }
  }

  lemma OneSuspension(limit: int, ts: seq<Tick>, i: nat, j: nat)
    requires SuspendedSince(limit, ts, i) && SuspendedSince(limit, ts, j)
    ensures i == j
  {}

  // Tick j resets the store with success.
  predicate ResetSucceedsAt(limit: int, ts: seq<Tick>, j: nat)
    requires j < |ts|
  {
    ResetsAt(limit, After(limit, ts[..j]), ts[j]) && ts[j].dropSucceeds
  }

  // The resume mark is nine tenths of the limit.
  lemma NineTenths(limit: int, totalMB: int)
    ensures totalMB <= ResumeMB(limit) <==> 10 * totalMB <= 9 * limit
  {}

  // Tick i is over the limit, and no later tick was at nine tenths of it or below
  // and no reset succeeded since.
  ghost predicate NothingFreed(limit: int, ts: seq<Tick>, i: nat)
    requires i < |ts|
  {
    && Over(limit, ts[i])
    && (forall j :: i < j < |ts| ==> 10 * ts[j].totalMB > 9 * limit)
    && (forall j :: i <= j < |ts| ==> !ResetSucceedsAt(limit, ts, j))
  }

  // Over every run writes are suspended exactly when some tick was over the limit
  // and since then none was at the resume mark and no reset succeeded.
  lemma SuspendedIff(limit: int, ts: seq<Tick>)
    requires limit > 0
    ensures After(limit, ts).blocked <==> exists i: nat :: i < |ts| && NothingFreed(limit, ts, i)
  {
    assert ts[..|ts|] == ts;
    forall j | 0 <= j < |ts| { NineTenths(limit, ts[j].totalMB); }
    if After(limit, ts).blocked {
      CounterMeaning(limit, ts);
      var i: nat :| i < |ts| && SuspendedSince(limit, ts, i);
      forall j | i <= j < |ts| ensures !ResetSucceedsAt(limit, ts, j) {
        OpensByReset(limit, ts, j);
        assert BlockedAfter(limit, ts, j + 1);
      }
      assert NothingFreed(limit, ts, i);
    } else if i: nat :| i < |ts| && NothingFreed(limit, ts, i) {
      StaysBlocked(limit, ts, i, |ts|);
    }
  }

  lemma OpensByReset(limit: int, ts: seq<Tick>, j: nat)
    requires j < |ts|
    ensures ResetSucceedsAt(limit, ts, j) ==> !BlockedAfter(limit, ts, j + 1)
    ensures After(limit, ts[..j + 1]) == Next(limit, After(limit, ts[..j]), ts[j])
  {
    assert ts[..j + 1][..j] == ts[..j];
  }

  lemma {:induction false} StaysBlocked(limit: int, ts: seq<Tick>, i: nat, n: nat)
    requires limit > 0 && i < n <= |ts| && NothingFreed(limit, ts, i)
    ensures BlockedAfter(limit, ts, n)
    decreases n
  {
    OpensByReset(limit, ts, n - 1);
    NineTenths(limit, ts[n - 1].totalMB);
    assert ResumeMB(limit) <= limit && !ResetSucceedsAt(limit, ts, n - 1);
    if i < n - 1 {
      StaysBlocked(limit, ts, i, n - 1);
    }
  }

  // The ticks outside the band between the marks.
  function OutsideBand(limit: int, ts: seq<Tick>): seq<Tick> {
    if ts == [] then []
    else OutsideBand(limit, ts[..|ts| - 1])
         + if ResumeMB(limit) < ts[|ts| - 1].totalMB <= limit then [] else [ts[|ts| - 1]]
  }

  function Resets(limit: int, ts: seq<Tick>): nat {
    if ts == [] then 0
    else Resets(limit, ts[..|ts| - 1]) + if ResetsAt(limit, After(limit, ts[..|ts| - 1]), ts[|ts| - 1]) then 1 else 0
  }

  // However many ticks fall between the marks, and wherever in the run: without
  // them the fields and the number of reset attempts are the same.
  lemma {:induction false} BandsDoNotMatter(limit: int, ts: seq<Tick>)
    ensures After(limit, ts) == After(limit, OutsideBand(limit, ts))
    ensures Resets(limit, ts) == Resets(limit, OutsideBand(limit, ts))
    decreases |ts|
  {
    if ts != [] {
      var before, t := ts[..|ts| - 1], ts[|ts| - 1];
      BandsDoNotMatter(limit, before);
      var kept := OutsideBand(limit, before);
      Extend(limit, kept, t);
      assert (kept + [t])[..|kept|] == kept && kept + [] == kept;
    }
  }

  // So the counted ticks need not be consecutive.
  lemma ResetNeedsNoRow(limit: int, over: int, within: int)
    requires limit > 0 && over > limit && ResumeMB(limit) < within <= limit
    ensures var t := Tick(over, true);
      ResetsAt(limit, After(limit, [t, t, Tick(within, true)]), t)
  {
    var t, u := Tick(over, true), Tick(within, true);
    assert [] + [t] == [t] && [t] + [t] == [t, t] && [t, t] + [u] == [t, t, u];
    Extend(limit, [], t);
    Extend(limit, [t], t);
    Extend(limit, [t, t], u);
  }

  // While resets succeed, writes are never suspended for three over-limit ticks.
  lemma {:induction false} WorkingResetBounds(limit: int, ts: seq<Tick>)
    requires limit > 0 && forall i :: 0 <= i < |ts| ==> ts[i].dropSucceeds
    ensures After(limit, ts).overTicks < 3
    decreases |ts|
  {
    if ts != [] {
      WorkingResetBounds(limit, ts[..|ts| - 1]);
    }
  }
}
