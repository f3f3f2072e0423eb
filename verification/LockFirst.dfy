/** The order Close does not use: take the lock, then wait for the collection
    goroutine (the comment at internal/cache/badger.go:396-399). */
module LockFirst {
  import opened CacheLocks

  // Close stops the goroutine and asks for the lock; it waits with the lock held.
  function Apply(s: State, a: Action): State
    requires Enabled(s, a)
  {
    match a
    case Call => s.(closer := WantLock)
    case CloserGrant => s.(closer := Stopping, writer := Held(TheCloser))
    case Join => s.(closer := Closing)
    case _ => CacheLocks.Apply(s, a)
  }

  predicate Legal(s: State, run: seq<Action>)
    decreases |run|
  {
    run == [] || (Enabled(s, run[0]) && Legal(Apply(s, run[0]), run[1..]))
  }

  function Exec(s: State, run: seq<Action>): State
    requires Legal(s, run)
    decreases |run|
  {
    if run == [] then s else Exec(Apply(s, run[0]), run[1..])
  }

  // Close can then wait for a goroutine that waits for the lock: a run to a state
  // without a next step, with Close under way and any number of clients.
  lemma LockFirstDeadlocks(n: nat) returns (run: seq<Action>)
    ensures Legal(Init(n), run)
    ensures var s := Exec(Init(n), run); !s.closer.NotCalled? && !s.closer.Closed? && !CanProceed(s)
  {
    hide Exec, Legal;
    run := [Tick, Purged(true), Call, CloserAnnounce, CloserGrant];
    var s0 := Init(n);
    var s1 := s0.(gc := Purging);
    var s2 := s1.(gc := WantReset);
    var s3 := s2.(closer := WantLock);
    var s4 := s3.(closer := CloserDraining, writer := Pending(TheCloser));
    var s5 := s4.(closer := Stopping, writer := Held(TheCloser));
    NothingLeft(s5);
    OneStep(s4, s5, run, 4);
    OneStep(s3, s4, run, 3);
    OneStep(s2, s3, run, 2);
    OneStep(s1, s2, run, 1);
    OneStep(s0, s1, run, 0);
    assert run[5..] == [] && run[0..] == run;
    StuckHolding(s5);
  }

  lemma NothingLeft(s: State)
    ensures Legal(s, []) && Exec(s, []) == s
  {}

  // From the rest of the run after action i to the rest from it.
  lemma OneStep(s: State, t: State, run: seq<Action>, i: nat)
    requires i < |run| && Enabled(s, run[i]) && Apply(s, run[i]) == t && Legal(t, run[i + 1..])
    ensures Legal(s, run[i..]) && Exec(s, run[i..]) == Exec(t, run[i + 1..])
  {
    assert run[i..][0] == run[i] && run[i..][1..] == run[i + 1..];
  }

  lemma StuckHolding(s: State)
    requires s.closer.Stopping? && s.gc.WantReset? && s.writer == Held(TheCloser)
    requires forall c :: 0 <= c < |s.clients| ==> s.clients[c].Idle?
    ensures !CanProceed(s)
  {}
}
