/** Readers, the collection goroutine and Close around the lock that guards the
    on-disk cache (internal/cache/badger.go:25-44, 151-153, 395-424, 541-576).
    A pending writer keeps new readers out, as Go's RWMutex does. */
module CacheLocks {

  // A goroutine using the cache: its operations run under the read lock.
  datatype Client = Idle | Wanting | Operating

  // The collection goroutine. Measuring is under the read lock, Dropping under
  // the write lock; Purging collects the value log under none.
  datatype Gc = Selecting | Purging | WantReset | GcDraining | Dropping | WantMeasure | Measuring | Exited

  // Close: stop the goroutine, wait for it, lock, close the database.
  datatype Closer = NotCalled | Stopping | WantLock | CloserDraining | Closing | Closed

  datatype Who = TheGc | TheCloser

  datatype Writer = NoWriter | Pending(who: Who) | Held(who: Who)

  datatype State = State(clients: seq<Client>, gc: Gc, closer: Closer, writer: Writer)

  datatype Action =
    | Request(c: nat) | RLock(c: nat) | RUnlock(c: nat)
    | Tick | Stop | Purged(reset: bool) | GcAnnounce | GcGrant | Dropped | GcRLock | GcRUnlock
    | Call | Join | CloserAnnounce | CloserGrant | CloseDone

  function Init(clients: nat): State {
    State(seq(clients, _ => Idle), Selecting, NotCalled, NoWriter)
  }

  predicate NoReaders(s: State) {
    !s.gc.Measuring? && forall c :: 0 <= c < |s.clients| ==> !s.clients[c].Operating?
  }

  predicate Enabled(s: State, a: Action) {
    match a
    case Request(c) => c < |s.clients| && s.clients[c].Idle?
    case RLock(c) => c < |s.clients| && s.clients[c].Wanting? && s.writer.NoWriter?
    case RUnlock(c) => c < |s.clients| && s.clients[c].Operating?
    case Tick => s.gc.Selecting?
    case Stop => s.gc.Selecting? && !s.closer.NotCalled?
    case Purged(_) => s.gc.Purging?
    case GcAnnounce => s.gc.WantReset? && s.writer.NoWriter?
    case GcGrant => s.gc.GcDraining? && NoReaders(s)
    case Dropped => s.gc.Dropping?
    case GcRLock => s.gc.WantMeasure? && s.writer.NoWriter?
    case GcRUnlock => s.gc.Measuring?
    case Call => s.closer.NotCalled?
    case Join => s.closer.Stopping? && s.gc.Exited?
    case CloserAnnounce => s.closer.WantLock? && s.writer.NoWriter?
    case CloserGrant => s.closer.CloserDraining? && NoReaders(s)
    case CloseDone => s.closer.Closing?
  }

  function Apply(s: State, a: Action): State
    requires Enabled(s, a)
  {
    match a
    case Request(c) => s.(clients := s.clients[c := Wanting])
    case RLock(c) => s.(clients := s.clients[c := Operating])
    case RUnlock(c) => s.(clients := s.clients[c := Idle])
    case Tick => s.(gc := Purging)
    case Stop => s.(gc := Exited)
    case Purged(reset) => s.(gc := if reset then WantReset else WantMeasure)
    case GcAnnounce => s.(gc := GcDraining, writer := Pending(TheGc))
    case GcGrant => s.(gc := Dropping, writer := Held(TheGc))
    case Dropped => s.(gc := WantMeasure, writer := NoWriter)
    case GcRLock => s.(gc := Measuring)
    case GcRUnlock => s.(gc := Selecting)
    case Call => s.(closer := Stopping)
    case Join => s.(closer := WantLock)
    case CloserAnnounce => s.(closer := CloserDraining, writer := Pending(TheCloser))
    case CloserGrant => s.(closer := Closing, writer := Held(TheCloser))
    case CloseDone => s.(closer := Closed, writer := NoWriter)
  }

  predicate Legal(s: State, run: seq<Action>)
    decreases |run|
  {
    run == [] || (Enabled(s, run[0]) && Legal(Apply(s, run[0]), run[1..]))
  }

  function Exec(s: State, run: seq<Action>): State
    requires Legal(s, run)
    decreases |run|
  {
    if run == [] then s else Exec(Apply(s, run[0]), run[1..])
  }

  ghost predicate Reachable(n: nat, s: State) {
    exists run :: Legal(Init(n), run) && Exec(Init(n), run) == s
  }

  /******* What every step keeps *******/

  ghost predicate Inv(s: State) {
    // the lock's writer is the one goroutine that is waiting for it or has it
    && (s.writer == Pending(TheGc) <==> s.gc.GcDraining?)
    && (s.writer == Held(TheGc) <==> s.gc.Dropping?)
    && (s.writer == Pending(TheCloser) <==> s.closer.CloserDraining?)
    && (s.writer == Held(TheCloser) <==> s.closer.Closing?)
    && (s.writer.Held? ==> NoReaders(s))
    && (s.gc.Exited? ==> !s.closer.NotCalled?)
    && (s.closer.WantLock? || s.closer.CloserDraining? || s.closer.Closing? || s.closer.Closed? ==> s.gc.Exited?)
  }

  lemma InvKept(s: State, a: Action)
    requires Inv(s) && Enabled(s, a)
    ensures Inv(Apply(s, a))
  {}

  lemma {:induction false} RunInv(s: State, run: seq<Action>)
    requires Inv(s) && Legal(s, run)
    ensures Inv(Exec(s, run))
    decreases |run|
  {
    hide Inv, Enabled, Apply;
    if run != [] {
      InvKept(s, run[0]);
      RunInv(Apply(s, run[0]), run[1..]);
    }
  }

  lemma ReachableInv(n: nat, s: State)
    requires Reachable(n, s)
    ensures Inv(s)
  {
    var run :| Legal(Init(n), run) && Exec(Init(n), run) == s;
    RunInv(Init(n), run);
  }

  // In every interleaving: while the store is dropped or the database closed, no
  // operation is in flight; not both happen at once; and the goroutine has
  // returned before the database is closed.
  lemma DropAndCloseExclusive(n: nat, s: State)
    requires Reachable(n, s)
    ensures s.gc.Dropping? || s.closer.Closing? ==> NoReaders(s)
    ensures !(s.gc.Dropping? && s.closer.Closing?)
    ensures s.closer.Closing? || s.closer.Closed? ==> s.gc.Exited?
  {
    ReachableInv(n, s);
  }

  /******* Close finishes *******/

  // New requests and new ticks aside.
  predicate Progress(a: Action) {
    !a.Request? && !a.Tick? && !a.Call?
  }

  ghost predicate CanProceed(s: State) {
    exists a :: Progress(a) && Enabled(s, a)
  }

  lemma WriterKinds(w: Writer)
    ensures w == NoWriter || w == Pending(TheGc) || w == Pending(TheCloser) || w == Held(TheGc) || w == Held(TheCloser)
  {
    match w {
      case NoWriter =>
      case Pending(who) => assert who == TheGc || who == TheCloser;
      case Held(who) => assert who == TheGc || who == TheCloser;
    }
  }

  // No reachable state with Close under way is stuck.
  lemma CloseNeverStuck(n: nat, s: State)
    requires Reachable(n, s) && !s.closer.NotCalled? && !s.closer.Closed?
    ensures CanProceed(s)
  {
    ReachableInv(n, s);
    SomeoneProceeds(s);
  }

  lemma SomeoneProceeds(s: State)
    requires Inv(s) && !s.closer.NotCalled? && !s.closer.Closed?
    ensures CanProceed(s)
  {
    WriterKinds(s.writer);
    if c :| 0 <= c < |s.clients| && s.clients[c].Operating? {
      assert Enabled(s, RUnlock(c));
    } else {
      match s.gc {
        case Selecting => assert Enabled(s, Stop);
        case Purging => assert Enabled(s, Purged(false));
        case WantReset => assert Enabled(s, GcAnnounce);
        case GcDraining => assert Enabled(s, GcGrant);
        case Dropping => assert Enabled(s, Dropped);
        case WantMeasure => assert Enabled(s, GcRLock);
        case Measuring => assert Enabled(s, GcRUnlock);
        case Exited =>
          assert Enabled(s, Join) || Enabled(s, CloserAnnounce)
            || Enabled(s, CloserGrant) || Enabled(s, CloseDone);
      }
    }
  }

  // Steps the goroutines have left once there are no new requests and ticks.
  function ClientsLeft(cs: seq<Client>): nat {
    if cs == [] then 0 else (match cs[0] case Idle => 0 case Wanting => 2 case Operating => 1) + ClientsLeft(cs[1..])
  }

  function GcLeft(gc: Gc): nat {
    match gc
    case Exited => 0 case Selecting => 1 case Measuring => 2 case WantMeasure => 3
    case Dropping => 4 case GcDraining => 5 case WantReset => 6 case Purging => 7
  }

  function CloserLeft(k: Closer): nat {
    match k
    case Closed => 0 case Closing => 1 case CloserDraining => 2
    case WantLock => 3 case Stopping => 4 case NotCalled => 5
  }

  function StepsLeft(s: State): nat {
    ClientsLeft(s.clients) + GcLeft(s.gc) + CloserLeft(s.closer)
  }

  lemma {:induction false} ClientMoves(cs: seq<Client>, c: nat, k: Client)
    requires c < |cs|
    requires (cs[c].Wanting? && k.Operating?) || (cs[c].Operating? && k.Idle?)
    ensures ClientsLeft(cs[c := k]) < ClientsLeft(cs)
    decreases |cs|
  {
    if c == 0 {
      assert cs[0 := k][1..] == cs[1..];
    } else {
      ClientMoves(cs[1..], c - 1, k);
      assert cs[c := k][1..] == cs[1..][c - 1 := k];
    }
  }

  lemma ProgressMoves(s: State, a: Action)
    requires Progress(a) && Enabled(s, a)
    ensures StepsLeft(Apply(s, a)) < StepsLeft(s)
  {
    if a.RLock? {
      ClientMoves(s.clients, a.c, Operating);
    } else if a.RUnlock? {
      ClientMoves(s.clients, a.c, Idle);
    }
  }

  predicate AllProgress(run: seq<Action>) {
    forall i :: 0 <= i < |run| ==> Progress(run[i])
  }

  // Without new requests and ticks a run is at most StepsLeft long.
  lemma {:induction false} ProgressIsBounded(s: State, run: seq<Action>)
    requires Legal(s, run) && AllProgress(run)
    ensures |run| + StepsLeft(Exec(s, run)) <= StepsLeft(s)
    decreases |run|
  {
    hide Enabled, Apply, StepsLeft;
    if run != [] {
      ProgressMoves(s, run[0]);
      assert forall i :: 0 <= i < |run| - 1 ==> run[1..][i] == run[i + 1];
      ProgressIsBounded(Apply(s, run[0]), run[1..]);
    }
  }

  // So every run of Close ends: from any state with Close under way, however far
  // the steps have gone, the remaining ones lead to the closed cache.
  lemma {:induction false} CloseCompletes(s: State)
    requires Inv(s) && !s.closer.NotCalled?
    ensures exists run :: Legal(s, run) && AllProgress(run) && Exec(s, run).closer.Closed?
    decreases StepsLeft(s)
  {
    hide Inv, Enabled, Apply, StepsLeft, Progress;
    if s.closer.Closed? {
      assert Legal(s, []) && AllProgress([]) && Exec(s, []) == s;
    } else {
      SomeoneProceeds(s);
      var a :| Progress(a) && Enabled(s, a);
      var t := Apply(s, a);
      ProgressMoves(s, a);
      InvKept(s, a);
      StaysCalled(s, a);
      CloseCompletes(t);
      var rest :| Legal(t, rest) && AllProgress(rest) && Exec(t, rest).closer.Closed?;
      var run := [a] + rest;
      assert run[0] == a && run[1..] == rest;
      assert Legal(s, run) && AllProgress(run) && Exec(s, run) == Exec(t, rest);
    }
  }

  lemma StaysCalled(s: State, a: Action)
    requires Enabled(s, a) && !s.closer.NotCalled?
    ensures !Apply(s, a).closer.NotCalled?
  {}
}
