/** The multi-modem call pool as a step system: the submitting main loop, the
    workers with their phone locks, and the result collector, over bounded
    channels (cmd/modem-test/multi_batch.go:118-335, 409-421,
    cmd/modem-test/worker.go:163-388, 870-899, cmd/modem-test/coordinator.go:32-81).
    Every interleaving of the goroutines is a sequence of actions. */
module CallPool {

  datatype Node = Node(address: string, phone: string)

  // What a worker sends: intermediate attempts, and one final result for each job.
  datatype Msg = Intermediate(node: Node) | Final(node: Node, windowClosed: bool)

  // Calling is the only phase in which a worker holds its phone; in Finished the
  // phone is released and the final result not yet sent.
  datatype Worker =
    | Opening | Failed | Idle | Waiting(node: Node) | Calling(node: Node)
    | Finished(node: Node, windowClosed: bool) | Stopped

  // The collector between receiving a result and the next one: recorded means
  // the deferral list or the statistics hold it, counted that the counter does.
  datatype Collector = Receiving | Handling(msg: Msg) | Recorded | Counted | Closed

  datatype Main =
    | Submitting(todo: seq<Node>) | Checking | Blocked | Collecting
    | Stopping | Draining | Ended

  datatype Config = Config(nodes: seq<Node>, names: seq<string>, resultsCapacity: nat)

  const QUEUE_CAPACITY := 100

  datatype State = State(
    queue: seq<Node>, workers: seq<Worker>, inUse: map<string, string>, results: seq<Msg>,
    collector: Collector, completed: nat, signal: bool, deferred: seq<Node>,
    main: Main, submitted: nat, ctxDone: bool, poolDone: bool,
    // history: nodes with a non-deferred final result, and the number of deferrals
    finals: seq<Node>, deferrals: nat)

  // NewModemPool: at least one worker, and room for two results per modem
  predicate ValidConfig(c: Config) {
    c.names != [] && c.resultsCapacity >= 2 * |c.names|
  }

  function Init(c: Config): State {
    State([], seq(|c.names|, _ => Opening), map[], [], Receiving, 0, false, [],
          Submitting(c.nodes), 0, false, false, [], 0)
  }

  datatype Action =
    // worker w
    | Open(w: nat, ok: bool) | Take(w: nat) | Acquire(w: nat) | Report(w: nat)
    | Hangup(w: nat, windowClosed: bool) | Send(w: nat) | Exit(w: nat) | GiveUp(w: nat)
    // collector
    | Receive | Record | Count | Signal | Close
    // main loop
    | Submit(i: nat) | AllSubmitted | Check | Wake | Swap | JoinWorkers | JoinCollector
    // an interrupt: the session context, then the pool's
    | Interrupt | CancelPool | AbortSubmit | AbortSchedule | AbortWait

  predicate QueueClosed(s: State) {
    s.main.Stopping? || s.main.Draining? || s.main.Ended?
  }

  predicate ResultsClosed(s: State) {
    s.main.Draining? || s.main.Ended?
  }

  predicate HasRoom(c: Config, s: State) {
    |s.results| < c.resultsCapacity
  }

  predicate Done(w: Worker) {
    w.Stopped? || w.Failed?
  }

  predicate WorkerEnabled(c: Config, s: State, a: Action)
    requires a.Open? || a.Take? || a.Acquire? || a.Report? || a.Hangup? || a.Send? || a.Exit? || a.GiveUp?
  {
    a.w < |s.workers| &&
    var w := s.workers[a.w];
    match a
    case Open(_, _) => w.Opening?
    case Take(_) => w.Idle? && s.queue != []
    case Acquire(_) => w.Waiting? && w.node.phone !in s.inUse && !s.poolDone
    case Report(_) => w.Calling? && HasRoom(c, s)
    case Hangup(_, _) => w.Calling?
    case Send(_) => w.Finished? && HasRoom(c, s)
    case Exit(_) => (w.Idle? && QueueClosed(s) && s.queue == []) || (s.poolDone && (w.Idle? || w.Finished?))
    case GiveUp(_) => w.Waiting? && s.poolDone
  }

  predicate Enabled(c: Config, s: State, a: Action) {
    match a
    case Receive => s.collector.Receiving? && s.results != []
    case Record => s.collector.Handling?
    case Count => s.collector.Recorded?
    case Signal => s.collector.Counted?
    case Close => s.collector.Receiving? && s.results == [] && ResultsClosed(s)
    case Submit(i) => s.main.Submitting? && i < |s.main.todo| && |s.queue| < QUEUE_CAPACITY
    case AllSubmitted => s.main == Submitting([])
    case Check => s.main.Checking?
    case Wake => s.main.Blocked? && s.signal
    case Swap => s.main.Collecting?
    case JoinWorkers => s.main.Stopping? && forall w :: 0 <= w < |s.workers| ==> Done(s.workers[w])
    case JoinCollector => s.main.Draining? && s.collector.Closed?
    case Interrupt => !s.ctxDone
    case CancelPool => s.ctxDone && !s.poolDone
    case AbortSubmit => s.main.Submitting? && s.ctxDone
    case AbortSchedule => s.main.Submitting? && s.ctxDone
    case AbortWait => s.main.Blocked? && s.ctxDone
    case _ => WorkerEnabled(c, s, a)
  }

  function SetWorker(s: State, w: nat, x: Worker): State
    requires w < |s.workers|
  {
    s.(workers := s.workers[w := x])
  }

  function WorkerApply(c: Config, s: State, a: Action): State
    requires a.Open? || a.Take? || a.Acquire? || a.Report? || a.Hangup? || a.Send? || a.Exit? || a.GiveUp?
    requires |s.workers| == |c.names| && WorkerEnabled(c, s, a)
  {
    var w := s.workers[a.w];
    match a
    case Open(i, ok) => SetWorker(s, i, if ok then Idle else Failed)
    case Take(i) => SetWorker(s, i, Waiting(s.queue[0])).(queue := s.queue[1..])
    case Acquire(i) => SetWorker(s, i, Calling(w.node)).(inUse := s.inUse[w.node.phone := c.names[i]])
    case Report(i) => s.(results := s.results + [Intermediate(w.node)])
    case Hangup(i, closed) => SetWorker(s, i, Finished(w.node, closed)).(inUse := s.inUse - {w.node.phone})
    case Send(i) => SetWorker(s, i, Idle).(results := s.results + [Final(w.node, w.windowClosed)])
    case Exit(i) => SetWorker(s, i, Stopped)
    case GiveUp(i) => SetWorker(s, i, Idle)
  }

  function RecordMsg(s: State, m: Msg): State {
    match m
    case Intermediate(_) => s.(collector := Receiving)
    case Final(n, true) =>
      s.(collector := Recorded, deferred := s.deferred + [n], deferrals := s.deferrals + 1)
    case Final(n, false) =>
      s.(collector := Recorded, finals := s.finals + [n])
  }

  function Apply(c: Config, s: State, a: Action): State
    requires |s.workers| == |c.names| && Enabled(c, s, a)
  {
    match a
    case Receive => s.(results := s.results[1..], collector := Handling(s.results[0]))
    case Record => RecordMsg(s, s.collector.msg)
    case Count => s.(completed := s.completed + 1, collector := Counted)
    case Signal => s.(signal := true, collector := Receiving)
    case Close => s.(collector := Closed)
    case Submit(i) =>
      s.(queue := s.queue + [s.main.todo[i]], submitted := s.submitted + 1,
         main := Submitting(s.main.todo[..i] + s.main.todo[i + 1..]))
    case AllSubmitted => s.(main := Checking)
    case Check => s.(main := if s.completed >= s.submitted then Collecting else Blocked)
    case Wake => s.(signal := false, main := Checking)
    case Swap =>
      s.(main := if s.deferred == [] then Stopping else Submitting(s.deferred), deferred := [])
    case JoinWorkers => s.(main := Draining)
    case JoinCollector => s.(main := Ended)
    case Interrupt => s.(ctxDone := true)
    case CancelPool => s.(poolDone := true)
    case AbortSubmit => s.(main := Stopping)
    case AbortSchedule => s.(main := Submitting([]))
    case AbortWait => s.(main := Collecting)
    case _ => WorkerApply(c, s, a)
  }

  // The runs: a sequence of actions, each enabled where it happens.
  predicate Legal(c: Config, s: State, run: seq<Action>)
    decreases |run|
  {
    |s.workers| == |c.names| &&
    (run == [] || (Enabled(c, s, run[0]) && Legal(c, Apply(c, s, run[0]), run[1..])))
  }

  function Exec(c: Config, s: State, run: seq<Action>): State
    requires Legal(c, s, run)
    decreases |run|
  {
    if run == [] then s else Exec(c, Apply(c, s, run[0]), run[1..])
  }

  /******* Phone locks: every run, interrupted or not *******/

  predicate Holds(s: State, w: int, phone: string) {
    0 <= w < |s.workers| && s.workers[w].Calling? && s.workers[w].node.phone == phone
  }

  // The in-use table names exactly the calling workers, one to a phone.
  ghost predicate LocksInv(c: Config, s: State) {
    && |s.workers| == |c.names|
    && (forall w, p :: Holds(s, w, p) ==> p in s.inUse && s.inUse[p] == c.names[w])
    && (forall v, w, p :: Holds(s, v, p) && Holds(s, w, p) ==> v == w)
    && (forall p :: p in s.inUse ==> exists w :: Holds(s, w, p))
  }

  /******* Flow of nodes: runs without an interrupt *******/

  datatype Which = Every | Only(node: Node)

  function Is(x: Node, n: Which): nat {
    if n.Every? || n.node == x then 1 else 0
  }

  // How often a node occurs, or how many nodes there are.
  function Occurs(q: seq<Node>, n: Which): nat {
    if q == [] then 0 else Is(q[0], n) + Occurs(q[1..], n)
  }

  function AtWorker(w: Worker, n: Which): nat {
    if w.Waiting? || w.Calling? || w.Finished? then Is(w.node, n) else 0
  }

  function AtWorkers(ws: seq<Worker>, n: Which): nat {
    if ws == [] then 0 else AtWorker(ws[0], n) + AtWorkers(ws[1..], n)
  }

  function InMsg(m: Msg, n: Which): nat {
    if m.Final? then Is(m.node, n) else 0
  }

  function InResults(ms: seq<Msg>, n: Which): nat {
    if ms == [] then 0 else InMsg(ms[0], n) + InResults(ms[1..], n)
  }

  function InHand(k: Collector, n: Which): nat {
    if k.Handling? then InMsg(k.msg, n) else 0
  }

  // The nodes of jobs submitted and not yet recorded.
  function InFlight(s: State, n: Which): nat {
    Occurs(s.queue, n) + AtWorkers(s.workers, n) + InResults(s.results, n) + InHand(s.collector, n)
  }

  function Todo(m: Main): seq<Node> {
    if m.Submitting? then m.todo else []
  }

  // The nodes finished, deferred, or still to submit.
  function Listed(s: State, n: Which): nat {
    Occurs(s.finals, n) + Occurs(s.deferred, n) + Occurs(Todo(s.main), n)
  }

  // Each scheduled node is in exactly one place.
  ghost predicate Balanced(c: Config, s: State, n: Which) {
    Occurs(c.nodes, n) == Listed(s, n) + InFlight(s, n)
  }

  ghost predicate FlowInv(c: Config, s: State) {
    (forall n :: Balanced(c, s, n)) && Totals(c, s)
  }

  ghost predicate Totals(c: Config, s: State) {
    // submissions are nodes plus re-submitted deferrals
    && s.submitted + |Todo(s.main)| + |s.deferred| == |c.nodes| + s.deferrals
    // the counter has every recorded result but the one about to be counted
    && s.completed + Uncounted(s) == |s.finals| + s.deferrals
    && |s.deferred| <= s.deferrals
  }

  function Uncounted(s: State): nat {
    if s.collector.Recorded? then 1 else 0
  }

  // Where the main loop is, and what it may rely on there.
  ghost predicate PhaseInv(s: State) {
    && (s.main.Collecting? || QueueClosed(s) ==> s.completed == s.submitted)
    && (QueueClosed(s) ==> s.deferred == [])
    && (s.collector.Closed? ==> ResultsClosed(s) && s.results == [])
    && (ResultsClosed(s) ==> forall w :: 0 <= w < |s.workers| ==> Done(s.workers[w]))
    && (forall w :: 0 <= w < |s.workers| && s.workers[w].Stopped? ==> QueueClosed(s))
    && |s.queue| <= QUEUE_CAPACITY
    // no lost wake-up
    && (s.main.Blocked? && s.completed >= s.submitted ==> s.signal || s.collector.Counted?)
  }

  predicate Unopened(w: Worker) {
    w.Opening? || w.Failed?
  }

  // Results come from opened modems only.
  ghost predicate OpenInv(s: State) {
    (forall w :: 0 <= w < |s.workers| ==> Unopened(s.workers[w])) ==>
      s.results == [] && (s.collector.Receiving? || s.collector.Closed?) && s.completed == 0
  }

  // The newest result: the last one in the channel, or else the one in hand.
  predicate NewestIs(s: State, m: Msg) {
    if s.results != [] then s.results[|s.results| - 1] == m else s.collector == Handling(m)
  }

  // An intermediate result is followed by its job's final one.
  ghost predicate TailInv(s: State) {
    forall n :: NewestIs(s, Intermediate(n)) ==>
      exists w :: 0 <= w < |s.workers| && OnJob(s.workers[w], n)
  }

  predicate OnJob(w: Worker, n: Node) {
    (w.Calling? || w.Finished?) && w.node == n
  }

  predicate Interrupted(s: State) {
    s.ctxDone || s.poolDone
  }

  ghost predicate Inv(c: Config, s: State) {
    && LocksInv(c, s)
    && (s.poolDone ==> s.ctxDone)
    && (!Interrupted(s) ==> FlowInv(c, s) && PhaseInv(s) && OpenInv(s) && TailInv(s))
  }

  /******* The invariants hold at the start and after every action *******/

  lemma InitInv(c: Config)
    ensures Inv(c, Init(c))
  {
    var s := Init(c);
    forall n ensures Balanced(c, s, n) {
      NoWorkerBusy(s.workers, n);
    }
  }

  predicate IsWorkerAction(a: Action) {
    a.Open? || a.Take? || a.Acquire? || a.Report? || a.Hangup? || a.Send? || a.Exit? || a.GiveUp?
  }

  lemma LocksKept(c: Config, s: State, a: Action)
    requires LocksInv(c, s) && Enabled(c, s, a)
    ensures LocksInv(c, Apply(c, s, a))
  {
    if a.Acquire? {
      AcquireKeepsLocks(c, s, a.w);
    } else if a.Hangup? {
      ReleaseKeepsLocks(c, s, a.w, a.windowClosed);
    } else {
      OthersKeepLocks(c, s, a);
    }
  }

  lemma OthersKeepLocks(c: Config, s: State, a: Action)
    requires LocksInv(c, s) && Enabled(c, s, a) && !a.Acquire? && !a.Hangup?
    ensures LocksInv(c, Apply(c, s, a))
  {
    var t := Apply(c, s, a);
    SameCallers(c, s, a);
    hide Apply, Enabled, Holds;
    forall p | p in t.inUse ensures exists w :: Holds(t, w, p) {
      var w :| Holds(s, w, p);
      assert Holds(t, w, p);
    }
  }

  lemma SameCallers(c: Config, s: State, a: Action)
    requires |s.workers| == |c.names| && Enabled(c, s, a) && !a.Acquire? && !a.Hangup?
    ensures var t := Apply(c, s, a);
      && t.inUse == s.inUse && |t.workers| == |s.workers|
      && forall w, p :: Holds(t, w, p) <==> Holds(s, w, p)
  {
    if IsWorkerAction(a) {
      SameWorkerCallers(c, s, a);
    } else {
      hide WorkerEnabled, WorkerApply, Holds;
      assert Apply(c, s, a).workers == s.workers;
      forall w, p ensures Holds(Apply(c, s, a), w, p) <==> Holds(s, w, p) {
        HoldsByWorkers(Apply(c, s, a), s, w, p);
      }
    }
  }

  lemma HoldsByWorkers(s: State, t: State, w: int, p: string)
    requires s.workers == t.workers
    ensures Holds(s, w, p) == Holds(t, w, p)
  {}

  lemma SameWorkerCallers(c: Config, s: State, a: Action)
    requires IsWorkerAction(a) && !a.Acquire? && !a.Hangup?
    requires |s.workers| == |c.names| && WorkerEnabled(c, s, a)
    ensures var t := WorkerApply(c, s, a);
      && t.inUse == s.inUse && |t.workers| == |s.workers|
      && forall w, p :: Holds(t, w, p) <==> Holds(s, w, p)
  {
    var t := WorkerApply(c, s, a);
    assert t.inUse == s.inUse;
    assert !t.workers[a.w].Calling? || t.workers[a.w] == s.workers[a.w];
    assert forall w :: 0 <= w < |s.workers| && w != a.w ==> t.workers[w] == s.workers[w];
  }

  lemma AcquireKeepsLocks(c: Config, s: State, i: nat)
    requires LocksInv(c, s) && Enabled(c, s, Acquire(i))
    ensures LocksInv(c, Apply(c, s, Acquire(i)))
  {
    var t, phone := Apply(c, s, Acquire(i)), s.workers[i].node.phone;
    assert forall w, p :: Holds(t, w, p) <==> (w == i && p == phone) || (w != i && Holds(s, w, p));
    forall p | p in t.inUse ensures exists w :: Holds(t, w, p) {
      if p == phone {
        assert Holds(t, i, p);
      } else {
        var w :| Holds(s, w, p);
        assert Holds(t, w, p);
      }
    }
  }

  lemma ReleaseKeepsLocks(c: Config, s: State, i: nat, closed: bool)
    requires LocksInv(c, s) && Enabled(c, s, Hangup(i, closed))
    ensures LocksInv(c, Apply(c, s, Hangup(i, closed)))
  {
    var t, phone := Apply(c, s, Hangup(i, closed)), s.workers[i].node.phone;
    assert forall w, p :: Holds(t, w, p) <==> w != i && Holds(s, w, p);
    assert Holds(s, i, phone);
    forall p | p in t.inUse ensures exists w :: Holds(t, w, p) {
      var w :| Holds(s, w, p);
      assert Holds(t, w, p);
    }
    assert forall w, p :: Holds(t, w, p) ==> p != phone;
  }

  // Submitting puts a node in flight and recording takes it out; nothing else does.
  lemma FlightChange(c: Config, s: State, a: Action, n: Which)
    requires |s.workers| == |c.names| && Enabled(c, s, a) && !IsWorkerAction(a)
    ensures InFlight(Apply(c, s, a), n) ==
      if a.Submit? then InFlight(s, n) + Is(s.main.todo[a.i], n)
      else if a.Record? then InFlight(s, n) - InHand(s.collector, n)
      else InFlight(s, n)
  {
    hide Is, WorkerEnabled, WorkerApply;
    if a.Submit? {
      OccursAppend(s.queue, [s.main.todo[a.i]], n);
      OccursOne(s.main.todo[a.i], n);
    }
  }

  lemma WorkerKeepsFlight(c: Config, s: State, a: Action, n: Which)
    requires IsWorkerAction(a)
    requires |s.workers| == |c.names| && WorkerEnabled(c, s, a) && !s.poolDone
    ensures InFlight(WorkerApply(c, s, a), n) == InFlight(s, n)
  {
    hide Is;
    var t := WorkerApply(c, s, a);
    if a.Report? {
      ResultsAppend(s.results, Intermediate(s.workers[a.w].node), n);
    } else {
      WorkersUpdate(s.workers, a.w, t.workers[a.w], n);
      if a.Send? {
        ResultsAppend(s.results, Final(s.workers[a.w].node, s.workers[a.w].windowClosed), n);
      }
    }
  }

  lemma FlowKept(c: Config, s: State, a: Action)
    requires |s.workers| == |c.names| && Enabled(c, s, a)
    requires FlowInv(c, s) && !Interrupted(Apply(c, s, a))
    ensures FlowInv(c, Apply(c, s, a))
  {
    forall n ensures Balanced(c, Apply(c, s, a), n) {
      BalanceKept(c, s, a, n);
    }
    TotalsKept(c, s, a);
  }

  lemma BalanceKept(c: Config, s: State, a: Action, n: Which)
    requires |s.workers| == |c.names| && Enabled(c, s, a)
    requires Balanced(c, s, n) && !Interrupted(Apply(c, s, a))
    ensures Balanced(c, Apply(c, s, a), n)
  {
    hide InFlight, Occurs, Is;
    if IsWorkerAction(a) {
      WorkerLeaves(c, s, a);
      WorkerKeepsFlight(c, s, a, n);
    } else {
      OtherKeepsBalance(c, s, a, n);
    }
  }

  lemma OtherKeepsBalance(c: Config, s: State, a: Action, n: Which)
    requires |s.workers| == |c.names| && Enabled(c, s, a) && !IsWorkerAction(a)
    requires Balanced(c, s, n) && !Interrupted(Apply(c, s, a))
    ensures Balanced(c, Apply(c, s, a), n)
  {
    hide Apply, Enabled, InFlight, Listed, Occurs, Is, InMsg;
    FlightChange(c, s, a, n);
    ListsChange(c, s, a, n);
  }

  // Submitting takes a node off the lists and recording puts one on.
  lemma ListsChange(c: Config, s: State, a: Action, n: Which)
    requires |s.workers| == |c.names| && Enabled(c, s, a) && !IsWorkerAction(a)
    requires !Interrupted(Apply(c, s, a))
    ensures Listed(Apply(c, s, a), n) ==
      if a.Submit? then Listed(s, n) - Is(s.main.todo[a.i], n)
      else if a.Record? then Listed(s, n) + InHand(s.collector, n)
      else Listed(s, n)
  {
    hide WorkerEnabled, WorkerApply, Is, Occurs, RecordMsg;
    if a.Record? {
      RecordMoves(s, s.collector.msg, n);
    } else if a.Submit? {
      OccursRemove(s.main.todo, a.i, n);
    } else if a.Swap? {
      OccursNone(n);
    }
  }

  lemma OccursNone(n: Which)
    ensures Occurs([], n) == 0
  {}

  // Recording puts a final result's node in one of the two lists.
  lemma RecordMoves(s: State, m: Msg, n: Which)
    ensures var t := RecordMsg(s, m);
      && t.main == s.main
      && Occurs(t.finals, n) + Occurs(t.deferred, n) == Occurs(s.finals, n) + Occurs(s.deferred, n) + InMsg(m, n)
  {
    hide Occurs, Is;
    OccursOne(m.node, n);
    OccursAppend(s.deferred, [m.node], n);
    OccursAppend(s.finals, [m.node], n);
  }

  lemma TotalsKept(c: Config, s: State, a: Action)
    requires |s.workers| == |c.names| && Enabled(c, s, a)
    requires Totals(c, s) && !Interrupted(Apply(c, s, a))
    ensures Totals(c, Apply(c, s, a))
  {
    if IsWorkerAction(a) {
      WorkerLeaves(c, s, a);
    } else {
      OtherKeepsTotals(c, s, a);
    }
  }

  lemma OtherKeepsTotals(c: Config, s: State, a: Action)
    requires |s.workers| == |c.names| && Enabled(c, s, a) && !IsWorkerAction(a)
    requires Totals(c, s) && !Interrupted(Apply(c, s, a))
    ensures Totals(c, Apply(c, s, a))
  {
    hide WorkerEnabled, WorkerApply;
  }

  // A worker action touches its worker, the two channels and the lock table only.
  lemma WorkerLeaves(c: Config, s: State, a: Action)
    requires IsWorkerAction(a)
    requires |s.workers| == |c.names| && WorkerEnabled(c, s, a)
    ensures var t := WorkerApply(c, s, a);
      && t == s.(queue := t.queue, workers := t.workers, inUse := t.inUse, results := t.results)
      && |t.workers| == |s.workers|
      && (a.Report? || t.workers == s.workers[a.w := t.workers[a.w]])
      && (a.Report? ==> t.workers == s.workers)
  {}

  // Every submitted job is counted, recorded and about to be counted, or in flight.
  lemma Accounting(c: Config, s: State)
    requires FlowInv(c, s)
    ensures s.submitted == s.completed + Uncounted(s) + InFlight(s, Every)
  {
    assert Balanced(c, s, Every);
    OccursEvery(c.nodes);
    OccursEvery(s.finals);
    OccursEvery(s.deferred);
    OccursEvery(Todo(s.main));
  }

  lemma PhaseKept(c: Config, s: State, a: Action)
    requires |s.workers| == |c.names| && Enabled(c, s, a)
    requires FlowInv(c, s) && PhaseInv(s) && !Interrupted(Apply(c, s, a))
    ensures PhaseInv(Apply(c, s, a))
  {
    hide FlowInv, PhaseInv;
    Accounting(c, s);
    if IsWorkerAction(a) {
      WorkerKeepsPhase(c, s, a);
    } else {
      OtherKeepsPhase(c, s, a);
    }
  }

  lemma OtherKeepsPhase(c: Config, s: State, a: Action)
    requires |s.workers| == |c.names| && Enabled(c, s, a) && !IsWorkerAction(a)
    requires s.completed + Uncounted(s) + InHand(s.collector, Every) <= s.submitted
    requires PhaseInv(s) && !Interrupted(Apply(c, s, a))
    ensures PhaseInv(Apply(c, s, a))
  {
    hide WorkerEnabled, WorkerApply;
  }

  lemma WorkerKeepsPhase(c: Config, s: State, a: Action)
    requires IsWorkerAction(a)
    requires |s.workers| == |c.names| && WorkerEnabled(c, s, a) && !s.poolDone && PhaseInv(s)
    ensures PhaseInv(WorkerApply(c, s, a))
  {
    WorkerLeaves(c, s, a);
  }

  lemma OpenKept(c: Config, s: State, a: Action)
    requires |s.workers| == |c.names| && Enabled(c, s, a)
    requires OpenInv(s) && !Interrupted(Apply(c, s, a))
    ensures OpenInv(Apply(c, s, a))
  {
    if IsWorkerAction(a) {
      WorkerKeepsOpen(c, s, a);
    } else {
      hide WorkerEnabled, WorkerApply, Unopened;
    }
  }

  lemma WorkerKeepsOpen(c: Config, s: State, a: Action)
    requires IsWorkerAction(a)
    requires |s.workers| == |c.names| && WorkerEnabled(c, s, a)
    requires OpenInv(s) && !s.poolDone
    ensures OpenInv(WorkerApply(c, s, a))
  {
    var t := WorkerApply(c, s, a);
    if forall w :: 0 <= w < |t.workers| ==> Unopened(t.workers[w]) {
      forall w | 0 <= w < |s.workers| ensures Unopened(s.workers[w]) {
        assert Unopened(t.workers[w]);
      }
    }
  }

  lemma TailKept(c: Config, s: State, a: Action)
    requires |s.workers| == |c.names| && Enabled(c, s, a)
    requires TailInv(s) && !Interrupted(Apply(c, s, a))
    ensures TailInv(Apply(c, s, a))
  {
    if IsWorkerAction(a) {
      WorkerKeepsTail(c, s, a);
    } else {
      hide WorkerEnabled, WorkerApply, OnJob;
      var t := Apply(c, s, a);
      assert t.workers == s.workers;
      forall n | NewestIs(t, Intermediate(n)) ensures exists w :: 0 <= w < |t.workers| && OnJob(t.workers[w], n) {
        assert NewestIs(s, Intermediate(n));
      }
    }
  }

  lemma WorkerKeepsTail(c: Config, s: State, a: Action)
    requires IsWorkerAction(a)
    requires |s.workers| == |c.names| && WorkerEnabled(c, s, a)
    requires TailInv(s) && !s.poolDone
    ensures TailInv(WorkerApply(c, s, a))
  {
    var t := WorkerApply(c, s, a);
    forall n | NewestIs(t, Intermediate(n)) ensures exists w :: 0 <= w < |t.workers| && OnJob(t.workers[w], n) {
      if a.Report? {
        assert OnJob(t.workers[a.w], n);
      } else {
        assert NewestIs(s, Intermediate(n));
        var w :| 0 <= w < |s.workers| && OnJob(s.workers[w], n);
        assert OnJob(t.workers[w], n);
      }
    }
  }

  lemma InvKept(c: Config, s: State, a: Action)
    requires Inv(c, s) && Enabled(c, s, a)
    ensures Inv(c, Apply(c, s, a))
  {
    hide FlowInv, PhaseInv, OpenInv, LocksInv, TailInv;
    LocksHaveWorkers(c, s);
    InterruptSticks(c, s, a);
    LocksKept(c, s, a);
    if !Interrupted(Apply(c, s, a)) {
      FlowKept(c, s, a);
      PhaseKept(c, s, a);
      OpenKept(c, s, a);
      TailKept(c, s, a);
    }
  }

  lemma LocksHaveWorkers(c: Config, s: State)
    requires LocksInv(c, s)
    ensures |s.workers| == |c.names|
  {}

  lemma InterruptSticks(c: Config, s: State, a: Action)
    requires |s.workers| == |c.names| && Enabled(c, s, a) && (s.poolDone ==> s.ctxDone)
    ensures var t := Apply(c, s, a);
      && (t.poolDone ==> t.ctxDone)
      && (Interrupted(t) <== Interrupted(s))
      && (Interrupted(t) ==> Interrupted(s) || a.Interrupt?)
  {
    if IsWorkerAction(a) {
      WorkerLeaves(c, s, a);
    }
  }

  lemma {:induction false} RunInv(c: Config, s: State, run: seq<Action>)
    requires Inv(c, s) && Legal(c, s, run)
    ensures Inv(c, Exec(c, s, run))
    decreases |run|
  {
    hide Inv, Enabled, Apply;
    if run != [] {
      InvKept(c, s, run[0]);
      RunInv(c, Apply(c, s, run[0]), run[1..]);
    }
  }

  ghost predicate Reachable(c: Config, s: State) {
    exists run :: Legal(c, Init(c), run) && Exec(c, Init(c), run) == s
  }

  lemma ReachableInv(c: Config, s: State)
    requires Reachable(c, s)
    ensures Inv(c, s)
  {
    hide Inv, Legal, Exec;
    var run :| Legal(c, Init(c), run) && Exec(c, Init(c), run) == s;
    InitInv(c);
    RunInv(c, Init(c), run);
  }

  /******* Main results *******/

  // Whatever the interleaving, interrupts included: at most one worker is on the
  // line with a phone, and the in-use table names exactly the workers that are.
  lemma OneCallerPerPhone(c: Config, s: State, phone: string)
    requires Reachable(c, s)
    ensures forall v, w :: Holds(s, v, phone) && Holds(s, w, phone) ==> v == w
    ensures phone in s.inUse <==> exists w :: Holds(s, w, phone)
    ensures forall w :: Holds(s, w, phone) ==> w < |c.names| && phone in s.inUse && s.inUse[phone] == c.names[w]
  {
    ReachableInv(c, s);
  }

  // The barrier: when the wait for completion has returned, both channels are
  // empty, no worker has a job, every result is recorded, and every node not
  // finished is in the deferral list.
  lemma BarrierComplete(c: Config, s: State)
    requires Reachable(c, s) && !Interrupted(s) && s.main.Collecting?
    ensures s.completed == s.submitted && s.queue == [] && s.results == []
    ensures forall w :: 0 <= w < |s.workers| ==> AtWorker(s.workers[w], Every) == 0
    ensures s.collector.Receiving? || s.collector.Counted?
    ensures multiset(c.nodes) == multiset(s.finals) + multiset(s.deferred)
  {
    ReachableInv(c, s);
    Accounting(c, s);
    NothingInFlight(s);
    FinalsAndDeferred(c, s);
  }

  lemma NothingInFlight(s: State)
    requires InFlight(s, Every) == 0 && TailInv(s)
    ensures s.queue == [] && s.results == [] && !s.collector.Handling?
    ensures forall w :: 0 <= w < |s.workers| ==> AtWorker(s.workers[w], Every) == 0
  {
    OccursEvery(s.queue);
    forall w | 0 <= w < |s.workers| ensures AtWorker(s.workers[w], Every) == 0 {
      if AtWorker(s.workers[w], Every) != 0 {
        BusyWorkerCounted(s.workers, w);
      }
    }
    NewestIsFinal(s);
    if s.results != [] {
      var last := s.results[|s.results| - 1];
      assert s.results == s.results[..|s.results| - 1] + [last];
      ResultsAppend(s.results[..|s.results| - 1], last, Every);
    }
  }

  // With no worker on a job, the newest result is a final one.
  lemma NewestIsFinal(s: State)
    requires TailInv(s) && forall w :: 0 <= w < |s.workers| ==> AtWorker(s.workers[w], Every) == 0
    ensures s.results != [] ==> s.results[|s.results| - 1].Final?
    ensures s.results == [] && s.collector.Handling? ==> s.collector.msg.Final?
  {
    forall n ensures !NewestIs(s, Intermediate(n)) {}
    if s.results != [] && s.results[|s.results| - 1].Intermediate? {
      assert NewestIs(s, Intermediate(s.results[|s.results| - 1].node));
    }
    if s.results == [] && s.collector.Handling? && s.collector.msg.Intermediate? {
      assert NewestIs(s, Intermediate(s.collector.msg.node));
    }
  }

  lemma FinalsAndDeferred(c: Config, s: State)
    requires FlowInv(c, s) && InFlight(s, Every) == 0 && Todo(s.main) == []
    ensures multiset(c.nodes) == multiset(s.finals) + multiset(s.deferred)
  {
    forall x ensures multiset(c.nodes)[x] == multiset(s.finals)[x] + multiset(s.deferred)[x] {
      assert Balanced(c, s, Only(x));
      OccursIsMultiplicity(c.nodes, x);
      OccursIsMultiplicity(s.finals, x);
      OccursIsMultiplicity(s.deferred, x);
      FlightAtMost(s, Only(x));
    }
  }

  // Over the deferral rounds no node is lost or duplicated: once submission has
  // ended, the nodes with a final result are the scheduled nodes as a multiset,
  // and the jobs submitted are the nodes plus the deferrals.
  lemma NodesConserved(c: Config, s: State)
    requires Reachable(c, s) && !Interrupted(s) && QueueClosed(s)
    ensures multiset(s.finals) == multiset(c.nodes)
    ensures s.submitted == |c.nodes| + s.deferrals && s.deferred == []
    ensures s.completed == s.submitted
  {
    ReachableInv(c, s);
    Accounting(c, s);
    FinalsAndDeferred(c, s);
  }

  // No lost wake-up: whenever the waiter is blocked and the target is reached,
  // the signal slot is full or the collector is about to fill it.
  lemma NoLostWakeup(c: Config, s: State)
    requires Reachable(c, s) && !Interrupted(s)
    requires s.main.Blocked? && s.completed >= s.submitted
    ensures s.signal || s.collector.Counted?
  {
    ReachableInv(c, s);
  }

  /******* No stuck states *******/

  predicate AllFailed(s: State) {
    forall w :: 0 <= w < |s.workers| ==> s.workers[w].Failed?
  }

  predicate IsInterrupt(a: Action) {
    a.Interrupt? || a.CancelPool? || a.AbortSubmit? || a.AbortSchedule? || a.AbortWait?
  }

  ghost predicate CanProceed(c: Config, s: State) {
    exists a :: !IsInterrupt(a) && Enabled(c, s, a)
  }

  // A step of the batch's own: no interrupt, no extra report, no closed window
  // and no failing modem.
  predicate Plain(a: Action) {
    !IsInterrupt(a) && !a.Report? && !(a.Hangup? && a.windowClosed) && !(a.Open? && !a.ok)
  }

  ghost predicate HasPlainStep(c: Config, s: State) {
    exists a :: Plain(a) && Enabled(c, s, a)
  }

  // A worker with a job can always take its next step once the collector has
  // drained the results.
  lemma BusyWorkerProceeds(c: Config, s: State, w: nat)
    requires ValidConfig(c) && LocksInv(c, s) && !s.poolDone
    requires s.results == [] && w < |s.workers|
    requires s.workers[w].Opening? || s.workers[w].Waiting? || s.workers[w].Calling? || s.workers[w].Finished?
    ensures HasPlainStep(c, s)
  {
    match s.workers[w] {
      case Opening =>
        assert Enabled(c, s, Open(w, true));
      case Waiting(n) =>
        if n.phone in s.inUse {
          var v :| Holds(s, v, n.phone);
          assert Enabled(c, s, Hangup(v, false));
        } else {
          assert Enabled(c, s, Acquire(w));
        }
      case Calling(_) =>
        assert Enabled(c, s, Hangup(w, false));
      case Finished(_, _) =>
        assert Enabled(c, s, Send(w));
    }
  }

  lemma CollectorProceeds(c: Config, s: State)
    requires !(s.collector.Receiving? && s.results == [] && !ResultsClosed(s)) && !s.collector.Closed?
    ensures HasPlainStep(c, s)
  {
    assert Enabled(c, s, Receive) || Enabled(c, s, Record) || Enabled(c, s, Count)
      || Enabled(c, s, Signal) || Enabled(c, s, Close);
  }

  lemma MainProceeds(c: Config, s: State)
    requires !s.main.Ended? && !s.main.Stopping? && !s.main.Draining?
    requires s.main.Submitting? ==> |s.queue| < QUEUE_CAPACITY
    requires s.main.Blocked? ==> s.signal
    ensures HasPlainStep(c, s)
  {
    hide Plain;
    OwnSteps();
    if s.main.Submitting? && s.main.todo != [] {
      assert Enabled(c, s, Submit(0));
    } else {
      assert Enabled(c, s, AllSubmitted) || Enabled(c, s, Check) || Enabled(c, s, Wake) || Enabled(c, s, Swap);
    }
  }

  lemma OwnSteps()
    ensures Plain(Submit(0)) && Plain(AllSubmitted) && Plain(Check) && Plain(Wake) && Plain(Swap)
  {}

  // As long as some modem has not failed to open, an uninterrupted run that has
  // not ended always has a next step, and one of its own.
  lemma NeverStuck(c: Config, s: State)
    requires ValidConfig(c) && Reachable(c, s) && !Interrupted(s)
    requires !s.main.Ended? && !AllFailed(s)
    ensures HasPlainStep(c, s)
  {
    ReachableInv(c, s);
    if s.collector.Closed? {
      assert Enabled(c, s, JoinCollector);
    } else if !(s.collector.Receiving? && s.results == [] && !ResultsClosed(s)) {
      CollectorProceeds(c, s);
    } else if w :| 0 <= w < |s.workers| && !s.workers[w].Idle? && !Done(s.workers[w]) {
      BusyWorkerProceeds(c, s, w);
    } else {
      QuietProceeds(c, s);
    }
  }

  // The last case: the collector waits, the workers are idle or gone.
  lemma QuietProceeds(c: Config, s: State)
    requires Inv(c, s) && !Interrupted(s) && !s.main.Ended? && !AllFailed(s)
    requires s.collector.Receiving? && s.results == [] && !ResultsClosed(s)
    requires forall w :: 0 <= w < |s.workers| ==> s.workers[w].Idle? || Done(s.workers[w])
    ensures HasPlainStep(c, s)
  {
    if w :| 0 <= w < |s.workers| && s.workers[w].Idle? && s.queue != [] {
      assert Enabled(c, s, Take(w));
    } else if s.main.Stopping? {
      if w :| 0 <= w < |s.workers| && s.workers[w].Idle? {
        assert Enabled(c, s, Exit(w));
      } else {
        assert Enabled(c, s, JoinWorkers);
      }
    } else {
      QuietQueueEmpty(c, s);
      if s.main.Blocked? {
        Accounting(c, s);
        NoWorkerBusy(s.workers, Every);
      }
      MainProceeds(c, s);
    }
  }

  lemma QuietQueueEmpty(c: Config, s: State)
    requires Inv(c, s) && !Interrupted(s) && !QueueClosed(s) && !AllFailed(s)
    requires forall w :: 0 <= w < |s.workers| ==> s.workers[w].Idle? || Done(s.workers[w])
    requires forall w :: 0 <= w < |s.workers| && s.workers[w].Idle? ==> s.queue == []
    ensures s.queue == []
  {
    var w :| 0 <= w < |s.workers| && !s.workers[w].Failed?;
    assert s.workers[w].Idle?;
  }

  // The condition is exact: when every modem fails to open, a run with nodes to
  // call never gets past its first wait.
  lemma NoModemNoEnd(c: Config, s: State)
    requires Reachable(c, s) && !Interrupted(s) && c.nodes != [] && AllFailed(s)
    ensures s.main.Submitting? || s.main.Checking? || s.main.Blocked?
    ensures s.completed == 0 && s.finals == []
  {
    ReachableInv(c, s);
    forall w | 0 <= w < |s.workers| ensures Unopened(s.workers[w]) {}
    Accounting(c, s);
  }

  // And it hangs there: one node, one modem that does not open.
  lemma HangsWithoutModem(n: Node, name: string)
    ensures var c := Config([n], [name], 2);
      exists s :: Reachable(c, s) && !Interrupted(s) && !s.main.Ended? && !CanProceed(c, s)
  {
    hide Reachable, CanProceed;
    var c := Config([n], [name], 2);
    var s2 := SubmittedWithoutModem(n);
    SubmittedInReach(n, name);
    var s3 := Apply(c, s2, AllSubmitted);
    ReachableStep(c, s2, AllSubmitted);
    ReachableStep(c, s3, Check);
    NothingEnabled(c, Apply(c, s3, Check));
  }

  // The modem did not open, the node is queued.
  function SubmittedWithoutModem(n: Node): State {
    State([n], [Failed], map[], [], Receiving, 0, false, [], Submitting([]), 1, false, false, [], 0)
  }

  lemma SubmittedInReach(n: Node, name: string)
    ensures Reachable(Config([n], [name], 2), SubmittedWithoutModem(n))
  {
    hide Reachable;
    var c := Config([n], [name], 2);
    InitReachable(c);
    ReachableStep(c, Init(c), Open(0, false));
    var s1 := Apply(c, Init(c), Open(0, false));
    assert s1.workers == [Failed];
    ReachableStep(c, s1, Submit(0));
    var s2 := Apply(c, s1, Submit(0));
    assert s2.main == Submitting([]) && s2.queue == [n];
    assert s2 == SubmittedWithoutModem(n);
  }

  /******* Runs one action longer *******/

  lemma InitReachable(c: Config)
    ensures Reachable(c, Init(c))
  {
    assert Legal(c, Init(c), []) && Exec(c, Init(c), []) == Init(c);
  }

  // A state reached stays in reach after one more action.
  lemma ReachableStep(c: Config, s: State, a: Action)
    requires Reachable(c, s) && |s.workers| == |c.names| && Enabled(c, s, a)
    ensures Reachable(c, Apply(c, s, a))
  {
    hide Apply, Enabled, Init;
    var run :| Legal(c, Init(c), run) && Exec(c, Init(c), run) == s;
    ApplyWidth(c, s, a);
    RunAppend(c, Init(c), run, a);
  }

  lemma ApplyWidth(c: Config, s: State, a: Action)
    requires |s.workers| == |c.names| && Enabled(c, s, a)
    ensures |Apply(c, s, a).workers| == |c.names|
  {
    if IsWorkerAction(a) {
      WorkerLeaves(c, s, a);
    }
  }

  lemma {:induction false} RunAppend(c: Config, s: State, run: seq<Action>, a: Action)
    requires Legal(c, s, run)
    requires var t := Exec(c, s, run);
      |t.workers| == |c.names| && Enabled(c, t, a) && |Apply(c, t, a).workers| == |c.names|
    ensures Legal(c, s, run + [a]) && Exec(c, s, run + [a]) == Apply(c, Exec(c, s, run), a)
    decreases |run|
  {
    hide Apply, Enabled;
    if run == [] {
      assert [] + [a] == [a] && [a][1..] == [];
    } else {
      RunAppend(c, Apply(c, s, run[0]), run[1..], a);
      assert (run + [a])[0] == run[0] && (run + [a])[1..] == run[1..] + [a];
    }
  }

  // The blocked state with the only modem gone and nothing in any channel but the queue.
  lemma NothingEnabled(c: Config, s: State)
    requires s.workers == [Failed] && s.main.Blocked? && !s.signal
    requires s.collector.Receiving? && s.results == []
    ensures !CanProceed(c, s)
  {}

  /******* Counting lemmas *******/

  lemma {:induction false} OccursAppend(a: seq<Node>, b: seq<Node>, n: Which)
    ensures Occurs(a + b, n) == Occurs(a, n) + Occurs(b, n)
    decreases |a|
  {
    if a == [] {
      assert a + b == b;
    } else {
      OccursAppend(a[1..], b, n);
      assert (a + b)[1..] == a[1..] + b;
    }
  }

  lemma OccursOne(x: Node, n: Which)
    ensures Occurs([x], n) == Is(x, n)
  {}

  lemma OccursRemove(q: seq<Node>, i: nat, n: Which)
    requires i < |q|
    ensures Occurs(q[..i] + q[i + 1..], n) + Is(q[i], n) == Occurs(q, n)
  {
    OccursAppend(q[..i], q[i + 1..], n);
    OccursAppend(q[..i], q[i..], n);
    assert q == q[..i] + q[i..] && q[i..][1..] == q[i + 1..];
  }

  lemma {:induction false} OccursEvery(q: seq<Node>)
    ensures Occurs(q, Every) == |q|
    decreases |q|
  {
    if q != [] {
      OccursEvery(q[1..]);
    }
  }

  lemma {:induction false} OccursIsMultiplicity(q: seq<Node>, x: Node)
    ensures Occurs(q, Only(x)) == multiset(q)[x]
    decreases |q|
  {
    if q != [] {
      OccursIsMultiplicity(q[1..], x);
      assert q == [q[0]] + q[1..];
    }
  }

  lemma {:induction false} WorkersUpdate(ws: seq<Worker>, i: nat, x: Worker, n: Which)
    requires i < |ws|
    ensures AtWorkers(ws[i := x], n) + AtWorker(ws[i], n) == AtWorkers(ws, n) + AtWorker(x, n)
    decreases |ws|
  {
    if i == 0 {
      assert ws[0 := x][1..] == ws[1..];
    } else {
      WorkersUpdate(ws[1..], i - 1, x, n);
      assert ws[i := x][1..] == ws[1..][i - 1 := x];
    }
  }

  lemma {:induction false} ResultsAppend(ms: seq<Msg>, m: Msg, n: Which)
    ensures InResults(ms + [m], n) == InResults(ms, n) + InMsg(m, n)
    decreases |ms|
  {
    if ms == [] {
      assert ms + [m] == [m];
    } else {
      ResultsAppend(ms[1..], m, n);
      assert (ms + [m])[1..] == ms[1..] + [m];
    }
  }

  lemma {:induction false} NoWorkerBusy(ws: seq<Worker>, n: Which)
    requires forall w :: 0 <= w < |ws| ==> AtWorker(ws[w], n) == 0
    ensures AtWorkers(ws, n) == 0
    decreases |ws|
  {
    if ws != [] {
      assert forall w :: 0 <= w < |ws| - 1 ==> AtWorker(ws[1..][w], n) == AtWorker(ws[w + 1], n);
      NoWorkerBusy(ws[1..], n);
    }
  }

  lemma {:induction false} BusyWorkerCounted(ws: seq<Worker>, w: nat)
    requires w < |ws| && AtWorker(ws[w], Every) == 1
    ensures AtWorkers(ws, Every) >= 1
    decreases |ws|
  {
    if w > 0 {
      BusyWorkerCounted(ws[1..], w - 1);
    }
  }

  lemma FlightAtMost(s: State, n: Which)
    ensures InFlight(s, n) <= InFlight(s, Every)
  {
    OccursAtMost(s.queue, n);
    WorkersAtMost(s.workers, n);
    ResultsAtMost(s.results, n);
  }

  lemma {:induction false} OccursAtMost(q: seq<Node>, n: Which)
    ensures Occurs(q, n) <= Occurs(q, Every)
    decreases |q|
  {
    if q != [] {
      OccursAtMost(q[1..], n);
    }
  }

  lemma {:induction false} WorkersAtMost(ws: seq<Worker>, n: Which)
    ensures AtWorkers(ws, n) <= AtWorkers(ws, Every)
    decreases |ws|
  {
    if ws != [] {
      WorkersAtMost(ws[1..], n);
    }
  }

  lemma {:induction false} ResultsAtMost(ms: seq<Msg>, n: Which)
    ensures InResults(ms, n) <= InResults(ms, Every)
    decreases |ms|
  {
    if ms != [] {
      ResultsAtMost(ms[1..], n);
    }
  }
}
