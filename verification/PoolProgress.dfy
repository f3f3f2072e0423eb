/** How long a batch can last and that it ends: a bound on the steps of every run
    of the call pool, and a way to the end from every state of an uninterrupted
    one (cmd/modem-test/multi_batch.go:118-335, cmd/modem-test/worker.go:163-388). */
module PoolProgress {
  import opened CallPool

  /******* Steps left *******/

  // A deferral is a further job: its node is submitted again.
  function OfClosing(windowClosed: bool): nat {
    if windowClosed then 15 else 0
  }

  function OfWorker(w: Worker): nat {
    match w
    case Opening => 2
    case Failed => 0
    case Idle => 1
    case Waiting(_) => 10
    case Calling(_) => 9
    case Finished(_, closed) => 8 + OfClosing(closed)
    case Stopped => 0
  }

  function OfWorkers(ws: seq<Worker>): nat {
    if ws == [] then 0 else OfWorker(ws[0]) + OfWorkers(ws[1..])
  }

  function OfMsg(m: Msg): nat {
    match m
    case Intermediate(_) => 2
    case Final(_, closed) => 6 + OfClosing(closed)
  }

  function OfResults(ms: seq<Msg>): nat {
    if ms == [] then 0 else OfMsg(ms[0]) + OfResults(ms[1..])
  }

  function OfCollector(k: Collector): nat {
    match k
    case Receiving => 1
    case Handling(m) => OfMsg(m)
    case Recorded => 5
    case Counted => 4
    case Closed => 0
  }

  function OfMain(m: Main): nat {
    match m
    case Submitting(todo) => 6 + 11 * |todo|
    case Checking => 5
    case Blocked => 4
    case Collecting => 3
    case Stopping => 2
    case Draining => 1
    case Ended => 0
  }

  function Flag(up: bool): nat {
    if up then 1 else 0
  }

  function StepsLeft(s: State): nat {
    OfMain(s.main) + 10 * |s.queue| + OfWorkers(s.workers) + OfResults(s.results) + OfCollector(s.collector)
    + 15 * |s.deferred| + 2 * Flag(s.signal) + Flag(!s.ctxDone) + Flag(!s.poolDone)
  }

  // What a step may add: a report, a deferral, and a scheduler cancelled once more.
  function Credit(a: Action): nat {
    match a
    case Report(_) => 3
    case Hangup(_, closed) => OfClosing(closed)
    case AbortSchedule => 1
    case _ => 0
  }

  function Credits(run: seq<Action>): nat {
    if run == [] then 0 else Credit(run[0]) + Credits(run[1..])
  }

  /******* Every step uses one up *******/

  lemma {:induction false} WorkerReplaced(ws: seq<Worker>, i: nat, x: Worker)
    requires i < |ws|
    ensures OfWorkers(ws[i := x]) + OfWorker(ws[i]) == OfWorkers(ws) + OfWorker(x)
    decreases |ws|
  {
    if i == 0 {
      assert ws[0 := x][1..] == ws[1..];
    } else {
      WorkerReplaced(ws[1..], i - 1, x);
      assert ws[i := x][1..] == ws[1..][i - 1 := x];
    }
  }

  lemma {:induction false} MsgAppended(ms: seq<Msg>, m: Msg)
    ensures OfResults(ms + [m]) == OfResults(ms) + OfMsg(m)
    decreases |ms|
  {
    if ms == [] {
      assert [] + [m] == [m];
    } else {
      MsgAppended(ms[1..], m);
      assert (ms + [m])[1..] == ms[1..] + [m];
    }
  }

  lemma WorkerStepUses(c: Config, s: State, a: Action)
    requires IsWorkerAction(a) && |s.workers| == |c.names| && WorkerEnabled(c, s, a)
    ensures StepsLeft(WorkerApply(c, s, a)) + 1 <= StepsLeft(s) + Credit(a)
  {
    hide OfWorkers, OfResults;
    var t := WorkerApply(c, s, a);
    WorkerReplaced(s.workers, a.w, t.workers[a.w]);
    assert t.workers == s.workers[a.w := t.workers[a.w]];
    if a.Report? {
      MsgAppended(s.results, Intermediate(s.workers[a.w].node));
    } else if a.Send? {
      MsgAppended(s.results, Final(s.workers[a.w].node, s.workers[a.w].windowClosed));
    }
  }

  predicate IsCollectorAction(a: Action) {
    a.Receive? || a.Record? || a.Count? || a.Signal? || a.Close?
  }

  lemma CollectorStepUses(c: Config, s: State, a: Action)
    requires IsCollectorAction(a) && |s.workers| == |c.names| && Enabled(c, s, a)
    ensures StepsLeft(Apply(c, s, a)) + 1 <= StepsLeft(s)
  {
    hide OfWorkers, WorkerEnabled, WorkerApply;
  }

  lemma MainStepUses(c: Config, s: State, a: Action)
    requires !IsWorkerAction(a) && !IsCollectorAction(a) && |s.workers| == |c.names| && Enabled(c, s, a)
    ensures StepsLeft(Apply(c, s, a)) + 1 <= StepsLeft(s) + Credit(a)
  {
    hide OfWorkers, OfResults, OfCollector, WorkerEnabled, WorkerApply, RecordMsg;
  }

  lemma StepUses(c: Config, s: State, a: Action)
    requires |s.workers| == |c.names| && Enabled(c, s, a)
    ensures StepsLeft(Apply(c, s, a)) + 1 <= StepsLeft(s) + Credit(a)
  {
    hide StepsLeft, WorkerEnabled, WorkerApply;
    if IsWorkerAction(a) {
      WorkerStepUses(c, s, a);
    } else if IsCollectorAction(a) {
      hide Enabled, Apply;
      CollectorStepUses(c, s, a);
    } else {
      hide Enabled, Apply;
      MainStepUses(c, s, a);
    }
  }

  /******* Main results *******/

  // However the goroutines interleave and whenever the batch is interrupted, a
  // run is at most as long as its nodes, modems, reports and deferrals allow.
  lemma RunsAreBounded(c: Config, run: seq<Action>)
    requires Legal(c, Init(c), run)
    ensures |run| <= 11 * |c.nodes| + 2 * |c.names| + 9 + Credits(run)
  {
    AllOpening(c.names);
    RunUses(c, Init(c), run);
  }

  lemma AllOpening(names: seq<string>)
    ensures OfWorkers(seq(|names|, _ => Opening)) == 2 * |names|
    decreases |names|
  {
    if names != [] {
      AllOpening(names[1..]);
      assert seq(|names|, _ => Opening)[1..] == seq(|names[1..]|, _ => Opening);
    }
  }

  lemma {:induction false} RunUses(c: Config, s: State, run: seq<Action>)
    requires Legal(c, s, run)
    ensures |run| + StepsLeft(Exec(c, s, run)) <= StepsLeft(s) + Credits(run)
    decreases |run|
  {
    hide StepsLeft, Enabled, Apply;
    if run != [] {
      StepUses(c, s, run[0]);
      RunUses(c, Apply(c, s, run[0]), run[1..]);
    }
  }

  predicate AllPlain(run: seq<Action>) {
    forall i :: 0 <= i < |run| ==> Plain(run[i])
  }

  ghost predicate LeadsToEnd(c: Config, s: State, run: seq<Action>) {
    Legal(c, s, run) && AllPlain(run) && Exec(c, s, run).main.Ended?
  }

  // As long as some modem has not failed to open, the batch's own steps lead from
  // any state of an uninterrupted run to its end, and within the steps left.
  lemma {:induction false} BatchEnds(c: Config, s: State) returns (run: seq<Action>)
    requires ValidConfig(c) && Reachable(c, s) && !Interrupted(s) && !AllFailed(s)
    ensures LeadsToEnd(c, s, run) && |run| <= StepsLeft(s)
    decreases StepsLeft(s)
  {
    hide StepsLeft, Reachable, Enabled, Apply, AllFailed, Interrupted;
    ReachableWidth(c, s);
    if s.main.Ended? {
      return [];
    }
    NeverStuck(c, s);
    var a :| Plain(a) && Enabled(c, s, a);
    StepUses(c, s, a);
    ReachableStep(c, s, a);
    PlainKeeps(c, s, a);
    var rest := BatchEnds(c, Apply(c, s, a));
    run := [a] + rest;
    assert run[1..] == rest;
  }

  lemma ReachableWidth(c: Config, s: State)
    requires Reachable(c, s)
    ensures |s.workers| == |c.names|
  {
    ReachableInv(c, s);
  }

  lemma PlainKeeps(c: Config, s: State, a: Action)
    requires |s.workers| == |c.names| && Enabled(c, s, a) && Plain(a)
    requires !Interrupted(s) && !AllFailed(s)
    ensures !Interrupted(Apply(c, s, a)) && !AllFailed(Apply(c, s, a))
  {
    var w :| 0 <= w < |s.workers| && !s.workers[w].Failed?;
    assert !Apply(c, s, a).workers[w].Failed?;
  }

  // Without a modem it never ends: however the run goes on, it stays before or in
  // its first wait until it is interrupted.
  lemma {:induction false} NoModemForEver(c: Config, s: State, run: seq<Action>)
    requires Reachable(c, s) && c.nodes != [] && AllFailed(s)
    requires Legal(c, s, run) && !Interrupted(Exec(c, s, run))
    ensures var t := Exec(c, s, run);
      && AllFailed(t) && (t.main.Submitting? || t.main.Checking? || t.main.Blocked?)
      && t.completed == 0 && t.finals == []
    decreases |run|
  {
    hide Reachable, Enabled, Apply, AllFailed, Interrupted;
    if run == [] {
      NoModemNoEnd(c, s);
    } else {
      ReachableStep(c, s, run[0]);
      FailedStays(c, s, run[0]);
      NoModemForEver(c, Apply(c, s, run[0]), run[1..]);
    }
  }

  // A failed worker takes no step.
  lemma FailedStays(c: Config, s: State, a: Action)
    requires |s.workers| == |c.names| && Enabled(c, s, a) && AllFailed(s)
    ensures AllFailed(Apply(c, s, a))
  {}
}
