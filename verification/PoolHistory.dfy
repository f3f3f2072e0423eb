/** What the calls of a batch lead to, counted in the run itself: a call that ends
    with its window closed is deferred and its node submitted again, any other is
    final (cmd/modem-test/worker.go:345-375, cmd/modem-test/multi_batch.go:133-157,
    286-320). */
module PoolHistory {
  import opened CallPool

  /******* Outcomes on their way *******/

  // The calls ended, with their window closed or not, whose result is not recorded yet.
  function AtOneWorker(w: Worker, closed: bool, n: Which): nat {
    if w.Finished? && w.windowClosed == closed then Is(w.node, n) else 0
  }

  function AtAllWorkers(ws: seq<Worker>, closed: bool, n: Which): nat {
    if ws == [] then 0 else AtOneWorker(ws[0], closed, n) + AtAllWorkers(ws[1..], closed, n)
  }

  function InOneMsg(m: Msg, closed: bool, n: Which): nat {
    if m.Final? && m.windowClosed == closed then Is(m.node, n) else 0
  }

  function InAllResults(ms: seq<Msg>, closed: bool, n: Which): nat {
    if ms == [] then 0 else InOneMsg(ms[0], closed, n) + InAllResults(ms[1..], closed, n)
  }

  function AtCollector(k: Collector, closed: bool, n: Which): nat {
    if k.Handling? then InOneMsg(k.msg, closed, n) else 0
  }

  function OnTheWay(s: State, closed: bool, n: Which): nat {
    AtAllWorkers(s.workers, closed, n) + InAllResults(s.results, closed, n) + AtCollector(s.collector, closed, n)
  }

  /******* What a run did *******/

  function HangupOf(c: Config, s: State, a: Action, closed: bool, n: Which): nat
    requires |s.workers| == |c.names| && Enabled(c, s, a)
  {
    if a.Hangup? && a.windowClosed == closed then Is(s.workers[a.w].node, n) else 0
  }

  function SubmitOf(c: Config, s: State, a: Action, n: Which): nat
    requires |s.workers| == |c.names| && Enabled(c, s, a)
  {
    if a.Submit? then Is(s.main.todo[a.i], n) else 0
  }

  // How often the run ended a call of a node with that outcome, or of any node.
  function Hangups(c: Config, s: State, run: seq<Action>, closed: bool, n: Which): nat
    requires Legal(c, s, run)
    decreases |run|
  {
    if run == [] then 0
    else HangupOf(c, s, run[0], closed, n) + Hangups(c, Apply(c, s, run[0]), run[1..], closed, n)
  }

  // How often it submitted a node.
  function Submits(c: Config, s: State, run: seq<Action>, n: Which): nat
    requires Legal(c, s, run)
    decreases |run|
  {
    if run == [] then 0 else SubmitOf(c, s, run[0], n) + Submits(c, Apply(c, s, run[0]), run[1..], n)
  }

  /******* One step *******/

  lemma {:induction false} WorkerReplaced(ws: seq<Worker>, i: nat, x: Worker, closed: bool, n: Which)
    requires i < |ws|
    ensures AtAllWorkers(ws[i := x], closed, n) + AtOneWorker(ws[i], closed, n)
         == AtAllWorkers(ws, closed, n) + AtOneWorker(x, closed, n)
    decreases |ws|
  {
    if i == 0 {
      assert ws[0 := x][1..] == ws[1..];
    } else {
      WorkerReplaced(ws[1..], i - 1, x, closed, n);
      assert ws[i := x][1..] == ws[1..][i - 1 := x];
    }
  }

  lemma {:induction false} MsgAppended(ms: seq<Msg>, m: Msg, closed: bool, n: Which)
    ensures InAllResults(ms + [m], closed, n) == InAllResults(ms, closed, n) + InOneMsg(m, closed, n)
    decreases |ms|
  {
    if ms == [] {
      assert [] + [m] == [m];
    } else {
      MsgAppended(ms[1..], m, closed, n);
      assert (ms + [m])[1..] == ms[1..] + [m];
    }
  }

  // A worker's step puts an outcome on its way exactly when it hangs up.
  lemma WorkerStepOutcomes(c: Config, s: State, a: Action, closed: bool, n: Which)
    requires IsWorkerAction(a) && |s.workers| == |c.names| && WorkerEnabled(c, s, a) && !s.poolDone
    ensures OnTheWay(WorkerApply(c, s, a), closed, n) == OnTheWay(s, closed, n) + HangupOf(c, s, a, closed, n)
  {
    hide AtAllWorkers, InAllResults, Is;
    var t := WorkerApply(c, s, a);
    WorkerReplaced(s.workers, a.w, t.workers[a.w], closed, n);
    assert t.workers == s.workers[a.w := t.workers[a.w]];
    if a.Report? {
      MsgAppended(s.results, Intermediate(s.workers[a.w].node), closed, n);
    } else if a.Send? {
      MsgAppended(s.results, Final(s.workers[a.w].node, s.workers[a.w].windowClosed), closed, n);
    }
  }

  // Any other step takes one off exactly when it records a result, which is a
  // deferral or a final.
  lemma OtherStepOutcomes(c: Config, s: State, a: Action, n: Which)
    requires !IsWorkerAction(a) && |s.workers| == |c.names| && Enabled(c, s, a)
    ensures var t := Apply(c, s, a);
      && OnTheWay(t, false, n) + Occurs(t.finals, n) == OnTheWay(s, false, n) + Occurs(s.finals, n)
      && OnTheWay(t, true, Every) + t.deferrals == OnTheWay(s, true, Every) + s.deferrals
  {
    hide AtAllWorkers, WorkerEnabled, WorkerApply, Occurs, Is;
    if a.Record? {
      RecordOutcomes(c, s, n);
    } else {
      hide RecordMsg;
    }
  }

  lemma RecordOutcomes(c: Config, s: State, n: Which)
    requires |s.workers| == |c.names| && Enabled(c, s, Record)
    ensures var t := Apply(c, s, Record);
      && OnTheWay(t, false, n) + Occurs(t.finals, n) == OnTheWay(s, false, n) + Occurs(s.finals, n)
      && OnTheWay(t, true, Every) + t.deferrals == OnTheWay(s, true, Every) + s.deferrals
  {
    hide AtAllWorkers, InAllResults, WorkerEnabled, WorkerApply, Occurs;
    var m := s.collector.msg;
    if m.Final? && !m.windowClosed {
      OccursAppend(s.finals, [m.node], n);
      OccursOne(m.node, n);
    }
  }

  // The nodes to submit: what is deferred comes back with the next round.
  lemma OtherStepNodes(c: Config, s: State, a: Action, n: Which)
    requires !IsWorkerAction(a) && |s.workers| == |c.names| && Enabled(c, s, a) && !Interrupted(s) && !a.Interrupt?
    ensures var t := Apply(c, s, a);
      SubmitOf(c, s, a, n) + Occurs(Todo(t.main), n) + Occurs(t.deferred, n) + OnTheWay(t, true, n)
      == Occurs(Todo(s.main), n) + Occurs(s.deferred, n) + OnTheWay(s, true, n)
  {
    hide AtAllWorkers, WorkerEnabled, WorkerApply;
    if a.Record? && s.collector.msg.Final? && s.collector.msg.windowClosed {
      OccursAppend(s.deferred, [s.collector.msg.node], n);
      OccursOne(s.collector.msg.node, n);
    } else if a.Submit? {
      OccursRemove(s.main.todo, a.i, n);
    }
  }

  lemma StepOutcomes(c: Config, s: State, a: Action, n: Which)
    requires |s.workers| == |c.names| && Enabled(c, s, a) && !Interrupted(s) && !a.Interrupt?
    ensures var t := Apply(c, s, a);
      && OnTheWay(t, false, n) + Occurs(t.finals, n)
         == OnTheWay(s, false, n) + Occurs(s.finals, n) + HangupOf(c, s, a, false, n)
      && OnTheWay(t, true, Every) + t.deferrals
         == OnTheWay(s, true, Every) + s.deferrals + HangupOf(c, s, a, true, Every)
      && SubmitOf(c, s, a, n) + Occurs(Todo(t.main), n) + Occurs(t.deferred, n) + OnTheWay(t, true, n)
         == Occurs(Todo(s.main), n) + Occurs(s.deferred, n) + OnTheWay(s, true, n) + HangupOf(c, s, a, true, n)
  {
    hide OnTheWay, Occurs, Is;
    if IsWorkerAction(a) {
      WorkerStepOutcomes(c, s, a, false, n);
      WorkerStepOutcomes(c, s, a, true, n);
      WorkerStepOutcomes(c, s, a, true, Every);
      WorkerLeaves(c, s, a);
      hide WorkerEnabled, WorkerApply;
    } else {
      hide WorkerEnabled, WorkerApply;
      OtherStepOutcomes(c, s, a, n);
      OtherStepNodes(c, s, a, n);
    }
  }

  /******* Whole runs *******/

  lemma {:induction false} RunOutcomes(c: Config, s: State, run: seq<Action>, n: Which)
    requires (s.poolDone ==> s.ctxDone) && Legal(c, s, run) && !Interrupted(Exec(c, s, run))
    ensures var t := Exec(c, s, run);
      && OnTheWay(t, false, n) + Occurs(t.finals, n)
         == OnTheWay(s, false, n) + Occurs(s.finals, n) + Hangups(c, s, run, false, n)
      && OnTheWay(t, true, Every) + t.deferrals
         == OnTheWay(s, true, Every) + s.deferrals + Hangups(c, s, run, true, Every)
      && Submits(c, s, run, n) + Occurs(Todo(t.main), n) + Occurs(t.deferred, n) + OnTheWay(t, true, n)
         == Occurs(Todo(s.main), n) + Occurs(s.deferred, n) + OnTheWay(s, true, n) + Hangups(c, s, run, true, n)
    ensures !Interrupted(s)
    decreases |run|
  {
    hide OnTheWay, Occurs, Todo, HangupOf, SubmitOf, Enabled, Apply, Interrupted;
    if run != [] {
      InterruptSticks(c, s, run[0]);
      if run[0].Interrupt? {
        InterruptSeen(c, s, run[0]);
      }
      RunOutcomes(c, Apply(c, s, run[0]), run[1..], n);
      StepOutcomes(c, s, run[0], n);
    }
  }

  lemma InterruptSeen(c: Config, s: State, a: Action)
    requires |s.workers| == |c.names| && Enabled(c, s, a) && a.Interrupt?
    ensures Interrupted(Apply(c, s, a))
  {}

  lemma {:induction false} NothingStarted(names: seq<string>, closed: bool, n: Which)
    ensures AtAllWorkers(seq(|names|, _ => Opening), closed, n) == 0
    decreases |names|
  {
    if names != [] {
      NothingStarted(names[1..], closed, n);
      assert seq(|names|, _ => Opening)[1..] == seq(|names[1..]|, _ => Opening);
    }
  }

  // Over every uninterrupted run: the calls that ended with their window closed are
  // the deferrals recorded and those still on their way, the other calls are the
  // finals recorded and those on their way, and a node is submitted, or about to be,
  // once for being scheduled and once for each of its deferrals.
  lemma CallsLeadToOutcomes(c: Config, run: seq<Action>, n: Which)
    requires Legal(c, Init(c), run) && !Interrupted(Exec(c, Init(c), run))
    ensures var s := Exec(c, Init(c), run);
      && Hangups(c, Init(c), run, true, Every) == s.deferrals + OnTheWay(s, true, Every)
      && Hangups(c, Init(c), run, false, n) == Occurs(s.finals, n) + OnTheWay(s, false, n)
      && Occurs(c.nodes, n) + Hangups(c, Init(c), run, true, n)
         == Submits(c, Init(c), run, n) + Occurs(Todo(s.main), n) + Occurs(s.deferred, n) + OnTheWay(s, true, n)
  {
    NothingStarted(c.names, true, n);
    NothingStarted(c.names, false, n);
    NothingStarted(c.names, true, Every);
    RunOutcomes(c, Init(c), run, n);
  }

  lemma {:induction false} WorkersWithin(ws: seq<Worker>, closed: bool, n: Which)
    ensures AtAllWorkers(ws, closed, n) <= AtWorkers(ws, n)
    decreases |ws|
  {
    if ws != [] {
      WorkersWithin(ws[1..], closed, n);
    }
  }

  lemma {:induction false} ResultsWithin(ms: seq<Msg>, closed: bool, n: Which)
    ensures InAllResults(ms, closed, n) <= InResults(ms, n)
    decreases |ms|
  {
    if ms != [] {
      ResultsWithin(ms[1..], closed, n);
    }
  }

  lemma WithinFlight(s: State, closed: bool, n: Which)
    ensures OnTheWay(s, closed, n) <= InFlight(s, Every)
  {
    WorkersWithin(s.workers, closed, n);
    ResultsWithin(s.results, closed, n);
    FlightAtMost(s, n);
  }

  // At the end of the batch nothing is on its way: every call that ended with its
  // window closed was a deferral, every node was submitted once more for each of
  // its deferrals, and the final results are those of the other calls.
  lemma BatchOutcomes(c: Config, run: seq<Action>, x: Node)
    requires Legal(c, Init(c), run)
    requires var s := Exec(c, Init(c), run); !Interrupted(s) && QueueClosed(s)
    ensures var s := Exec(c, Init(c), run);
      && s.deferrals == Hangups(c, Init(c), run, true, Every)
      && Submits(c, Init(c), run, Only(x)) == multiset(c.nodes)[x] + Hangups(c, Init(c), run, true, Only(x))
      && multiset(s.finals)[x] == Hangups(c, Init(c), run, false, Only(x))
  {
    var s := Exec(c, Init(c), run);
    InitInv(c);
    RunInv(c, Init(c), run);
    Accounting(c, s);
    CallsLeadToOutcomes(c, run, Only(x));
    WithinFlight(s, true, Only(x));
    WithinFlight(s, false, Only(x));
    WithinFlight(s, true, Every);
    OccursIsMultiplicity(c.nodes, x);
    OccursIsMultiplicity(s.finals, x);
    hide Exec, Legal, Hangups, Submits, OnTheWay, LocksInv, OpenInv, TailInv, FlowInv;
    assert s.deferred == [];
  }
}
