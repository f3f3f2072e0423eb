/** The operator cache as the workers of the call pool share it: a job reads its
    phone's entry after it has the phone's lock and writes it before it gives the
    lock back, and the steps of the other goroutines come between
    (cmd/modem-test/worker.go:223-345, cmd/modem-test/failover.go:77-231). */
module SharedCache {
  import opened Text
  import opened Failover
  import Pool = CallPool

  // A job between its read and its write, and between its write and the hang-up.
  datatype Session = Reading(job: Job, cached: Option<string>) | Settled(windowClosed: bool)

  // done and results are history: the jobs in the order in which they wrote.
  datatype System = System(pool: Pool.State, cache: map<string, Operator>, sessions: map<nat, Session>,
                           done: seq<Job>, results: seq<FailoverResult>)

  datatype Config = Config(pool: Pool.Config, retryCount: int, entries: map<string, Operator>)

  datatype Event = Step(action: Pool.Action) | Read(w: nat, job: Job) | Write(w: nat)

  function Init(c: Config): System {
    System(Pool.Init(c.pool), c.entries, map[], [], [])
  }

  // A worker hangs up when its job is settled, with the outcome of the job.
  predicate Enabled(c: Config, s: System, e: Event) {
    match e
    case Step(a) => Pool.Enabled(c.pool, s.pool, a)
      && (a.Hangup? ==> a.w in s.sessions && s.sessions[a.w] == Settled(a.windowClosed))
    case Read(w, job) => Pool.Holds(s.pool, w, job.phone) && w !in s.sessions
    case Write(w) => w in s.sessions && s.sessions[w].Reading?
  }

  function Apply(c: Config, s: System, e: Event): System
    requires |s.pool.workers| == |c.pool.names| && Enabled(c, s, e)
  {
    match e
    case Step(a) =>
      s.(pool := Pool.Apply(c.pool, s.pool, a), sessions := if a.Hangup? then s.sessions - {a.w} else s.sessions)
    case Read(w, job) =>
      s.(sessions := s.sessions[w := Reading(job, CachedName(s.cache, job.phone))])
    case Write(w) =>
      var (job, r) := (s.sessions[w].job, SequenceResult(c.retryCount, s.sessions[w].cached, s.sessions[w].job));
      s.(cache := Stored(s.cache, job.phone, r), sessions := s.sessions[w := Settled(r.windowClosed)],
         done := s.done + [job], results := s.results + [r])
  }

  predicate Legal(c: Config, s: System, run: seq<Event>)
    decreases |run|
  {
    |s.pool.workers| == |c.pool.names| &&
    (run == [] || (Enabled(c, s, run[0]) && Legal(c, Apply(c, s, run[0]), run[1..])))
  }

  function Exec(c: Config, s: System, run: seq<Event>): System
    requires Legal(c, s, run)
    decreases |run|
  {
    if run == [] then s else Exec(c, Apply(c, s, run[0]), run[1..])
  }

  // A job between read and write has its phone, and what it read is still there.
  ghost predicate SessionsInv(s: System) {
    forall w :: w in s.sessions ==>
      && w < |s.pool.workers| && s.pool.workers[w].Calling?
      && (s.sessions[w].Reading? ==>
           && Pool.Holds(s.pool, w, s.sessions[w].job.phone)
           && s.sessions[w].cached == CachedName(s.cache, s.sessions[w].job.phone))
  }

  // The history so far is that of the jobs one at a time.
  ghost predicate Serial(c: Config, s: System) {
    && s.cache == CacheAfterAll(c.retryCount, c.entries, s.done)
    && |s.results| == |s.done|
    && forall i: nat :: i < |s.done| ==> s.results[i] == ResultOf(c.retryCount, c.entries, s.done, i)
  }

  ghost predicate Inv(c: Config, s: System) {
    Pool.LocksInv(c.pool, s.pool) && SessionsInv(s) && Serial(c, s)
  }

  // A worker stays on the phone until it hangs up.
  lemma CallersStay(c: Pool.Config, s: Pool.State, a: Pool.Action, w: nat)
    requires |s.workers| == |c.names| && Pool.Enabled(c, s, a)
    requires w < |s.workers| && s.workers[w].Calling? && !(a.Hangup? && a.w == w)
    ensures w < |Pool.Apply(c, s, a).workers| && Pool.Apply(c, s, a).workers[w] == s.workers[w]
  {
    if Pool.IsWorkerAction(a) {
      WorkersStay(c, s, a, w);
    } else {
      hide Pool.WorkerEnabled, Pool.WorkerApply;
    }
  }

  lemma WorkersStay(c: Pool.Config, s: Pool.State, a: Pool.Action, w: nat)
    requires Pool.IsWorkerAction(a) && |s.workers| == |c.names| && Pool.WorkerEnabled(c, s, a)
    requires w < |s.workers| && s.workers[w].Calling? && !(a.Hangup? && a.w == w)
    ensures w < |Pool.WorkerApply(c, s, a).workers| && Pool.WorkerApply(c, s, a).workers[w] == s.workers[w]
  {}

  lemma StepKeeps(c: Config, s: System, a: Pool.Action)
    requires Inv(c, s) && Enabled(c, s, Step(a))
    ensures Inv(c, Apply(c, s, Step(a)))
  {
    hide Pool.LocksInv, Serial, Pool.Enabled, Pool.Apply, CachedName;
    WidthOf(c.pool, s.pool);
    Pool.LocksKept(c.pool, s.pool, a);
    forall w | w in s.sessions && !(a.Hangup? && a.w == w)
      ensures w < |Pool.Apply(c.pool, s.pool, a).workers|
      ensures Pool.Apply(c.pool, s.pool, a).workers[w] == s.pool.workers[w]
    {
      CallersStay(c.pool, s.pool, a, w);
    }
    SerialByHistory(c, s, Apply(c, s, Step(a)));
  }

  lemma WidthOf(c: Pool.Config, s: Pool.State)
    requires Pool.LocksInv(c, s)
    ensures |s.workers| == |c.names|
  {}

  lemma SerialByHistory(c: Config, s: System, t: System)
    requires Serial(c, s) && t.cache == s.cache && t.done == s.done && t.results == s.results
    ensures Serial(c, t)
  {}

  // The lock keeps the other jobs of the phone away, and other phones do not matter.
  lemma WriteKeeps(c: Config, s: System, w: nat)
    requires Inv(c, s) && Enabled(c, s, Write(w))
    ensures |s.pool.workers| == |c.pool.names| && Inv(c, Apply(c, s, Write(w)))
  {
    hide Serial, SequenceResult, CacheAfterAll;
    var t, job := Apply(c, s, Write(w)), s.sessions[w].job;
    forall v | v in t.sessions && t.sessions[v].Reading?
      ensures t.sessions[v].cached == CachedName(t.cache, t.sessions[v].job.phone)
    {
      assert v != w && Pool.Holds(s.pool, v, t.sessions[v].job.phone) && Pool.Holds(s.pool, w, job.phone);
    }
    SerialNext(c, s, w);
  }

  lemma SerialNext(c: Config, s: System, w: nat)
    requires |s.pool.workers| == |c.pool.names| && Serial(c, s) && Enabled(c, s, Write(w))
    requires s.sessions[w].cached == CachedName(s.cache, s.sessions[w].job.phone)
    ensures Serial(c, Apply(c, s, Write(w)))
  {
    hide SequenceResult, CachedName;
    var t := Apply(c, s, Write(w));
    assert t.done[..|s.done|] == s.done;
    forall i: nat | i < |t.done| ensures t.results[i] == ResultOf(c.retryCount, c.entries, t.done, i) {
      if i < |s.done| {
        assert t.done[..i] == s.done[..i];
      }
    }
  }

  lemma EventKeeps(c: Config, s: System, e: Event)
    requires Inv(c, s) && Enabled(c, s, e)
    ensures |s.pool.workers| == |c.pool.names| && Inv(c, Apply(c, s, e))
  {
    hide Serial, SequenceResult, CachedName, Stored;
    WidthOf(c.pool, s.pool);
    match e {
      case Step(a) => StepKeeps(c, s, a);
      case Read(_, _) => SerialByHistory(c, s, Apply(c, s, e));
      case Write(w) => WriteKeeps(c, s, w);
    }
  }

  lemma {:induction false} RunKeeps(c: Config, s: System, run: seq<Event>)
    requires Inv(c, s) && Legal(c, s, run)
    ensures Inv(c, Exec(c, s, run))
    decreases |run|
  {
    hide Inv, Enabled, Apply;
    if run != [] {
      EventKeeps(c, s, run[0]);
      RunKeeps(c, Apply(c, s, run[0]), run[1..]);
    }
  }

  lemma InitKept(c: Config)
    ensures Inv(c, Init(c))
  {
    Pool.InitInv(c.pool);
  }

  /******* Main results *******/

  // However the workers interleave, every job gets the result, and leaves the
  // cache, of the jobs run one at a time in the order in which they wrote.
  lemma InterleavingsAreSerial(c: Config, run: seq<Event>)
    requires Legal(c, Init(c), run)
    ensures var s := Exec(c, Init(c), run);
      && s.cache == CacheAfterAll(c.retryCount, c.entries, s.done) && |s.results| == |s.done|
      && forall i: nat :: i < |s.done| ==> s.results[i] == ResultOf(c.retryCount, c.entries, s.done, i)
  {
    InitKept(c);
    RunKeeps(c, Init(c), run);
  }

  // Job i connected with an operator of the phone, or failed on all of them.
  predicate Decides(s: System, i: nat, phone: string) {
    i < |s.done| && i < |s.results| && s.done[i].phone == phone
    && (s.results[i].successOperator.Some? || s.results[i].allFail)
  }

  function EntryOf(entries: map<string, Operator>, phone: string): Option<Operator> {
    if phone in entries then Some(entries[phone]) else None
  }

  // So a phone's entry is the operator of its last success with no later failure
  // on all operators, whatever the other workers did in between.
  lemma SharedCacheIsLastSuccess(c: Config, run: seq<Event>, phone: string)
    requires Legal(c, Init(c), run)
    ensures var s := Exec(c, Init(c), run);
      || ((forall i: nat :: !Decides(s, i, phone)) && EntryOf(s.cache, phone) == EntryOf(c.entries, phone))
      || exists i: nat :: Decides(s, i, phone) && (forall k: nat :: k > i ==> !Decides(s, k, phone))
           && EntryOf(s.cache, phone) == s.results[i].successOperator
  {
    var s := Exec(c, Init(c), run);
    InterleavingsAreSerial(c, run);
    hide Exec, Legal, ResultOf, CacheAfterAll;
    forall i: nat | i < |s.done|
      ensures Decides(s, i, phone) == Settles(c.retryCount, c.entries, s.done, i, phone)
    {}
    CacheIsLastSuccess(c.retryCount, c.entries, s.done, phone);
    if !Undecided(c.retryCount, c.entries, s.done, phone) {
      var i: nat :| DecidedBy(c.retryCount, c.entries, s.done, i, phone);
      assert Decides(s, i, phone);
      assert EntryOf(s.cache, phone) == s.results[i].successOperator;
    }
  }
}
