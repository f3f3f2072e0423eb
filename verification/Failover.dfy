/** A job at a worker: the retry loop of one call, operator failover around it,
    and the operator cache over many jobs (cmd/modem-test/worker.go:393-574,
    cmd/modem-test/failover.go:77-231, cmd/modem-test/operator_cache.go:109-200, 235-276).
    What the modem, the clock and the session context answer is an oracle. */
module Failover {
  import opened Text

  datatype Operator = Operator(name: string, prefix: string)

  datatype Outcome = Success | Failure | Cancelled | WindowClosed

  /******* One call with retries *******/

  // What the world answers in one pass of the dial loop.
  datatype Pass = Pass(cancelled: bool, callable: bool, fault: bool, connected: bool,
                       retryAdvised: bool, handshake: bool)

  // Passes the checks, dials without a fault, is not connected, and is worth retrying.
  predicate Retries(p: Pass) {
    !p.cancelled && p.callable && !p.fault && !p.connected && p.retryAdvised
  }

  predicate Dials(p: Pass) {
    !p.cancelled && p.callable
  }

  // The result when the loop ends with this pass.
  function EndsWith(p: Pass): Outcome {
    if p.cancelled then Cancelled
    else if !p.callable then WindowClosed
    else if !p.fault && p.connected && p.handshake then Success
    else Failure
  }

  function MaxRetries(retryCount: int): nat {
    if retryCount > 0 then retryCount else 0
  }

  // The first pass from k that is not followed by a retry.
  function LastPass(retryCount: int, line: nat -> Pass, k: nat): nat
    requires k <= MaxRetries(retryCount)
    decreases MaxRetries(retryCount) - k
  {
    if k < MaxRetries(retryCount) && Retries(line(k)) then LastPass(retryCount, line, k + 1) else k
  }

  function CallOutcome(retryCount: int, line: nat -> Pass): Outcome {
    EndsWith(line(LastPass(retryCount, line, 0)))
  }

  function CallDials(retryCount: int, line: nat -> Pass): nat {
    var k := LastPass(retryCount, line, 0);
    k + if Dials(line(k)) then 1 else 0
  }

  // runTest; attempts is the number of retry callbacks made.
  method RunTest(retryCount: int, line: nat -> Pass) returns (result: Outcome, dials: nat, attempts: nat)
    ensures result == CallOutcome(retryCount, line) && dials == CallDials(retryCount, line)
    ensures attempts == LastPass(retryCount, line, 0)
  {
    attempts, dials := 0, 0;
    while true
      invariant attempts <= MaxRetries(retryCount)
      invariant LastPass(retryCount, line, attempts) == LastPass(retryCount, line, 0)
      invariant dials == attempts
      decreases MaxRetries(retryCount) - attempts
    {
      var pass := line(attempts);
      if pass.cancelled {
        return Cancelled, dials, attempts;
      }
      if !pass.callable {
        return WindowClosed, dials, attempts;
      }
      dials := dials + 1;
      if pass.fault {
        return Failure, dials, attempts;
      }
      var shouldRetry := !pass.connected && pass.retryAdvised;
      if shouldRetry && retryCount > 0 && attempts < retryCount {
        attempts := attempts + 1;
      } else {
        result := if pass.connected && pass.handshake then Success else Failure;
        return;
      }
    }
  }

  // The retry rule: every pass but the last was worth a retry, the last one was
  // not or used up the retries, and at most retries + 1 calls are placed.
  lemma {:induction false} RetryRule(retryCount: int, line: nat -> Pass, k: nat)
    requires k <= MaxRetries(retryCount)
    ensures var last := LastPass(retryCount, line, k);
      && k <= last <= MaxRetries(retryCount)
      && (forall j :: k <= j < last ==> Retries(line(j)))
      && (last == MaxRetries(retryCount) || !Retries(line(last)))
    ensures CallDials(retryCount, line) <= MaxRetries(retryCount) + 1
    decreases MaxRetries(retryCount) - k
  {
    if k > 0 {
      RetryBound(retryCount, line, 0);
    }
    RetryBound(retryCount, line, k);
    if k < MaxRetries(retryCount) && Retries(line(k)) {
      RetryRule(retryCount, line, k + 1);
    }
  }

  lemma {:induction false} RetryBound(retryCount: int, line: nat -> Pass, k: nat)
    requires k <= MaxRetries(retryCount)
    ensures k <= LastPass(retryCount, line, k) <= MaxRetries(retryCount)
    decreases MaxRetries(retryCount) - k
  {
    if k < MaxRetries(retryCount) && Retries(line(k)) {
      RetryBound(retryCount, line, k + 1);
    }
  }

  // The loop reaches pass k: every earlier pass was dialled without a fault, not
  // connected and worth a retry, and the retries lasted.
  ghost predicate Reaches(retryCount: int, line: nat -> Pass, k: nat) {
    && (k == 0 || k <= retryCount)
    && forall j: nat :: j < k ==>
         !line(j).cancelled && line(j).callable && !line(j).fault && !line(j).connected && line(j).retryAdvised
  }

  // What a call means: success is a connection with its handshake, reached within
  // the retries; cancelled and outside the window likewise; failure is the rest.
  lemma CallMeans(retryCount: int, line: nat -> Pass)
    ensures CallOutcome(retryCount, line) == Success <==>
      exists k :: Reaches(retryCount, line, k) && !line(k).cancelled && line(k).callable && !line(k).fault
                  && line(k).connected && line(k).handshake
    ensures CallOutcome(retryCount, line) == Cancelled <==>
      exists k :: Reaches(retryCount, line, k) && line(k).cancelled
    ensures CallOutcome(retryCount, line) == WindowClosed <==>
      exists k :: Reaches(retryCount, line, k) && !line(k).cancelled && !line(k).callable
  {
    var last := LastPass(retryCount, line, 0);
    RetryRule(retryCount, line, 0);
    assert Reaches(retryCount, line, last);
    hide LastPass;
    forall k: nat | Reaches(retryCount, line, k) && !Retries(line(k)) ensures k == last {
      ReachedOnce(retryCount, line, k, last);
    }
  }

  lemma ReachedOnce(retryCount: int, line: nat -> Pass, k: nat, last: nat)
    requires Reaches(retryCount, line, k) && !Retries(line(k))
    requires Reaches(retryCount, line, last) && (last == MaxRetries(retryCount) || !Retries(line(last)))
    ensures k == last
  {
    assert last < k ==> Retries(line(last));
  }

  // One call is placed for each pass reached that is neither cancelled nor outside
  // the window.
  lemma CallsPlaced(retryCount: int, line: nat -> Pass, k: nat)
    ensures k < CallDials(retryCount, line) <==> Reaches(retryCount, line, k) && !line(k).cancelled && line(k).callable
  {
    var last := LastPass(retryCount, line, 0);
    RetryRule(retryCount, line, 0);
    hide LastPass;
    assert Reaches(retryCount, line, k) && k > last ==> Retries(line(last));
  }

  /******* The order of operators *******/

  function Names(ops: seq<Operator>): seq<string> {
    seq(|ops|, i requires 0 <= i < |ops| => ops[i].name)
  }

  method FindOperatorByName(ops: seq<Operator>, name: string) returns (index: int)
    ensures index == -1 <==> forall i :: 0 <= i < |ops| ==> ops[i].name != name
    ensures index != -1 ==> 0 <= index < |ops| && ops[index].name == name
    ensures index != -1 ==> forall i :: 0 <= i < index ==> ops[i].name != name
  {
    for i := 0 to |ops|
      invariant forall j :: 0 <= j < i ==> ops[j].name != name
    {
      if ops[i].name == name {
        return i;
      }
    }
    return -1;
  }

  // The first operator of that name moved to the front.
  function Ordered(ops: seq<Operator>, cached: Option<string>): seq<Operator> {
    if cached.None? then ops
    else
      var i := FirstNamed(ops, cached.value);
      if i == |ops| then ops else [ops[i]] + ops[..i] + ops[i + 1..]
  }

  function FirstNamed(ops: seq<Operator>, name: string): (i: nat)
    ensures i <= |ops|
    ensures forall j :: 0 <= j < i ==> ops[j].name != name
    ensures i < |ops| ==> ops[i].name == name
  {
    if ops == [] || ops[0].name == name then 0 else FirstNamed(ops[1..], name) + 1
  }

  method ReorderOperatorsWithCached(ops: seq<Operator>, cached: string) returns (r: seq<Operator>)
    ensures r == Ordered(ops, Some(cached))
  {
    hide Ordered, FirstNamed;
    var index := FindOperatorByName(ops, cached);
    FirstIs(ops, cached, index);
    if index == -1 {
      NoneOrdered(ops, cached);
      return ops;
    }
    OrderedAt(ops, cached, index);
    if index == 0 {
      return ops;
    }
    r := MovedToFront(ops, index);
  }

  // The copying at the end of the reordering.
  method MovedToFront(ops: seq<Operator>, index: nat) returns (r: seq<Operator>)
    requires index < |ops|
    ensures r == [ops[index]] + ops[..index] + ops[index + 1..]
  {
    var reordered := new Operator[|ops|](_ => ops[index]);
    for i := 0 to index
      invariant reordered[0] == ops[index]
      invariant forall j :: 0 <= j < i ==> reordered[j + 1] == ops[j]
    {
      reordered[i + 1] := ops[i];
    }
    for i := index + 1 to |ops|
      invariant reordered[0] == ops[index]
      invariant forall j :: 0 <= j < index ==> reordered[j + 1] == ops[j]
      invariant forall j :: index < j < i ==> reordered[j] == ops[j]
    {
      reordered[i] := ops[i];
    }
    r := reordered[..];
    Assembled(ops, index, r);
  }

  lemma Assembled(ops: seq<Operator>, index: nat, r: seq<Operator>)
    requires |r| == |ops| && index < |ops| && r[0] == ops[index]
    requires forall j :: 0 <= j < index ==> r[j + 1] == ops[j]
    requires forall j :: index < j < |ops| ==> r[j] == ops[j]
    ensures r == [ops[index]] + ops[..index] + ops[index + 1..]
  {
    assert r[1..index + 1] == ops[..index] && r[index + 1..] == ops[index + 1..];
    assert r == [r[0]] + r[1..index + 1] + r[index + 1..];
  }

  lemma OrderedAt(ops: seq<Operator>, cached: string, index: nat)
    requires index < |ops| && FirstNamed(ops, cached) == index
    ensures Ordered(ops, Some(cached)) == if index == 0 then ops else [ops[index]] + ops[..index] + ops[index + 1..]
  {
    hide FirstNamed;
    if index == 0 {
      FirstStays(ops);
    }
  }

  lemma FirstIs(ops: seq<Operator>, name: string, index: int)
    requires index == -1 <==> forall i :: 0 <= i < |ops| ==> ops[i].name != name
    requires index != -1 ==> 0 <= index < |ops| && ops[index].name == name
    requires index != -1 ==> forall i :: 0 <= i < index ==> ops[i].name != name
    ensures FirstNamed(ops, name) == if index == -1 then |ops| else index
  {}

  lemma NoneOrdered(ops: seq<Operator>, cached: string)
    requires FirstNamed(ops, cached) == |ops|
    ensures Ordered(ops, Some(cached)) == ops
  {}

  lemma FirstStays(ops: seq<Operator>)
    requires ops != []
    ensures [ops[0]] + ops[..0] + ops[1..] == ops
  {}

  // Reordering is a permutation that puts the cached operator first and keeps
  // the others in their order.
  lemma ReorderPermutes(ops: seq<Operator>, cached: string)
    ensures multiset(Ordered(ops, Some(cached))) == multiset(ops)
    ensures var r := Ordered(ops, Some(cached));
      (r == ops && cached !in Names(ops)) ||
      exists i :: 0 <= i < |ops| && ops[i].name == cached && cached !in Names(ops[..i])
                  && r == [ops[i]] + ops[..i] + ops[i + 1..]
  {
    var i := FirstNamed(ops, cached);
    hide FirstNamed;
    if i < |ops| {
      MoveFront(ops, i);
    }
  }

  lemma MoveFront(ops: seq<Operator>, i: nat)
    requires i < |ops|
    ensures multiset([ops[i]] + ops[..i] + ops[i + 1..]) == multiset(ops)
  {
    assert ops == ops[..i] + [ops[i]] + ops[i + 1..];
  }

  /******* Failover *******/

  // What the world answers around operator i's call.
  datatype Turn = Turn(cancelled: bool, line: nat -> Pass, callableAfter: bool)

  datatype Job = Job(phone: string, operators: seq<Operator>, callable: bool, turns: nat -> Turn)

  datatype FailoverResult = FailoverResult(
    success: bool, successOperator: Option<Operator>, lastOperator: Option<Operator>,
    lastResult: Outcome, tried: nat, allFail: bool, windowClosed: bool)

  // Operator i of n is tried without success and another one is to follow.
  predicate PassesOn(retryCount: int, turn: Turn, i: nat, n: nat) {
    && !turn.cancelled
    && CallOutcome(retryCount, turn.line) != WindowClosed
    && CallOutcome(retryCount, turn.line) != Success
    && i + 1 < n
    && turn.callableAfter
  }

  // The turn with which the sequence ends.
  function LastTurn(retryCount: int, turns: nat -> Turn, i: nat, n: nat): (m: nat)
    requires i < n
    ensures i <= m < n
    decreases n - i
  {
    if PassesOn(retryCount, turns(i), i, n) then LastTurn(retryCount, turns, i + 1, n) else i
  }

  // How the sequence ends with turn m.
  function ResultAt(retryCount: int, ordered: seq<Operator>, turn: Turn, m: nat): FailoverResult
    requires m < |ordered|
  {
    var op, out := Some(ordered[m]), CallOutcome(retryCount, turn.line);
    if turn.cancelled then FailoverResult(false, None, op, Cancelled, m, false, false)
    else if out == WindowClosed then FailoverResult(false, None, op, out, m + 1, false, true)
    else if out == Success then FailoverResult(true, op, op, out, m + 1, false, false)
    else if m + 1 < |ordered| then FailoverResult(false, None, op, WindowClosed, m + 1, false, true)
    else FailoverResult(false, None, op, out, m + 1, true, false)
  }

  function CachedName(entries: map<string, Operator>, phone: string): Option<string> {
    if phone in entries then Some(entries[phone].name) else None
  }

  // The sequence with the cached name it found. Without operators the call is
  // placed directly, and the cache is not used.
  function SequenceResult(retryCount: int, cached: Option<string>, job: Job): FailoverResult {
    var ordered := Ordered(job.operators, cached);
    if job.operators == [] then
      var out := CallOutcome(retryCount, job.turns(0).line);
      FailoverResult(out == Success, None, None, out, 0, false, out == WindowClosed)
    else if !job.callable then FailoverResult(false, None, None, WindowClosed, 0, false, true)
    else
      var m := LastTurn(retryCount, job.turns, 0, |ordered|);
      ResultAt(retryCount, ordered, job.turns(m), m)
  }

  // What the sequence writes to the cache when it ends.
  function Stored(entries: map<string, Operator>, phone: string, r: FailoverResult): map<string, Operator> {
    if r.successOperator.Some? then entries[phone := r.successOperator.value]
    else if r.allFail then entries - {phone}
    else entries
  }

  function FailoverOf(retryCount: int, entries: map<string, Operator>, job: Job): FailoverResult {
    SequenceResult(retryCount, CachedName(entries, job.phone), job)
  }

  function CacheAfter(retryCount: int, entries: map<string, Operator>, job: Job): map<string, Operator> {
    Stored(entries, job.phone, FailoverOf(retryCount, entries, job))
  }

  // The calls placed by the first k operators.
  function DialsOf(retryCount: int, turns: nat -> Turn, k: nat): nat {
    if k == 0 then 0 else DialsOf(retryCount, turns, k - 1) + CallDials(retryCount, turns(k - 1).line)
  }

  class OperatorCache {
    var entries: map<string, Operator>

    constructor ()
      ensures entries == map[]
    {
      entries := map[];
    }

    method Get(phone: string) returns (cached: Option<string>)
      ensures cached == CachedName(entries, phone)
    {
      if phone in entries {
        return Some(entries[phone].name);
      }
      return None;
    }

    method Set(phone: string, op: Operator)
      modifies this
      ensures entries == old(entries)[phone := op]
    {
      entries := entries[phone := op];
    }

    method Delete(phone: string)
      modifies this
      ensures entries == old(entries) - {phone}
    {
      entries := entries - {phone};
    }
  }

  // The intermediate results reported before the sequence ends at turn m.
  function Reports(retryCount: int, ordered: seq<Operator>, turns: nat -> Turn, m: nat): seq<(Outcome, Operator)>
    requires m <= |ordered|
  {
    seq(m, i requires 0 <= i < m => (CallOutcome(retryCount, turns(i).line), ordered[i]))
  }

  // runFailoverSequence: reports are the operator-result callbacks, dials the
  // calls placed. A missing cache is one that holds nothing.
  method RunFailoverSequence(retryCount: int, job: Job, cache: OperatorCache?)
    returns (r: FailoverResult, reports: seq<(Outcome, Operator)>, dials: nat)
    modifies cache
    ensures var entries := if cache == null then map[] else old(cache.entries);
      && r == FailoverOf(retryCount, entries, job)
      && (cache != null ==> cache.entries == CacheAfter(retryCount, entries, job))
      && (job.operators == [] ==> reports == [] && dials == CallDials(retryCount, job.turns(0).line))
      && (job.operators != [] && !job.callable ==> reports == [] && dials == 0)
      && (job.operators != [] && job.callable ==>
           var ordered := Ordered(job.operators, CachedName(entries, job.phone));
           var m := LastTurn(retryCount, job.turns, 0, |ordered|);
           && reports == Reports(retryCount, ordered, job.turns, m)
           && dials == DialsOf(retryCount, job.turns, r.tried))
  {
    hide CallOutcome, CallDials, Ordered, Reports, LastTurn;
    reports, dials := [], 0;
    if job.operators == [] {
      var out, calls, attempts := RunTest(retryCount, job.turns(0).line);
      return FailoverResult(out == Success, None, None, out, 0, false, out == WindowClosed), [], calls;
    }
    var ordered := job.operators;
    var cached: Option<string> := None;
    if cache != null {
      cached := cache.Get(job.phone);
    }
    if cached.Some? {
      ordered := ReorderOperatorsWithCached(job.operators, cached.value);
    }
    OrderedLength(job.operators, cached);
    if !job.callable {
      return FailoverResult(false, None, None, WindowClosed, 0, false, true), [], 0;
    }
    NoReports(retryCount, ordered, job.turns);
    ghost var m := LastTurn(retryCount, job.turns, 0, |ordered|);
    var last := Failure;
    for i := 0 to |ordered|
      invariant cache != null ==> cache.entries == old(cache.entries)
      invariant i < |ordered| ==> LastTurn(retryCount, job.turns, i, |ordered|) == m
      invariant reports == Reports(retryCount, ordered, job.turns, if i < |ordered| then i else |ordered| - 1)
      invariant dials == DialsOf(retryCount, job.turns, i)
      invariant i == |ordered| ==>
        && m == |ordered| - 1 && !job.turns(m).cancelled
        && last == CallOutcome(retryCount, job.turns(m).line)
        && last != WindowClosed && last != Success
    {
      var op, turn := ordered[i], job.turns(i);
      OneTurn(retryCount, job.turns, i, |ordered|);
      if turn.cancelled {
        return FailoverResult(false, None, Some(op), Cancelled, i, false, false), reports, dials;
      }
      var calls, attempts;
      last, calls, attempts := RunTest(retryCount, turn.line);
      dials := dials + calls;
      if last == WindowClosed {
        return FailoverResult(false, None, Some(op), last, i + 1, false, true), reports, dials;
      }
      if last == Success {
        if cache != null {
          cache.Set(job.phone, op);
        }
        return FailoverResult(true, Some(op), Some(op), last, i + 1, false, false), reports, dials;
      }
      if i < |ordered| - 1 {
        if !turn.callableAfter {
          return FailoverResult(false, None, Some(op), WindowClosed, i + 1, false, true), reports, dials;
        }
        reports := reports + [(last, op)];
        OneMoreReport(retryCount, ordered, job.turns, i);
      }
    }
    if cache != null {
      cache.Delete(job.phone);
    }
    r := FailoverResult(false, None, Some(ordered[|ordered| - 1]), last, |ordered|, true, false);
  }

  lemma OneTurn(retryCount: int, turns: nat -> Turn, i: nat, n: nat)
    requires i < n
    ensures var turn := turns(i);
      LastTurn(retryCount, turns, i, n) ==
        if PassesOn(retryCount, turn, i, n)
        then LastTurn(retryCount, turns, i + 1, n) else i
  {}

  lemma OrderedLength(ops: seq<Operator>, cached: Option<string>)
    ensures |Ordered(ops, cached)| == |ops|
    ensures cached.None? ==> Ordered(ops, cached) == ops
  {}

  lemma NoReports(retryCount: int, ordered: seq<Operator>, turns: nat -> Turn)
    ensures Reports(retryCount, ordered, turns, 0) == []
  {}

  lemma OneMoreReport(retryCount: int, ordered: seq<Operator>, turns: nat -> Turn, i: nat)
    requires i < |ordered|
    ensures Reports(retryCount, ordered, turns, i + 1)
            == Reports(retryCount, ordered, turns, i) + [(CallOutcome(retryCount, turns(i).line), ordered[i])]
  {}

  // The operators before the last turn were tried without success, one report
  // each; the last turn is tried too, unless the session was cancelled before it.
  // At most retries + 1 calls are placed for each operator.
  lemma FailoverCounts(retryCount: int, entries: map<string, Operator>, job: Job)
    requires job.operators != [] && job.callable
    ensures var r := FailoverOf(retryCount, entries, job);
      var m := LastTurn(retryCount, job.turns, 0, |job.operators|);
      && r.tried == (if job.turns(m).cancelled then m else m + 1)
      && (forall i :: 0 <= i < m ==>
           && CallOutcome(retryCount, job.turns(i).line) != Success
           && !job.turns(i).cancelled && job.turns(i).callableAfter)
      && DialsOf(retryCount, job.turns, r.tried) <= |job.operators| * (MaxRetries(retryCount) + 1)
    ensures var ordered := Ordered(job.operators, CachedName(entries, job.phone));
      var m := LastTurn(retryCount, job.turns, 0, |job.operators|);
      && |ordered| == |job.operators| && |Reports(retryCount, ordered, job.turns, m)| == m
      && forall i :: 0 <= i < m ==>
           var report := Reports(retryCount, ordered, job.turns, m)[i];
           report.1 == ordered[i] && report.0 == CallOutcome(retryCount, job.turns(i).line)
  {
    hide CallOutcome, CallDials, Ordered, MaxRetries;
    OrderedLength(job.operators, CachedName(entries, job.phone));
    var r := FailoverOf(retryCount, entries, job);
    TurnsBefore(retryCount, job.turns, 0, |job.operators|);
    DialsBound(retryCount, job.turns, r.tried);
    TimesMonotone(r.tried, |job.operators|, MaxRetries(retryCount) + 1);
  }

  // Failover succeeds exactly when some operator connects after all before it
  // were passed over, and names that operator.
  lemma SuccessIff(retryCount: int, entries: map<string, Operator>, job: Job, op: Operator)
    requires job.operators != [] && job.callable
    ensures FailoverOf(retryCount, entries, job).successOperator == Some(op) <==>
      var ordered, n := Ordered(job.operators, CachedName(entries, job.phone)), |job.operators|;
      exists m :: 0 <= m < n && |ordered| == n && ordered[m] == op && !job.turns(m).cancelled
        && CallOutcome(retryCount, job.turns(m).line) == Success
        && forall i :: 0 <= i < m ==> PassesOn(retryCount, job.turns(i), i, n)
  {
    hide CallOutcome, Ordered;
    var ordered, n := Ordered(job.operators, CachedName(entries, job.phone)), |job.operators|;
    OrderedLength(job.operators, CachedName(entries, job.phone));
    var last := LastTurn(retryCount, job.turns, 0, n);
    TurnsBefore(retryCount, job.turns, 0, n);
    forall m | 0 <= m < n && !PassesOn(retryCount, job.turns(m), m, n)
               && forall i :: 0 <= i < m ==> PassesOn(retryCount, job.turns(i), i, n)
      ensures m == last
    {}
  }

  // Operator i's turn comes: every operator before it was called without success,
  // and the window stayed open in between.
  ghost predicate TurnComes(retryCount: int, job: Job, i: nat) {
    && i < |job.operators| && job.callable
    && forall j: nat :: j < i ==>
         && !job.turns(j).cancelled && job.turns(j).callableAfter
         && CallOutcome(retryCount, job.turns(j).line) != WindowClosed
         && CallOutcome(retryCount, job.turns(j).line) != Success
  }

  // The window is closed before the first call, in a call, or after a call that is
  // neither the last nor a success. The last operator is the one whose turn ends
  // the sequence.
  lemma WindowClosedIff(retryCount: int, entries: map<string, Operator>, job: Job)
    requires job.operators != []
    ensures var r, n := FailoverOf(retryCount, entries, job), |job.operators|;
      r.windowClosed <==>
        || !job.callable
        || exists i: nat :: TurnComes(retryCount, job, i) && !job.turns(i).cancelled
             && var out := CallOutcome(retryCount, job.turns(i).line);
                out == WindowClosed || (out != Success && i + 1 < n && !job.turns(i).callableAfter)
  {
    hide CallOutcome, Ordered;
    OrderedLength(job.operators, CachedName(entries, job.phone));
    if job.callable {
      var m := LastTurn(retryCount, job.turns, 0, |job.operators|);
      TurnsBefore(retryCount, job.turns, 0, |job.operators|);
      LastTurnComes(retryCount, job);
      hide LastTurn, TurnComes;
      var turn := job.turns(m);
      assert FailoverOf(retryCount, entries, job).windowClosed <==>
        !turn.cancelled && (CallOutcome(retryCount, turn.line) == WindowClosed
                            || (CallOutcome(retryCount, turn.line) != Success && m + 1 < |job.operators|));
    }
  }

  lemma LastTurnComes(retryCount: int, job: Job)
    requires job.operators != [] && job.callable
    ensures var m := LastTurn(retryCount, job.turns, 0, |job.operators|);
      TurnComes(retryCount, job, m)
      && forall i: nat ::
           TurnComes(retryCount, job, i) && !PassesOn(retryCount, job.turns(i), i, |job.operators|) ==> i == m
  {
    hide CallOutcome;
    var m := LastTurn(retryCount, job.turns, 0, |job.operators|);
    TurnsBefore(retryCount, job.turns, 0, |job.operators|);
    forall i: nat | TurnComes(retryCount, job, i) && !PassesOn(retryCount, job.turns(i), i, |job.operators|)
      ensures i == m
    {
      TurnsOnce(retryCount, job, i, m);
    }
  }

  lemma TurnsOnce(retryCount: int, job: Job, i: nat, m: nat)
    requires TurnComes(retryCount, job, i) && !PassesOn(retryCount, job.turns(i), i, |job.operators|)
    requires TurnComes(retryCount, job, m) && !PassesOn(retryCount, job.turns(m), m, |job.operators|)
    ensures i == m
  {}

  // The operator named last is the one at whose turn the sequence ended, and the
  // result is its call's, unless the session or the window ended it.
  lemma LastOperatorMeans(retryCount: int, entries: map<string, Operator>, job: Job, i: nat)
    requires TurnComes(retryCount, job, i)
    requires !(TurnComes(retryCount, job, i + 1))
    ensures var r := FailoverOf(retryCount, entries, job);
      var ordered := Ordered(job.operators, CachedName(entries, job.phone));
      |ordered| == |job.operators| && r.lastOperator == Some(ordered[i])
    ensures var r, out := FailoverOf(retryCount, entries, job), CallOutcome(retryCount, job.turns(i).line);
      r.lastResult == if job.turns(i).cancelled then Cancelled
                      else if r.windowClosed then WindowClosed else out
  {
    hide CallOutcome, Ordered;
    OrderedLength(job.operators, CachedName(entries, job.phone));
    LastTurnComes(retryCount, job);
    assert !PassesOn(retryCount, job.turns(i), i, |job.operators|);
  }

  // The operator stored for the phone is tried first, if it is still configured.
  lemma CachedIsFirst(retryCount: int, entries: map<string, Operator>, job: Job)
    requires job.phone in entries && entries[job.phone].name in Names(job.operators)
    requires job.callable && !job.turns(0).cancelled && CallOutcome(retryCount, job.turns(0).line) == Success
    ensures var r := FailoverOf(retryCount, entries, job);
      r.success && r.successOperator.Some? && r.successOperator.value.name == entries[job.phone].name
  {
    var name := entries[job.phone].name;
    hide CallOutcome, LastTurn, Ordered;
    var i :| 0 <= i < |job.operators| && job.operators[i].name == name;
    FirstOrdered(job.operators, name);
    OneTurn(retryCount, job.turns, 0, |job.operators|);
    OrderedLength(job.operators, Some(name));
  }

  lemma FirstOrdered(ops: seq<Operator>, name: string)
    requires exists i :: 0 <= i < |ops| && ops[i].name == name
    ensures Ordered(ops, Some(name)) != [] && Ordered(ops, Some(name))[0].name == name
  {
    var i := FirstNamed(ops, name);
    hide FirstNamed;
  }

  // Without operators the one call decides, and the cache stays as it is.
  lemma DirectCall(retryCount: int, entries: map<string, Operator>, job: Job)
    requires job.operators == []
    ensures var r, out := FailoverOf(retryCount, entries, job), CallOutcome(retryCount, job.turns(0).line);
      && (r.success <==> out == Success) && (r.windowClosed <==> out == WindowClosed) && r.lastResult == out
      && CacheAfter(retryCount, entries, job) == entries
  {}

  // All operators failed exactly when each was called, none connected and the
  // window stayed open; a call cancelled on the way counts as a failure.
  lemma AllFailIff(retryCount: int, entries: map<string, Operator>, job: Job)
    requires job.operators != [] && job.callable
    ensures FailoverOf(retryCount, entries, job).allFail <==>
      var n := |job.operators|;
      forall i :: 0 <= i < n ==>
        var turn := job.turns(i);
        && !turn.cancelled && CallOutcome(retryCount, turn.line) != WindowClosed
        && CallOutcome(retryCount, turn.line) != Success && (i + 1 < n ==> turn.callableAfter)
  {
    hide CallOutcome, Ordered;
    OrderedLength(job.operators, CachedName(entries, job.phone));
    TurnsBefore(retryCount, job.turns, 0, |job.operators|);
  }

  // A session cancelled in the last call: the cached operator is forgotten.
  lemma CancelledCallForgets(retryCount: int, entries: map<string, Operator>, phone: string, op: Operator)
    returns (job: Job)
    requires phone in entries
    ensures job.phone == phone && job.operators == [op] && job.callable
    ensures FailoverOf(retryCount, entries, job).lastResult == Cancelled
    ensures phone !in CacheAfter(retryCount, entries, job)
  {
    var line := (k: nat) => Pass(true, true, false, false, false, false);
    var turns := (i: nat) => Turn(false, line, true);
    job := Job(phone, [op], true, turns);
    OrderedLength([op], CachedName(entries, phone));
    assert LastTurn(retryCount, turns, 0, 1) == 0;
    assert CallOutcome(retryCount, line) == Cancelled;
    assert FailoverOf(retryCount, entries, job).lastResult == Cancelled;
  }

  lemma TimesMonotone(a: nat, b: nat, c: nat)
    requires a <= b
    ensures a * c <= b * c
  {
    assert b * c == a * c + (b - a) * c;
  }

  lemma {:induction false} TurnsBefore(retryCount: int, turns: nat -> Turn, i: nat, n: nat)
    requires i < n
    ensures var m := LastTurn(retryCount, turns, i, n);
      (forall j :: i <= j < m ==> PassesOn(retryCount, turns(j), j, n)) && !PassesOn(retryCount, turns(m), m, n)
    decreases n - i
  {
    if PassesOn(retryCount, turns(i), i, n) {
      TurnsBefore(retryCount, turns, i + 1, n);
    }
  }

  lemma {:induction false} DialsBound(retryCount: int, turns: nat -> Turn, k: nat)
    ensures DialsOf(retryCount, turns, k) <= k * (MaxRetries(retryCount) + 1)
  {
    if k > 0 {
      hide MaxRetries, CallDials;
      DialsBound(retryCount, turns, k - 1);
      RetryRule(retryCount, turns(k - 1).line, 0);
      OneMoreTimes(k, MaxRetries(retryCount) + 1);
    }
  }

  lemma OneMoreTimes(k: nat, x: nat)
    requires k > 0
    ensures k * x == (k - 1) * x + x
  {}

  /******* The cache over a run of jobs *******/

  // The cache after a run of jobs, one at a time.
  function CacheAfterAll(retryCount: int, entries: map<string, Operator>, jobs: seq<Job>): map<string, Operator>
    decreases |jobs|
  {
    if jobs == [] then entries
    else CacheAfter(retryCount, CacheAfterAll(retryCount, entries, jobs[..|jobs| - 1]), jobs[|jobs| - 1])
  }

  // The result of job i in the run.
  function ResultOf(retryCount: int, entries: map<string, Operator>, jobs: seq<Job>, i: nat): FailoverResult
    requires i < |jobs|
  {
    FailoverOf(retryCount, CacheAfterAll(retryCount, entries, jobs[..i]), jobs[i])
  }

  // Job i settled the phone's entry: an operator connected, or all failed.
  predicate Settles(retryCount: int, entries: map<string, Operator>, jobs: seq<Job>, i: nat, phone: string)
    requires i < |jobs|
  {
    jobs[i].phone == phone &&
    var r := ResultOf(retryCount, entries, jobs, i);
    r.successOperator.Some? || r.allFail
  }

  // Job i is the last to settle the phone's entry: the entry is its operator if
  // it succeeded, and there is none if it failed on all operators.
  ghost predicate DecidedBy(retryCount: int, entries: map<string, Operator>, jobs: seq<Job>, i: nat, phone: string)
  {
    && i < |jobs| && Settles(retryCount, entries, jobs, i, phone)
    && (forall k :: i < k < |jobs| ==> !Settles(retryCount, entries, jobs, k, phone))
    && var r, after := ResultOf(retryCount, entries, jobs, i), CacheAfterAll(retryCount, entries, jobs);
       if r.successOperator.Some? then phone in after && Some(after[phone]) == r.successOperator else phone !in after
  }

  ghost predicate Undecided(retryCount: int, entries: map<string, Operator>, jobs: seq<Job>, phone: string)
  {
    && (forall k :: 0 <= k < |jobs| ==> !Settles(retryCount, entries, jobs, k, phone))
    && var after := CacheAfterAll(retryCount, entries, jobs);
       (phone in after <==> phone in entries) && (phone in after ==> after[phone] == entries[phone])
  }

  // Over any run of jobs, the entry of a phone is the operator of its last
  // success with no later failure on all operators.
  lemma {:induction false} CacheIsLastSuccess(retryCount: int, entries: map<string, Operator>, jobs: seq<Job>,
                                              phone: string)
    ensures Undecided(retryCount, entries, jobs, phone)
            || exists i :: DecidedBy(retryCount, entries, jobs, i, phone)
    decreases |jobs|
  {
    if jobs != [] {
      hide Undecided, DecidedBy, CacheAfterAll, Settles;
      var before, n := jobs[..|jobs| - 1], |jobs| - 1;
      CacheIsLastSuccess(retryCount, entries, before, phone);
      if Settles(retryCount, entries, jobs, n, phone) {
        NewlyDecided(retryCount, entries, jobs, phone);
      } else if Undecided(retryCount, entries, before, phone) {
        StillUndecided(retryCount, entries, jobs, phone);
      } else {
        var i :| DecidedBy(retryCount, entries, before, i, phone);
        StillDecided(retryCount, entries, jobs, i, phone);
      }
    }
  }

  lemma NewlyDecided(retryCount: int, entries: map<string, Operator>, jobs: seq<Job>, phone: string)
    requires jobs != [] && Settles(retryCount, entries, jobs, |jobs| - 1, phone)
    ensures DecidedBy(retryCount, entries, jobs, |jobs| - 1, phone)
  {
    hide CacheAfterAll, ResultOf, Settles;
    CacheStep(retryCount, entries, jobs, phone);
  }

  lemma StillUndecided(retryCount: int, entries: map<string, Operator>, jobs: seq<Job>, phone: string)
    requires jobs != [] && !Settles(retryCount, entries, jobs, |jobs| - 1, phone)
    requires Undecided(retryCount, entries, jobs[..|jobs| - 1], phone)
    ensures Undecided(retryCount, entries, jobs, phone)
  {
    hide CacheAfterAll, ResultOf, Settles;
    CacheStep(retryCount, entries, jobs, phone);
  }

  lemma StillDecided(retryCount: int, entries: map<string, Operator>, jobs: seq<Job>, i: nat, phone: string)
    requires jobs != [] && !Settles(retryCount, entries, jobs, |jobs| - 1, phone)
    requires DecidedBy(retryCount, entries, jobs[..|jobs| - 1], i, phone)
    ensures DecidedBy(retryCount, entries, jobs, i, phone)
  {
    hide CacheAfterAll, ResultOf, Settles;
    CacheStep(retryCount, entries, jobs, phone);
  }

  lemma CacheStep(retryCount: int, entries: map<string, Operator>, jobs: seq<Job>, phone: string)
    requires jobs != []
    ensures var before, n := jobs[..|jobs| - 1], |jobs| - 1;
      var prior, next := CacheAfterAll(retryCount, entries, before), CacheAfterAll(retryCount, entries, jobs);
      && (forall i :: 0 <= i < n ==> ResultOf(retryCount, entries, before, i) == ResultOf(retryCount, entries, jobs, i))
      && (forall i :: 0 <= i < n ==>
           Settles(retryCount, entries, before, i, phone) == Settles(retryCount, entries, jobs, i, phone))
      && if Settles(retryCount, entries, jobs, n, phone)
         then var r := ResultOf(retryCount, entries, jobs, n);
              if r.successOperator.Some? then phone in next && Some(next[phone]) == r.successOperator
              else phone !in next
         else (phone in next <==> phone in prior) && (phone in next ==> next[phone] == prior[phone])
  {
    hide FailoverOf;
    var before, n := jobs[..|jobs| - 1], |jobs| - 1;
    forall i | 0 <= i < n
      ensures ResultOf(retryCount, entries, before, i) == ResultOf(retryCount, entries, jobs, i)
    {
      assert before[..i] == jobs[..i];
    }
    NotBoth(retryCount, CacheAfterAll(retryCount, entries, before), jobs[n]);
  }

  lemma NotBoth(retryCount: int, entries: map<string, Operator>, job: Job)
    ensures var r := FailoverOf(retryCount, entries, job);
      !(r.successOperator.Some? && r.allFail)
  {}
}
