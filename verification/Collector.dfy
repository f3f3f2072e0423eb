/** The result collector of a batch: per-phone, per-modem and per-operator
    statistics, totals, deferred nodes and the completion counter
    (cmd/modem-test/multi_batch.go:104-250). */
module Collector {
  import opened Text
  import Pool = CallPool

  type Target = Pool.Node

  datatype Result = Result(
    phone: string, worker: string, operator: string,
    target: Option<Target>, windowClosed: bool, intermediate: bool,
    success: bool, dialTime: int, emsiTime: int, message: string)

  // The result as a message of the call pool's protocol.
  function MsgOf(r: Result): Pool.Msg {
    var node := if r.target.Some? then r.target.value else Pool.Node("", r.phone);
    if r.intermediate && !r.windowClosed then Pool.Intermediate(node) else Pool.Final(node, r.windowClosed)
  }

  // PhoneStats, WorkerStats and OperatorStats count the same things.
  datatype Tally = Tally(total: nat, success: nat, failed: nat, dialTime: int, emsiTime: int)

  const ZERO := Tally(0, 0, 0, 0, 0)

  function Add(a: Tally, b: Tally): Tally {
    Tally(a.total + b.total, a.success + b.success, a.failed + b.failed,
          a.dialTime + b.dialTime, a.emsiTime + b.emsiTime)
  }

  // What one counted result is worth: call times count for successes only.
  function One(r: Result): Tally {
    if r.success then Tally(1, 1, 0, r.dialTime, r.emsiTime) else Tally(1, 0, 1, 0, 0)
  }

  /******* What the statistics mean *******/

  datatype View = Phones | Modems | Operators

  function KeyOf(v: View, r: Result): string {
    match v
    case Phones => r.phone
    case Modems => r.worker
    case Operators => r.operator
  }

  // The results of one bucket, or all of them.
  datatype Selector = All | In(view: View, key: string)

  predicate Selects(sel: Selector, r: Result) {
    !r.windowClosed && (sel.In? ==> KeyOf(sel.view, r) == sel.key)
  }

  function Share(sel: Selector, r: Result): Tally {
    if Selects(sel, r) then One(r) else ZERO
  }

  // The sum over the selected results of a history.
  function Total(rs: seq<Result>, sel: Selector): Tally {
    if rs == [] then ZERO else Add(Total(rs[..|rs| - 1], sel), Share(sel, rs[|rs| - 1]))
  }

  // The node to re-schedule: a deferred result's own target, or else the one
  // its phone number leads to.
  function Deferral(r: Result, lookup: map<string, Target>): seq<Target> {
    if !r.windowClosed then []
    else if r.target.Some? then [r.target.value]
    else if r.phone in lookup then [lookup[r.phone]] else []
  }

  function Deferrals(rs: seq<Result>, lookup: map<string, Target>): seq<Target> {
    if rs == [] then [] else Deferrals(rs[..|rs| - 1], lookup) + Deferral(rs[|rs| - 1], lookup)
  }

  function Completions(rs: seq<Result>): nat {
    if rs == [] then 0
    else
      var r := rs[|rs| - 1];
      Completions(rs[..|rs| - 1]) + if r.windowClosed || !r.intermediate then 1 else 0
  }

  function Messages(rs: seq<Result>): seq<string> {
    if rs == [] then []
    else
      var r := rs[|rs| - 1];
      Messages(rs[..|rs| - 1]) + if r.windowClosed then [] else [r.message]
  }

  // A statistics map agrees with the history: every bucket is the sum of its
  // results, and no result is without a bucket.
  ghost predicate Tracks(stats: map<string, Tally>, rs: seq<Result>, v: View) {
    && (forall k :: k in stats ==> stats[k] == Total(rs, In(v, k)))
    && (forall k :: k !in stats ==> Total(rs, In(v, k)) == ZERO)
  }

  ghost predicate AllTrack(phones: map<string, Tally>, modems: map<string, Tally>, operators: map<string, Tally>,
                           rs: seq<Result>) {
    Tracks(phones, rs, Phones) && Tracks(modems, rs, Modems) && Tracks(operators, rs, Operators)
  }

  function Bumped(stats: map<string, Tally>, key: string, r: Result): map<string, Tally> {
    stats[key := Add(if key in stats then stats[key] else ZERO, One(r))]
  }

  class ResultCollector {
    var phoneStats: map<string, Tally>
    var modemStats: map<string, Tally>
    var operatorStats: map<string, Tally>
    var totalSuccess: nat
    var totalFailed: nat
    var totalDialTime: int
    var totalEmsiTime: int
    var results: seq<string>
    var deferredNodes: seq<Target>
    var completedCount: nat
    var signal: bool
    const nodeLookup: map<string, Target>
    // every result handled, and every deferred node already taken for re-scheduling
    ghost var handled: seq<Result>
    ghost var taken: seq<Target>

    ghost predicate Valid()
      reads this
    {
      && AllTrack(phoneStats, modemStats, operatorStats, handled)
      && Tally(totalSuccess + totalFailed, totalSuccess, totalFailed, totalDialTime, totalEmsiTime)
         == Total(handled, All)
      && taken + deferredNodes == Deferrals(handled, nodeLookup)
      && completedCount == Completions(handled)
      && results == Messages(handled)
    }

    // Every known phone, modem and operator starts with an empty bucket.
    constructor (phones: set<string>, modems: set<string>, operators: set<string>, lookup: map<string, Target>)
      ensures Valid() && handled == [] && taken == [] && nodeLookup == lookup && !signal
    {
      phoneStats := map k | k in phones :: ZERO;
      modemStats := map k | k in modems :: ZERO;
      operatorStats := map k | k in operators :: ZERO;
      totalSuccess, totalFailed, totalDialTime, totalEmsiTime := 0, 0, 0, 0;
      results, deferredNodes, completedCount, signal := [], [], 0, false;
      nodeLookup := lookup;
      handled, taken := [], [];
    }

    // One result off the channel. In the call pool this is the Record step and,
    // for a final result, the Count and Signal steps.
    method Handle(r: Result, ghost s: Pool.State)
      requires Valid()
      requires s.deferred == deferredNodes && s.completed == completedCount && s.signal == signal
      requires !s.collector.Recorded?
      modifies this
      ensures Valid() && handled == old(handled) + [r] && taken == old(taken)
      ensures completedCount != old(completedCount) ==> signal
      ensures completedCount == old(completedCount) ==> signal == old(signal)
      ensures r.windowClosed && r.target.None? ==>
        deferredNodes == old(deferredNodes) + if r.phone in nodeLookup then [nodeLookup[r.phone]] else []
      ensures !r.windowClosed || r.target.Some? ==>
        var recorded := Pool.RecordMsg(s, MsgOf(r));
        && deferredNodes == recorded.deferred
        && completedCount == s.completed + Pool.Uncounted(recorded)
    {
      hide AllTrack, Total, Deferrals, Completions, Messages;
      if r.windowClosed {
        Defer(r);
      } else {
        Count(r);
      }
    }

    // A deferred result counts as neither success nor failure.
    method Defer(r: Result)
      requires Valid() && r.windowClosed
      modifies this`deferredNodes, this`completedCount, this`signal, this`handled
      ensures Valid() && handled == old(handled) + [r]
      ensures completedCount == old(completedCount) + 1 && signal
      ensures deferredNodes == old(deferredNodes) + Deferral(r, nodeLookup)
    {
      hide Total, Deferrals, Completions, Messages, AllTrack, Add;
      HistoryGrows(handled, r, nodeLookup);
      AllTrackDeferred(phoneStats, modemStats, operatorStats, handled, r);
      AddZero(Total(handled, All));
      var target := r.target;
      if target == None && r.phone in nodeLookup {
        target := Some(nodeLookup[r.phone]);
      }
      if target.Some? {
        deferredNodes := deferredNodes + [target.value];
      }
      completedCount := completedCount + 1;
      signal := true;
      handled := handled + [r];
    }

    method Count(r: Result)
      requires Valid() && !r.windowClosed
      modifies this
      ensures Valid() && handled == old(handled) + [r] && taken == old(taken)
      ensures completedCount == old(completedCount) + (if r.intermediate then 0 else 1)
      ensures signal == (old(signal) || !r.intermediate) && deferredNodes == old(deferredNodes)
    {
      hide Total, Deferrals, Completions, Messages, AllTrack, Add, One;
      HistoryGrows(handled, r, nodeLookup);
      assert Deferrals(handled, nodeLookup) + [] == Deferrals(handled, nodeLookup);
      CountBuckets(r);
      CountTotals(r);
      results, handled := results + [r.message], handled + [r];
      if !r.intermediate {
        completedCount, signal := completedCount + 1, true;
      }
    }

    method CountBuckets(r: Result)
      requires !r.windowClosed && AllTrack(phoneStats, modemStats, operatorStats, handled)
      modifies this`phoneStats, this`modemStats, this`operatorStats
      ensures AllTrack(phoneStats, modemStats, operatorStats, handled + [r])
    {
      hide Bumped, AllTrack;
      AllTrackBumped(phoneStats, modemStats, operatorStats, handled, r);
      phoneStats := Bumped(phoneStats, r.phone, r);
      modemStats := Bumped(modemStats, r.worker, r);
      operatorStats := Bumped(operatorStats, r.operator, r);
    }

    method CountTotals(r: Result)
      modifies this`totalSuccess, this`totalFailed, this`totalDialTime, this`totalEmsiTime
      ensures Tally(totalSuccess + totalFailed, totalSuccess, totalFailed, totalDialTime, totalEmsiTime)
              == Add(old(Tally(totalSuccess + totalFailed, totalSuccess, totalFailed, totalDialTime, totalEmsiTime)),
                     One(r))
    {
      if r.success {
        totalSuccess := totalSuccess + 1;
        totalDialTime := totalDialTime + r.dialTime;
        totalEmsiTime := totalEmsiTime + r.emsiTime;
      } else {
        totalFailed := totalFailed + 1;
      }
    }

    // The main loop takes the deferred nodes for the next round.
    method TakeDeferred() returns (pending: seq<Target>)
      requires Valid()
      modifies this`deferredNodes, this`taken
      ensures Valid() && deferredNodes == [] && pending == old(deferredNodes)
      ensures taken == old(taken) + pending
    {
      pending := deferredNodes;
      taken := taken + pending;
      deferredNodes := [];
    }
  }

  /******* One more result *******/

  lemma HistoryGrows(rs: seq<Result>, r: Result, lookup: map<string, Target>)
    ensures Total(rs + [r], All) == Add(Total(rs, All), Share(All, r))
    ensures Deferrals(rs + [r], lookup) == Deferrals(rs, lookup) + Deferral(r, lookup)
    ensures Completions(rs + [r]) == Completions(rs) + if r.windowClosed || !r.intermediate then 1 else 0
    ensures Messages(rs + [r]) == Messages(rs) + if r.windowClosed then [] else [r.message]
  {
    assert (rs + [r])[..|rs|] == rs;
  }

  lemma TotalGrows(rs: seq<Result>, r: Result, sel: Selector)
    ensures Total(rs + [r], sel) == Add(Total(rs, sel), Share(sel, r))
  {
    assert (rs + [r])[..|rs|] == rs;
  }

  lemma TracksDeferred(stats: map<string, Tally>, rs: seq<Result>, r: Result, v: View)
    requires r.windowClosed && Tracks(stats, rs, v)
    ensures Tracks(stats, rs + [r], v)
  {
    hide Total, Add, One;
    forall k ensures if k in stats then stats[k] == Total(rs + [r], In(v, k)) else Total(rs + [r], In(v, k)) == ZERO {
      TotalGrows(rs, r, In(v, k));
      AddZero(Total(rs, In(v, k)));
    }
  }

  lemma TracksBumped(stats: map<string, Tally>, rs: seq<Result>, r: Result, v: View)
    requires !r.windowClosed && Tracks(stats, rs, v)
    ensures Tracks(Bumped(stats, KeyOf(v, r), r), rs + [r], v)
  {
    hide Total, KeyOf, Add, One;
    var key := KeyOf(v, r);
    var after := Bumped(stats, key, r);
    forall k ensures if k in after then after[k] == Total(rs + [r], In(v, k)) else Total(rs + [r], In(v, k)) == ZERO {
      TotalGrows(rs, r, In(v, k));
      AddZero(Total(rs, In(v, k)));
    }
  }

  lemma AllTrackDeferred(phones: map<string, Tally>, modems: map<string, Tally>, operators: map<string, Tally>,
                         rs: seq<Result>, r: Result)
    requires r.windowClosed && AllTrack(phones, modems, operators, rs)
    ensures AllTrack(phones, modems, operators, rs + [r])
  {
    hide Tracks;
    TracksDeferred(phones, rs, r, Phones);
    TracksDeferred(modems, rs, r, Modems);
    TracksDeferred(operators, rs, r, Operators);
  }

  lemma AllTrackBumped(phones: map<string, Tally>, modems: map<string, Tally>, operators: map<string, Tally>,
                       rs: seq<Result>, r: Result)
    requires !r.windowClosed && AllTrack(phones, modems, operators, rs)
    ensures AllTrack(Bumped(phones, r.phone, r), Bumped(modems, r.worker, r), Bumped(operators, r.operator, r),
                     rs + [r])
  {
    hide Tracks, Bumped;
    TracksBumped(phones, rs, r, Phones);
    TracksBumped(modems, rs, r, Modems);
    TracksBumped(operators, rs, r, Operators);
  }

  lemma AddZero(a: Tally)
    ensures Add(a, ZERO) == a
  {}

  /******* The three views add up *******/

  ghost function Sum(stats: map<string, Tally>): Tally
    decreases |stats|
  {
    if |stats| == 0 then ZERO
    else
      var k := Pick(stats);
      Add(stats[k], Sum(stats - {k}))
  }

  ghost function Pick(stats: map<string, Tally>): (k: string)
    requires |stats| != 0
    ensures k in stats
  {
    var k :| k in stats; k
  }

  lemma SumStep(stats: map<string, Tally>)
    requires |stats| != 0
    ensures Pick(stats) in stats && Sum(stats) == Add(stats[Pick(stats)], Sum(stats - {Pick(stats)}))
  {}

  lemma {:induction false} SumSplit(stats: map<string, Tally>, k: string)
    requires k in stats
    ensures Sum(stats) == Add(stats[k], Sum(stats - {k}))
    decreases |stats|
  {
    hide Sum, Pick;
    SumStep(stats);
    var p := Pick(stats);
    if p != k {
      SumSplit(stats - {p}, k);
      SumSplit(stats - {k}, p);
      assert stats - {p} - {k} == stats - {k} - {p};
    }
  }

  lemma {:induction false} SumZero(stats: map<string, Tally>)
    requires forall k :: k in stats ==> stats[k] == ZERO
    ensures Sum(stats) == ZERO
    decreases |stats|
  {
    if |stats| != 0 {
      SumZero(stats - {Pick(stats)});
    }
  }

  lemma SumUpdate(stats: map<string, Tally>, k: string, x: Tally)
    requires k in stats
    ensures Sum(stats[k := Add(stats[k], x)]) == Add(Sum(stats), x)
  {
    hide Sum;
    var after := stats[k := Add(stats[k], x)];
    SumSplit(stats, k);
    SumSplit(after, k);
    assert stats - {k} == after - {k};
  }

  function BucketsBefore(stats: map<string, Tally>, rs: seq<Result>, v: View): map<string, Tally> {
    map k | k in stats :: Total(rs, In(v, k))
  }

  lemma {:induction false} BucketsSum(stats: map<string, Tally>, rs: seq<Result>, v: View)
    requires Tracks(stats, rs, v)
    ensures Sum(stats) == Total(rs, All)
    decreases |rs|
  {
    if rs == [] {
      SumZero(stats);
    } else {
      hide Tracks, Total, Sum, BucketsBefore;
      var before, r := rs[..|rs| - 1], rs[|rs| - 1];
      assert rs == before + [r];
      BeforeTracks(stats, before, r, v);
      BucketsSum(BucketsBefore(stats, before, v), before, v);
      BucketsSumNext(stats, before, r, v);
    }
  }

  lemma BeforeTracks(stats: map<string, Tally>, rs: seq<Result>, r: Result, v: View)
    requires Tracks(stats, rs + [r], v)
    ensures Tracks(BucketsBefore(stats, rs, v), rs, v)
  {
    hide Total;
    forall k | k !in stats ensures Total(rs, In(v, k)) == ZERO {
      TotalGrows(rs, r, In(v, k));
    }
  }

  lemma BucketsSumNext(stats: map<string, Tally>, rs: seq<Result>, r: Result, v: View)
    requires Tracks(stats, rs + [r], v) && Sum(BucketsBefore(stats, rs, v)) == Total(rs, All)
    ensures Sum(stats) == Total(rs + [r], All)
  {
    hide Total, Sum, KeyOf, Add, One, Tracks, BucketsBefore;
    var earlier := BucketsBefore(stats, rs, v);
    TotalGrows(rs, r, All);
    AddZero(Total(rs, All));
    OneBucketGrows(stats, rs, r, v);
    if !r.windowClosed {
      SumUpdate(earlier, KeyOf(v, r), One(r));
    }
  }

  lemma CountedHasBucket(stats: map<string, Tally>, rs: seq<Result>, r: Result, v: View)
    requires Tracks(stats, rs + [r], v) && !r.windowClosed
    ensures KeyOf(v, r) in stats
  {
    hide Total, KeyOf;
    var sel := In(v, KeyOf(v, r));
    TotalGrows(rs, r, sel);
    assert Total(rs + [r], sel).total >= 1;
  }

  // One more result adds to its own bucket and leaves the others.
  lemma OneBucketGrows(stats: map<string, Tally>, rs: seq<Result>, r: Result, v: View)
    requires Tracks(stats, rs + [r], v)
    ensures var key, earlier := KeyOf(v, r), BucketsBefore(stats, rs, v);
      if r.windowClosed then stats == earlier
      else key in earlier && stats == earlier[key := Add(earlier[key], One(r))]
  {
    hide Total, Add, One, KeyOf;
    if !r.windowClosed {
      CountedHasBucket(stats, rs, r, v);
    }
    var earlier := BucketsBefore(stats, rs, v);
    forall k | k in stats
      ensures stats[k] == if !r.windowClosed && KeyOf(v, r) == k then Add(earlier[k], One(r)) else earlier[k]
    {
      TotalGrows(rs, r, In(v, k));
      AddZero(earlier[k]);
    }
  }

  lemma {:induction false} TotalsBalance(rs: seq<Result>, sel: Selector)
    ensures Total(rs, sel).total == Total(rs, sel).success + Total(rs, sel).failed
    decreases |rs|
  {
    if rs != [] {
      TotalsBalance(rs[..|rs| - 1], sel);
    }
  }

  ghost predicate BucketsBalance(stats: map<string, Tally>) {
    forall k :: k in stats ==> stats[k].total == stats[k].success + stats[k].failed
  }

  // In every state of the collector the three views each add up to the same
  // overall successes, failures and call times, and every bucket's total is its
  // successes plus its failures.
  lemma ViewsAgree(c: ResultCollector)
    requires c.Valid()
    ensures Sum(c.phoneStats) == Sum(c.modemStats) == Sum(c.operatorStats)
            == Tally(c.totalSuccess + c.totalFailed, c.totalSuccess, c.totalFailed, c.totalDialTime, c.totalEmsiTime)
    ensures BucketsBalance(c.phoneStats) && BucketsBalance(c.modemStats) && BucketsBalance(c.operatorStats)
  {
    hide Sum, Total;
    BucketsSum(c.phoneStats, c.handled, Phones);
    BucketsSum(c.modemStats, c.handled, Modems);
    BucketsSum(c.operatorStats, c.handled, Operators);
    forall sel ensures Total(c.handled, sel).total == Total(c.handled, sel).success + Total(c.handled, sel).failed {
      TotalsBalance(c.handled, sel);
    }
  }

  /******* What a bucket holds *******/

  function CountOf(rs: seq<Result>, p: Result -> bool): nat {
    if rs == [] then 0 else CountOf(rs[..|rs| - 1], p) + if p(rs[|rs| - 1]) then 1 else 0
  }

  function TimeOf(rs: seq<Result>, p: Result -> bool, time: Result -> int): int {
    if rs == [] then 0 else TimeOf(rs[..|rs| - 1], p, time) + if p(rs[|rs| - 1]) then time(rs[|rs| - 1]) else 0
  }

  function Counted(p: Result -> bool): Result -> bool {
    (r: Result) => !r.windowClosed && p(r)
  }

  function Succeeded(p: Result -> bool): Result -> bool {
    (r: Result) => !r.windowClosed && p(r) && r.success
  }

  function Failed(p: Result -> bool): Result -> bool {
    (r: Result) => !r.windowClosed && p(r) && !r.success
  }

  const DIAL_TIME := (r: Result) => r.dialTime
  const EMSI_TIME := (r: Result) => r.emsiTime

  // The counted results of a kind, the successes and failures among them, and the
  // call times of the successes.
  function Summary(rs: seq<Result>, p: Result -> bool): Tally {
    Tally(CountOf(rs, Counted(p)), CountOf(rs, Succeeded(p)), CountOf(rs, Failed(p)),
          TimeOf(rs, Succeeded(p), DIAL_TIME), TimeOf(rs, Succeeded(p), EMSI_TIME))
  }

  lemma {:induction false} TotalIsSummary(rs: seq<Result>, sel: Selector, p: Result -> bool)
    requires forall r: Result :: p(r) <==> (sel.In? ==> KeyOf(sel.view, r) == sel.key)
    ensures Total(rs, sel) == Summary(rs, p)
    decreases |rs|
  {
    if rs != [] {
      TotalIsSummary(rs[..|rs| - 1], sel, p);
    }
  }

  // In every state of the collector a bucket of a phone, a modem or an operator is
  // the summary of the results of that phone, modem or operator, and the totals
  // are that of all results.
  lemma BucketMeans(c: ResultCollector, key: string)
    requires c.Valid()
    ensures key in c.phoneStats ==> c.phoneStats[key] == Summary(c.handled, (r: Result) => r.phone == key)
    ensures key in c.modemStats ==> c.modemStats[key] == Summary(c.handled, (r: Result) => r.worker == key)
    ensures key in c.operatorStats ==> c.operatorStats[key] == Summary(c.handled, (r: Result) => r.operator == key)
    ensures var all := Summary(c.handled, (r: Result) => true);
      && c.totalSuccess == all.success && c.totalFailed == all.failed
      && c.totalDialTime == all.dialTime && c.totalEmsiTime == all.emsiTime
  {
    hide Total, Summary;
    TotalIsSummary(c.handled, In(Phones, key), (r: Result) => r.phone == key);
    TotalIsSummary(c.handled, In(Modems, key), (r: Result) => r.worker == key);
    TotalIsSummary(c.handled, In(Operators, key), (r: Result) => r.operator == key);
    TotalIsSummary(c.handled, All, (r: Result) => true);
  }

  lemma {:induction false} MessagesAre(rs: seq<Result>, i: nat)
    requires i < |rs|
    ensures var all := (r: Result) => !r.windowClosed;
      && |Messages(rs)| == CountOf(rs, all) && CountOf(rs[..i], all) <= CountOf(rs, all)
      && (all(rs[i]) ==> CountOf(rs[..i], all) < |Messages(rs)| && Messages(rs)[CountOf(rs[..i], all)] == rs[i].message)
    decreases |rs|
  {
    var before, n := rs[..|rs| - 1], |rs| - 1;
    if before == [] {
      assert rs[..0] == [];
    } else {
      MessagesAre(before, if i < n then i else 0);
      if i < n {
        assert before[..i] == rs[..i];
      } else {
        assert before == rs[..i];
      }
    }
  }

  lemma {:induction false} CompletionsAre(rs: seq<Result>)
    ensures Completions(rs) == CountOf(rs, (r: Result) => r.windowClosed || !r.intermediate)
    decreases |rs|
  {
    if rs != [] {
      CompletionsAre(rs[..|rs| - 1]);
    }
  }

  // Every result that is not deferred has its message in the log, at its place, and
  // those deferred or final are the completions.
  lemma LogMeans(c: ResultCollector, i: nat)
    requires c.Valid() && i < |c.handled| && !c.handled[i].windowClosed
    ensures var at := CountOf(c.handled[..i], (r: Result) => !r.windowClosed);
      at < |c.results| && c.results[at] == c.handled[i].message
    ensures |c.results| == CountOf(c.handled, (r: Result) => !r.windowClosed)
    ensures c.completedCount == CountOf(c.handled, (r: Result) => r.windowClosed || !r.intermediate)
  {
    hide Messages, Completions, CountOf, Total, Deferrals;
    MessagesAre(c.handled, i);
    CompletionsAre(c.handled);
  }
}
