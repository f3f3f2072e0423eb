# NodelistDB: verified model of its stateful core

A Dafny 4.11 model of the parts of NodelistDB whose state outlives one call, with
proofs of what they promise over whole files, runs and interleavings.
`dafny verify dfyconfig.toml` checks everything.

**Call pool** (`CallPool`, `PoolHistory`, `PoolProgress`, `Coordinator`, `Collector`,
`Failover`, `SharedCache`). The batch mode of the modem tester as a step system: a submitting main
loop, any number of workers with phone locks, a result collector, bounded channels. Every interleaving is a sequence of
actions, interrupts included. The lock table and the collector are classes whose
methods are tied to the steps; the dial loop, operator failover and the operator cache
are methods with loops over an oracle for modem, clock and context; the cache the
workers share is a trace over the pool's steps.

**List parsers** (`Text`, `Keywords`, `Addresses`, `PointLines`, `Duplicates`, `Folds`,
`Nodelist`, `BossFamily`, `Combined`, `Fakenet`, `Detection`, `Comments`, `Agreement`,
`NodeRoundTrip`, `RoundTrip`).
The nodelist loop with inline points and the three pointlist machines (FTS-5002 sections
2.1 to 2.4), each a method with a loop proved against a fold of its step function; then
round trips, agreement of independently written parsers, and the numbering of repeated
addresses. Flag text is opaque and treated alike by all parsers.

**Import gate** (`ImportGate`, `GateProofs`, `Snapshot`, `PointQuery`,
`NodelistSeries`). An import is a list of store effects, gate row first to go and last to come, stopped by a crash or an error
after any number of them. The snapshot query reads what is gated, one row an address.

**Cache** (`CacheKeys`, `Catalogue`, `MemoryCache`, `CachedReads`, `Transparency`,
`AtomicRuns`, `DiskBudget`, `CacheLocks`, `LockFirst`). Keys and sweep prefixes, the in-memory cache, cache-aside reads with
invalidation, the disk-budget machine, and the lock protocol of readers, collection
goroutine and `Close`.

**Folds** (`Archive`, `Dates`, `EmailFlags`, `EmailReading`). Archive winner selection, year and day
correction, email capability resolution.

## What the proofs say about the code

- If every modem fails to open, a batch with nodes to call waits for ever; as long as one
  has not failed, an uninterrupted run always has a next step, and its own steps lead to
  the end (`NeverStuck`, `BatchEnds`, `NoModemForEver`, `HangsWithoutModem`).
- A nodelist's repeated inline points are all stored and counted, but a reader sees the
  first of each address: the whole issue exactly when no row conflicts
  (`RepeatedAddressIsHidden`, `SnapshotIsWholeIssueIff`).
- The comment on `analyticsKey` says calls that differ in any argument cannot collide.
  They can, at a colon: `FlagReportsCollide`. Two keys are equal exactly when their
  arguments have the same pieces between colons (`SameKeyIff`), so the comment holds for
  the reports in use while at most the one free argument has colons (`ReadsHaveOwnKeys`).
- The cached reads of a family swept since the last write return today's answers exactly
  when no outdated one is stored after the sweep (`TransparentIff`), which nothing in the
  code prevents (`SplitReadGoesStale`). Uninterrupted reads and inserts never store one, so
  over them the families that inserts sweep are transparent (`AtomicRunsAreTransparent`):
  four with every import, `sysops` with a recent one, no others (`UnsweptGoesStale`).
- The comment speaks of consecutive over-budget ticks. The suspending tick counts as the
  first, and ticks between the marks neither count nor clear (`BandsDoNotMatter`,
  `ResetNeedsNoRow`).
- The archive's comment on ordering says the blob closest to publication wins over a later
  re-add; the code, as its tier comment says, lets the newest one win (`WinnerIsPublished`).
- A day that exists neither in the stated year nor the one before is skipped by the archive
  builder, but dated in the following year by the importer (`OverflowRolls`).
- A call cancelled on the last operator counts as a failure of all operators, and the cached
  operator is forgotten (`CancelledCallForgets`).
- A fakenet list gives its points back exactly when no system name reads as another point's
  address (`FakenetRoundTripIff`, `MisleadingName`).
- The archive's counters add up to its candidates exactly when no write fails
  (`ReportBalances`).

## Model

| member | source | states |
|---|---|---|
| CallPool.OneCallerPerPhone | cmd/modem-test/coordinator.go:32-81 | in every interleaving, interrupts included: at most one worker is calling a phone, a phone is in the in-use table exactly while some worker is calling it, and the table names that worker; so no finished, idle or stopped worker holds one |
| CallPool.BarrierComplete | cmd/modem-test/multi_batch.go:270-335 | when the wait for completion has returned uninterrupted, both channels are empty, no worker has a job, and every scheduled node is either finished or already in the deferral list |
| CallPool.NodesConserved | cmd/modem-test/multi_batch.go:270-335 | when the deferral rounds end, the nodes with a non-deferred final result are the scheduled nodes as a multiset, and jobs submitted are nodes plus deferrals |
| PoolHistory.CallsLeadToOutcomes | cmd/modem-test/multi_batch.go:133-157 | over every uninterrupted run, counted in its actions: the calls ended with a closed window are the deferrals recorded and those on their way, the other calls are the finals recorded and those on their way, and each node is submitted, or about to be, once and once more for each of its deferrals |
| PoolHistory.BatchOutcomes | cmd/modem-test/multi_batch.go:297-320 | when the deferral rounds end, deferrals are the calls ended with a closed window, every node was submitted once and once more for each of its own, and the final results are those of the other calls, node by node |
| CallPool.NoLostWakeup | cmd/modem-test/multi_batch.go:409-421 | whenever the waiter is blocked and the count has reached its target, the signal slot is full or the collector is about to fill it |
| CallPool.NeverStuck | cmd/modem-test/worker.go:170-388 | an uninterrupted run that has not ended has a next step of its own (no interrupt, extra report, closed window or failing modem), as long as some modem has not failed to open |
| PoolProgress.RunsAreBounded | cmd/modem-test/multi_batch.go:118-335 | every run, interrupted or not, has at most 11 steps a node, 2 a modem, 9 more, 3 a report, 15 a deferral and 1 for each cancelled scheduling |
| PoolProgress.BatchEnds | cmd/modem-test/multi_batch.go:270-335 | from every state of an uninterrupted run in which some modem has not failed, the batch's own steps lead to its end, within the steps left |
| CallPool.NoModemNoEnd | cmd/modem-test/worker.go:174-207 | with nodes to call and every modem failed, the main loop is still before or in its first wait and nothing has completed |
| PoolProgress.NoModemForEver | cmd/modem-test/worker.go:174-207 | and so it stays: every uninterrupted continuation of such a run has every modem failed, is in or before the first wait and has completed nothing |
| CallPool.HangsWithoutModem | cmd/modem-test/multi_batch.go:270-335 | one node and one modem that does not open: a reachable state with no next step |
| CallPool.InvKept | cmd/modem-test/multi_batch.go:118-335 | every step keeps the lock table, the place of every node, the totals, the phase facts and the wake-up rule |
| CallPool.BalanceKept | cmd/modem-test/multi_batch.go:133-157 | every step keeps each node in exactly one of: finished, deferred, to submit, queued, at a worker, in the results, in the collector's hand |
| CallPool.Accounting | cmd/modem-test/multi_batch.go:242-248 | submitted jobs are the counted ones, the one about to be counted, and those in flight |
| Coordinator.PhoneCoordinator.AcquirePass | cmd/modem-test/coordinator.go:32-56 | one pass of the waiting loop acquires, gives up or waits exactly when the pool's acquire step, its give-up step or neither is enabled, and changes the table as that step does |
| Coordinator.PhoneCoordinator.ReleasePhone | cmd/modem-test/coordinator.go:73-81 | the release changes the table as the pool's hang-up step does, and records the time of release |
| Collector.ResultCollector.constructor | cmd/modem-test/multi_batch.go:102-128 | the pre-filled empty buckets agree with an empty history |
| Collector.ResultCollector.Handle | cmd/modem-test/multi_batch.go:133-249 | after each result every bucket is the sum of its results so far, the totals, deferral list, messages and completion counter are those of the history, and deferrals and counter move as the pool's record and count steps; a deferred result without a node defers the one its phone leads to; a counted result leaves the signal set |
| Collector.ResultCollector.TakeDeferred | cmd/modem-test/multi_batch.go:300-306 | the deferred nodes are handed over once: those taken and those left are all deferrals so far, in order |
| Collector.ViewsAgree | cmd/modem-test/multi_batch.go:159-201 | in every collector state the per-phone, per-modem and per-operator buckets each sum to the same successes, failures and call times, and in every bucket the total is successes plus failures |
| Collector.BucketMeans | cmd/modem-test/multi_batch.go:159-201 | in every collector state a phone's, a modem's or an operator's bucket has the number of its counted results, its successes and failures, and the dial and EMSI times of its successes; so have the totals |
| Collector.LogMeans | cmd/modem-test/multi_batch.go:133-249 | every result that is not deferred has its message in the log, in order and once; the completions are the results that are deferred or final |
| Collector.BucketsSum | cmd/modem-test/multi_batch.go:159-201 | the buckets of any one view sum to the totals of the history |
| Failover.RunTest | cmd/modem-test/worker.go:396-574 | the dial loop ends with the first pass that is not retried, and reports one retry for each pass before it |
| Failover.RetryRule | cmd/modem-test/worker.go:415-574 | every pass but the last was worth a retry, the last was not or used up the retries, and at most retries plus one calls are placed, for any retry count |
| Failover.CallMeans | cmd/modem-test/worker.go:415-574 | a call succeeds exactly when, after passes that were dialled without fault, not connected and worth a retry, and within the retries, a pass is uncancelled, in the window, faultless, connected and has its handshake; it is cancelled, or outside the window, exactly when such passes lead to a pass that is |
| Failover.CallsPlaced | cmd/modem-test/worker.go:415-574 | a call is placed for exactly those passes that are reached, uncancelled and in the window |
| Failover.FindOperatorByName | cmd/modem-test/operator_cache.go:242-249 | finds the first operator of that name, or reports that there is none |
| Failover.ReorderOperatorsWithCached | cmd/modem-test/operator_cache.go:253-276 | the copying into a new slice gives the specified order |
| Failover.ReorderPermutes | cmd/modem-test/operator_cache.go:253-276 | the order is a permutation: the first operator of the cached name in front, all others in their order; unchanged if there is none |
| Failover.OperatorCache.Get | cmd/modem-test/operator_cache.go:114-143 | returns the name stored for the phone, if any |
| Failover.OperatorCache.Set | cmd/modem-test/operator_cache.go:147-178 | stores the phone's operator and touches no other phone |
| Failover.OperatorCache.Delete | cmd/modem-test/operator_cache.go:181-199 | removes the phone's operator and touches no other phone |
| Failover.RunFailoverSequence | cmd/modem-test/failover.go:77-231 | result, cache, intermediate reports and calls placed are those of trying the ordered operators up to the turn that ends the sequence; a missing cache is one that holds nothing and is never written |
| Failover.FailoverCounts | cmd/modem-test/failover.go:122-231 | operators tried are one more than those passed over and reported, or as many on cancellation; none passed over connected; calls are at most operators times retries plus one |
| Failover.SuccessIff | cmd/modem-test/failover.go:180-195 | failover succeeds with an operator exactly when that one connects and every one before it was passed over |
| Failover.CachedIsFirst | cmd/modem-test/failover.go:97-112 | the operator stored for the phone, if still configured, is tried first |
| Failover.AllFailIff | cmd/modem-test/failover.go:197-231 | all operators failed exactly when each was called, none connected and the window stayed open |
| Failover.WindowClosedIff | cmd/modem-test/failover.go:104-207 | the sequence ends with a closed window exactly when the window is closed before the first call, in a call whose turn comes, or after such a call that is neither a success nor the last |
| Failover.LastOperatorMeans | cmd/modem-test/failover.go:122-231 | the operator named last is the one at whose turn the sequence ended; the result is that call's, unless the session was cancelled or the window closed |
| Failover.DirectCall | cmd/modem-test/failover.go:87-95 | without operators the one call decides success and window, and the cache stays as it is |
| Failover.CancelledCallForgets | cmd/modem-test/failover.go:197-231 | a session cancelled in the only operator's call deletes that operator's cache entry |
| Failover.CacheIsLastSuccess | cmd/modem-test/failover.go:180-231 | over any run of jobs one at a time a phone's entry is the operator of its last success with no later failure on all operators; without such a job it is what it was |
| SharedCache.InterleavingsAreSerial | cmd/modem-test/worker.go:223-345 | in every interleaving of the pool's workers, with other workers' steps between a job's read and its write of the shared cache, each job has the result and the cache the content of the jobs one at a time in the order of their writes |
| SharedCache.SharedCacheIsLastSuccess | cmd/modem-test/failover.go:77-231 | in every interleaving a phone's entry is the operator of its last success with no later failure on all operators, or what it was |
| Keywords.NodeTypeIsKeyword | internal/parser/parser_node.go:54-157 | title-casing and case folding recognise the same node keywords; Boss and Point are no node types |
| Keywords.KeywordIff | internal/parser/pointlist.go:359-421 | a word is a keyword exactly when it is the keyword's text in some letter case, so no word is two |
| Addresses.MatchIsShape | internal/parser/pointlist.go:425-428 | the matcher accepts exactly the texts [zone:]net/node[.point] and reads their parts back |
| Addresses.ParseOfAddrText | internal/parser/pointlist.go:424-441 | a printed address parses back, whatever the default zone |
| Addresses.AddressMeans | internal/parser/pointlist.go:424-441 | an address text means its numbers: its own zone, cut off at the largest integer, or else the default one; a net or node that does not fit is refused |
| Addresses.LeafAddressMeans | internal/parser/pointlist_combined.go:235-262 | and a leaf's name is its own address exactly when it has a point that fits as well |
| Addresses.PointKeyInjective | internal/parser/pointlist.go:499-501 | two points have the same tracker key only if they have the same 4-D address |
| Addresses.IdentifiersDistinct | internal/database/models.go:63-71 | within a file, address, conflict sequence, date and domain give every row its own identifier |
| Addresses.IdentifiersAcrossNetworks | internal/database/models.go:59-71 | across files and networks, equal identifiers mean the same address, date, conflict sequence and network |
| Duplicates.DuplicateTracker.Add | internal/parser/parser.go:442-478 | adding a row numbers it, marks the earlier rows of its address in place, and leaves the tracker holding exactly the positions of each address |
| Duplicates.DuplicateTracker.Flag | internal/parser/parser.go:460-463 | marks exactly the rows at the given positions |
| Duplicates.SequencesCountUp | internal/parser/pointlist.go:499-512 | the rows of one address carry 0, 1, 2, ... in file order |
| Duplicates.ConflictMeansShared | internal/parser/pointlist.go:499-512 | the conflict flag is set exactly when another row of the file has the address |
| Duplicates.NumberingIdentifies | internal/parser/pointlist.go:499-512 | address and sequence identify a row of the file |
| Duplicates.IndicesAreOccurrences | internal/parser/pointlist.go:499-512 | the positions kept for an address are its occurrences, all of them |
| Duplicates.NumberedNext | internal/parser/pointlist.go:499-512 | one more row changes nothing but the conflict flags at its address |
| PointLines.PointLineReads | internal/parser/pointlist.go:444-494 | a point line reads back as its keyword and its point, flag text included, whatever white space is around the line and its fields and however its numbers are written; an unreadable speed is 0 |
| PointLines.PointIdentifiersDistinct | internal/database/models.go:294-302 | the rows of one parsed pointlist carry pairwise distinct identifiers |
| PointLines.PointsConflictByAddress | internal/parser/pointlist.go:499-512 | two points of a file conflict exactly when zone, net, node and point agree |
| BossFamily.ParseBossFamily | internal/parser/pointlist.go:345-405 | the loop yields the numbered points, the boss count and both skip counts of the fold over its lines |
| BossFamily.LinesAccounted | internal/parser/pointlist.go:345-405 | every line that is not blank or a comment is exactly one of a boss, a point, a skipped line; the bosses counted are the Boss lines that can be read, the bosses skipped those with an address that cannot |
| BossFamily.NoStaleBoss | internal/parser/pointlist.go:359-379 | after a Boss line that cannot be read nothing is emitted until one that can |
| Combined.ParseCombinedFormat | internal/parser/pointlist_combined.go:22-103 | the loop yields the numbered points, the boss count and the skip count of the fold over its lines |
| Combined.LinesAccounted | internal/parser/pointlist_combined.go:22-103 | every line that is not blank or a comment is exactly one of a context line taken, a point, a skipped line |
| Combined.BossCountIsOwners | internal/parser/pointlist_combined.go:22-103 | the boss count reported is the number of different nodes that own a point |
| Combined.NoStaleContext | internal/parser/pointlist_combined.go:40-85 | after a context line without a number nothing is emitted until a Zone, Region or Host line has one; node lines do not restore the context |
| Fakenet.ParseFakenetFormat | internal/parser/pointlist_combined.go:115-194 | the loop yields the numbered points, the boss count and both skip counts of the fold over its lines |
| Fakenet.LinesAccounted | internal/parser/pointlist_combined.go:115-194 | every line that is not blank or a comment is exactly one of a line taken, a point, a skipped line; the bosses counted are those named, the bosses skipped the Host lines that name none |
| Fakenet.ZonelessBoss | internal/parser/pointlist_combined.go:130-165 | a Zone line with a positive number sets the zone of a boss address that states none; any other leaves it |
| Fakenet.NoStaleBoss | internal/parser/pointlist_combined.go:130-190 | after a line that detaches the boss every point emitted, until a Host or Hub line, carries its own 4-D address |
| Fakenet.BossNamed | internal/parser/pointlist_combined.go:196-231 | a Host or Hub line names the boss of its readable system name, else of its first readable UBOSS flag, else none |
| Detection.DetectPointlistFormat | internal/parser/pointlist_formats.go:27-107 | the counting loop decides as the fold of the line kinds does |
| Detection.ParseFile | internal/parser/pointlist.go:123-195 | the dialect given, or else the one detected, decides which parser's numbered points are returned; nothing without one |
| Detection.DetectionByEvidence | internal/parser/pointlist_formats.go:27-107 | exactly which lines make a file each of the three boss lists, a fakenet or a combined list, and which are refused |
| Detection.MarkIff | internal/parser/pointlist_formats.go:51-78 | a fakenet mark is a Host or Hub line named after an address or mentioning UBOSS, or a leaf with an empty or Pvt keyword named after a 4-D address |
| Comments.CommentsDoNotMatter | internal/parser/pointlist.go:346-356 | the three pointlist parsers and the detection read a file as if its blank lines and comments were not there |
| Comments.ShortLinesDoNotMatter | internal/parser/parser.go:330-375 | so does the nodelist parser, and it passes over lines of fewer than seven fields, unless they hold the end mark |
| Nodelist.ParseFileContent | internal/parser/parser.go:304-439 | the loop yields the numbered nodes and the numbered inline points of the fold over its lines |
| Nodelist.ParseFileWithCRC | internal/parser/parser.go:181-272 | the year in the path decides the default zone; every row is stamped with the network, every point with the list's date and source and an identifier no other point of the file has |
| Nodelist.DefaultZoneMattersIff | internal/parser/parser.go:185-206 | two default zones give the same nodes and points exactly when there is no node or the first one is a Zone line |
| NodeRoundTrip.NodesRoundTrip | internal/parser/parser_node.go:14-157 | nodes printed in their zone, net and region context read back with type, address, region, every text, speed and flag text, for every keyword in any letter case, white space around the fields and legacy marks on the numbers |
| Nodelist.FirstNodeZone | internal/parser/parser.go:185-206 | a list that does not start with a Zone line starts in the default zone |
| Nodelist.NothingAfterEndOfFile | internal/parser/parser.go:335-338 | nothing after the end-of-file mark is read |
| Nodelist.CollectingKeepsNodes | internal/parser/parser.go:376-416 | collecting inline points never changes the nodes |
| Nodelist.NodeIdentifiersDistinct | internal/database/models.go:63-71 | the nodes of one parsed file carry pairwise distinct identifiers |
| Agreement.StepsCorrespond | internal/parser/parser_node.go:54-157 | on a well-formed line the nodelist machine and the combined machine keep the same context and emit the same point |
| Agreement.ParsersAgree | internal/parser/parser.go:304-439 | on a well-formed list, inline-point extraction and the combined parser yield the same points, addresses and conflict numbers in the same order |
| RoundTrip.DetectsPrinted | internal/parser/pointlist_formats.go:27-107 | any non-empty list printed in a dialect is detected as one of its formats |
| RoundTrip.FakenetRoundTripIff | internal/parser/pointlist_combined.go:115-262 | a fakenet print gives the points back exactly when no name reads as another point's full address |
| RoundTrip.MisleadingName | internal/parser/pointlist_combined.go:130-190 | any printable point named like another printable 4-D address is read back at that address |
| RoundTrip.ListsRoundTrip | internal/parser/pointlist.go:123-195 | print, detect and parse gives the same points back in every dialect, with any of its keywords (empty, Point, Pvt, Hold, Down on points; Host, Hub, Region and node words on owners) in any letter case and any white space around the fields |
| RoundTrip.DialectsMeanTheSame | internal/parser/pointlist_combined.go:22-194 | the same points printed in any two dialects, each with keywords of its own, parse to the same rows, conflict marks included; only the raw line differs |
| ImportGate.PointTables.Do | internal/storage/point_operations.go:53-227 | one store effect happens, or nothing does and no effect is left |
| ImportGate.PointTables.DeletePointlistData | internal/storage/point_operations.go:192-227 | the gate row goes before the point rows, and rows are deleted only if there are any; performed as far as the effects last |
| ImportGate.PointTables.InsertPoints | internal/storage/point_operations.go:53-153 | the points go in by chunks in order on the native connection and in one transaction on the other, performed as far as the effects last |
| ImportGate.PointTables.Import | cmd/parser/pointlist.go:150-295 | the store after a run is that of its plan cut off where it stopped; points are reported only by a run that registered its gate row; a run that stores nothing is no error exactly when the file is there already or there is nothing to gate |
| GateProofs.StoresIffItMay | cmd/parser/pointlist.go:150-255 | a run that is not stopped leaves its key gated with exactly its points when it is dated, new or a reimport, has points or is forced, and is forced, only warned about, without a counted neighbour or at least half of it; a nodelist when it is new and has points, is gated for its own sake or has a series; otherwise the store stays as it is |
| GateProofs.ChunksAreFull | internal/storage/point_operations.go:104-153 | the native connection takes the points in order, 5000 at a time and the rest last; the other one all at once |
| GateProofs.CompleteRun | cmd/parser/pointlist.go:189-213 | a run that is not stopped leaves exactly its points under its key, gated, and nothing else changed |
| GateProofs.StoppedRun | cmd/parser/pointlist.go:189-213 | a stopped run changes nothing outside its key, and the key is still gated only if nothing changed at all |
| GateProofs.GateMeansComplete | cmd/parser/pointlist.go:150-213 | over any runs, each possibly stopped anywhere, a gate row implies that the stored rows are exactly the points of the last run that registered it |
| GateProofs.GatedFileStays | cmd/parser/pointlist.go:152-163 | over any runs, an imported file is never touched again unless a run of its key asks for reimport |
| GateProofs.StrictRunNeverHalves | cmd/parser/pointlist.go:165-187 | over any runs, one with every check on that registers its file stored at least one point and at least half as many as the nearest issue of its series has stored at that time |
| GateProofs.CrashThenRetry | cmd/parser/pointlist.go:189-213 | a run stopped any number of times, anywhere each time, and then repeated to its end leaves the state of the run that is never stopped: the last repeat goes ahead or finds the file registered |
| GateProofs.CrashKeepsNearest | internal/storage/query_builder_points.go:70-82 | the nearest-issue query has the same answers after any number of stopped repeats |
| NodelistSeries.SeriesMembers | cmd/parser/pointlist.go:227-255 | a run belongs to a network's nodelist series exactly when its network is that one, fidonet if none is named, and it is a nodelist or bears the nodelists' source name |
| NodelistSeries.SeriesKept | cmd/parser/pointlist.go:236-295 | over any runs in which a network's nodelists come in date order, with pointlists and other networks' files between them, every gated issue was finished and has its points, and every finished issue is gated or came before any gate row without points |
| Snapshot.ShowsFirstRows | internal/storage/query_builder_points.go:143-145 | of one file's rows the collapse shows the first of each address and no other |
| NodelistSeries.SnapshotIsLastIssue | internal/storage/query_builder_points.go:104-146 | as of any date, the snapshot of the nodelist source is the first row of each address in the last nodelist imported up to it, or nothing when that is 60 days old |
| NodelistSeries.SnapshotIsWholeIssueIff | internal/storage/query_builder_points.go:104-146 | a reader sees all inline points of that nodelist exactly when no row of it has the conflict flag |
| NodelistSeries.RepeatedAddressIsHidden | internal/storage/query_builder_points.go:143-145 | a nodelist with two lines for one point: both rows are stored and counted, the first is seen |
| NodelistSeries.SourceViewIsSnapshot | internal/storage/query_builder_points.go:251-256 | the query restricted to one network's nodelist source answers with such a snapshot, whatever the other sources have |
| PointQuery.WinnersAreAuthoritative | internal/storage/query_builder_points.go:112-146 | over any sources, a row shown is the first of its address in the newest issue of its source in the window, and no other source's newest issue with that address has a better priority, or the same and a later date |
| PointQuery.RunsKeepNumbered | cmd/parser/pointlist.go:150-295 | over any imports of parsed files, each possibly stopped anywhere, every gated file keeps the numbering of its parser, as `WinnersAreAuthoritative` asks |
| PointQuery.AddressConditionsCommute | internal/storage/query_builder_points.go:118-123 | a condition on the address inside the collapse narrows the answer and changes no winner |
| PointQuery.OtherConditionsDoNot | internal/storage/query_builder_points.go:118-123 | one point in the lists of two sources: a condition on the system name inside the collapse shows the overridden row, outside it nothing |
| NodelistSeries.NothingBeforeFirst | internal/storage/query_builder_points.go:104-146 | before the first finished issue the snapshot is empty |
| NodelistSeries.NoPointsNoGate | cmd/parser/pointlist.go:236-255 | a network whose nodelists never had inline points never gets a gate row |
| CacheKeys.AnalyticsKey | internal/storage/cached_storage.go:267-280 | the loop builds the key of its report and arguments |
| CacheKeys.SameKeyIff | internal/cache/keys.go:25-139 | two keys are equal exactly when family and colon-separated pieces are |
| CacheKeys.AnalyticsKeysCollide | internal/storage/cached_storage.go:267-280 | a colon in one argument or the next makes two different calls share a key, for any report of two arguments |
| CacheKeys.SweepIff | internal/cache/keys.go:84-139 | a family's prefix sweep reaches exactly the keys of that family |
| CacheKeys.KeyReadsBack | internal/cache/keys.go:25-139 | the pieces of a well-formed key determine its read: one reading function gives every read back, analytics excepted |
| CacheKeys.SameReport | internal/storage/cached_storage.go:267-280 | for report names none of which extends another, whatever the arguments are, two keys are equal only for the same report with the same pieces of arguments |
| CacheKeys.KeysInjective | internal/cache/keys.go:25-139 | for such names, and arguments that are colon-free but for a test's time and one free argument of a report (a flag, a country, a network name, a test's time), different reads have different keys |
| Catalogue.NamesPrefixFree | internal/storage/cached_storage_test_analytics.go:14-294 | no report name in use extends another, piece by piece |
| Catalogue.ReadsHaveOwnKeys | internal/storage/cached_storage.go:267-280 | for the program's reports, different reads of that kind have different keys |
| Catalogue.FlagReportsCollide | internal/storage/cached_storage_analytics.go:8-12 | two different calls of the first-appearance report share a key when the network of the second has a colon |
| MemoryCache.MemoryCache.Get | internal/cache/memory.go:55-71 | returns the live value, and forgetting an expired entry changes nothing a reader can see from then on |
| MemoryCache.MemoryCache.Set | internal/cache/memory.go:73-89 | readers now see the new value under its key and what they saw under every other |
| MemoryCache.SeenUntil | internal/cache/memory.go:17-19 | a value set for some time is seen until that time is over, one set for no time for ever |
| MemoryCache.MemoryCache.Delete | internal/cache/memory.go:91-98 | removes one key and counts the deletion |
| MemoryCache.MemoryCache.GetMulti | internal/cache/memory.go:100-127 | returns exactly the live values of the keys asked for, and changes nothing a reader can see |
| MemoryCache.MemoryCache.SetMulti | internal/cache/memory.go:129-144 | stores all items and touches no other key, in any order of the walk |
| MemoryCache.MemoryCache.DeleteMulti | internal/cache/memory.go:146-155 | removes exactly the keys listed |
| MemoryCache.MemoryCache.DeleteByPrefix | internal/cache/memory.go:157-174 | refuses a wildcard; otherwise removes exactly the keys with the prefix, at every later time too, and counts them |
| MemoryCache.MemoryCache.EvictExpired | internal/cache/memory.go:207-216 | removes exactly the expired entries, and nothing a reader can see |
| CachedReads.CachedStorage.CachedFetch | internal/storage/cached_storage.go:160-184 | the helper is the read step for any fault: what it returns, what the cache shows then, and one hit or one miss |
| CachedReads.CachedStorage.CachedFetchPtr | internal/storage/cached_storage.go:197-226 | the same, with nothing stored for a nil answer and a stored nil treated as a miss |
| CachedReads.CachedStorage.CachedFetchSlice | internal/storage/cached_storage.go:238-264 | the same, with nothing stored for an empty answer |
| CachedReads.SecondReadHits | internal/storage/cached_storage.go:160-264 | a second read hits exactly when the helper is the plain one or the first answer was neither nil nor empty |
| CachedReads.StoredNilIsAsked | internal/storage/cached_storage.go:197-226 | a nil in the cache is a miss to the pointer helper and an answer to the other two |
| CachedReads.CachedStorage.InvalidateAfterImport | internal/storage/cached_storage_invalidation.go:78-123 | at every later time readers see exactly what the sweeps leave |
| CachedReads.CachedStorage.InsertNodes | internal/storage/cached_storage_nodes.go:87-97 | is the insert step: a failure changes nothing, success sweeps |
| Transparency.ReadIsBeginFill | internal/storage/cached_storage.go:160-264 | the read step of the three helpers is a query followed by the store of its answer |
| Transparency.InsertIsWriteSweeps | internal/storage/cached_storage_nodes.go:87-97 | the insert step is a write followed by its sweeps, one for each swept family |
| Transparency.TimeIsALoss | internal/cache/memory.go:17-19 | time passing is the loss of the entries that expire |
| Transparency.DropIsALoss | internal/cache/memory.go:60-66 | dropping the keys found expired is a loss event, whatever was set under them between the two locks |
| Transparency.SweptAway | internal/storage/cached_storage_invalidation.go:78-123 | a key survives the sweeps exactly when its family is not swept, with its value |
| Transparency.TransparentIff | internal/storage/cached_storage.go:160-264 | over every interleaving of queries, stores, writes, sweeps and lost entries, the cached reads of a family return today's answer at every moment at which it was swept since the last write, exactly when no other answer of it is stored at such a moment |
| Transparency.CachingIsTransparent | internal/storage/cached_storage.go:160-264 | after a run without such a store, a read of the family by any helper, the family swept since the last write, returns what an uncached read returns now, or the query's own fault |
| AtomicRuns.AtomicRunsAreNeverLate | internal/storage/cached_storage.go:160-264 | a run of uninterrupted reads and inserts and of losses is a run of events with the same outcome, and stores nothing late in any family |
| AtomicRuns.AtomicRunsAreTransparent | internal/storage/cached_storage_nodes.go:87-97 | after any such run a read of the stats, search, dates or analytics family, and of sysops when the inserts were recent, returns what an uncached read returns now |
| Transparency.UnsweptGoesStale | internal/storage/cached_storage_invalidation.go:78-123 | a read of any other family returns the answer from before the insert |
| Transparency.SplitReadGoesStale | internal/storage/cached_storage.go:173-183 | a query, an insert with all its sweeps, and only then the store of the answer: the old answer stays in the cache |
| DiskBudget.BadgerCache.ApplyDiskBudget | internal/cache/badger.go:512-542 | the fields after a tick are those of the policy, with one reset attempt exactly when the policy says so |
| DiskBudget.BadgerCache.EnforceDiskBudget | internal/cache/badger.go:491-509 | the same, and nothing at all without a positive limit |
| DiskBudget.BadgerCache.Reset | internal/cache/badger.go:545-571 | a failed reset stays suspended with its count, a successful one opens |
| DiskBudget.CounterMeaning | internal/cache/badger.go:512-542 | over every run, writes are suspended exactly when the counter is positive, and then it counts the over-limit ticks since the suspending one |
| DiskBudget.ResetIff | internal/cache/badger.go:521-526 | a reset is attempted exactly on an over-limit tick that makes three or more since the suspension |
| DiskBudget.SuspendedIff | internal/cache/badger.go:512-571 | over every run, writes are suspended exactly when some tick was over the limit and since then none was at nine tenths of it or below and no reset succeeded |
| DiskBudget.BandsDoNotMatter | internal/cache/badger.go:528-531 | leaving all ticks between the marks out of a run, wherever they fall, changes neither the fields nor the number of resets |
| DiskBudget.ResetNeedsNoRow | internal/cache/badger.go:521-531 | two over-limit ticks, one between the marks and one more over-limit tick attempt a reset |
| DiskBudget.WorkingResetBounds | internal/cache/badger.go:545-571 | while resets succeed the counter stays below three |
| CacheLocks.InvKept | internal/cache/badger.go:395-421 | every step keeps the lock with its one holder, readers out while it is held, and the goroutine stopped before Close locks |
| CacheLocks.DropAndCloseExclusive | internal/cache/badger.go:545-576 | in every interleaving no operation is in flight during the store drop or the database close, never both, and the goroutine has returned before the close |
| CacheLocks.CloseNeverStuck | internal/cache/badger.go:395-407 | no reachable state with Close under way is stuck |
| CacheLocks.ProgressIsBounded | internal/cache/badger.go:395-421 | without new requests and ticks every run is bounded by the steps left |
| CacheLocks.CloseCompletes | internal/cache/badger.go:395-407 | from any state with Close under way the remaining steps lead to the closed cache |
| LockFirst.LockFirstDeadlocks | internal/cache/badger.go:396-399 | the other order, lock and then wait, has a run to a state that is stuck with Close under way |
| Archive.Builder.Resolve | cmd/fsxnetarchive/main.go:308-357 | slot table and counters after one candidate are those of the fold's step |
| Archive.Builder.ResolveAll | cmd/fsxnetarchive/main.go:163-170 | after the loop they are those of the fold over all candidates |
| Archive.Builder.WriteAll | cmd/fsxnetarchive/main.go:360-375 | every slot is written or counted as a failed write |
| Archive.WinnerIsPublished | cmd/fsxnetarchive/main.go:308-357 | in the collected order, a slot exists exactly when some candidate is dated to it, and holds the first curated content or else the last one from history |
| Archive.Builder.Build | cmd/fsxnetarchive/main.go:163-170 | resolving all candidates and then writing all slots leaves the slots of the fold and the counters as reported |
| Archive.ReportBalances | cmd/fsxnetarchive/main.go:308-375 | as reported, unreadable, undated, header-dated and guessed exceed the candidates by the failed writes, so they balance exactly when no write fails; dated ones are written, failed or duplicates |
| Archive.CountersMean | cmd/fsxnetarchive/main.go:308-357 | each counter counts what it says: candidates unreadable, undated, dated by their header, guessed, repeating a slot, and differing from what the slot held |
| Dates.YearLength | internal/parser/pointlist.go:322-325 | the day of the year of 31 December is the distance to the next 1 January |
| Dates.CorrectedDate | internal/parser/pointlist.go:327-340 | the corrected date has the stated day of the year, in that year or the one before and in no other year, exactly when that day exists in one of the two |
| Dates.BuilderAgrees | cmd/pointlistarchive/main.go:340-351 | the archive builder accepts exactly those days and files them under the year of the importer's date |
| Dates.OverflowRolls | internal/parser/pointlist.go:332-340 | day 366 next to two ordinary years is dated in the following year by the importer and skipped by the builder |
| EmailFlags.AppendUnique | internal/emailflags/emailflags.go:358-365 | adds a value unless one equal up to case is there |
| EmailFlags.Collect | internal/emailflags/emailflags.go:180-219 | counts and values collected are those of all mentions, from the line and from the configuration |
| EmailFlags.Partition | internal/emailflags/emailflags.go:225-236 | splits a flag's values into the usable and the malformed ones, each once |
| EmailFlags.Extract | internal/emailflags/emailflags.go:180-265 | the loops yield the capabilities of all mentions, in the fixed order |
| EmailReading.PrintedFlagReads | internal/emailflags/emailflags.go:300-304 | a flag of the seven printed with its address, in any letter case and with white space about, is that one capability with that address of its own |
| EmailReading.BareFlagReads | internal/emailflags/emailflags.go:185-193 | a flag without a value is counted once and has no address of its own |
| EmailReading.ConfiguredReads | internal/emailflags/emailflags.go:195-215 | the same for a protocol of the configuration and for a default address of IEM |
| EmailReading.OneValue | internal/emailflags/emailflags.go:225-236 | a flag's value is used when it is an address and reported as malformed when it is not |
| EmailReading.AddressIff | internal/emailflags/emailflags.go:306-338 | the check accepts exactly a non-empty name, an @ and a domain with a dot inside, without blanks and commas |
| EmailReading.FieldAddressIsFirst | internal/emailflags/emailflags.go:340-356 | a free-text field gives its first token between underscores and blanks that is an address once stripped |
| EmailReading.StrippedOf | internal/emailflags/emailflags.go:340-356 | stripping takes brackets, quotes and semicolons off both ends and nothing else |
| EmailFlags.AllOrNone | internal/emailflags/emailflags.go:277-296 | every capability has an address exactly when some flag of the node has one or a field may supply one: all or none resolve |
| EmailFlags.SourceMeans | internal/emailflags/emailflags.go:277-296 | a flag uses its own addresses if any, else those of IEM, else those of another email flag, exactly as its source says |
| EmailReading.FieldsComeLast | internal/emailflags/emailflags.go:277-296 | the location, and then the system name, is used exactly when no flag has an address and the fields may be used |
| EmailReading.OtherFlagsMean | internal/emailflags/emailflags.go:241-248 | under another email flag come the addresses of all flags, each once |
| EmailFlags.UsablePermuted | internal/emailflags/emailflags.go:358-365 | addresses kept once are, up to order and case, a function of the values whatever their order |
| EmailFlags.OrderIrrelevant | internal/emailflags/emailflags.go:180-296 | any permutation of flags, map walk and defaults gives the same flags, counts and sources, and the same addresses up to order and letter case |

## Left out

- Modem, serial, EMSI, CDR and HTTP calls: their outcome is an oracle value; the text, timing and CDR contents of results are not modelled.
- The single-modem loop and the legacy submission loop over phones, which has no deferral rounds.
- `ScheduleNodes`: submission takes the remaining nodes in any order, one job a node; sorting, call windows and the channel between scheduler and submitter are not modelled.
- Coordinator.PhoneCoordinator.AcquirePass: does not model the condition variable and its timeout; a waiting worker makes another pass later.
- Job test numbers, pacing delays, log output, CSV and database writers, and running times; no liveness under real time beyond the bound on steps and the way to the end.
- After an interrupt the call pool keeps its lock properties only; nodes may then be unfinished, as in the program.
- Failover.OperatorCache.Set: does not model expiry or a failing store, whose errors the program only logs.
- Charset decoding, gzip and the line reader, which cuts pointlist lines at Ctrl-Z before the parsers see them.
- Text.Lower: does not model letter case beyond ASCII.
- Flag semantics inside point and node lines, and the legacy flag conversion of 1986 lists: the flag text is opaque.
- Header dates, CRC, file-name families and diff files; the format and date of a list are inputs.
- Nodelist.ParseFileWithCRC: does not model the header comment and the CRC check, because they do not touch nodes or points; the year and both dates are inputs.
- ImportGate.PointTables.Do: does not model SQL or the row types; a table is a map from domain, source and date to rows, and a failed statement changes nothing.
- Deriving a list's source from its file name, and quarantine: the source is an input of the run.
- NodelistSeries.SeriesKept: does not cover a pointlist imported under the source name of the nodelists, which a flag allows.
- MemoryCache.MemoryCache.Get: does not model what comes between its two locks in the method itself; to the readers it is a loss (`Transparency.DropIsALoss`).
- NodelistSeries.SnapshotIsLastIssue: does not cover the query over several sources, because the winners among those are `PointQuery.WinnersAreAuthoritative`.
- CacheKeys.KeysInjective: does not model MD5 collisions or the formatting of arguments; hashes, dates and printed arguments are texts, and point -1 stands for no point.
- Transparency.CachingIsTransparent: does not model data changed by other writers than the inserts; a sweep that fails is one that does not happen.
- Badger internals, JSON encoding (assumed to round-trip) and MD5.
- DiskBudget.BadgerCache.ApplyDiskBudget: does not model floating point; the resume mark is nine tenths of the limit rounded down.
- The lock protocol has one `Close`, and operations that start after it meet a closed database, which is not modelled.
- Archive.Builder.Resolve: does not model git, unpacking and header parsing, because dating a candidate is an input.
- EmailFlags.Extract: does not model the final sort, because the capabilities are listed in the fixed order directly.
- `internal/concurrent/multi_processor.go`, analytics queries, API handlers, web pages, FTP, configuration and command lines.
