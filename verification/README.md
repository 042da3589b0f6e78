# Verified models of the stream-analytics cores

A market-data pipeline takes exchange events from JetStream, replays them in a
deterministic order, rebuilds order books, and keeps its subsystems running.
This project models the stateful cores of that pipeline in Dafny 4.11 and
proves what they do over every input, every run and every interleaving.

`dafny verify dfyconfig.toml` checks everything. Each core is written twice: as
functions or a transition system that say what an operation means, and, where
the program updates things in place, as classes and loops proved equal to
them. The theorems about whole runs are stated over the former and so hold of
the latter.

| files | core |
|---|---|
| `Options`, `Text`, `KeyList`, `ElementList` | shared notions: optional values, ASCII text, a map with a list of its keys, a list with handles |
| `EnvelopeOrder`, `MergeHeap`, `ReplayMerge`, `ReplayEnds`, `ReplaySource` | deterministic replay: a bounded heap merges a nearly sorted stream |
| `Levels`, `Slices`, `Book`, `Reconstruction`, `Canonicalizer` | order books: canonical sides, slices on shared arrays, in-place edits, normalisation |
| `StateStore`, `StateStoreImpl` | the keyed store of books: sequence checks, expiry, capacity |
| `Supervisor`, `Guardian`, `GuardianRuns`, `GuardianBudgets`, `GuardianDelays`, `GuardianHealth`, `GuardianMoments`, `GuardianScenarios`, `GuardianImpl` | restart policy and the guardian actor with its timers |
| `RecencyMap`, `RecencyRuns`, `RecencyReports`, `BoundedMap` | the bounded map with expiry and eviction reports |
| `Mailbox`, `SnapshotCache` | two small concurrent protocols |
| `RetryBudget`, `RetryTally`, `Consumer` | retry budgets and the disposition of deliveries |
| `Subjects`, `Filters` | subject printing and reading, shard ownership, filter subsumption |

## Where the code falls short of the obvious property

For each of these there is a lemma that builds a whole run, from the start,
in which the property fails, and the exact condition under which it holds.

- A failure reported during a cooldown bumps the retry generation and schedules
  nothing, and a spawn that fails at start, on reload or on a retry is not tried
  again; the subsystem is stranded. Runs: `GuardianScenarios.CooldownStrandsARun`,
  `GuardianScenarios.FailedStartStrandsARun`,
  `GuardianScenarios.FailedRetryStrandsARun`. An event loses a retry if and only
  if it is one of these: `GuardianRuns.LosesExactlyWhenStranding`.
- Stopping poisons managed subsystems only; a child started through a failure
  report of any other subsystem survives. Run:
  `GuardianScenarios.UnmanagedOutlivesStop`; exactly which children survive:
  `GuardianRuns.StopLeavesOnlyUnmanaged`.
- A retry does not ask the global limiter again when it falls due, so any number
  of children can be started at one moment whatever the global limit. Run:
  `GuardianScenarios.AnyNumberStartAtOnce`. Retries can start more children than
  the limit at one moment if and only if more than that many subsystems have a
  retry due: `GuardianMoments.StartsAtOnceExactly`. What the limiter does bound
  is grants: `GuardianBudgets.GrantsStayWithinBudget`.
- Expiry in the state store follows insertion order, so an expired entry behind
  one that is kept busy stays for any length of time. Run:
  `StoreSpec.ExpiredBehindFreshSurvives`; exactly which entries go:
  `StoreSpec.ExpiryExactly`.
- The sweep cadence of the bounded map is visible through capacity. Two runs of
  the same calls: `RecencyReports.CadenceCanShow`; the exact condition:
  `RecencyReports.CadenceShowsOnlyThroughCapacity`.
- Evictions from the retry tracker void the bound on consecutive retries,
  whatever its size. Run, with one partition more than there are slots:
  `RetryTally.EvictionVoidsTheBound`. A partition is evicted exactly by the
  newcomer that makes as many since its own insertion as there are slots
  (`RetryTally.EvictedExactly`), and with fewer the bound holds
  (`RetryTally.BoundHoldsWhileFew`).
- A message that does not decode is outside the retry budget and can be retried
  any number of times. Run: `Consumer.RetriedForEver`; exactly when it is
  retried: `Consumer.DecodeFailuresAreNotBudgeted`.

Two more are exact conditions on a single input. A subject can be read back
exactly when its event has no blank token or wildcard and its venue has no dot
or wildcard: `Subjects.SubjectRoundTrip`. Two envelopes of one book are hashed
alike exactly when both subjects can be read, or are the same:
`Shard.SameBookSameText`. And one branch is dead: the recovery bookkeeping in
`startSubsystem` is never reached from a retry, because no retry is due before
its cooldown is over (`GuardianSpec.RetryNeverMarksRecovered`).

## Model

| member | source | states |
|---|---|---|
| EnvelopeOrder.EnvelopeLessIsStrictWeak | internal/adapters/jetstream/replay_source.go:536-561 | the replay comparison is a strict weak order, so sorting by it is meaningful |
| EnvelopeOrder.OldestFirst | internal/adapters/jetstream/replay_source.go:536-561 | which envelope comes first: the older one, then by venue, instrument and type as in a dictionary, then the smaller sequence number, then the idempotency key |
| Text.StringLessIsDictionary | internal/adapters/jetstream/replay_source.go:543-560 | a text precedes another if and only if it is a proper beginning of it or has the smaller character where they first differ |
| MergeHeap.RootIsMinimal | internal/adapters/jetstream/replay_source.go:500-534 | the first element of a binary heap precedes or ties with every element |
| MergeHeap.Heap.Push | internal/adapters/jetstream/replay_source.go:524-526 | pushing in place keeps heap order and adds exactly the pushed message |
| MergeHeap.Heap.Pop | internal/adapters/jetstream/replay_source.go:528-534 | popping in place keeps heap order and takes out one message that none precedes |
| ReplayMerge.EveryRunIsSafe | internal/adapters/jetstream/replay_source.go:173-311 | under any timeouts, skips, cancellations and failures: sorted output, the order guard never fires, output plus buffered within the cap, nothing lost or doubled, acks only after emission or skip |
| ReplayMerge.AcceptedWereInWindow | internal/adapters/jetstream/replay_source.go:270-303 | only decoded messages inside the window are ever accepted into the merge |
| ReplayMerge.FrontierCheckIsExact | internal/adapters/jetstream/replay_source.go:295-308 | a message is behind the frontier if and only if more earlier messages outrank it than the buffer holds |
| ReplayMerge.ExactMergeBound | internal/adapters/jetstream/replay_source.go:173-311 | an undisturbed run ends in bounded time and emits a sorted permutation if and only if every message has at most a buffer of strictly greater predecessors; otherwise it fails at the first that has more |
| ReplayEnds.EveryTurnIsRight | internal/adapters/jetstream/replay_source.go:173-311 | in every run, from the answers alone: each turn takes, sends, skips and stops if and only if they call for it; it finishes exactly on cancellation, at the cap, or when nothing came, nothing is left or pending and the quiet turns in a row reach the limit, and it fails for each reason exactly on that reason |
| ReadLoopImpl.Loop.EmitOne | internal/adapters/jetstream/replay_source.go:189-221 | the emission on the in-place heap is an emission of the transition system |
| ReadLoopImpl.Loop.TakeTurn | internal/adapters/jetstream/replay_source.go:223-310 | one turn of the loop is one step of the transition system, and from a safe state it takes, sends, skips and stops exactly when the answers call for it |
| ReadLoopImpl.ReadLoop | internal/adapters/jetstream/replay_source.go:173-311 | the loop against any environment is a run, with sorted output and disciplined acks, and every turn of it ends, takes, sends and skips exactly when the answers call for it |
| ReadLoopImpl.ReplayAll | internal/adapters/jetstream/replay_source.go:173-311 | the loop on an undisturbed stream always stops; it succeeds exactly within the disorder bound, with a sorted permutation of its intake, and otherwise fails on the first message that breaks the bound, having emitted a sorted part of the earlier ones short of at most a buffer |
| ReplaySource.Read | internal/adapters/jetstream/replay_source.go:113-311 | envelopes come out oldest first, each decoded, in the window and fetched in this run, and within the message cap even when an ack fails; an undisturbed, uncapped replay finishes only with nothing pending and with everything wanted it was given put out |
| Levels.SortLevelsSorts | internal/core/marketmodel/events.go:262-274 | sorting a side gives a sorted permutation of it |
| Levels.SortedIsUnique | internal/core/marketmodel/events.go:262-274 | any two sorted permutations are equal, so the sort used does not matter |
| Slices.CloneLevels | internal/core/marketmodel/events.go:319-326 | a clone has the same contents on an array of its own |
| Slices.SortInPlace | internal/core/marketmodel/events.go:262-274 | the slice is left with the one sorted permutation of its contents, and the array past it is unchanged |
| Slices.CollapseByPrice | internal/core/marketmodel/events.go:276-288 | the loop keeps the first level of each run of equal prices, on a new array |
| Levels.CanonIsMaxPerPrice | internal/core/marketmodel/events.go:246-288 | a normalised side is strictly ordered and holds exactly the quoted prices, each with its largest size |
| Levels.CanonIgnoresOrder | internal/core/marketmodel/events.go:246-288 | normalisation depends only on which levels occur, not on their order or repetition |
| Levels.CanonOfStrict | internal/core/marketmodel/events.go:246-288 | a side already strictly ordered is its own normal form |
| Levels.CanonIdempotent | internal/core/marketmodel/events.go:246-288 | normalising twice is normalising once |
| Levels.BidsDownAsksUp | internal/core/marketmodel/events.go:262-288 | in normal form bids fall and asks rise in price |
| BookEvents.ValidateLevels | internal/core/marketmodel/events.go:290-300 | accepts exactly if every price is positive and every size positive, or zero where that is allowed, and otherwise reports the first offending level |
| BookEvents.SideAcceptedExactly | internal/core/marketmodel/events.go:246-300 | a side is accepted if and only if every price is positive and the largest size at each price is positive, or for a delta not negative |
| BookEvents.AcceptedExactly | internal/core/marketmodel/reconstruction.go:14-36 | an update is accepted if and only if both sides quote every price well, by that measure |
| BookEvents.NormalizeBookOrdering | internal/core/marketmodel/events.go:246-260 | succeeds exactly on accepted sides, with both in normal form on arrays of their own; the caller's slices are only read |
| BookMeaning.LastWriteWins | internal/core/marketmodel/reconstruction.go:14-36 | after any run of updates, the size at a price is what the last deciding update says, absent if that one drops it |
| BookMeaning.ZeroDeletes | internal/core/marketmodel/reconstruction.go:24-36 | a delta that quotes one price at size zero is accepted and takes that price out of its side, and nothing else, whatever the book |
| BookMeaning.PositiveSets | internal/core/marketmodel/reconstruction.go:24-36 | a delta that quotes one price at a positive size is accepted and sets that price, and nothing else, whatever the book |
| Reconstruction.FindLevel | internal/core/marketmodel/reconstruction.go:79-104 | binary search finds the price or the place where it belongs |
| Reconstruction.ApplyLevel | internal/core/marketmodel/reconstruction.go:54-77 | the in-place insert, overwrite or delete is a map update on a strictly ordered side |
| Reconstruction.SetAllIsOverlay | internal/core/marketmodel/reconstruction.go:24-36 | setting a normalised side level by level overrides the map and drops the zeros |
| Reconstruction.ApplySnapshot | internal/core/marketmodel/reconstruction.go:14-22 | an accepted snapshot replaces both sides by their normal forms on fresh arrays; a rejected one changes nothing, and the caller's slices are only read |
| Reconstruction.ApplyDelta | internal/core/marketmodel/reconstruction.go:24-36 | an accepted delta edits both sides in place to the overlaid maps; a rejected one leaves the arrays unchanged |
| Reconstruction.Reconstruct | internal/core/marketmodel/reconstruction.go:10-36 | after any stream of updates bids fall and asks rise in price, all prices and sizes are positive, and both sides equal the maps the updates describe |
| Reconstruction.TakeSnapshot | internal/core/marketmodel/reconstruction.go:38-52 | a snapshot holds exactly the contents of both sides, on arrays the book does not have |
| Reconstruction.SnapshotStaysPut | internal/core/marketmodel/reconstruction.go:38-44 | a snapshot taken before any stream of further updates still shows the book as it was |
| Reconstruction.SnapshotRoundTrip | internal/core/marketmodel/reconstruction.go:14-44 | a snapshot taken from a book is accepted and rebuilds that book |
| Reconstruction.MeaningDeterminesSide | internal/core/marketmodel/reconstruction.go:54-104 | equal price maps mean equal slices, whatever the history |
| Canonicalizer.RoundIsIdempotent | internal/core/marketmodel/precision.go:18-24 | rounding to decimals twice is rounding once |
| Canonicalizer.RoundIsNearest | internal/core/marketmodel/precision.go:18-24 | the result is the nearest whole number of units of the last decimal, halves away from zero; a negative number of decimals changes nothing |
| Canonicalizer.TenTimesPerDecimal | internal/core/marketmodel/precision.go:22 | the scale is one for no decimals and ten times as large for each more |
| Canonicalizer.NormalizeLevelsWithRule | internal/core/marketmodel/canonicalizer.go:89-101 | the loop rounds every level in order |
| Canonicalizer.NormalSideIdempotent | internal/core/marketmodel/canonicalizer.go:33-65 | rounding then normalising a side is idempotent, although rounding can merge prices |
| Canonicalizer.IsSorted | internal/core/marketmodel/events.go:302-317 | true exactly when no level comes before its predecessor |
| Canonicalizer.ValidateDelta | internal/core/marketmodel/events.go:219-244 | succeeds exactly when the timestamp and all prices are positive, sizes are not negative, the update identifiers of a non-snapshot are a positive range, bids never rise and asks never fall; blames sorting only for sides that are not sorted |
| Canonicalizer.NormalizeBookDelta | internal/core/marketmodel/canonicalizer.go:33-65 | succeeds exactly on acceptable deltas, with their normal form; its sortedness and timestamp checks never fail |
| Canonicalizer.NormalDeltaMeans | internal/core/marketmodel/canonicalizer.go:33-65 | a delta is accepted if and only if its rounded sides quote every price well and its identifiers are in order; each side of the normal form holds the best rounded size per rounded price in price order, the timestamp is the first positive one, and a missing identifier of a snapshot takes the value of the other |
| Canonicalizer.NormalizeDeltaIdempotent | internal/core/marketmodel/canonicalizer.go:33-65 | a normalised delta is accepted again and is its own normal form |
| Canonicalizer.NormalDeltaIgnoresOrder | internal/core/marketmodel/canonicalizer.go:33-65 | the normal form of a delta does not depend on the order of its levels |
| StoreSpec.ExpiryExactly | internal/core/marketmodel/state.go:124-143 | an entry is expired away if and only if it and every older insertion were last seen longer than the ttl ago |
| StoreSpec.AdmittedExactly | internal/core/marketmodel/state.go:65-112 | an operation is admitted if and only if both sides are well quoted, its sequence number is above the last of its key if that is still there, and, for a delta, it is still there |
| StoreSpec.ExpiredBehindFreshSurvives | internal/core/marketmodel/state.go:124-143 | for any age, a run with positive sequence numbers and a clock that never runs back in which an entry idle that long is still resident, behind an older insertion that is kept busy |
| StoreSpec.PutKeeps | internal/core/marketmodel/state.go:114-155 | the key just put is resident, nobody else changes, and at most the oldest insertion leaves, only from a full store |
| StoreSpec.EveryRunWellFormed | internal/core/marketmodel/state.go:65-155 | in every run the order lists the resident keys once each and the capacity holds |
| StoreSpec.ActKeeps | internal/core/marketmodel/state.go:65-112 | an admitted operation leaves its key at the new sequence number with the update applied; a rejected one changes nothing |
| StoreSpec.AdmittedSequenceIncreases | internal/core/marketmodel/state.go:65-112 | while a key stays resident its admitted sequence numbers strictly increase |
| StoreSpec.BookFollowsAdmittedUpdates | internal/core/marketmodel/state.go:65-112 | while a key stays resident its book is the earlier book under exactly the admitted updates |
| StateStoreImpl.StateStore.DropExpired | internal/core/marketmodel/state.go:124-143 | the scan over the order removes exactly the entries the specification expires, and touches no book |
| StateStoreImpl.StateStore.UpsertSnapshot | internal/core/marketmodel/state.go:65-89 | on books with their own arrays, the operation is the specified step, succeeds exactly when admitted, writes no array, and adds only new ones to the store |
| StateStoreImpl.StateStore.ApplyDeltaTo | internal/core/marketmodel/state.go:91-112 | the in-place edit of one book is the specified step, leaves every other book alone, and returns the new book on arrays that are new and not the store's |
| StateStoreImpl.ReturnedSnapshotStaysPut | internal/core/marketmodel/state.go:65-112 | after any further operations on the store, which all take effect, a snapshot the store returned still shows the stream as it was then |
| Supervisor.BackoffIsCappedDoubling | internal/actors/runtime/supervisor.go:201-218 | each delay is the smaller of base doubled per attempt and the cap, and never shrinks |
| Supervisor.JitterBounds | internal/actors/runtime/supervisor.go:220-229 | jitter moves a delay by at most its share either way and never below zero |
| Supervisor.JitterIsLinear | internal/actors/runtime/supervisor.go:220-229 | where in that range the delay lands is linear in the random draw, rounded down |
| Supervisor.NewSupervisorPolicy | internal/actors/runtime/supervisor.go:79-115 | a policy comes back exactly when the defaulted configuration is valid, and works with that one |
| Supervisor.PruneFailures | internal/actors/runtime/supervisor.go:186-199 | the loop drops exactly the leading events before the window |
| Supervisor.PruneDropsOldest | internal/actors/runtime/supervisor.go:186-199 | what is dropped is a prefix lying before the cutoff, and what is kept starts at or after it |
| Supervisor.SupervisorPolicy.Fail | internal/actors/runtime/supervisor.go:118-156 | the method is the specified decision and touches one subsystem only |
| Supervisor.SupervisorPolicy.Recover | internal/actors/runtime/supervisor.go:159-163 | recovery touches one subsystem only, and its next failure is answered like a first one, by a restart after the base delay |
| Supervisor.RestartsStayWithinBudget | internal/actors/runtime/supervisor.go:118-163 | no window holds more than the limit of restarts granted since the last recovery, over every run of failures and recoveries; the counter is the number granted |
| Supervisor.DecisionExactly | internal/actors/runtime/supervisor.go:118-156 | from the history alone: a failure is answered by waiting if and only if it lies in the cooldown after the last failure that was not restarted; otherwise by a restart if and only if fewer than the limit of failures lie in the window, after base doubled once for each |
| Supervisor.NextGlobalDelayIsExact | internal/actors/runtime/guardian.go:487-531 | with the budget spent, a grant is refused up to now plus the delay and given after it |
| Supervisor.GlobalGrantsStayWithinBudget | internal/actors/runtime/guardian.go:487-531 | no global window holds more than the global limit of grants |
| GuardianSpec.FailChildKeeps | internal/actors/runtime/guardian.go:399-485 | a failure keeps every invariant, and leaves a retry pending if and only if it was outside the cooldown |
| GuardianSpec.AcceptedRetry | internal/actors/runtime/guardian.go:383-397 | an accepted retry finds no child, is the only one of its generation, and no cooldown discards it |
| GuardianSpec.HandleRetryKeeps | internal/actors/runtime/guardian.go:383-397 | handling any queued retry, stale or not, keeps children and retries consistent |
| GuardianSpec.RetryNeverMarksRecovered | internal/actors/runtime/guardian.go:339-343 | a retry never reaches the recovery bookkeeping |
| GuardianRuns.StepKeepsInv | internal/actors/runtime/guardian.go:99-151 | every message, timer and clock step keeps the guardian's invariant |
| GuardianRuns.NoOrphanEver | internal/actors/runtime/guardian.go:278-485 | in every reachable world and for every subsystem the live children are the recorded ones, a pending retry is the only one and meets no child, a queued one meets no cooldown, and a cached snapshot equals a rebuild |
| GuardianRuns.NoRetryEverLost | internal/actors/runtime/guardian.go:383-473 | as long as no event strands it, a managed subsystem has its child or exactly one pending retry of the current generation |
| GuardianRuns.LosesExactlyWhenStranding | internal/actors/runtime/guardian.go:278-485 | where nothing is lost, an event loses a managed subsystem if and only if it is a failure in a cooldown or a spawn that fails |
| GuardianRuns.FailureInCooldownStrands | internal/actors/runtime/guardian.go:427-450 | a failure inside a cooldown leaves neither child nor retry |
| GuardianRuns.FailedSpawnStrands | internal/actors/runtime/guardian.go:321-330 | an accepted retry whose spawn fails leaves neither child nor retry |
| GuardianScenarios.CooldownStrandsARun | internal/actors/runtime/guardian.go:399-473 | under any setup, a run from boot in which two more failures at one moment than the restart limit leave any managed subsystem with neither child nor retry |
| GuardianScenarios.FailedStartStrandsARun | internal/actors/runtime/guardian.go:278-330 | under any setup, a run from boot in which a failed first spawn strands any managed subsystem |
| GuardianScenarios.FailedRetryStrandsARun | internal/actors/runtime/guardian.go:321-397 | under any setup, a run from boot in which a retry whose spawn fails strands any managed subsystem |
| GuardianScenarios.UnmanagedOutlivesStop | internal/actors/runtime/guardian.go:289-319 | under any setup, a run from boot in which the child of an unmanaged subsystem is alive after a stop |
| GuardianScenarios.AnyNumberStartAtOnce | internal/actors/runtime/guardian.go:383-473 | whatever the limits, a run from boot in which any number of subsystems are started by their retries at one moment |
| GuardianMoments.StartsAtOnceExactly | internal/actors/runtime/guardian.go:383-397 | retries can start a number of children before time passes or a report comes in if and only if that many subsystems have a retry due, and they can start exactly those |
| GuardianMoments.StartsWithinAMoment | internal/actors/runtime/guardian.go:383-397 | in every run, the children that appear at one moment without a report, start or stop belong to subsystems that had a retry due, and are no more than those |
| GuardianBudgets.GrantsStayWithinBudget | internal/actors/runtime/guardian.go:450-531 | in every run no global window holds more than the global limit of grants, a restart is granted if and only if fewer than the limit were granted in the window, and its retry is scheduled either way |
| GuardianBudgets.RestartsStayWithinBudgetInRuns | internal/actors/runtime/guardian.go:399-473 | in every run no restart window of a subsystem holds more than the limit of restarts decided on since it last recovered, and the reported counter is their number |
| GuardianDelays.RetryFallsDue | internal/actors/runtime/guardian.go:427-531 | in every run, from the failures and grants so far: a report in a cooldown leaves no retry; any other leaves exactly one, on a timer due after the cooldown if the restart limit is reached, after base doubled per recent failure, capped and moved by the jitter, if the restart is granted, and otherwise when the oldest grant leaves the window, or a second later if that is now |
| GuardianHealth.HealthIsTold | internal/actors/runtime/guardian.go:278-426 | in every run the health on record is what happened to the subsystem: its last error, failure, transition, message and publish times and connection, each from the last event that decides it; it is running if and only if it has a child |
| GuardianHealth.SnapshotTells | internal/actors/runtime/guardian.go:551-582 | in every run a cached snapshot has a row for exactly the managed subsystems, running if and only if it names a child, which is then alive, with that health, the number of restarts decided on, and the end of the last cooldown |
| GuardianRuns.StopLeavesOnlyUnmanaged | internal/actors/runtime/guardian.go:289-319 | after stopping, the live children are exactly those of unmanaged subsystems |
| GuardianImpl.RuntimeGuardian.StartManaged | internal/actors/runtime/guardian.go:278-287 | the loop starts every managed subsystem in order, once |
| GuardianImpl.RuntimeGuardian.StopManaged | internal/actors/runtime/guardian.go:289-319 | both loops together cancel and outdate every scheduled retry and poison every managed child |
| GuardianImpl.RuntimeGuardian.TakeRetry | internal/actors/runtime/guardian.go:383-397 | handling a queued retry keeps the invariant; an accepted one finds no child and leaves one exactly if the spawn succeeds, a stale one changes nothing, and no other subsystem is touched |
| GuardianImpl.RuntimeGuardian.HandleChildFailed | internal/actors/runtime/guardian.go:399-485 | a failure keeps the invariant, leaves no child, leaves a retry pending exactly if it was outside the cooldown, due when any record of failures and grants that accounts for the guardian's memory says, and touches no other subsystem |
| GuardianImpl.RuntimeGuardian.Snapshot | internal/actors/runtime/guardian.go:551-582 | cached or built by the loop, the snapshot returned is what a rebuild gives |
| GuardianImpl.RuntimeGuardian.Receive | internal/actors/runtime/guardian.go:99-151 | every message is its step of the transition system and keeps the invariant |
| RecencyRuns.SizeAndOrder | internal/shared/ds/boundedmap.go:99-287 | in every run keys are distinct, the size is within bounds, and the list is in order of last use as the log tells it |
| RecencyRuns.GetIsExact | internal/shared/ds/boundedmap.go:99-136 | a lookup returns a value if and only if the log says it was the last one stored, neither deleted nor pushed out since, and it has not expired |
| RecencyRuns.GetByAge | internal/shared/ds/boundedmap.go:99-136 | a lookup returns a value if and only if some call stored it, none stored, deleted or pushed out the key since, and, where there is a time to live, less than that has passed |
| RecencyRuns.SweepsOnTime | internal/shared/ds/boundedmap.go:79-97 | in every run a call sweeps exactly when the count of operations or the time since the last sweep says, and then leaves no expired entry |
| RecencyRuns.LeastRecentlyUsedGoes | internal/shared/ds/boundedmap.go:138-180 | what is pushed out of a full map is the least recently used key |
| RecencyReports.EachRemovalReportedOnce | internal/shared/ds/boundedmap.go:237-287 | the reports of a call are one for each entry that went, with its value and reason, and none for an entry that stayed |
| RecencyReports.CadenceShowsOnlyThroughCapacity | internal/shared/ds/boundedmap.go:79-97 | two maps agreeing on live entries answer alike at any cadence, and keep agreeing if and only if they push out the same live key or none |
| RecencyReports.CadenceNeverShows | internal/shared/ds/boundedmap.go:79-97 | over whole runs with the same live victims, the cadence never changes an answer |
| RecencyReports.CadenceCanShow | internal/shared/ds/boundedmap.go:138-180 | two runs of the same calls at the same times, one never swept and one swept every fourth call, that answer a lookup differently |
| BoundedMapImpl.HandleIsRight | internal/shared/ds/boundedmap.go:16-21 | the handle an entry holds is that of the one list element carrying the entry's key |
| BoundedMapImpl.BoundedMap.Get | internal/shared/ds/boundedmap.go:99-136 | map and list together, moved and removed by handle, do the specified lookup, removals and callbacks included |
| BoundedMapImpl.BoundedMap.Put | internal/shared/ds/boundedmap.go:138-180 | map and list together do the specified store: a resident element moves to the front, a new one is pushed there after the tail of a full map went |
| BoundedMapImpl.BoundedMap.Delete | internal/shared/ds/boundedmap.go:182-199 | map and list together do the specified delete, the element removed by its handle |
| BoundedMapImpl.BoundedMap.Sweep | internal/shared/ds/boundedmap.go:208-221 | walking the map in any order removes exactly the expired entries and counts them |
| Mailbox.NoLostWakeUp | cmd/processor/bootstrap.go:1176-1193 | whenever the handler is blocked and its result is there, a token is in the channel or a worker is about to place one |
| Mailbox.BlockedHandlerCanFinish | cmd/processor/bootstrap.go:1176-1193 | such a handler finishes with its result through a token, a wake and a look, with no further push |
| Mailbox.FirstInFirstOut | cmd/processor/bootstrap.go:1241-1274 | under every key, what was taken and what is queued is what was pushed, in order |
| Mailbox.SuccessMeansResult | cmd/processor/bootstrap.go:1167-1194 | the handler returns success if and only if the next pushed result of its key has no problem or one that cannot be retried |
| Mailbox.ResultMailbox.Push | cmd/processor/bootstrap.go:1241-1254 | after a push a token is there, and under every key popped and queued results are still the pushed ones in order |
| Mailbox.ResultMailbox.Pop | cmd/processor/bootstrap.go:1256-1274 | there is a result exactly when fewer were popped than pushed under the key, and it is the next of those pushed |
| SnapshotCacheSpec.TrimTurnsOnce | cmd/server/bootstrap.go:901-912 | the eviction loop turns at most once and never meets the key just stored, so that branch is dead |
| SnapshotCacheSpec.OrderListsKeys | cmd/server/bootstrap.go:867-929 | under any interleaving of callers the order is a permutation of the cached keys and the bound holds |
| SnapshotCacheSpec.HitsAreFresh | cmd/server/bootstrap.go:880-915 | a hit returns the payload of an upstream call for that subject begun no earlier than ttl before |
| SnapshotCacheSpec.EveryCallIsRight | cmd/server/bootstrap.go:867-916 | under any interleaving: a fresh entry is returned as it is and anything else is a miss that leaves the key uncached; the answer of the source is returned, after being cached as of the arrival if it is something for a subject; only a newcomer to a full cache costs an entry, the oldest |
| SnapshotCacheImpl.Compact | cmd/server/bootstrap.go:918-929 | the in-place compaction leaves the other keys in order and nothing outside the slice changed |
| SnapshotCacheImpl.SnapshotCache.LookUp | cmd/server/bootstrap.go:880-892 | the first critical section is the specified lookup |
| SnapshotCacheImpl.SnapshotCache.Keep | cmd/server/bootstrap.go:900-914 | the second critical section is the specified store, with the dead branch proved dead |
| RetryBudget.IncrementKeepsBijection | internal/adapters/jetstream/retry_budget.go:48-73 | counting a retry, evictions included, keeps ring slots and entries in bijection |
| RetryBudget.ResetKeepsBijection | internal/adapters/jetstream/retry_budget.go:75-91 | a reset keeps ring slots and entries in bijection |
| RetryBudget.TrackerIsBounded | internal/adapters/jetstream/retry_budget.go:27-46 | the tracker never holds more partitions than the ring has slots |
| RetryBudget.RunTracks | internal/adapters/jetstream/retry_budget.go:48-150 | in every run slots and entries are in bijection, and stored attempts stay below the budget and equal the partition's retries in a row |
| RetryTally.RunIsTally | internal/adapters/jetstream/retry_budget.go:48-91 | in every run the ring and map hold exactly what a queue of newcomers, computed from the calls alone, holds: the same partitions, counts and ages |
| RetryTally.RetriesInARow | internal/adapters/jetstream/retry_budget.go:113-150 | told from the calls alone: a partition gets at most budget less one retries in a row while it is held and is terminated exactly on the failure after those; a call evicts a partition exactly if it counts a newcomer while that one is as old as the ring allows |
| RetryTally.StreakFromCalls | internal/adapters/jetstream/retry_budget.go:113-150 | the retries in a row read off the reported log are what the calls alone say |
| RetryTally.EvictedExactly | internal/adapters/jetstream/retry_budget.go:48-73 | a held partition is evicted by exactly the newcomer that makes as many since its insertion as the ring has slots |
| RetryTally.BoundHoldsWhileFew | internal/adapters/jetstream/retry_budget.go:48-150 | with fewer newcomers than slots since its insertion, a partition that is retried every time has been retried at most budget less one times |
| RetryBudget.RetriesWithCounts | internal/adapters/jetstream/retry_budget.go:128-134 | with growing delivery counts only the first budget less one deliveries are retried |
| RetryTally.NeverTerminated | internal/adapters/jetstream/retry_budget.go:48-73 | for any number of slots, calls in which no partition comes back within that many others are all retried |
| RetryTally.EvictionVoidsTheBound | internal/adapters/jetstream/retry_budget.go:48-73 | for any number of slots, one partition more than that taking turns are retried for any number of rounds |
| RetryBudget.RetryBudgetTracker.IncrementPartition | internal/adapters/jetstream/retry_budget.go:48-73 | the method on ring array and map is the specified increment |
| RetryBudget.RetryBudgetTracker.ResetPartition | internal/adapters/jetstream/retry_budget.go:75-91 | the method on ring array and map is the specified reset |
| Consumer.RetriesAreBudgeted | internal/adapters/jetstream/retry_budget.go:113-126 | every retry the handler path can decide on falls under the budget |
| Consumer.PoisonExactly | internal/adapters/jetstream/ingest_policy.go:59-102 | a problem is poison if and only if its reason code, reason or message names one of the four recognised reasons, or the type is a known one in a later version, or it is not retryable and has one of the seven codes of the message's own fault; poison is quarantined and terminated, no problem acked, anything else retried |
| Consumer.PartitionIsBook | internal/adapters/jetstream/retry_budget.go:198-217 | a budget belongs to the venue and instrument of the envelope, or else of the subject, or else unknown |
| Consumer.OneBudgetPerBook | internal/adapters/jetstream/retry_budget.go:198-217 | envelopes that name venue and instrument share a budget if and only if they name the same |
| Consumer.SubjectNamesBook | internal/adapters/jetstream/ingest_policy.go:371-385 | the last two parts of a printed subject are its venue and instrument |
| Consumer.EveryDispositionIsSound | internal/adapters/jetstream/consumer.go:262-319 | in every run: another shard's message is acked and nothing else; an undecodable one is quarantined and retried only if that fails for now; any other is handled first and, unless shutdown is seen, acked if and only if there was no problem, quarantined if and only if the problem is poison and it does not come from quarantine, retried if and only if budget is left and the problem is no poison or quarantine failed for now, and otherwise terminated |
| Consumer.DecodeFailuresAreNotBudgeted | internal/adapters/jetstream/consumer.go:287-294 | an undecodable message of this shard is retried if and only if quarantine is tried and fails for now and no shutdown is seen, whatever its delivery count, and leaves the tracker alone |
| Consumer.RetriedForEver | internal/adapters/jetstream/consumer.go:287-294 | a run in which one such message is retried on each of any number of deliveries with growing counts |
| Consumer.JetStreamConsumer.constructor | internal/adapters/jetstream/consumer.go:155-163 | a new consumer has a budget between one and three that the delivery limit allows, an empty tracker of 1024 slots, and at least one shard group |
| Consumer.JetStreamConsumer.ApplyTransientBudget | internal/adapters/jetstream/retry_budget.go:113-150 | the decision follows from the calls so far, whatever the tracker has forgotten, and the tracker still counts every partition's retries in a row |
| Consumer.JetStreamConsumer.ConsumeOne | internal/adapters/jetstream/consumer.go:262-319 | the method does exactly the specified effects in order, they are the right ones by those equivalences against the calls so far, and the tracker still agrees with them |
| Subjects.NormalizeInstrument | internal/shared/envelope/subject.go:32-66 | the fast path and the builder loop give the same text: the letters and digits, or UNKNOWN |
| Subjects.SubjectRoundTrip | internal/adapters/jetstream/subject_validation.go:105-128 | splitting a printed subject recovers event, version, venue and instrument if and only if the envelope is printable |
| Subjects.SubjectTellsApart | internal/shared/envelope/subject.go:12-30 | printable envelopes have the same subject if and only if event, version, venue and instrument agree as printed |
| Subjects.JoinOfSplit | internal/adapters/jetstream/subject_validation.go:113-127 | joining the tokens of a split gives the text back |
| Subjects.ItoaReadsBack | internal/shared/envelope/subject.go:29 | a printed version number stands for that number, without leading zeros |
| Shard.ExactlyOneOwner | internal/adapters/jetstream/shard.go:32-49 | with sharding on, every subject has exactly one owner for any 32-bit hash: the remainder of the hash by the number of groups |
| Shard.SameBookSameOwner | internal/adapters/jetstream/shard.go:5-27 | envelopes of one venue and instrument whose subjects can be read have the same owner whatever their type and version, dotted venues included |
| Shard.SameBookSameText | internal/adapters/jetstream/shard.go:15-27 | for one venue and instrument the hashed text is the same if and only if both subjects can be read or they are the same subject |
| Shard.KeyTextTellsBooksApart | internal/adapters/jetstream/shard.go:23-26 | the hashed texts of readable subjects are the same if and only if the instruments and the last parts of the venues are; without dots, the whole venues |
| Filters.CoversMeansInclusion | cmd/processor/bootstrap.go:1508-1525 | a filter that covers a pattern matches every subject the pattern matches |
| Text.ContainsMeans | internal/adapters/jetstream/ingest_policy.go:165-205 | a text contains another if and only if that stands somewhere in it |
| Filters.AppendIfMissing | cmd/processor/bootstrap.go:1495-1506 | appending or not, exactly the new pattern's subjects are added |
| Filters.Deduplicate | cmd/processor/bootstrap.go:1479-1492 | the list comes out trimmed and without repeats, and matches the same subjects |
| Filters.EffectiveFilters | cmd/processor/bootstrap.go:1467-1493 | the list matches exactly the union of configured filters, required patterns and the join subject |

## Left out

- Connections, codecs, HTTP and WebSocket handlers, metrics and logging: input and output over libraries that are not part of this model.
- Random draws, clock readings, upstream answers, fetch results and acknowledgement outcomes are parameters or nondeterministic events; a handler reads its clock once where the program reads it several times in a row.
- Floating point is modelled by exact reals without NaN and infinities, so `ApplyJitter` and `RoundToDecimals` do not show rounding error.
- Text is ASCII: Unicode case mapping and the wider Unicode classes of space, letter and digit are not modelled.
- Counters such as retry generations, attempts and the operation count are unbounded; 64-bit wrap-around is not modelled.
- `NormalizeTrade`, `NormalizeSnapshot`, `Entries` and `Len`: they repeat what is proved of their siblings.
- The store key is a record of venue, symbol and channel where the program joins the three with slashes.
- The sort of levels overwrites the slice with its result instead of swapping; the result is unique, so the steps do not show in it.
- A fetch returns one message per turn of the replay loop.
- The guardian keeps its per-subsystem health in one map of records instead of seven maps, a failed spawn records a fixed text, actors and timers get fresh numbers, and readiness reporting and the Degraded and Recovered messages it emits are left out.
- The list of managed subsystems (without repeats), an exchange's precision rule and the policy configuration are parameters.
- The recency list of the bounded map is a sequence of elements with handles, not a linked ring; callbacks are the returned list of reports.
- Locks are atomic steps; payloads are immutable values.
- The delivery count is a parameter: reading it from metadata and headers is left out, as is building and publishing the quarantine envelope.
- The hash behind shard keys is any function to 32-bit numbers, and group counts are below 2^32.
- Validation of subjects and patterns beyond splitting (`ValidateSubjectTaxonomy`, `ValidateSubjectPattern`): single-branch checks.
- Bounded stores in other packages repeat invariants proved here.
