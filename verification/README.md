# A verified model of the Papayya durable engine

Papayya runs a customer's function as a sequence of durable steps. Every finished
step is recorded, so a pass that is lost or paused can be run again from the top and
finds its earlier work. This project models that engine in Dafny and proves what it
promises: over every body, every crash, every outage and every history of the ledger.

| files | what they model |
|---|---|
| `Types` `Labels` `Latest` `Ledger` `Backoff` | step records, positional step keys, the collapse of several executions to the latest, the row list of one item, the two waiting ladders |
| `ItemSpec` `Item` | the durable item: hydration, the two-tier lookup, attempts, the retry loop. `Item` is the object that updates its fields; `ItemSpec` has the functions its methods are proved against |
| `Resume` `CrashResume` `Reuse` `Rewind` | the item over many passes: bodies are deterministic functions from the results seen so far to the next call, step results are arbitrary, and a pass can be cut anywhere |
| `CatchResume` | the same for bodies that may catch the exception of a step and go on |
| `Taint` `TaintPass` | input provenance, one hop at a time, and that it adds up to reachability |
| `SqliteSpec` `SqliteStore` `StoreRuns` `Rollup` `Aggregates` `AggregateOrder` `Fence` | the local ledger as an object with three tables, and its invariants over every history of operations |
| `Loaded` `ItemRows` | what an item saves is what it loads, and the life of its row and of its run |
| `FencedItem` `LocalResume` | the item and the local ledger together, over many passes in many processes: the pause one raises is the one the other looks at, and replay over the store |
| `IterLoop` | one loop over items is one run |
| `Journal` `CloudStore` `Outage` | delivery to the control plane with bounded retry, a journal, and a first-in first-out drain |
| `Convergence` `IssueOrder` | exactly when outages cannot change what the control plane ends up with, for given writes and for writes in a given order |
| `CloudResume` `CloudPasses` | what a later pass finds at the control plane, and the item and its delivery together |
| `Cron` `Reconcile` `ReconcileApply` | declared triggers against the server: diff, then apply |
| `Redact` | replacing several secret values in a text |

`dafny verify dfyconfig.toml` checks everything.

## Where a promise needs a condition

Some promises are false in general. The code is modelled as it is; a concrete
counterexample is proved, and so is exactly when the promise holds.

- **Positional replay.** Calling `a` twice and `a#2` once gives two calls one key
  (`CrashResume.DigitLabelsCollide`). Every call in every history of passes is answered by
  its own stored row if and only if the keys of the body never collide
  (`CrashResume.ReplayLawIffNoCollision`); labels without a `#digits` tail are enough
  (`CrashResume.PlainLabelsNeverCollide`).
- **Catching.** A body that catches the exception of a step and goes on stores a call that no
  later pass reaches once the step returns. Given that keys never collide, every pass sees
  the stored results, from the first on, if and only if the body makes no call after one that
  threw (`CatchResume.LawSurvivesIffItStops`).
- **Order of arrival.** The latest execution of a step does not depend on the order of
  rows if and only if no two different rows share the largest `(attempt, completed_at)`
  (`Latest.OrderIndependence`).
- **Outage convergence.** Every first execution of a label gets the token `label|1`. One
  that sits in a journal is invisible to the pass that replaces it, so the replacement is a
  first execution too, with the same token, and of two writes with one token the control
  plane keeps the first to arrive. `Convergence.OneReplyDecides` proves two schedules of
  the same three writes, everything delivered in both, that end with different rows
  although they differ in one reply. Histories of the same writes leave the same rows if
  and only if no two different entries share a token (`Convergence.OutagesConverge`), which
  for what an item mints means that no label has two first executions among the writes
  (`Convergence.OutagesConvergeIffOneFirstExecution`). The latest execution of a step is
  the same in all of them if and only if no other entry has its token
  (`Convergence.LatestConvergesIffAlone`). For writes issued in one order, over all replies,
  the rows are the same if and only if no two steps before the last write share a token
  (`IssueOrder.ConvergeInOrderIff`).
- **Conservation.** A write is nowhere if and only if every process that tried to write it
  died among its attempts before one of them landed (`Outage.LostIffDiedUnsent`).
- **Crash-resume over outages.** A pass is answered by the row of an earlier execution if
  and only if the control plane shows that row (`CloudResume.AnsweredIffShown`). A pass that
  begins finds every execution made if and only if every step saved so far has been applied
  (`CloudPasses.DrainedIffShown`); if that is so whenever a pass begins, the replay law holds
  (`CloudPasses.ReplayLawOverTheCloud`). An empty journal, with none of the run's steps lost or
  refused for good, is enough (`CloudPasses.EmptyJournalShows`).
- **Rewind.** The prefix of a replay is kept in memory only. If the replaying process dies
  once its run has a record, the next one executes the prefix again: it is answered from the
  replay's work if and only if there was no prefix (`Rewind.RestartIsAnsweredIffNoPrefix`).
- **Run counters.** Writing a status to an item that has already resolved keeps the
  counters of its run right if and only if the status is the one it has
  (`Rollup.RewritingATerminalItem`).
- **Aggregates.** An item created over rows saved before it has right aggregates if and
  only if all those rows are ok (`Aggregates.LateCreateIsAggregated`). The degraded count
  does not depend on the order of deliveries if and only if entries with one token agree on
  being ok (`AggregateOrder.CountIgnoresOrder`), and the worst status if and only if some
  token has no other outcome than the worst one (`AggregateOrder.WorstIgnoresOrder`).
- **Redaction.** For values that do not touch or contain the text `[REDACTED]` (every value
  without brackets is one), no text keeps an installed value if and only if the word
  `REDACTED` is not installed (`Redact.CompleteIffMarkerWordNotInstalled`). One value on its
  own, whatever touches, is never kept if and only if it is not a part of that text, does
  not begin with an end of it, and where it ends with a beginning of it an earlier occurrence
  is replaced instead (`Redact.OneValueIsRemovedIff`). With several values, touching ones
  can come back (`Redact.TouchingValueComesBack`, `Redact.RedactionIsNotCompleteInGeneral`).

Where code and comments disagree the code is followed. A comment in `cloud_store.py` puts
the wait before journaling at about 3.5 seconds; five attempts sleep four times, which is
1.5 seconds. The insert of the local store has no columns for the retry and reuse fields,
so the local ledger forgets them: `SqliteSpec.Persisted` says so, and in `Resume` a setting
says whether the store keeps the retry count.

Clocks, random tokens, step results, replies of the control plane and the answer of the
pause fence are parameters. A random token is required to be new and free of `|`.

## Model

| member | source | states |
|---|---|---|
| Labels.DecimalRoundTrip | src/papayya/durable/run.py:701-709 | the number in a suffixed key can be read back, and is written without leading zeros |
| Labels.SuffixedKey | src/papayya/durable/run.py:716-727 | the key of call N of a label ends in `#N`, and stripping the tail gives the label |
| Labels.BaseOfKey | src/papayya/durable/run.py:716-727 | the label comes back out of a key if and only if the key is suffixed or the label has no digit tail |
| Labels.BaseLabelMeaning | src/papayya/durable/run.py:716-727 | a label that is some text, a hash and digits loses that tail, any other stays as it is |
| Labels.KeysCollide | src/papayya/durable/run.py:701-727 | exactly which pairs of calls share a key |
| Labels.KeyInjective | src/papayya/durable/run.py:701-727 | over labels without a digit tail no two calls share a key |
| Labels.PlainKeysDiffer | src/papayya/durable/run.py:701-709 | two calls of one pass with plain labels have different keys |
| Labels.DigitTailsCollide | src/papayya/durable/run.py:701-727 | `a`, `a`, `a#2` collide |
| Latest.LatestPerLabel | src/papayya/durable/types.py:118-145 | the loop with a dictionary and an order list computes the collapse |
| Latest.CollapseMeaning | src/papayya/durable/types.py:118-145 | one entry for each label that occurs, none twice, each with a largest stamp of its label |
| Latest.CollapseKeepsOrder | src/papayya/durable/types.py:118-145 | of two kept entries, the one whose label appeared first among the rows comes first |
| Latest.KeptIsTheLatest | src/papayya/durable/types.py:118-145 | the kept row of a label is the last of those with the highest attempt and, among these, the latest completion |
| Latest.OrderIndependence | src/papayya/durable/types.py:118-145 | the kept entry is the same in every arrival order if and only if the largest stamp is unique |
| Latest.StaleNeverWins | src/papayya/durable/types.py:118-145 | an execution with a smaller stamp than another of its label is never kept |
| Ledger.KnownMeaning | src/papayya/durable/sqlite_store.py:939-957 | a write is known if and only if a row has its token, or, for a write without one, a row without one has its key |
| Ledger.DeliverKeepsTheFirst | src/papayya/durable/sqlite_store.py:924-958 | whatever arrives, how often and in which order: of the writes with one identity exactly the first to arrive is stored, once |
| Ledger.DeliverStoresEverything | src/papayya/durable/sqlite_store.py:924-958 | every write is stored if and only if only redeliveries share an identity |
| Ledger.OrderFreeIffRedeliveries | src/papayya/durable/lineage_journal.py:17-27 | the rows do not depend on order and number of arrivals if and only if writes that share an identity are one write |
| Ledger.LatestConvergesIff | src/papayya/durable/types.py:118-145 | the row with the largest stamp wins in every order of arrival if and only if no other write has its identity |
| Backoff.StepSleepClosed | src/papayya/durable/run.py:1347-1362 | r retries of a step wait 0, 1, 3, 7 or 15 seconds, then 8 more each |
| Backoff.StoreSleepClosed | src/papayya/durable/cloud_store.py:45-47 | m sleeps of a write wait 0, 1, 3, 7, 15 or 31 tenths, then 20 more each |
| ItemSpec.SeededAttemptsMeaning | src/papayya/durable/run.py:753-766 | the seeded counter of a label is its highest attempt over the raw rows |
| ItemSpec.StandsMeaning | src/papayya/durable/run.py:393-439 | a label stands if and only if, of its rows, the last with the highest attempt and then the latest completion is not one the pause recorded |
| ItemSpec.HydratedMeaning | src/papayya/durable/run.py:376-439 | a label is cached if and only if its latest execution was not recorded by the pause, with that execution; the reuse index is sound; attempts are the maxima |
| ItemSpec.CacheKeepsTheOrder | src/papayya/durable/run.py:393-439 | the cached steps are in the order in which their labels first appeared among the rows |
| Items.Item.constructor | src/papayya/durable/run.py:206-322 | a new item is blank and unfinished |
| Items.Item.Init | src/papayya/durable/run.py:324-490 | loads the stored rows less the recorded pairs, or takes over a rewind's prefix; a second call changes nothing |
| Items.Item.Hydrate | src/papayya/durable/run.py:393-439 | the in-place hydration loop reaches the specified state |
| Items.Item.IndexIfReused | src/papayya/durable/run.py:729-751 | files a copied entry under item id and base label, aggregates apart |
| Items.Item.SeedAttempts | src/papayya/durable/run.py:753-766 | the in-place scan computes the seeded counters |
| Items.Item.ResolveStepLabel | src/papayya/durable/run.py:701-709 | returns the next key and consumes one occurrence |
| Items.Item.PeekStepLabel | src/papayya/durable/run.py:711-714 | predicts the key without consuming it |
| Items.Item.ReadIdempotencyKey | src/papayya/durable/run.py:821-866 | names the run, the effective label and the next attempt |
| Items.Item.NextExecution | src/papayya/durable/run.py:773-794 | mints the next attempt, with the predictable token for the first |
| Items.Item.Lookup | src/papayya/durable/run.py:1021-1060 | copied work by item id and label, unless it is aggregate and something has run; then this run's own by position |
| Items.Item.PreCall | src/papayya/durable/run.py:981-1101 | finished, paused, hit or proceed, with the whole new state in each case |
| Items.Item.InspectStep | src/papayya/durable/run.py:1230-1237 | the gate on degraded predecessors and the inspection |
| Items.Item.PostCallSuccess | src/papayya/durable/run.py:1143-1293 | records one execution, in the cache and at the store: what the try brought along, its item id and its retry count, field by field |
| Items.Item.Tries | src/papayya/durable/run.py:1347-1394 | the retry loop: how many tries, what all but the last were, why it stopped and how long it waited |
| Items.Item.Call | src/papayya/durable/run.py:1314-1471 | one durable call: no trace when refused or paused; a hit changes only counters; at most 1 + max(0, retries) tries, 5 by default, all but the last retryable; success writes one row under the provider key read before, with what the last try brought along, the item id given or else the run's, and the failed tries as its retry count; failure writes none and moves no attempt |
| Items.Item.Complete | src/papayya/durable/run.py:1476-1482 | writes a terminal status at most once |
| Items.Item.Fail | src/papayya/durable/run.py:1484-1491 | a no-op on a finished item |
| Items.Item.BuildResult | src/papayya/durable/run.py:1508-1520 | the cached entry of each step in call order |
| Resume.InvalidationSpendsItself | src/papayya/durable/run.py:393-439 | over any passes cut anywhere, a recorded execution is replaced at most once, others never, and the replacement stands with the next attempt |
| Resume.NextCall | src/papayya/durable/run.py:1017-1069 | in every reachable state the ledger alone decides: answered with the stored result if and only if the latest execution stands, else executed and appended with the next attempt |
| Resume.CallOrderIsTheCache | src/papayya/durable/run.py:1289-1290 | the call order has no duplicates and lists exactly the standing labels |
| Resume.SameProviderKeyIffNoRow | src/papayya/durable/run.py:821-866 | a later call of a label reads the same provider key if and only if no row of it became visible in between |
| CrashResume.CrashResumeEquivalence | src/papayya/durable/run.py:376-439 | rows are never lost, rewritten or doubled; every pass sees exactly the stored results; a finished pass has seen all of them |
| CrashResume.ReplayLawIffNoCollision | src/papayya/durable/run.py:701-709 | every call is answered by its own row in all histories if and only if the body's keys never collide |
| CrashResume.PlainLabelsNeverCollide | src/papayya/durable/run.py:716-727 | labels without a digit tail never collide |
| CatchResume.LawSurvivesIffItStops | src/papayya/durable/run.py:1314-1471 | for bodies that see how each call ended, given that keys never collide: every pass sees the stored results, from the first on, if and only if the body makes no call after one that threw |
| CatchResume.PlainCatchingNeverCollides | src/papayya/durable/run.py:716-727 | labels without a digit tail never collide, whatever is thrown |
| CrashResume.DigitLabelsCollide | src/papayya/durable/run.py:701-709 | a body that collides |
| Reuse.ReuseAnswersTheRightRecord | src/papayya/durable/run.py:1029-1063 | a copied entry handed back has the caller's item id and label, and an aggregate one comes back only while nothing has run |
| Reuse.FlagMeansSomethingRan | src/papayya/durable/run.py:1065-1069 | the flag is set if and only if a call of this pass executed, one that raised included |
| Reuse.SubRecordAnswerIsStable | src/papayya/durable/run.py:1029-1063 | filtering or reordering the calls before cannot change the copied answer for a sub-record |
| Reuse.FirstItemIdStays | src/papayya/durable/run.py:1008-1019 | the run's item id, once set, stays; until then the first call that names one sets it |
| Reuse.CopiedWorkIsReused | src/papayya/durable/run.py:1029-1054 | exactly when copied work comes back: a call for a record gets the last copy made for that record and label, unless the record is the run's own and something has run; else none |
| Rewind.ResolveFromStep | src/papayya/durable/_replay.py:67-113 | which prefix a label or step number selects, and which requests are refused |
| Rewind.StepsBeforeAppearedFirst | src/papayya/durable/_replay.py:67-113 | the selected steps are those whose labels appeared first among the recorded rows: n - 1 of them for step n, all before its label for a named one |
| Rewind.RewindReplaysPrefixAndRunsTheRest | src/papayya/durable/_replay.py:405-440 | the calls of the prefix get stored results, each later call executes once, and the new run holds exactly those rows in order |
| Rewind.DeadReplayForgetsItsPrefix | src/papayya/durable/run.py:376-462 | a process that takes over a replaying run with a record executes the prefix again |
| Rewind.RestartIsAnsweredIffNoPrefix | src/papayya/durable/run.py:376-462 | a process that takes over a replay past its first call is answered from the replay's work if and only if it starts at the first step |
| Taint.FlattenOneLevel | src/papayya/outcomes.py:491-510 | exactly the arguments and their direct children |
| Taint.InspectTaint | src/papayya/outcomes.py:513-567 | the root of the earliest prior entry whose result object is held |
| Taint.RecordsTheEarliestSource | src/papayya/outcomes.py:468-567 | a step records a root if and only if it is ok, something before it is not, and it was handed, as an argument or directly inside a list, tuple or dict, the unshared result of a source: a step that is not ok, other than for an empty result, or a tainted one; the earliest source is named |
| Taint.TaintIsReachability | src/papayya/outcomes.py:513-567 | local marks add up to reachability along object edges through ok steps from a propagating degraded one, and name such a one |
| Taint.TaintedHasPath | src/papayya/outcomes.py:513-567 | a path to every tainted row from the very root it names |
| TaintPass.RecordedTaintIsReachability | src/papayya/durable/run.py:1230-1290 | in one pass of an item from nothing, every call that does not raise is recorded as itself, and an ok one is tainted if and only if it is reachable |
| TaintPass.PlainLabelsAreEnough | src/papayya/durable/run.py:1230-1290 | the same for any pass over labels without a digit tail |
| SqliteStore.SQLiteStore.Load | src/papayya/durable/sqlite_store.py:862-922 | the rows of an item in insertion order, or nothing |
| SqliteStore.SQLiteStore.AlreadyStored | src/papayya/durable/sqlite_store.py:939-957 | the two queries of the guard find a row if and only if the execution is known |
| SqliteStore.SQLiteStore.StreakOf | src/papayya/durable/sqlite_store.py:1060-1067 | the last k rows are all bad if and only if the trailing streak is at least k |
| SqliteStore.SQLiteStore.SaveTask | src/papayya/durable/sqlite_store.py:924-1069 | a redelivery changes nothing; else one row, the aggregates and the fence; Loaded says what of the entry comes back, ItemRows and Fence what becomes of the item |
| Loaded.LoadedIsWhatWasSaved | src/papayya/durable/sqlite_store.py:862-1026 | in every history of a new ledger the rows an item loads are, in order, the executions saved for it, the first of each identity, with key, result, time, item id, outcome, reason, taint, token and attempt as they were saved |
| LocalResume.SaveIsOneRow | src/papayya/durable/sqlite_store.py:924-1026 | saving an execution that was not reused adds its row to the item's, less the retry count, unless its identity is there |
| LocalResume.StoreIsTheLedger | src/papayya/durable/run.py:981-1293 | every step of a pass over the store is the same step over the item's own rows |
| LocalResume.ReplayLawOverTheStore | src/papayya/durable/sqlite_store.py:862-922 | crash-resume over the local store, with pauses and everything else that happens to it: every pass sees exactly the loaded results, no key is executed twice, nothing loaded is lost, and a finished pass has seen all there is |
| SqliteStore.SQLiteStore.EvaluateFence | src/papayya/durable/sqlite_store.py:1054-1069 | when the pause is set, and that it is never recomputed |
| SqliteStore.SQLiteStore.SetRunFence | src/papayya/durable/sqlite_store.py:805-808 | registers the fence of one item and changes nothing else |
| SqliteStore.SQLiteStore.ClearPendingPause | src/papayya/durable/sqlite_store.py:820-824 | clears this item's pause and no other |
| SqliteStore.SQLiteStore.SetStatus | src/papayya/durable/sqlite_store.py:1071-1142 | item status, run counter, rollup and promotion as one transition; Rollup says what it does to the run |
| SqliteStore.SQLiteStore.PromotePartialIfDrained | src/papayya/durable/sqlite_store.py:473-504 | partial to completed if and only if no untriaged failed item is left |
| SqliteStore.SQLiteStore.Create | src/papayya/durable/sqlite_store.py:1144-1192 | links the item to its run, or to an implicit run of one |
| SqliteStore.SQLiteStore.CreateRun | src/papayya/durable/sqlite_store.py:1196-1226 | a new running run |
| SqliteStore.SQLiteStore.FinalizeRun | src/papayya/durable/sqlite_store.py:1228-1274 | seals with the real count, rolls up, closes an empty run |
| SqliteStore.SQLiteStore.MarkDlqDisposition | src/papayya/durable/sqlite_store.py:1286-1333 | the first decision on a failed item stands |
| SqliteStore.SQLiteStore.SetItemReplayedFrom | src/papayya/durable/sqlite_store.py:1335-1343 | links a known item to the one it drives again |
| ItemRows.ItemChangesOnlyAsAsked | src/papayya/durable/sqlite_store.py:924-1142 | what each operation does to an item: the status last set, the first decision on a failed item, the link last made, the first customer id, and the aggregates of a save |
| ItemRows.ItemIsCreated | src/papayya/durable/sqlite_store.py:1144-1192 | an item begins running, in the run named or one of its own, with nothing counted |
| ItemRows.RunIsOpened | src/papayya/durable/sqlite_store.py:1144-1226 | a run begins running, for as many items as said or for the one of a direct call |
| ItemRows.CaptureOffLeavesRuns | src/papayya/durable/sqlite_store.py:1071-1192 | with capture off no item opens, counts in or closes a run |
| ItemRows.ItemKeeps | src/papayya/durable/sqlite_store.py:924-1343 | over every history an item stays in its run, keeps its customer id and the first decision about it, and never gets better aggregates |
| ItemRows.DirectCallCloses | src/papayya/durable/sqlite_store.py:1085-1132 | the run of a direct call is completed or failed, as its item is, at the moment the item resolves, whatever else happened in between |
| Rollup.RollupStateMachine | src/papayya/durable/sqlite_store.py:1071-1142 | in every state a new ledger can reach the counters are the terminal items, a sealed run whose items have all resolved is closed, and every partial run has an untriaged failed item; every step moves runs only as listed: a run closes when it is finalized or one of its items resolves, at that moment, its total is the number of its items at finalization, and an open run closes only then |
| Rollup.RewritingATerminalItem | src/papayya/durable/sqlite_store.py:1085-1104 | a second terminal write keeps the counters if and only if it repeats the status |
| Aggregates.AggregatesAreRecomputed | src/papayya/durable/sqlite_store.py:1027-1053 | in every state a new ledger can reach the stored aggregates equal a recomputation, and no execution is stored twice |
| Aggregates.AggregatesMeaning | src/papayya/durable/sqlite_store.py:1027-1053 | in every such state the item counts its rows that are not ok, and its worst status is failed if a row has failed, else degraded if one has, else ok |
| Aggregates.SaveIsSaveRow | src/papayya/durable/sqlite_store.py:924-958 | a save to the tables is a save to the item's own row list |
| AggregateOrder.CountIgnoresOrder | src/papayya/durable/sqlite_store.py:1027-1053 | the degraded count is the same for every order and number of deliveries if and only if entries with one identity agree on being ok |
| AggregateOrder.WorstIgnoresOrder | src/papayya/durable/sqlite_store.py:1027-1053 | the worst status is the same for all of them if and only if it is ok, or some identity has no other outcome |
| Aggregates.LateCreateIsAggregated | src/papayya/durable/sqlite_store.py:1144-1192 | an item created after its rows is right if and only if they are all ok |
| Fence.StreakIsBounded | src/papayya/durable/sqlite_store.py:1054-1069 | over histories that save nothing while a pause is pending, and under a fence of at most K whenever they save: never more than K plus the number of clears consecutive rows that are not ok |
| Fence.FenceTrips | src/papayya/durable/sqlite_store.py:1054-1069 | over such histories under the fence K: paused if and only if the rows end in a full streak and no pause was cleared since; and the pause names K and the last row's reason, or its status |
| Fence.FenceOffNeverPauses | src/papayya/durable/sqlite_store.py:1054-1069 | a fence of 0 or less never pauses anything |
| FencedItem.StartPass | src/papayya/durable/run.py:324-376 | a pass registers the item's fence, if it has one, and hydrates from its rows: one step of the combined world |
| FencedItem.FencedCall | src/papayya/durable/run.py:981-1000 | one call of the item against the store, with the store's own pause for the fence, is one step of the combined world |
| FencedItem.EveryHistoryIsGated | src/papayya/durable/run.py:990-1000 | whatever the body and the passes, nothing is ever saved while a pause is pending |
| FencedItem.NothingRunsWhilePaused | src/papayya/durable/run.py:990-1000 | until a pause is cleared no row is added, and within a pass no occurrence is consumed and nothing is cached |
| FencedItem.StreaksAreBounded | src/papayya/durable/sqlite_store.py:1054-1069 | the streak bound, and when the item is paused, for every body and any passes in any processes that register the same fence, without assuming the gate |
| IterLoop.ProcessItem | src/papayya/iterators.py:229-295 | one element: its record, its step rows with the synthetic entry, its terminal status, the active-run variable restored |
| IterLoop.IterGen | src/papayya/iterators.py:190-299 | for any items: records exactly up to the first stop, all in one run, with exactly their step rows; the run says how many were minted and completed, and is completed, failed when the first body raised, or partial when a later one did; the active-run variable is restored on every exit |
| IterLoop.LoopMeaning | src/papayya/iterators.py:190-299 | how a loop that first stops at element k ends, how many records it makes and what its run says |
| IterLoop.RowsOfAnElement | src/papayya/iterators.py:229-295 | the rows of each element reached are the executions its body saved, and the synthetic failure if it raised, each once |
| IterLoop.FailureIsRecorded | src/papayya/iterators.py:270-275 | the rows of a record whose body raised are what the body saved and then a failed entry for the customer's item with reason `loop_body_exception`, if and only if the body saved nothing with its token |
| CloudStore.CloudStore.Send | src/papayya/durable/cloud_store.py:477-496 | the attempts of one write, what they leave at the server, how they end and how long they sleep |
| CloudStore.CloudStore.Execute | src/papayya/durable/cloud_store.py:458-515 | drain, then attempt; delivered, journaled or raised |
| Outage.WhatAWriteComesTo | src/papayya/durable/cloud_store.py:458-515 | five attempts that end in connection trouble, 429 or 500 and above journal a write; else the first that does not settles it, applied or refused for good; what lands are plain copies |
| CloudStore.CloudStore.DrainJournal | src/papayya/durable/cloud_store.py:517-576 | the drain loop removes exactly the specified prefix |
| Outage.DrainRemovesASettledPrefix | src/papayya/durable/cloud_store.py:517-576 | oldest first, at most 100 deliveries, one request each; what is removed was applied or refused for good, never with connection trouble, 429, 500 and above, or a 400 on a task; and it stops only after 100 or at such a reply |
| Outage.HealthyDrains | src/papayya/durable/cloud_store.py:517-576 | k drains of n entries under a healthy server leave max(0, n - 100 k) and lose none |
| Outage.HealthyWrite | src/papayya/durable/cloud_store.py:458-576 | under a healthy server a write comes after the oldest journaled ones, up to 100 and in order, each task with its sixth attempt and the time it was journaled |
| Outage.WritesAreConserved | src/papayya/durable/cloud_store.py:458-576 | over every history, with processes that die in drains and among the attempts of a write, each write that was executed to the end or landed once is applied, journaled or refused for good, nothing else is anywhere, and the journal is a queue |
| Outage.LostIffDiedUnsent | src/papayya/durable/cloud_store.py:477-496 | a write is nowhere if and only if every process that tried to write it died among its attempts before one of them landed |
| Convergence.OutagesConverge | src/papayya/durable/lineage_journal.py:17-27 | all fully delivered histories of the same writes leave the same rows if and only if no two different entries share a token |
| Convergence.OutagesConvergeIffOneFirstExecution | src/papayya/durable/run.py:773-794 | for what an item mints: if and only if no label has two first executions among the writes |
| Convergence.LatestConvergesIffAlone | src/papayya/durable/types.py:118-145 | the latest execution wins in all of them if and only if no other entry has its token |
| Convergence.OneReplyDecides | src/papayya/durable/run.py:846-850 | a first execution in the journal and the first execution that replaces it share a token, and one reply decides which of them the control plane keeps |
| IssueOrder.ConvergeInOrderIff | src/papayya/durable/cloud_store.py:458-576 | for writes issued in one order, each step once, over all replies: the same rows if and only if no two steps before the last write share a token |
| Outage.LateExecutionNeverWins | src/papayya/durable/types.py:118-145 | an execution drained late never wins over one with a larger stamp, equal attempts included, unless another write has that one's token |
| Outage.FirstArrivalWins | src/papayya/durable/lineage_journal.py:17-27 | of two executions with one token the first to arrive is kept and the second never wins |
| CloudResume.DrainedPassesFindEverything | src/papayya/durable/cloud_store.py:458-515 | if the journal is drained before each pass, every pass sees exactly the results of the executions made and none is made twice |
| CloudResume.AnsweredIffShown | src/papayya/durable/run.py:393-439 | the call of an earlier execution is answered, by its own row, if and only if the control plane shows that row |
| CloudPasses.DrainedIffShown | src/papayya/durable/cloud_store.py:517-576 | a pass that begins finds every execution made if and only if every step saved so far has been applied |
| CloudPasses.ReplayLawOverTheCloud | src/papayya/durable/cloud_store.py:458-515 | the item over its own delivery, under any replies and crashes: if every step saved so far has been applied whenever a pass begins, every pass sees exactly the executions made, none is made twice, and each is applied, journaled or refused for good |
| Cron.NormalizeKeepsTheFields | src/papayya/_reconcile.py:122-123 | two expressions have one key if and only if they have the same fields |
| Cron.SpacesAre | src/papayya/_reconcile.py:122-123 | the 29 characters that separate fields |
| Reconcile.Diff | src/papayya/_reconcile.py:165-282 | one delete for each unwanted code-managed key, then one op for each wanted entry, each naming its row; every delete and every unchanged op is about a row with `managed_by` code under that key, and every such row nobody wants has a delete |
| Reconcile.SameKeyIff | src/papayya/_reconcile.py:165-282 | schedules are compared by their fields, webhooks by their names |
| Reconcile.PlanCountsTheWork | src/papayya/_reconcile.py:102-110 | the counted operations are the symmetric difference, and the body of the PUT is what is declared |
| Reconcile.NoWorkIffSame | src/papayya/_reconcile.py:98-100 | no work if and only if the code-managed keys are the declared ones |
| Reconcile.NoWorkIffInStep | src/papayya/_reconcile.py:98-133 | no work if and only if every row with `managed_by` code is wanted and every wanted entry has such a row |
| ReconcileApply.DiffEnv | src/papayya/_reconcile.py:136-162 | refused if and only if a declared agent is not deployed, else a plan for every agent |
| ReconcileApply.ApplyPlan | src/papayya/_reconcile.py:285-381 | applied plus what the next diff finds is the total, success leaves nothing, and for every agent and resource the rows whose `managed_by` is not code keep their places |
| ReconcileApply.OthersStay | src/papayya/_reconcile.py:126-133 | no row whose `managed_by` is not code comes or goes |
| ReconcileApply.NoopIffNothingRemains | src/papayya/_reconcile.py:98-110 | the next plan is a no-op if and only if nothing remains |
| ReconcileApply.NothingRemainsIffInStep | src/papayya/_reconcile.py:98-110 | nothing remains if and only if for every agent the rows with `managed_by` code are the declared ones |
| Redact.Redactor.SetRedactor | src/papayya/runtime/redact.py:53-70 | the long enough values, each once, longest first |
| Redact.Redactor.ClearRedactor | src/papayya/runtime/redact.py:73-77 | after it every text comes back as it is |
| Redact.Redactor.Redact | src/papayya/runtime/redact.py:80-94 | the loop applies the replacements in order |
| Redact.ReplaceKeepsTheRest | src/papayya/runtime/redact.py:80-94 | one replacement cuts the text at the value, leftmost first, and puts the same pieces together again with `[REDACTED]` |
| Redact.RedactionIsComplete | src/papayya/runtime/redact.py:80-94 | no text keeps an installed value, if the values keep clear of the marker and `REDACTED` is not one |
| Redact.BracketFreeSecretsAreRemoved | src/papayya/runtime/redact.py:80-94 | no text keeps any of several values without brackets, other than the word itself |
| Redact.CompleteIffMarkerWordNotInstalled | src/papayya/runtime/redact.py:80-94 | for values that keep clear of the marker, complete for all texts if and only if `REDACTED` is not installed |
| Redact.OneValueIsRemovedIff | src/papayya/runtime/redact.py:80-94 | one value that does not contain the marker, whatever it touches: never kept if and only if it is safe alone |
| Redact.AnotherBringsItBack | src/papayya/runtime/redact.py:80-94 | a value that ends with a beginning of the marker comes back in front of a second value |
| Redact.AnotherKeepsItOut | src/papayya/runtime/redact.py:80-94 | a value that contains a second one, which keeps clear of the marker, is never kept |
| Redact.CleanTextIsUntouched | src/papayya/runtime/redact.py:80-94 | a text without installed values comes back unchanged |
| Redact.WholeSecretBecomesOneMarker | src/papayya/runtime/redact.py:60-65 | longest first: a secret becomes one marker whatever shorter secrets it contains |
| Redact.RedactionIsNotCompleteInGeneral | src/papayya/runtime/redact.py:80-94 | a value that begins with the marker's last bracket can come back |

## Left out

- A body is a deterministic function of what it has seen. Outside CatchResume, TaintPass, Reuse and FencedItem a step that raises ends its pass.
- Python's `isdigit` accepts digits outside ASCII; the model knows 0 to 9.
- Resume.InvalidationSpendsItself: the pairs recorded by the pause stay the same over all passes, and no row was copied from another run; each new pause is a new start with its own base.
- CrashResume.CrashResumeEquivalence: passes without reused entries and without recorded pairs, over a store that shows every row; LocalResume proves that the local one does, CloudResume says what happens when a store does not.
- LocalResume.ReplayLawOverTheStore: entries copied from another run are loaded into the local store from elsewhere and do not occur, nor do synthetic marks.
- Items.Item.PreCall: the source initialises on first use; here the caller calls Init. The calls to the store are the lists `written` and `statuses`, so that one model serves every store; FencedItem and SqliteStore put it on the local one.
- Items.Item.Init: the record created at the store for a new item, and the agent version, metadata, partition key and parent pinned from a loaded one.
- Items.Item.PostCallSuccess: retry_reason, agent version, snapshots, durations, LLM usage and customer checks are not modelled; the verdict on a result is a parameter.
- Labels of synthetic marks (`_mark_label`) bypass the step path; nothing is claimed about them.
- FencedItem.StreaksAreBounded: synthetic marks save without looking at the fence and do not occur, and every pass works under the same K; recorded pairs are not part of the local ledger.
- Fence.StreakIsBounded: that nothing is saved while a pause is pending is a hypothesis here; FencedItem.EveryHistoryIsGated proves it for the item.
- Fence.FenceTrips: the same hypothesis.
- Rollup.RollupStateMachine: histories keep the callers' order, an item after the run it names, its steps after the item, its terminal status once; the lemmas RewritingATerminalItem and LateCreateIsAggregated say what happens otherwise.
- Object identity is an address in each value; lifetimes and reuse of addresses are not modelled.
- TaintPass.RecordedTaintIsReachability: passes that begin with nothing cached; Taint.TaintIsReachability is about any list of rows.
- Rewind.RewindReplaysPrefixAndRunsTheRest: one replaying pass; when its process dies the lemma DeadReplayForgetsItsPrefix says what the next one does.
- SqliteStore.SQLiteStore.SetStatus: the workload fence is evaluated elsewhere; in IterLoop its verdict before each element is part of the input.
- SqliteStore.SQLiteStore.Create: a refused insert is an answer here, an exception in the source; the run row written before it stays in both.
- Transactions, threads, several processes on one journal or database, and schema migrations.
- IterLoop.IterGen: over the local store with capture on, minting its own run; a run handed in from outside is not sealed by the loop and is not modelled. Record ids are new and distinct, and the functions that give an item its id and partition do not raise.
- CloudPasses.ReplayLawOverTheCloud: one item saves the steps of its run, and a save that is refused for good ends the pass.
- IssueOrder.ConvergeInOrderIff: the writes are executed to the end, none dies among its attempts.
- Journal lines that are malformed, and the file they live in.
- The `replay_slice` bookkeeping and the version gate of replay.
- ReconcileApply.ApplyPlan: the server replaces the code-managed rows of one agent and resource atomically or not at all; agents have distinct ids; created webhook secrets, printed lines and schedule timezones are not modelled.
- Redact.RedactionIsComplete: several values of which some touch or contain the marker. The condition for one value alone is neither sufficient for a set (AnotherBringsItBack) nor necessary (AnotherKeepsItOut); an exact condition for sets is not given.
- Redact.OneValueIsRemovedIff: a value that contains the whole marker.
- HTTP, authentication, leases, the command line, bundling and LLM accounting.
