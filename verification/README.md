# Governed port data: activation, identity, events, delays, scores

This project models the stateful core of a port-operations analytics service and proves what
its operations keep over every run. `dafny verify dfyconfig.toml` checks all of it.

The parts, each a small store of rows and the steps that change it:

- **Dataset activation** (`Activation`, `ActivationRuns`, `Worker`, `Summaries`). Uploads, per-tenant workers,
  failures, crashes and redeliveries interleave freely; a worker rebuilds everything in one tentative transaction
  whose inner commits are flushes. `Activation` is the state machine, `Worker.Session` one delivery of the
  program, with what other sessions see kept apart from what the session itself sees. Any run of other
  sessions may come between its statements; an exception or the end of the process may come before each of
  them and inside the handlers, a commit may succeed and still raise, and the unlock statement may raise. Every
  such execution is proved to be a run of the state machine. `Summaries` adds the readers who store a dashboard
  snapshot without the lock.
- **Identity** (`Text`, `Normalizer`, `Matcher`, `Survivorship`, `Merging`, `MergeForest`, `Register`,
  `AutoMerge`, `AutoMergeResult`, `ScanOrder`, `Stranding`). Name normalisation, pairwise evidence, the
  surviving record, merge and snapshot-based unmerge, the all-pairs automatic merge, and the order of the
  scan it depends on.
- **Events** (`Journey`, `Resolution`, `Durations`, `Corrections`, `CorrectionRuns`, `Governance`, `MergedJourney`,
  `Metrics`, `Findings`, `Recompute`). Which of several readings governs an event, the two readers of that decision, the
  steward corrections that override it, the merges that move readings away from it, and the lead-time results
  computed from it.
- **Delays** (`Allocations`, `AllocationColumns`, `AllocationRuns`, `DelaySummary`, `Pareto`). Causes of a delay, and the summary.
- **Bottlenecks** (`Statistics`, `Bottleneck`, `ScoreFigures`, `BottleneckRequirement`), **alerts** (`Alerts`, `AlertRuns`) and
  **row normalisation** (`Standardization`, `StandardizationLoss`, `AlternateColumns`).

`Wrappers`, `Ordering` (a stable sort), `Counting` (by position) and `Rounding` (`round(x, places)`, half to even) are
shared helpers.

Where the source updates objects or rows in place, the model is a class whose methods change its
fields and are proved equal to a specification function; the theorems are about those functions,
their invariants and their runs. What each function computes is besides stated on the columns it reads and writes,
without naming it: the times a duration lies between, the ranks of a percentile, the columns that a merge leaves.

## Assumptions

- Batches of a tenant have strictly increasing creation times; a batch is numbered by its place in that order.
- The advisory lock belongs to a database session: it is held until that session unlocks it or ends, and the same
  session can take it again. The process of a delivery ends together with its database session. A batch has at most
  one delivery in flight.
- The derived rows and the payload of a batch are a fixed function of its staged rows; any stage may raise.
- Identifiers of records, occurrences and alerts are numbered in order of creation. Queries without an ordering
  return occurrences and alerts in that order; records to be merged may come in any order.
- Arithmetic is exact: reals for scores, ticks of a ten-thousandth of an hour for delay causes,
  hundredths of an hour for the delay summary, microseconds for times. Standard deviation is any
  non-negative number whose square is the variance.
- Text is ASCII. The sequence similarity of two names is any number between 0 and 1.

## What the proofs found

Each of these promises fails in some case. For each there is a state, run or row where it does, and a theorem that
says exactly when it holds; the one condition that is only sufficient is marked.

- A redelivered message for the live batch whose first status query raises, or a commit that succeeds
  but reports an error, ends in the failure handler, which marks the live batch FAILED: then no dataset
  is live (`LostExactlyByItsOwnFailure`, `LiveDatasetCanBeLost`). A run without these two events keeps a
  live dataset (`LiveDatasetSurvives`).
- A batch that a worker superseded while its upload was still being parsed leaves that state when the
  upload writes its next status (`EndedIsLeftOnlyByItsUpload`, `SlowUploadLeavesItsEnd`).
- An unlock statement that raises is swallowed, and the lock stays with the pooled connection. Until that connection
  is closed or happens to be used again, no later upload is processed (`KeptLockShutsOut`, `NextUploadIsShutOut`). A
  delivery gives the lock up exactly when its unlock statement did not raise or its process ended (`Process`).
- A dashboard summary computed on demand before an activation can be stored after it, under the new batch, and is then
  served (`LateSummaryIsServed`). The served snapshot is that of the live dataset exactly when the last one stored was
  stored in time (`LastStoreDecides`).
- `execute_merge` does not check that its records are unmerged. Merging into an inactive survivor strands
  children (`MergeKeepsOwnersIff`). Automatic merging does so when three duplicates are scanned middle
  first (`MiddleFirstScanStrandsServices`). It strands none for any services exactly when in every
  cluster the record scanned last is below all that are scanned before the smallest (`OrderDecides`);
  a scan with the smallest first is such a scan.
- The batched resolver knows only readings of active calls, so a recorded winner that lies elsewhere splits it
  from the per-slot one (`BatchedAgreesIff`, `MergedWinnerSplitsThem`). An interval that runs backwards by at
  most 1.8 milliseconds counts as zero hours on one side only; the two sides agree exactly where no call has
  such an interval (`BatchedAgainstMetric`, `BatchedListIff`, `SlightlyBackwardsHappens`).
- Recorded selections stay with the call they were made for when readings move. Merging never harms an active call;
  undoing a merge does, unless no active call selects a reading that goes and those recorded for the returning call
  come back to it (`UnmergeSoundIff`). Five calls of the services split the two resolvers (`MergesCanSplitResolutions`).
- A correction may name a prior reading of another slot and so leave that slot with a superseded selection,
  unless that slot does not rely on it or is decided anew in the same call (`ForeignPriorIff`,
  `ForeignPriorCanSpoil`).
- A correction that is not yet approved is already a live reading. It governs its slot exactly when the slot is
  decided automatically, already had a live reading, and none of those ranks as high (`PendingCorrectionGoverns`);
  in a slot without any it governs without a decision (`PendingFillsEmptySlot`).
- Times and occurrence references of an earlier computation survive in a result that is now unavailable, unless both
  events are found (`TraceForgetsIff`, `StaleEndSurvives`).
- Approving an inferred cause and inferring again creates a second primary cause and doubles the allocated
  hours (`InferKeepsIff`, `InferringAfterApprovalDoubles`).
- A steady stage with many observations outranks an erratic one with few (`FewObservationsLetSteadyOutrank`). It
  cannot when the best score of a steady stage with its count is below the worst score of an erratic one with the other
  count (`SteadyRanksBelowErratic`), for instance with at most three observations more, or against at least 69
  (`CloseCountsSuffice`), or against one or two, which are never erratic (`ErraticNeedsThree`). The condition is exact
  for marks that have a real count and a real share of breaches, with variability and tail anywhere from the threshold
  on (`CountsDecide`); for observations it is sufficient.
- Acknowledging a resolved alert reopens it beside its successor (`AcknowledgeKeepsIff`, `AcknowledgeCanDuplicate`).
- A column already named like an alternate can be overwritten (`AlternateColumnCanBeOverwritten`). For every row the
  values lost are those overwritten and not given again (`NothingIsLostIff`); unless a column is named like an alternate
  of an alternate they can be read off the columns of the row (`NothingIsSpoiledIff`).

## Model

| member | source | states |
|---|---|---|
| Activation.RunIsSafe | apps/worker/main.py:55-147 | over every interleaving of uploads, workers, failures, crashes and redeliveries at most one batch is committed and active, active means committed, and the visible rows and the one active snapshot are exactly those of that batch |
| Activation.StepKeepsInv | apps/worker/main.py:65-146 | every protocol step keeps the invariant that ties batch statuses, worker positions, the lock, the tentative data and the activation history together |
| Activation.PublishKeepsInv | apps/worker/main.py:109-121 | publishing the tentative data together with the new statuses keeps that invariant |
| Activation.LostExactlyByItsOwnFailure | apps/worker/main.py:130-146 | once a dataset is live, a step leaves none live if and only if it records a failure for the live batch itself |
| Activation.WhoRaisesForTheLiveBatch | apps/worker/main.py:55-57 | the live batch reaches its failure handler only from a redelivery whose first query raised or from a commit that succeeded and then raised |
| Activation.LiveDatasetSurvives | apps/worker/main.py:54-130 | from a state whose live batch is not already in its failure handler, over any run in which no query for the live batch raises at the start of a redelivery and no activating commit raises after it succeeded, a dataset stays live, whatever other failures, crashes and supersessions happen |
| ActivationRuns.LiveDatasetCanBeLost | apps/worker/main.py:130-146 | a concrete run of one upload, one redelivery and one failed query after which no dataset is live |
| Activation.ActivationOnlyMovesForward | apps/worker/main.py:100-118 | an activation is of a batch newer than all activated before, makes it live, leaves every newer batch untouched and supersedes every older one |
| Activation.RunActivatesInOrder | apps/worker/main.py:109-121 | the activated batches of any run are strictly increasing in creation order and the live batch is one of them |
| Activation.OnlyTheNewestIsTaken | apps/worker/main.py:65-107 | under the lock a delivery starts to rebuild if and only if its batch is neither ended nor older than another, and is superseded otherwise; after the rebuild it is confirmed if and only if its batch is the newest still |
| Activation.EndedIsLeftOnlyByItsUpload | apps/api/routers/ingestion.py:79-86 | a superseded or failed batch leaves that state if and only if its own upload is still writing its status |
| ActivationRuns.SlowUploadLeavesItsEnd | apps/api/routers/ingestion.py:72-86 | a run of two uploads after which the first is superseded, the second is live, and the next write of the first upload takes it out of that state |
| Activation.QuiescentNewestIsLiveOrFailed | apps/worker/main.py:67-77 | when all tasks are finished the newest batch is live or failed, never superseded |
| Activation.KeptLockShutsOut | apps/worker/main.py:148-155 | while a lock is kept by a connection that is neither closed nor used again, nothing is claimed, rebuilt or activated and the data stay as they are, over any run |
| Activation.ActivatedOnlyAfterReopening | apps/worker/main.py:59-63 | a batch goes live after that only if the connection was closed or used again before |
| Activation.KeptExactlyByFailedUnlock | apps/worker/main.py:148-155 | a session that is over has the lock exactly if its unlock statement raised and its connection is still open |
| ActivationRuns.NextUploadIsShutOut | apps/worker/main.py:148-155 | a run in which the first dataset goes live, its unlock statement raises, and the delivery of the next upload waits for a lock that no running delivery holds |
| Worker.ForeignRunYields | apps/worker/main.py:59-63 | whatever steps other sessions take, in any number and order, a session keeps its position, its batch can at most be superseded, and while it holds the lock neither its batch nor the visible data changes |
| Worker.Session.Others | apps/worker/main.py:54-155 | an arbitrary run of other sessions leaves what any such run leaves |
| Worker.Session.WaitForLock | apps/worker/main.py:59-63 | while others go on the session waits, and it gets the lock exactly when no delivery has it and no connection but its own has kept it |
| Worker.Session.Commit | apps/worker/main.py:83-88 | while the real commit is swapped out, committing publishes nothing; otherwise it publishes exactly the session's own data |
| Worker.Session.Rebuild | apps/worker/main.py:88-93 | the deletion, load and analytics stages change only the tentative data while other sessions go on, wherever an exception or the end of the process strikes, and are protocol steps |
| Worker.Session.ResetTenantDataset | apps/api/services/ingestion/synthetic.py:5-145 | with its commit turned into a flush, the deletion empties the tentative rows and leaves the visible data, statuses and snapshots alone |
| Worker.Session.LoadCanonical | apps/worker/main.py:91-92 | the load adds the batch's derived rows to the tentative data only |
| Worker.Session.RunFullAnalytics | apps/api/services/dashboard/executive.py:47-69 | the snapshot is taken of the tentative rows, the earlier ones are deactivated, and nothing becomes visible |
| Worker.Session.QueueCandidate | apps/api/routers/ingestion.py:61-86 | an upload adds a staged batch, writes its parsed status and then PROCESSING, queues its task, and changes no other batch and no data |
| Worker.Session.Claim | apps/worker/main.py:65-81 | the first check under the lock: an older batch is superseded, the newest one starts its tentative transaction, visible data unchanged |
| Worker.Session.GoLive | apps/worker/main.py:108-121 | the statuses are flushed and then shown together with the data in exactly one commit, whether or not that commit is acknowledged |
| Worker.Session.CheckAgain | apps/worker/main.py:95-107 | the second check under the lock: the candidate is confirmed with its tentative data while it is the newest batch, or it is outdated because a newer batch exists, or the session was halted |
| Worker.Session.Conclude | apps/worker/main.py:95-121 | after the second check the batch is live, or outdated, or the session halted; nothing else is made visible than what was there or the complete dataset |
| Worker.Session.Attempt | apps/worker/main.py:54-121 | the guarded part of a delivery, among steps of others: it returns early only for an ended or live batch, concludes with the batch live or superseded, and every other exit is a newer upload, an exception or the end of the process |
| Worker.Session.WriteOutcome | apps/worker/main.py:122-147 | the handlers discard the tentative data and write FAILED or SUPERSEDED in one commit that leaves the visible data alone; a handler that raises writes nothing and keeps the lock, and the end of the process gives it up |
| Worker.Session.Settle | apps/worker/main.py:122-147 | what the handlers make of an attempt: the outcome its checks dictate, or an exception of their own, with the lock still held, or the end of the process |
| Worker.Session.Leave | apps/worker/main.py:148-155 | the unlock gives up a lock that was acquired and ends the delivery, or leaves it to be delivered again after a handler raised; when the unlock statement raises, the exception is swallowed and the lock stays with the connection |
| Worker.Session.Process | apps/worker/main.py:54-155 | one delivery among any run of other sessions, with an exception or crash at any statement, in the handlers and at the release: it ends in the status its checks dictate or waits for the lock, every dataset it makes visible is the old or the complete new one, it is a run of the protocol, and a lock it has had is kept by its connection if and only if the unlock statement raised or the connection had kept it before |
| Summaries.ServedIffInTime | apps/api/services/dashboard/executive.py:129-148 | whatever was served before, after a snapshot is stored the served one is that of the live dataset if and only if it was computed from the visible rows, filed under the live batch, and nothing was stored since its update began; for the worker only the last is needed |
| Summaries.LastStoreDecides | apps/api/services/dashboard/executive.py:98-148 | over any run of readers and workers the last snapshot stored decides what is served at the end |
| Summaries.LateSummaryIsServed | apps/api/services/dashboard/executive.py:119-148 | a summary of the old rows, computed before an activation and stored after it under the new batch, is the active snapshot of the new dataset |
| Normalizer.NormalizeIsJoinedRuns | apps/api/services/identity/normalizer.py:7-24 | the strip, upper-case and two substitutions compute the maximal alphanumeric runs joined by single spaces |
| Normalizer.NormalFormIsReached | apps/api/services/identity/normalizer.py:7-24 | the result has only A-Z, 0-9 and single inner spaces; a name is unchanged if and only if it is already so; normalising is idempotent |
| Normalizer.SameNormalFormIffSameRuns | apps/api/services/identity/normalizer.py:7-24 | two names get the same normal form if and only if their alphanumeric runs agree ignoring case |
| Normalizer.SqueezeIsPaddedJoin | apps/api/services/identity/normalizer.py:18-23 | replacing separator runs by spaces leaves the joined runs with at most one space on either side |
| Normalizer.RunsOfJoin | apps/api/services/identity/normalizer.py:7-24 | joining runs and taking runs again is the identity, so no two run lists share a normal form |
| Normalizer.SimilarityIs | apps/api/services/identity/normalizer.py:27-51 | two recorded names are alike in full if they agree but for case and outer blanks, by 0.99 if their alphanumeric runs agree, and otherwise as the library says of the joined runs; a missing or empty name is like no other |
| Matcher.CheckKeys | apps/api/services/identity/matcher.py:50-91 | a conflict is a disagreement of two non-empty identifiers; a decisive match is a shared identifier without any conflict |
| Matcher.KeysAre | apps/api/services/identity/matcher.py:50-80 | a conflict is a VCN or IMO number that both records have and that differs; a shared key one that both have and that agrees |
| Matcher.GatherEvidence | apps/api/services/identity/matcher.py:93-247 | six weighted contributions: the name by its similarity, an identifier in full if and only if it is shared, type and flag if they agree but for case and blanks, the dimensions by the share of those that match |
| Matcher.EvaluatePair | apps/api/services/identity/matcher.py:45-284 | with the default thresholds the disposition is decided by the identifiers alone, the score lies in [0, 1] and is the sum of the contributions to four places, or the floor of a decisive match if that is more |
| Matcher.Score | apps/api/services/identity/matcher.py:249-273 | a decisive pair scores the larger of its contributions and 0.98, or 0.99 for a like name; any other their sum, clamped and to four places; without a shared identifier at most 0.55 |
| Matcher.FilterIsSafe | apps/api/services/identity/engine.py:41-53 | the blocking filter drops no pair that evaluation would merge or send for review; a pair merges if and only if it shares an identifier without conflict; nothing goes to review |
| Survivorship.DetermineSurvivor | apps/api/services/identity/survivorship.py:38-72 | the first record survives unless the second has strictly more filled comparable columns, a hyphen or full stop in the name counting as two less |
| Survivorship.ResolveFieldChooses | apps/api/services/identity/survivorship.py:75-164 | a consolidated value is one of the two, is missing only when both are, and a maximum does not depend on the order |
| Survivorship.ResolveFieldPrefers | apps/api/services/identity/survivorship.py:75-163 | a missing value gives way to any other; of two different values the second is taken if and only if the rule is for text and the first has a hyphen or final full stop that the second has not, or the rule is for the maximum and the second number is larger |
| Survivorship.GeneratePreview | apps/api/services/identity/survivorship.py:166-201 | the preview holds every comparable column and no other, each with the value its rule chooses from the two records |
| Survivorship.AgreeingKeepTheFirst | apps/api/services/identity/survivorship.py:46-72 | of two agreeing records the first survives, and consolidation leaves its columns as they were |
| Register.MergeRegister.TransferEvents | apps/api/services/identity/merger.py:76-90 | moving events one by one, with the look-up against the rows as they change, moves exactly those whose key the survivor lacked at the start and deletes the rest |
| Register.CollisionIsStable | apps/api/services/identity/merger.py:81-88 | a collision found midway through the loop is one that existed at its start, and the other way round |
| Register.MergeRegister.TransferOwned | apps/api/services/identity/merger.py:92-102 | every child of the merged record, and no other, moves to the survivor and is listed as transferred |
| Register.MergeRegister.ExecuteMerge | apps/api/services/identity/merger.py:36-174 | a merge succeeds under exactly the service's three checks and changes nothing when it fails; in the store it leaves the more complete record survives with the best of both columns, the merged one keeps its columns and points to it, children follow, and one decision with both prior records and the transferred children is added |
| Merging.MergeHoldsBest | apps/api/services/identity/merger.py:104-112 | after a merge the survivor holds in every column the value the steward gave, else for a comparable column what the column's rule chooses of the two prior values, else its own |
| Merging.MergeForgetsNothing | apps/api/services/identity/merger.py:104-112 | the steward's choices apart, a comparable column of the survivor is empty after a merge if and only if it was empty in both records |
| Merging.MergeCombines | apps/api/services/identity/merger.py:62-150 | the whole store after a merge, column by column: survivor and merged record, events with those dropped whose definition and index the survivor has, services, delays, the decision and the candidate |
| Register.MergeRegister.ExecuteUnmerge | apps/api/services/identity/merger.py:176-264 | an unmerge restores both snapshots, clears the merge pointer, gives the listed children back, and changes nothing when it fails |
| Merging.UnmergeRestoresExactlyActive | apps/api/services/identity/merger.py:191-211 | unmerging a merge restores both calls if and only if the merged record was active before |
| Merging.UnmergeUndoesMerge | apps/api/services/identity/merger.py:191-227 | undoing a merge of an active record restores calls, pointers and child owners, apart from events deleted on a key collision |
| Merging.UndoRestoresEverything | apps/api/services/identity/merger.py:62-227 | for any sequence of merges of active records, unmerging in reverse order restores every column, pointer and child owner; only collided events stay lost |
| MergeForest.RunKeepsInv | apps/api/services/identity/merger.py:68-230 | over any run: merged means pointed, pointers match standing decisions, children belong to active records, event keys stay unique, and active calls plus standing decisions make the total |
| MergeForest.StepKeepsInv | apps/api/services/identity/merger.py:68-230 | one merge of two active records, or one unmerge with an active survivor, keeps all of that |
| MergeForest.Root | apps/api/services/identity/merger.py:114-116 | following merge pointers from any record ends, and ends in an active record |
| MergeForest.PointersAreAcyclic | apps/api/services/identity/merger.py:114-116 | no path of merge pointers leads back to its start |
| MergeForest.MergeKeepsOwnersIff | apps/api/services/identity/merger.py:57-62 | children stay with active records if and only if the survivor is active or the merged record has nothing to hand on |
| MergeForest.MergeKeepsKeys | apps/api/models/canonical.py:61 | deleting collided events keeps call, definition and index unique |
| MergeForest.FreshStoreIsFine | apps/api/models/canonical.py:54-61 | a store without decisions satisfies the invariant under the table constraints alone |
| AutoMerge.PairsAreOrdered | apps/api/services/identity/engine.py:35-40 | every candidate pair is of two scanned records, smaller id first |
| AutoMerge.PairsAreComplete | apps/api/services/identity/engine.py:35-53 | every pair of scanned records that passes the filter becomes a candidate |
| AutoMerge.IdentityEngine.GenerateCandidates | apps/api/services/identity/engine.py:20-113 | the nested loops create exactly the filtered pairs, in order, each with its evaluated disposition |
| AutoMerge.CandidatesAreWorthComparing | apps/api/services/identity/engine.py:35-53 | every two scanned records are a candidate pair if and only if they share their VCN or their IMO number or their names are alike to at least 0.70 |
| AutoMerge.IdentityEngine.AutoMergeCandidates | apps/api/services/identity/engine.py:146-166 | the merge loop merges the qualifying candidates in order and no other |
| AutoMergeResult.QualifiesIffSameVcn | apps/api/services/identity/engine.py:150-160 | among agreeing records a pair qualifies if and only if it shares its VCN |
| AutoMergeResult.OneActivePerVcn | apps/api/services/identity/engine.py:146-166 | for any scan order and cluster size exactly the smallest id of each VCN stays active, and every pointer leads to a strictly smaller id of the same VCN |
| AutoMergeResult.PopulationIsDistinctVcns | apps/api/services/identity/engine.py:168-176 | the consolidated population count is the number of distinct VCNs |
| ScanOrder.EverythingComesToSmallest | apps/api/services/identity/engine.py:35-40 | along the pairs of an orderly scan, whatever is owned by a member of a cluster ends with its smallest id |
| ScanOrder.DisorderStrands | apps/api/services/identity/engine.py:35-40 | in every other scan some member hands what it owns to a record that is not the smallest of its cluster |
| ScanOrder.AscendingIsOrderly | apps/api/services/identity/engine.py:25-31 | a scan by ascending id is orderly |
| ScanOrder.SmallestFirstIsOrderly | apps/api/services/identity/engine.py:25-31 | so is every scan in which the smallest id of each cluster comes first |
| Stranding.AutoMergeMoves | apps/api/services/identity/engine.py:146-166 | automatic merging moves every service, delay and surviving event exactly as the pairs of the scan move their owner |
| Stranding.OrderlyScanStrandsNothing | apps/api/services/identity/engine.py:146-166 | after an orderly scan every child belongs to an active record |
| Stranding.OrderDecides | apps/api/services/identity/engine.py:25-40 | automatic merging keeps the services with active records, however they were spread, if and only if the scan is orderly |
| Stranding.MiddleFirstScanStrandsServices | apps/api/services/identity/engine.py:146-166 | scanned as middle, smallest, largest, three duplicates leave a service of the largest with the middle record, which is itself merged away |
| Journey.ResolveTakesFirst | apps/api/services/analytics/engine.py:289-303 | without a usable recorded winner the reading selected for a slot has the smallest index of those that are neither superseded nor, if so asked, quarantined, and of equal indices the earliest time; the largest and latest for last occurrences; none if and only if there is none |
| Journey.WinnerIs | apps/api/services/analytics/engine.py:272-287 | the recorded winner is the reading of the recorded identifier, whatever its call and event, if it is not superseded nor, if so asked, quarantined |
| Resolution.IndexById | apps/api/services/delays/service.py:297 | the identifier dictionary answers as a scan of the loaded rows would |
| Resolution.IndexBySlot | apps/api/services/delays/service.py:298-302 | the candidate dictionary holds, for every slot, its loaded rows in query order |
| Resolution.Select | apps/api/services/delays/service.py:314-319 | the dictionary look-ups select what the loaded rows and the recorded winner determine |
| Resolution.SelectedTakesFirst | apps/api/services/delays/service.py:289-319 | unless the recorded winner is among the loaded readings, the batched resolver selects the live and clean reading of the slot with the smallest index, of equal indices the earliest, or none if there is none |
| Resolution.SelectedTakesWinner | apps/api/services/delays/service.py:297-317 | a recorded winner that is live, clean, of an active call and of one of the two events is what the batched resolver selects |
| Resolution.BatchedAgreesIff | apps/api/services/delays/service.py:289-319 | batched and per-slot resolution select the same reading if and only if a live and clean recorded winner belongs to an active call and one of the two events |
| Durations.EventPairDurationObservations | apps/api/services/delays/service.py:262-332 | the loop returns, call by call, the non-negative difference between the selected readings, and nothing when an event is not defined |
| Durations.BatchedIsPerSlot | apps/api/services/delays/service.py:321-332 | while winners are reachable the batched list equals, in order, the one per-slot resolution gives |
| Durations.OwnWinnerIsReachable | apps/api/services/delays/service.py:304-312 | a winner that lies in its own slot is always reachable |
| Durations.BatchedAgainstMetric | apps/api/services/analytics/engine.py:210-250 | if the interval of the call runs backwards by at most 1800 microseconds its metric is AVAILABLE with zero hours and it is missing from the batched list; otherwise it is in that list if and only if its metric is AVAILABLE and not negative, with the same duration once rounded |
| Durations.BatchedListIff | apps/api/services/delays/service.py:321-332 | over any calls the rounded batched list is the list of the available non-negative durations if and only if no call runs slightly backwards, and it is never the longer one |
| Durations.SlightlyBackwardsHappens | apps/api/services/analytics/engine.py:239-240 | for every metric of two different events there are readings that run slightly backwards |
| Metrics.HoursSign | apps/api/services/analytics/engine.py:239-240 | a rounded duration is non-negative if and only if the interval is at least minus 1800 microseconds |
| Corrections.JourneyStore.ResolveVesselCall | apps/api/services/journey/canonical_selector.py:73-156 | every slot of the call with two live readings, no repeatable event and no steward's decision now selects, automatically, a live reading that prevails over all others of the slot; no other decision and no reading changes |
| Corrections.BestPrevails | apps/api/services/journey/canonical_selector.py:44-59 | the automatic choice is a live reading and comes no later than any other by place of its verification, then confidence, then place of its source, then age |
| Corrections.JourneyStore.CreateCorrection | apps/api/services/journey/corrections.py:24-124 | a correction is turned down, with no change, if and only if the call is unknown or the index taken; else exactly one verified reading with full confidence and the corrected time is added, the prior one is superseded by it and it is the steward's decision for its slot exactly when approved, no other reading and no decision of another call changes, and when approved the contested slots of the call are decided anew |
| Governance.CorrectedTimeGoverns | apps/api/services/journey/corrections.py:48-100 | after an accepted approved correction both resolvers return for its slot a reading with the corrected time, for first and last occurrences, quarantined ones excluded or not, whatever was recorded before |
| Corrections.JourneyStore.RecordCanonicalOverride | apps/api/services/journey/corrections.py:127-168 | the override selects the new reading for its slot and touches no other slot |
| CorrectionRuns.BestIsMinimal | apps/api/services/journey/canonical_selector.py:44-59 | the automatic choice is one of the live readings and no other outranks it |
| CorrectionRuns.ReconcileSlot | apps/api/services/journey/canonical_selector.py:88-154 | reconciling selects an unoutranked live reading for a conflicting slot and leaves every other slot exactly as it was |
| CorrectionRuns.ReconcileRespectsOverrides | apps/api/services/journey/canonical_selector.py:132-135 | an overridden slot, and every other call, is unchanged by automatic resolution |
| CorrectionRuns.RunKeeps | apps/api/services/journey/corrections.py:44-100 | over any run of corrections, reconciliations and ingested readings nothing is removed or retimed, indices stay unique, links lead on and stay, every selection is a live reading of its slot, and overrides stay overrides |
| CorrectionRuns.Governing | apps/api/services/journey/corrections.py:78-80 | every supersession chain ends, in a live reading of the same slot, a multiple of 1000 further on |
| CorrectionRuns.AcceptedIffLive | apps/api/services/journey/corrections.py:44-46 | while no correction is pending, correcting a reading of a known call succeeds if and only if the reading is live |
| CorrectionRuns.ApprovedStepLeavesNonePending | apps/api/services/journey/corrections.py:44-80 | approved corrections keep every high index paired with the reading it superseded |
| Governance.ResolutionsAgreeAfterAnyRun | apps/api/services/delays/service.py:314-319 | after any run of corrections, reconciliations and ingested readings from a sound store both resolvers select the same reading for every call and event they look at |
| Governance.ForeignPriorIff | apps/api/services/journey/corrections.py:38-119 | an accepted correction leaves every selection a live reading of its slot if and only if the prior reading is of the same slot, or its slot did not select it, or that slot is decided anew when the journey is rebuilt |
| Governance.ForeignPriorCanSpoil | apps/api/services/journey/corrections.py:38-119 | a sound store and an accepted correction after which a slot selects a superseded reading |
| Governance.ReconciledGovernedIff | apps/api/services/journey/canonical_selector.py:73-156 | deciding a call anew leaves every selection sound if and only if every unsound one was in a conflicting slot of that call |
| Governance.PendingCorrectionGoverns | apps/api/services/journey/corrections.py:48-119 | a correction not yet approved is selected when the journey is rebuilt if and only if the event does not repeat, no steward has decided the slot, it already had a live reading, and none of those ranks at least as high |
| Governance.PendingFillsEmptySlot | apps/api/services/analytics/engine.py:289-303 | in a slot without a live reading the correction not yet approved is what the resolver returns, for first and last occurrences, quarantined ones excluded or not |
| Governance.MergedWinnerSplitsThem | apps/api/services/delays/service.py:289-297 | a usable winner that sits on an inactive call governs the per-slot resolution and is unknown to the batched one |
| MergedJourney.MergeKeepsSound | apps/api/services/identity/merger.py:76-90 | a merge, also one into a record that is itself merged away, leaves every selection of an active call a live reading of its own slot |
| MergedJourney.UnmergeSoundIff | apps/api/services/identity/merger.py:208-217 | undoing a merge keeps that if and only if no active call selects a reading that goes, and every selection recorded for the returning call is a live reading that is there or comes back |
| MergedJourney.ResolutionsAgreeAfterMerges | apps/api/services/delays/service.py:314-319 | over any run of merges, decisions, ingested readings and such unmerges both resolvers agree for every active call |
| MergedJourney.MergesCanSplitResolutions | apps/api/services/identity/merger.py:208-217 | five calls of the services from a sound store, after which the two resolvers differ for an active call |
| MergedJourney.RowsMoveAsEvents | apps/api/services/identity/merger.py:76-90 | what a merge does to the readings is what the merger does to their identity columns |
| Metrics.FirstMoving | apps/api/services/analytics/engine.py:346-351 | the first service of the wanted movement, or none exactly when there is none |
| Metrics.SelectService | apps/api/services/analytics/engine.py:343-364 | the loop and its fallback choose the first service of the movement, else by position |
| Findings.ChosenIsMeasuredOn | apps/api/services/analytics/engine.py:329-364 | a delay is measured on the earliest scheduled service of the movement, in any case of letters; if none is recorded with it, on the earliest of all for an arrival and the latest of several for a sailing, and otherwise on none |
| Findings.ResolvedIs | apps/api/services/analytics/engine.py:255-303 | a usable recorded winner is the reading of an event; without one the first, or last, of the slot |
| Metrics.HoursBound | apps/api/services/analytics/engine.py:387 | the hours written differ from the microseconds between the two times by at most 1800 microseconds |
| Metrics.TraceForgetsIff | apps/api/services/analytics/engine.py:200-250 | times and references of an earlier result are forgotten if and only if the metric is event-based, its arrival is not blank where that matters, and both events have a governing reading |
| Metrics.StaleEndSurvives | apps/api/services/analytics/engine.py:229-235 | two computations, the second after the reading of the end was superseded, that leave the time and the reference of the first in an unavailable result |
| Recompute.AnalyticsEngine.ClaimRows | apps/api/services/analytics/engine.py:109-128 | in any row order, all but one row per call is deleted, the kept row is claimed, and other rows are untouched |
| Recompute.AnalyticsEngine.ComputeEventDuration | apps/api/services/analytics/engine.py:168-253 | with both readings the row is AVAILABLE with the hours from start to end to within 1800 microseconds, not negative exactly from 1800 microseconds before on, clean if neither is quarantined; what is missing is named and what is found is referred to |
| Recompute.AnalyticsEngine.ComputeExecutionDelay | apps/api/services/analytics/engine.py:305-399 | with both times of the chosen service the row is AVAILABLE with the hours from the scheduled to the served time to within 1800 microseconds, negative for an early service; a missing time or service is named |
| Recompute.AnalyticsEngine.ComputeSingleDefinition | apps/api/services/analytics/engine.py:104-166 | one definition leaves exactly one row per given call with that outcome, and no other row changed |
| Recompute.AnalyticsEngine.ComputeAllMetrics | apps/api/services/analytics/engine.py:62-102 | from any earlier table, duplicates included, there is exactly one result for every definition and every call that is not merged and is asked for, none for a merged call, and every row that concerns neither is as it was |
| Recompute.SettledFinds | apps/api/services/analytics/engine.py:62-102 | in the table that is left, the one row of an active call and a definition says what the data say of its times, whatever was there before |
| Recompute.HistoryIsForgotten | apps/api/services/analytics/engine.py:104-253 | two computations from any two tables agree in status, duration, reason and DQ status, and in the whole row where both events were found |
| Recompute.SecondComputationChangesNothing | apps/api/services/analytics/engine.py:62-102 | computing again from the first result changes no row |
| Allocations.DelayDesk.AllocateCauses | apps/api/services/delays/service.py:635-718 | an allocation over the limit is rejected and changes nothing; otherwise it replaces the causes, with exactly one primary |
| Allocations.DelayDesk.NewAllocations | apps/api/services/delays/service.py:664-694 | the flag-driven loop marks the first entry that claims to be primary, or the first of all, and no other |
| Allocations.DelayDesk.ReviewDelayReason | apps/api/services/delays/service.py:720-766 | a review updates the one primary cause or adds it with the whole duration, and fails without effect when there are several |
| Allocations.DelayDesk.InferDelayCause | apps/api/services/delays/inference.py:36-187 | an inference declines a confirmed delay, fails without effect when several causes are inferred, and otherwise updates the one inferred cause or adds one |
| Allocations.GatherEvidence | apps/api/services/delays/inference.py:75-138 | the loop keeps the last noticeable lateness of each kind and proposes by the evidence hierarchy |
| Allocations.LastLate | apps/api/services/delays/inference.py:85-101 | the last service of a kind that was noticeably late, or none exactly when there is none |
| AllocationColumns.AllocateReplaces | apps/api/services/delays/service.py:650-694 | the entries replace the causes in their order with all their columns, except that the first that claims it, or the first of all, is the one primary; they are refused if and only if they exceed the duration by more than a hundredth of an hour |
| AllocationColumns.ReviewDecides | apps/api/services/delays/service.py:736-766 | a review fails if and only if two causes are primary; else category, reason and decision go to the delay and to its primary cause, or to a new one for the whole duration; the delay is closed and the cause confirmed exactly when approved |
| AllocationColumns.InferDecides | apps/api/services/delays/inference.py:50-187 | a confirmed delay is left alone unless forced; else an inference fails if and only if two causes are inferred, and puts the proposal, awaiting review, in the place of the one there is or adds it for the whole duration |
| AllocationColumns.ProposeBlames | apps/api/services/delays/inference.py:75-138 | a tug service more than six minutes late outweighs a late pilot, and both a late berthing service, each judged by the last that was more than three minutes late; failing these the stage decides |
| AllocationRuns.HoursAreConserved | apps/api/services/delays/service.py:509-510 | allocated and unallocated hours make at least the total and at most a hundredth of an hour more |
| AllocationRuns.AllocateKeeps | apps/api/services/delays/service.py:650-694 | an accepted allocation keeps the delay in order and hands out exactly the given hours; a rejected one exceeds the limit |
| AllocationRuns.ReviewKeeps | apps/api/services/delays/service.py:736-766 | on a delay in order a review always succeeds, keeps it so, and does not change the header's cause status |
| AllocationRuns.InferKeepsIff | apps/api/services/delays/inference.py:155-187 | an inference that goes ahead keeps the delay in order if and only if nothing was allocated or a cause was already inferred |
| AllocationRuns.InferConfirmsNothing | apps/api/services/delays/inference.py:50-62 | an inference never writes or touches a confirmed cause, and leaves a confirmed delay alone unless forced |
| AllocationRuns.RunKeeps | apps/api/services/delays/service.py:635-766 | over any run a delay has no causes or exactly one primary, and its hours stay within the limit |
| AllocationRuns.InferringAfterApprovalDoubles | apps/api/services/delays/inference.py:155-187 | infer, approve, infer leaves two primary causes with twice the hours, and the next review fails |
| DelaySummary.Tally | apps/api/services/delays/service.py:571-580 | the loop leaves one bucket per key with exactly its count and hours, every delay in a bucket, and the sums of the whole |
| DelaySummary.CountIsOfDelays | apps/api/services/delays/service.py:571-580 | the count of a key is the number of delays with that key |
| DelaySummary.LegsAre | apps/api/services/delays/service.py:43-53 | the leg of a delay by the word of its stage, and the bucket of an unrecorded category or stage |
| Pareto.SummariseByCause | apps/api/services/delays/service.py:567-594 | counts and hours are exact and sum to the totals, hours never rise down the list, shares never fall and end at 100 per cent |
| Pareto.Cumulate | apps/api/services/delays/service.py:589-594 | the running sum gives each entry the share of the hours up to and including it |
| Pareto.PercentageIs | apps/api/services/delays/service.py:589-594 | a cumulative share differs from the percentage of the whole by at most 0.05 |
| Pareto.SummariseByStage | apps/api/services/delays/service.py:597-605 | the same exactness for the stage breakdown |
| Pareto.LegsPartition | apps/api/services/delays/service.py:43-53 | the four legs share out the population, each delay once and in its own leg, and all of its hours |
| Statistics.MedianBelowP90 | apps/api/services/bottlenecks/engine.py:247-254 | the median is at most the nearest-rank ninetieth percentile, and that is one of the values |
| Statistics.P90IsNearestRank | apps/api/services/bottlenecks/engine.py:252-254 | the ninetieth percentile is one of the values, at least nine tenths of the values are at most it, and fewer than nine tenths are below it |
| Statistics.MedianIsMiddle | apps/api/services/bottlenecks/engine.py:247-250 | the median is the value of the middle rank, or half-way between those of the middle two, and no more than half of the values lie on either side |
| Statistics.NthIsUnique | apps/api/services/bottlenecks/engine.py:249 | there is but one value of a rank, by counting those below it and those up to it |
| Statistics.MomentsAre | apps/api/services/bottlenecks/engine.py:250-256 | the mean times the count is the sum, and the variance times one less the squares about the mean |
| Statistics.VariationIsBounded | apps/api/services/bottlenecks/engine.py:256-260 | the squared coefficient of variation of n non-negative values is at most n |
| Statistics.SquaresAboutMean | apps/api/services/bottlenecks/engine.py:256 | the squared deviations from the mean make at most n(n-1) squared means |
| Bottleneck.TailRatioAtLeastOne | apps/api/services/bottlenecks/engine.py:265-267 | the tail-risk ratio is at least one, so the arm that scores nothing is never taken |
| ScoreFigures.FiguresAre | apps/api/services/bottlenecks/engine.py:247-272 | the figures behind the scores: count and mean, deviation over mean unless that is tiny, ninetieth percentile over median unless that is tiny, and the number of observations over the target |
| ScoreFigures.ScoresAreNear | apps/api/services/bottlenecks/engine.py:259-285 | each score is, to half a hundredth, its figure in per cent of a fixed benchmark capped at a hundred: 10 or 48 hours, 72 calls, a variation of 1.5, a tail ratio of 2.5 above one, the mean turnaround, the observations |
| ScoreFigures.OverallIsNear | apps/api/services/bottlenecks/engine.py:189-200 | the overall score is, to half a hundredth, the mean of the six components by their weights, further weights counting in the total only |
| Bottleneck.ScoresAreInRange | apps/api/services/bottlenecks/engine.py:259-285 | every component score of non-negative observations lies in [0, 100] |
| Bottleneck.VariationStaysBelowCount | apps/api/services/bottlenecks/engine.py:260 | with the engine's threshold on the mean, the squared coefficient of variation stays below the count |
| Bottleneck.OverallInRange | apps/api/services/bottlenecks/engine.py:189-200 | for non-negative weights with a positive sum, unknown ones included, the overall score lies in [0, 100] |
| Bottleneck.CalculateBottlenecks | apps/api/services/bottlenecks/engine.py:189-205 | ranks count from one, scores never rise, each is the weighted score of its components, no candidate is lost, and weights that cancel out fail |
| BottleneckRequirement.SteadyRanksBelowErratic | apps/api/services/bottlenecks/engine.py:12-14 | a steady stage within target ranks below an erratic one, however much longer it is, when the best score that its count allows a steady stage is below the worst that the other count allows an erratic one |
| BottleneckRequirement.ErraticOutscoresSteady | apps/api/services/bottlenecks/engine.py:189-200 | the same for the rounded scores, under that sufficient condition on the counts |
| BottleneckRequirement.CountsDecide | apps/api/services/bottlenecks/engine.py:189-200 | over arbitrary marks in range with real counts, at least three for the erratic stage, and a share of breaches that the count allows, that condition is exactly the one under which the steady stage always scores less |
| BottleneckRequirement.CloseCountsSuffice | apps/api/services/bottlenecks/engine.py:274-276 | it holds when the steady stage has at most three observations more, or the erratic one at least 69 |
| BottleneckRequirement.ErraticNeedsThree | apps/api/services/bottlenecks/engine.py:247-268 | a stage with one or two observations is never erratic |
| BottleneckRequirement.FewObservationsLetSteadyOutrank | apps/api/services/bottlenecks/engine.py:12-14 | a concrete steady stage with 72 observations that outranks an erratic one with four |
| Alerts.AlertEngine.IndexOpenAlerts | apps/api/services/alerts/engine.py:107-114 | the index holds a key exactly when the table has an open alert for it, and points to one |
| Alerts.AlertEngine.CreateOrGetAlert | apps/api/services/alerts/engine.py:300-345 | with or without the index, an alert is added exactly when none is open, the index keeps agreeing, and a unique open one is returned |
| Alerts.AlertEngine.EvaluateRules | apps/api/services/alerts/engine.py:97-298 | an evaluation through the index leaves the table that asking the table each time would leave |
| Alerts.Query | apps/api/services/alerts/engine.py:315-322 | the database query finds none, the one, or several open alerts of a key |
| AlertRuns.IndexAnswersAsTheTable | apps/api/services/alerts/engine.py:312-324 | without duplicates, index and query give the same answer to every look-up |
| AlertRuns.EvaluateKeeps | apps/api/services/alerts/engine.py:97-345 | an evaluation adds no duplicate, changes no alert, and leaves an open one for every finding of every active rule |
| AlertRuns.EvaluateReports | apps/api/services/alerts/engine.py:97-345 | every alert an evaluation adds is NEW, has the rule, the entity and the title of a finding of an active rule, and repeats no unresolved one; afterwards every such finding has one |
| AlertRuns.SecondEvaluationAddsNothing | apps/api/services/alerts/engine.py:326-327 | a second evaluation over the same findings adds nothing, even after acknowledgements in between |
| AlertRuns.AcknowledgeKeepsIff | apps/api/services/alerts/engine.py:405-413 | acknowledging keeps alerts free of duplicates if and only if the alert was open or nothing was raised in its place |
| AlertRuns.AcknowledgeCanDuplicate | apps/api/services/alerts/engine.py:405-413 | raising, resolving, raising and acknowledging the first leaves two open alerts for one finding |
| AlertRuns.RunKeeps | apps/api/services/alerts/engine.py:97-445 | over any orderly run at most one alert is open per rule and entity, and none is lost, rewritten or reopened |
| Standardization.NormalizeRow | apps/api/services/ingestion/standardization.py:228-246 | the loop leaves each canonical column its first non-empty value and the differing ones under consecutive numbers |
| Standardization.TakeAllNormalises | apps/api/services/ingestion/standardization.py:231-241 | for every row without a column named like an alternate, whatever the order, that is exactly what is left |
| Standardization.OnlyEventNamesAreReplaced | apps/api/services/ingestion/standardization.py:242-246 | only a recorded event name on the events sheet is replaced, by its canonical name for the movement; every other column stays |
| Standardization.NothingIsLost | apps/api/services/ingestion/standardization.py:234-241 | every non-empty value stands under its canonical name or one of its alternates |
| Standardization.NothingIsInvented | apps/api/services/ingestion/standardization.py:234-241 | every value left came from a column of that name or of its base |
| Standardization.AlternateIsInjective | apps/api/services/ingestion/standardization.py:241 | an alternate name determines its base and its number |
| Standardization.AlternateColumnCanBeOverwritten | apps/api/services/ingestion/standardization.py:241 | a column already named like an alternate loses its value to one |
| StandardizationLoss.FoundIff | apps/api/services/ingestion/standardization.py:231-241 | for any row, a non-empty value stands under its canonical name or an alternate if and only if it is not among the values that were overwritten and not written again |
| StandardizationLoss.NothingIsLostIff | apps/api/services/ingestion/standardization.py:231-241 | every non-empty value of a row is kept if and only if no value was so overwritten |
| StandardizationLoss.PlainLosesNothing | apps/api/services/ingestion/standardization.py:231-241 | a row without a column named like an alternate loses nothing |
| AlternateColumns.LostIffSpoiled | apps/api/services/ingestion/standardization.py:231-241 | unless a column is named like an alternate of an alternate, a value is lost if and only if the row shows a later differing value of the base column whose number is its column, and it does not come again |
| AlternateColumns.NothingIsSpoiledIff | apps/api/services/ingestion/standardization.py:231-241 | such a row keeps every value if and only if no cell spoils another in that way |

## Left out

- HTTP routing, authentication, file streaming, the message broker and the database engine: input and output.
- Parsing, canonical loading, journey stages, KPI, quality and outlier engines: a fixed function from staged rows to derived rows that may raise.
- The reprocess, exclusion and clear endpoints: not steps of the protocol. The on-demand summary of the executive dashboard is modelled apart from it, while a dataset is live; a summary filed when none is live is not.
- Several tenants in one store: the model is of one tenant, so deletions that forget the tenant are not visible in it.
- The checksum loop of the append endpoint, the rounded display figures of a bottleneck, criticality bands and keyword mapping of causes.
- Floating-point rounding error; text that is not ASCII; the internals of the sequence similarity; conversion of text in numeric columns.
- Steward field choices that name `is_merged` or `merged_into_id`: custom columns are descriptive ones.
- Timestamps such as `updated_at` and `calculated_at`, audit rows, log text and the wording of explanations.
- Worker.Session.ResetTenantDataset: the ordered deletions of the tables are one step that empties the derived rows, so neither their order nor the tables deleted for all tenants is visible.
- BottleneckRequirement.SteadyRanksBelowErratic: the condition on the counts is sufficient for observations; that it is exact is proved of marks, which of all the variabilities and tail ratios that a count allows take any from the threshold on.
- AlternateColumns.LostIffSpoiled: is about rows without a column named like an alternate of an alternate; for other rows the values lost are given by following the loop.
- Metrics.TraceForgetsIff: covers times, references and sources; the filter context and the exclusion list are overwritten by every branch and are not modelled.
- Durations.BatchedAgainstMetric: is about metrics that select the first occurrence and exclude quarantined ones, as the batched query does.
- Standardization.NormalizeRow: the canonical column of a source column is a parameter, and on the Events sheet the event name is replaced by a parameter afterwards.
- Allocations.GatherEvidence: the proposed reason is kept as its category; the wording with its rounded hours is not modelled.
