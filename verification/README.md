# Verified model of the policy, analysis, news and auth core

A Dafny 4.11 model of the parts of the backend whose correctness is not visible from one function,
with machine-checked theorems about them. `dafny verify dfyconfig.toml` checks the whole project.

What is modelled, file by file:

- `Wrappers`, `Sequences`: option and result types; first occurrence per key, the stable descending
  sort, lexicographic order, sizes of integer ranges.
- `PolicyDocuments`: a normalised policy document, its dedup keys, its quality score and the merge of
  two documents. Keys are a datatype, hashes of URLs are injective ids.
- `PolicyDedup`, `PolicyProvenance`, `PolicyLinkage`, `PolicyIdempotence`, `PolicyMinting`: the online
  record linkage over slots and a key-to-slot index. Each slot carries its history, a tree of merges
  over input positions; evaluating the tree gives the document the program holds. Histories make
  statements about vacated and reoccupied slots and stale index entries possible.
- `PolicyMeaning`: what deduplication does in the documents' own fields: which texts are one key, which
  documents one policy, what a score rewards, in which order documents are merged and survivors come.
- `PolicyStore`, `PolicySync`: the document table with its two unique constraints, the upsert with
  matching by source id and then by URL hash, attachments, and the provider loop with its counters.
- `LockRegistry`: the reference-counted lock per key. A body under the guard contains no suspension
  point, so lookup and count are one step; waiting in `acquire` is the suspension. The registry is
  shown to refine one mutex per key.
- `AnalysisQueue` and `AnalysisLease`, `AnalysisHeartbeat`, `AnalysisCreation`, `AnalysisSkew`,
  `AnalysisTheft`, `AnalysisTable`: sessions, workers and start calls as one state machine in which
  every statement is a step; lease safety, what beating has to do with it, creation dedup, runs that
  show where both end, and the same statements as methods of a table object, each proved to be a step
  of the machine. A claim statement may skip any rows that others have locked.
- `AnalysisLock`: start calls and lock registry run together; every joint run is a run of the session
  machine, so its mutex per key is what the registry provides.
- `NewsCache`, `NewsStaleness`, `NewsLimits`, `NewsSteps`, `NewsReader`: the cache-aside reader with any
  number of interleaved calls, runs that show where its guarantees end, and the same call as one method
  whose every path is a sequence of steps of the machine.
- `EventSelection`, `EventSelectionLaws`, `EventMeaning`, `EventQuotas`: ranking, deduplication and
  quotas; `EventMeaning` states them in the fields of the events.
- `IpLimiter`, `IpBounds`: the fixed-window counter with INCR and EXPIRE as separate commands, and the
  least bounds on what it admits.
- `TokenStore`: refresh tokens with the index per user.
- `PriceWindows`: one range query for many anchor dates against one query per anchor date.

## Where the code does less than it seems to

- A merged document takes `source` from the better side and may take `source_document_id` from the
  other (`policy_dedup_service.py:124-125`), which can mint a key no input had.
  `PolicyDocuments.MergeKeys` says exactly when a merge does. For lists of any length, dedup is sound
  when no input holds a pair of source and id that others can mint (`MintsUnheld`), and key-disjoint
  and idempotent when no input can mint for another (`NoMinting`, implied by own ids everywhere or by
  a single source). For two documents that share a key the condition is exact: every third document
  is linked correctly if and only if their merge mints nothing
  (`PolicyMinting.SoundForEveryThirdIff`), and a second pass is without effect for every unrelated
  earlier document if and only if it mints nothing (`IdempotentForEveryEarlierIff`).
  `MintingBreaksSoundness` and `MintingBreaksIdempotence` are concrete inputs. One survivor per
  connected group is not claimed: keys lost in a merge are not carried forward.
- A provider that fails half-way leaves documents in the list that `normalized_count` does not count
  (`PolicySync.HalfFailureOvercounts`). Where no two delivered documents share a key, the counters add
  up if and only if no failing provider has delivered anything before (`DisjointBoundedIff`).
- A claim reads the clock before its statement runs, so `updated_at` can precede `created_at`. The
  creation window is therefore the active time minus that delay (`Settings.claimDelay`), and no longer
  window holds in all runs (`AnalysisSkew.WindowIsExact`): sessions are reused for the whole active
  time if and only if the delay is zero (`WholeActiveTimeIff`).
- A key-disjoint batch of policy documents is rejected if and only if one of them matches one row by id
  and another by URL, neither of which an earlier one has met (`PolicyStore.BatchFailsIff`).
- A runner whose heartbeat is overdue can lose its session while it is still alive: a run from the
  start in which it is late by the least amount ends with two holders (`AnalysisTheft.TheftFromStart`).
  Lease safety is for timely heartbeats.
- The news reader loads the rows and the time of the last fetch in two reads and checks the second. The
  rows it answers lie within the refresh window if and only if that check also passes on the fetch on
  record when they were loaded (`NewsStaleness.DatabaseAnswerIsFreshIff`), and a cached entry keeps the
  age bound for its whole life if and only if its writer settled on its rows within the window
  (`EntryIsYoungIff`): by that check, always after a fetch that persisted (`PersistedIsInWindow`), and
  when a fetch that maps no row answers what is stored, if and only if the stored batch lies in the
  window. Otherwise the age has no bound: a batch persisted between the two reads
  (`TornPairIsUnbounded`), which can be the key's own, since the first look is outside the lock
  (`NewsLimits.OwnKeyTearsPair`), or a stored answer (`NewsLimits.StoredAnswerIsUnbounded`).
- After a fetch has persisted, a call goes to the remote again if and only if its look under the lock
  finds no rows of the key, or its `now` is past the window (`NewsCache.RefetchIff`). So a batch without
  rows for the key lets the next call fetch at once, whether another key stored it or the key itself
  (`NewsLimits.EmptiedRowsRefetch`).
- The settings check of the event quotas is on their sum alone. `EventQuotas.AlwaysFairIff` is the
  exact condition on quotas and limit under which every list of events gets its quotas: the positive
  quotas and, if some bucket has no quota, one seat more must fit the limit. An anchor in a bucket
  without quota (`AnchorStarvesBucket`) and a negative quota (`NegativeQuotaStarvesBucket`) are
  admitted inputs that fail; `EventSelectionLaws.FairIff` decides it for one list.
- The limiter admits up to twice the limit within a window's length: that is the least bound for every
  limit and window (`IpBounds.ClosedSpanIff`), one less for a half-open span (`HalfOpenSpanIff`). A
  counter whose creator stops between INCR and EXPIRE never expires (`IpLimiter.LostExpiryBlocks`).

## Model

| member | source | states |
|---|---|---|
| PolicyDocuments.BuildDedupKeys | backend/app/services/policy_dedup_service.py:26-39 | lists exactly the document's keys: document number, title and the source's id where they have a visible character, and always the source's URL; no other key; lower-casing for ASCII letters only |
| PolicyMeaning.SameKeyTextIff | backend/app/services/policy_dedup_service.py:18-23 | two texts are the same key if and only if they agree without white space and in lower case; a text is none if and only if it is missing or all white |
| PolicyMeaning.WhiteIsSpace | backend/app/services/policy_dedup_service.py:21 | white space is the listed set of Python's white space characters |
| PolicyMeaning.SharesIff | backend/app/services/policy_dedup_service.py:26-39 | two documents share a key if and only if their document numbers are there and agree, or their titles do, or one source names them by one id, or one source has them under one URL |
| PolicyDocuments.ScoreGrows | backend/app/services/policy_dedup_service.py:50-62 | more content never lowers the score, and texts and flags outweigh at most 28 attachments |
| PolicyMeaning.ScoreRewards | backend/app/services/policy_dedup_service.py:50-62 | what each field adds to the score, with its cap and its weight |
| PolicyDocuments.MergeUniqueTags | backend/app/services/policy_dedup_service.py:72-77 | first occurrences of primary then secondary tags |
| PolicyDocuments.MergeAttachments | backend/app/services/policy_dedup_service.py:80-91 | first attachment per hash, primary before secondary |
| PolicyDocuments.NormalizeAttachments | backend/app/services/policy_normalization_service.py:244-262 | one attachment per distinct non-blank URL in order of first occurrence, no hash twice |
| PolicyDocuments.BetterSideWins | backend/app/services/policy_dedup_service.py:103-148 | the side with the lexicographically greater score and publication time, left on a tie, gives source, URL hash, and URL, id, number, dates and payload values where it has them; the other side fills the gaps; title, summary and texts are the longer ones, the winner's on a tie; macro topic and metadata status as the code decides them |
| PolicyDocuments.WinnersListsFirst | backend/app/services/policy_dedup_service.py:65-148 | tags and attachments of a merge are first occurrences, the winner's before the other side's |
| PolicyDocuments.MergeKeys | backend/app/services/policy_dedup_service.py:118-148 | a merge has only keys of its sides if and only if the winner does not take over an id from another source |
| PolicyDocuments.MergeIsJoin | backend/app/services/policy_dedup_service.py:65-148 | lengths are maxima, tag and hash sets unions of the two sides, whichever wins |
| PolicyDocuments.MergeScore | backend/app/services/policy_dedup_service.py:50-148 | given unique hashes per side, a merge scores at least as high as both sides |
| PolicyDedup.DedupePolicyDocuments | backend/app/services/policy_dedup_service.py:151-203 | the loop over slots, index and counter returns the survivors and the count of the specified run |
| PolicyDedup.FoldDocument | backend/app/services/policy_dedup_service.py:167-190 | placing an arrival and folding the other matched slots gives the slots and index of the specified step |
| PolicyDedup.FoldInto | backend/app/services/policy_dedup_service.py:177-184 | folding one slot after the other, skipping vacated ones, gives the specified fold |
| PolicyProvenance.ArrivalFoldsMatches | backend/app/services/policy_dedup_service.py:158-190 | an arrival that matches ends up in the lowest matched slot with exactly what the matched slots held; the others are vacated, all other slots stay, the count rises by one |
| PolicyMeaning.ArrivalMergesInOrder | backend/app/services/policy_dedup_service.py:167-184 | the merges of an arrival from the left: the document of the lowest matched slot, the arrival, the documents of the other matched slots in ascending order, vacated slots left out |
| PolicyProvenance.Conservation | backend/app/services/policy_dedup_service.py:154-192 | for every input list each position is folded into exactly one slot, and survivors + deduped_count + vacated slots = inputs |
| PolicyProvenance.HistoryIsJoin | backend/app/services/policy_dedup_service.py:50-148 | whatever the merge order, a history evaluates to the join of exactly its inputs: maxima of lengths, unions of tags and hashes |
| PolicyProvenance.MergeOrderIsIrrelevant | backend/app/services/policy_dedup_service.py:50-148 | two histories of the same inputs have the same score, tags and hashes |
| PolicyProvenance.HistoryScore | backend/app/services/policy_dedup_service.py:50-62 | the result of a history scores at least as high as each input in it |
| PolicyProvenance.SurvivorsAreJoins | backend/app/services/policy_dedup_service.py:151-203 | every survivor is the join of the inputs folded into its slot and scores at least as high as each |
| PolicyLinkage.OwnIdsOrOneSource | backend/app/services/policy_dedup_service.py:124-125 | own ids everywhere, or one source, exclude minted keys |
| PolicyLinkage.RunIndexed | backend/app/services/policy_dedup_service.py:158-190 | after every prefix each key of a live slot's document is indexed to that slot |
| PolicyLinkage.SurvivorsAreKeyDisjoint | backend/app/services/policy_dedup_service.py:151-203 | no two survivors share any key |
| PolicyLinkage.NoMintingMintsNothing | backend/app/services/policy_dedup_service.py:124-125 | without minting no key can be minted, so the condition of soundness is the weaker one |
| PolicyLinkage.DedupIsSound | backend/app/services/policy_dedup_service.py:151-188 | unless an input holds a pair others can mint, any two inputs in one slot are joined by a chain of inputs that pairwise share a key, across vacated and reoccupied slots and stale index entries |
| PolicyIdempotence.FoldsNothing | backend/app/services/policy_dedup_service.py:154-190 | deduped_count stays 0 if and only if the inputs are pairwise key-disjoint |
| PolicyIdempotence.SecondPass | backend/app/services/policy_dedup_service.py:151-203 | a second pass returns the identical list with count 0 if and only if the survivors are pairwise key-disjoint; the next rows give conditions on the inputs |
| PolicyIdempotence.DedupIsIdempotent | backend/app/services/policy_dedup_service.py:151-203 | dedup of its own output returns the identical list in the same order with deduped_count 0 |
| PolicyMeaning.FoldsNothingIff | backend/app/services/policy_dedup_service.py:154-190 | deduped_count stays 0 if and only if no two documents are the same policy by number, title, source id or URL |
| PolicyMeaning.FoldsPairIff | backend/app/services/policy_dedup_service.py:158-203 | two documents are folded into one, the merge of the earlier with the later and with count 1, if and only if they are the same policy; else both survive |
| PolicyMeaning.SurvivorsAreDistinct | backend/app/services/policy_dedup_service.py:151-203 | without minting no two survivors are the same policy |
| PolicyMeaning.SlotIsConnected | backend/app/services/policy_dedup_service.py:151-188 | any two inputs of one slot are joined by a path of inputs in which neighbours are the same policy |
| PolicyMeaning.NewestFirst | backend/app/services/policy_dedup_service.py:192-203 | survivors come with the latest publication first, the better score first on a tie |
| PolicyMinting.SoundForEveryThirdIff | backend/app/services/policy_dedup_service.py:118-188 | after two documents that share a key, every third is folded in only with documents it is linked to if and only if the merge of the two does not take over an id from another source |
| PolicyMinting.IdempotentForEveryEarlierIff | backend/app/services/policy_dedup_service.py:118-203 | for two documents that share a key, a second pass changes nothing whatever unrelated document came before if and only if their merge does not take over an id from another source |
| PolicyMinting.MintingBreaksIdempotence | backend/app/services/policy_dedup_service.py:124-125 | a concrete input on which a second pass folds again |
| PolicyMinting.MintingBreaksSoundness | backend/app/services/policy_dedup_service.py:124-188 | a concrete input on which a document ends up with documents it is not linked to |
| PolicyStore.PolicyRepository.LoadExistingPolicyDocument | backend/app/services/policy_repository.py:23-47 | the row with the source id, else the row with the URL hash, else none |
| PolicyStore.PolicyRepository.UpsertPolicyAttachments | backend/app/services/policy_repository.py:80-107 | an attachment given last for a stored file replaces it, one of a file not stored is appended in order, all others stay in place |
| PolicyStore.AttachmentsAreStored | backend/app/services/policy_repository.py:80-107 | where each given and each stored attachment ends up, for any lists |
| PolicyStore.GivenAndKept | backend/app/services/policy_repository.py:80-107 | each attachment given last for its file is in the result, and each stored one of a file nobody gave |
| PolicyStore.PolicyRepository.WriteDocument | backend/app/services/policy_repository.py:110-160 | one document is written to its row with every field equal to the document's and no other row changed, or rejected without a change |
| PolicyStore.PolicyRepository.UpsertPolicyDocuments | backend/app/services/policy_repository.py:110-160 | every row written last by a document carries it field by field with its attachments, rows nobody wrote and attachments nobody gave stay, with the two counters; or no change at all |
| PolicyStore.BatchIsCarried | backend/app/services/policy_repository.py:50-160 | the same of the specified batch, in the fields of documents and rows |
| PolicyStore.ExistingRow | backend/app/services/policy_repository.py:23-47 | which row a document updates, in the fields of row and document |
| PolicyStore.FailsIffTwoRows | backend/app/services/policy_repository.py:23-47 | a document is rejected if and only if one row has its source id and another its URL |
| PolicyStore.AttachmentsUpsertIsIdempotent | backend/app/services/policy_repository.py:80-107 | upserting the same attachments again changes nothing |
| PolicyStore.UpsertFailsIffCrossMatched | backend/app/services/policy_repository.py:23-47 | a document is rejected by the unique constraints if and only if it matches one row by id and another by URL |
| PolicyStore.UpsertKeepsUnique | backend/app/models/policy_document.py:12-23 | a successful upsert keeps both unique constraints |
| PolicyStore.BatchFailsIff | backend/app/services/policy_repository.py:23-160 | a key-disjoint batch is rejected if and only if a document matches one row by id and another by URL that no earlier document of the batch has met |
| PolicyStore.BatchIsWritten | backend/app/services/policy_repository.py:110-160 | any other key-disjoint batch is written to pairwise distinct rows, inserted + updated = batch size, inserted counts the new rows, nothing else changes, both constraints hold |
| PolicyStore.SecondRunChangesOnlyJob | backend/app/services/policy_repository.py:110-160 | a second identical run inserts no row or attachment and changes nothing but the job id |
| PolicySync.CollectDocuments | backend/app/services/policy_sync_service.py:117-154 | the provider loop: documents, raw and normalised counts, failures and successes, with the documents of half-failed providers accounted for |
| PolicySync.DeliveredSeeds | backend/app/services/policy_sync_service.py:122-131 | a provider delivers the documents of its first seeds in order, as many as are asked for or up to the first that normalisation rejects; it succeeds if and only if none of those is rejected |
| PolicySync.ProvidersAddUp | backend/app/services/policy_sync_service.py:116-147 | documents come provider by provider in order, and the counters add up over providers |
| PolicySync.OneProvider | backend/app/services/policy_sync_service.py:116-144 | what one provider adds to documents and counters |
| PolicySync.SyncPolicyDocuments | backend/app/services/policy_sync_service.py:45-178 | collect, dedup and upsert: the new table, all counters and the job status, or no change on a failed upsert |
| PolicySync.CountersBounded | backend/app/services/policy_sync_service.py:128-177 | inserted + updated + deduped stays within normalized_count if and only if the vacated slots make up for documents of failed providers, so always when none fails |
| PolicySync.DisjointBoundedIff | backend/app/services/policy_sync_service.py:117-177 | for deliveries that share no key, the counters stay within normalized_count if and only if no failing provider has delivered a document |
| PolicySync.HalfFailureOvercounts | backend/app/services/policy_sync_service.py:128-147 | a failing input for every document and every limit of at least two |
| PolicySync.SurvivorsAreABatch | backend/app/services/policy_sync_service.py:156-161 | dedup output satisfies what the upsert relies on |
| PolicySync.SyncTwice | backend/app/services/policy_sync_service.py:156-161 | dedup and upsert are rejected exactly when a survivor is so torn, and otherwise insert nothing the second time |
| LockRegistry.AlwaysValid | backend/app/services/analysis_runtime_service.py:42-90 | in every interleaving counts equal users and leaked waits, and exactly the locks in use are registered |
| LockRegistry.MutualExclusion | backend/app/services/analysis_runtime_service.py:67-104 | whoever holds or waits on a key uses the registered lock, and no other lock of the key has a user |
| LockRegistry.RemovedOnlyWhenUnused | backend/app/services/analysis_runtime_service.py:57-64 | an entry is removed only when nobody uses any lock of the key |
| LockRegistry.NoLeak | backend/app/services/analysis_runtime_service.py:57-90 | a key is registered if and only if someone uses it or left while waiting; without cancelled waits the count is holders plus waiters and the registry empties |
| LockRegistry.CancelledWaitLeaks | backend/app/services/analysis_runtime_service.py:74-100 | after a cancelled wait the key stays registered under the same object, counting more than its users, in every later state |
| LockRegistry.RefinesMutex | backend/app/services/stock_cache_service.py:21-77 | every step is a step of one mutex per key: the owner changes only by taking a free key or releasing an own one |
| LockRegistry.NoOvertaking | backend/app/services/analysis_runtime_service.py:74-84 | a waiter keeps or improves its place until it holds the lock |
| LockRegistry.SessionLockRegistry.GetLock | backend/app/services/analysis_runtime_service.py:47-55 | the registered lock of the key, with nothing changed, else a new idle one under a fresh identity |
| LockRegistry.SessionLockRegistry.EnterContext | backend/app/services/analysis_runtime_service.py:74-100 | lookup, count and acquire as one step of the model: acquired at once if and only if nobody holds or waits for the key, else last in the queue; one user more |
| LockRegistry.SessionLockRegistry.ResumeFirstWaiter | backend/app/services/analysis_runtime_service.py:74-84 | the first waiter becomes the holder, the others keep their order, the count stays |
| LockRegistry.SessionLockRegistry.ExitContext | backend/app/services/analysis_runtime_service.py:80-104 | release, count and removal as one step of the model: the lock is free, the queue as before, one user less, and the key is registered if and only if users are left |
| AnalysisLease.ClaimTakesOnlyOverdue | backend/app/services/analysis_repository.py:505-585 | in every run a claim takes a held session only when its last heartbeat is older than the stale interval |
| AnalysisLease.LeaseStep | backend/app/services/analysis_service.py:970-1594 | every step keeps: held sessions are running, distinct holders hold distinct sessions, finished ones have ended |
| AnalysisLease.OneLiveRunner | backend/scripts/run_analysis_worker.py:23-44 | in every run whose live runners beat in time, a session has at most one live runner |
| AnalysisHeartbeat.HeartbeatIsLastBeat | backend/app/services/analysis_service.py:135-180 | in every run the heartbeat of a session is the time its last claim, begin, progress, heartbeat write, completion or failure carries |
| AnalysisHeartbeat.TimelyIffBeaten | backend/app/services/analysis_service.py:488-510 | heartbeats are timely if and only if the last of these steps on every held session carries a time at most the stale interval ago |
| AnalysisHeartbeat.BeatingKeepsLease | backend/scripts/run_analysis_worker.py:23-44 | in every run in which held sessions are beaten in time, a session has at most one live runner |
| AnalysisLease.EndedForGood | backend/app/services/analysis_repository.py:505-585 | a completed or failed session stays ended, is claimed by no later step and held by no worker |
| AnalysisTheft.OverdueIsStolen | backend/app/services/analysis_repository.py:559-585 | whenever the oldest stale session belongs to a live runner and none is queued, a second worker can take it |
| AnalysisTheft.TheftFromStart | backend/scripts/run_analysis_worker.py:23-44 | for all settings a run from the start in which a heartbeat late by the least amount ends with two holders |
| AnalysisLock.StepIsQueueStep | backend/app/services/analysis_runtime_service.py:67-104 | a call that the registry lets go on finds its key without an owner, and the owner of a key stays whoever holds its registered lock |
| AnalysisLock.RunIsQueueRun | backend/app/services/analysis_service.py:872-955 | every run of start calls under the registry's locks is a run of the session machine |
| AnalysisCreation.NothingActiveSettles | backend/app/services/analysis_repository.py:482-496 | finding no active session means every session of the key has ended or was created before the window |
| AnalysisCreation.CreationStep | backend/app/services/analysis_service.py:872-955 | every step keeps the spacing of sessions of one key |
| AnalysisCreation.CreationDedup | backend/app/services/analysis_service.py:872-955 | under any interleaving, of two sessions of one key created within the window the earlier had ended when the later call looked for an active one |
| AnalysisCreation.OneOpenSessionPerWindow | backend/app/services/analysis_service.py:891-919 | with timely workers two open sessions of one key are created further apart than the window |
| AnalysisSkew.WindowIsExact | backend/app/services/analysis_repository.py:482-556 | for all settings: creation dedup holds in every run for a window if and only if it is at most the active time minus the claim delay, or empty |
| AnalysisSkew.WholeActiveTimeIff | backend/app/services/analysis_repository.py:510-556 | for the whole active time if and only if claims take effect when they read the clock |
| AnalysisSkew.TimelyWindowIsExact | backend/app/services/analysis_repository.py:482-556 | with timely workers open sessions are a window apart if and only if it is at most the active time minus the smaller of claim delay and stale interval, or empty |
| AnalysisTable.SessionTable.CreateAnalysisSessionRecord | backend/app/services/analysis_repository.py:437-479 | is what the commit of a start call does to the table in every state in which that call has drawn the session |
| AnalysisTable.SessionTable.LoadActiveSessionByKey | backend/app/services/analysis_repository.py:482-496 | the most recently updated active session of the key, none exactly when there is none |
| AnalysisTable.SessionTable.ClaimNextAnalysisSessionForWorker | backend/app/services/analysis_repository.py:505-585 | of the rows nobody has locked it claims the queued session created first, else the running one that is stale and was updated first, the lower id on a tie, and stamps it running with heartbeat and update now; else changes nothing |
| AnalysisTable.ClaimIsSteps | backend/app/services/analysis_repository.py:505-585 | each outcome of a claim is one or two claim steps of the machine |
| AnalysisTable.OldestIsUnique | backend/app/services/analysis_repository.py:559-577 | the claim order leaves no choice |
| AnalysisTable.ClaimedOnce | backend/app/services/analysis_repository.py:536-585 | a second claim with a stale limit no later than the first claim takes another session |
| AnalysisTable.SessionTable.TouchAnalysisSessionHeartbeat | backend/app/services/analysis_service.py:467-485 | a session that has not ended gets heartbeat and update time now and no other change, any other none; the machine's check and write, or its skip |
| AnalysisTable.SessionTable.UpdateSessionProgress | backend/app/services/analysis_service.py:135-177 | heartbeat and update time are now, the status is the one given or stays, nothing else changes; the machine's begin or progress |
| AnalysisTable.SessionTable.CompleteSession | backend/app/services/analysis_service.py:1461-1530 | completed, with the generation time as heartbeat and update time now; the machine's completion for every worker that runs the session |
| AnalysisTable.SessionTable.PersistAnalysisSessionFailure | backend/app/services/analysis_service.py:427-464 | failed, with heartbeat and update time now; the machine's failure step for every worker that can fail, and nothing for a missing session |
| AnalysisTable.SessionTable.StartAnalysisSession | backend/app/services/analysis_service.py:872-955 | fresh report, else the active session updated last, else a new one, created only when every open session of the key was last updated before the active time; the machine's look-up and commit |
| NewsCache.OneFetchAtATime | backend/app/services/news_cache_service.py:74-75 | at most one call at a time is at the remote |
| NewsCache.RefetchIff | backend/app/services/news_cache_service.py:74-99 | after a persisted fetch a call under the lock goes to the remote if and only if its look finds no rows or its own `now` is more than the window past the record, which is at least that fetch |
| NewsCache.SingleFlight | backend/app/services/news_cache_service.py:49-113 | for any `now`, whichever clock a fetch is recorded under: a call whose look under the lock finds rows fetches only past the window |
| NewsLimits.EmptiedRowsRefetch | backend/app/services/news_cache_service.py:79-97 | for every size of the first batch a run from the start in which the key is left without rows and a call fetches within the window; an empty batch does it with no other key involved |
| NewsCache.FetchesAreSpaced | backend/app/services/news_cache_service.py:79-97 | with clocks read no later than the call acts, two fetches are recorded more than a window apart if the later call's look under the lock found rows, as it does while the key has rows |
| NewsStaleness.EntryIsYoungIff | backend/app/services/news_cache_service.py:49-101 | whatever is cached in whatever run is, as long as it can be hit, younger than window + time to live + the writer's running time if and only if the writer settled on its rows within the window |
| NewsStaleness.HitIsRecent | backend/app/services/news_cache_service.py:49-97 | a hit serves the entry, and rows settled on within the window are that young |
| NewsStaleness.PersistedIsInWindow | backend/app/services/news_cache_service.py:99-101 | rows after a fetch that persisted are always settled on within the window |
| NewsStaleness.DatabaseAnswerIsFreshIff | backend/app/services/news_cache_service.py:54-97 | rows answered from the database lie within the window if and only if the code's check also passes on the fetch on record when they were loaded |
| NewsStaleness.FallbackLeavesCache | backend/app/services/news_cache_service.py:109-113 | only a failed fetch serves older rows, and it leaves the cache as it was |
| NewsStaleness.TornPairIsUnbounded | backend/app/services/news_cache_service.py:54-62 | for any age a run in which a hit serves rows that old, because a batch was persisted between the two reads |
| NewsLimits.OwnKeyTearsPair | backend/app/services/news_cache_service.py:54-62 | for any age beyond the window a run in which a hit serves rows that old because another call on the same key persisted between the two reads |
| NewsLimits.StoredAnswerIsUnbounded | backend/app/services/news_cache_service.py:83-101 | for any age beyond the window a run in which a hit serves rows that old, because a fetch answered stored rows |
| NewsReader.NewsStore.GetNewsRows | backend/app/services/news_cache_service.py:36-113 | one call with whatever others wrote while it waited for the lock: the remote is asked if and only if neither look finds an unexpired entry or rows recorded within the window, answers from cache and database are that young, and every path, with what it leaves in store and cache, is a sequence of steps of the machine |
| NewsSteps.PerformIsSteps | backend/app/services/news_cache_service.py:36-113 | performing steps of calls is a run of the machine from that state on |
| NewsReader.FirstLookPasses | backend/app/services/news_cache_service.py:49-72 | from every state that shows the store, the look without the lock is the machine's hit, its answer from the database or its wait |
| NewsReader.UnderLockPasses | backend/app/services/news_cache_service.py:74-113 | the same from the lock to the answer, for every outcome of the fetch |
| NewsReader.NewsStore.TwoCalls | backend/app/services/news_cache_service.py:49-113 | a second call within the window of a fetch that found rows does not fetch, whether or not the cache could be written |
| EventSelection.DedupePreservingOrder | backend/app/services/analysis_event_selection_service.py:82-117 | the loop keeps the first event per logical key with the anchor first |
| EventSelection.FillBucket | backend/app/services/analysis_event_selection_service.py:158-170 | one bucket's loop, with its early return, takes a first part of the specified picks |
| EventSelection.SelectGenerationAnalysisEvents | backend/app/services/analysis_event_selection_service.py:120-179 | the loops with early return and top-up give the specified selection cut to the limit |
| EventSelection.SelectSummaryAnalysisEvents | backend/app/services/analysis_event_selection_service.py:182-193 | the deduplicated events cut to the limit |
| EventSelectionLaws.SelectionLaws | backend/app/services/analysis_event_selection_service.py:120-179 | with unique ids and a positive limit: no logical key twice, length min(limit, distinct logical keys), the anchor first whenever it is a candidate |
| EventSelectionLaws.SelectionIsCanonical | backend/app/services/analysis_event_selection_service.py:42-72 | with unique ids the result does not depend on the input order |
| EventSelectionLaws.RankedDescends | backend/app/services/analysis_event_selection_service.py:137-147 | behind the anchor the candidates are in descending rank |
| EventMeaning.AboveIff | backend/app/services/analysis_event_selection_service.py:42-72 | one event ranks above another if and only if it shares the anchor's stock where the other does not; on a tie its macro topic; then by later publication, fetch, creation, higher source priority, greater id |
| EventMeaning.RankedAbove | backend/app/services/analysis_event_selection_service.py:137-147 | with unique ids each candidate behind the anchor ranks above all later ones, in those fields |
| EventMeaning.DedupeKeeps | backend/app/services/analysis_event_selection_service.py:82-117 | of any list deduplication keeps the anchor first and then the first event of every other story in the order given |
| EventMeaning.SurvivesIff | backend/app/services/analysis_event_selection_service.py:82-147 | a candidate survives if and only if it is the anchor or the best event, in those fields, of a story the anchor does not tell |
| EventMeaning.SelectionOrder | backend/app/services/analysis_event_selection_service.py:120-179 | behind the anchor, selected events within their scope's quota come first, scope by scope; events of one scope, and the ones beyond the quotas, come best first in those fields |
| EventMeaning.LeftOut | backend/app/services/analysis_event_selection_service.py:120-179 | a surviving candidate is left out only when the list is full, ranks below the selected ones of its scope and below all beyond the quotas, and with its quota open it loses only to events within the quotas of its own or an earlier scope |
| EventSelectionLaws.BucketsAreRankPrefixes | backend/app/services/analysis_event_selection_service.py:156-179 | what is selected of each bucket is a rank prefix of it, for any quotas |
| EventSelectionLaws.FairIff | backend/app/services/analysis_event_selection_service.py:144-179 | every bucket gets min(quota, available) if and only if the limit has a seat for each entitlement and for an anchor no quota pays for |
| EventQuotas.AlwaysFairIff | backend/app/core/settings.py:276-288 | all lists of events in the three buckets get their quotas under every anchor if and only if the positive quotas, and a seat more if some bucket has none, fit the limit |
| EventQuotas.EnoughSeatsAreFair | backend/app/services/analysis_event_selection_service.py:144-179 | for any quotas, negative ones included, seats for the positive quotas and an anchor no quota pays for suffice |
| EventQuotas.AnchorStarvesBucket | backend/app/services/analysis_event_selection_service.py:150-170 | admitted quotas that go unmet: an anchor in a bucket without quota takes the only seat |
| EventQuotas.NegativeQuotaStarvesBucket | backend/app/core/settings.py:276-288 | admitted quotas that go unmet without an anchor: a negative one lets another exceed the limit |
| IpLimiter.TwoCalls | backend/app/cache/redis.py:276-282 | counts rise within a generation of the key, generations start a window apart, calls two generations apart are more than a window apart |
| IpLimiter.AtMostTwice | backend/app/cache/redis.py:262-291 | in every run any span of one window, ends included, admits at most twice the limit |
| IpLimiter.BelowTwice | backend/app/cache/redis.py:262-291 | a half-open span of one window admits at most twice the limit minus one |
| IpBounds.ClosedSpanIff | backend/app/cache/redis.py:262-291 | for every window and limit a number bounds what any span of one window admits, ends included, in every run if and only if it is at least twice the limit |
| IpBounds.HalfOpenSpanIff | backend/app/cache/redis.py:262-291 | the same for half-open spans: at least twice the limit minus one, the limit itself for a window of one time unit |
| IpBounds.ServiceWindows | backend/app/cache/redis.py:276-282 | the least bounds for 60 seconds and for 24 hours |
| IpBounds.BoundIsReached | backend/app/cache/redis.py:276-282 | for every window and limit a run that reaches both bounds |
| IpLimiter.LostExpiryBlocks | backend/app/cache/redis.py:276-278 | a counter left without expiry admits nothing any more once the limit is used up |
| IpLimiter.EmailVerificationStore.CheckAndIncrementIpLimits | backend/app/cache/redis.py:262-291 | both windows count the call, one more on a counter that has not expired, which keeps its expiry, else a first count that expires after 60 seconds or 24 hours; admitted exactly when both counts are within their limits; a refused call blocks the address |
| IpLimiter.CountIsSteps | backend/app/cache/redis.py:276-278 | whatever a counted call leaves on a key is an increment and, for the creator, an expiry of the model |
| TokenStore.RedisTokenStore.SetRefreshToken | backend/app/cache/redis.py:71-84 | token entry and index entry together |
| TokenStore.RedisTokenStore.ValidateRefreshToken | backend/app/cache/redis.py:86-92 | valid exactly when the id is bound to the user and unexpired |
| TokenStore.RedisTokenStore.RevokeRefreshToken | backend/app/cache/redis.py:94-112 | removes the token and, if it was live, its index entry; an expired one leaves the index as it is |
| TokenStore.RedisTokenStore.RevokeAllRefreshTokensForUser | backend/app/cache/redis.py:114-128 | removes the indexed tokens and the index of the user |
| TokenStore.RedisTokenStore.RefreshTokenPair | backend/app/services/auth_service.py:109-134 | rotates a valid token and changes nothing for an invalid one |
| TokenStore.IndexCoversTokens | backend/app/cache/redis.py:71-128 | in every reachable state each token of a user is in that user's index, and the index names nobody else's |
| TokenStore.RevokeAllIsByUser | backend/app/cache/redis.py:114-128 | following the index removes exactly the user's tokens |
| TokenStore.RevokeAllIsFinal | backend/app/services/auth_service.py:156-157 | after a revoke-all no token issued to the user before validates again |
| TokenStore.RedeemedAtMostOnce | backend/app/services/auth_service.py:122-129 | a refresh token is redeemed at most once, and never after a logout with it |
| TokenStore.ValidIff | backend/app/services/auth_service.py:97-168 | a token validates if and only if it was issued to the user, is unexpired and was since neither redeemed nor logged out nor revoked with all others |
| TokenStore.IndexedIff | backend/app/cache/redis.py:71-128 | the index of a user holds an id if and only if it was issued to the user and since neither redeemed, nor logged out while it lived, nor swept by a revoke-all |
| PriceWindows.SlicePriceWindows | backend/app/services/stock_quote_service.py:81-96 | for each anchor the first rows from its date on |
| PriceWindows.QueryRows | backend/app/services/analysis_repository.py:148-174 | the single-anchor query answers the first rows dated on or after the anchor, in date order, as many as there are up to the size |
| PriceWindows.WindowRows | backend/app/services/stock_quote_service.py:241-261 | a window of the range cut holds the first rows from the anchor to the end of the range, and its length |
| PriceWindows.WindowOfCutIff | backend/app/services/stock_quote_service.py:239-261 | a window of the range cut equals the single-anchor query on the whole table if and only if it is complete or the table ends within the range |
| PriceWindows.CompleteBatchIsQuery | backend/app/services/analysis_repository.py:148-174 | when every anchor has enough rows up to 30 days behind the last anchor, the batch equals the single-anchor query for every anchor date |
| PriceWindows.UpsertAllLaws | backend/app/services/stock_repository.py:217-244 | after storing remote rows each date has what the remote sent last for it, any other what it had, one row per date |
| PriceWindows.SentIsLast | backend/app/services/stock_repository.py:217-244 | of several remote rows of one date the last decides |
| PriceWindows.UpsertAllIsIdempotent | backend/app/services/stock_repository.py:224-231 | storing the same rows again changes nothing |
| PriceWindows.StockQuotes.CompleteWindows | backend/app/services/stock_quote_service.py:254-331 | snapshots if every anchor has enough rows up to 30 days behind the last one, else klines if they do, else klines after storing the remote rows, else what there is; equal to the single-anchor query in the complete cases, the first rows within the range otherwise |
| PriceWindows.StockQuotes.LoadPriceWindowsWithCompletion | backend/app/services/stock_quote_service.py:227-331 | the whole call with missing anchor dates dropped and the range from the lowest to the highest plus 30 days |

## Left out

- HTTP routes, schemas, ORM declarations, migrations, logging, mail and captcha: plumbing without an invariant.
- SQL, Redis and asyncio internals: a table is a map or a list of rows, an atomic statement or transaction one step, a key with a time to live a value with an expiry.
- LLM calls, prompts, the multi-agent orchestrator, scraping and the data providers: the remote is a step that answers or fails.
- PolicyDocuments.BuildDedupKeys: lower-cases ASCII letters only; other letters are compared as they are.
- String work: dates, URLs and hashes arrive normalised.
- Sessions run inline next to a worker: that path bypasses the claim.
- Events without an id: the deduplication would pin the first such event when no anchor is wanted; ids are always present here.
- Trade calendar and adjustment factor readers: they do not check again under the lock.
- Evaluation metrics, keyword scoring and job-row fields other than the counters: easy members.
- Cancellation of a wait is part of mutual exclusion and excluded from the claim that the registry empties.
- Time stamps of policy rows (`created_at`, `updated_at`) are not modelled; the job id is.
- Deletion of session rows is not modelled; every session stays in the table.
- The index of a user is not given an expiry, as in the code; its growth is not bounded here.
- Token operations are atomic: interleavings of their single commands are not modelled, nor are the signature and the expiry inside a token.
- Lock objects are values under ids, so aliasing of lock objects shows as equal ids.
- The dedup slots and the index are local sequences and maps that the loop reassigns, not heap objects.
- Prices are optional numbers; columns a window does not return are left out.
- PolicyIdempotence.SecondPass: its condition is on the survivors; conditions on the inputs are `FoldsNothing`, `DedupIsIdempotent` and the pairwise equivalence in `PolicyMinting`.
- PolicySync.CountersBounded: its condition counts vacated slots; `DisjointBoundedIff` has one on the deliveries alone.
- AnalysisCreation.CreationDedup: states the window as active time minus claim delay, because the code reads the clock before the claim statement; `AnalysisSkew.WindowIsExact` shows that no longer window holds.
- NewsCache.SingleFlight: holds for calls whose look under the lock finds rows; `RefetchIff` is the equivalence.
- NewsStaleness.HitIsRecent: holds for rows settled on within the window; `EntryIsYoungIff` shows that other entries outlive the bound.
- PolicyLinkage.DedupIsSound: needs that no input holds a pair others can mint; beyond that it fails for some lists and holds for others, decided exactly for a pair of documents and any third.
