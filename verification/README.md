# Flagura, modelled and proved in Dafny

Flagura is a feature-flag control plane. This project models its state machines and its evaluator, and
proves what they promise over every input, every run or every reachable state:

- the in-memory store: the flag list with its derived index, config versions, four-eyes change requests,
  and the per-project hash-chained audit log with purge anchors (`Flags`, `FlagEdits`, `Store`,
  `MemoryStores`, `AuditHash`, `AuditChain`, and the theorems in `AuditTheorems`, `StoreTheorems`,
  `Governance`, `StoreEffects`, `Mutations`);
- snapshot backup and restore (`Backup`, `BackupLogs`, `BackupFlags`, `BackupCanaries`);
- the evaluator, its diagnostic trace and its 10,000-slot arithmetic (`Evaluator`, `Quota`);
- the canary scheduler over the store, composed with the evaluator (`Canary`, `CanarySchedulers`,
  `CanaryViews`, `CanaryTheorems`, `CanaryRuns`, `CanaryEffects`);
- the streaming hub and the event-stream text between server and client (`Hub`, `Sse`, `SseLines`), and the
  flag cache that the client keeps from it (`ClientStreams`);
- the SDK circuit breaker and the two telemetry ledgers (`Breakers`, `ClientTelemetry`, `ServerTelemetry`,
  `UniqueUsers`).

How to read it. An object that the Go code updates in place is a class whose methods keep the Go loops and
early returns; each method is proved equal to a step function on a plain state value, and the theorems are
lemmas about those step functions and about runs of them. What a step function does to whom is stated once
more from the outside, in terms of literal values, members and untouched others (`StoreEffects`,
`CanaryEffects`, and the lemmas called `...Effect` and `...Decides` elsewhere). A section that Go executes under a lock is one
step. A run is a sequence of states and a sequence of operations with every state obtained from the one
before. `dafny verify dfyconfig.toml` checks everything.

What is a parameter. SHA-256 and FNV-1a are arbitrary functions; collision-freedom is assumed only where a
lemma names it. Whether a targeting rule matches a context is an arbitrary predicate, so every evaluator
theorem holds for every rule language. Clock readings, generated IDs, rendered log texts and the order in
which Go walks a map are inputs of the operation that reads them. Times are integers in nanoseconds,
percentages and weights are reals, versions and counters are unbounded.

## What the proofs say about the code

Besides what holds, the proofs settle where a promise stops holding, each with the exact condition:

- A purge selects by timestamp. It keeps the chain valid exactly when the survivors are the newest block of
  the chain, or its oldest block while that still reaches the genesis marker (`PurgeValidIff`). A clock that
  goes back breaks it (`BackwardClockBreaksChain`).
- The payload that is hashed is joined with bars. Two entries whose other fields are bar-free never share it,
  although the details are free text (`PayloadInjective`); an entry shares it with some other entry exactly
  when one of its fields, the details included, holds a bar (`AmbiguousIff`, `BarInActorCollides`).
- The record of a purge carries no ID. It is kept exactly when no other entry of the project without ID has
  survived the purge (`PurgeRecordedIff`): a second purge is recorded exactly when it reaches past the
  first one's record (`SecondPurgeRecordedIff`, `SecondPurgeUnrecorded`).
- The head hash protects a verifying chain against rewriting exactly when none of its entries holds a bar
  (`ForgeableIff`); then no other log, whatever it holds, has the same head (`SameHeadSameChain`).
- A snapshot drops an entry whose ID was already exported for an earlier project, and purge records all have
  the empty ID. A restored project has its whole log exactly when no ID was lost so and the limit cut nothing,
  and verifies exactly when nothing of it is left, or the limit cut nothing, the chain reaches genesis and its
  oldest block survived (`AuditRoundTrip`). Recording one purge in each of two projects is enough to break the
  second (`SharedIdBreaksRestore`). It lives on like the original through every later append and purge exactly
  when it was carried whole and never purged (`ChainContinues`).
- The index files a flag under three texts: project and key, project and ID, and the bare ID. A lookup answers
  like the list exactly when every flag filed under its composite text bears the name, or stands before one
  that does (`LookupExactIff`, `IndexExactIff`). So a colon in a project ID misfiles (`ColonInProjectIff`), and
  with colon-free projects a flag ID that spells out another project's composite key answers that project's
  lookups (`ColonInIdIff`, `ColonInIdReachesAnotherProject`). A client that caches the streamed flags of one
  project agrees with that index under the same condition (`LocalIsServerEvaluation`, `LocalDiffersFromServer`),
  and a save keeps the names in order exactly when it is clean (`SaveKeepsTableIff`). In the hub a project ID with a colon sends one
  tenant's flags to another (`ReachedIff`, `ColonReachesAnotherProject`).
- A health rollback takes the flag away from everybody outside the enabling rules exactly when the strategy
  is boolean or percentage; under any other strategy, the empty one included, everybody stays enabled
  (`RollbackReach`).
- A submit succeeds exactly when it has stages and its flag exists; for a missing flag it fails and still
  leaves an active schedule in memory (`FailedSubmitStaysActive`), which a later tick reports as needing
  attention or, if it has no further stage, as completed (`OrphanTick`).
- A change request is applied exactly when it is approved and its flag is found at its base version
  (`AppliesIff`). After a delete and a re-creating save a stale request is applied exactly when the version
  given to that save, one if none, is its base (`StaleRequestAppliesIff`, `RecreatedFlagAcceptsStaleRequest`).
- Clean stream messages are all recovered exactly when each fits the scanner's buffer (`RecoveredIff`); one that
  does not fit ends the client's stream (`OversizeEndsStream`).
- The server's flag bound is passed exactly when a full project meets a new flag by an exposure, which never
  evicts, or by an ingested sample whose eviction scan ended on the empty key (`BoundBreaksIff`). The scan can
  end there exactly when no flag is older than the empty key, and must when all others are younger
  (`IngestBreaksIff`); exposures alone pass every bound (`ExposuresUnbounded`).
- The published number of unique users is exact precisely when nobody beyond the first 10,000 came twice
  (`UniqueUsersExactIff`, `ReturningUsersOvercounted`).
- The bucket a trace reports is the one that decided a percentage rollout; for a multivariate flag it is salted
  differently and agrees only if the two hashes fall into the same slot (`EvaluateFlagWithTrace`).

## Model

| member | source | states |
|---|---|---|
| `AuditHash.PayloadInjective` | pkg/domain/audit.go:25-44 | two entries with bar-free fields and arbitrary details that share a payload have the same predecessor hash and the same content |
| `AuditHash.PayloadText` | pkg/domain/audit.go:30-40 | the hashed text is the nine parts in their order with a bar between any two, to the letter |
| `AuditHash.AmbiguousIff` | pkg/domain/audit.go:25-44 | on top of a bar-free hash, some entry with other content or another predecessor has the same payload if and only if a field of the entry, the details included, holds a bar |
| `AuditHash.BarCollides` | pkg/domain/audit.go:30-44 | every entry with a bar in a field has a different entry that hashes alike on the same predecessor, whatever the hash function |
| `AuditHash.BarInActorCollides` | pkg/domain/audit.go:30-40 | one pair from the collision above: an actor with a bar against an actor without, whatever the hash function |
| `AuditChain.AppendKeepsSound` | pkg/store/memory.go:1268-1303 | an unhashed entry extends its own project's chain by one if its ID is new, keeps it sound and in time order, and changes no other project |
| `StoreEffects.AppendRecords` | pkg/store/memory.go:1268-1303 | an append puts the entry, under its or the default project and at its or the clock's time, in front of the log, unless the project has its ID; then it returns that entry and changes nothing |
| `AuditChain.PurgeKeepsSound` | pkg/store/memory.go:1411-1441 | a purge removes exactly the oldest n entries of its project, re-anchors what is left so that it stays sound, and changes no other project |
| `StoreEffects.PurgeEffect` | pkg/store/memory.go:1411-1441 | exactly the project's entries before the time go, their number is returned, and no other anchor moves |
| `AuditTheorems.SameHeadSameHistory` | pkg/store/memory.go:1335-1381 | two logs that verify with the same head hash: the shorter is the newest part of the longer, if one of them is without bars, the other holding anything, or both are without bars outside the details |
| `AuditTheorems.SameHeadSameChain` | pkg/store/memory.go:1335-1381 | under the same condition two logs that verify from the genesis marker with the same head hash are the same log, lengths included |
| `AuditTheorems.ForgeableIff` | pkg/domain/audit.go:25-44 | another chain of the same length verifies on the same base with the same head if and only if an entry of the chain holds a bar |
| `AuditTheorems.PurgeValidIff` | pkg/store/memory.go:1411-1441 | a purge of a chain that comes from genesis leaves a verifying log if and only if the timestamps put the survivors in the newest block, or in the oldest block of a chain that still reaches genesis |
| `AuditTheorems.FromGenesisDistinct` | pkg/store/memory.go:1276-1301 | a chain that comes from genesis links strictly and repeats no hash, for a collision-free hash |
| `AuditTheorems.BackwardClockBreaksChain` | pkg/store/memory.go:1425-1434 | appends of times 20, 10 and 30 to an empty log and a purge up to 15 leave a log that does not verify |
| `MemoryStores.MemoryStore.PreviousHash` | pkg/store/memory.go:1278-1289 | the hash to link to is the newest entry of the project, else the purge anchor, else genesis |
| `MemoryStores.MemoryStore.AppendAuditLog` | pkg/store/memory.go:1268-1303 | the append step: defaults, link, hash, repeated ID returns the known entry; no other field changes |
| `MemoryStores.MemoryStore.VerifyAuditLogIntegrity` | pkg/store/memory.go:1305-1382 | valid if and only if every link of the project's chain holds; otherwise the count and ID of the oldest broken entry |
| `MemoryStores.VerifyChain` | pkg/store/memory.go:1339-1381 | the same report for any chain and base, by one pass with a running expected hash |
| `MemoryStores.MemoryStore.ExportAuditLogs` | pkg/store/memory.go:1384-1409 | the project's entries in the time window, both ends included, newest first, cut at the limit and complete when below it |
| `MemoryStores.MemoryStore.PurgeAuditLogs` | pkg/store/memory.go:1411-1441 | the purge step on log and anchors, and the number of entries purged |
| `StoreTheorems.AuditStep` | pkg/store/memory.go:1268-1441 | any store operation keeps every project's chain sound, moves the verified total by exactly what it adds and purges, and leaves untouched projects identical |
| `StoreTheorems.AuditRunVerifies` | pkg/store/memory.go:1268-1441 | in every state of every run over any number of projects each log verifies and its total is what was recorded less what was purged |
| `StoreTheorems.AuditRunFromEmpty` | pkg/store/memory.go:1268-1441 | from the empty store each log verifies in every state, and its total is what was recorded less what was purged |
| `StoreTheorems.PurgeInRunValidIff` | pkg/store/memory.go:1411-1441 | in every run from the empty store, with any clocks, a purge after purges of oldest entries leaves a verifying log if and only if the condition of PurgeValidIff holds |
| `StoreTheorems.RunKeepsShape` | pkg/store/memory.go:1268-1303 | in every state of every run all entries have a project, a date and both hashes, and no project has an ID twice |
| `StoreTheorems.PurgeRecordedIff` | pkg/api/handlers_audit.go:239-255 | the handler purges and then records the purge; the record is added if and only if no entry of the project without ID survived the purge, and nothing but the log changes |
| `StoreTheorems.SecondPurgeRecordedIff` | pkg/api/handlers_audit.go:239-255 | after a recorded purge the next one of the project is recorded if and only if it reaches past the time of that record |
| `StoreTheorems.SecondPurgeUnrecorded` | pkg/api/handlers_audit.go:239-255 | one input where it is not: purges of an empty log at 100 up to 50 and at 200 up to 60 leave one record |
| `Flags.NewFlagSnapshot` | pkg/store/memory.go:24-45 | the loop builds the normalised list and the index that IndexIsLastMatch characterises |
| `StoreEffects.NormalisedIs` | pkg/store/memory.go:29-37 | a stored list is the given one with the default project and version one where there was none |
| `Flags.IndexIsLastMatch` | pkg/store/memory.go:29-43 | for colon-free names an indexed lookup gives the last flag of the list that bears the name in the project |
| `Flags.IndexRefinesScan` | pkg/store/memory.go:1233-1246 | with unique names the indexed lookup is the linear scan |
| `Flags.AnswersIff` | pkg/store/memory.go:38-42 | with colon-free project IDs a flag answers a lookup if and only if it bears the name in the project or its ID spells out the composite key |
| `Flags.LookupExactIff` | pkg/store/memory.go:24-45 | one lookup answers like the list if and only if every flag filed under the composite text bears the name or stands before one that does |
| `Flags.IndexExactIff` | pkg/store/memory.go:38-42 | every lookup in every colon-free project answers like the list if and only if no text a flag is filed under, cut at its first colon, names a flag that is not in the list from there on; IDs, keys and stored project IDs may hold colons |
| `Flags.ColonInIdIff` | pkg/store/memory.go:39-42 | with colon-free projects every lookup is right if and only if no flag ID spells out a composite key that neither it nor a later flag bears |
| `Flags.ColonInProjectIff` | pkg/store/memory.go:38-40 | with colon-free keys and IDs every lookup is right if and only if no project ID has a colon |
| `Flags.ColonInIdReachesAnotherProject` | pkg/store/memory.go:41-41 | a flag of project "evil" with ID "acme:checkout" answers the lookup of "checkout" in project "acme" |
| `Flags.ScanAgreesIff` | pkg/store/memory.go:24-45 | when IDs are unique, first and last bearer of every name agree if and only if no name is shared |
| `FlagEdits.RewriteFlags` | pkg/store/memory.go:435-476 | the rewrite loop changes every bearer of the name and nothing else, and returns the bearer as stored |
| `FlagEdits.RemoveFlags` | pkg/store/memory.go:366-377 | the delete loop keeps exactly the flags that do not bear the name, in order |
| `FlagEdits.SaveKeepsTableIff` | pkg/store/memory.go:272-321 | a save keeps names unique and colon-free, IDs present and versions positive if and only if it takes no other flag's name and writes colon-free names and a project |
| `StoreTheorems.IndexRefinementOverRuns` | pkg/store/memory.go:1233-1246 | in every state of every run that never saves onto another flag's name, GetFlagByProject answers like a scan of the list |
| `MemoryStores.MemoryStore.GetFlagByProject` | pkg/store/memory.go:1233-1246 | reads the composite key from the index, with the default project for an empty one |
| `MemoryStores.MemoryStore.SaveFlag` | pkg/store/memory.go:246-334 | the save step: first match by ID or key updates in place, otherwise a new flag in front; blank project refused; no log on restore |
| `MemoryStores.MemoryStore.DeleteFlagByProject` | pkg/store/memory.go:346-402 | the delete step, with the log entry naming the deleted key; nothing changes when no flag bears the name |
| `MemoryStores.MemoryStore.ToggleFlagByProject` | pkg/store/memory.go:412-490 | the toggle step and the flag as it is now stored |
| `MemoryStores.MemoryStore.UpdateRolloutByProject` | pkg/store/memory.go:501-581 | the rollout step with the clamped percentage, and the flag as it is now stored |
| `Mutations.SaveThenFind` | pkg/store/memory.go:272-321 | after a save both names find exactly the saved flag, one version on and with its creation time if it existed, and no other lookup changed |
| `Mutations.DeleteThenFind` | pkg/store/memory.go:366-377 | after a delete the name finds nothing and every other flag is still found unchanged |
| `Mutations.KillSwitchDisablesEveryone` | pkg/store/memory.go:447-454 | after switching an environment off, the evaluator enables no context there, for every rule set and strategy |
| `Mutations.ToggleTwice` | pkg/store/memory.go:447-454 | two toggles without a value give back every configuration |
| `StoreEffects.SaveOkIff` | pkg/store/memory.go:246-258 | a save is refused, and changes nothing, exactly for a project ID of white space only |
| `StoreEffects.SaveIntoIs` | pkg/store/memory.go:260-321 | the list after a save, for any list, its names unique or not |
| `StoreEffects.SaveEffect` | pkg/store/memory.go:260-334 | the first flag of the project with the same ID or key is replaced, keeps ID and creation time and goes one version on, or a new one is put in front; the log entry in full; nothing else changes |
| `StoreEffects.DeleteEffect` | pkg/store/memory.go:346-402 | a delete of an unknown name fails and changes nothing; any other removes exactly its bearers and logs the deleted key; the log entry in full |
| `StoreEffects.RewriteIs` | pkg/store/memory.go:435-476 | the list after an edit, for any list: every bearer is edited and every other flag stays |
| `StoreEffects.ToggleEffect` | pkg/store/memory.go:412-490 | one environment of one flag has its switch set or inverted, one version on; the log entry in full; nothing else changes |
| `StoreEffects.RolloutEffect` | pkg/store/memory.go:501-581 | one environment of one flag has the percentage, kept between 0 and 100, and a boolean strategy below 100 becomes percentage; the log entry in full; nothing else changes |
| `StoreEffects.ApplyEffect` | pkg/store/memory.go:759-813 | the proposal replaces that environment's configuration, the request alone is marked as applied at that time; the log entry in full |
| `StoreEffects.ApplyRefusals` | pkg/store/memory.go:730-792 | which error an apply gives: unknown request, not approved, flag missing, version moved on |
| `StoreEffects.CreateEffect` | pkg/store/memory.go:672-687 | the request is stored as handed in, pending, under its own or the generated ID; no other request changes |
| `StoreEffects.ReviewSucceedsIff` | pkg/domain/workspace.go:98-119 | a review succeeds if and only if the request is there, pending and reviewed by somebody other than its author; it then is approved or rejected as said, in that name, with those comments and time, and nothing else changes; each refusal has its own error |
| `StoreEffects.WorkflowCompletes` | pkg/store/memory.go:672-813 | a request at the flag's version that somebody other than its author approves is applied, and the proposal is then in the flag |
| `StoreEffects.SaveCanaryEffect` | pkg/store/memory.go:1685-1701 | a schedule is stored under its project and flag key with the given update time, and no other is touched |
| `MemoryStores.MemoryStore.CreateChangeRequest` | pkg/store/memory.go:672-687 | the request is stored as pending under its own or a generated ID |
| `MemoryStores.MemoryStore.ReviewChangeRequest` | pkg/store/memory.go:713-728 | the review step; a refused review changes nothing |
| `MemoryStores.MemoryStore.ApplyChangeRequest` | pkg/store/memory.go:730-813 | the apply step with its four refusals; the returned flag is the one stored |
| `MemoryStores.HasConflict` | pkg/store/memory.go:768-771 | true exactly when a bearer of the name has left a positive base version |
| `Governance.RequestStep` | pkg/domain/workspace.go:98-119 | one operation moves a request only along the workflow, only by a review of somebody other than the author or by a successful apply, and never alters the proposal |
| `Governance.FourEyesHistory` | pkg/store/memory.go:672-813 | in every run a decided request was created, then reviewed by somebody other than its author, and an applied one was then successfully applied with the configuration proposed at creation |
| `Governance.ApplyInstalls` | pkg/store/memory.go:759-786 | a successful apply puts the proposed configuration and nothing else into the named flag, one version on |
| `Governance.VersionStep` | pkg/store/memory.go:272-321 | every operation that does not delete or rename a flag leaves it identical or moves it to a strictly later version |
| `Governance.NoLostUpdate` | pkg/store/memory.go:730-813 | when an apply based on version v > 0 succeeds, by key or by ID, the flag is exactly what it was when v was read |
| `Governance.AtMostOneApplies` | pkg/store/memory.go:767-771 | of any number of requests based on the same version of a flag, whether they name it by key or by ID, a run applies at most one |
| `Governance.AppliesIff` | pkg/store/memory.go:730-813 | a request is applied if and only if it exists, is approved, and its flag is found at its base version if it has one |
| `Governance.FailureChangesNothing` | pkg/store/memory.go:730-792 | an operation that reports an error leaves the whole store as it was |
| `Governance.AppliesAfterSaveIff` | pkg/store/memory.go:272-321 | after a save of the flag that the request names, by anybody at any time, the request is applied if and only if the saved version is its base |
| `Governance.StaleRequestAppliesIff` | pkg/store/memory.go:300-310 | for every delete followed by a re-creating save, each with its own actor, clock and log ID, a stale request is applied if and only if the version given to the save, one if none, is its base |
| `Governance.RecreatedFlagAcceptsStaleRequest` | pkg/store/memory.go:300-310 | one input where it is: "checkout" deleted at version 3 and created again with other content as version 3 |
| `Backup.CreateSnapshot` | pkg/store/backup.go:85-118 | per project in order: its flags, and its newest 100,000 log entries without an ID exported before; and every active schedule once |
| `Backup.RestoreSnapshot` | pkg/store/backup.go:174-193 | flags are saved in order without logging, log entries replayed from the oldest with repeated IDs skipped, schedules saved; every save and append reads its own clock |
| `BackupLogs.ReplayIsIdentity` | pkg/store/backup.go:180-188 | replaying hashed entries with distinct IDs into an empty log reproduces the sequence exactly |
| `BackupLogs.ReplayIs` | pkg/store/backup.go:180-188 | of any snapshot's log, repeated IDs or not, exactly the oldest entry of every ID is restored, as it is |
| `BackupLogs.SnapshotHolds` | pkg/store/backup.go:85-102 | the snapshot of distinct projects holds of each the exported part of its chain, in order, but for entries whose ID was exported for an earlier project |
| `BackupLogs.AuditRoundTrip` | pkg/store/backup.go:180-188 | what a restored project gets back, that it is its whole log if and only if no ID was lost to an earlier project and the limit cut nothing, and that it verifies if and only if nothing is left, or an uncut chain from genesis kept its oldest block |
| `BackupLogs.ChainContinues` | pkg/store/memory.go:1276-1301 | any later appends and purges leave a restored project the entries, hashes and base of the original if and only if it was carried whole and never purged |
| `BackupLogs.RunRoundTrip` | pkg/store/backup.go:85-188 | both conditions hold for a snapshot of any state of any run from the empty store whose purges took oldest entries, with any clocks |
| `BackupLogs.SharedIdBreaksRestore` | pkg/store/backup.go:95-99 | one input: purge records without ID in two projects, and the second project, never purged of anything, no longer verifies after the restore |
| `BackupFlags.RestoredList` | pkg/store/backup.go:175-178 | restoring flags into an empty store puts back every one of them, writes no log entry, and keeps the index right |
| `BackupFlags.FlagsRoundTrip` | pkg/store/backup.go:175-178 | for every exported project and name the restored store finds the same flag but for its times, and every evaluation is unchanged |
| `BackupCanaries.CanariesRoundTrip` | pkg/store/backup.go:114-193 | the restored store holds exactly the schedules that were active, changed in nothing but their update time |
| `BackupCanaries.RolloutsResume` | pkg/canary/scheduler.go:160-179 | a new scheduler over the restored store takes up exactly the active rollouts, at their stages |
| `Evaluator.EnabledIff` | pkg/engine/evaluator.go:281-467 | a context is enabled exactly when the kill switch is on and the first matching rule does not disable it or, without one, its bucket lies under the percentage |
| `Evaluator.SwitchedOff` | pkg/engine/evaluator.go:281-323 | a flag that is switched off or not configured there is off for everybody, with the off variant |
| `Evaluator.RuleDecides` | pkg/engine/evaluator.go:325-389 | the first rule that matches decides alone: forced off, the variant it names with the value of the first variant so called, or on |
| `Evaluator.PercentageDecides` | pkg/engine/evaluator.go:298-428 | without a matching rule the hash of user ID, else email, else "anonymous-user", a colon and the flag key, modulo 10,000 in hundredths, decides a percentage rollout; the whole result |
| `Evaluator.VariantDecides` | pkg/engine/evaluator.go:430-455 | without a matching rule a multivariate flag serves the variant in whose interval of the weights the bucket of the asker, salted with the key and a suffix, lies |
| `Evaluator.NoVariants` | pkg/engine/evaluator.go:250-256 | a multivariate flag without variants serves "default" |
| `Evaluator.OtherwiseOn` | pkg/engine/evaluator.go:456-467 | under every other strategy everybody without a matching rule is served |
| `Evaluator.ResultMeans` | pkg/engine/evaluator.go:281-467 | what each reason, variant and value tells about the configuration, the first matching rule and the bucket |
| `Evaluator.EvaluateFlag` | pkg/engine/evaluator.go:281-467 | the early-return loops compute the evaluation that the lemmas speak about |
| `Evaluator.EvaluateFlagWithTrace` | pkg/engine/evaluator.go:580-740 | the tracing evaluator agrees with the fast one on everything, but for the reason when the environment is not configured; steps are numbered from one and are exactly the failed rules before the first match and the check that decided; the trace's bucket is the deciding one under a percentage, and under a multivariate split if and only if both salts give the same slot |
| `Quota.ResolveMultivariateVariant` | pkg/engine/evaluator.go:250-278 | the two accumulating loops pick the first variant whose cumulative effective weight exceeds the bucket |
| `Quota.EverySlotServed` | pkg/engine/evaluator.go:265-277 | with non-negative weights and a positive total every one of the 10,000 slots gets a variant of positive weight and the fallback is never taken |
| `Quota.NoWeightServesLast` | pkg/engine/evaluator.go:258-278 | when no weight is positive every slot falls to the last variant |
| `Quota.VariantQuota` | pkg/engine/evaluator.go:250-278 | a variant's slot count is within one of a hundred times its effective weight, plus at most a tenth for accepted weights that are not normalised; weight zero gets none |
| `Quota.PercentageShare` | pkg/engine/evaluator.go:39-46 | a percentage enables exactly the first slots, and their number is less than one above a hundred times the percentage |
| `Quota.ValidateEnvironmentConfig` | pkg/domain/flag.go:265-282 | accepts exactly the configurations whose multivariate weights are non-negative and sum to 100 within 0.01 |
| `Quota.ValidConfigServes` | pkg/domain/flag.go:265-282 | whatever validation accepts serves every slot with a variant of positive weight |
| `CanaryViews.NextStage` | pkg/domain/canary.go:90-100 | moves exactly the schedules that are due, by one stage; a reported stage is the one the schedule now stands at, began when its predecessor ended and does not end at once; the timing invariant is kept |
| `CanaryViews.TickMovesOneStage` | pkg/domain/canary.go:53-87 | a tick moves a schedule by at most one stage, exactly when it is active and its stage has run its time; a schedule that is not active does not move |
| `CanaryViews.StageStartsLate` | pkg/domain/canary.go:72-87 | no stage starts, and the last does not end, before all durations ahead of it have passed |
| `CanarySchedulers.CanaryScheduler.SubmitSchedule` | pkg/canary/scheduler.go:65-112 | the submit step: first stage written to the store, then the schedule saved; a failed write leaves the in-memory entry |
| `CanarySchedulers.CanaryScheduler.Sync` | pkg/canary/scheduler.go:167-179 | imports exactly the active stored schedules that are unknown or newer, in any order |
| `CanarySchedulers.CanaryScheduler.Tick` | pkg/canary/scheduler.go:181-231 | one schedule's turn: the rollout is written before the stage advances, a failed write needs attention |
| `CanarySchedulers.CanaryScheduler.EvaluateSchedules` | pkg/canary/scheduler.go:160-234 | sync, then every schedule's turn in the given order, and the number of stages advanced |
| `CanarySchedulers.CanaryScheduler.TriggerHealthRollback` | pkg/canary/scheduler.go:237-285 | the rollback step: zero is written first, then the schedule is marked |
| `CanarySchedulers.CanaryScheduler.GetSchedule` | pkg/canary/scheduler.go:115-135 | a schedule known only to the store is taken into memory, whatever its status, and returned |
| `CanarySchedulers.CanaryScheduler.CancelSchedule` | pkg/canary/scheduler.go:138-157 | the schedule leaves memory and store |
| `CanaryTheorems.RolloutSeenFrom` | pkg/store/memory.go:501-581 | a rollout write succeeds on every existing flag and reaches only the flag and environment it names |
| `CanaryTheorems.StepSeen` | pkg/canary/scheduler.go:160-285 | every scheduler operation on whatever schedule is, for any one schedule, no move, one tick or one rollback of it and of its stored configuration |
| `CanaryRuns.SubmitLaunches` | pkg/canary/scheduler.go:65-112 | a submit for an existing flag succeeds, starts at stage zero and the store serves that stage |
| `CanaryEffects.SubmitEffect` | pkg/canary/scheduler.go:65-112 | memory, and the store if the flag exists, hold the submitted schedule with all its stages, targets and durations, defaults filled in, active at stage zero since now; the flag's share is the first target; nothing else changes |
| `CanaryEffects.SyncEffect` | pkg/canary/scheduler.go:160-179 | exactly the store's active schedules that memory lacks or holds older are taken up |
| `CanaryEffects.TickEffect` | pkg/canary/scheduler.go:181-231 | one turn in all its cases: not due, last stage, missing flag, next stage written first; what is saved, and that nothing else changes |
| `CanaryEffects.EvaluationCounts` | pkg/canary/scheduler.go:160-234 | the returned number is that of the schedules taken to a further stage |
| `CanaryEffects.RollbackEffect` | pkg/canary/scheduler.go:237-285 | the share is zero and the schedule rolled back for the reason, or, without the flag, the schedule needs attention; nothing else changes |
| `CanaryEffects.GetEffect` | pkg/canary/scheduler.go:115-135 | memory's schedule, else the store's, is returned and kept in memory |
| `CanaryEffects.CancelEffect` | pkg/canary/scheduler.go:138-157 | the schedule is in neither memory nor store, and nothing else changes |
| `CanaryEffects.CancelledStaysGone` | pkg/canary/scheduler.go:138-285 | over every run a schedule that is gone stays gone until it is submitted again; no tick, sync, lookup or rollback revives it |
| `CanaryRuns.FailedSubmitStaysActive` | pkg/canary/scheduler.go:83-98 | a submit succeeds if and only if it has stages and its flag exists; for a missing flag the store is unchanged but the schedule stays active in memory |
| `CanaryRuns.OrphanTick` | pkg/canary/scheduler.go:181-231 | a due schedule whose flag is missing becomes one that needs attention if it has a further stage and a completed one if not, saved as such, with no flag written |
| `CanaryRuns.WriteBeforeAdvance` | pkg/canary/scheduler.go:181-274 | in every state of every run the stored percentage is the clamped target of the current stage while active, of the last when completed, zero when rolled back, and no other status occurs |
| `CanaryEffects.RolloutServesSubmitted` | pkg/canary/scheduler.go:65-274 | over every run from a successful submit the flag's share is that of the submitted target of the current stage while active, of the last one submitted once completed, and zero once rolled back |
| `CanaryRuns.StageTiming` | pkg/domain/canary.go:53-87 | in every run each stage starts when its predecessor completes and no earlier than creation plus the durations ahead of it |
| `CanaryRuns.TickInRun` | pkg/canary/scheduler.go:181-231 | in every run a tick raises the stage index by one exactly when the stage has run its time, and otherwise changes nothing in the schedule |
| `CanaryRuns.CanaryIsSticky` | pkg/engine/evaluator.go:326-428 | with rising targets whoever is enabled in one state of the run is enabled in every later state that is not rolled back, under every strategy, rule set and hash |
| `CanaryRuns.RollbackReach` | pkg/canary/scheduler.go:256-274 | after a rollback exactly those stay enabled whose first matching rule enables them, and everybody else if and only if the strategy was neither boolean nor percentage |
| `Hub.StreamHub.OnRegister` | pkg/api/stream.go:53-69 | the register step on clients and both subscription keys |
| `Hub.StreamHub.OnUnregister` | pkg/api/stream.go:71-85 | the unregister step: a known client leaves everything and its channel is closed |
| `Hub.StreamHub.OnBroadcast` | pkg/api/stream.go:87-108 | the broadcast step: every target with room gets the message, in any order of the targets |
| `Hub.StreamHub.OnStop` | pkg/api/stream.go:110-118 | the stop step: every live channel is closed once and all subscriptions go |
| `Hub.RegisterEffect` | pkg/api/stream.go:53-69 | a new connection is live, with an open empty channel, under its project and its project and environment; no other is touched |
| `Hub.UnregisterEffect` | pkg/api/stream.go:71-85 | a live client that disconnects is in no set and under no key, its channel is closed and keeps its queue; no other is touched |
| `Hub.StopEffect` | pkg/api/stream.go:110-118 | no client and no subscription is left, and every live channel is closed with its queue |
| `Hub.BroadcastEffect` | pkg/api/stream.go:87-108 | exactly the reached clients with fewer than twenty waiting messages get it at the end of their queue; nothing else changes |
| `Hub.ReceiveEffect` | pkg/api/stream.go:241-258 | a reader takes the oldest waiting message, also from a closed channel |
| `Hub.HubSafety` | pkg/api/stream.go:50-121 | in every state of every run the subscriptions hold exactly the live clients, live channels are open and all others closed, no channel was closed twice or sent to after its close |
| `Hub.PanicsIff` | pkg/api/stream.go:71-118 | in any state whatever a send to a closed channel or a second close would be noticed, so that safety is not vacuous |
| `Hub.LiveIff` | pkg/api/stream.go:50-121 | in every state of every run the live clients are exactly those registered and since neither unregistered nor stopped, read off the trace |
| `Hub.ReachedIff` | pkg/api/stream.go:91-99 | a broadcast reaches exactly the live compatible clients whose project, or project and environment joined by a colon, reads like its project ID |
| `Hub.ColonReachesAnotherProject` | pkg/api/stream.go:62-67 | a project ID with a colon reaches the clients of another project |
| `Hub.DeliveredInOrder` | pkg/api/stream.go:87-108 | in every run with colon-free project IDs what a client received or has queued is, in order, a subsequence of the broadcasts for its own project and a compatible environment |
| `Hub.DeliveredExactly` | pkg/api/stream.go:87-108 | in every run what a client received or has queued is exactly the broadcasts for it between its registration and its unregistration or the stop, except those that met a queue of twenty |
| `Hub.QueuesBounded` | pkg/api/stream.go:241-245 | no channel ever holds more than its twenty messages |
| `Sse.RoundTrip` | pkg/api/stream.go:140-154 | the client recovers exactly the events and payloads that were printed, pings in between |
| `SseLines.FrameText` | pkg/api/stream.go:237-262 | an event and a ping as they go over the wire, to the letter |
| `SseLines.LineMeans` | pkg/client/stream.go:229-270 | what each kind of line does to the event read so far, the size limit included |
| `SseLines.OtherLineEndings` | pkg/client/stream.go:226-241 | an event with CRLF line endings and no blanks after the colons is recovered all the same |
| `SseLines.SeveralDataLines` | pkg/client/stream.go:243-252 | a payload over several data lines is put together |
| `Sse.CutAnywhere` | pkg/client/stream.go:224-271 | if the connection breaks anywhere, exactly the events whose frames arrived whole have been dispatched |
| `Sse.OversizeEndsStream` | pkg/client/stream.go:224-226 | a message that does not fit the buffer, by its name or its payload, is lost together with everything after it |
| `Sse.RecoveredIff` | pkg/client/stream.go:224-271 | clean messages are all recovered if and only if each of them fits the buffer |
| `ClientStreams.StreamClient.UpdateFlags` | pkg/client/stream.go:25-50 | the cache becomes exactly the received flags under key and ID; the reported keys are those ChangedIff characterises |
| `ClientStreams.StreamClient.Listen` | pkg/client/stream.go:224-271 | the loop dispatches what the line parser says, and each readable flag event, in order, replaces the cache |
| `ClientStreams.CacheIsLookup` | pkg/client/stream.go:28-36 | the cache of one project's flags finds by any name what the server's list gives for it |
| `ClientStreams.ChangedIff` | pkg/client/stream.go:32-34 | a key is reported if and only if a received flag of that key was not cached under it with the same update time |
| `ClientStreams.CacheConverges` | pkg/client/stream.go:224-271 | whatever the cache held and whatever was printed before, after a readable "flags_init" or "flags_update" and until the next one the cache is exactly its flags |
| `ClientStreams.OtherEventsIgnored` | pkg/client/stream.go:257-268 | pings, events of any other name and unreadable payloads leave the cache as it was |
| `ClientStreams.UpdatesFollowInit` | pkg/api/stream.go:123-140 | after one "flags_init" and any number of "flags_update" the cache is the last one's flags |
| `ClientStreams.LocalIsServerEvaluation` | pkg/client/stream.go:25-36 | after such a stream of one project's flags out of a store of any, the cache finds under a name what the server's index of all projects finds if and only if every flag filed under the composite text bears the name or stands before one that does; then both evaluate alike |
| `ClientStreams.LocalIsServerLookup` | pkg/client/stream.go:25-36 | colon-free keys and IDs meet that condition for every colon-free name |
| `ClientStreams.LocalDiffersFromServer` | pkg/store/memory.go:38-42 | one input where it fails: another tenant's flag with ID "acme:checkout" answers on the server and not in the cache |
| `Breakers.CircuitBreaker.State` | pkg/client/circuit_breaker.go:48-58 | reading the state is the cooling step |
| `Breakers.CircuitBreaker.Allow` | pkg/client/circuit_breaker.go:61-80 | a request is allowed exactly when the circuit is then not open |
| `Breakers.CircuitBreaker.OnSuccess` | pkg/client/circuit_breaker.go:83-98 | the success step |
| `Breakers.CircuitBreaker.OnFailure` | pkg/client/circuit_breaker.go:101-112 | the failure step |
| `Breakers.TripsExactlyAtThreshold` | pkg/client/circuit_breaker.go:101-112 | in every run the breaker leaves the closed state exactly at the failure that makes threshold failures in a row |
| `Breakers.OpenRefusesUntilCooled` | pkg/client/circuit_breaker.go:61-80 | while open a request is let through exactly when a full cooldown has passed since the latest failure of the trace |
| `Breakers.ClosesExactlyAfterTwoProbes` | pkg/client/circuit_breaker.go:83-98 | in every run it closes again exactly at the second of two half-open successes with no other outcome between them |
| `Breakers.HalfOpenIsFragile` | pkg/client/circuit_breaker.go:101-112 | while half-open exactly a failure opens it again, and looking or asking changes nothing |
| `Breakers.OpenIsLeftByLooking` | pkg/client/circuit_breaker.go:48-80 | the open state is left exactly by looking or asking after a full cooldown since the latest failure, and only to half-open |
| `Breakers.ChangesAreDated` | pkg/client/circuit_breaker.go:48-112 | the time it keeps is that of the latest change of state, or of the latest failure while open |
| `Breakers.StartsClosed` | pkg/client/circuit_breaker.go:32-45 | it starts closed, with five failures and ten seconds where no positive number is given |
| `ClientTelemetry.TelemetryBuffer.Record` | pkg/client/telemetry.go:85-118 | the recording step with both capacity checks |
| `ClientTelemetry.TelemetryBuffer.BeginFlush` | pkg/client/telemetry.go:126-149 | the counters are swapped out into a payload, or there is nothing to send |
| `ClientTelemetry.TelemetryBuffer.FlushRefused` | pkg/client/telemetry.go:171-181 | a refused flush gives its drop count back |
| `ClientTelemetry.RecordEffect` | pkg/client/telemetry.go:85-118 | a call counts exactly its own variant of its own flag, or the drop counter when there is no room; no other count changes |
| `ClientTelemetry.SwapEffect` | pkg/client/telemetry.go:126-149 | a flush takes all counts and drops, and sends nothing exactly when there are none |
| `ClientTelemetry.ClientLedger` | pkg/client/telemetry.go:85-184 | over every interleaving of recording with overlapping flushes, calls equal buffered plus sent evaluations plus every drop account, each flag's evaluations are the sum of its variants, and both bounds hold |
| `ServerTelemetry.FindOldest` | pkg/api/handlers_telemetry.go:88-96 | the scan ends on a held flag that no other flag is older than, the empty key included; on nothing only if nothing is held |
| `ServerTelemetry.IngestBatch` | pkg/api/handlers_telemetry.go:80-127 | the ingest loop over one project, with every victim an oldest flag at its moment |
| `ServerTelemetry.TelemetryAggregator.Ingest` | pkg/api/handlers_telemetry.go:63-130 | a batch changes its own project only, every victim was an oldest flag at its moment, the ledger stays balanced, the bound is kept for non-empty keys, and the count is that of the events with evaluations |
| `ServerTelemetry.TelemetryAggregator.RecordExposure` | pkg/api/handlers_telemetry.go:133-177 | an exposure counts once in its own project, with the users it tells apart, and keeps the ledger balanced; an incomplete one changes nothing |
| `ServerTelemetry.SampleEffect` | pkg/api/handlers_telemetry.go:80-127 | a sample adds its evaluations to its flag and hour, its counts to its variants and its unique users, and marks the time; no other flag or hour changes |
| `ServerTelemetry.ExposureEffect` | pkg/api/handlers_telemetry.go:133-177 | a complete exposure counts once for its variant, flag and hour; any other changes nothing |
| `ServerTelemetry.EvictionEffect` | pkg/api/handlers_telemetry.go:97-99 | exactly the victim goes, and nobody for the empty key |
| `ServerTelemetry.CountingIs` | pkg/api/handlers_telemetry.go:80-130 | the returned number is that of the events with evaluations |
| `ServerTelemetry.ServerLedger` | pkg/api/handlers_telemetry.go:63-177 | over any mix of ingested events and exposures the grand total is the sum of the 24 hourly points and of live and evicted flag totals |
| `ServerTelemetry.BatchBalances` | pkg/api/handlers_telemetry.go:80-127 | a whole batch keeps the totals balanced |
| `ServerTelemetry.BatchKeepsBound` | pkg/api/handlers_telemetry.go:80-127 | a whole batch of non-empty keys, with victims the scan could have ended on, keeps the bound |
| `ServerTelemetry.IngestBounded` | pkg/api/handlers_telemetry.go:85-101 | runs that only ingest non-empty keys never hold more than 1000 flags |
| `ServerTelemetry.BoundBreaksIff` | pkg/api/handlers_telemetry.go:63-177 | any operation takes a project past the bound if and only if the project is full and a new flag comes by a complete exposure, or by a sample whose scan ended on the empty key |
| `ServerTelemetry.IngestBreaksIff` | pkg/api/handlers_telemetry.go:88-99 | in terms of the stored times: some walk of the scan lets a full project grow if and only if no flag is older than the empty key, and every walk does if and only if all others are younger |
| `ServerTelemetry.ExposuresUnbounded` | pkg/api/handlers_telemetry.go:143-152 | for every n there is a run of n exposures after which the project holds n flags |
| `UniqueUsers.UniqueUsersExactIff` | pkg/api/handlers_telemetry.go:154-170 | over every run that does not evict the flag the published unique users of a variant are never fewer than those exposed and reported, and exactly as many if and only if nobody but the first 10,000 different users of the trace came twice |
| `UniqueUsers.ReturningUsersOvercounted` | pkg/api/handlers_telemetry.go:163-170 | any more than 10,000 different users who each come twice are overcounted |

## Left out

- The SQL stores (`pkg/store/postgres.go`, `pkg/store/sqlite.go`): their behaviour is that of the database.
- Rule matching inside `EvaluateRule` (operators, case folding, number parsing, regular expressions): an arbitrary predicate here, so that nothing depends on it.
- HTTP handlers (but for what the purge handler does to the log), sessions, OAuth, OIDC, passwords, email, rate limiting, statistics, benchmarks, the command line and the views.
- Users, organisations, API keys and experiment events in the store, and their backup.
- `Reset` of the store and lookups across projects (`GetFlag`, `ListFlags`).
- Reads that run between the two stores of one locked section, such as a snapshot read during an apply: a locked section is one step.
- Pointer aliasing between a stored canary schedule and the scheduler's copy of its stage list: both are values here; every write to the list is followed by a save within the same step.
- Several schedulers over one store: the runs are those of one scheduler, which alone writes.
- Floating-point rounding of percentages, weights and buckets: reals here.
- Wrap-around of 64-bit versions and counters.
- JSON and gzip encoding: payloads and snapshots are the values themselves.
- Evaluator.EvaluateFlag: latency fields and the raw hash text of the result are not modelled.
- Decoding a stream payload is an arbitrary function of its text; the snapshot file that the client writes and the calls of its listeners are left out.
- The scanner's limit is counted in characters, not in encoded bytes.
- Flags.IndexExactIff: says nothing of lists that hold a flag without ID, which no save leaves behind: a save gives such a flag a generated one.
- Hub.StreamHub.OnBroadcast: the hub's own inbox of 100 broadcasts, which drops when full, is in front of the modelled operations.
- ClientTelemetry.TelemetryBuffer.Record: changing the capacity bounds while running is not modelled.
