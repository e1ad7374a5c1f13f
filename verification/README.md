# Models and proofs for AstrBot's in-memory protocols

A Dafny project that models the parts of AstrBot whose correctness rests on an argument over all runs or all inputs,
and proves those arguments. `dafny verify dfyconfig.toml` checks all of it.

Code between two awaits is one step. Where the source updates an object, a class has its fields and its methods are
proved equal to functions on values; theorems about whole runs are lemmas over sequences of steps of those functions.

| files | what they model |
|---|---|
| `Common.dfy`, `Subsequences.dfy`, `NoRepeats.dfy`, `PyValues.dfy`, `ValuePositions.dfy`, `Freezing.dfy` | options, insertion-ordered dictionaries, subsequences, Python data, its positions and its freezing |
| `HistoryMerge.dfy`, `HistoryCommitter.dfy`, `HistoryProtocol.dfy`, `HistoryExact.dfy`, `HistoryAppend.dfy`, `HistoryAcceptance.dfy` | committing assistant replies to a conversation's history while other turns commit too |
| `OutboundGate.dfy`, `OutboundProtocol.dfy`, `OutboundInvariant.dfy`, `OutboundSteps.dfy`, `OutboundProgress.dfy`, `OutboundExamples.dfy`, `OutboundLeaks.dfy`, `OutboundSends.dfy` | the per-group outbound lock held across a whole agent turn |
| `FileTokens.dfy`, `FileTokenOwnership.dfy`, `FileTokenServing.dfy`, `FileTokenLifetime.dfy` | download tokens and who may delete a file |
| `OpenApiRefs.dfy`, `OpenApiOccurrences.dfy` | pruning an OpenAPI document to what its public paths reach |
| `LinkScanner.dfy`, `LinkTargets.dfy`, `LinkCompleteness.dfy`, `LinkRewriter.dfy`, `SegmentKinds.dfy` | finding and rewriting Markdown links |
| `RateLimits.dfy`, `RateExact.dfy`, `RateRegistry.dfy`, `RegistryBounds.dfy`, `RateLimiterRegistry.dfy` | the token-bucket limiter and its forgetful registry |
| `EventBus.dfy`, `EventBusProtocol.dfy`, `EventBusStops.dfy`, `EventBusCancels.dfy`, `EventBusLiveness.dfy` | the dispatcher, its permits, and stopping a platform |
| `GroupContext.dfy`, `GroupContextRuns.dfy` | group-chat records injected into model requests |
| `CaptionFlights.dfy`, `CaptionProtocol.dfy`, `CaptionCaching.dfy` | single-flight image captions and their cache |
| `GlobPatterns.dfy`, `GlobGrammar.dfy`, `UmoRouter.dfy`, `UmoRanking.dfy`, `UmoRivals.dfy`, `RouterCalls.dfy`, `RouterProtocol.dfy`, `RouterSerial.dfy` | routing a message origin to a configuration, and changing the routes |
| `VersionText.dfy`, `VersionComparator.dfy`, `VersionGrammar.dfy`, `VersionOrder.dfy`, `SemverSpelling.dfy`, `SemverAgreement.dfy` | comparing versions |
| `FolderTree.dfy` | the prompt-folder forest |
| `PluginPage.dfy`, `PluginPageProtocol.dfy`, `PluginPageReplies.dfy` | the plugin-page side of the dashboard message protocol |
| `SchemaNormalizer.dfy`, `SchemaPositions.dfy` | turning "number" into "integer" in a JSON schema |

## Where the code does not do what one might expect

Each of these is a lemma, with the exact condition where there is one.

- A stored history that differs from a turn's base in text only is overwritten (`HistoryMerge.SameShapeDifferentTextIsLost`),
  and so is one whose writer was cancelled, or saw its call raise, after the write took effect
  (`HistoryExact.UnrecordedWriteIsOverwritten`). For one merge
  `HistoryMerge.MergeAppendsIff` has the exact condition, for whole runs `HistoryExact.WriteAppendsIff`.
- A turn with more than one user message is split around other senders' messages (`HistoryMerge.TurnStaysWholeIff`).
- A file that a published token, or one that does not own it, is serving can be deleted under the response
  (`FileTokenOwnership.PublishedFileIsDeletedWhileServed`, `FileTokenOwnership.UnownedFileIsDeletedWhileServed`); a claim
  keeps its file through all other calls exactly if it is answered as owned (`FileTokenServing.ServedFileIsSafeIff`).
- A bare event send without a bound turn takes the outbound lock, and unless the event is bound again nothing releases it
  (`OutboundExamples.BareSendWedgesTheOther`); when locks end up free and tasks can finish is exact in
  `OutboundLeaks.FreeInTheEndIff` and `OutboundProgress.CanFinishIff`. Releasing the owning hold while others of its task
  nest in it drops the lock's handle (`OutboundExamples.ReleasedButTaken`).
- Tasks that send to each other's groups can deadlock on the outbound locks (`OutboundExamples.TwoUmosCanDeadlock`).
- A reference inside a security scheme may dangle (`OpenApiRefs.SecuritySchemeReferencesMayDangle`), exactly when
  `OpenApiRefs.ResolvesAlikeIff` says so.
- The registry's forgetting shows when a capacity takes more than an hour to refill (`RateRegistry.ForgettingIsInvisibleIff`).
- `EventBus.shutdown` beside a live dispatcher can lose track of an execution
  (`EventBusProtocol.ShutdownBesideDispatchForgets`), and a later `stop_platform` misses it
  (`EventBusStops.ReturnsTooEarlyIff`); the lifecycle's order, dispatcher first, excludes that.
- A cancelled caption follower cancels the future that all followers share
  (`CaptionProtocol.CancelledFollowerCancelsTheOthers`).
- An index of -1 injects records and keeps them (`GroupContextRuns.NothingTwiceIff`); `handle_message` never sets one.
- A route that spells out a UMO with an empty or glob segment does not always win for it (`UmoRivals.OwnRouteWinsIff`), and
  may not even match it (`UmoRouter.BracketedRouteMissesItself`).
- Of two overlapping route updates one can be lost although both report success (`RouterProtocol.OverlappingUpdateIsLost`),
  and for updates of different UMOs that each change something that happens exactly when a finished call began before the one that finished just
  before it had finished (`RouterSerial.AllShowIff`).
- The version comparator ignores letter case and every letter v, also inside pre-releases, although its docstring names
  Semver (`SemverAgreement.CaseDoesNotCount`, `SemverAgreement.BuildOfVIsNoVersion`); which versions it compares as section 11
  says is exact in `SemverAgreement.AgreesWithAllPlainIff`.
- The plugin page becomes ready on a context message whose generation is null
  (`PluginPageProtocol.ReadyWithoutGenerationIff`); requests are then refused as not ready.

## Model

| member | source | states |
|---|---|---|
| `HistoryAppend.LegalRunsOnlyAppend` | astrbot/core/assistant_history.py:119-185 | over every legal interleaving of commits, each conversation ends as its first history followed by the units of its accepted commits, each exactly once and in write order; legal is: at most 256 conversations, reloads succeed, and no cancel or failure between a write and its return |
| `HistoryAppend.StepAppends` | astrbot/core/assistant_history.py:126-172 | no step but a write changes any stored history, so skipped and projection-less commits, and failing or cancelled ones apart from a write of theirs that took effect, leave storage alone; a write appends its unit to its own conversation |
| `HistoryAppend.RunKeepsAppendInv` | astrbot/core/assistant_history.py:260-268 | along legal runs receipts of idle conversations describe what is stored, and every merged draft is the stored history plus its unit |
| `HistoryMerge.MergeAppendsIff` | astrbot/core/assistant_history.py:280-322 | for every stored history and every base: the fingerprint merge is append if and only if the base is what is stored, or the reload worked, the receipt is current, the fingerprints of stored history and base differ, and the stored history starts with the base if its fingerprint does |
| `HistoryMerge.MergesExactly` | astrbot/core/assistant_history.py:280-322 | for every input: the new history is stored as it is if its anchor does not fit, nothing could be reloaded, what is stored looks like the base, or the receipt is stale; else what is stored behind the base, or all of it if it does not start like the base, goes before the unit |
| `HistoryMerge.LookAlikeIff` | astrbot/core/assistant_history.py:235-277 | two histories look alike if and only if they are equally long and message by message agree in role, content size and whether tools are called |
| `HistoryMerge.RewrittenHistoryIsExtended` | astrbot/core/assistant_history.py:311-322 | a history that no longer starts like the base is extended by the unit and the base is not brought back |
| `HistoryMerge.MergeConservesMessages` | astrbot/core/assistant_history.py:311-322 | whatever the turn looks like, the merge keeps every message of every sender as often as it was there |
| `HistoryMerge.TurnStaysWholeIff` | astrbot/core/assistant_history.py:315-319 | the turn stays in one piece behind all other histories if and only if the anchor is its first message |
| `HistoryMerge.UnitStartIsTurnStart` | astrbot/core/pipeline/process_stage/method/agent_sub_stages/internal.py:111-118 | the anchor computed from a snapshot is the start of the turn if and only if the turn has exactly one user message and it comes first |
| `HistoryMerge.FindUnitStart` | astrbot/core/pipeline/process_stage/method/agent_sub_stages/internal.py:111-118 | the backwards search finds the last user message |
| `HistoryMerge.SummarizeHistory` | astrbot/core/assistant_history.py:235-257 | the loop computes the fingerprint of every message |
| `HistoryMerge.SameShapeDifferentTextIsLost` | astrbot/core/assistant_history.py:271-309 | an input outside that condition: a stored history that differs from the base in text only is overwritten |
| `HistoryAcceptance.TurnedAwayIff` | astrbot/core/assistant_history.py:131-141 | on every run a numbered commit that gets its lock is turned away if and only if a commit with a larger number was recorded for its conversation before and the counter was kept since; one without a number never is |
| `HistoryAcceptance.CommitGoesThrough` | astrbot/core/assistant_history.py:131-185 | every other queued commit with a free lock can be completed: it stores what the merge gives, for its conversation only, records its number and receipt, and gives the lock up |
| `HistoryAcceptance.LockIsAliveIff` | astrbot/core/assistant_history.py:129-131 | in every reachable state a conversation lock is alive exactly while a commit waits or runs, and held exactly while one has passed it |
| `HistoryAcceptance.BeginDropsExactly` | astrbot/core/assistant_history.py:106-117 | a commit that begins drops the oldest idle counters beyond 4096, as many as are idle, and none in flight |
| `HistoryAcceptance.WhatIsAdded` | astrbot/core/assistant_history.py:143-151 | a new history is the snapshot, the assistant message, and the checkpoint if there is one |
| `HistoryProtocol.CountersNeverGoBack` | astrbot/core/assistant_history.py:106-141 | on every run the conversation locks exclude each other, no sequence counter goes down, and one disappears only while nobody commits to its conversation |
| `HistoryProtocol.AcceptedSequencesNeverDecrease` | astrbot/core/assistant_history.py:131-179 | of two numbered commits accepted for a conversation whose counter is retained, the later has the larger or equal number |
| `HistoryProtocol.StepKeepsLockInv` | astrbot/core/assistant_history.py:119-185 | each step keeps lock ownership, lock references and the order of in-flight sequence numbers |
| `HistoryCommitter.PruneKeepsInFlight` | astrbot/core/assistant_history.py:106-117 | pruning keeps the counters of conversations with a commit in flight, changes no value, and ends within the limit or with in-flight conversations only |
| `HistoryCommitter.DropOldestFacts` | astrbot/core/assistant_history.py:267-268 | at most 256 receipts are kept, and each kept one is unchanged |
| `HistoryCommitter.AssistantHistoryCommitter.PruneLatestSequences` | astrbot/core/assistant_history.py:106-117 | the loop over the ordered table drops just the counters the pruning specification drops |
| `HistoryCommitter.AssistantHistoryCommitter.Open` | astrbot/core/assistant_history.py:129-130 | taking a lock reference and pruning, up to the wait for the lock |
| `HistoryCommitter.AssistantHistoryCommitter.Close` | astrbot/core/assistant_history.py:131-185 | leaving a commit gives up its lock reference and nothing else |
| `HistoryCommitter.AssistantHistoryCommitter.RememberStructureReceipt` | astrbot/core/assistant_history.py:260-268 | the newest receipt goes last and the oldest go first |
| `HistoryCommitter.AssistantHistoryCommitter.Record` | astrbot/core/assistant_history.py:173-184 | an accepted commit records its sequence number, if any, and its receipt |
| `Freezing.FreezeThawRoundTrip` | astrbot/core/assistant_history.py:224-232 | a snapshot comes back from freezing and thawing unchanged if and only if it is plain JSON data, and frozen it holds nothing mutable |
| `HistoryExact.WriteAppendsIff` | astrbot/core/assistant_history.py:119-185 | on every run of well-formed commits, with any number of conversations, failing reloads and writes, and cancellation anywhere: a commit that writes has reloaded before, and its write appends its unit if and only if at that reload the base was stored, or the reload worked, the receipt was current, and the fingerprint did not mistake what is stored for the base or for something that starts with it |
| `HistoryExact.WillAppendOverStoredBase` | astrbot/core/assistant_history.py:295-309 | with a base that the stored history extends, that condition is: nothing was stored since, or the reload worked and the receipt is current |
| `HistoryExact.UnrecordedWriteIsOverwritten` | astrbot/core/assistant_history.py:155-184 | a commit that is cancelled, or whose call raises, after its write took effect leaves no receipt, and a concurrent commit from the same base overwrites what it wrote |
| `OutboundProgress.RunKeepsInv` | astrbot/core/group_sender_concurrency.py:88-213 | every interleaving of binds, holds with and without a bound turn, binds of an event already held without one, sends, aborts and releases keeps the gate tables, the locks and the task states in agreement |
| `OutboundProgress.LockHasOneRecordedOwner` | astrbot/core/group_sender_concurrency.py:123-191 | in every reachable state a UMO lock is taken exactly when it has one recorded owner, a task depth equals its number of live holds, and a task that never held without a turn has exactly the locks of the UMOs it holds |
| `OutboundProgress.FinishedLockIff` | astrbot/core/group_sender_concurrency.py:155-169 | once every task is back at its top level, a lock is taken if and only if some task keeps it with a hold made without a turn, or dropped its handle |
| `OutboundProgress.FinishedIsFreeIff` | astrbot/core/group_sender_concurrency.py:155-169 | all locks are free in the end if and only if no task keeps one so |
| `OutboundLeaks.FreeInTheEndIff` | astrbot/core/group_sender_concurrency.py:155-169 | the same in terms of the run: all locks are free in the end if and only if every hold without a turn that owned a lock was released or handed to a turn, and no owning hold was released while its task held the UMO more than once |
| `OutboundProgress.FinishedIsForgottenIff` | astrbot/core/group_sender_concurrency.py:155-169 | the gate remembers nothing in the end if and only if every hold made without a turn was released; depths count what is left |
| `OutboundProgress.CanFinishIff` | astrbot/core/group_sender_concurrency.py:123-213 | if each task stays on one UMO, what was entered can be finished if and only if no task waits for a lock that a hold without a turn, or a handle dropped because of one, keeps or is about to keep |
| `OutboundProgress.StayedIsClear` | astrbot/core/group_sender_concurrency.py:123-213 | if no task ever held without a bound turn nobody is in the way, so with one UMO per task every reachable state can be driven to completion |
| `OutboundProgress.SomeoneCanMoveOn` | astrbot/core/group_sender_concurrency.py:123-213 | while no hold without a turn is in the way and a task on its own UMO has not finished, some task can take a step that keeps the way clear |
| `OutboundExamples.KeptLockIsNeverFree` | astrbot/core/platform/astr_message_event.py:978-987 | a lock taken by a bare event send without a bound turn stays taken in every run until that hold is released or its event is bound to a turn again |
| `OutboundExamples.BareSendWedgesTheOther` | astrbot/core/platform/sources/wecom_ai_bot/wecomai_event.py:202-207 | a reachable state: a task sends its event again after its turn ended, and another task waits for the lock for ever |
| `OutboundExamples.BoundAgainIsReleased` | astrbot/core/group_sender_concurrency.py:131-169 | if the event is bound again, the end of that turn frees the lock |
| `OutboundExamples.LeakedLockIsNeverFree` | astrbot/core/group_sender_concurrency.py:155-169 | a lock whose handle was dropped on release stays taken in every run |
| `OutboundExamples.ReleasedButTaken` | astrbot/core/group_sender_concurrency.py:155-169 | a reachable state in which a task released every hold, the outermost first, and its lock stays taken |
| `OutboundExamples.TwoUmosCanDeadlock` | astrbot/core/group_sender_concurrency.py:194-213 | with two UMOs per task a deadlock is reachable |
| `OutboundInvariant.OneOwnerPerHeldUmo` | astrbot/core/group_sender_concurrency.py:134-153 | on the stack of a task that never held without a turn, a held UMO has exactly one hold that owns the lock |
| `OutboundSends.NobodyElseSends` | astrbot/core/group_sender_concurrency.py:194-213 | in every reachable state, while a turn of one task holds a UMO, another task neither is inside a send to it nor can send to it past the gate; it waits for the lock; for tasks that never held without a turn |
| `OutboundSends.HoldsOrWaits` | astrbot/core/group_sender_concurrency.py:123-147 | a hold nests if its task holds the UMO in any way, waits for the lock if not, and does nothing for a turn that is held |
| `OutboundSends.LeavesExactly` | astrbot/core/group_sender_concurrency.py:155-191 | leaving takes the frame off, and frees the lock if the frame owns it and, for a turn, no other hold of the task is left |
| `OutboundSends.AbortUndoesHold` | astrbot/core/group_sender_concurrency.py:144-147 | a hold whose wait is given up leaves everything as it was |
| `OutboundSends.AbortUndoesSend` | astrbot/core/group_sender_concurrency.py:173-185 | a send whose wait is given up leaves everything as it was, but for a depth entry of 0 |
| `OutboundGate.SendBeforeHoldLosesTheLock` | astrbot/core/group_sender_concurrency.py:134-138 | holding a turn inside a send on the same UMO leaves the turn recorded as holder without a lock handle |
| `OutboundGate.GroupOutboundGate.HoldTurn` | astrbot/core/group_sender_concurrency.py:131-139 | reservation: nothing for a known event, a nested hold for a task that already holds the UMO, else the event is pending |
| `OutboundGate.GroupOutboundGate.HoldAcquired` | astrbot/core/group_sender_concurrency.py:149-153 | registration after the lock was acquired |
| `OutboundGate.GroupOutboundGate.Release` | astrbot/core/group_sender_concurrency.py:155-169 | releasing a turn lowers the depth and unlocks only with the last hold and a lock handle |
| `OutboundGate.GroupOutboundGate.SendEntered` | astrbot/core/group_sender_concurrency.py:172-176 | a send nests if the task holds the UMO already |
| `OutboundGate.GroupOutboundGate.SendLeft` | astrbot/core/group_sender_concurrency.py:179-182 | leaving a send lowers the depth and forgets a depth of zero |
| `FileTokenOwnership.StepFacts` | astrbot/core/file_token_service.py:41-225 | every critical section keeps each count equal to the staged plus claimed tokens that own the path, and deletes exactly the owned files it leaves without an owner, once each |
| `FileTokenOwnership.RunDeletesExactlyWhatItOwns` | astrbot/core/file_token_service.py:41-225 | over whole runs only files registered as owned are deleted, and every one of those is owned by a live token or was deleted |
| `FileTokenOwnership.LifetimeDeletesExactlyWhatItOwns` | astrbot/core/file_token_service.py:41-225 | from an empty service: a file is deleted only if some call registered it as owned, and each registered file is deleted or still owned |
| `FileTokenOwnership.OwnedClaimKeepsFile` | astrbot/core/file_token_service.py:190-200 | a claim answered as owned keeps its file through any calls, expiry included, until its own release or the shutdown |
| `FileTokenOwnership.SurvivesCleanupsIff` | astrbot/core/file_token_service.py:41-65 | the next clean-up, whenever it comes, spares a file if and only if a claim in flight owns it or no staged token does |
| `FileTokenServing.ServedFileIsSafeIff` | astrbot/core/file_token_service.py:172-200 | the file a claim answers with is never deleted before the token release or the shutdown, whatever other calls run in any order, if and only if the token owned it and was not published, which is what the answer says |
| `FileTokenServing.UnclaimedIsOvertaken` | astrbot/core/file_token_service.py:41-65 | without a claim of its own token, a file can always be deleted by others: a run that registers it as owned, releases the claims on it and lets everything expire |
| `FileTokenOwnership.ClaimedFileSurvivesIff` | astrbot/core/file_token_service.py:172-193 | if nothing happens in between, the next clean-up, whenever it comes, spares the file a claim answers with if and only if the token owned it and was not published, another claim in flight owns it, or no staged token owned it |
| `FileTokenOwnership.PublishedFileIsDeletedWhileServed` | astrbot/core/file_token_service.py:179-183 | a published snapshot is served without a claim, and the clean-up after its end deletes it |
| `FileTokenOwnership.UnownedFileIsDeletedWhileServed` | astrbot/core/file_token_service.py:185-193 | a file served by a token that does not own it goes when the token that does expires |
| `FileTokenOwnership.ShutdownFacts` | astrbot/core/file_token_service.py:212-225 | shutdown deletes every file that still has an owner, once, and leaves no owner |
| `FileTokenOwnership.ClaimFacts` | astrbot/core/file_token_service.py:172-193 | claiming moves ownership, or releases it if the file is gone; published tokens stay |
| `FileTokenOwnership.ReleaseClaimFacts` | astrbot/core/file_token_service.py:195-200 | releasing a claimed token gives up one owner |
| `FileTokenOwnership.ReleaseKeepsCounts` | astrbot/core/file_token_service.py:53-65 | releasing one owner deletes the file exactly when it was the last |
| `FileTokenLifetime.ServedUntilItEndsIff` | astrbot/core/file_token_service.py:41-193 | after a registration, whatever other calls run, a claim answers with the registered file if and only if there was no shutdown, no clean-up after the token end, and no earlier claim unless it is published; else the token is unknown |
| `FileTokenLifetime.CleanupKeepsIff` | astrbot/core/file_token_service.py:41-51 | a clean-up keeps a staged token, unchanged, if and only if its end is not before now; ownership and publication go or stay with it, and claims stay |
| `FileTokenLifetime.StepKeepsEntry` | astrbot/core/file_token_service.py:72-225 | every critical section keeps the entry of a token or ends it, and only a registration makes one |
| `FileTokens.FileTokenService.CleanupExpiredTokens` | astrbot/core/file_token_service.py:41-51 | the two loops expire exactly the staged tokens past their time |
| `FileTokens.FileTokenService.ReleaseOwnedPath` | astrbot/core/file_token_service.py:53-65 | one owner less, and the file goes at the last one |
| `FileTokens.FileTokenService.CheckTokenExpired` | astrbot/core/file_token_service.py:67-70 | the answer after cleaning up |
| `FileTokens.FileTokenService.Register` | astrbot/core/file_token_service.py:72-97 | a new token after cleaning up, or file-not-found with nothing staged |
| `FileTokens.FileTokenService.RegisterOwnedFile` | astrbot/core/file_token_service.py:106-138 | ownership moves only if the event tracks the file, it exists, and the event lets it go |
| `FileTokens.FileTokenService.ClaimFile` | astrbot/core/file_token_service.py:172-193 | unknown, published, missing and ordinary tokens |
| `FileTokens.FileTokenService.ReleaseToken` | astrbot/core/file_token_service.py:195-200 | a claimed token gives its path up; any other token changes nothing |
| `FileTokens.FileTokenService.ShutDown` | astrbot/core/file_token_service.py:212-225 | all tables are emptied and every counted path is removed in order |
| `OpenApiRefs.CollectUsedRefs` | docs/scripts/update_openapi_json.py:136-149 | the worklist ends on every document and finds exactly the components reachable from the kept paths; it fails if and only if a reachable reference leads into a section that is not a mapping |
| `OpenApiOccurrences.YieldedIffOccurs` | docs/scripts/update_openapi_json.py:69-86 | the generator yields a reference if and only if at some position of the value, through mappings and lists, a mapping has it as its $ref and it has the component prefix |
| `OpenApiOccurrences.PruneToPaths` | docs/scripts/update_openapi_json.py:136-163 | from the kept paths to the output: a component stays, unchanged, if and only if a chain of occurring references leads to it from the paths or it is a security scheme; sections stay with their needed components in order; it fails if and only if a component of a section that is not a mapping is needed |
| `OpenApiOccurrences.OccurrencesResolveAlike` | docs/scripts/update_openapi_json.py:136-163 | every reference that occurs in the kept paths, or in a component kept in a pruned section, resolves in the output as in the input |
| `OpenApiRefs.ResolvesAlikeIff` | docs/scripts/update_openapi_json.py:136-163 | a reference anywhere, in a security scheme for instance, resolves in the output as in the input if and only if its target was missing there too, its section is kept whole, or it can be reached from the kept paths |
| `OpenApiRefs.PrunedComponent` | docs/scripts/update_openapi_json.py:151-163 | a component is in the output exactly if its section is kept whole or it is used, and unchanged |
| `OpenApiRefs.PruneComponents` | docs/scripts/update_openapi_json.py:151-163 | the loop over the sections computes the pruned components |
| `OpenApiRefs.ParseRefIff` | docs/scripts/update_openapi_json.py:89-104 | a reference parses to a section and a name if and only if it is the prefix, a slash-free section, a slash and that name |
| `OpenApiRefs.SuccessorsAreTargets` | docs/scripts/update_openapi_json.py:69-86 | everything a component refers to is among the references of the whole components object, which bounds the worklist |
| `OpenApiRefs.SecuritySchemeReferencesMayDangle` | docs/scripts/update_openapi_json.py:151-155 | references inside security schemes are not followed and may dangle in the output |
| `LinkScanner.SpansAreOrdered` | docs/scripts/sync_docs_to_wiki.py:142-184 | link spans increase and are disjoint, the image look-back included, and each splits into label part, target and closing parenthesis |
| `LinkScanner.IterMarkdownLinks` | docs/scripts/sync_docs_to_wiki.py:142-184 | the generator loop yields the links of the scan |
| `LinkScanner.NextAttempt` | docs/scripts/sync_docs_to_wiki.py:151-184 | one round of the loop: stop, go on, or a link |
| `LinkCompleteness.EveryLinkIsYielded` | docs/scripts/sync_docs_to_wiki.py:142-184 | every inline link, a label that ends at the first bracket joined to a parenthesis and a balanced target, is yielded, unless an earlier bracket takes it in with its yielded link or with its label that leads to no complete target |
| `LinkCompleteness.LinkIsYielded` | docs/scripts/sync_docs_to_wiki.py:142-184 | a first bracket with a label and a complete target yields its link, and the scan goes on behind it |
| `LinkCompleteness.NoTargetGoesOn` | docs/scripts/sync_docs_to_wiki.py:142-184 | a first bracket whose label leads to no complete target: the scan goes on behind the label |
| `LinkCompleteness.NoLabelGoesOn` | docs/scripts/sync_docs_to_wiki.py:142-184 | a first bracket without a label: the scan goes on behind it |
| `LinkCompleteness.YieldedLinkIs` | docs/scripts/sync_docs_to_wiki.py:165-184 | a yielded link starts at its bracket or the exclamation mark before it, and its parts are the text of the page |
| `LinkScanner.FindLabelEnd` | docs/scripts/sync_docs_to_wiki.py:106-121 | the label ends at the first position that closes it |
| `LinkScanner.LabelEndIsFirst` | docs/scripts/sync_docs_to_wiki.py:106-121 | the found position closes the label and no earlier one does |
| `LinkScanner.FindTargetEnd` | docs/scripts/sync_docs_to_wiki.py:124-139 | the loop computes the scan of the target |
| `LinkTargets.TargetEndsAfterBalanced` | docs/scripts/sync_docs_to_wiki.py:124-139 | the target ends at a position if and only if the text before it is balanced, escapes included, and a parenthesis closes it |
| `LinkTargets.PassesBalanced` | docs/scripts/sync_docs_to_wiki.py:124-139 | balanced text is passed at any depth |
| `LinkRewriter.SegmentsCover` | docs/scripts/sync_docs_to_wiki.py:343-371 | the segments concatenate back to the page |
| `LinkRewriter.IterSegments` | docs/scripts/sync_docs_to_wiki.py:343-371 | the two nested loops compute the segments |
| `SegmentKinds.FencedKind` | docs/scripts/sync_docs_to_wiki.py:343-371 | a character inside a fenced match is in a code block |
| `SegmentKinds.UnfencedKind` | docs/scripts/sync_docs_to_wiki.py:343-371 | any other character is inline code if the inline pattern, on the stretch between fenced blocks that holds it, matches over it, and text if not |
| `SegmentKinds.NoEmptyText` | docs/scripts/sync_docs_to_wiki.py:343-371 | no text segment is empty |
| `LinkRewriter.RewriteLinksInSegment` | docs/scripts/sync_docs_to_wiki.py:322-340 | the loop splices the replaced targets into the segment |
| `LinkRewriter.RewriteLinks` | docs/scripts/sync_docs_to_wiki.py:374-393 | only text segments are rewritten |
| `LinkRewriter.RewritingChangesOnlyTargets` | docs/scripts/sync_docs_to_wiki.py:322-393 | a page is kept parts and link targets of text segments, and rewriting replaces those targets and nothing else |
| `LinkRewriter.IdentityResolverKeepsPage` | docs/scripts/sync_docs_to_wiki.py:322-393 | a resolver that leaves the page targets alone returns the page unchanged |
| `RateRegistry.ForgettingIsInvisibleIff` | astrbot/dashboard/server.py:201-232 | with fixed settings, dropping idle limiters is invisible on every ordered trace of at most 10,000 clients if and only if a full capacity refills within the time to live |
| `RateRegistry.HandleAgrees` | astrbot/dashboard/server.py:212-232 | one request gets the same decision from the forgetful and the remembering registry and leaves them in agreement |
| `RateRegistry.DrainedClientTellsThemApart` | astrbot/dashboard/server.py:225-232 | a concrete trace that the two registries decide differently when the capacity refills too slowly |
| `RateExact.GrantedIff` | astrbot/dashboard/server.py:188-198 | from a full bucket on, over every ordered sequence of requests: a request is granted if and only if in every stretch that ends with it the grants with this one stay within the capacity plus what its duration refills |
| `RateLimits.WindowBound` | astrbot/dashboard/server.py:188-198 | in every stretch of requests at most the capacity plus what its duration refills is granted |
| `RateLimits.TokensStayInRange` | astrbot/dashboard/server.py:188-198 | tokens stay between zero and the capacity |
| `RateLimits.GrantsAreBounded` | astrbot/dashboard/server.py:188-198 | what is granted and what is left never exceed what was there plus what time refilled |
| `RateLimits.AuthRateLimiter.Acquire` | astrbot/dashboard/server.py:188-198 | refill, stamp both clocks, take one token if there is one |
| `RegistryBounds.EvictsExactly` | astrbot/dashboard/server.py:225-232 | half an hour or more after the last eviction, and only then, exactly the limiters unused for more than an hour go |
| `RegistryBounds.MakesRoomExactly` | astrbot/dashboard/server.py:212-223 | a new client gets a full limiter, and only if 10,000 are there one goes, the least recently used, the first stored of several; a known client drops nobody |
| `RegistryBounds.HandlesExactly` | astrbot/dashboard/server.py:212-223 | the limiter of the client decides the request, no other limiter changes, and there are never more than 10,000 |
| `RateLimiterRegistries.RateLimiterRegistry.EvictExpired` | astrbot/dashboard/server.py:225-232 | collecting the stale keys and deleting them one by one keeps exactly the limiters that are not stale, and only after the interval |
| `RateLimiterRegistries.RateLimiterRegistry.GetOrCreate` | astrbot/dashboard/server.py:212-223 | the known limiter object, or a new one after making room by dropping the least recently used |
| `RateLimiterRegistries.RateLimiterRegistry.Handle` | astrbot/dashboard/server.py:212-223 | one request through the registry of limiter objects is one request of the pure registry |
| `RateLimiterRegistries.DeleteOneStale` | astrbot/dashboard/server.py:230-232 | deleting the first collected key leaves the other collected keys to delete and the same limiters to keep |
| `EventBusProtocol.ReachableBus` | astrbot/core/event_bus.py:81-142 | in every reachable state free permits, executions and a permit in transit add up to max(1, max_concurrency); started, held and queued events keep arrival order, none twice; every accepted event is accounted for; the queue never overflows |
| `EventBusProtocol.PermitsAreConserved` | astrbot/core/event_bus.py:102-116 | permits are conserved along every run, and the dispatcher never waits while one is free |
| `EventBusProtocol.StoppedPlatformStaysSilent` | astrbot/core/event_bus.py:118-142 | after stop_platform returns no execution of the platform is there and none starts until its id is let in again |
| `EventBusProtocol.OrderlyRunsKeepInv` | astrbot/core/event_bus.py:118-233 | if the dispatch task is cancelled before shutdown, pending tasks list every execution in every reachable state |
| `EventBusProtocol.StepKeepsShutdowns` | astrbot/core/event_bus.py:226-233 | when such a shutdown returns no execution is left |
| `EventBusStops.ReturnsTooEarlyIff` | astrbot/core/event_bus.py:118-141 | a stop_platform call can return while an execution of its platform is still there if and only if, when it begins, the pending tasks miss one of that platform |
| `EventBusStops.OnlyForgottenAreMissed` | astrbot/core/event_bus.py:226-233 | in every reachable state only an execution that a shutdown forgot is missing from the pending tasks |
| `EventBusProtocol.ShutdownBesideDispatchForgets` | astrbot/core/event_bus.py:226-233 | shutdown beside a live dispatcher can clear an execution from the table, and a later stop_platform then returns while it runs |
| `EventBusCancels.StopAsksExactly` | astrbot/core/event_bus.py:134-141 | stop_platform asks to cancel exactly the listed executions of the platform that are not over, besides those asked before |
| `EventBusCancels.ShutdownAsksExactly` | astrbot/core/event_bus.py:226-231 | shutdown asks to cancel exactly the listed executions that are not over, besides those asked before |
| `EventBusCancels.StoppedAreAskedUntilDone` | astrbot/core/event_bus.py:118-141 | on every run each of them stays asked until its done callback |
| `EventBusLiveness.EveryEventCanStart` | astrbot/core/event_bus.py:81-116 | in every reachable state with a living dispatcher, executions that end let all queued events be taken, and those of platforms that are not stopped are started in queue order |
| `EventBusLiveness.DrainsExactly` | astrbot/core/event_bus.py:125-133 | stopping a platform takes its own events out of the queue and no other |
| `EventBusProtocol.StepKeepsOrder` | astrbot/core/event_bus.py:81-142 | each step keeps arrival order and the account of accepted events |
| `EventBusProtocol.OthersAreInOrder` | astrbot/core/event_bus.py:125-133 | draining keeps the other platforms in queue order |
| `EventBusProtocol.OthersAndOwn` | astrbot/core/event_bus.py:125-133 | draining keeps every event of another platform and drops every one of its own |
| `EventBuses.EventBus.DispatchOne` | astrbot/core/event_bus.py:83-112 | one round of the dispatcher up to its next await |
| `EventBuses.EventBus.ResumeDispatch` | astrbot/core/event_bus.py:102-112 | after the wait the platform is checked again and a stopped one gives the permit back |
| `EventBuses.EventBus.TaskDone` | astrbot/core/event_bus.py:214-219 | the task leaves the table and its permit goes to a waiting dispatcher or back to the pool |
| `EventBuses.EventBus.Drain` | astrbot/core/event_bus.py:125-131 | the queue is emptied and the other platforms are retained in order |
| `EventBuses.EventBus.Requeue` | astrbot/core/event_bus.py:132-133 | retained events go back in order and never meet a full queue |
| `EventBuses.EventBus.StopPlatform` | astrbot/core/event_bus.py:124-141 | block, drain, re-queue and ask the platform tasks to cancel |
| `GroupContextRuns.InjectedIsSubsequence` | astrbot/builtin_stars/astrbot/group_chat_context.py:350-412 | after any run of one group the injected blocks followed by the stored records are a subsequence of the arrivals, so nothing is injected twice, and the two deques stay aligned |
| `GroupContextRuns.BlockIsExact` | astrbot/builtin_stars/astrbot/group_chat_context.py:384-400 | while the triggering record is stored the block is what precedes it and what remains is what follows |
| `GroupContextRuns.NothingTwiceIff` | astrbot/builtin_stars/astrbot/group_chat_context.py:386-400 | injecting by any index keeps each record at most once, unless the index is -1 and two or more records are stored |
| `GroupContextRuns.IndexIsExact` | astrbot/builtin_stars/astrbot/group_chat_context.py:370-400 | when the triggering record is not stored the remembered index stands for it: within the records, beyond them, negative or missing |
| `GroupContextRuns.ArrivesExactly` | astrbot/builtin_stars/astrbot/group_chat_context.py:358-366 | an arrival goes last, and just as many of the oldest records go as are beyond the limit |
| `GroupContextRuns.ReceivedStores` | astrbot/builtin_stars/astrbot/group_chat_context.py:358-366 | a new record is appended to both deques and the oldest beyond the limit leave both |
| `GroupContext.TrimLeft` | astrbot/builtin_stars/astrbot/group_chat_context.py:547-555 | the loop drops the oldest records and as many ids while there are any |
| `GroupContext.GroupChatContext.HandleMessage` | astrbot/builtin_stars/astrbot/group_chat_context.py:358-366 | the new record and its id go last, the limit is kept, the event remembers both, and no other group changes |
| `GroupContext.GroupChatContext.OnReqLlm` | astrbot/builtin_stars/astrbot/group_chat_context.py:370-400 | the block is cut off, the rest stays, and no other group changes |
| `GroupContext.GroupChatContext.RemoveSession` | astrbot/builtin_stars/astrbot/group_chat_context.py:325-331 | the group is emptied and its record count returned |
| `CaptionProtocol.OneProviderCallPerKey` | astrbot/builtin_stars/astrbot/group_chat_context.py:211-251 | without session removal at most one caller per key leads a provider call |
| `CaptionProtocol.FollowerGetsLeadersOutcomeIff` | astrbot/builtin_stars/astrbot/group_chat_context.py:221-247 | a follower gets its leader outcome if and only if nobody else cancelled the shared future first, or the leader was cancelled too |
| `CaptionProtocol.CancelledFollowerCancelsTheOthers` | astrbot/builtin_stars/astrbot/group_chat_context.py:221-222 | cancelling one follower cancels the future the others share, although the provider then answers |
| `CaptionProtocol.CancelledFollowerFromStart` | astrbot/builtin_stars/astrbot/group_chat_context.py:211-251 | such a run from the start, for every key and caption: three callers, of whom the two followers leave cancelled |
| `CaptionProtocol.NobodyWaitsInVain` | astrbot/builtin_stars/astrbot/group_chat_context.py:216-251 | a pending future has a leader still under way, and a leader that left has settled it |
| `CaptionProtocol.LeaderSettlesAndKeepsOthers` | astrbot/builtin_stars/astrbot/group_chat_context.py:237-251 | every way out of the leader settles its future and takes no other flight out |
| `CaptionProtocol.ReachableFromStart` | astrbot/builtin_stars/astrbot/group_chat_context.py:171-251 | in every reachable state flights, leaders and futures agree, at most max_concurrency calls are out, and at most 512 captions are cached, each the provider answer for its key |
| `CaptionProtocol.LookedKeepsCache` | astrbot/builtin_stars/astrbot/group_chat_context.py:171-180 | looking a caption up keeps the cache invariant and answers only with what the provider said for that key |
| `CaptionProtocol.StoredKeepsCache` | astrbot/builtin_stars/astrbot/group_chat_context.py:182-188 | storing a caption keeps keys unique and the size within 512 |
| `CaptionCaching.StoredIsAnswered` | astrbot/builtin_stars/astrbot/group_chat_context.py:171-188 | a stored caption is answered until its end, whatever other keys are looked up and stored meanwhile, as long as there are fewer such uses than the cache has room for |
| `CaptionCaching.NeverStoredOrExpired` | astrbot/builtin_stars/astrbot/group_chat_context.py:171-188 | nothing is cached with caching off or without a caption, and nothing is answered from its end on |
| `CaptionCaching.LookedExactly` | astrbot/builtin_stars/astrbot/group_chat_context.py:171-180 | a lookup answers with the live caption, drops an expired one and changes no other entry |
| `CaptionCaching.EntersExactly` | astrbot/builtin_stars/astrbot/group_chat_context.py:211-222 | a caller is answered from the cache, follows the flight of its key, or leads a new one |
| `CaptionCaching.RemovesExactly` | astrbot/builtin_stars/astrbot/group_chat_context.py:341-347 | removing a session cancels the pending futures of its own flights and drops its captions, and touches no other group |
| `CaptionFlights.CaptionTable.CacheGet` | astrbot/builtin_stars/astrbot/group_chat_context.py:171-180 | an expired entry goes, a live one becomes the most recent |
| `CaptionFlights.CaptionTable.CachePut` | astrbot/builtin_stars/astrbot/group_chat_context.py:182-188 | the newest entry goes last and the oldest beyond the limit go |
| `CaptionFlights.CaptionTable.ClaimFlight` | astrbot/builtin_stars/astrbot/group_chat_context.py:211-220 | a cached caption, an existing flight or a new one |
| `CaptionFlights.CaptionTable.LeaveFlight` | astrbot/builtin_stars/astrbot/group_chat_context.py:237-251 | settle the future unless done, and take the flight out if it is still the same one |
| `CaptionFlights.CaptionTable.RemoveSession` | astrbot/builtin_stars/astrbot/group_chat_context.py:341-347 | captions and flights of the group go and their pending futures are cancelled |
| `UmoRouter.FirstRankedWins` | astrbot/core/umop_config_router.py:103-121 | sorting and taking the first match gives the matching route of lexicographically greatest priority, the earliest among equals, and nothing exactly when nothing matches |
| `UmoRanking.BestRouteWins` | astrbot/core/umop_config_router.py:74-121 | the configuration is that of the matching route preferred to all others: by platform, then message type, then session, each spelled out before partly before catch-all, then by the number of characters that stand for themselves, then by age; and none if none matches |
| `GlobGrammar.WrittenMatchesIff` | astrbot/core/umop_config_router.py:72 | a text matches a written pattern if and only if it can be cut into one piece for each item: the same character, any character, any text, or a character in, or not in, a set of characters and ranges |
| `GlobGrammar.UnclosedBracketIsItself` | astrbot/core/umop_config_router.py:72 | an opening bracket that nothing can close stands for itself |
| `UmoRouter.UmopConfigRouter.GetConfIdForUmop` | astrbot/core/umop_config_router.py:103-121 | the loop over the ranked routes returns the winner |
| `UmoRivals.OwnRouteWinsIff` | astrbot/core/umop_config_router.py:54-121 | a stored route wins for the UMO it spells, in every valid table, if and only if all three segments are non-empty and free of glob characters |
| `UmoRouter.ExactRouteWins` | astrbot/core/umop_config_router.py:54-121 | a stored route identical to a UMO with three non-empty glob-free segments always wins |
| `UmoRivals.RivalFacts` | astrbot/core/umop_config_router.py:54-101 | for any other UMO there is a different route that matches it and does not rank below its own |
| `UmoRouter.OthersRankLower` | astrbot/core/umop_config_router.py:64-101 | every other route matching such a UMO has a smaller priority |
| `UmoRouter.BracketedRouteMissesItself` | astrbot/core/umop_config_router.py:64-72 | a route whose session part is one character in brackets does not match the identical UMO |
| `RouterCalls.UpdateHandsOver` | astrbot/core/umop_config_router.py:149-157 | an update hands over the table with just its route set if and only if its key has three parts and its configuration is not empty |
| `RouterCalls.DeleteHandsOver` | astrbot/core/umop_config_router.py:171-179 | a deletion hands over the table without just that route, does nothing for an absent one, and refuses a malformed key |
| `RouterCalls.ReplaceHandsOver` | astrbot/core/umop_config_router.py:34-52 | a replacement hands over the new table as it is if and only if all its keys and values are well formed |
| `UmoRouter.UmopConfigRouter.UpdateRoutingData` | astrbot/core/umop_config_router.py:123-136 | all or nothing, if no other call overlaps: invalid data or a failed write leaves the table as it was |
| `UmoRouter.UmopConfigRouter.UpdateRoute` | astrbot/core/umop_config_router.py:138-159 | if no other call overlaps, the route is put in place and, if literal, is what its UMO gets |
| `UmoRouter.UmopConfigRouter.DeleteRoute` | astrbot/core/umop_config_router.py:161-180 | if no other call overlaps, the route goes and the others stay in order |
| `UmoRouter.UmopConfigRouter.CopyWithRoute` | astrbot/core/umop_config_router.py:149-157 | the check and the changed copy before the wait for the write |
| `UmoRouter.UmopConfigRouter.CopyWithoutRoute` | astrbot/core/umop_config_router.py:171-179 | the check and the changed copy before the wait for the write, or nothing to do |
| `UmoRouter.UmopConfigRouter.constructor` | astrbot/core/umop_config_router.py:19-32 | a stored table is taken whole if valid, else the router starts empty |
| `UmoRouter.ValidatedIsAllOrNothing` | astrbot/core/umop_config_router.py:34-52 | validation accepts exactly the tables whose every route is valid, unchanged |
| `RouterProtocol.TablesAreMadeByTheirLines` | astrbot/core/umop_config_router.py:123-180 | over all runs of overlapping updates, deletions and replacements, with failing writes and cancellation: the table, the stored table and each copy in flight are the first table with the edits of just the calls on their line, in order |
| `RouterProtocol.RouteIsThereIff` | astrbot/core/umop_config_router.py:123-180 | on every such run a route is in the table in memory, or in the stored one, if and only if it is the last word on its UMO among the calls on that table line |
| `RouterSerial.AllShowIff` | astrbot/core/umop_config_router.py:138-159 | for updates of different UMOs each of which changes something, with failing writes and cancellation: every finished update has its route in the table if and only if each finished call began after the one before it had finished |
| `RouterSerial.OneAtATimeIsSerial` | astrbot/core/umop_config_router.py:123-180 | for all calls: if each finished call began after the one before it had finished, the table is what the finished calls, as they began, make of the first table one after the other |
| `RouterProtocol.OverlappingUpdateIsLost` | astrbot/core/umop_config_router.py:156-159 | a run from any table: of two overlapping updates both report success and the first one is lost, in memory and in the store |
| `RouterProtocol.MemoryAndStoreCanDiffer` | astrbot/core/umop_config_router.py:156-159 | a run after which the table in memory and the stored one differ, although both updates reported success |
| `GlobPatterns.MatchesIff` | astrbot/core/umop_config_router.py:72 | a text matches a pattern if and only if it can be cut into one piece per token, each accepted by its token |
| `GlobPatterns.LiteralMatchesItself` | astrbot/core/umop_config_router.py:72 | a pattern without glob characters matches itself and nothing else |
| `GlobPatterns.BracketMatchesOneCharacter` | astrbot/core/umop_config_router.py:72 | a set of one character matches that character only |
| `VersionComparator.TotalPreorder` | astrbot/utils/version_comparator.py:14-87 | on all strings the comparison is reflexive, flips its sign with its arguments, and is transitive |
| `VersionComparator.NumbersTransitive` | astrbot/utils/version_comparator.py:46-53 | zero-padded numeric parts compare transitively, strictly if either step is strict |
| `VersionComparator.IdentsTransitive` | astrbot/utils/version_comparator.py:71-87 | mixed numeric and text identifiers compare transitively |
| `VersionOrder.ComparesIff` | astrbot/utils/version_comparator.py:14-87 | on any two texts the comparison is negative if and only if the first is read with lesser numbers, where they first differ with zeros behind the shorter list, or with equal ones and an earlier pre-release; and zero if and only if both are equal |
| `VersionGrammar.ReadIff` | astrbot/utils/version_comparator.py:7-9 | a text is read as a version if and only if it is numerals between dots, then perhaps a hyphen and identifiers between dots, then perhaps a plus sign and one line of metadata |
| `VersionGrammar.VersionIsRead` | astrbot/utils/version_comparator.py:36-44 | such a text is read as its numbers and its identifiers |
| `VersionGrammar.LineBreakAtTheEnd` | astrbot/utils/version_comparator.py:7-9 | a line break at the very end does not count, and any other makes the text no version |
| `VersionGrammar.NormalizesEachCharacter` | astrbot/utils/version_comparator.py:32-34 | normalising works character by character: case goes, and so does every v |
| `SemverAgreement.AgreesWithSection11` | astrbot/utils/version_comparator.py:14-87 | on plain three-part versions the comparison is negative exactly when section 11 of Semantic Versioning 2.0.0 puts the first below the second, and zero exactly when they are the same but for build metadata |
| `SemverAgreement.AgreesWithAllPlainIff` | astrbot/utils/version_comparator.py:14-87 | a version of any letters agrees with every plain version if and only if its pre-release has no upper-case letter and no v and its build metadata does not vanish, or it is 0.0.0 |
| `SemverAgreement.NoneAgreesWithAll` | astrbot/utils/version_comparator.py:14-87 | no version agrees with every version of any letters |
| `SemverAgreement.CaseDoesNotCount` | astrbot/utils/version_comparator.py:32-34 | 1.0.0-A precedes 1.0.0-a, and the comparison is zero |
| `SemverAgreement.BuildOfVIsNoVersion` | astrbot/utils/version_comparator.py:32-44 | 1.0.0+v is read as no version and compares like 0.0.0 |
| `SemverAgreement.VIsNoVersion` | astrbot/utils/version_comparator.py:32-44 | a pre-release that is the letter v makes the text no version |
| `SemverSpelling.SpelledIsReadAs` | astrbot/utils/version_comparator.py:32-44 | what the parser makes of a spelled version of any letters: identifiers without case and without v, some as numbers, or no version if an identifier or the build metadata vanishes |
| `SemverAgreement.ReadBackIff` | astrbot/utils/version_comparator.py:32-44 | a spelled version is read back as it was if and only if its pre-release is plain and its build metadata does not vanish |
| `SemverAgreement.PrereleaseLessIff` | astrbot/utils/version_comparator.py:65-87 | the loop over identifiers is precedence by first difference, or by being a proper prefix |
| `SemverAgreement.LettersThatDoNotCount` | astrbot/utils/version_comparator.py:32-34 | anywhere in any text a letter v and letter case never influence the comparison |
| `VersionText.DecimalRoundTrip` | astrbot/utils/version_comparator.py:42 | reading a decimal numeral gives its number |
| `VersionText.SplitJoin` | astrbot/utils/version_comparator.py:93 | joining and splitting at dots gives the parts back |
| `FolderTree.ForestContainsExactly` | astrbot/core/prompt_mgr.py:311-342 | the forest holds every folder whose parents lead to a root exactly once and no other, whatever cycles or missing parents there are |
| `FolderTree.ForestIsWellFiled` | astrbot/core/prompt_mgr.py:325-342 | the top level is the roots and the children of every node are all the folders filed under it, each level sorted |
| `FolderTree.SiblingsAreSorted` | astrbot/core/prompt_mgr.py:336 | siblings come sorted by sort order and name, none lost or added, equal keys in their old order |
| `FolderTree.ChainIsShort` | astrbot/core/prompt_mgr.py:335-340 | no parent chain from a root is longer than the folder list, so sorting downwards ends |
| `FolderTree.GetFolderTree` | astrbot/core/prompt_mgr.py:311-342 | every list of folders, repeated ids included, yields the forest of its folder map |
| `FolderTree.BuildForest` | astrbot/core/prompt_mgr.py:326-342 | filing every folder under its parent and sorting from the roots builds the forest |
| `FolderTree.MapIsList` | astrbot/core/prompt_mgr.py:314-323 | with distinct ids the folder map holds the list as it is |
| `FolderTree.SortFolders` | astrbot/core/prompt_mgr.py:335-340 | the recursion sorts each level and terminates |
| `PluginPageProtocol.EveryRequestSettlesOnce` | astrbot/dashboard/plugin_page_sdk.js:160-403 | in every reachable state at most 64 requests are pending, every other request was settled exactly once, timers run exactly for the pending ones, and after close every request is settled |
| `PluginPageProtocol.DecisionsAreFinal` | astrbot/dashboard/plugin_page_sdk.js:120-403 | the pinned generation, the disposal, the ready promise and each settled request never change again |
| `PluginPageProtocol.CloseRejectsPending` | astrbot/dashboard/plugin_page_sdk.js:120-151 | closing rejects exactly the pending requests and stops their timers |
| `PluginPageProtocol.ResponseSettlesItsRequest` | astrbot/dashboard/plugin_page_sdk.js:203-239 | a good response settles the request it names with its data and no other |
| `PluginPageProtocol.ReadyWithoutGenerationIff` | astrbot/dashboard/plugin_page_sdk.js:153-202 | the page becomes ready without a pinned generation exactly on a valid context message whose generation is null |
| `PluginPageReplies.ClosesIff` | astrbot/dashboard/plugin_page_sdk.js:153-306 | a message closes the page if and only if it is not of its version, instance and generation, too large, malformed, or a disposal |
| `PluginPageReplies.PinsIff` | astrbot/dashboard/plugin_page_sdk.js:160-178 | the generation is pinned by the first message that introduces one and by nothing else |
| `PluginPageReplies.AnswersExactly` | astrbot/dashboard/plugin_page_sdk.js:182-262 | any other message settles exactly the pending request it answers, with its data, its error or as cancelled, and no other; a context message readies the page |
| `PluginPageReplies.ClosingRejects` | astrbot/dashboard/plugin_page_sdk.js:120-151 | a message that closes the page rejects what was pending, and the ready promise if it was open, as disposed |
| `PluginPageReplies.RequestedExactly` | astrbot/dashboard/plugin_page_sdk.js:340-403 | a request stays pending, with its timer running, if and only if there is no reason against it, and is else rejected at once with the first reason |
| `PluginPageReplies.TimerRejects` | astrbot/dashboard/plugin_page_sdk.js:373-389 | a timer rejects its request as timed out and touches no other |
| `PluginPageProtocol.StepKeepsInv` | astrbot/dashboard/plugin_page_sdk.js:120-403 | each step keeps pending, timers and settlements in agreement |
| `PluginPages.PluginPage.HandlePortMessage` | astrbot/dashboard/plugin_page_sdk.js:160-306 | every branch of the message handler |
| `PluginPages.PluginPage.Request` | astrbot/dashboard/plugin_page_sdk.js:340-403 | the refusals, the registration, and the rejection when posting fails |
| `PluginPages.PluginPage.RejectAllPending` | astrbot/dashboard/plugin_page_sdk.js:120-126 | the loop rejects and forgets every pending request in order |
| `PluginPages.PluginPage.Close` | astrbot/dashboard/plugin_page_sdk.js:128-151 | closing happens once |
| `SchemaPositions.RetypedIff` | scripts/napcat/normalize_ob11_event_schema.py:44-104 | at every position of the document: a mapping is of type integer afterwards if and only if it was before, or it is a schema of type number whose enum lists integers only or that is a property named like a count or an id |
| `SchemaPositions.PassAt` | scripts/napcat/normalize_ob11_event_schema.py:66-104 | everywhere in the document the pass does what it does to a value in the role of that place: a schema with or without a property name, or a mapping of schemas |
| `SchemaNormalizer.Idempotent` | scripts/napcat/normalize_ob11_event_schema.py:66-104 | a second run changes nothing and returns zero |
| `SchemaNormalizer.OnlyRetypes` | scripts/napcat/normalize_ob11_event_schema.py:66-104 | the run turns a type from number to integer and changes nothing else in the tree, and its count is the number of such places |
| `SchemaNormalizer.CountIsZeroIff` | scripts/napcat/normalize_ob11_event_schema.py:66-104 | the count is zero if and only if the tree is unchanged |

## Left out

- `HistoryAppend.LegalRunsOnlyAppend`: states append for runs in which reloads succeed, no commit is cancelled or fails between its write and its return, bases were stored during the run, turns have one leading user message, and there are at most 256 conversations; `HistoryExact.WriteAppendsIff` drops all of these but the leading user message, and `HistoryMerge.TurnStaysWholeIff` says what happens without it.
- History sanitising is the identity; token usage and run metadata are not carried; history messages are mappings.
- `OutboundProgress.CanFinishIff`: does not say in which order waiting tasks get a lock, because the lock manager is not part of this model; any order is allowed, and a finishing run chooses one.
- `OutboundProgress.RunKeepsInv`: covers turns driven by one task with properly nested binds, sends that enter the gate through `serialize_group_outbound`, and events held without a turn by one task each; two tasks sharing one turn or event are not modelled, nor is a second turn bound for an event while its first is still bound. An event bound again keeps its UMO. Releasing a hold made without a turn is an action of its own because the gate offers it; in the repository only the end of a bound turn does it.
- `FileTokens.FileTokenService.Register`: takes clock readings, the existence of the file and the fresh token as parameters; `register_snapshot`'s copying and unlinking of the snapshot and the translation of file URIs are left out.
- File deletion is a log of removed paths; that a removal may fail on disk is not modelled.
- `OpenApiRefs.CollectUsedRefs`: starts from the references of the kept paths; which paths and tags are kept (lines 116-134) is a filter that would add easy members. The dictionary of name sets is one set of pairs.
- `LinkRewriter.IterSegments`: takes the two regular expressions as any functions giving ordered, disjoint spans; resolving a target to a page name is any function from text to text.
- `RateLimits.WindowBound`: uses real numbers for floats. The registry theorems take one capacity and rate for all clients, as the middleware does between settings changes.
- `RateLimiterRegistries.RateLimiterRegistry.Handle`: the limiter's own lock is never held across an await, so acquiring is one step; HTTP handling around it is left out.
- `EventBusProtocol.ReachableBus`: whether an event finds a scheduler is a parameter; session isolation, which keeps the platform id, tracing and the registries stopped after the gather are left out.
- Waking a waiting queue producer and the exact interleaving of `asyncio` callbacks are any order in which done callbacks run after their task ended and before a gather over it resumes.
- `GroupContext.GroupChatContext.OnReqLlm`: stops where the lock is released; formatting the block and resolving lazy captions are left out, and so are message formatting and the caption interval table.
- `CaptionProtocol.ReachableFromStart`: keeps the concurrency limit fixed; the order in which queued leaders get a permit is any order; content hashing is left out.
- `UmoRouter.UmopConfigRouter.UpdateRoutingData`: describes the call when no other one overlaps, like the two below.
- `UmoRouter.UmopConfigRouter.DeleteRoute`: describes the call when no other one overlaps.
- `UmoRouter.UmopConfigRouter.UpdateRoute`: describes the call when no other one overlaps, with a parameter saying whether the write succeeded; overlapping calls are `RouterProtocol`'s and `RouterSerial`'s, where a write takes effect at once or fails without effect. Route keys and configuration ids are strings.
- `SemverAgreement.AgreesWithAllPlainIff`: takes build metadata to be any text on one line after the plus sign.
- `VersionComparator.TotalPreorder`: lower-cases ASCII letters only, and reads numerals of any length, although Python refuses to convert very long ones.
- `FolderTree.GetFolderTree`: children lists are values in a map, so updating the shared dictionaries in place is not captured. Descriptions are not carried.
- `PluginPages.PluginPage.HandlePortMessage`: takes the outcome of the key and type checks as part of the message; object URLs, context listeners and messages sent to the host are left out.
- `SchemaNormalizer.Idempotent`: works on values; that the original rewrites its dictionaries in place is not captured.
- Network, database, Hypercorn, subprocess and logging code, the other NapCat patches, tool catalogues and the dashboard interface are not modelled.
