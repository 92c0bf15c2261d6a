# Verified models of the Overte servers

Dafny models of the stateful cores of the audio mixer, the asset server and the domain server, with
proofs about all their inputs, runs and interleavings. `dafny verify dfyconfig.toml` checks everything.

| module | what it models |
|---|---|
| `WorkerPool` | the barrier of the audio mixer's worker threads as interleaved atomic steps, with resizing |
| `MixStreams` | what the mixer decides about one stream, and the passes over a listener's three vectors |
| `AudioMixer` | the same passes in place: ignore staging, stream creation and removal, throttling, `prepareMix` |
| `IgnoreFlags` | the ignore flags of a listener's streams over whole runs of requests and mixes |
| `MixDecisions` | who is heard after a mix, in terms of the listener, the stream and the ignore sets only |
| `MixerFrames` | the frame loop as seen by one listener, over whole runs, and its link to `prepareMix` |
| `AssetPaths` | asset paths, renames and deletions as functions on mappings |
| `AssetServerModel` | the mapping store, its persisted copy and the asset files, with failing writes and removals |
| `Assignments` | static assignments circulating between queue, pending deployments and nodes |
| `SessionSecrets` | the secrets made up for pairs of nodes |
| `IceUpdates` | coalesced ice-server updates to the directory services, and failover |
| `LocalIds` | 16-bit local IDs found by walking with an odd step |
| `GroupPermissions` | permission rows rewritten per rank while they are packed into the settings |
| `Collections` | an option type and one fact about finite sets |

Code that changes state step by step is a class whose methods are proved to compute a function of the
old state; the laws are lemmas about those functions. The domain server's independent protocols are
classes of their own, each with the fields it uses. I/O results, random choices, fresh UUIDs, the
iteration order of hash tables and which nodes a packet concerns are parameters or nondeterministic
choices, so every statement holds for all of them.

## What the proofs found

Where the code does not do what it is for, it is modelled as it is, with a counterexample and the
exact condition:

- **A restarted stream is lost from the index.** A stream that is stopped and re-created within one
  frame stays live but disappears from every listener's index (`MixerFrames.RestartLosesStream`).
- **A listener that misses a mix keeps a stale index.** That happens to a listener without an active
  socket, and after a stop packet with the null stream ID, which removes the microphone without
  resetting the index, unlike `removeAgentAvatarAudioStream` (`UnmixedFrameGoesStale`). A stream that
  goes meanwhile makes the next mix follow a dangling pointer (`UnmixedStopDangles`,
  `StoppedWhileUnmixedDangles`). A frame keeps the index exact if and only if it stages no live
  stream's key for removal when the listener is mixed, and leaves the set of live streams as it was
  when it is not (`FrameKeepsIndexExactIff`; over runs, `RunKeepsIndexExactIff`).
- **A node that is ignored and unignored between two mixes is misjudged.** A stream that leaves the
  skipped bucket is put back by a later pass (`MixStreams.OverlappingStagesMisplace`); an active one is
  skipped for good although nobody ignores its node (`IgnoredThenUnignoredStaysSilent`). The passes do
  what a one-shot classifier would if and only if every stream is the listener's own, or of a node not
  staged both ways, or not moved to a bucket that a later pass visits (`MultiPassIsOneShotIff`). The
  flags end right if and only if every stream of a node staged both ways had the wrong flag and is
  evaluated once, or the right one and is evaluated twice (`MixSettlesFlagsIff`; over runs,
  `IgnoreFlags.RunKeepsFlagsIff`).
- **Folder renames are always refused.** The file-path pattern of the repository admits no path ending
  in a slash, so the folder branch of `renameMapping` is never reached (`FolderRenamesAreRefused`).
  The branch is proved for every other notion of a valid path; its loop renames the folder if and only
  if no destination lies in the renamed folder and is visited late (`MoveAllRenamesIff`,
  `MoveIntoSubfolderLoses`).
- **The rollback of a failed file rename** reads the overwritten destination through an iterator into
  the slot it has overwritten. It restores the mappings if and only if the paths differ and the
  destination was unmapped or mapped to the same asset (`RollbackRestoresIff`,
  `RollbackLosesDestination`). The renaming of a file that is not mapped dereferences the end
  iterator, so nothing is promised about it.
- **Permission rows with a rank but no group** lose the rank when they are packed: reading back what
  was written restores the rows if and only if there are none and every group row has an ID
  (`RoundTripIff`, `RankWithoutGroupIsLost`).
- `findOrCreateLocalID` asserts fewer than 65533 IDs in use; its loop ends if and only if fewer than
  65535 are (`FindsSomeIff`).

## Model

| member | source | states |
|---|---|---|
| `WorkerPool.RunKeepsInv` | assignment-client/src/audio/AudioMixerWorkerPool.cpp:21-112 | every interleaving of worker steps, rounds and resizes keeps the counters consistent with what the workers are doing, and keeps each worker in a phase that fits the pool's mode |
| `WorkerPool.CountersAreExact` | assignment-client/src/audio/AudioMixerWorkerPool.cpp:39-65 | in every reachable state started minus finished is the number of workers inside their work phase, and when `run` may return all slots were taken and the queue is empty |
| `WorkerPool.NoDeadlock` | assignment-client/src/audio/AudioMixerWorkerPool.cpp:39-65 | in every reachable state the remaining start slots never exceed the idle live workers, and some worker can move until all have finished, after which the pool's owner can, down to a pool of size 0 |
| `WorkerPool.RoundProcessesEachNodeOnce` | assignment-client/src/audio/AudioMixerWorkerPool.cpp:86-112 | whatever the interleaving, when a round ends every pushed node was processed exactly once with the round's function, nothing is queued or working, and the workers took exactly 5 steps per thread and 2 per node, even if one worker took several slots |
| `WorkerPool.WorkerStepKeepsAccount` | assignment-client/src/audio/AudioMixerWorkerPool.cpp:21-37 | queued, in-flight and processed nodes of a round are conserved by every worker step |
| `WorkerPool.WorkerStepCostsOne` | assignment-client/src/audio/AudioMixerWorkerPool.cpp:21-69 | every worker step uses up one unit of a measure on slots, queue and working workers, so a round is finite |
| `WorkerPool.ShrinkErasesExactlyTheExited` | assignment-client/src/audio/AudioMixerWorkerPool.cpp:168-200 | when the shrink loop exits exactly the flagged tail workers have left their loop, only those are erased, and the others are idle and unflagged |
| `WorkerPool.ShrinkCycleLength` | assignment-client/src/audio/AudioMixerWorkerPool.cpp:178-187 | every cycle of the shrink loop ends after exactly 5 steps per live worker |
| `WorkerPool.ShrinkLeavesTheFirst` | assignment-client/src/audio/AudioMixerWorkerPool.cpp:153-204 | from a reachable idle pool, once shrinking to n is begun and whatever the workers and the shrink loop then do, exactly the workers from n on are flagged; when it ends only they have left, and the pool has exactly n threads, the workers at the first n positions, idle and unflagged, and can begin a round if n is positive |
| `WorkerPool.GrowKeepsTheOld` | assignment-client/src/audio/AudioMixerWorkerPool.cpp:160-167 | growing to n gives exactly n threads: the old ones as they were, followed by idle unflagged ones, ready for a round |
| `WorkerPool.RoundLeavesThePool` | assignment-client/src/audio/AudioMixerWorkerPool.cpp:86-112 | a whole round leaves the pool idle with as many threads as before, ready for the next round |
| `MixStreams.MultiPassIsOneShotIff` | assignment-client/src/audio/AudioMixerWorker.cpp:309-468 | the multi-pass update leaves every surviving stream in the bucket and with the flags of a one-shot classifier, whatever order throttling made, if and only if every stream is own, or of a node not staged both ways, or not moved to a bucket that a later pass visits |
| `MixStreams.MultiPassSettles` | assignment-client/src/audio/AudioMixerWorker.cpp:309-468 | whatever is staged, every surviving stream ends exactly once, where its one or two evaluations put it; none is lost or duplicated |
| `MixStreams.UnthrottledOrder` | assignment-client/src/audio/AudioMixerWorker.cpp:321-404 | the exact contents and order of the three vectors after an unthrottled mix, with the streams that are evaluated twice |
| `MixStreams.RefreshSettles` | assignment-client/src/audio/AudioMixerWorker.cpp:243-287 | a second evaluation of `shouldBeSkipped` in a frame changes nothing if and only if the node is not staged both ways (or the stream is the listener's own) |
| `MixStreams.OverlappingStagesMisplace` | assignment-client/src/audio/AudioMixerWorker.cpp:243-287 | a concrete stream for which overlapping staged lists make the passes and the classifier disagree |
| `MixStreams.MixSettlesFlagsIff` | assignment-client/src/audio/AudioMixerWorker.cpp:243-287 | after a mix all ignore flags equal membership in the current sets if and only if every stream of a node staged both ways had the wrong flag and is evaluated once, or the right one and is evaluated twice |
| `MixStreams.IgnoredThenUnignoredStaysSilent` | assignment-client/src/audio/AudioMixerWorker.cpp:258-268 | a concrete active stream, of a node that nobody ignores, that passes and classifier both skip, in this mix and later ones |
| `MixStreams.FlagIsCurrentIff` | assignment-client/src/audio/AudioMixerWorker.cpp:258-268 | for one flag, evaluated once or twice: it is right if and only if its node is not staged both ways or it settles as above |
| `MixStreams.SelectPermuted` | assignment-client/src/audio/AudioMixerWorker.cpp:406-461 | what a pass selects does not depend on the order in which it visits the streams |
| `AudioMixer.FlagsStayCurrentIff` | assignment-client/src/audio/AudioMixerWorker.cpp:181-230 | the same from one mix to the next, including the streams added in between |
| `IgnoreFlags.RunKeepsFlagsIff` | assignment-client/src/audio/AudioMixerClientData.cpp:245-308 | over every run of mixes with any requests in between, the flags are right after every mix if and only if the streams of nodes requested both ways settle in every mix |
| `IgnoreFlags.RequestsKeepAccount` | assignment-client/src/audio/AudioMixerClientData.cpp:245-301 | after any series of requests the staged lists account for the difference between the ignore sets then and now |
| `IgnoreFlags.RunWithoutReversalsKeepsFlags` | assignment-client/src/audio/AudioMixerWorker.cpp:243-287 | in particular the flags stay right over every run in which no node is requested both ways between two mixes |
| `AudioMixer.MixCounts` | assignment-client/src/audio/AudioMixerWorker.cpp:309-468 | for every key: the index holds it as often as before plus as often as it was added, or not at all if it is staged for removal |
| `AudioMixer.AddKeysPlaces` | assignment-client/src/audio/AudioMixerWorker.cpp:181-230 | new streams enter as active, or as skipped if their node is on either side of an ignore |
| `AudioMixer.AudioMixerClientData.ParseNodeIgnoreRequest` | assignment-client/src/audio/AudioMixerClientData.cpp:245-274 | the listener's ignore set and staged lists after a request, keeping the relation between the staged lists, the set at the last mix and the set now |
| `AudioMixer.AudioMixerClientData.IgnoredByNode` | assignment-client/src/audio/AudioMixerClientData.cpp:276-285 | the same for a node that starts ignoring this listener |
| `AudioMixer.AudioMixerClientData.UnignoredByNode` | assignment-client/src/audio/AudioMixerClientData.cpp:287-301 | the same for a node that stops |
| `AudioMixer.AudioMixerClientData.ProcessStreamPacket` | assignment-client/src/audio/AudioMixerClientData.cpp:446-558 | a packet creates its stream exactly if it is new, and no stream ID occurs twice |
| `AudioMixer.AudioMixerClientData.ParseStopInjectorPacket` | assignment-client/src/audio/AudioMixerClientData.cpp:590-601 | exactly the named stream goes, and is reported exactly if it was there |
| `AudioMixer.AudioMixerClientData.CheckBuffersBeforeFrameSend` | assignment-client/src/audio/AudioMixerClientData.cpp:560-588 | exactly the injectors silent for too long go, and are reported; the order of the others stays |
| `AudioMixer.AudioMixerClientData.RemoveAgentAvatarAudioStream` | assignment-client/src/audio/AudioMixerClientData.cpp:360-375 | the microphone goes, and the whole index is reset exactly if there was one |
| `AudioMixer.SegmentedEraseIf.IterateTo` | assignment-client/src/audio/AudioMixerWorker.cpp:147-178 | one segment of the in-place erase leaves its survivors in order behind those of the segments before |
| `AudioMixer.EraseTwoSegments` | assignment-client/src/audio/AudioMixerWorker.cpp:147-178 | two segments with different predicates leave the order-preserving concatenation of the two filtered segments |
| `AudioMixer.AudioMixerWorker.AddStreams` | assignment-client/src/audio/AudioMixerWorker.cpp:181-230 | a new listener gets every existing stream, another one those added in this frame, ignored ones among the skipped |
| `AudioMixer.AudioMixerWorker.ProcessSkipped` | assignment-client/src/audio/AudioMixerWorker.cpp:323-345 | the loop over the skipped streams is the first pass of the specification |
| `AudioMixer.AudioMixerWorker.ProcessInactive` | assignment-client/src/audio/AudioMixerWorker.cpp:347-370 | the loop over the inactive streams is the second pass |
| `AudioMixer.AudioMixerWorker.ProcessActive` | assignment-client/src/audio/AudioMixerWorker.cpp:372-404 | the unthrottled loop over the active streams is the last pass, and renders every active stream that stays |
| `AudioMixer.AudioMixerWorker.ThrottleActive` | assignment-client/src/audio/AudioMixerWorker.cpp:372-461 | the throttled last pass reorders the streams that stay, each before the throttle point at least as loud as each past it, and renders only the former |
| `AudioMixer.AudioMixerWorker.ProcessSegments` | assignment-client/src/audio/AudioMixerWorker.cpp:417-461 | the in-place erase over both segments, whose predicates flag and move streams, is the last pass of the specification in the reordered order |
| `AudioMixer.AudioMixerWorker.PrepareMix` | assignment-client/src/audio/AudioMixerWorker.cpp:309-468 | all passes together, over a context with the listener's own identity, staged lists, solo list and admin right, at most `numToRetain` streams rendered when throttled, the keys of the index, and the staged changes cleared |
| `MixDecisions.ForeignStreamEnds` | assignment-client/src/audio/AudioMixerWorker.cpp:243-468 | where a stream of another node ends, in terms of the sets and flags only: skipped and inaudible if the listener ignores its node, if its node ignores a listener who is no admin, if others are soloed, or without soloing if an ignore box is on and touched; otherwise inactive if nothing was popped or it is silent, else active, and audible if the frame is not throttled; if throttled, exactly if it is retained |
| `MixDecisions.OwnStreamEnds` | assignment-client/src/audio/AudioMixerWorker.cpp:243-468 | the same for the listener's own streams, which are skipped exactly without loopback |
| `MixDecisions.RemovedStreamIsGone` | assignment-client/src/audio/AudioMixerWorker.cpp:232-235 | a stream that a staged removal names is in no bucket after the mix |
| `MixDecisions.ThrottledAreNoLouder` | assignment-client/src/audio/AudioMixerWorker.cpp:289-307 | no stream behind the throttle point is louder, by trailing loudness times gain, than one before it |
| `MixDecisions.OwnVoiceCountsAsOne` | assignment-client/src/audio/AudioMixerWorker.cpp:289-307 | the listener's own audible voice counts as loudness 1 in that order |
| `MixDecisions.ThrottledAudibleIff` | assignment-client/src/audio/AudioMixerWorker.cpp:417-461 | in a throttled frame a stream that is not to be skipped is audible if and only if it is one of the retained ones |
| `MixerFrames.RunKeepsIndexExactIff` | assignment-client/src/audio/AudioMixer.cpp:442-499 | over every run of frames a listener's vectors together hold exactly the keys of all live streams, each once, after every frame, if and only if every frame meets its condition |
| `MixerFrames.RunKeepsIndexExact` | assignment-client/src/audio/AudioMixer.cpp:442-499 | in particular for a continuously mixed listener, if no frame stops and re-creates a stream and local IDs are distinct; after a frame in which it can be mixed and has a microphone the index holds each live stream once and nothing else |
| `MixerFrames.RunKeepsIndexSoundIff` | assignment-client/src/audio/AudioMixer.cpp:442-499 | over every run they hold only keys of live streams, each once, after every frame, if and only if no stream that is held goes in a frame in which the listener is not mixed |
| `MixerFrames.FrameKeepsIndexExactIff` | assignment-client/src/audio/AudioMixer.cpp:442-499 | one frame keeps the index exact if and only if it stages no live stream's key for removal, or, if the listener is not mixed, it has no index or the same streams are live as before |
| `MixerFrames.CleanFrameKeepsIndexExact` | assignment-client/src/audio/AudioMixer.cpp:249-276 | a frame without a restart stages no live stream's key, whatever nodes and avatars it kills |
| `MixerFrames.ListenerStartsOver` | assignment-client/src/audio/AudioMixerClientData.cpp:360-375 | a frame in whose events the listener is killed, or its avatar is and had a microphone, leaves it without an index, so that its next mix enumerates everything |
| `MixerFrames.EventChanges` | assignment-client/src/audio/AudioMixer.cpp:249-265 | a killed node ends all its streams and a killed avatar only its microphone; of the events only those of the listener itself touch its index |
| `MixerFrames.PacketChanges` | assignment-client/src/audio/AudioMixerClientData.cpp:446-601 | audio makes exactly its stream exist and a stop packet ends exactly its stream; what starts is announced and what ends is signalled, once |
| `MixerFrames.RestartLosesStream` | assignment-client/src/audio/AudioMixerWorker.cpp:232-235 | a concrete frame that stops and re-creates a stream and loses it |
| `MixerFrames.UnmixedFrameGoesStale` | assignment-client/src/audio/AudioMixerClientData.cpp:590-601 | a concrete frame in which a null stop packet leaves a dead key in the index |
| `MixerFrames.UnmixedStopDangles` | assignment-client/src/audio/AudioMixerWorker.cpp:232-241 | a stream that goes in a frame in which the listener is not mixed makes its next mix follow a dangling pointer, unless the stream is back, a matching removal is staged or the index was reset |
| `MixerFrames.StoppedWhileUnmixedDangles` | assignment-client/src/audio/AudioMixerWorker.cpp:232-241 | a concrete injector that stops while the listener has no active socket |
| `MixerFrames.NothingDanglesIff` | assignment-client/src/audio/AudioMixerWorker.cpp:232-241 | a mix follows no dangling pointer if and only if every key it looks up and does not drop exists |
| `MixerFrames.PrepareMixIsMixIndex` | assignment-client/src/audio/AudioMixerWorker.cpp:181-230 | what `PrepareMix` ensures about keys is the mix step of the frame model |
| `MixerFrames.MixNeverDangles` | assignment-client/src/audio/AudioMixerWorker.cpp:232-241 | in every frame of a run the mix follows no pointer to a stream that is gone |
| `AssetPaths.MoveAllRenamesIff` | assignment-client/src/assets/AssetServer.cpp:1222-1262 | the folder-rename loop over the copied map gives the rename by prefix replacement if and only if it does not erase a destination it has written, for every visiting order |
| `AssetPaths.MoveAllRenames` | assignment-client/src/assets/AssetServer.cpp:1222-1262 | in particular when neither folder path is a prefix of the other |
| `AssetPaths.MoveIntoSubfolderLoses` | assignment-client/src/assets/AssetServer.cpp:1222-1262 | a concrete rename into a subfolder that loses a mapping |
| `AssetPaths.RenamedIsUnique` | assignment-client/src/assets/AssetServer.cpp:1222-1262 | the specification of a folder rename has exactly one result |
| `AssetPaths.RenamedMoves` | assignment-client/src/assets/AssetServer.cpp:1222-1262 | what was under the old folder is at the new folder with the same rest of the path, and everything else in the result was outside the old folder before |
| `AssetPaths.RenameRoundTrip` | assignment-client/src/assets/AssetServer.cpp:1222-1262 | renaming a folder and back restores the mappings if nothing was overwritten |
| `AssetPaths.FileRenameMoves` | assignment-client/src/assets/AssetServer.cpp:1263-1284 | a renamed asset is at its new path only, all other paths are as before, and renaming back restores the mappings if and only if nothing was overwritten |
| `AssetPaths.RollbackRestoresIff` | assignment-client/src/assets/AssetServer.cpp:1263-1306 | the rollback of a file rename restores the mappings if and only if the paths differ and the destination was unmapped or mapped to the same asset |
| `AssetPaths.RollbackLosesDestination` | assignment-client/src/assets/AssetServer.cpp:1285-1297 | a concrete failed rename that leaves the destination with the wrong hash |
| `AssetPaths.ValidFilePathIsNoFolder` | libraries/networking/src/AssetUtils.h:31-38 | no path that matches the file-path pattern ends in a slash |
| `AssetPaths.ValidFilePathIff` | libraries/networking/src/AssetUtils.h:35 | a path matches the file-path pattern if and only if it starts with a slash, does not end in one, and has no two slashes in a row and no null character |
| `AssetPaths.DeletingIs` | assignment-client/src/assets/AssetServer.cpp:1131-1172 | a path of a delete request takes, trimmed of white space, all mappings under it if it ends in a slash, and else its own mapping only |
| `AssetServerModel.AssetServer.SetMapping` | assignment-client/src/assets/AssetServer.cpp:1068-1106 | memory and disk stay equal; a failure leaves both as they were; invalid input never writes |
| `AssetServerModel.AssetServer.DeleteMappings` | assignment-client/src/assets/AssetServer.cpp:1124-1208 | memory and disk stay equal under any failures, a false return changes nothing, the recursion ends, and nothing is deleted whose hash is still mapped; without failures no unmapped hash keeps its file, and if every mapping has its file and no baked content is orphaned, both stay so |
| `AssetServerModel.AssetServer.RemoveBakedPathsForDeletedAsset` | assignment-client/src/assets/AssetServer.cpp:1112-1122 | the nested deletion of baked content keeps the same, on strictly fewer files |
| `AssetServerModel.AssetServer.DeleteUnmappedFiles` | assignment-client/src/assets/AssetServer.cpp:1175-1199 | the loop over hashes without a mapping, through every nested cascade |
| `AssetServerModel.AssetServer.CascadeWithin` | assignment-client/src/assets/AssetServer.cpp:1112-1208 | a nested cascade is part of the outer one: what it unmapped and deleted is allowed by the outer contract |
| `AssetServerModel.AssetServer.FaultlessWithin` | assignment-client/src/assets/AssetServer.cpp:1112-1208 | a nested cascade without failures discharges exactly one pending hash of the outer one |
| `AssetServerModel.AssetServer.CleanupUnmappedFiles` | assignment-client/src/assets/AssetServer.cpp:532-563 | without failures no properly named file stays unmapped; no mapped file is ever deleted, and a mapping goes only if it is baked content of an unmapped asset whose file is deleted here |
| `AssetServerModel.AssetServer.CleanupBakedFilesForDeletedAssets` | assignment-client/src/assets/AssetServer.cpp:565-595 | without failures, and if every mapped hash has its file, it establishes that everything under `/.baked/<hash>/` belongs to a mapped hash, whatever was orphaned before; whatever fails, a mapping goes only if it is baked content of an asset that no mapping points to, and all others stay as they were |
| `AssetServerModel.AssetServer.CleanupAtSetup` | assignment-client/src/assets/AssetServer.cpp:447-450 | both clean-ups in their order leave no stray file, no mapping without its file and no orphaned baked content, and unmap nothing but baked content of assets that no mapping points to; an empty store is left alone |
| `AssetServerModel.AssetServer.RenameMapping` | assignment-client/src/assets/AssetServer.cpp:1210-1308 | which requests are refused, and for the others exactly the mappings in memory and on disk after success and failure; nothing for a file that is not mapped, where the source is undefined |
| `AssetServerModel.AssetServer.FolderRenamesAreRefused` | assignment-client/src/assets/AssetServer.cpp:1214-1222 | with the repository's file-path pattern a rename of or to a folder is always refused |
| `Assignments.EveryAssignmentIsInOnePlace` | domain-server/src/DomainServer.cpp:1532-1849 | from start-up over every run of requests, connects and kills, each static assignment is once in the queue and held by nobody, or not in the queue and held under its current UUID by exactly one live node |
| `Assignments.StepKeepsInv` | domain-server/src/DomainServer.cpp:1729-1784 | the invariant behind it, kept by every step although the hash of assignments may keep stale keys |
| `Assignments.StaleDeploymentNeverConnects` | domain-server/src/DomainGatekeeper.cpp:401-443 | a deployment whose UUID no queued assignment has any more is refused in every later state of every run |
| `Assignments.DeploymentSucceeds` | domain-server/src/DomainGatekeeper.cpp:401-443 | after a request deploys an assignment, and any run that leaves it queued under the UUID it had, a node of its type that connects with the deployed UUID is accepted, takes it off the queue and holds it under its current UUID |
| `Assignments.RequestServesFirstFit` | domain-server/src/DomainServer.cpp:1786-1817 | a request is served with the first queued assignment of its type, or of any if it asks for any, and of its pool: that moves to the end and is recorded as pending with its own UUID under a fresh one; nothing changes if none fits |
| `Assignments.RegisteredNodes` | libraries/networking/src/LimitedNodeList.cpp:690-783 | a connect adds exactly the new node with what it was registered for, and removes exactly the replaced ones |
| `Assignments.ConnectingUsesUpTheUuid` | domain-server/src/DomainGatekeeper.cpp:401-443 | a successful connect makes all other deployments of the same assignment stale |
| `Assignments.KillingResetsTheUuid` | domain-server/src/DomainServer.cpp:1729-1743 | a killed node's assignment is queued last under a new UUID, and every earlier deployment of it is stale |
| `Assignments.RoundRobin` | domain-server/src/DomainServer.cpp:1786-1817 | with k eligible entries the n-th consecutive identical request deploys entry n modulo k in queue order, and ineligible entries keep their order |
| `Assignments.RequestsKeepAll` | domain-server/src/DomainServer.cpp:1798-1810 | no number of requests loses or duplicates an entry |
| `Assignments.FullRound` | domain-server/src/DomainServer.cpp:1786-1817 | after k requests the queue is the ineligible entries followed by the eligible ones, each in their original order |
| `Assignments.RequestRotates` | domain-server/src/DomainServer.cpp:1786-1817 | one request rotates the eligible entries by one |
| `Assignments.DomainServer.AddStaticAssignmentsToQueue` | domain-server/src/DomainServer.cpp:1819-1849 | start-up queues every assignment once under a new UUID, for every order the sort may produce |
| `Assignments.DomainServer.ProcessRequestAssignment` | domain-server/src/DomainServer.cpp:1034-1094 | the first eligible entry is deployed, moved to the end and recorded as pending under a fresh UUID, or nothing changes |
| `Assignments.DomainServer.DequeueMatchingAssignment` | domain-server/src/DomainServer.cpp:1768-1784 | exactly the first entry with the UUID and type goes, or nothing |
| `Assignments.DomainServer.AddVerifiedNode` | libraries/networking/src/LimitedNodeList.cpp:690-783 | nodes that the new one replaces are killed first, and requeue what they held |
| `Assignments.DomainServer.ProcessConnectRequest` | domain-server/src/DomainGatekeeper.cpp:401-443 | a node is accepted for a deployment if and only if the assignment is still queued under the deployed UUID with its type, and otherwise only as an allowed agent; it is then listed with that UUID in place of the nodes it replaces, and a refusal changes nothing |
| `Assignments.DomainServer.NodeKilled` | domain-server/src/DomainServer.cpp:1729-1743 | the killed node's assignment goes back to the queue |
| `SessionSecrets.RunKeepsOneSecretPerPair` | domain-server/src/DomainServer.cpp:974-993 | over every run of joins, lists, announcements and deaths, A's secret for B is B's for A, and any two packets ever sent carry the same secret if and only if they are about the same two nodes |
| `SessionSecrets.SecretIsNeverRegenerated` | domain-server/src/DomainServer.cpp:974-993 | two nodes that are live at the end of a run have kept the secret they had at its start |
| `SessionSecrets.ListTells` | domain-server/src/DomainServer.cpp:941-968 | after a list the node and every other node that interests it hold their secret for each other, and it was sent the secret; it is sent nothing about any other |
| `SessionSecrets.AnnouncementTells` | domain-server/src/DomainServer.cpp:1008-1031 | after an announcement the new node and every other node it interests hold their secret for each other, and that node was sent it; no other is sent anything |
| `SessionSecrets.KilledLeavesNothing` | domain-server/src/DomainServer.cpp:1745-1751 | visiting only the nodes in the dead one's hash removes every secret held for it, and changes nothing between the others |
| `SessionSecrets.FirstHandoutKeepsInv` | domain-server/src/DomainServer.cpp:978-989 | a fresh secret is used for no other pair that was ever handed one |
| `SessionSecrets.DomainServer.ConnectionSecretForNodes` | domain-server/src/DomainServer.cpp:974-993 | both nodes hold the returned secret, which is the old one if there was one |
| `SessionSecrets.DomainServer.SendDomainListToNode` | domain-server/src/DomainServer.cpp:941-968 | the listing loop hands out a secret per node of interest, and keeps the invariant |
| `SessionSecrets.DomainServer.BroadcastNewNode` | domain-server/src/DomainServer.cpp:1008-1031 | the same for the announcement of a new node to the others |
| `SessionSecrets.DomainServer.NodeKilled` | domain-server/src/DomainServer.cpp:1745-1751 | after the loop no live node holds a secret for the dead one |
| `IceUpdates.RunKeepsValid` | domain-server/src/DomainServer.cpp:1236-1309 | under every mix of heartbeats, acknowledgements, lookups, successes, failures and timers at most one update is outstanding, redo implies in-progress, and with nothing outstanding or pending the last stored value is the current one |
| `IceUpdates.QuietMeansTold` | domain-server/src/DomainServer.cpp:1236-1309 | over every run, whenever no update is outstanding and no retry is pending, the directory services have the address of the server that the domain server is connected to, and no address while it is connected to none |
| `IceUpdates.UpdatesSettle` | domain-server/src/DomainServer.cpp:1282-1309 | while the server in use does not change, there are at most two replies or timers for each pending retry, two for an outstanding update and two for each failed one, and then the directory services have been told |
| `IceUpdates.ServerIsKept` | domain-server/src/DomainServer.cpp:1311-1355 | a server is kept through six unanswered heartbeats, is connected exactly once it has acknowledged one, and the next unanswered heartbeat gives it up for another candidate |
| `IceUpdates.CandidatesAreLookedUp` | domain-server/src/DomainServer.cpp:2048-2118 | over every run the candidates are those of the last lookup that found any, and the server in use was found by some lookup |
| `IceUpdates.TwoSuccessesSettle` | domain-server/src/DomainServer.cpp:1282-1291 | however many changes were coalesced, at most two successes leave the directory up to date |
| `IceUpdates.FailoverPicksUntried` | domain-server/src/DomainServer.cpp:1333-1355 | a failover picks an address that has not failed since the failures were last cleared, which happens only when none is left |
| `IceUpdates.FailoversTryEveryAddress` | domain-server/src/DomainServer.cpp:2063-2118 | over any n failovers with n addresses, every address is tried once before any is tried again |
| `IceUpdates.SomeCandidate` | domain-server/src/DomainServer.cpp:2068-2093 | the list a candidate is picked from is never empty |
| `IceUpdates.DomainServer.SendICEServerAddressToMetaverseAPI` | domain-server/src/DomainServer.cpp:1236-1280 | sends the address of the server if it is connected to one and none otherwise, or only sets the redo flag |
| `IceUpdates.DomainServer.HandleSuccessfulICEServerAddressUpdate` | domain-server/src/DomainServer.cpp:1282-1291 | a success, with the redo it may start |
| `IceUpdates.DomainServer.HandleFailedICEServerAddressUpdate` | domain-server/src/DomainServer.cpp:1293-1309 | a failure, with the redo or the retry timer, whether or not the value was stored |
| `IceUpdates.DomainServer.SendHeartbeatToIceServer` | domain-server/src/DomainServer.cpp:1311-1355 | the mutual recursion with the choice of a candidate ends after at most one failover |
| `IceUpdates.DomainServer.RandomizeICEServerAddress` | domain-server/src/DomainServer.cpp:2063-2118 | filters the failed addresses, picks any of the rest, beats once and sends an update |
| `IceUpdates.DomainServer.ProcessICEServerHeartbeatACK` | domain-server/src/DomainServer.cpp:2000-2009 | resets the count and sends an update exactly on becoming connected |
| `IceUpdates.DomainServer.HandleICEHostInfo` | domain-server/src/DomainServer.cpp:2048-2060 | replaces the addresses unless there are none, and picks a candidate if there was none |
| `LocalIds.VisitsAllIffOdd` | domain-server/src/DomainGatekeeper.cpp:1195-1202 | a walk through Z/2^16 reaches every ID if and only if its step is odd |
| `LocalIds.OddStepIsInjective` | domain-server/src/DomainGatekeeper.cpp:1212-1216 | the first 2^16 positions of the walk are all different |
| `LocalIds.FindsSomeIff` | domain-server/src/DomainGatekeeper.cpp:1210-1216 | the search ends if and only if one of the 2^16 - 1 IDs is free |
| `LocalIds.SameIdIffSameNode` | domain-server/src/DomainGatekeeper.cpp:1204-1222 | over every series of calls two return the same ID if and only if they ask for the same node, and none returns the null ID |
| `LocalIds.FindsKeepsSound` | domain-server/src/DomainGatekeeper.cpp:1218-1220 | the map stays injective, without the null ID, with the IDs in use as its range, and earlier entries stay |
| `LocalIds.DomainGatekeeper.FindOrCreateLocalID` | domain-server/src/DomainGatekeeper.cpp:1204-1222 | terminates and returns the known ID, or the first free one on the walk, and where the walk goes on next |
| `GroupPermissions.SettledIs` | domain-server/src/DomainServerSettingsManager.cpp:583-652 | a group with ranks keeps no row without a rank, each of its rows whose rank order is not 0 carries exactly the removed row's permissions, and owner rows and other groups are unchanged |
| `GroupPermissions.OwnerRowIsKept` | domain-server/src/DomainServerSettingsManager.cpp:583-606 | the row of a rank with order 0 in its group keeps its permissions, and every other ranked row gets those of the row without a rank, if there is one |
| `GroupPermissions.SettledOnce` | domain-server/src/DomainServerSettingsManager.cpp:608-668 | packing what was packed changes nothing |
| `GroupPermissions.PackedListIs` | domain-server/src/DomainServerSettingsManager.cpp:654-667 | the packed list has one entry for each remaining row, and nothing else |
| `GroupPermissions.RoundTripIff` | libraries/networking/src/NodePermissions.cpp:63-90 | reading back what was packed restores the rows if and only if every row with a rank is a group's and every group row has an ID |
| `GroupPermissions.RankWithoutGroupIsLost` | libraries/networking/src/NodePermissions.cpp:63-76 | a concrete row that is read back without its rank |
| `GroupPermissions.UnpackedUnites` | domain-server/src/DomainServerSettingsManager.cpp:697-736 | entries of the same name and rank become one row, which has a permission if and only if one of them has it |
| `GroupPermissions.UnpackedGroup` | libraries/networking/src/NodePermissions.cpp:35-45 | that row belongs to the group of the first of them |
| `GroupPermissions.DomainServerSettingsManager.InitializeGroupPermissions` | domain-server/src/DomainServerSettingsManager.cpp:583-606 | all rows of the group but the owner's get exactly the given permissions |
| `GroupPermissions.DomainServerSettingsManager.PackPermissionsForMap` | domain-server/src/DomainServerSettingsManager.cpp:608-668 | the three nested loops compute the specified rows and list, whatever order the keys come in |
| `GroupPermissions.DomainServerSettingsManager.UnpackPermissionsForKeypath` | domain-server/src/DomainServerSettingsManager.cpp:697-736 | rows with the same key are merged, and a repack is asked for exactly if there were any |

## Left out

- WorkerPool.ShrinkCycleLength: each shrink cycle is proved finite, but that the loop over cycles ends needs fairness of the condition variables, which is not modelled.
- Worker pool: pushing a round's nodes before taking the lock is part of beginning the round, since no worker can move then; condition-variable wake-ups are the guards of the steps; `run` is only begun with at least one thread, as `setNumThreads` clamps to 1.
- AudioMixer.AudioMixerWorker.PrepareMix: `requires` that no stream of the index is gone without a staged removal, since the source would follow a dangling pointer; `MixerFrames.MixNeverDangles` proves it after a sound index and `NothingDanglesIff` says exactly when it holds.
- Frame loop: it is a relation between values, since queued signals and worker threads make its order of effects; how the throttling ratio and `numToRetain` follow from the mix time is not modelled.
- HRTF state, limiter, codecs and all gain arithmetic: only whether a stream is rendered is modelled; a stream's approximate volume is recomputed before every use, so it is a function here and not a field.
- AudioMixer.AudioMixerWorker.ThrottleActive: `std::nth_element` is replaced by an insertion with the same contract; the vectors are sequences, copied into an array for the in-place erase of the two segments.
- AssetServerModel.AssetServer.RenameMapping: renaming a file that is not mapped is undefined behaviour in the source; the model then changes the mappings arbitrarily.
- AssetPaths.Trimmed: white space is ASCII white space.
- Asset server: baking, meta files and their redirects; the order in which `std::map` visits keys, replaced by every order.
- Assignments: parsing the configuration, subnet checks, authentication of agents (`allowed`) and the moving of script files; assignments are identified objects whose UUIDs are kept in one map, so sharing through pointers is not modelled.
- Session secrets: which nodes are of interest to whom, authentication and packet contents beyond the secret.
- Ice updates: the ice-server's own protocol, key pairs and their regeneration, retries of host lookups, and the filtering of lookup results to IPv4.
- GroupPermissions.DomainServerSettingsManager.PackPermissionsForMap: looking up the rank of an unknown group inserts a default rank into the rank tables in the source, which only adds a rank name and order of no effect to the written row; names are taken as already in lower case; verified user names are not kept.
- The custom unpackers that drop rows with malformed addresses, and the version migrations of the settings.
- Agents, the assignment client monitor, the UDP library and the web interface: process, socket and file plumbing.
