# Carl in Dafny

A model of the parts of Carl, an agent runtime, whose correctness does not show in any one function, with
proofs about them. `dafny verify dfyconfig.toml` checks everything. Each component takes the form of its
source: classes and loops where the code updates state, functions where it only computes, a step relation
where several tasks interleave.

| files | component |
|---|---|
| `Disk.dfy`, `ArtifactStore.dfy`, `MapSums.dfy` | the content-addressed artifact store: publication, recovery, quota, garbage collection |
| `Configuration.dfy`, `KernelRequests.dfy`, `KernelTrace.dfy`, `KernelRouting.dfy`, `Kernel.dfy`, `KernelJournal.dfy`, `KernelActor.dfy` | the interactive path of the kernel actor: routing, effects, approvals, turns, configuration |
| `Encoding.dfy`, `DirectoryManifest.dfy`, `CandidateEvidence.dfy` | verification evidence: canonical encodings, the directory manifest, candidate reconstruction |
| `ServiceStream.dfy` | delivery of durable events by pollers that hand the stream over to each other |
| `CodexLogin.dfy` | the login lifecycle of the Codex authentication session |
| `EvaluationMetrics.dfy`, `MetricsByPosition.dfy` | metrics and normalized replay of a task |
| `MemoryRanking.dfy`, `MemoryContext.dfy` | ranking and packing of memories |
| `ServerSentEvents.dfy`, `Frames.dfy` | incremental readers: event streams, JSON-RPC frames, sidecar lines |
| `Prelude.dfy` | types shared by all |

## What the environment may do

- Any system call, append, provider call or publication may fail; an append is atomic. The history of the
  kernel, requests included, and the log of the login are what the outside can observe.
- A crash keeps any subset of the directory changes since the last successful directory sync, in order. File
  contents survive once the file was synced. A failed sync changes nothing. Temporary names are never reused.
- The store consumes an approval at most once. Session, turn, tool-call and approval ids are new when
  they are made; provider contexts are arbitrary.
- Replies of the owner service, notifications and account reads of the sidecar, chunk boundaries and
  scheduling are arbitrary. A future may be dropped at every suspension point.
- The digest, its text form, tokenizing, the age of a time stamp, JSON printing and parsing and UTF-8 checking
  are parameters, and nothing is assumed of them, injectivity of the digest included. Only the results about
  streams of frames speak of frames whose text is one line.
- Integers are unbounded except where a width matters, which is then written out: quota counters, `u32`
  metrics, the saturating stream generation, the saturating score, `u64` totals and length prefixes.

## Where a stated property needed its exact condition

- Strictly increasing notifications hold for any number of hand-overs the stream generation can still count,
  and not for one more: the counter saturates, two pollers then own the stream (`NeverRepeatsExactly`).
- The reported size of a memory context equals its rendered size exactly when there was a candidate: without
  one the code reports 0 although an empty list renders to two bytes (`ReportedSizeExactly`).
- A written frame is read back as itself exactly when its text is one line that parses back to its value; a
  value the parser refuses, for instance beyond its nesting limit, is written all the same and is a protocol
  violation for the reader (`WrittenFrameReadsBack`).
- A stream of server-sent events departs from section 9.2.6 of the WHATWG HTML Standard: the end of the body
  flushes what was collected, and a lone carriage return does not end a line. The reference follows the code.
- A session gets unrestricted access only from somebody entitled, and a remote selection counts exactly when
  the session has a channel: one made for a channel in a restricted mode can be switched remotely without a
  confirmation (`UnrestrictedTurnGrounded`, `SelectionExactly`).
- A crash can bring back an unreferenced object after a successful collection exactly when an unsynced change
  is left: a call that drops something syncs, a call with nothing to drop leaves what an earlier failed call
  did not sync (`RetainOnly`, `ComesBackExactly`).

## Model

| member | source | states |
|---|---|---|
| `ArtifactStores.ArtifactStore.CrashAndReopen` | src/artifacts/store.rs:172-295 | From every state a crash can hit (one per system call of put, retain_only and recovery) and every subset of unsynced directory changes, reopening succeeds exactly when the directory is within its entry cap, unless a system call fails; then no temporary name is left, every canonical name is a sealed single-link object with that hash, the counters equal a recount, the objects are those the crash left, and every acknowledged object not dropped is there with its bytes |
| `ArtifactStores.ArtifactStore.CrashAt` | src/artifacts/store.rs:172-295 | A crash at any recorded state, with any surviving subset of unsynced changes, leaves a directory recovery can handle |
| `ArtifactStores.ArtifactStore.Put` | src/artifacts/store.rs:172-268 | Ok acknowledges the object and adds exactly it to the store read as a map; every exit, error exits included, leaves the map unchanged or with exactly this object added, the counters equal to a recount, and no quota newly passed; if no system call fails, Ok exactly when the length is admissible and the object is there already, readable and equal, or new and within both quotas |
| `ArtifactStores.ArtifactStore.Publish` | src/artifacts/store.rs:199-268 | The publication protocol keeps the crash invariant at every step and the counters at every exit, and only a failed system call stops it |
| `ArtifactStores.ArtifactStore.Stage` | src/artifacts/store.rs:199-227 | Creates, writes, syncs, seals, re-reads; on failure the store read as a map is as before |
| `ArtifactStores.ArtifactStore.Prepare` | src/artifacts/store.rs:203-219 | A prepared temporary is durable, sealed and holds exactly the bytes; nothing else changed |
| `ArtifactStores.ArtifactStore.LinkCanonical` | src/artifacts/store.rs:229-232 | The hard link adds exactly one object to the store read as a map |
| `ArtifactStores.ArtifactStore.CountPublished` | src/artifacts/store.rs:229-232 | The counter update after the hard link never fails and stays within both quotas |
| `ArtifactStores.ArtifactStore.Settle` | src/artifacts/store.rs:251-267 | After sync, unlink of the temporary and second sync the object is durable and re-read equal; only a failed system call stops it |
| `ArtifactStores.ArtifactStore.Abandon` | src/artifacts/store.rs:220-227 | A failed publication leaves the map and, unless the removal failed, the counters as they were |
| `ArtifactStores.ArtifactStore.CreateFile` | src/artifacts/store.rs:199-201 | A new private file under a name never used before |
| `ArtifactStores.ArtifactStore.RemoveTemporary` | src/artifacts/store.rs:745-803 | Removes one temporary name or records that it could not |
| `ArtifactStores.ArtifactStore.SyncContainingDirectory` | src/artifacts/store.rs:805-857 | A successful sync makes the visible directory the durable one; a failed one changes nothing |
| `ArtifactStores.ArtifactStore.ReadNamedVerified` | src/artifacts/store.rs:327-385 | If no system call fails, returns the bytes exactly from a sealed single-link object of admissible length whose bytes hash to the requested id |
| `ArtifactStores.ArtifactStore.ReadExistingPublication` | src/artifacts/store.rs:311-326 | Returns exactly what the store read as a map holds under the id, and fails without a failed system call exactly when the object is not readable |
| `ArtifactStores.ArtifactStore.AddUsage` | src/artifacts/store.rs:52-71 | Adds one object and its length exactly when both quotas admit it |
| `ArtifactStores.ArtifactStore.SubtractUsage` | src/artifacts/store.rs:84-95 | Subtracts one object and its length exactly when neither counter would underflow |
| `ArtifactStores.ArtifactStore.InspectDirectory` | src/artifacts/store.rs:397-435 | A successful scan counts and lists exactly the directory; on a directory without temporaries it fails only for a failed system call or the entry cap |
| `ArtifactStores.ArtifactStore.RemoveVerifiedCanonical` | src/artifacts/store.rs:437-469 | Removes exactly the named object after re-verifying it, or nothing; without temporaries only a failed system call or a wrong length stops it |
| `ArtifactStores.ArtifactStore.Drop` | src/artifacts/store.rs:283-290 | Removal and counter move together; the subtraction cannot underflow |
| `ArtifactStores.ArtifactStore.Sweep` | src/artifacts/store.rs:283-293 | Up to the first failure only unreferenced objects go; success leaves exactly the referenced ones; without a drop the disk is untouched |
| `ArtifactStores.ArtifactStore.RetainOnly` | src/artifacts/store.rs:272-295 | Success leaves exactly old canonical objects that are referenced, and no crash brings back one this call dropped; an error never drops a referenced one; counters equal a recount at every exit; without leftover temporaries it succeeds exactly within the entry cap unless a system call fails |
| `ArtifactStores.ArtifactStore.CollectCrashAndReopen` | src/artifacts/store.rs:272-295 | After a successful collection, any crash and a reopening, the store holds none of the dropped objects, and exactly the collected ones if any was dropped |
| `ArtifactStores.DroppedGone` | src/artifacts/store.rs:291-293 | Once the directory is synced, only what is in the store can come back |
| `ArtifactStores.SyncedSurvives` | src/artifacts/store.rs:291-293 | A crash with nothing unsynced leaves the store as it was |
| `Disk.ComesBackExactly` | src/artifacts/store.rs:805-857 | Some crash shows a name if and only if it is in the synced directory or an unsynced change adds it |
| `ArtifactStores.ArtifactStore.RecoverOne` | src/artifacts/store.rs:484-573 | Finishes or undoes one interrupted publication; only a failed system call stops it; the map of canonical objects is untouched |
| `ArtifactStores.ArtifactStore.Recover` | src/artifacts/store.rs:471-573 | Leaves no temporary name and the same map; succeeds exactly within the entry cap unless a system call fails |
| `ArtifactStores.ArtifactStore.Open` | src/artifacts/store.rs:131-138 | Recovery and scan: afterwards every object is clean and the counters equal a fresh recount |
| `ArtifactStores.ArtifactStore.constructor` | src/artifacts/store.rs:99-139 | An empty store satisfies the invariant |
| `ArtifactStores.RecountPublished` | src/artifacts/store.rs:67-71 | Publishing one new object adds one object and its length to a recount |
| `ArtifactStores.RecountDropped` | src/artifacts/store.rs:84-95 | Removing an object takes exactly its length off a recount, which never underflows |
| `ArtifactStores.RecountOfDirectory` | src/artifacts/store.rs:388-395 | Without temporaries the counted map is the whole directory |
| `ArtifactStores.RetainedExactly` | src/artifacts/store.rs:283-290 | Dropping every unreferenced object of a complete listing leaves exactly the referenced ones |
| `ArtifactStores.AcknowledgedPresent` | src/artifacts/store.rs:259-267 | In a crash-safe state every acknowledged object is in the store with its bytes |
| `ArtifactStores.CleanWithoutTemporaries` | src/artifacts/store.rs:471-573 | Once no temporary is left every canonical object is sealed, single-link and hashes to its name |
| `ArtifactStores.CleanEntryPasses` | src/artifacts/store.rs:397-435 | A scan of a recovered directory cannot fail an entry check |
| `Disk.CrashKeeps` | src/artifacts/store.rs:251-261 | The crash invariant survives any subset of unsynced directory changes |
| `Disk.LinkKeeps` | src/artifacts/store.rs:229-232 | Linking a sealed, durable object under its hash keeps the crash invariant |
| `Disk.UnlinkKeeps` | src/artifacts/store.rs:259-261 | Unlinking a temporary or an unacknowledged name keeps the crash invariant |
| `Disk.SetInodeKeeps` | src/artifacts/store.rs:203-213 | Writing a file only its temporary name can reach keeps the crash invariant |
| `Disk.SyncKeeps` | src/artifacts/store.rs:805-857 | A directory sync keeps the crash invariant and the visible directory |
| `Disk.TemporaryLinks` | src/artifacts/store.rs:478-573 | A temporary stands alone or shares its object with exactly the canonical name of its bytes |
| `KernelActors.KernelActor.Run` | src/acp/kernel.rs:642-850 | Over whole runs, for all provider events, requests and failing calls, the history stays acceptable and every session consistent with it; requests are received in order and only a shutdown loses some, at the end; no session has unrestricted access, now or queued, that nobody entitled gave it; every element the provider gives is taken once and in order; the contexts the sessions hold are those the journal says, so the owner of an event is the one session that held its context when it was taken, and for each session that never overflowed, what its turns handled followed by what is queued is exactly the events it owned, once each and in provider order |
| `KernelTrace.NothingAfterTheEnd` | src/acp/kernel.rs:2286-2332 | A turn id has at most one end in the log and no event with that id follows it |
| `KernelTrace.OneAllowPerApproval` | src/acp/kernel.rs:2560-2661 | Two Allows never rest on the same approval |
| `KernelTrace.EveryAllowAccounted` | src/acp/kernel.rs:2337-2412 | Every Allow is for a command or file change whose item was started with that kind and not completed, in a turn not ended, after ToolProposed for its tool call; an approved one comes right after its approval was consumed, that right after an Approve prompt of the session, and the approval was requested before in that turn for that tool call; any other comes right after its authorization in a turn started with full access or bypass, which somebody entitled had given the session before |
| `KernelTrace.RefusedNeverAllowed` | src/acp/kernel.rs:2560-2661 | An effect whose approval was denied is never allowed on it, before or after |
| `KernelTrace.DecisionFollowsPrompt` | src/acp/kernel.rs:2565-2574 | An approval is consumed with the decision the client of the session had just sent: Allow on approve, Deny on deny |
| `KernelTrace.DecidedOnce` | src/acp/kernel.rs:2605-2620 | An approval is decided at most once |
| `KernelTrace.UnrestrictedTurnGrounded` | src/acp/kernel.rs:2663-2759 | A turn with unrestricted access was preceded by who gave it: creation in that mode, a local selection, a permission command where it is trusted, a bypass asked for and then confirmed, a channel admission, or a selection by the channel of the session |
| `KernelTrace.GroundedLater` | src/acp/kernel.rs:2663-2759 | Grounds for a mode are never lost |
| `KernelState.AccessKept` | src/acp/kernel.rs:2663-2759 | What the access of a session rests on stays in the history as it grows |
| `KernelTrace.OneConfigurationPerTurn` | src/acp/kernel.rs:1036-1076 | A turn is started once, with one configuration |
| `KernelTrace.ItemOpenAt` | src/acp/kernel.rs:2155-2174 | An open item has a start of its kind and no later completion |
| `KernelState.ConfigurationStable` | src/acp/kernel.rs:2663-2759 | While a turn stays active the effective configuration is the one its epoch was started with |
| `KernelState.AutomaticAllow` | src/acp/kernel.rs:2337-2412 | After proposal and authorization are logged the automatic Allow is justified |
| `KernelState.ApprovedAllow` | src/acp/kernel.rs:2560-2661 | Right after its approval is consumed the Allow is justified |
| `KernelState.TurnEnded` | src/acp/kernel.rs:2299-2306 | Ending one turn keeps every session consistent with the history |
| `KernelState.ItemsMoved` | src/acp/kernel.rs:2155-2237 | Starting or completing an item keeps the item table equal to what is open in the history |
| `KernelActors.KernelActor.Append` | src/acp/kernel.rs:3359-3378 | An append is atomic: the event is logged or nothing changed |
| `KernelActors.KernelActor.CloseTurn` | src/acp/kernel.rs:2299-2306 | Logging a terminal event ends the turn; a failed append leaves it |
| `KernelActors.KernelActor.FailActiveTurn` | src/acp/kernel.rs:3380-3398 | The session has no active turn afterwards, whether or not the append succeeded |
| `KernelActors.KernelActor.StartItem` | src/acp/kernel.rs:2155-2174 | Records the item under a new tool call and in the history, and reports a duplicate |
| `KernelActors.KernelActor.CompleteItem` | src/acp/kernel.rs:2195-2237 | Takes the item out of the table and returns what it was started as |
| `KernelActors.KernelActor.AuthorizeFullAccessEffect` | src/acp/kernel.rs:2337-2412 | Success leaves proposal, authorization and Allow, in this order; other kinds and items not open with that kind are denied and only that |
| `KernelActors.KernelActor.PauseForApproval` | src/acp/kernel.rs:2414-2558 | The turn waits on exactly this request with proposal and approval request logged, or the effect was denied and the turn is logged interrupted, or the step faults |
| `KernelActors.KernelActor.RequestApproval` | src/acp/kernel.rs:2473-2558 | A pause leaves proposal and approval request, perhaps a delivery, in the log and nothing else changed; a failed publication leaves the effect denied and the turn inactive, any other failure the turn as it was |
| `KernelActors.KernelActor.ConsumeAndSend` | src/acp/kernel.rs:2605-2632 | The approval is consumed once, right after the prompt, then exactly the decision of that prompt for that request is sent |
| `KernelActors.KernelActor.ResumeApproval` | src/acp/kernel.rs:2560-2661 | Either nothing changed, or the pending approval is used up and the history goes on with its consumption and exactly the decision asked for; a consumed approval cannot be used again; another session changes only by an overflow |
| `KernelActors.KernelActor.SetConfig` | src/acp/kernel.rs:2663-2743 | The session is as before or moved to the selected state, a success means moved, a refusal changes nothing; turn and, while it runs, effective configuration stay, and access stays grounded in the history |
| `KernelActors.Configured` | src/acp/kernel.rs:2663-2743 | The selected state keeps turn, provider and channel, keeps the effective configuration while a turn is active and names only supported configurations |
| `KernelActors.SelectionExactly` | src/acp/kernel.rs:2663-2743 | Which selections are accepted and what each leads to, in both directions: the queued configuration, or the effective one where none is queued, with exactly the selected field replaced, queued while a turn runs; a remote bypass changes no configuration and a remote client without a channel gets no full access |
| `KernelActors.ConfiguredAccess` | src/acp/kernel.rs:2704-2709 | A selection a client asked for never gives a session unrestricted access that nobody entitled gave it |
| `KernelActors.ConfirmedAccess` | src/acp/kernel.rs:2858-2905 | A confirmed bypass rests on an earlier request for it |
| `KernelActors.KernelActor.ApplyPendingConfiguration` | src/acp/kernel.rs:2745-2759 | The queued configuration becomes effective and is cleared |
| `KernelActors.KernelActor.ConfirmBypass` | src/acp/kernel.rs:2858-2905 | Only a session with a requested bypass switches mode, on a confirmation just received; model and effort stay |
| `KernelActors.KernelActor.IdleCommand` | src/acp/kernel.rs:980-1027 | What each command may have done to an idle session, and nothing else |
| `KernelActors.KernelActor.PermissionsCommand` | src/acp/kernel.rs:1085-1131 | A permission command selects its mode locally; full access only for a local client or a session with a channel |
| `KernelActors.KernelActor.BypassCommand` | src/acp/kernel.rs:1008-1027 | Asking for a bypass only records that a code was issued |
| `KernelActors.KernelActor.AttachBuzz` | src/acp/kernel.rs:2761-2856 | Admission moves the session to the attached state or changes nothing, and never changes the configuration of an active turn |
| `KernelActors.AttachedOk` | src/acp/kernel.rs:2761-2856 | Attaching keeps the invariant: a channel session with a provider context already has its channel, so a running turn keeps its configuration |
| `KernelActors.AttachedExactly` | src/acp/kernel.rs:2761-2856 | When a message is admitted, in both directions: the channel never changes, the first admission and only that switches to full access, a provider context is kept |
| `KernelActors.KernelActor.CancelSession` | src/acp/kernel.rs:2948-2974 | Success logs the interruption and ends the turn, failure changes no session |
| `KernelActors.KernelActor.SteerSession` | src/acp/kernel.rs:3033-3067 | Accepted only by a running, unpaused turn, and logged for it |
| `KernelActors.KernelActor.CompleteEpoch` | src/acp/kernel.rs:2286-2312 | The turn is logged completed and no longer active, or the step faults |
| `KernelActors.KernelActor.ProcessProviderEvent` | src/acp/kernel.rs:2130-2335 | Unless the step faults, each kind of event has exactly its effect on the item table, the turn and the log; an event of another context or epoch changes nothing; no other session changes |
| `KernelActors.MatchesExactly` | src/acp/kernel.rs:3180-3241 | An event is the own event of the turn exactly when it speaks of no other context and no other epoch, and a failure of the whole provider or of both |
| `KernelActors.KernelActor.EventOwner` | src/acp/kernel.rs:3243-3281 | The owner is the one session that holds the context of the event, everyone for a failure of the whole provider, nobody otherwise |
| `KernelActors.KernelActor.RouteEvent` | src/acp/kernel.rs:3283-3329 | Appends to the FIFO of the owner and changes no session, or, exactly at one of the two limits, drops its backlog, flags it, fails its turn and denies what it was paused on; an event for a flagged session is dropped |
| `KernelActors.KernelActor.TakeOrRoute` | src/acp/kernel.rs:1935-1942 | The event goes to its owner and nowhere else: queues, owned events and overflows change exactly as the owner read off the journal says, this turn handles exactly its own and global events, and another session changes only by its overflow |
| `KernelActors.KernelActor.ProviderStep` | src/acp/kernel.rs:1926-1954 | Takes exactly one element and puts it in the journal; an own or global event has its effect on the turn, any other leaves the turn alone; another session changes only by an overflow |
| `KernelActors.KernelActor.DriveStep` | src/acp/kernel.rs:1904-1972 | Reports an overflow, else handles the oldest queued event, else takes one element from the provider or serves a request, each with its effect on the turn and its journal entry; another session changes only by an overflow in this step |
| `KernelActors.KernelActor.HandleEvent` | src/acp/kernel.rs:1943-1967 | The event is recorded as handled and has its effect, or the turn failed; no other session changes |
| `KernelJournal.OwnerHolds` | src/acp/kernel.rs:3243-3281 | An event is owned by a session exactly when that session alone holds its context |
| `KernelActors.OwnerByHolders` | src/acp/kernel.rs:3273-3281 | Collecting the holders of the context decides the owner |
| `KernelActors.KernelActor.RequestDuringTurn` | src/acp/kernel.rs:1972-2126 | What each request may have done: a cancellation ends the turn, a selection is queued, a shutdown closes the receiver and a first part of the waiting requests is still handled, anything else changes nothing; only this session changes |
| `KernelActors.KernelActor.ServeRequest` | src/acp/kernel.rs:1972-2126 | Takes the next request in order, and it has its effect on this session only |
| `KernelActors.KernelActor.HandleQueued` | src/acp/kernel.rs:1913-1914 | The oldest queued event is handed over and has its effect |
| `KernelActors.KernelActor.NextRequest` | src/acp/kernel.rs:643-644 | The oldest request is received, and received and waiting requests stay the first part of all that were sent |
| `KernelActors.KernelActor.Bind` | src/acp/kernel.rs:2787-2852 | A session gets its provider context and the journal says so; no event moves |
| `KernelActors.KernelActor.TakeEvent` | src/acp/kernel.rs:1935-1942 | The element is taken, journalled and accounted for: handled here exactly when it is own or global |
| `KernelActors.KernelActor.ReportOverflow` | src/acp/kernel.rs:1911-1912 | A flagged session is reported once and journalled |
| `KernelActors.KernelActor.TakeQueued` | src/acp/kernel.rs:1913-1914 | Hands over exactly the oldest queued event, if there is one |
| `KernelActors.KernelActor.OthersChain` | src/acp/kernel.rs:1904-1972 | Changing other sessions only by an overflow carries over from parts of a run to the whole |
| `KernelActors.KernelActor.DriveTurn` | src/acp/kernel.rs:1902-2128 | Keeps history, sessions, routing and the account of what was taken through all interleavings; only this turn takes events, another session changes only by an overflow, and at the end the turn is over or waits for an approval, unless the kernel itself stops |
| `KernelActors.KernelActor.Activate` | src/acp/kernel.rs:1047-1076 | The epoch starts with the present configuration of the session, under a turn id not used before |
| `KernelActors.KernelActor.NewTurn` | src/acp/kernel.rs:1036-1046 | A new turn id was never started or ended and is held by no session |
| `KernelActors.KernelActor.BeginPrompt` | src/acp/kernel.rs:962-1078 | On a paused session a prompt changes nothing, or exactly its decision is sent for the pending approval, and after a denial the effect is never allowed; on an idle one text starts a turn with the present configuration and a command has its effect only; approvals are consumed in no other way; an unknown, flagged or busy session refuses and changes nothing; another session changes only by an overflow |
| `KernelActors.KernelActor.StartTurn` | src/acp/kernel.rs:1036-1078 | Fails with the sessions unchanged, or the prompt is logged and the epoch started with the present configuration under a turn id new to the history |
| `KernelActors.KernelActor.HandleRequest` | src/acp/kernel.rs:643-850 | What each request may have done to the sessions; only a prompt takes provider events, only for its session, and only a shutdown stops the kernel |
| `KernelActors.KernelActor.FirstConfiguration` | src/acp/kernel.rs:870-880 | The requested configuration, or none exactly when the catalog has none as requested |
| `KernelActors.KernelActor.NewSession` | src/acp/kernel.rs:852-960 | A new session is idle and as requested, with the first catalog model and its first effort where none is named; nothing else changes |
| `KernelRouting.EventRouter.RouteEvent` | src/acp/kernel.rs:3283-3329 | Queues at the end of the FIFO of the session, or overflows exactly at 1024 in total or 256 for the session; the counter equals the sum of queue lengths and a flagged session has no queue |
| `KernelRouting.EventRouter.TakeRoutedEvent` | src/acp/kernel.rs:3331-3339 | Hands over exactly the oldest queued event |
| `KernelRouting.EventRouter.TakeDirectly` | src/acp/kernel.rs:1935-1942 | A fresh event of the driven session is next in order because its queue is empty |
| `KernelRouting.EventRouter.DropBacklog` | src/acp/kernel.rs:3291-3294 | Dropping a backlog takes exactly its length off the counter |
| `KernelRouting.EventRouter.ClearFailure` | src/acp/kernel.rs:1911-1912 | An overflow is reported once |
| `KernelRouting.PushKeepsCount` | src/acp/kernel.rs:3326-3328 | The counter stays exact and within both limits when an event is queued |
| `KernelRouting.FullExactly` | src/acp/kernel.rs:3287-3290 | A session overflows exactly when 1024 events are queued in all or 256 for it |
| `KernelRouting.PopKeepsCount` | src/acp/kernel.rs:3331-3339 | The counter stays exact when an event is taken |
| `KernelRouting.PopKeepsOrder` | src/acp/kernel.rs:3331-3339 | Delivered equals handled followed by queued, for every session that never overflowed |
| `KernelJournal.TakenStep` | src/acp/kernel.rs:1926-1942 | One more element taken extends the events of its owner by it and marks an overflow exactly at a limit |
| `KernelJournal.QuietStep` | src/acp/kernel.rs:3331-3339 | Handing over a queued event or binding a context leaves the account of what was taken |
| `KernelJournal.OverflowedExtended` | src/acp/kernel.rs:3283-3329 | One more step adds an overflow exactly when it is one |
| `KernelJournal.HandledIsDelivered` | src/acp/kernel.rs:3283-3339 | For a session that never overflowed, handled followed by queued is what the provider delivered for it, in that order |
| `Configuration.SessionConfiguration.Create` | src/acp/config.rs:223-242 | Succeeds exactly for a catalog model that supports the effort |
| `Configuration.SessionConfiguration.SetModel` | src/acp/config.rs:263-272 | Succeeds exactly when the new model supports the present effort |
| `Configuration.SessionConfiguration.SetEffort` | src/acp/config.rs:274-283 | Succeeds exactly when the present model supports the new effort |
| `Configuration.UnconfirmedNeverEscalates` | src/acp/config.rs:263-300 | Over every sequence of changes the configuration stays one the catalog supports, and without a local or confirmed mode request a session never gains unrestricted access |
| `Encoding.FieldRoundTrip` | src/verification.rs:2021-2070 | Each kind of field is decoded from its encoding, with the rest of the input untouched |
| `Encoding.LayoutRoundTrip` | src/verification.rs:2021-2070 | Every sequence of fields is decoded from its encoding, with the rest of the input untouched |
| `Encoding.FieldAt` | src/verification.rs:2021-2070 | In every layout each field stands, encoded on its own, right after the fields before it |
| `Encoding.DomainsPrefixFree` | src/verification.rs:29-34 | No NUL-terminated domain is a prefix of input under another domain |
| `Evidence.ExecutableRoundTrip` | src/verification.rs:278-287 | The encoding of an executable decodes to it |
| `Evidence.ArgumentsRoundTrip` | src/verification.rs:1945-1957 | The encoding of an argument vector decodes to it |
| `Evidence.CanonicalArguments` | src/verification.rs:1945-1957 | The loop produces the counted, length-prefixed list |
| `Evidence.SpecificationRoundTrip` | src/verification.rs:1918-1943 | The encoding of a specification decodes to executable, arguments and limits, each digest being that of the text after it and the profile tag zero |
| `Evidence.RequestRoundTrip` | src/verification.rs:671-689 | The encoding of a request decodes to all its fields, the last digest being that of the specification after it |
| `Evidence.ResultRoundTrip` | src/verification.rs:1207-1227 | The encoding of a result decodes to all its fields, optional ones included |
| `Evidence.EncodingsAreInjective` | src/verification.rs:671-689 | Different requests, and different results, never share an encoding |
| `Evidence.KindsDisjoint` | src/verification.rs:29-34 | No byte string is an encoding of two kinds |
| `Evidence.KindsNeverCollide` | src/verification.rs:29-34 | Any six records of the six kinds, the directory manifest included, have pairwise different encodings |
| `DirectoryManifest.CanonicalDirectoryManifest` | src/verification.rs:1959-2002 | Accepts exactly the lists that are strictly byte-sorted, within count and aggregate limits, made of valid relative paths and closed under proper ancestors, and encodes them |
| `DirectoryManifest.CheckEntry` | src/verification.rs:1974-1989 | The check of one entry, with the parent searched in the whole unchecked list, never rejects a well-formed list |
| `DirectoryManifest.ManifestRoundTrip` | src/verification.rs:1959-2002 | An accepted list is read back from its encoding |
| `Paths.BinarySearch` | src/verification.rs:1981-1985 | Whatever the order, a hit is an occurrence; on a sorted list a miss means absence |
| `Paths.ParentsCoverAncestors` | src/verification.rs:1981-1989 | Checking each direct parent covers all proper ancestors |
| `Paths.ParentIsNearest` | src/verification.rs:1981-1985 | The text before the last slash is the nearest ancestor |
| `Paths.ValidPathsAreJoins` | src/verification.rs:2004-2019 | A path is valid exactly when it is some admissible components joined by slashes, within the length limit |
| `Paths.SortedByNeighbours` | src/verification.rs:1976-1980 | Comparing neighbours gives strict order of the whole list |
| `Paths.LessExactly` | src/verification.rs:1976-1980 | The order of paths is a proper prefix, or the smaller byte at the first difference |
| `CandidateEvidence.LoadVerifiedCandidateEvidence` | src/verification.rs:1671-1829 | Loads exactly the consistent evidence and returns, position by position, the baseline with the payload wherever the path of the proposal stands |
| `CandidateEvidence.CandidateIsOneUpdate` | src/verification.rs:1805-1829 | Read as maps, candidate files and manifest are the baseline with one existing key updated to the payload; the old content had before_hash, the new one has after_hash |
| `CandidateEvidence.FilesMatchManifest` | src/verification.rs:1689-1729 | Files and manifest entries agree index by index in path, length and digest |
| `CandidateEvidence.UniqueEntry` | src/verification.rs:1805-1807 | The linear lookup and the binary search select the same entry |
| `CandidateEvidence.CandidateAtIndex` | src/verification.rs:1805-1816 | Overwriting the two arrays at the index found is replacing by path |
| `CandidateEvidence.ValidatePersistedEvidence` | src/verification.rs:1858-1888 | The first entry with the path of the proposal has the expected digest and the records agree |
| `CandidateEvidence.LoadEntries` | src/verification.rs:1685-1736 | Both lists are built exactly when every entry is well-formed, in strict order and stored with its length and digest, and the lengths sum to the recorded total |
| `CandidateEvidence.LoadBaseline` | src/verification.rs:1678-1778 | The baseline loads exactly when its entries load and its manifest and preconditions are stored in canonical form with the recorded digests |
| `CandidateEvidence.FindEntry` | src/verification.rs:1866-1869 | The first entry with the path |
| `CandidateEvidence.FindByBinarySearch` | src/verification.rs:1805-1807 | An entry with the path, if there is one |
| `NamedLists.UpdateAt` | src/verification.rs:1808-1816 | Overwriting one position of a sorted list updates one key of the map |
| `ServiceStream.NeverRepeatsExactly` | src/acp/server.rs:1495-1510 | For arbitrary replies and every interleaving, runs with at most n hand-overs emit strictly increasing sequence numbers if and only if n generations are left before the counter saturates |
| `ServiceStream.SaturationRepeats` | src/acp/server.rs:1495-1510 | At the largest generation two hand-overs give two owners, and an event is emitted twice |
| `ServiceStream.RunKeeps` | src/acp/server.rs:1906-1954 | Every run keeps the invariant: emitted in order, all covered by the cursor, only the newest poller can own the stream |
| `ServiceStream.StepKeeps` | src/acp/server.rs:1906-1985 | Every step of both pollers and both hand-overs keeps the stream invariant while a generation is left |
| `ServiceStream.DeliverKeeps` | src/acp/server.rs:1933-1954 | A delivery under the lock keeps the stream invariant, sent or not |
| `ServiceStream.HandOverKeeps` | src/acp/server.rs:1495-1510 | A hand-over takes generation and cursor under one lock |
| `ServiceStream.SupersededIsSilent` | src/acp/server.rs:2191-2201 | A poller that lost the stream never emits again in any continuation |
| `ServiceStream.NothingLost` | src/acp/server.rs:2078-2123 | With gap-free replies the notifications are exactly the visible events up to the cursor, in order |
| `ServiceStream.VisibleExactly` | src/acp/server.rs:2348-2423 | The visible events of a range are exactly the sequence numbers in it whose events render to a notification |
| `CodexLogin.CodexAuth.QueryState` | src/auth/codex.rs:440-460 | Ok is always the state of the latest account read of this call, with what was queued after it taken; on an idle session there is exactly one read, between two drains none of which contradicts the verdict; on an awaiting login Ok is signed in, only after a success completion for that id and no failure completion; at most 32 notifications are taken, an error on an idle session changes nothing |
| `CodexLogin.CodexAuth.AwaitLoginCompletion` | src/auth/codex.rs:462-513 | Signed in only after a success completion for the id and then a signed-in read; an error leaves the login pending, or idle and signed out with a failure verdict |
| `CodexLogin.CodexAuth.Complete` | src/auth/codex.rs:494-510 | A failure completion ends the login; a success completion is confirmed by an account read |
| `CodexLogin.CodexAuth.ConfirmLogin` | src/auth/codex.rs:515-556 | Ok only for a signed-in read that is the latest, with the queue then drained and no contradicting completion; an error leaves the completed login waiting and the cached state pending |
| `CodexLogin.CodexAuth.DrainConfirmation` | src/auth/codex.rs:558-591 | Takes what is queued within the budget until nothing is there; an existing verdict never changes |
| `CodexLogin.CodexAuth.DrainIdle` | src/auth/codex.rs:593-626 | While idle no completion changes the verdict; success means the queue was found empty, everything parsed and nothing contradicted the verdict |
| `CodexLogin.CodexAuth.RecordTerminal` | src/auth/codex.rs:628-639 | Refuses exactly a contradicting verdict for the same login |
| `CodexLogin.CodexAuth.StartLogin` | src/auth/codex.rs:390-438 | A login starts only when idle, with no verdict and the cached state pending |
| `CodexLogin.CodexAuth.StopAndPoison` | src/auth/codex.rs:648-653 | The session is idle, without verdict and unusable |
| `CodexLogin.CodexAuth.ReconcileCanceled` | src/auth/codex.rs:699-735 | Success means no success completion of the login was among the notifications and every failure completion is on record; a success completion is an error, and the only exit that records one |
| `CodexLogin.CodexAuth.ReconcileNotFound` | src/auth/codex.rs:737-754 | Ends idle with the state of the latest account read, signed in if the login had succeeded |
| `CodexLogin.CodexAuth.CancelLogin` | src/auth/codex.rs:669-697 | Success keeps the state of the latest account read; a failure keeps the cached state, and leaves the session idle only with a failure verdict; a recorded success is never turned into a failure |
| `CodexLogin.CodexAuth.Logout` | src/auth/codex.rs:756-786 | Success ends signed out without verdict; a failed cancellation makes the session unusable |
| `CodexLogin.CodexAuth.Note` | src/auth/codex.rs:462-591 | At every suspension point the session satisfies the invariant |
| `CodexLogin.NotificationOperation.ConsumeNotification` | src/auth/codex.rs:177-184 | The thirty-third notification is an error |
| `LoginHistory.VerdictNeverFlips` | src/auth/codex.rs:628-639 | Until it is cleared a verdict names the same login and says the same, at every suspension point |
| `LoginHistory.CompletedMeansSuccess` | src/auth/codex.rs:515-556 | While a completed login waits for its account, its verdict is success and the cached state is pending |
| `EvaluationMetrics.DeriveMetrics` | src/evals/metrics.rs:48-239 | The one-pass derivation over maps computes exactly what the stream says about each operation, or the first error |
| `EvaluationMetrics.ApplyTracks` | src/evals/metrics.rs:71-111 | After each event the map holds what the stream declares, last concluded and evidenced |
| `EvaluationMetrics.Advance` | src/evals/metrics.rs:63-131 | One event is admitted or refused as the stream demands, and all totals follow |
| `EvaluationMetrics.Normalize` | src/evals/metrics.rs:133-144 | The normalized operations in the order of their intents |
| `EvaluationMetrics.ToolBearingEpochs` | src/evals/metrics.rs:200-204 | The epochs of evidenced operations, whatever the order of the map |
| `EvaluationMetrics.CountWorkEpochs` | src/evals/metrics.rs:207-215 | Counts the work requests of tool-bearing epochs |
| `EvaluationMetrics.SuccessfulDigests` | src/evals/metrics.rs:145-149 | The digests of applied operations |
| `MetricsByPosition.MetricsCount` | src/evals/metrics.rs:63-131 | Provider requests, tool calls and compactions are the numbers of such events |
| `MetricsByPosition.StrategyChangesCount` | src/evals/metrics.rs:225-232 | Strategy changes are the losses of context or the recoveries, whichever are more |
| `MetricsByPosition.MetricsOfOperations` | src/evals/metrics.rs:145-215 | Work epochs are the work and recovery requests of epochs with evidence, and semantic duplicates the applied operations beyond one for each digest |
| `MetricsByPosition.ReplayExactly` | src/evals/metrics.rs:133-144 | The replay holds exactly the operations with a conclusion and evidence, each with its declaration, the word for its last conclusion and its evidence |
| `MetricsByPosition.IntentDeclares` | src/evals/metrics.rs:71-84 | In an accepted stream an operation has one intent, and that is its declaration |
| `ReplayRenaming.RenamingChangesNothing` | src/evals/metrics.rs:48-239 | Metrics, normalized replay and error are the same under every pair of injective renamings of operation and epoch ids |
| `ReplayRenaming.NoDuplicatesExactly` | src/evals/metrics.rs:145-158 | The duplicate count is zero exactly when applied, evidenced operations have pairwise distinct digests |
| `ReplayRenaming.SameCheck` | src/evals/metrics.rs:63-131 | The first error is the same under renaming |
| `ReplayRenaming.SameToolBearing` | src/evals/metrics.rs:200-204 | An epoch is tool-bearing exactly when its renamed epoch is |
| `MemoryContext.RankMemories` | src/memory/mod.rs:445-599 | Computes the context defined by scores, order and packing; its items come with the higher score first, on equal scores the newer, on equal times the smaller id |
| `MemoryContext.ContextIsBest` | src/memory/mod.rs:445-599 | A context holds evaluated candidates, best first, and a relevant one is missing only because it does not fit behind the selected ones that score at least as high, or because the item limit is reached by such |
| `MemoryContext.LeftOutByLimits` | src/memory/mod.rs:569-583 | The same of any list that is best first |
| `MemoryRanking.SortedIsBestFirst` | src/memory/mod.rs:561-567 | Sorted means descending score, then descending time, then ascending id |
| `MemoryRanking.RelevantExactly` | src/memory/mod.rs:508-535 | A memory is relevant exactly when it shares a word with the query or is a profile or preference, for texts within the 2048 words the tokenizer keeps |
| `MemoryRanking.ShareLaws` | src/memory/mod.rs:633-657 | More occurrences, a rarer term and a shorter text never lower the share of a term |
| `MemoryRanking.BetterScoresHigher` | src/memory/mod.rs:508-560 | A better match, a nearer scope, a weightier kind and more importance raise the score, and a newer memory never scores less |
| `MemoryRanking.NearnessOutweighsAge` | src/memory/mod.rs:516-541 | A nearer scope makes up for any difference in age |
| `MemoryRanking.AverageExactly` | src/memory/mod.rs:480-481 | The average length is the total rounded down, an empty total counting as one word |
| `MemoryContext.OrderOfCandidatesIrrelevant` | src/memory/mod.rs:445-599 | With distinct ids the context is the same for every permutation of the candidates |
| `MemoryRanking.RankedPermutation` | src/memory/mod.rs:466-567 | With distinct ids the ranked list is the same for every permutation of the candidates |
| `MemoryRanking.SameEvaluation` | src/memory/mod.rs:633-657 | Document frequency, average length and score of a memory do not depend on the order of the candidates |
| `MemoryRanking.SortedUnique` | src/memory/mod.rs:561-567 | With ids telling entries apart only one order is sorted |
| `MemoryRanking.SortSorted` | src/memory/mod.rs:561-567 | The tie-broken sort is a sorted permutation |
| `MemoryContext.DocumentFrequency` | src/memory/mod.rs:474-479 | Counts for every word the documents that hold it |
| `MemoryContext.Bm25Score` | src/memory/mod.rs:633-657 | The saturating sum over the distinct query terms, in any order |
| `MemoryContext.Pack` | src/memory/mod.rs:569-583 | The loop takes every item that still fits, until the item limit, and reports the rendered size |
| `MemoryContext.PackedFits` | src/memory/mod.rs:569-583 | The selection is a subsequence of the ranked order within both limits |
| `MemoryContext.PackedIsMaximal` | src/memory/mod.rs:569-583 | An item passed over below the item limit would overflow the finished selection too |
| `MemoryContext.ReportedSizeExactly` | src/memory/mod.rs:452-464 | total_bytes is the rendered size of the items if and only if there was a candidate |
| `MemoryContext.ReportedSizeWithinLimit` | src/memory/mod.rs:584-599 | It is within context_bytes, the items follow the ranked order, and the counts add up |
| `MemoryRendering.RenderedAppend` | src/memory/mod.rs:601-631 | One more item adds its escaped text and a comma unless it is the first |
| `MemoryRendering.EscapeIsBracketFree` | src/memory/mod.rs:629-631 | No angle bracket survives the two passes |
| `ServerSentEvents.ReadAll` | src/providers/http.rs:362-416 | For every cutting into chunks, a stream read to its end yields the events of one reading of the whole body; without interruption it is refused exactly when the body or a chunk is over a limit or a line is not UTF-8; what is yielded before a failure are the first events of the part read |
| `ServerSentEvents.SseState.Next` | src/providers/http.rs:362-416 | Yields the next event, a failure or the end, and keeps the buffer within 1 MiB always and 256 KiB between chunks |
| `ServerSentEvents.SseState.Advance` | src/providers/http.rs:376-415 | One chunk or the end of the body; a refusal means the stream cannot be read |
| `ServerSentEvents.SseState.Receive` | src/providers/http.rs:385-398 | A chunk is accepted exactly when it fits and its lines can be read |
| `ServerSentEvents.SseState.Close` | src/providers/http.rs:403-413 | The unterminated rest is a line and what is collected an event |
| `ServerSentEvents.SseState.ParseCompleteLines` | src/providers/http.rs:418-434 | Consumes every terminated line of the buffer, in order |
| `ServerSentEvents.SseState.ConsumeLine` | src/providers/http.rs:436-458 | Feeds one line, or refuses it for length, encoding or the size of the event |
| `ServerSentEvents.SseState.QueueEvent` | src/providers/http.rs:460-465 | Flushes the collected data lines into one event |
| `EventStreamReference.SplitConcat` | src/providers/http.rs:418-434 | Splitting into lines commutes with cutting the body anywhere |
| `EventStreamReference.PartIsPrefix` | src/providers/http.rs:418-434 | The events complete in a part of the body are the first events of the whole |
| `EventStreamReference.BodyOkPrefix` | src/providers/http.rs:418-434 | A body that can be read can be read up to any point |
| `EventStreamReference.WrittenReadsBack` | src/providers/http.rs:418-465 | Events written as data lines, ended by LF or by CRLF, read back one for each, their lines joined by line feeds |
| `EventStreamReference.JoinedSplits` | src/providers/http.rs:460-465 | Joining loses nothing: the data lines are the text up to each line feed, and the rest |
| `FrameReading.CollectFrame` | src/acp/protocol.rs:242-270 | Verdict and bytes consumed depend on the stream alone, also when the frame is too large; at most one byte over the limit is taken |
| `Frames.ReadFrame` | src/acp/protocol.rs:232-278 | The result and the rest of the stream are the same for every chunking |
| `Frames.StreamReadsBack` | src/acp/protocol.rs:280-309 | Any frames written within the limit, each on one line, read back in order and then the end if and only if the value of each parses back from its text |
| `Frames.WrittenLineReadsBack` | src/acp/protocol.rs:280-309 | A frame on one line takes nothing after it and reads back as itself if and only if its value parses back; a text the parser refuses, as beyond its nesting limit, is a protocol violation on reading |
| `Frames.ReadFrames` | src/acp/protocol.rs:232-278 | Reading any number of frames from one reader gives the same results for every chunking |
| `Frames.ReadBack` | src/acp/protocol.rs:232-309 | Written frames, in whatever pieces their bytes arrive, come back in order and then the end, unless the transport breaks, if and only if each value parses back |
| `Frames.WrittenFrameReadsBack` | src/acp/protocol.rs:280-309 | A written frame reads back as itself, with nothing after it touched, if and only if its text is one non-empty line that parses back to its value |
| `Frames.WriteFrame` | src/acp/protocol.rs:280-309 | A frame is written exactly when its text and the line feed fit an admissible limit, and then as text and line feed |
| `JsonRpc.OutgoingIsIncoming` | src/acp/protocol.rs:191-224 | Each outgoing frame parses as an incoming one with the same id and method |
| `JsonRpc.SentIsUnderstood` | src/acp/protocol.rs:191-224 | Id, result, code, message, method and parameters arrive as sent; only an empty, overlong or NUL message arrives as the text protocol error |
| `JsonRpc.AcceptedShape` | src/acp/protocol.rs:121-158 | Exactly the calls and responses are accepted: version 2.0, a valid id and a bounded method where present, structured parameters, a method without outcome or an id with exactly one of result and error; the parsed id and method are those of the value |
| `SidecarLines.ReadBoundedLine` | src/sidecar/jsonl.rs:10-45 | The verdict depends on the stream alone and at most the limit is consumed |
| `SidecarLines.EncodedLineReadsBack` | src/sidecar/jsonl.rs:47-54 | An encoded line within the limit reads back as its text if and only if the text has no line feed and no carriage return at its end |

## Left out

- The durable prompt path, the engine behind it, storage and staging: they appear only as the environment above.
- Updates shown to clients, usage figures, tool titles and delivery digests of the kernel.
- The secret filter, whose verdict is arbitrary here.
- Which of several selected configurations wins: failure exits of the kernel leave a queued one in place.
- That every received effect is resolved: a storage failure can leave one unresolved.
- File permissions, ownership, platform differences, directory entries with foreign names, and locking of the data root.
- Writes of a whole session binding by session load, configuration and attach requests in the service server, which reset or restore generation and cursor: the hand-over results speak of runs without them. Live updates and approval state of a binding are left out too.
- The canonical forms of the file manifest, the source preconditions and the proposal envelope, and which of its two error codes a refused load reports.
- Parsing of sidecar messages, time-outs as durations (an operation has an arbitrary number of checks left), and the connection handshake of the Codex session.
- Metrics taken from the checkpoint rather than from events: clauses, identifiers, processes and observations.
- A semantic ranker of memories, tokenizing, and overflow of a single term's score, which needs more documents than settings admit.
- A byte bound on a joined event: only the sum of its data lengths is bounded.
- JSON syntax, duplicate keys in strict parsing, and flushing of writers.
- The command line, channel publication, credentials, policy, budgets, event upgrades and provider catalogs: single-branch checks or plumbing.
- KernelActors.KernelActor.BeginPrompt: states what a prompt may change, not which outcome is reported for it, because any of the calls behind it may fail.
- SidecarLines.ReadBoundedLine: does not fix the bytes consumed by a line that is too long, because they depend on the chunks.
