# Clixor backend: verified models

Dafny models of the hardest parts of the Clixor backend, with proofs over every run or every input.

| file | models |
|---|---|
| `SessionFencing.dfy` | cross-replica session fencing over NATS: owner leases, fence markers, commands, acknowledgements, guarded actions |
| `RouteTransfer.dfy` | the journaled Cloudflare route transfer, with crashes, exceptions, partial DNS batches and retries |
| `RevocationCache.dfy` | the realtime session guard and the bounded revocation cache, beside an unbounded ideal |
| `MemoryBus.dfy` | registration and fencing in the in-process bus |
| `DeployRecovery.dfy` | the deployment journal, the pointer commit and the watchdog's recovery |
| `EmergencyCut.dfy` | recognising, installing and clearing the two-name nft cut |
| `EnvFiles.dfy` | the environment-file printer and its two independent parsers (Python and Go) |
| `WebSocket.dfy` | the smoke test's WebSocket client against section 5 of RFC 6455 |
| `Compliance.dfy` | the block/delivery barrier (`BlockBarrier`) and the review log (`ReviewLog`) |
| `Selectors.dfy` | the Vault generation pointer (`VaultGenerations`) and the connector credential selector (`ConnectorSelector`) |
| `Manifests.dfy` | the approved cohort manifest (`CohortManifest`), the runtime bundle inventory (`BundleInventory`) and string order (`TextOrder`) |
| `Common.dfy` | shared value types |

`dafny verify dfyconfig.toml` checks the project.

Protocols and crash-recoverable programs are transition systems: one step for each critical section, remote call or
durable write, and free interleaving, crashes and exceptions between steps. Objects that update their fields are classes
whose methods are proved against functions on values; loops keep their loops.

## What the proofs found

Properties that the code does not have on all runs are stated with the runs that break them and the exact condition
under which they hold.

- **Session fencing** holds on every run on which (1) no replica renews an expired lease over an open socket if a matching
  request has already listed the leases without it, (2) no open registration verifies the lease of a bus that `Close` has
  already fenced, and (3) no refresh admits an owner again whose `Close` has cleared its deadline and not yet removed it
  from the map (`FenceSafety`). Each is exactly what is needed: in every state that the invariant allows, any step against
  one of them can be followed by cooperative steps to a fence in force that fails (`UnsafeRenewalBreaksFence`,
  `LateRegistrationBreaksFence`, `UnsettledRefreshBreaksFence`), and `PausedReplicaRun`, `ClosedBusRun` and `CloseRaceRun` reach
  such steps. The last race is real because `natsSessionOwner.Close` stores the deadline before it takes the bus mutex. Even
  with all three, an action whose handler returns underneath it outlives the fence (`DetachedActionSurvivesFence`). If handlers
  waited for their readers, (3) would not be needed and nothing matching would run at all (`OrderlyFenceSafety`). A fence can
  always complete (`FenceCompletes`).
- **Route transfer.** One interruption leaves a state that no retry repairs: rule in exception, marker closed and gate journal
  not stably closed under this authority. `StuckForever` shows that it is never left, `CrashCanStick` that every earlier
  transfer can reach it by one crash, `Progress` that from every other interruption one undisturbed run completes.
- **Revocation cache.** The clock is read before the mutex is taken, so calls may run out of clock order, and a later call may
  shorten a record it overwrites or an epoch it replaces. A revocation keeps every ideal revocation covered if and only if,
  when its sessions fit, it shortens what holds none of them, and, when they do not, it leaves every session a record or an
  epoch that is long enough (`RevocationKeepsCover`; over whole sequences `RunCovers`). Clocks in order always suffice
  (`InOrderRunCovers`); two calls out of order shorten a record (`StaleClockShortens`) and three shorten an epoch
  (`StaleClockUncovers`), and either admits a session that is still revoked.
- **Deployment journal.** The phase after pointer-committed, `committed`, cannot be archived as committed: a living deployer can
  still archive its transaction so if and only if the phase is not past pointer-committed (`CommitReachable`). `deploy.sh` never asks
  for that last phase.
- **Selectors.** An asynchronous exception (such as KeyboardInterrupt) between the swap of a link and the assignment that records
  it makes the handler delete the generation that was just selected; that window is the only one
  (`PointerAtomicity`, `SelectorAtomicity` and the two lemmas called `AsynchronousExceptionDangles`). A crash inside `_atomic_write`
  leaves a temporary file that every later publication and tear-down refuses to remove (`CrashInWriteBlocks`); an idle
  directory can be published to and torn down if and only if it holds no such file (`CompletesIfTidy`).
- **Environment files.** A line of exactly 16384 bytes passes the Python parser and stops the Go loader
  (`LongestLineDisagrees`); apart from the Go allowlist and a file without assignments this is the only disagreement on files that the
  Python parser accepts (`ParsersAgree`).
- **Bundle inventory.** `_inventory` checks neither modes nor emptiness, the validator checks both: what finalize writes
  validates exactly when there is a file and every mode is safe (`FinalizedValidates`).

## Model

| member | source | states |
|---|---|---|
| `SessionFencing.SocketActKeepsSocket` | internal/events/nats.go:209-258 | every step of registration, of a guarded action and of the returning handler keeps a socket's invariant: a running action began inside its replica's admission window and is at most 10 s old, a stored deadline never exceeds lease creation plus 3 s, an unrevoked socket is listed until Close removes it |
| `SessionFencing.ReplicaActKeepsReplica` | internal/events/nats.go:429-448 | lease refresh, expiry and close keep a replica's invariant: an absent lease has expired or the bus is closed |
| `SessionFencing.ReplicaActKeepsSocket` | internal/events/nats.go:450-521 | marking owners admissible, draining after a failed refresh and closing the bus keep the socket invariant |
| `SessionFencing.TicketActKeepsCover` | internal/events/nats.go:396-417 | listing leases, receiving a command, fencing owners and acknowledging keep every matching open socket covered: its replica is commanded and not yet acknowledged, or its lease has run out |
| `SessionFencing.StepKeepsInvariant` | internal/events/nats.go:209-325 | every cooperative step of any party keeps the global invariant, unless it begins an action on a socket whose handler is leaving |
| `SessionFencing.RunKeepsInvariant` | internal/events/nats.go:209-325 | the invariant holds in every state of every such run |
| `SessionFencing.RunStaysSettled` | internal/events/nats.go:547-559 | on every settled run the invariant holds and no socket whose handler is leaving can begin an action |
| `SessionFencing.FenceSafety` | internal/events/nats.go:260-325 | on every run that keeps the three assumptions: from the return of FenceSessions until its marker is gone, no matching socket on any replica can begin an action, and only actions still run whose handler has already taken their owner off the bus |
| `SessionFencing.OrderlyFenceSafety` | internal/httpapi/realtime.go:30-48 | with handlers that wait for their reader, whatever the refreshes do, a fence in force means that no matching action is running and none begins |
| `SessionFencing.FenceIsPrecise` | internal/events/nats.go:396-417 | over every run a guard becomes revoked only by its own revocation, its failed registration, the drain or the close of its own replica, a command whose user and session are its own, or a marker for them that its registration scan met |
| `SessionFencing.FenceCompletes` | internal/events/nats.go:260-325 | from every state a new fence can complete at once, and it leaves alone any socket that is not listed or whose replica has no lease |
| `SessionFencing.RequestCompletes` | internal/events/nats.go:283-325 | from every state a request that has listed the leases can complete at once, over any socket it does not meet |
| `SessionFencing.EscapeBreaksFence` | internal/events/nats.go:260-325 | from every state with such a socket that may act, the next fence of its user returns while the socket may still act |
| `SessionFencing.UnsettledRefreshBreaksFence` | internal/events/nats.go:450-459 | from every state, a refresh that admits an owner between Close's store and its delete is followed by cooperative steps to a fence in force that fails |
| `SessionFencing.CloseRaceRun` | internal/events/nats.go:547-559 | a cooperative run reaches a state with such a refresh |
| `SessionFencing.UnsafeRenewalBreaksFence` | internal/events/nats.go:483-519 | in every state the invariant allows, every renewal against the renewal assumption is followed by cooperative steps to a fence in force that fails |
| `SessionFencing.PausedReplicaRun` | internal/events/nats.go:30-44 | a settled run reaches such a renewal when a replica pauses past its lease |
| `SessionFencing.DetachedActionSurvivesFence` | internal/httpapi/realtime.go:91-130 | in every state an action whose owner is off the bus outlives the next fence of its user |
| `SessionFencing.DetachedActionRun` | internal/httpapi/realtime.go:30-48 | a settled run reaches such a state: the handler returned while its reader was inside an action |
| `SessionFencing.LateRegistrationBreaksFence` | internal/events/nats.go:523-545 | in every state the invariant allows, every open registration that verifies the lease of a bus Close has already fenced is followed by cooperative steps to a fence in force that fails |
| `SessionFencing.ClosedBusRun` | internal/events/nats.go:523-545 | a settled run reaches such a verification |
| `RouteTransfer.AdvanceKeeps` | deploy/oci/cloudflare-promote.py:966-1103 | every normal step of the controller keeps the safety invariant over world, journal and program point |
| `RouteTransfer.FaultKeeps` | deploy/oci/cloudflare-promote.py:1105-1131 | every exception, partial DNS batch and crash keeps it |
| `RouteTransfer.HandlerFailsClosed` | deploy/oci/cloudflare-promote.py:1114-1131 | over every run the undisturbed handler ends with the gate closed and settled and nothing else of the world changed; if the gate is closed already, or the phase is past the unfreeze or promoted, the world stays as it is |
| `RouteTransfer.ExceptionClosesGate` | deploy/oci/cloudflare-promote.py:1114-1131 | over every run, when an exception or a partial DNS batch strikes a running controller and the run is then left alone, it ends with the gate closed, stably if it was open, unless the phase in memory is past the unfreeze or promoted, and then gate and gate journal stay as they were |
| `RouteTransfer.RunIsSafe` | deploy/oci/cloudflare-promote.py:966-1131 | every state of every run satisfies it |
| `RouteTransfer.AllOldOrAllNew` | deploy/oci/cloudflare-promote.py:966-1131 | under a disabled rule the routes are all original, or all final with an open gate; at no time do both tunnels serve the production hosts |
| `RouteTransfer.RunDiscipline` | deploy/oci/cloudflare-promote.py:434-441 | over any run tunnels, DNS records and topology never move backward; the gate opens only under the exception rule with final routes, and the rule is disabled again only with those routes and the gate open |
| `RouteTransfer.WriteDiscipline` | deploy/oci/cloudflare-promote.py:294-310 | the same of each single write of the controller |
| `RouteTransfer.RunIsSound` | deploy/oci/cloudflare-promote.py:443-458 | every durable history on every run is well formed |
| `RouteTransfer.JournalSoundness` | deploy/oci/cloudflare-promote.py:953-964 | each after-entry has an earlier before-entry, and a terminal entry follows the after-entries of all eight mutations, also when a later run reconciled them |
| `RouteTransfer.HealthyCompletes` | deploy/oci/cloudflare-promote.py:1007-1103 | from every safe program point that will not be refused, the undisturbed controller reaches the promoted end |
| `RouteTransfer.Progress` | deploy/oci/cloudflare-promote.py:1105-1131 | from every interruption that is not the stuck state, one undisturbed run reaches promoted, whichever DNS records had been switched |
| `RouteTransfer.StuckForever` | deploy/oci/cloudflare-promote.py:493-500 | from the stuck state no sequence of runs, crashes and retries promotes or leaves it |
| `RouteTransfer.CrashCanStick` | deploy/oci/cloudflare-promote.py:537-566 | every interrupted transfer that has not opened the gate can reach the stuck state by an undisturbed run and one crash |
| `RevocationCache.Guard.Revoke` | internal/httpapi/session_events.go:47-55 | the guard is revoked and its channel is closed exactly once, closed iff revoked |
| `RevocationCache.Guard.WhileActive` | internal/httpapi/session_events.go:67-78 | the action runs iff the guard was not revoked and the lease is valid; otherwise the guard ends revoked |
| `RevocationCache.Prune` | internal/httpapi/session_events.go:213-222 | exactly the unexpired records remain |
| `RevocationCache.PruneKeeps` | internal/httpapi/session_events.go:213-222 | pruning at any time, early or late, keeps every revocation covered that is unexpired at the latest time, and keeps the records within the ideal |
| `RevocationCache.RecordKeys` | internal/httpapi/session_events.go:180-187 | the loop computes the specified recording, key by key |
| `RevocationCache.RecordFits` | internal/httpapi/session_events.go:180-187 | recording fails closed iff the keys do not fit beside the records in force |
| `RevocationCache.RecordCapacity` | internal/httpapi/session_events.go:180-187 | recording never exceeds the capacity |
| `RevocationCache.RecordEffect` | internal/httpapi/session_events.go:180-187 | exactly the keys before the capacity runs out get the full retention, which are all of them unless it failed closed, and no other record changes |
| `RevocationCache.AdmissionIsSafe` | internal/httpapi/session_events.go:122-140 | a covering cache admits no session that the ideal denies, whatever time the call carries; outside a fail-closed epoch a precise one denies no other |
| `RevocationCache.RevocationKeepsCover` | internal/httpapi/session_events.go:155-187 | with any clock, against an ideal that keeps the longest revocation of each session: the cover is kept iff a fitting revocation shortens what holds no session it names, and one that fails closed leaves every session a record or epoch long enough |
| `RevocationCache.InOrderKeepsCover` | internal/httpapi/session_events.go:155-187 | a clock in order, or one that shortens neither the epoch nor a record of a named session, always satisfies that condition |
| `RevocationCache.RunCovers` | internal/httpapi/session_events.go:122-222 | over every sequence of calls with any clocks the ideal is covered all along iff every revocation satisfies the condition when it is made |
| `RevocationCache.InOrderRunCovers` | internal/httpapi/session_events.go:122-222 | over every sequence of calls with clocks in order every unexpired ideal revocation is covered |
| `RevocationCache.CapacityHolds` | internal/httpapi/session_events.go:122-222 | over every sequence of calls with any clocks the records never exceed the capacity and no record outlasts the ideal |
| `RevocationCache.IdealIsLatest` | internal/httpapi/session_events.go:155-187 | over every sequence of calls the ideal of a session is the latest of the expiries that the revocations naming it gave, and nothing if none named it |
| `RevocationCache.RevokedSessionDenied` | internal/httpapi/session_events.go:122-222 | over every sequence of calls in clock order a session is denied for a full retention after each revocation that names it |
| `RevocationCache.NamedKeys` | internal/httpapi/session_events.go:159-177 | the keys are the one named session, or without one exactly the sessions of the user that have a registered guard |
| `RevocationCache.Note` | internal/httpapi/session_events.go:155-187 | prune, record and epoch together are the specified revision of the ledger, with any clock, and they fail closed exactly when the keys do not fit |
| `RevocationCache.Cache.constructor` | internal/httpapi/session_events.go:101-120 | an empty cache without history, with capacity at least one and a positive retention |
| `RevocationCache.Cache.Register` | internal/httpapi/session_events.go:122-140 | with any clock: the history of calls gains this registration, the cache holds exactly the ledger of that history, and the new guard is revoked iff that ledger denies it |
| `RevocationCache.Cache.Unregister` | internal/httpapi/session_events.go:142-153 | exactly the guard is removed |
| `RevocationCache.Cache.Revoke` | internal/httpapi/session_events.go:155-206 | with any clock: the history gains a revocation of exactly the one session, or of every registered session of the user; a guard ends revoked iff it was, it is of the user and session named, or the sessions did not fit |
| `RevocationCache.Reconnect` | internal/httpapi/session_events.go:122-206 | after any history in clock order, a session that a revocation named, alone or with all of its user, is refused when it registers again before the retention is over |
| `RevocationCache.StaleClockUncovers` | internal/httpapi/session_events.go:155-158 | three revocations on an empty cache of capacity one, the last with an earlier clock, uncover the second session, which is then admitted although the ideal denies it |
| `RevocationCache.StaleClockShortens` | internal/httpapi/session_events.go:155-187 | two revocations of one session, the second with an earlier clock, on an empty cache of any capacity: the record is shortened and the session admitted although the ideal denies it |
| `MemoryBus.StepKeepsInvariant` | internal/events/memory.go:89-134 | every step, callbacks split into their snapshot and each closing, keeps: a live fence and an open matching owner have met in one of the two snapshots, and a callback made for an open owner has it in its own |
| `MemoryBus.NoLostFence` | internal/events/memory.go:89-134 | once registration and fence have returned, and until release or expiry, an owner on the bus of the fenced user and session is revoked and no action of it is running, and none can begin one |
| `MemoryBus.FenceIsPrecise` | internal/events/memory.go:113-129 | over every run a guard is closed only by its own revocation or by a callback of a fence that matches it |
| `MemoryBus.FenceCompletes` | internal/events/memory.go:113-129 | from every state a new fence can call every owner in its snapshot and return |
| `MemoryBus.RegistrationCompletes` | internal/events/memory.go:89-111 | from every state a connected owner can register, apply every barrier in its snapshot and return |
| `DeployRecovery.StepKeepsInvariant` | deploy/oci/runtime-reconciler.py:605-742 | every step of create, phase, publish, commit, crash and recovery keeps the invariant over release tree, pointer and journal |
| `DeployRecovery.ExactlyOnePlace` | deploy/oci/runtime-reconciler.py:513-575 | from the creation of a transaction until recovery quarantines its artifact, crashed or not, exactly one of pending and final holds it |
| `DeployRecovery.PhasesAreConsecutive` | deploy/oci/runtime-reconciler.py:65-80 | over any stretch of an open transaction its identity is fixed and the phase passes through every value in between |
| `DeployRecovery.RecoverySparesCurrent` | deploy/oci/runtime-reconciler.py:713-742 | recovery never moves the selected release, nor any but the journal's |
| `DeployRecovery.RecoveryOutcome` | deploy/oci/runtime-reconciler.py:2515-2551 | a completed recovery keeps the new release iff the pointer had been swapped; otherwise it is in quarantine and the previous one is selected |
| `DeployRecovery.CommittedIsSelected` | deploy/oci/hydrate-vault-secrets.py:1893-1908 | a committed archive is written only for the release the pointer selects |
| `DeployRecovery.CommitMovesPointer` | deploy/oci/hydrate-vault-secrets.py:1893-1908 | over every run the commit leaves the journal's published release selected, and no other step changes what is selected |
| `DeployRecovery.DeploymentCompletes` | deploy/oci/runtime-reconciler.py:663-707 | from every open transaction up to pointer-committed with a living deployer, its own steps lead to a committed archive with its release published and selected |
| `DeployRecovery.CommitReachable` | deploy/oci/runtime-reconciler.py:682-707 | over every run, a living deployer can still archive its transaction as committed iff the phase is not past pointer-committed |
| `DeployRecovery.RecoveryCompletes` | deploy/oci/runtime-reconciler.py:682-707 | from every open transaction a recovery completes, and repeating its first half changes nothing |
| `DeployRecovery.ArtifactsConserved` | deploy/oci/runtime-reconciler.py:713-742 | no step deletes a release; only staging adds one |
| `DeployRecovery.Reconciler.CreateJournal` | deploy/oci/runtime-reconciler.py:605-661 | succeeds iff no transaction is open, the candidate is pending and previous is current; changes only the journal; with the final name free it is the model's Create |
| `DeployRecovery.Reconciler.UpdateJournalPhase` | deploy/oci/runtime-reconciler.py:663-680 | succeeds iff the phase is the next one and its artifact is in place; changes only the phase; with the pointer swapped before pointer-committed it is the model's Advance |
| `DeployRecovery.Reconciler.PublishPendingRelease` | deploy/oci/runtime-reconciler.py:2554-2581 | succeeds iff the journal is publishing this candidate and the final name is free, and then is the model's Publish |
| `DeployRecovery.Reconciler.QuarantineJournalArtifact` | deploy/oci/runtime-reconciler.py:713-742 | moves whichever path exists and is not current, as the model's Quarantine |
| `DeployRecovery.Reconciler.ArchiveJournal` | deploy/oci/runtime-reconciler.py:682-707 | a committed archive needs pointer-committed; any other outcome quarantines first |
| `DeployRecovery.Reconciler.Watchdog` | deploy/oci/runtime-reconciler.py:2515-2551 | keeps the pointer; fails exactly when the needed reconciliation fails, and otherwise completes the recovery of an open transaction |
| `EmergencyCut.Classify` | deploy/oci/runtime-reconciler.py:861-890 | what the loop makes of one item is metainfo, the table or a drop chain exactly when the item is one |
| `EmergencyCut.ExactList` | deploy/oci/runtime-reconciler.py:859-890 | true iff the list, of any length and order, has besides metainfo exactly one matching table and exactly the two drop chains; an error only for an unhashable chain name |
| `EmergencyCut.NftExactCut` | deploy/oci/runtime-reconciler.py:853-890 | true iff the document is exactly such a list |
| `EmergencyCut.PresentTables` | deploy/oci/runtime-reconciler.py:896-914 | exactly the known names the ruleset declares, or none for a malformed item or a name declared twice |
| `EmergencyCut.CutItemsExact` | deploy/oci/runtime-reconciler.py:944-953 | the installed table is an exact cut |
| `EmergencyCut.InstallSafeguards` | deploy/oci/runtime-reconciler.py:967-981 | replacing the candidate or filling a free name loses no exact cut and no other table |
| `EmergencyCut.Kernel.KnownStates` | deploy/oci/runtime-reconciler.py:893-921 | absent and exact are true of the kernel; unknown means present and not readably exact; a usable listing always gives an answer |
| `EmergencyCut.Kernel.Activate` | deploy/oci/runtime-reconciler.py:956-980 | true only with an exact cut in the kernel; exact cuts, foreign tables and an occupied first name survive whatever happens; with nft answering it succeeds, and it raises only over an unhashable chain name |
| `EmergencyCut.Kernel.Clear` | deploy/oci/runtime-reconciler.py:999-1019 | a normal return means both names absent; only exact cuts are ever deleted, all or none; an inexact one is refused untouched; with nft answering and nothing but exact cuts under the two names it clears them |
| `EnvFiles.MatchLine` | deploy/oci/hydrate-vault-secrets.py:69-69 | the reading of a line as key and value if it has one, and none otherwise |
| `EnvFiles.CutIsMatch` | internal/config/envfile.go:88-91 | cutting at the first `=` and matching the key finds the same reading as the regular expression |
| `EnvFiles.ParseEnv` | deploy/oci/hydrate-vault-secrets.py:975-1001 | the loop computes the specified parse, errors included |
| `EnvFiles.AssignmentsMeaning` | deploy/oci/hydrate-vault-secrets.py:981-994 | the loop accepts exactly the lists of short comments and allowed assignments without a repeated key, and returns exactly what they assign |
| `EnvFiles.ParseMeaning` | deploy/oci/hydrate-vault-secrets.py:975-1001 | a file parses to a map iff it is the text of lines that are comments and distinct allowed assignments making exactly that map, within the size bounds, without a placeholder and with every required key |
| `EnvFiles.PlaceholderByLine` | deploy/oci/hydrate-vault-secrets.py:998-1000 | a file holds a placeholder iff one of its lines does |
| `EnvFiles.SelectionFits` | deploy/oci/hydrate-vault-secrets.py:1100-1101 | distinct keys of a parsed file print to no more bytes than the file |
| `EnvFiles.RoundTrip` | deploy/oci/hydrate-vault-secrets.py:1100-1101 | printing a nonempty list of distinct keys of a parsed file and parsing it again gives exactly that restriction, within the size bound |
| `EnvFiles.ReadAssignments` | internal/config/envfile.go:77-102 | the Go loop computes the specified parse, errors included |
| `EnvFiles.LoadEnvironmentFile` | internal/config/envfile.go:48-109 | the environment gains exactly the file's assignments or, on any error, nothing |
| `EnvFiles.LoadMeaning` | internal/config/envfile.go:77-102 | a file loads as a map iff its size is right, the map is not empty and its lines, stripped of a carriage return, are short blanks, comments and distinct allowed assignments making exactly that map |
| `EnvFiles.SetAll` | internal/config/envfile.go:103-107 | settable assignments all take effect, in any order |
| `EnvFiles.ParsersAgree` | internal/config/envfile.go:77-102 | on a file the Python parser accepts, the Go loader yields the same map iff it assigns something, its keys are allowed and every line is shorter than 16384 bytes, and fails otherwise |
| `EnvFiles.SelectionLoads` | internal/config/envfile.go:48-109 | a printed selection loads as its restriction iff the loader allows its keys and no printed line is exactly 16384 bytes |
| `EnvFiles.LongestLineDisagrees` | internal/config/envfile.go:79-79 | a line of exactly 16384 bytes is parsed by one and refused by the other |
| `WebSocket.MaskedTwice` | deploy/oci/smoke.py:529-529 | masking twice with one key is the identity |
| `WebSocket.DecodeOfEncode` | deploy/oci/smoke.py:519-530 | a decoder per sections 5.2 and 5.3 of RFC 6455 gives back every frame, masked or not, in each length form, and the rest of the stream |
| `WebSocket.EncodeOfDecode` | deploy/oci/smoke.py:500-517 | whatever that decoder accepts was encoded in one of the three forms |
| `WebSocket.Client.RecvExact` | deploy/oci/smoke.py:490-498 | the next bytes of the stream, however recv splits them, with the rest intact; an error iff there are too few, with nothing lost |
| `WebSocket.Client.ReadFrame` | deploy/oci/smoke.py:500-517 | succeeds iff the decoder finds an unmasked frame without extension bits, within the size limit and well formed if a control frame; returns it and leaves the rest |
| `WebSocket.Client.SendFrame` | deploy/oci/smoke.py:519-530 | appends exactly the masked final frame in its shortest form |
| `WebSocket.CarriesSnoc` | deploy/oci/smoke.py:519-530 | one more sent frame is one more frame for a decoder by the book |
| `WebSocket.Client.Control` | deploy/oci/smoke.py:547-556 | a close is answered once and ends the wait, a ping is answered with its own payload, a pong is ignored, other control opcodes fail |
| `WebSocket.Client.Receive` | deploy/oci/smoke.py:532-571 | the result, the remaining stream and the decoded replies are those of reassembling the stream's frames, and the client has closed iff it had or one of those replies is a close |
| `WebSocket.MessageReassembles` | deploy/oci/smoke.py:532-571 | every text message, fragmented in any way and interleaved with pings and pongs, is delivered as the concatenation of its data payloads, and each ping is answered in order with its payload |
| `WebSocket.WireMessage` | deploy/oci/smoke.py:532-571 | the same from the bytes, for every choice of length forms, leaving what follows |
| `WebSocket.DeliversExactlyMessages` | deploy/oci/smoke.py:532-571 | a message is delivered iff the stream begins with a well-formed text message |
| `BlockBarrier.RunKeepsInvariant` | internal/compliance/memory.go:28-68 | on every interleaving no send between blocked users is in progress and deliveries exclude block changes |
| `BlockBarrier.BlockBarrierHolds` | internal/compliance/memory.go:28-68 | between the return of SetBlock(a, b, true) and the matching unblock no send between a and b, in either direction, is in progress or starts |
| `BlockBarrier.DecisionStands` | internal/compliance/memory.go:60-68 | no block changes while a delivery holds the lock, so it was let through iff neither user blocks the other at any moment until it returns |
| `BlockBarrier.BlocksAreLastChanges` | internal/compliance/memory.go:28-41 | over every run a user blocks another iff the last change written for the two, in this direction, was a block |
| `BlockBarrier.ChangeCompletes` | internal/compliance/memory.go:28-41 | from every state without a change in progress, running deliveries end and a change of any two distinct users takes effect on exactly that pair |
| `ReviewLog.Memory.SubmitCase` | internal/compliance/memory.go:91-104 | stores a new case, answers a repeated one from the stored case, refuses one with other hashes |
| `ReviewLog.Memory.RecordReview` | internal/compliance/memory.go:132-151 | records a review and its status iff it is valid, the case exists and has the expected status; otherwise nothing changes |
| `ReviewLog.SubmissionIsStored` | internal/compliance/memory.go:91-104 | over every run a case with a fresh identifier is stored as submitted and answered, and nothing else changes |
| `ReviewLog.ReviewTakesEffect` | internal/compliance/memory.go:132-151 | over every run a review is answered as recorded iff it is valid and its case is stored with the expected status; then the log gains exactly it, the case replays to its status and carries its public text and time, and every other case stays; otherwise the store stays |
| `ReviewLog.RunIsConsistent` | internal/compliance/memory.go:91-151 | over every run each case's status is the replay of its recorded reviews from received, and each review expects the replay before it |
| `ReviewLog.ReviewsChain` | internal/compliance/model.go:221-241 | of consecutive reviews of a case the later expects what the earlier set |
| `ReviewLog.CasesPersist` | internal/compliance/memory.go:91-151 | no later operation alters a stored case except a recorded review its status, public text and time; the log only grows |
| `ReviewLog.Resubmission` | internal/compliance/memory.go:94-99 | a repeated identifier leaves the store alone and is accepted iff token and submission are the same |
| `VaultGenerations.RetentionBound` | deploy/oci/hydrate-vault-secrets.py:1691-1706 | over any run of sequential hydrations, with any crashes and exceptions, there are at most 16 generations |
| `VaultGenerations.PointerAtomicity` | deploy/oci/hydrate-vault-secrets.py:1283-1327 | at every point of every run without an exception in the swap window the pointer is absent or names an existing complete generation |
| `VaultGenerations.PublicationSelects` | deploy/oci/hydrate-vault-secrets.py:1283-1327 | a publication that returns has selected its own complete generation |
| `VaultGenerations.FailureLeavesNoTrace` | deploy/oci/hydrate-vault-secrets.py:1302-1326 | an exception before the swap, or after it was recorded, is undone: the previous selection is back and only the new generation is gone |
| `VaultGenerations.HydrationCompletes` | deploy/oci/hydrate-vault-secrets.py:1691-1706 | an undisturbed hydration completes iff there are fewer than 16 generations, and then adds and selects exactly its own |
| `VaultGenerations.AsynchronousExceptionDangles` | deploy/oci/hydrate-vault-secrets.py:1299-1326 | whenever a run stands in that window, an exception there leads to a dangling pointer |
| `ConnectorSelector.SelectorAtomicity` | deploy/oci/cloudflare-canary-credential.py:428-577 | the same for the connector selector over publication, cleaning and tear-down |
| `ConnectorSelector.PublicationLeavesTwoEntries` | deploy/oci/cloudflare-canary-credential.py:654-663 | a completed publication leaves exactly the selector and its complete generation, as verify demands |
| `ConnectorSelector.FailureIsUndone` | deploy/oci/cloudflare-canary-credential.py:561-568 | over every run without an exception in the window, a failed publication can be undone, which removes exactly its own generation and leaves the selector |
| `ConnectorSelector.AsynchronousExceptionDangles` | deploy/oci/cloudflare-canary-credential.py:545-566 | an exception between the swap and its record lets the handler empty the selected generation |
| `ConnectorSelector.CrashInWriteBlocks` | deploy/oci/cloudflare-canary-credential.py:461-476 | after a crash inside an atomic write no later publication or tear-down completes |
| `ConnectorSelector.CompletesIfTidy` | deploy/oci/cloudflare-canary-credential.py:479-577 | wherever a run stands idle, an undisturbed publication, and likewise a tear-down, can complete iff no generation holds a temporary file |
| `ConnectorSelector.CrashFreeRunCompletes` | deploy/oci/cloudflare-canary-credential.py:479-577 | after any run without a crash inside an atomic write both can complete |
| `TextOrder.SortAscends` | deploy/oci/runtime_bundle.py:896-896 | sorting by distinct keys ascends strictly in Python's string order |
| `TextOrder.AscendingUnique` | deploy/oci/runtime_bundle.py:896-896 | there is one ascending list of given members |
| `CohortManifest.BuildManifest` | deploy/oci/hydrate-vault-secrets.py:348-384 | the manifest of the sorted names, or an error iff cohort, key sets or a version are invalid |
| `CohortManifest.ParseManifest` | deploy/oci/hydrate-vault-secrets.py:387-467 | the loop and the checks around it compute the specified parse |
| `CohortManifest.ParseOfBuild` | deploy/oci/hydrate-vault-secrets.py:348-467 | for every valid mapping, cohort name and version map building succeeds and parsing gives back the versions and the digest |
| `CohortManifest.BuildOfParse` | deploy/oci/hydrate-vault-secrets.py:348-467 | an accepted manifest is, up to the spelling of its schema number, the one its versions build |
| `BundleInventory.Inventory` | deploy/oci/runtime_bundle.py:869-897 | the ascending list of exactly the files besides the manifest; an error iff one is special or of invalid size |
| `BundleInventory.InventoryUnique` | deploy/oci/runtime_bundle.py:869-897 | two walks of one tree give the same inventory |
| `BundleInventory.ReadRecords` | deploy/oci/runtime_bundle.py:1131-1162 | the recorded map iff the records are nonempty, ascending and each valid |
| `BundleInventory.Validate` | deploy/oci/runtime_bundle.py:1131-1198 | accepts iff the records are valid and the tree's path to digest, size and mode map is exactly the recorded one |
| `BundleInventory.FinalizedValidates` | deploy/oci/runtime_bundle.py:971-986 | what finalize writes validates on the unchanged tree iff there is a file and every mode is safe |

## Left out

- SQL-backed stores and the handlers over them, HTTP and Cloudflare clients, JWT, HMAC, Argon2, JSON and base64 encoding: abstract or absent; hashes are functions, injective where a lemma says so.
- File ownership, permission, symbolic-link and tmpfs checks, and the docker, systemctl, openssl and OCI commands: single-branch checks over foreign state.
- SessionFencing: the durable session check after registration only removes behaviours; key and lease parsing (nats.go:352-394) is abstract, one identity per (replica, generation); one clock is shared by all replicas; message loss shows as a request that aborts.
- RouteTransfer: the archive mode (cloudflare-promote.py:1137-1164) is absent; reads and probes are folded into the next step or its failure; a configuration PUT raises the version by exactly one; a request that timed out takes effect before the next step or not at all; the refusals of lines 979-982 and 1003-1006 are modelled and turn out unreachable.
- RevocationCache: the guards of all users are one set instead of a map of sets by user, so the removal of empty inner maps is not modelled.
- DeployRecovery: runs create a journal only with the final name free and record pointer-committed only after the swap, which deploy.sh:1478-1480 and deploy.sh:2539-2540 check; bundle validation and boot identity are absent, and a whole reconciliation is one step that succeeds or fails.
- EmergencyCut: nft is assumed truthful about the tables it lists, transactions are atomic, and nobody else edits the two tables meanwhile; killing control groups (runtime-reconciler.py:983-996) is absent.
- EnvFiles: bufio.Scanner is modelled by its lines and its limit, not by its buffer; file metadata checks are absent.
- WebSocket: the upgrade handshake, deadlines, socket errors and the decoding of the JSON text are absent.
- ReviewLog: text limits count characters and trimming knows ASCII white space only; acceptances, listing and status queries are absent.
- VaultGenerations and ConnectorSelector: flush failures appear as exceptions; a reboot, which empties the tmpfs, is absent.
- CohortManifest: a loaded document is a value with the fields the parser reads; the 64 KiB size limit and duplicate JSON keys are absent.
- BundleInventory: directory and ownership checks and misshapen JSON records are absent.
- Release retention, PKI issuance, GitHub approval, backups, staging secrets and the smoke scenarios around the WebSocket client: they would add easy members only.
