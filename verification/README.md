# Verified models of the lazyops agent

A Dafny model of the state-changing core of the deployment agent, with proofs about all inputs, all runs and all
reachable states. `dafny verify dfyconfig.toml` checks everything.

What is modelled, by file:

- `Rollout`, `RolloutRuns`, `RolloutCollections`, `RolloutRefusals`, `RolloutInterrupted`, `RolloutWitnesses`,
  `RolloutAgent`, `Candidate`: one deployment binding moving through prepare, render, start, health gate, promote,
  rollback and garbage collection. The state is the revision cache, the traffic record, one candidate record with
  history per revision, and the workspace roots. `Rollout.Step` is the protocol; `RolloutAgent.Agent` is the
  handlers that assign field by field, each proved to be that step, or the part of it before a write that fails.
- `Mesh`, `MeshLaws`, `MeshHealth`, `MeshEffects`, `MeshFingerprints`, `MeshResolution`, `MeshAnswers`,
  `MeshWitnesses`, `MeshManager`: the overlay built, ensured and synced file by file, any write of which may fail,
  with peers, routes, the per-service cache, link health and the sync report, and the resolver that reads them.
  Route keys and fingerprints are digests of joined text, as `Digests` has them.
- `Capability`: the full, diff and unchanged capability updates, with a receiver that applies them and messages that
  may be lost, or arrive and not be marked as reported.
- `Ports`: the port probe in 32-bit arithmetic and the assignment of ports to services.
- `Postgres`, `PostgresBridge`, `PostgresLogin`, `PostgresAdapter`, `Dns`, `Bytes`: protocol 3.0 framing (Message
  Formats chapter of the PostgreSQL manual) and authentication bridge, and DNS questions (sections 3.1 and 4.1.2 of
  RFC 1035, with this code's label limit of 255), on bytes.
- `HealthProbe`: the probe loop over an arbitrary sequence of answers.
- `Gateway`, `GatewayLaws`, `GatewayRuns`, `GatewayPlans`, `GatewayManager`: rendering, applying, reloading and
  rolling back a gateway version over files whose every write may be refused or torn.
- `HoldQueue`, `HoldManager`: requests held at the gateway. `LogKeys`, `LogCollector`, `LogLaws`, `LogBuffers`: log
  buffering.
- `Buckets`, `Text`, `Digests`, `Durations`: lists by name, trimming, splitting, joining, sorting lines, units of
  time.

Objects that the agent updates in place are classes whose methods are proved equal to a step function on values
(`View()`), and the results about runs are lemmas over that function. Docker, sockets, Caddy, the clock and the file
system appear as parameters that answer success or failure.

Assumptions of the rollout results, written down in `Rollout.Admissible`: identifiers carry no surrounding white
space, promotions and rollbacks name revisions with a complete workspace, and a prepare that fails after making its
root names neither the live nor the draining revision or leaves the manifest. Each is shown to be exact or to be
needed: `PromotionIsRestorableExactlyWhen`, `PromotionIsSafeExactlyWhen`, `RollbackIsSafeExactlyWhen`,
`FailedPrepareIsSafeExactlyWhen`. Activation safety needs only the first, and records at rest none.

What the proofs found out about the code:

- A rollback never reads the ready flag of the traffic record, so rolling back a failed candidate and then the live
  revision makes the never promoted candidate live (`UnguardedRollbackActivatesTheStray`). The flag, used as a
  guard, is enough (`GuardedRunIsSafe`), and the exact condition is `ActivationSafetyExactlyWhen`.
- Rolling back a revision whose workspace was collected remakes its root without a manifest, which blocks the next
  rollback.
- A promotion or rollback writes the traffic record before the cache. If it stops in between, retrying a rollback of
  the live revision is refused or sends traffic back to that revision (`RetriedLiveRollbackGoesWrong`), and rolling
  back a promotion that stopped can skip the revision that was live (`InterruptedPromotionIsUndoneExactlyWhen`).
- A rollback that cannot note the failure in the candidate's record only logs that, and ends as done. The record
  then stays promotable, so the revision that was rolled back can be promoted again
  (`PromotedAgainAfterUnnotedRollback`).
- A dependency that was local when the report was published and crosses peers now resolves as verified local, and
  every staleness reason is silent, always (`MovedTargetGoesUnnoticedExactlyWhen`).
- A route key is a digest of fields joined with bars, and nothing keeps bars out of aliases and targets: two
  dependencies of one service can share a key, and then a crossing one resolves by the route of a local one
  (`SharedKeyHidesTheCrossing`; exactly when, `ResolvedAfterSyncExactlyWhen`). Two bars side by side in a peer name
  make fingerprints collide (`BarredPeersCollide`), and without such names they never do
  (`FingerprintsAgreeExactlyWhen`).
- A build or sync that stops between route table and cache leaves a stale cache. After a sync it is wrong exactly
  when the sync changed a route, and the next sync repairs it (`TornSyncIsHarmlessExactlyWhen`, `NextSyncRepairs`).
- The capability fingerprint cannot tell an empty capability map from none, although the section diff can. A diff
  that arrives but is not marked can leave the receiver out of date until the next handshake.
- For the 25000 largest seeds the 32-bit sum wraps, and some ports are never tried (45000 or 40505, for example). An
  allocated port is not compared with the service's own dependency listeners: a service can end on one exactly when
  its probe tries one (`AlwaysClearExactlyWhen`).
- Rendering the active gateway version again overwrites the files that a rollback would restore. An active record
  that exists but cannot be read counts as none, so a rollback then removes the live files.
- A handshake carries the capability payload but no version, so a diff that follows is based on a version that the
  receiver was never told (`HandshakeTellsNoVersion`); its base hash still names what the receiver holds.
- A gated candidate is protected from collection until another revision is started; from then on a collection may
  delete it although it is promotable (`SupersededCandidateIsCollectedUnless`).
- Resuming expires a held request whose deadline is exactly now; collecting keeps it.

## Model

| member | source | states |
|---|---|---|
| `Rollout.PlanUnderAgreement` | agent/internal/runtime/rollback.go:404-442 | in every state where cache and traffic agree, the plan is: a revision other than the live one is rolled back onto the live one; the live one is swapped with the draining one |
| `Rollout.PreviousUnderAgreement` | agent/internal/runtime/promotion.go:55-61 | the predecessor a promotion records is the live revision, or nothing when the live one is promoted again |
| `Rollout.StartKeepsInv` | agent/internal/runtime/filesystem_driver.go:487-510 | starting a candidate, seeded or found, keeps cache, traffic, workspaces and records in step |
| `Rollout.GateKeepsInv` | agent/internal/runtime/health_gate.go:236-285 | a health gate, passed, failed, cancelled or refused, keeps them in step |
| `Rollout.PromoteKeepsInv` | agent/internal/runtime/promotion.go:33-115 | a promotion of a revision with a complete workspace keeps them in step |
| `Rollout.RollbackKeepsInv` | agent/internal/runtime/rollback.go:41-190 | a rollback of a prepared revision keeps them in step |
| `Rollout.CollectKeepsInv` | agent/internal/runtime/garbage_collect.go:65-134 | a collection, finished or stopped at a root that it could not remove, keeps them in step |
| `Rollout.RestIsInductive` | agent/internal/runtime/candidate.go:90-135 | every command, with no assumption on it, leaves every candidate record at rest: one of four histories, promotable only with the snapshot of a passed gate |
| `Rollout.AgreementIsInductive` | agent/internal/runtime/service.go:951-971 | every command on a trimmed identifier keeps cache and traffic in agreement, whatever workspaces exist |
| `Rollout.InvariantIsInductive` | agent/internal/runtime/service.go:951-971 | every command under the stated assumptions keeps: current equals stable; a traffic record exists iff something is live; traffic active and stable equal current; traffic previous equals draining and never active; previous stable is empty or draining; live and draining workspaces have manifests; records at rest |
| `RolloutRuns.RunKeepsInv` | agent/internal/runtime/service.go:1031-1048 | the same invariant after every admissible run from a fresh agent |
| `RolloutRuns.RunAgrees` | agent/internal/runtime/service.go:1031-1048 | so cache and traffic agree after every run over trimmed identifiers |
| `RolloutRuns.EveryRecordIsAtRest` | agent/internal/runtime/candidate.go:63-135 | in every run whatever, each record has a connected history of at most six allowed moves, and is promotable only with a passed gate on it |
| `RolloutRuns.RestorationTarget` | agent/internal/runtime/garbage_collect.go:65-87 | whatever a rollback would restore is the live or the draining revision, and both are always protected from collection |
| `RolloutRuns.RestorationAlwaysFindsItsWorkspace` | agent/internal/runtime/service.go:1258-1274 | in every admissible run a non-empty restoration target has its manifest, also after any further collection, wherever that gets stuck, so a rollback is never refused for a missing stable workspace |
| `RolloutRuns.CollectionKeepsExactlyTheProtected` | agent/internal/runtime/garbage_collect.go:100-134 | a finished collection leaves exactly the protected workspaces; an unfinished one loses no protected one; only the one root that could not be removed is altered, and holds exactly what its failed removal left of it |
| `RolloutCollections.CollectionLeavesExactlyTheNamed` | agent/internal/runtime/garbage_collect.go:65-134 | in any state, each root whose identifier is the commanded revision or the cache's current, stable, previous stable, pending, candidate or draining one is there unchanged after any collection; any other is there iff it was not removed, and after a finished collection it is gone |
| `RolloutCollections.RunCollects` | agent/internal/runtime/garbage_collect.go:65-134 | in every run the roots after a finished collection are exactly those that are named so, with nothing in them touched |
| `RolloutCollections.PendingIsTheLastOpened` | agent/internal/runtime/service.go:951-959 | in every run the cache names r as pending iff r was the last to be prepared, rendered, started or gated, by an accepted command, since traffic last shifted |
| `RolloutCollections.CandidateIsTheLastStarted` | agent/internal/runtime/service.go:364-370 | in every run it names r as candidate iff r was the last to be started or gated since then |
| `RolloutCollections.RunCandidateStateAgrees` | agent/internal/runtime/service.go:725-730 | in every run there is a candidate state iff there is a candidate, and it is the state in the candidate's record as long as that exists |
| `RolloutCollections.GatedCandidateSurvivesCollections` | agent/internal/runtime/garbage_collect.go:65-87 | in every run, a revision that passed its gate can still be promoted after any collections, renderings, other preparations and refused commands that follow, and after one more collection, whatever was removed and wherever one got stuck |
| `RolloutCollections.SupersededCandidateIsCollectedUnless` | agent/internal/runtime/garbage_collect.go:65-87 | once another revision is started, a finished collection that names neither leaves the gated one promotable iff it is current, stable, previous stable or draining |
| `RolloutRefusals.PromotionRefusedExactlyWhen` | agent/internal/runtime/promotion.go:33-53 | each reason to refuse a promotion is given iff it holds and no earlier one does; with none it is accepted |
| `RolloutRefusals.PromotionShiftsTraffic` | agent/internal/runtime/service.go:951-971 | an accepted promotion makes its revision current, stable and active, records the trimmed live one as predecessor and draining, and clears pending and candidate; no root changes |
| `RolloutRefusals.PlanPrefersTheCache` | agent/internal/runtime/rollback.go:404-442 | the rollback plan in any state, agreeing or not: which revision counts as live, as failed and as predecessor, by the first of cache and traffic fields that is not blank |
| `RolloutRefusals.RollbackRefusedExactlyWhen` | agent/internal/runtime/rollback.go:41-120 | each reason to refuse a rollback in an agreeing state is given iff it holds and no earlier one does |
| `RolloutRefusals.RollbackShiftsTraffic` | agent/internal/runtime/service.go:1031-1048 | an accepted rollback makes the restored revision current, stable and active and the failed one draining, with nothing to return to, and clears pending and candidate |
| `RolloutRefusals.RollbackNotesTheFailure` | agent/internal/runtime/rollback.go:483-514 | after it the record of the commanded revision has failed if it was promotable, healthy or unhealthy, with its history extended and its gate kept |
| `RolloutRefusals.StartExactly` | agent/internal/runtime/filesystem_driver.go:417-510 | a start needs the manifest and then the runtime; it seeds a record or moves a prepared one to starting, and leaves any other record as it is |
| `RolloutRefusals.GateExactly` | agent/internal/runtime/health_gate.go:236-285 | a gate is refused without a record, cancelled, or out of place, in that order; else the record is promotable if every verdict passes and failed if not, with that snapshot on it |
| `RolloutRefusals.PrepareExactly` | agent/internal/runtime/filesystem_driver.go:165-240 | a preparation leaves a manifest and the record that was there, or what a failed removal leaves, or nothing, and touches no other root |
| `RolloutRefusals.RefusedChangesNothing` | agent/internal/runtime/service.go:951-971 | a refused command changes neither cache nor traffic, and no root unless a preparation failed or a removal got stuck |
| `Text.FirstNonEmptyMeans` | agent/internal/runtime/rollback.go:531-539 | the first value that is not blank, as written, or nothing |
| `Text.TrimExactly` | agent/internal/runtime/rollback.go:404-405 | trimming takes away exactly the white space at both ends, and is the only function that does |
| `RolloutRuns.FailedPrepareIsSafeExactlyWhen` | agent/internal/runtime/filesystem_driver.go:165-240 | a prepare that fails after making its root keeps the invariant iff it names neither the live nor the draining revision, or its removal leaves the manifest |
| `RolloutRuns.FailedPrepareIsAlwaysSafeExactlyWhen` | agent/internal/runtime/filesystem_driver.go:182-186 | it keeps it whatever its removal leaves iff it names neither |
| `RolloutRuns.PromotionIsSafeExactlyWhen` | agent/internal/runtime/promotion.go:33-53 | an accepted promotion keeps the invariant iff the workspace of its revision has a manifest |
| `RolloutRuns.RollbackIsSafeExactlyWhen` | agent/internal/runtime/rollback.go:41-120 | a rollback keeps the invariant iff nothing is live or the revision it names has a manifest |
| `RolloutRuns.PromotableOnlyByGate` | agent/internal/runtime/health_gate.go:236-264 | a record that was not promotable becomes so only by an accepted gate of that revision with every verdict passing |
| `RolloutRuns.PromotableMeansGated` | agent/internal/runtime/health_gate.go:236-264 | in every run, a promotable record has its passing gate behind it |
| `RolloutRuns.PromotionIsGated` | agent/internal/runtime/promotion.go:33-53 | every accepted promotion comes after a passing gate of the same revision |
| `RolloutRuns.ParkedMeans` | agent/internal/runtime/rollback.go:162-172 | after rolling back a never promoted candidate, the draining revision was never promoted and the traffic record says that no rollback is ready |
| `RolloutRuns.SafeRun` | agent/internal/runtime/rollback.go:404-442 | with no rollback of the live revision onto a parked one, the live revision was promoted after a passing gate, and the draining one is accounted for |
| `RolloutRuns.ParkedBecomesLive` | agent/internal/runtime/rollback.go:404-442 | any such rollback does make a never promoted revision live |
| `RolloutRuns.ActivationSafetyExactlyWhen` | agent/internal/runtime/rollback.go:404-442 | activation safety holds throughout a run over trimmed identifiers iff no rollback of the live revision is issued while a never promoted candidate is parked |
| `RolloutRuns.GuardedRunIsSafe` | agent/internal/runtime/promotion.go:81-115 | in such a run, issuing rollbacks of the live revision only while the traffic record says ready is enough for activation safety |
| `RolloutRuns.PromoteThenRollBack` | agent/internal/runtime/rollback.go:404-442 | promoting r over a live S and rolling r back, with the note on its record saved, returns current, stable and traffic to S with r failed; the same rollback again changes nothing at all |
| `RolloutRuns.FailedIsAbsorbing` | agent/internal/runtime/candidate.go:118-135 | in every run, a failed revision stays failed as long as its record lives, and no promotion of it is accepted |
| `RolloutWitnesses.StrayBecomesLive` | agent/internal/runtime/rollback.go:404-442 | from any good state, rolling back a prepared stray and then the live revision makes the stray live although no rollback was ready |
| `RolloutWitnesses.UnguardedRollbackActivatesTheStray` | agent/internal/runtime/rollback.go:404-442 | the concrete admissible run promote S, fail C, roll back C, roll back S ends with the never promoted C active |
| `RolloutWitnesses.RollingBackACollectedRevisionLosesTheWayBack` | agent/internal/runtime/rollback.go:120-190 | rolling back a collected revision remakes its root without a manifest, and the next rollback of the live revision is refused |
| `RolloutWitnesses.PromotionIsRestorableExactlyWhen` | agent/internal/runtime/promotion.go:55-61 | an accepted promotion over a live identifier leaves live and draining revision restorable iff the promoted revision and the trimmed live identifier have manifests |
| `RolloutWitnesses.PaddedIdentifierLosesTheWayBack` | agent/internal/runtime/promotion.go:55-61 | a run with a padded identifier whose promotion records a predecessor that has no workspace |
| `RolloutInterrupted.RetriedPromotionCompletes` | agent/internal/runtime/promotion.go:117-164 | a promotion that stopped after writing its traffic record is completed by the same promotion again, in the very state of an undisturbed one |
| `RolloutRefusals.PromotionWritesInOrder` | agent/internal/runtime/promotion.go:117-164 | of a promotion that stops, the traffic record is written iff it stopped behind it, and the cache only if it did not stop |
| `RolloutRefusals.RollbackWritesInOrder` | agent/internal/runtime/rollback.go:244-300 | of a rollback that stops, commanded root, traffic record, note and cache are each written iff it stopped behind them; a lost note alone does not stop it |
| `RolloutInterrupted.InterruptedPromotionAgreesExactlyWhen` | agent/internal/runtime/service.go:951-971 | left as it is, it keeps cache and traffic in agreement iff it promoted the live revision again with nothing draining |
| `RolloutInterrupted.InterruptedPromotionIsUndoneExactlyWhen` | agent/internal/runtime/rollback.go:404-442 | rolled back instead, it returns to the revision that was live iff the cache names no earlier predecessor; else it skips that revision |
| `RolloutInterrupted.RetriedStrayRollbackCompletes` | agent/internal/runtime/rollback.go:244-300 | a rollback of a stray that stopped after its traffic record is completed by the same rollback again |
| `RolloutInterrupted.RetriedLiveRollbackGoesWrong` | agent/internal/runtime/rollback.go:404-442 | one of the live revision never is: with a predecessor in the cache the retry is refused, without one it sends traffic back to the revision to be rolled back |
| `RolloutInterrupted.UnnotedRollbackIsSafeExactlyWhen` | agent/internal/runtime/rollback.go:282-299 | a rollback whose note on the candidate is lost keeps the invariant exactly when one with the note does: nothing is live or its revision has a manifest |
| `RolloutInterrupted.OnlyTheNoteBarsPromotion` | agent/internal/runtime/rollback.go:483-514 | with the note a rolled back revision is never promoted again; without it a promotion is accepted or refused as it was before the rollback |
| `RolloutInterrupted.PromotedAgainAfterUnnotedRollback` | agent/internal/runtime/promotion.go:33-53 | so a revision that was promoted and then rolled back without the note can be promoted once more, with no new gate |
| `Candidate.AtRestHistory` | agent/internal/runtime/candidate.go:63-135 | a saved record has a connected history of allowed edges from prepared to its state, at most six entries, and rests in starting, promotable or failed |
| `Candidate.WalkConnected` | agent/internal/runtime/candidate.go:90-116 | moving along allowed edges keeps the history connected and adds one entry per move |
| `Candidate.ComesBefore` | agent/internal/runtime/candidate.go:118-135 | which states may come before each state |
| `Candidate.PathsGoStraight` | agent/internal/runtime/health_gate.go:236-285 | the moves of gate and rollback are allowed edges without a detour, to promotable through healthy and to failed through unhealthy |
| `Candidate.CandidateRecord.MoveTo` | agent/internal/runtime/candidate.go:90-116 | a move is accepted iff it is to the same state or an allowed edge, and then appends exactly that entry |
| `Candidate.CandidateRecord.MoveToPromotable` | agent/internal/runtime/health_gate.go:236-264 | accepted from starting, unhealthy, healthy and promotable only, along the stated path |
| `Candidate.CandidateRecord.MoveToFailed` | agent/internal/runtime/health_gate.go:266-285 | accepted from every state but prepared, along the stated path |
| `Candidate.CandidateRecord.AnnotateRolledBack` | agent/internal/runtime/rollback.go:483-514 | a rollback fails promotable, healthy and unhealthy records and leaves the others |
| `RolloutAgent.Agent.HandlePrepare` | agent/internal/runtime/service.go:277-333 | the handler changes cache and roots as the prepare step says, also when its root cannot be removed |
| `RolloutAgent.Agent.HandleRenderConfig` | agent/internal/runtime/service.go:392-451 | a rendered configuration marks its revision as pending, as the render step says |
| `RolloutAgent.Agent.HandleStart` | agent/internal/runtime/service.go:335-390 | the handler changes record and cache as the start step says |
| `RolloutAgent.Agent.HandleRunGate` | agent/internal/runtime/service.go:642-793 | the loop over verdicts and the record moves amount to the gate step |
| `RolloutAgent.Agent.HandlePromote` | agent/internal/runtime/service.go:909-994 | traffic and the cache fields written one by one amount to the promote step, or to the part of it before any write that fails |
| `RolloutAgent.Agent.HandleRollback` | agent/internal/runtime/service.go:996-1085 | roots, traffic, record and cache written one by one amount to the rollback step, to the part of it before a write that fails with an error, or to all of it but the note on the candidate, whose failure is only logged |
| `RolloutAgent.Agent.HandleCollect` | agent/internal/runtime/garbage_collect.go:12-134 | the protected set built by a loop and the removals in directory order amount to the collect step; done iff no unprotected root is stuck; every root named by the command or the cache is there unchanged, and when done no other is |
| `RolloutAgent.RemoveUnprotected` | agent/internal/runtime/garbage_collect.go:100-134 | the loop removes the unprotected roots in order up to the first that is stuck, which keeps what its failed removal leaves |
| `MeshLaws.FoundationKeepsInv` | agent/internal/runtime/mesh_manager.go:761-903 | a foundation over services with distinct names establishes: every route's two peers are in the membership, a route is private iff its ends differ, and the cache agrees with every route of the same service, alias and target |
| `MeshLaws.EnsureKeepsInv` | agent/internal/runtime/mesh_manager.go:358-522 | ensuring peers keeps that |
| `MeshEffects.EnsureSetsExactlyTheAddressed` | agent/internal/runtime/mesh_manager.go:429-478 | of any state: every remote peer whose ref, target and kind do not differ from the non-blank filter fields ends removed if leaving or removed was asked and active otherwise; local and other peers, routes, cache, report and links stay |
| `MeshEffects.EnsureRefusesExactlyWhen` | agent/internal/runtime/mesh_manager.go:358-461 | each reason to turn an ensure away is given iff it holds and no earlier one does, and then nothing is written |
| `MeshEffects.SyncRefusesExactlyWhen` | agent/internal/runtime/mesh_manager.go:548-615 | the same for a sync, for which tailscale is reserved |
| `MeshEffects.BuildLaysEveryRoute` | agent/internal/runtime/mesh_manager.go:761-879 | after a build each dependency has its route between the peers where its ends are placed: local and active if they have one name, else private, planned and with the public fallback blocked |
| `MeshEffects.BuildListsPeers` | agent/internal/runtime/mesh_manager.go:881-903 | after a build the first peer is the local one and the only active one, at the first of target, target reference and project that is not blank; all others are remote and planned, every end of a route is listed, no name twice, and there is one route for each dependency |
| `MeshEffects.BuildWritesInOrder` | agent/internal/runtime/mesh_manager.go:242-330 | which files a build has written when one of its writes fails; outside mesh mode it writes nothing and is done |
| `MeshEffects.LastPeerCounts` | agent/internal/runtime/mesh_manager.go:616-624 | of two peers with one name in a file the later one counts |
| `MeshEffects.FirstDeclaration` | agent/internal/runtime/mesh_manager.go:1027-1034 | the placement that counts for a name is that of the first service with the name |
| `MeshEffects.NoDeclaration` | agent/internal/runtime/mesh_manager.go:1027-1034 | and none if no service has it |
| `MeshEffects.VerifiedExactlyWhenReachable` | agent/internal/runtime/mesh_manager.go:616-665 | after any run followed by build, ensure and sync, a private route is verified iff each of its peers is local or was addressed by an ensure that did not ask for removal, else blocked; a local one always is verified |
| `MeshEffects.BuildEnsureSyncIsActive` | agent/internal/runtime/mesh_manager.go:905-946 | build, ensure all peers active and sync: every peer is active, every route verified, the mesh active |
| `MeshEffects.BuildRemoveSyncIsBlocked` | agent/internal/runtime/mesh_manager.go:429-461 | build, ensure the removal of all peers and sync: every private route is blocked, and the mesh degraded |
| `MeshEffects.SyncDecidesEachRoute` | agent/internal/runtime/mesh_manager.go:616-660 | in any state, which fields of a local and of a private route a sync sets, and to what |
| `MeshEffects.SyncRewritesTheCache` | agent/internal/runtime/mesh_manager.go:1285-1305 | a sync gives each cache entry the fields of the last route that serves it and leaves an entry without one; placements and names in the cache stay |
| `MeshEffects.SyncedStatusExactly` | agent/internal/runtime/mesh_manager.go:625-660 | in any state, reachable or not, when a sync finds a private route verified, degraded or blocked |
| `MeshEffects.SyncWritesLinks` | agent/internal/runtime/mesh_manager.go:1307-1362 | after a sync there is a link record exactly for each pair of peers with a private route between them, counting those routes |
| `MeshLaws.SyncKeepsInv` | agent/internal/runtime/mesh_manager.go:616-665 | a sync keeps that of the rewritten routes |
| `MeshLaws.InvariantIsInductive` | agent/internal/runtime/mesh_manager.go:704-727 | every build, ensure or sync command keeps the promises of the route table, refused or not, whichever of its writes fails |
| `MeshLaws.StepKeepsInStep` | agent/internal/runtime/mesh_manager.go:285-296 | the cache file stays in step with the route table (same dependencies, same fields, same fingerprint) through every command but a build or sync that stops between writing the two; a complete build puts any state in step |
| `MeshLaws.TornSyncIsHarmlessExactlyWhen` | agent/internal/runtime/mesh_manager.go:704-709 | a sync that stops there leaves them in step iff it changes the status and provider of no route |
| `MeshLaws.SyncRepairs` | agent/internal/runtime/mesh_manager.go:1285-1305 | a sync that gets past the cache makes any cache agree with the routes and carry their fingerprint; it is in step then iff it listed the same dependencies before |
| `MeshLaws.NextSyncRepairs` | agent/internal/runtime/mesh_manager.go:704-709 | so the next sync repairs what a stopped one left |
| `MeshWitnesses.TornBuildLeavesTheOldCache` | agent/internal/runtime/mesh_manager.go:285-296 | a build that stops between the two leaves the old cache beside the new table, out of step if the fingerprints differ, and on a fresh binding no cache at all |
| `MeshResolution.RunKeepsInv` | agent/internal/runtime/mesh_manager.go:616-665 | so it holds in every reachable state, and the missing-peer branch of a sync is never taken |
| `MeshResolution.UndisturbedStaysInStep` | agent/internal/runtime/mesh_manager.go:704-709 | in every run in which no write fails there, table and cache are in step |
| `MeshHealth.SyncIsIdempotent` | agent/internal/runtime/mesh_manager.go:625-670 | syncing twice with the same peers equals syncing once |
| `MeshHealth.SyncFindsBothEnds` | agent/internal/runtime/mesh_manager.go:625-665 | in every reachable state a sync finds both ends of a route, and a private route verified iff both are active, else blocked |
| `MeshHealth.HealthAfterSync` | agent/internal/runtime/mesh_manager.go:905-946 | after a sync verified, degraded and blocked add up to all routes, and the mesh is active iff there is a peer, all peers are active and every route is verified |
| `MeshEffects.HealthTellsOfTheMesh` | agent/internal/runtime/mesh_manager.go:905-946 | in every run each number of the summary is the number of peers or routes in those states; the mesh is degraded iff a peer is degraded or a route degraded, blocked or unavailable, else planning iff a peer is not active, else disabled iff there are no peers, else active |
| `MeshHealth.LinkHealthIsTheJoin` | agent/internal/runtime/mesh_manager.go:1324-1346 | a link is unavailable iff one of its routes is blocked or unavailable, else degraded iff one is degraded, else verified with the flag set |
| `MeshHealth.OrderDoesNotMatter` | agent/internal/runtime/resolution.go:321-332 | the fingerprint, a digest of the sorted and joined lines, and the link counts are the same for every order of the routes |
| `MeshFingerprints.FingerprintsAgreeExactlyWhen` | agent/internal/runtime/resolution.go:321-332 | if no target peer holds two bars side by side, two tables have one fingerprint iff they have the same multiset of key, kind, status, provider and target peer |
| `MeshFingerprints.BarredPeersCollide` | agent/internal/runtime/resolution.go:321-332 | with two bars in peer names every table of two routes shares its fingerprint with a table of one |
| `MeshFingerprints.NoBarsSeparate` | agent/internal/runtime/mesh_manager.go:961-971 | dependencies without bars in service, alias, target, protocol and endpoint have one route key iff they are the same |
| `Digests.SortedAlikeExactlyWhen` | agent/internal/runtime/resolution.go:329-330 | sorting makes two lists of lines equal iff they hold the same lines |
| `Digests.JoinedLinesAreKeptApart` | agent/internal/runtime/resolution.go:329-330 | lines of five fields can be told apart in the joined text, although fields may be empty, the last may hold bars and two bars also separate lines |
| `MeshHealth.LinksIgnoreOrder` | agent/internal/runtime/mesh_manager.go:1307-1346 | so is the health of every link |
| `MeshHealth.LinkCountsSumToPrivateRoutes` | agent/internal/runtime/mesh_manager.go:1307-1322 | the route counts of all links sum to the number of private routes |
| `MeshManager.SummarizeHealth` | agent/internal/runtime/mesh_manager.go:905-946 | the counting loops compute the specified summary |
| `MeshManager.WriteThrough` | agent/internal/runtime/mesh_manager.go:1285-1305 | writing one synced route into the cache, route after route, equals rewriting every entry from the last route that serves it |
| `MeshManager.MergeLink` | agent/internal/runtime/mesh_manager.go:1307-1346 | folding routes one by one into link records yields the specified record per link |
| `MeshManager.PlaceServices` | agent/internal/runtime/mesh_manager.go:761-879 | the nested loops over services and dependencies yield the specified peers, routes and cache |
| `MeshManager.SyncRoute` | agent/internal/runtime/mesh_manager.go:616-660 | the branches over the two peers' states yield the specified route |
| `MeshManager.Manager.BuildFoundation` | agent/internal/runtime/mesh_manager.go:242-330 | the manager's files after a build are those of the build step, whichever of its writes fails |
| `MeshManager.Manager.EnsurePeer` | agent/internal/runtime/mesh_manager.go:358-522 | the manager's files after an ensure are those of the ensure step, whichever of its writes fails |
| `MeshManager.Manager.SyncOverlayRoutes` | agent/internal/runtime/mesh_manager.go:548-759 | the manager's files after a sync are those of the sync step, whichever of its writes fails |
| `MeshResolution.ReportStaysCurrent` | agent/internal/runtime/mesh_manager.go:616-759 | from a sync that published its report until the next foundation or broken-off sync, whatever peers are ensured, report, route table and cache fingerprint tell the same story |
| `MeshResolution.PathFollowsTheBuilds` | agent/internal/runtime/resolution.go:98-175 | in every run with table and cache in step, a dependency between different peers takes the path on which the topologies built before put it (the last route with its key in the topology behind the report, else a namesake in the one built last, else private), its public fallback is blocked, and on a local path no reason for doubt is given |
| `MeshAnswers.SamePeerIsLocal` | agent/internal/runtime/resolution.go:98-157 | in any state a dependency on the service's own peer is local, verified, without provider, with the fallback not blocked and no reason given |
| `MeshAnswers.CrossesExactlyWhen` | agent/internal/runtime/resolution.go:98-103 | a dependency crosses iff the names of the two placements differ |
| `MeshAnswers.CrossingFollowsItsRoute` | agent/internal/runtime/resolution.go:128-147 | a crossing one takes path, status and provider from the last route with its key in the report, or in the table if there is no report |
| `MeshAnswers.CrossingFollowsTheCache` | agent/internal/runtime/resolution.go:148-154 | without such a route it takes them from the first cache entry for it |
| `MeshAnswers.CrossingWaits` | agent/internal/runtime/resolution.go:128-140 | with neither it is planned on a private wireguard path with the fallback blocked |
| `MeshAnswers.ReasonsExactlyWhen` | agent/internal/runtime/resolution.go:256-284 | on a private path each of the seven reasons is given iff the files bear it out; on a local path none is |
| `MeshAnswers.PlacementReasonsOverRuns` | agent/internal/runtime/resolution.go:262-270 | in every run, a changed placement is reported iff the build behind the cache had another non-blank fingerprint, and a relocated target iff it had the target under another peer name |
| `MeshAnswers.CacheSaysWhatTheRouteSays` | agent/internal/runtime/mesh_manager.go:1285-1305 | in every undisturbed run a cached dependency has scope, status, provider and flags of every route that serves it |
| `MeshResolution.MovedTargetGoesUnnoticedExactlyWhen` | agent/internal/runtime/resolution.go:128-157 | with a report of topology t0, a dependency with a key of its own that crosses now resolves as verified local without any reason iff it did not cross in t0; the overlay reason is given iff it did and the fingerprints differ; the fallback is blocked although the reported route says blocked iff it crossed in t0 |
| `MeshResolution.OverlayReasonExactly` | agent/internal/runtime/resolution.go:256-284 | in every such run the overlay reason is raised iff the dependency crosses now, the builds put it on a private path, and the non-empty report and route table have different fingerprints |
| `MeshResolution.OverlayReasonNeedsANewFoundation` | agent/internal/runtime/resolution.go:256-284 | it is never raised between a sync and the next foundation |
| `MeshResolution.ResolvedAfterSyncExactlyWhen` | agent/internal/runtime/resolution.go:54-79 | right after a sync, a crossing dependency of the built revision resolves private, verified or blocked by its own two peers, iff the last route that shares its key crosses too, between peers that are both active exactly when its own are |
| `MeshResolution.ResolvedAfterSync` | agent/internal/runtime/resolution.go:98-157 | so it does for every dependency that shares its key with no other |
| `MeshResolution.WithoutBarsKeysSeparate` | agent/internal/runtime/mesh_manager.go:961-971 | which is every dependency if no field holds a bar |
| `MeshWitnesses.EveryMoveGoesUnnoticed` | agent/internal/runtime/resolution.go:256-284 | whatever two topologies are built around a sync, a dependency local in the first and crossing in the second resolves as verified local with no reason |
| `MeshWitnesses.RelocationGoesUnnoticed` | agent/internal/runtime/resolution.go:256-284 | a concrete such run: build, sync, move the database to another node, build |
| `MeshWitnesses.SharedKeyHidesTheCrossing` | agent/internal/runtime/mesh_manager.go:961-971 | the dependencies alias x|y on z and alias x on y|z have one key, and with z on another node the first resolves as verified local right after a sync, with no reason |
| `Capability.DiffReaches` | agent/internal/reporting/reporter.go:247-282 | a diff applied to what was last reported yields the current payload section by section |
| `Capability.SyncIsInductive` | agent/internal/reporting/reporter.go:191-237 | lost messages and delivered, marked messages keep the receiver at the last reported payload, and a marked one brings it to the current one |
| `Capability.ReceiverHoldsTheReport` | agent/internal/reporting/reporter.go:45-85 | in every run of refreshes, lost and marked messages, a marked message leaves the receiver with the sender's payload |
| `Capability.OnlyMarkedMessagesMoveTheSender` | agent/internal/reporting/reporter.go:75-85 | a lost message changes nothing, and an unmarked one changes the receiver as a marked one would but not the sender |
| `Capability.ReceiverHoldsTheText` | agent/internal/reporting/reporter.go:45-85 | even the very text of every section, when no payload carries an empty capability map |
| `Capability.FullReportIsVerbatimExactlyWhen` | agent/internal/reporting/reporter.go:239-245 | a full report is verbatim iff the capability map is not empty, which the fingerprint cannot see |
| `Capability.UnmarkedIsSafeExactlyWhen` | agent/internal/reporting/reporter.go:75-85 | a message that arrives without being marked keeps the receiver in step iff it was not a diff |
| `Capability.UnmarkedDiffStrandsTheReceiver` | agent/internal/reporting/reporter.go:191-237 | report p, let q arrive unmarked, return to p: the next heartbeat says unchanged while the receiver holds q; a handshake repairs it |
| `Capability.VersionRisesExactlyOnChange` | agent/internal/reporting/reporter.go:45-73 | the version is at least one and rises, by one, iff a computed fingerprint changes |
| `Capability.VersionNamesOnePayload` | agent/internal/reporting/reporter.go:45-73 | along any run, versions never fall and one version never stands for two fingerprints |
| `Capability.BaseIsWhatTheReceiverHolds` | agent/internal/reporting/reporter.go:210-236 | in every run of lost and marked messages, the base version and base hash of a diff or unchanged message name what the receiver holds, and no other payload of the sender ever; the base version is the one the receiver was told, if it was told one; a diff's version is above its base |
| `Capability.UpdateNamesWhatItLeaves` | agent/internal/reporting/reporter.go:191-237 | the version and hash of a message that arrives are the sender's and name what it leaves the receiver with |
| `Capability.HandshakeTellsNoVersion` | agent/internal/app/app.go:178-190 | a handshake carries no version, so the next diff is based on one that the receiver was not told |
| `Capability.DiffOver` | agent/internal/reporting/reporter.go:247-282 | the loop over sections yields exactly the changed ones and the ones that became null |
| `Capability.SnapshotState.Reconcile` | agent/internal/reporting/reporter.go:45-73 | the snapshot's fields change as the refresh step says |
| `Capability.SnapshotState.MarkReported` | agent/internal/reporting/reporter.go:75-85 | the reported fields become the current ones, and nothing else changes |
| `Capability.SnapshotState.BuildUpdate` | agent/internal/reporting/reporter.go:191-237 | full, unchanged or diff, as specified, and nothing before a fingerprint exists |
| `Ports.Allocate` | agent/internal/runtime/filesystem_driver.go:149-163 | the probe loop returns the first available candidate of the wrapping sequence |
| `Ports.FirstFitMeans` | agent/internal/runtime/filesystem_driver.go:149-163 | an allocated port was tried, is in range and available; allocation fails iff every tried port is unavailable |
| `Ports.FirstFitIsFirst` | agent/internal/runtime/filesystem_driver.go:149-163 | an allocation takes the port of the first attempt whose port can be had |
| `Ports.ProbeGoesUpwards` | agent/internal/runtime/filesystem_driver.go:153-156 | attempts go upwards from where the seed falls and go back to 20000 behind 45000 and at 2^32 |
| `Ports.EveryPortTriedOnce` | agent/internal/runtime/filesystem_driver.go:153-156 | for seeds below 2^32 - 25000 every port of the range is tried by exactly one attempt |
| `Ports.WrappedProbeTries` | agent/internal/runtime/filesystem_driver.go:153-156 | for the other seeds, exactly which ports are tried |
| `Ports.TriesEveryPortExactlyWhen` | agent/internal/runtime/filesystem_driver.go:153-156 | every port of 20000..45000 is tried iff seed + 25000 < 2^32 |
| `Ports.FailsExactlyWhenFull` | agent/internal/runtime/filesystem_driver.go:149-163 | below the wrap, allocation fails iff no port of the range is free and unreserved |
| `Ports.FailsWithAFreePort` | agent/internal/runtime/filesystem_driver.go:149-163 | above it, allocation can fail while a port of the range is free |
| `Ports.AssignRuntimePorts` | agent/internal/runtime/filesystem_driver.go:102-131 | the loop over services computes the specified assignment, or fails with it |
| `Ports.PortsAreFitAndDistinct` | agent/internal/runtime/filesystem_driver.go:102-131 | non-internal services get pairwise distinct, positive, bindable ports, each the service's declared port and not its own listener, or in the range; nothing else changes |
| `Ports.DeclaredPortIsKeptUnless` | agent/internal/runtime/filesystem_driver.go:114-119 | a service gets its declared port iff it is available and not its own listener, or the probe lands on it |
| `Ports.DeclaredMeans` | agent/internal/runtime/runtime_ports.go:52-68 | the declared port is the health check's, else the target port, else the service port, else the first detected one, whichever is positive first |
| `Ports.DeclaredPortIsGiven` | agent/internal/runtime/filesystem_driver.go:114-126 | in every assignment a service gets a port that it declares if the host can bind it, nobody before has it and it is not its own listener |
| `Ports.ElseTheFirstFitIsGiven` | agent/internal/runtime/filesystem_driver.go:114-126 | any other service gets the port of its first attempt that can be had and is not reserved before it |
| `Ports.InternalExactlyWhen` | agent/internal/runtime/runtime_ports.go:70-73 | internal are the services whose trimmed name starts with the reserved prefix, in any case |
| `Ports.EnoughPortsMeanSuccess` | agent/internal/runtime/filesystem_driver.go:102-131 | with unwrapped seeds and at least as many bindable ports in range as services, no assignment fails |
| `Ports.AllocatedPortCanBeItsOwnListener` | agent/internal/runtime/filesystem_driver.go:121-126 | an allocated port may be the service's own dependency listener |
| `Ports.NeverOwnListenerExactlyWhen` | agent/internal/runtime/filesystem_driver.go:114-126 | for one seed, over all hosts and reservations, a service is never given its own listener port iff its probe tries none of its listeners |
| `Ports.AlwaysClearExactlyWhen` | agent/internal/runtime/filesystem_driver.go:102-131 | the same for whole assignments: wherever the service stands among others, on every host |
| `Ports.NoOwnListenerOutsideTheRange` | agent/internal/runtime/networking.go:97-107 | over all seeds as well: a service is safe from its own listener ports iff they all lie outside 20000..45000 |
| `Postgres.MessageRoundTripExactlyWhen` | agent/internal/runtime/postgres_adapter.go:299-325 | a written typed message is read back, with what follows it, iff its length fits the 32-bit field |
| `Postgres.ReadMessageIsWritten` | agent/internal/runtime/postgres_adapter.go:299-314 | whatever is read, writing it again gives the very bytes |
| `Postgres.CleanParamsAreRead` | agent/internal/runtime/postgres_adapter.go:172-214 | trimmed, non-empty, NUL-free keys with NUL-free values are read back from a startup packet in any order of writing, empty values dropped |
| `Postgres.StartupRoundTripExactlyWhen` | agent/internal/runtime/postgres_adapter.go:278-297 | the same map comes back iff keys are trimmed, non-empty and NUL-free and values non-empty and NUL-free |
| `Postgres.ParsedParamsAreClean` | agent/internal/runtime/postgres_adapter.go:202-214 | parsed keys are trimmed and non-empty and nothing parsed holds a NUL byte |
| `PostgresBridge.SessionIsForwarded` | agent/internal/runtime/postgres_adapter.go:236-275 | on a complete session the client gets exactly the messages other than authentication challenges 3 and 5, in order, up to and including the first ready message, the upstream one answer per challenge, and the bytes behind are left |
| `PostgresBridge.SucceedsExactlyWhen` | agent/internal/runtime/postgres_adapter.go:236-275 | the login succeeds iff the upstream bytes start with such a session |
| `PostgresBridge.ConcatenationRoundTrip` | agent/internal/runtime/postgres_adapter.go:299-314 | decoding concatenated messages returns them in order |
| `PostgresBridge.ClientReadsTheForwarded` | agent/internal/runtime/postgres_adapter.go:316-325 | what the client receives decodes to the forwarded messages, none of which is a challenge |
| `PostgresBridge.UpstreamReadsTheOverriddenParams` | agent/internal/runtime/postgres_adapter.go:216-234 | whatever parameters a client managed to send, the upstream reads them with the configured user and database put in, less the empty ones |
| `PostgresBridge.TlsRequestsAreRefused` | agent/internal/runtime/postgres_adapter.go:189-194 | any number of TLS requests are refused one by one, and the packet behind them is read as if alone |
| `PostgresLogin.SessionLogsIn` | agent/internal/runtime/postgres_adapter.go:232-276 | on a complete session what is sent upstream is one password message per challenge, in order: for a cleartext challenge the password and NUL, for an MD5 one its digest over user and the four salt bytes and NUL |
| `PostgresLogin.UpstreamReadsThePasswords` | agent/internal/runtime/postgres_adapter.go:327-330 | the upstream decodes them so |
| `PostgresLogin.ConfiguredNamesWin` | agent/internal/runtime/postgres_adapter.go:221-230 | a configured user or database that is not blank replaces the client's, trimmed; every other parameter stays |
| `PostgresLogin.DigestUserIsTheOneUpstreamReads` | agent/internal/runtime/postgres_adapter.go:225-231 | the user of the digest, the configured one or else the client's or none, is the one that the upstream reads from the startup packet |
| `PostgresLogin.CodesSpell` | agent/internal/runtime/postgres_adapter.go:187-198 | protocol number, TLS and cancel codes, message types and parameter names, byte by byte |
| `PostgresLogin.MessageFaultsExactlyWhen` | agent/internal/runtime/postgres_adapter.go:299-314 | a message can be read iff the stream starts with one; a length below four is told from a stream that ends |
| `PostgresLogin.StartupFaults` | agent/internal/runtime/postgres_adapter.go:172-200 | cancel requests and packets too short for a code are refused with their reason |
| `PostgresLogin.RefusesExactlyWhen` | agent/internal/runtime/postgres_adapter.go:251-274 | which authentication messages end the login, and with which fault |
| `PostgresLogin.FirstFaultEndsTheLogin` | agent/internal/runtime/postgres_adapter.go:236-275 | the first of them ends it with its fault; until then everything was forwarded and answered, and nothing is written after it |
| `PostgresLogin.PairsUpToTheFirstBlank` | agent/internal/runtime/postgres_adapter.go:202-214 | parameters are read from the fields two by two, up to the first blank key |
| `PostgresLogin.LastPairWins` | agent/internal/runtime/postgres_adapter.go:202-214 | of two values for one key the later one counts |
| `PostgresAdapter.Conn.ReadMessage` | agent/internal/runtime/postgres_adapter.go:299-314 | reads the first message of the stream and no byte more, or reports its fault |
| `PostgresAdapter.Conn.ReadStartupParams` | agent/internal/runtime/postgres_adapter.go:172-200 | the loop over startup packets yields the specified parameters, answers and rest |
| `PostgresAdapter.Conn.WriteStartup` | agent/internal/runtime/postgres_adapter.go:278-297 | the loop over parameters writes the specified packet |
| `PostgresAdapter.ParseStartupParams` | agent/internal/runtime/postgres_adapter.go:202-214 | the loop over fields yields the specified map |
| `PostgresAdapter.StartupUpstream` | agent/internal/runtime/postgres_adapter.go:216-276 | without a password it writes nothing; else it writes the startup packet with the configured names and then forwards and answers as specified: on a complete session the upstream gets one answer per challenge from the trimmed configured password and the user just sent, the client everything else |
| `Dns.ParseQuestionName` | agent/internal/runtime/dns_server.go:341-365 | ends, stays in bounds and computes the specified parse on every input |
| `Dns.AppendQuestion` | agent/internal/runtime/dns_server.go:433-445 | the loop over labels appends the specified question |
| `Dns.RoundTripExactlyWhen` | agent/internal/runtime/dns_server.go:341-365 | parsing an appended question behind any header returns name, type and length iff every label has 1 to 255 bytes |
| `Dns.AcceptsExactlyWhen` | agent/internal/runtime/dns_server.go:341-365 | a question is accepted iff it starts with labels that fit, a zero and four more bytes |
| `Dns.WireAndNameDetermineLabels` | agent/internal/runtime/dns_server.go:433-445 | two label lists with the same wire bytes and the same dotted name are the same |
| `Dns.QuestionEnds` | agent/internal/runtime/dns_server.go:433-445 | a question ends in a zero byte, the type with its high byte first, and class 1 |
| `Dns.ParsedBehindTheName` | agent/internal/runtime/dns_server.go:341-365 | what is read of an accepted question behind its name is the type of those two bytes, and the end of the class |
| `HealthProbe.RunOnPort` | agent/internal/runtime/health_gate.go:327-413 | the result names the first decisive attempt: a success streak, a failure streak, a cancellation between attempts, or none within the attempts allowed |
| `HealthProbe.DecidedByThresholds` | agent/internal/runtime/health_gate.go:348-413 | by the thresholds as configured, one success and three failures if not positive: nothing was decided before the last attempt, which decides by what it completes, and counts are the answers in a row at the end |
| `HealthProbe.OutcomeIsUnique` | agent/internal/runtime/health_gate.go:367-413 | the probe and cancellation sequences determine the result |
| `HealthProbe.PassesExactlyWhen` | agent/internal/runtime/health_gate.go:367-413 | without cancellation a check passes iff S consecutive successes end within S + F attempts before any F consecutive failures |
| `HealthProbe.CancellingOnlyCutsShort` | agent/internal/runtime/health_gate.go:401-408 | cancellation never turns a failing check into a passing one or back |
| `HealthProbe.OneSuccessIsEnough` | agent/internal/runtime/health_gate.go:376-399 | with S = 1 a check passes iff one of the first F probes succeeds |
| `HealthProbe.ExhaustionNeedsBothThresholds` | agent/internal/runtime/health_gate.go:411-412 | some probe sequence exhausts the attempts iff both thresholds are at least two |
| `GatewayManager.Manager.RenderGatewayConfig` | agent/internal/runtime/gateway_manager.go:83-283 | with early returns at every failing file operation, files and outcome are those of the specified render |
| `GatewayManager.Manager.Apply` | agent/internal/runtime/gateway_manager.go:716-745 | copies config and plan, writes record and result, stopping at the first failure |
| `GatewayManager.Manager.Rollback` | agent/internal/runtime/gateway_manager.go:862-892 | copies the previous files back or removes the live ones, stopping at the first failure |
| `GatewayLaws.RollbackRestoresExactlyWhen` | agent/internal/runtime/gateway_manager.go:156-251 | over any files: after a failed apply or reload whose rollback succeeded, live config, plan and record are those of the activation before, or all absent if there was none, iff there was none, or it could be read and its files were not overwritten with something else |
| `GatewayLaws.FreshVersionIsAllOrNothing` | agent/internal/runtime/gateway_manager.go:156-251 | so rendering a version other than the readable active one is all or nothing |
| `GatewayRuns.RenderedMeansServed` | agent/internal/runtime/gateway_manager.go:253-282 | success means every check passed, the version is on record, and live config and plan are its own |
| `GatewayPlans.RenderedLeavesEverything` | agent/internal/runtime/gateway_manager.go:83-283 | success leaves config and plan in the version's place, in the workspace and live, the record, and the results of the three hooks, each with its content; no other file changes |
| `GatewayPlans.PlanNeverLies` | agent/internal/runtime/gateway_manager.go:127-282 | whatever fails, a version's plan on disk says validated, applied, taken back, reloaded or rolled back only as far as it happened; it may lag behind or be torn |
| `GatewayPlans.RecordComesAfterConfigAndPlan` | agent/internal/runtime/gateway_manager.go:716-745 | however applying ends, a new record is there only once live config and plan are the version's |
| `GatewayPlans.UnreadRecordIsTakenAway` | agent/internal/runtime/gateway_manager.go:121-125 | on a disk that only fails to read the record, a render that fails and rolls back takes the live files away, whatever was active |
| `GatewayPlans.RefusingDiskStaysAsItWas` | agent/internal/runtime/gateway_manager.go:83-126 | a disk that refuses every write keeps all its files |
| `GatewayRuns.RecordAfterRender` | agent/internal/runtime/gateway_manager.go:121-125 | whatever fails, the record afterwards is the old one, the new one, or none, and names a version's own files |
| `GatewayRuns.LiveConfigFollowsTheRecord` | agent/internal/runtime/gateway_manager.go:716-745 | in every run without failed rollbacks and without breaking off over the active version's own files, the live config is the content at the record's config path |
| `GatewayRuns.LiveFilesAgree` | agent/internal/runtime/gateway_manager.go:862-892 | if moreover no applied version is left half recorded and failing versions are not the active one, config, plan and record agree or are all absent |
| `GatewayRuns.ActiveVersionWasReloaded` | agent/internal/runtime/gateway_manager.go:253-282 | in every clean run the plan of the version on record notes that the version was reloaded |
| `GatewayRuns.RunRollsBackExactlyWhen` | agent/internal/runtime/gateway_manager.go:156-251 | after a clean run a render that fails and rolls back restores what was live iff nothing was, or the record was read and the version is not the active one |
| `GatewayRuns.FailureLeavesNoTrace` | agent/internal/runtime/gateway_manager.go:156-251 | in such runs a failing render of another version leaves every live file as it was |
| `GatewayRuns.HealthyRendersExactlyWhen` | agent/internal/runtime/gateway_manager.go:83-283 | on a disk that never fails a render succeeds iff plan and config are valid and the reload works |
| `GatewayRuns.RerenderCannotBeUndone` | agent/internal/runtime/gateway_manager.go:213-251 | rendering the active version again with another config cannot be undone: the rollback succeeds and leaves the new config live |
| `HoldQueue.EveryRequestIsAccountedFor` | agent/internal/runtime/gateway_hold_manager.go:69-151 | in every run each accepted request is held, resumed or expired, as multisets, and the counters say how many |
| `HoldQueue.CountersAddUp` | agent/internal/runtime/gateway_hold_manager.go:153-163 | total = rejected + held + expired + resumed |
| `HoldQueue.HeldAsAsked` | agent/internal/runtime/gateway_hold_manager.go:69-96 | in every run each request that is held, resumed or expired was asked for, with its names, when its queue had room, and its deadline is the timeout asked for, or the configured one if that is not positive, after it was held |
| `HoldQueue.HoldsExactlyWhenRoom` | agent/internal/runtime/gateway_hold_manager.go:69-96 | a request is accepted iff its queue is shorter than the maximum, and then stands last in it; other queues stay |
| `HoldQueue.ResumingExactly` | agent/internal/runtime/gateway_hold_manager.go:98-123 | resuming ends the queue; it counts as resumed the requests with their deadline ahead, with multiplicity, and the others as expired |
| `HoldQueue.CollectingExactly` | agent/internal/runtime/gateway_hold_manager.go:125-151 | a collection takes out, over all services, exactly the requests whose deadline has passed, with multiplicity, and counts them |
| `HoldQueue.NothingOverdueIsHeld` | agent/internal/runtime/gateway_hold_manager.go:125-151 | after it a request is held iff it was and its deadline has not passed |
| `HoldQueue.SettingsFallBack` | agent/internal/runtime/gateway_hold_manager.go:51-67 | settings that are not positive fall back to thirty seconds and a hundred requests |
| `HoldQueue.QueuesStaySound` | agent/internal/runtime/gateway_hold_manager.go:79-95 | a queue is never empty, never longer than the maximum, and holds requests of its own service |
| `HoldQueue.ResumesInOrderBeforeTheDeadline` | agent/internal/runtime/gateway_hold_manager.go:98-123 | with a monotone clock, resuming hands back, in the order of holding, exactly the requests whose deadline is still ahead |
| `HoldQueue.SweepsDifferExactlyAtTheDeadline` | agent/internal/runtime/gateway_hold_manager.go:110-139 | resuming and collecting agree on a queue iff no deadline is exactly now |
| `HoldManager.GatewayHoldManager.HoldRequest` | agent/internal/runtime/gateway_hold_manager.go:69-96 | queues, counters and the returned record change as the hold step says; refused iff the queue is full |
| `HoldManager.GatewayHoldManager.ResumeRequests` | agent/internal/runtime/gateway_hold_manager.go:98-123 | so for resuming, with the status of every record of the queue |
| `HoldManager.GatewayHoldManager.CollectExpiredHolds` | agent/internal/runtime/gateway_hold_manager.go:125-151 | so for collecting, in any order of services |
| `HoldManager.GatewayHoldManager.Stats` | agent/internal/runtime/gateway_hold_manager.go:153-163 | the active count is the number of held requests over all services |
| `LogKeys.KeyRoundTripExactlyWhen` | agent/internal/runtime/log_collector.go:377-419 | taking a built key apart gives the trimmed fields iff no field holds the separator, or only the source is set and does not split in five |
| `LogKeys.SameKeyMeansSameFields` | agent/internal/runtime/log_collector.go:377-419 | separable entries share a buffer iff their fields agree |
| `LogLaws.KeyOfAnEntry` | agent/internal/runtime/log_collector.go:377-419 | the key of an entry: none without a source, the source alone if project, binding, revision and service are blank, else the five fields joined; the service label goes before service_name, the own source before the label |
| `LogCollector.EveryEntryIsAccountedFor` | agent/internal/runtime/log_collector.go:96-127 | in every run each admitted entry is buffered or handed out, as multisets |
| `LogCollector.CountersAddUp` | agent/internal/runtime/log_collector.go:96-127 | total = buffered + handed out + dropped + suppressed |
| `LogCollector.BuffersStaySound` | agent/internal/runtime/log_collector.go:102-111 | a buffer is never empty, never longer than allowed, and holds entries of its own key |
| `LogCollector.RepeatsKeepTheirDistance` | agent/internal/runtime/log_collector.go:113-126 | in every run two admitted entries with the same key, severity and message lie at least a cooldown apart |
| `LogCollector.CooldownsComeFromAdmissions` | agent/internal/runtime/log_collector.go:118-126 | a cooldown only ever comes from an admitted entry |
| `LogLaws.IngestionExactly` | agent/internal/runtime/log_collector.go:96-127 | an entry without a key or with a full buffer is dropped, looked at before the cooldown; else it is suppressed within the cooldown, or appended and its cooldown started |
| `LogLaws.SuppressedExactlyWhen` | agent/internal/runtime/log_collector.go:113-126 | in every run an entry with a key and room is suppressed iff the last admitted entry with the same key, severity and message came less than a cooldown before |
| `LogLaws.CollectsExactlyWhatMustGo` | agent/internal/runtime/log_collector.go:177-205 | in every run a collection hands out exactly the buffers whose oldest entry came a reporting interval or the maximal age ago, or that hold a full batch |
| `LogLaws.NothingOverdueIsLeft` | agent/internal/runtime/log_collector.go:177-205 | with a monotone clock, a collection leaves no entry as old as that and no full batch |
| `LogLaws.SettingsFallBack` | agent/internal/runtime/log_collector.go:65-83 | each setting that is not positive falls back to its default, and the others stay |
| `LogBuffers.Collector.Ingest` | agent/internal/runtime/log_collector.go:96-127 | buffers, cooldowns and counters change as the ingest step says |
| `LogBuffers.Collector.CollectExpiredBatches` | agent/internal/runtime/log_collector.go:177-214 | exactly the due buffers are handed out, each as its entries sorted by time, and the others stay |
| `LogBuffers.SortedIsAPermutation` | agent/internal/runtime/log_collector.go:207-211 | sorting a batch by time loses and invents nothing |

## Left out

- Several bindings on one agent: the revision cache is shared by all of them, so the rollout invariants are per binding.
- Interleaved handlers: each command is one step, and the load and save of a state update are not separated.
- Runs of the rollout are of commands handled to their end, rollbacks with the note on the candidate saved, or refused; what a promotion or rollback leaves when a later write fails is stated for that command and the next one (`RolloutInterrupted`), not for runs.
- A candidate record is saved or stays as it was: one that is left half written, and can no longer be loaded, is not modelled.
- Start, prepare and gate handlers whose own record is saved and whose update of the cache then fails.
- Revision paths: a revision identifier stands for its workspace root, and roots hold a manifest flag and a candidate record only.
- The parts of a rollback payload that are decoded from a stored manifest, and runtime, gateway and sidecar restoration: they appear as flags that say whether the stage is ready.
- Deployment events, incidents, histories, timestamps, summaries, logs and JSON: nothing here depends on their content.
- K3s, provisioning of internal services, reconciliation hooks, autosleep, metrics, traces, topology and tunnels.
- Order of peers, routes and links as sorted for output: insertion order is kept, since fingerprints, counts and link health are proved not to depend on the order.
- Digests.Digest: an injective stand-in for the hash of joined text; the truncation of the hash to 48 or 64 bits is not modelled.
- MeshFingerprints.FingerprintsAgreeExactlyWhen: requires target peers without two bars side by side; which tables with such peer names collide, beyond the family of `BarredPeersCollide`, is not characterised.
- Routes with one and the same key keep the order in which they are met; the library sort by key leaves their order open beyond twelve routes.
- A mesh file is written or not: a write that fails half way and leaves a file that cannot be decoded is not modelled.
- Peer details other than placement and state, WireGuard keys and records, and the peer list and text of a link record.
- Public service resolution and endpoint rewriting in the resolver.
- Versions are unbounded, where the snapshot has 64 bits. A capability payload that cannot be marshalled is not modelled.
- The receiver of capability updates is the obvious one: replace on full, overwrite changed and null removed sections on a diff, keep on unchanged, and remember the version of the last update. The control plane's own store is not modelled.
- Ports.IsInternal: lower-cases ASCII letters only, where the source lower-cases Unicode; the names it looks for are ASCII.
- Listener ports of dependencies arrive as numbers; parsing them out of endpoints is not modelled. The probe of a port is answered alike throughout one assignment.
- Postgres.StartupRoundTripExactlyWhen: requires that the packet's length fits its 32-bit field; a longer packet is written with a truncated length.
- PostgresBridge.UpstreamReadsTheOverriddenParams: requires configured names without NUL bytes and a packet that fits.
- PostgresLogin.UpstreamReadsThePasswords: requires a password and digests whose messages fit the 32-bit length.
- Writes to a connection succeed; a failing write only ends the exchange. The MD5 digest is a parameter. Copying bytes after the login is not modelled.
- DNS answers and the lookup of names: they reuse the question codec.
- The choice of ports to probe for a service, timeouts, delays and the softening of failed application checks in the health gate; an attempt's answer is a parameter.
- Building a gateway plan and its checks, TLS observation and log watchers: validity is a flag and plans are compared by the stages noted in them. Creating directories is not a step.
- GatewayManager.Manager.RenderGatewayConfig: version files lie under the revision they belong to, and the collection of old versions is not modelled.
- The lock of the hold manager and of the log collector, and the background loops that call them.
- LogBuffers.Collector.CollectExpiredBatches: promises a sorted batch with the same entries; the order of entries with equal timestamps is left open, as the library sort leaves it.
- Excerpts, line scanning and severity patterns of the log collector, and what becomes of a batch once handed out.
