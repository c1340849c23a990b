# Verification of the Incus ID-map registry and its recovery tools

This Dafny project models the fleet-wide UID/GID registry of the Nova Incus
driver, the tool that exports and restores it, two crash-recovery protocols of
the compute manager, and two algorithms of the scale test, and proves what they
promise. `dafny verify dfyconfig.toml` checks everything.

## The system in its own terms

Every compute process shares one etcd store. An *allocation* gives an instance
one slot of the namespace, that is one range of UIDs and GIDs; it is stored
twice, under the instance and under the slot. A host that materializes the
instance holds a *claim* with a token; a *release intent* is the barrier behind
which claims only drain; the *fence ledger* records claims that were disposed of
because their host was powered off. All writes are compare-and-swap
transactions that also compare a *health record* published, under a live lease,
by one elected auditor.

* `Records`, `Store`, `Registry` hold the records with their parsers' checks,
  the store, the thirteen mutations with the transaction each one compiles to,
  and the well-formed registry.
* `Fleet` and `Runs` make the store a state machine. An action is any write that
  some process could have built from any older snapshot, so stale snapshots,
  lost answers and repeated deliveries are all runs of it. `Preservation`,
  `Effects`, `Replay`, `Guarded`, `Lifecycle`, `Barrier` and `Ranges` prove what
  holds over those runs.
* `Etcd`, `Traffic`, `Reader`, `Aftermath`, `Decisions`, `SlotSearch` and
  `Allocator` are the allocator itself: a class whose methods read, decide, send
  and read again while every other process acts freely in between and any request
  may be lost before or after it takes effect. The store keeps its history as a
  run, so a method's contract can say at which revisions its result was true,
  what it sent, and what every error goes back to.
* `AuditSpec`, `Audit`, `Keys`, `Probe` are the full audit and the probe that
  counts key ranges.
* `Documents`, `Exports`, `Restoration` are the frozen export and restore.
* `Rotation` and `Managed` are the compute manager's volume protocols,
  `Cursor` its rotating batches, `Prefix` the etcd prefix range.
* `Overlap`, `Artifact`, `ScaleRun` are the scale test's sweep and write-ahead log;
  `Codecs` shows that what is assumed of the log's line format can be met.
* `Counterexamples` holds runs in which a promise fails outside its condition.

Two notions recur. An error of the allocator is *excused* when the process was
latched, or its own commit was moved on from before the verifying read; when the
record was rewritten under all sixteen reads, or sixty-four transactions were
turned away; when a read was lost or the fleet's health record was found not to
be current; or when a transaction got no answer and a state seen afterwards does
not show it. A lost answer to a transaction is by itself no excuse. A rotation is
*crossed* when a delete of one of its attachments reaches Cinder while a delete
of the other is outstanding.

## What was found

* A claim transaction that is delivered again after the host was fenced commits
  again: fencing restores everything that the claim compared. The registry then
  holds a live claim under a fenced token and the next full audit stops the
  fleet. `Runs.RunWellFormedExactly` gives the exact condition,
  `Counterexamples.ReplayCanBreakLedger` a run.
* The auditor refreshes its lease after reading a healthy record. The refresh
  prolongs a pending record exactly when another thread of the same process
  demoted the record in between (`Guarded.RefreshProlongsPendingExactly`);
  `Counterexamples.SiblingDemotionProlongsPending` is such a run.
* An operation can raise an integrity error although the registry is in order:
  when its own transaction committed and another commit on the same instance came
  before the verifying read. The allocator's contracts say that an integrity
  error of a process that is not latched means exactly that, or is the answer to
  a state seen during the call; `Counterexamples.IntegrityErrorInOrder` is a run
  with only well-formed revisions.
* A delete of a Cinder attachment that is reported failed may take effect later.
  If the rollback meanwhile deletes the replacement, both attachments are lost.
  This happens exactly when two deletes of one rotation cross
  (`Rotation.LostExactlyByCrossing`, `Rotation.LateDeleteLosesBoth`); all other
  rotation results hold as long as none do.
* In the scale test an append that stops inside its line without ending the
  process leaves an unfinished line. A server created by another worker after
  that is journalled behind it and the log can no longer be read
  (`Artifact.LogReadableExactly`). Likewise a wall clock that steps back between
  request and answer journals a record that no load accepts.

## Assumptions

* Generated UUIDs are fresh where the code relies on it: an allocation's
  identity, a coordinator round (a request with a used round goes nowhere).
* Records stand for their canonical JSON text, digests are collision free, and
  the namespace scan is one map at one revision.
* Requests to Cinder and Nova take effect before they return or never, except
  that a delete of a rotation's attachment may arrive late. Nobody else deletes
  the two attachments of a rotation, and nobody else changes a managed volume
  while its recovery holds the volume's lock.
* A record of the scale test is one line of JSON that decodes to itself, and a
  record written behind unfinished ones does not decode. Its times are finite
  floating-point values, each standing for its rank among them.

## Model

| member | source | states |
|---|---|---|
| Runs.RunKeepsInv | nova/virt/incus/idmap.py:2343-2405 | at every revision of every run, whatever was stale, lost or repeated: records parse, instance and slot records are a bijection of equal records, intents match their generation, claims exist exactly for the listed hosts |
| Preservation.MutationKeepsConsistent | nova/virt/incus/idmap.py:3103-3241 | each of the thirteen committed transactions keeps those relations, however old the view it was built from |
| Runs.RunWellFormedExactly | nova/virt/incus/idmap.py:2330-2341 | a run is fully well formed at all revisions if and only if no committed transaction writes a claim under a token that the fence ledger already holds |
| Replay.FenceLedgerExact | nova/virt/incus/idmap.py:3515-3531 | the same for one transaction: the fence clause survives exactly when no fenced token is written |
| Replay.CommitDisarms | nova/virt/incus/idmap.py:894-901 | a committed transaction cannot commit again in the state it leaves |
| Replay.ReplayIsNoop | nova/virt/incus/idmap.py:894-901 | a replay changes nothing while the keys it compares are as the first commit left them, whatever happened elsewhere |
| Counterexamples.ReplayedClaimBreaksLedger | nova/virt/incus/idmap.py:3216-3228 | wherever a host can claim, claim, fence, and the same claim again leaves a registry that is not well formed, with all three transactions committing |
| Counterexamples.ReplayCanBreakLedger | nova/virt/incus/idmap.py:3216-3228 | a complete run from an empty registry that gets there |
| Guarded.MutationsAreAudited | nova/virt/incus/idmap.py:1370-1388 | a mutation commits only while no failure is published and under a healthy record whose lease was won by an election, then passed a full audit, and was live throughout |
| Guarded.NothingCommitsAfterFailure | nova/virt/incus/idmap.py:1141-1176 | once a failure record exists no mutation commits at any later revision |
| Guarded.FailureIsSticky | nova/virt/incus/idmap.py:1141-1155 | the first failure record is never replaced or removed |
| Guarded.RefreshProlongsPendingExactly | nova/virt/incus/idmap.py:1261-1274 | a refresh decided on the own healthy record prolongs a pending record if and only if the lease is still live and a demotion by the same owner took effect in between; the record is then never promoted |
| Guarded.DemotedRoundIsDead | nova/virt/incus/idmap.py:1301-1323 | a demoted round is never audited, so nothing promotes it again |
| Counterexamples.SiblingDemotionProlongsPending | nova/virt/incus/idmap.py:1261-1274 | a run with a refresh that keeps a pending record alive: another thread's demotion falls between read and refresh |
| Counterexamples.IntegrityErrorInOrder | nova/virt/incus/idmap.py:3229-3241 | a run with only well-formed revisions in which a claim commits, its host gives it back, and the claiming process reports an integrity error |
| Lifecycle.StepMovesClaim | nova/virt/incus/idmap.py:3389-3410 | a claim that keeps its token moves only forward through its states, with a valid bound proof when it becomes clean; a claim that loses it leaves for cause |
| Lifecycle.ClaimLeftForCause | nova/virt/incus/idmap.py:3493-3531 | over a whole run, a token that disappeared did so in a retirement or replacement under proof, an abandonment while unmaterialized, or a fencing that wrote that token to the ledger |
| Lifecycle.ReleasedRangeIsClean | nova/virt/incus/idmap.py:3792-3859 | when a generation is released every claim ever held for it had left in one of these three ways |
| Lifecycle.GenerationPersists | nova/virt/incus/idmap.py:2734-2812 | without a release in between any two revisions that know an instance know the same generation, so concurrent allocations of one UUID agree |
| Barrier.BarrierStopsGrowth | nova/virt/incus/idmap.py:3181-3207 | behind a release intent no claim is added and every claim written ranks strictly below the one it replaces |
| Barrier.ClaimsDrain | nova/virt/incus/idmap.py:3710-3764 | while the barrier stands, committed claim transitions plus the remaining rank never exceed the rank at the start |
| Barrier.BoundedDrain | nova/virt/incus/idmap.py:3710-3764 | at most three transitions per claiming host happen behind the barrier |
| Barrier.PendingClaimCanMove | nova/virt/incus/idmap.py:3455-3531 | while rank remains some transition can commit, so the barrier never deadlocks |
| Barrier.DrainedReleaseCommits | nova/virt/incus/idmap.py:3816-3835 | with no rank left the release of the stored generation commits under the current health record |
| Ranges.AllocationsDisjoint | nova/virt/incus/idmap.py:1593-1599 | two allocations own disjoint ranges inside the namespace, which lies below 2^32 |
| Ranges.ClaimsNeverOverlap | nova/virt/incus/idmap.py:2663-2680 | at every revision claims of different instances on any hosts do not overlap |
| AuditSpec.AcceptsExactly | nova/virt/incus/idmap.py:2330-2405 | the key-by-key checks that can be executed accept exactly the well-formed registries |
| Audit.AuditSnapshot | nova/virt/incus/idmap.py:2407-2437 | the audit passes if and only if the snapshot is well formed, and then lists exactly its records in canonical order |
| Audit.ParseRecordFamilies | nova/virt/incus/idmap.py:2291-2328 | parsing succeeds exactly when every record belongs under its key, and the dictionaries hold exactly the records |
| Audit.ValidateSlots | nova/virt/incus/idmap.py:2343-2369 | the slot pass succeeds exactly when every instance has its mirror and every slot its owner |
| Audit.ValidateHosts | nova/virt/incus/idmap.py:2389-2405 | the host pass succeeds exactly when claims and host lists name each other |
| Probe.ProbeSnapshot | nova/virt/incus/idmap.py:2475-2555 | counting four key ranges of one revision gives the sizes of the four families; the probe fails if and only if the configuration differs or the sizes cannot belong together |
| Keys.FamilyRange | nova/virt/incus/idmap.py:2496-2504 | a key's text lies in the range counted for a family if and only if the key belongs to the family |
| Keys.CountFamily | nova/virt/incus/idmap.py:956-976 | the number of key texts between the family's prefix and its range end is the number of texts of the family's keys |
| Keys.KeyTextInjective | nova/virt/incus/idmap.py:704-728 | no two keys that the allocator knows have the same text, so counting texts counts records |
| Probe.FamiliesOf | nova/virt/incus/idmap.py:2496-2504 | in a consistent registry the four counts are the numbers of assignment, slot, intent and claim records |
| Probe.ConsistentPassesProbe | nova/virt/incus/idmap.py:2480-2495 | every consistent registry passes the probe: the counts follow from the bijection |
| Allocator.Allocator.ReadAssignmentState | nova/virt/incus/idmap.py:2058-2122 | the two reads together return one view that was true at a single revision of the call; no integrity error of its own in any run; a conflict means that the record was rewritten sixteen times, one after the other |
| Reader.SecondRead | nova/virt/incus/idmap.py:2081-2118 | a companion read that finds the same instance record is the whole truth about the instance at that revision |
| Aftermath.CommitStands | nova/virt/incus/idmap.py:3229-3241 | whatever view is true right after a mutation committed shows what the mutation wrote, so a verifying read at that revision succeeds |
| Aftermath.MovedOnBySomebody | nova/virt/incus/idmap.py:3229-3241 | when a later read no longer shows an own commit, another mutation of the same instance committed after it |
| Allocator.Allocator.ReadExact | nova/virt/incus/idmap.py:1032-1075 | a bounded read at one revision at which the health record that the process holds stood, with no failure published; that record is adopted anew at most once; a backend error means a lost message, no healthy record, two refused reads, or one although the record was seen again |
| Allocator.Allocator.RefreshFleetReadGuard | nova/virt/incus/idmap.py:1077-1095 | adopts only a leased healthy record that stood at one revision of the call, and reports whether it differs from the one used; otherwise a failure is published, a message was lost or no healthy record was shown |
| Allocator.Allocator.BeginCoordinatedAudit | nova/virt/incus/idmap.py:1211-1274 | an owner starts from its own healthy record with its lease refreshed, a fresh owner from a pending round that its election recorded, with no health adopted; it gives way only to another auditor, and fails only for a lost message or an own record that is pending or not under its lease |
| Allocator.Allocator.AuditWithLatch | nova/virt/incus/idmap.py:2439-2450 | success means one well-formed revision, an integrity failure one that is not; it latches, and a failure record then stands in the store unless its publication was lost; the elected auditor's success is what its promotion may rest on |
| Allocator.Allocator.RunCoordinatedAudit | nova/virt/incus/idmap.py:1276-1334 | an owner ends behind a healthy record that it published itself in this call, under a lease refreshed or won in it, and behind a listed well-formed revision or, on a routine heartbeat, agreeing counts; a backend error has its cause in the call |
| Allocator.Allocator.Heartbeat | nova/virt/incus/idmap.py:1238-1274 | an owner goes on only on its own healthy record under its own lease, which it has refreshed |
| Allocator.Allocator.AuditAsOwner | nova/virt/incus/idmap.py:1290-1334 | an owner whose scan fails forgets its health and has demoted its healthy record, unless one more message was lost; it fails otherwise only in the promotion |
| Allocator.Allocator.Promoted | nova/virt/incus/idmap.py:1325-1334 | publishing health requires the replaced record to be healthy or its round to have passed a full audit |
| Allocator.Allocator.EnsureFleetHealthy | nova/virt/incus/idmap.py:1336-1368 | success: the health record that the process then holds stood under its lease at one revision of the call; otherwise the process latched, a message was lost, a pending record was seen, the own audit or promotion failed, or another auditor was elected and showed no health either |
| Allocator.Allocator.EnsureInitialized | nova/virt/incus/idmap.py:1521-1541 | a latched process sends nothing and fails |
| Allocator.Allocator.Transact | nova/virt/incus/idmap.py:857-907 | whatever is retried or replayed is the same transaction; true means a commit of exactly it in the call, false a refusal of it under the same health record, a backend error that a delivery of it went unanswered |
| Allocator.Allocator.Settle | nova/virt/incus/idmap.py:3151-3180 | after a success or a lost answer the result is one view read after the last delivery, and after the commit if there was one; an error has its cause after the last delivery, so a lost answer alone never is one |
| Allocator.Allocator.ClaimHost | nova/virt/incus/idmap.py:3103-3243 | success: at one revision of the call the host held this token on the expected generation; sends only claims of this host and token; every error is what a state seen in the call deserves or is excused |
| Decisions.ClaimDecided | nova/virt/incus/idmap.py:3103-3207 | which states `claim` refuses and with which error, exactly; its own token is enough; what is left is attempted, a cleaned claim by replacing it in place |
| Decisions.ChangeDecided | nova/virt/incus/idmap.py:3245-3435 | the same for the three claim transitions: exactly the states refused, and the attempt is on the claim seen and not done already |
| Decisions.RemovalDecided | nova/virt/incus/idmap.py:3455-3708 | the same for the three removals: an absent claim needs nothing |
| Decisions.BarrierDecided | nova/virt/incus/idmap.py:3710-3742 | the same for the release request: only another name's barrier stands in the way |
| Decisions.AttemptCommits | nova/virt/incus/idmap.py:3122-3228 | what any of these attempts commits wherever the state it was decided on still holds and the health record stands, so only somebody else's write turns it away |
| Allocator.Allocator.ChangeClaim | nova/virt/incus/idmap.py:3245-3435 | success: at one revision of the call exactly this claim was in the wanted state, with exactly this proof; every error answers a state seen in the call or is excused |
| Allocator.Allocator.RecordClaimProof | nova/virt/incus/idmap.py:3437-3453 | an invalid proof is a configuration error before anything is sent; a recorded one is the one handed in; other errors answer a state seen or are excused |
| Allocator.Allocator.RemoveClaim | nova/virt/incus/idmap.py:3553-3708 | success: at one revision of the call the host had no claim on the instance; only the sanctioned removal is sent; every error answers a state seen or is excused |
| Allocator.Allocator.FenceRetireClaim | nova/virt/incus/idmap.py:3455-3551 | an incomplete fence record is refused before anything is sent, one naming another host or instance before any mutation is; errors on a proper one answer a state seen or are excused |
| Allocator.Allocator.RequestRelease | nova/virt/incus/idmap.py:3710-3764 | success: at one revision of the call exactly this intent stood for the expected generation; every error answers a state seen, is excused, or refuses an invalid name |
| Allocator.Allocator.ReleaseAllocation | nova/virt/incus/idmap.py:3792-3859 | true: the instance was unallocated at one revision of the call; false: another intent, none or a claiming host was seen, or the release was turned away and an allocation seen after that; every error is excused |
| Allocator.Allocator.AllocateRange | nova/virt/incus/idmap.py:2734-2812 | the outcome below, for any interleaving and any lost answers; a conflict is the preference's own, a barrier, a record rewritten sixteen times, another slot, or a slot owned although nothing was sent since the instance was unallocated; a backend error is trouble, an unconfirmed transaction, or a refusal that nothing seen explains |
| Decisions.SearchConcludes | nova/virt/incus/idmap.py:2763-2812 | the result stood at one revision, on the preferred base if given; exhaustion saw every slot owned; alone, an unallocated instance gets the first slot of the probe order that was free at the start, and exhaustion means that none was |
| SlotSearch.ProbeVisitsOnce | nova/virt/incus/idmap.py:2755-2759 | the probe order visits every slot exactly once |
| SlotSearch.PreferredSlotExact | nova/virt/incus/idmap.py:2663-2680 | a preferred base is accepted if and only if it is the base of a slot of the configured size, and then for that slot |
| Decisions.PreferenceExact | nova/virt/incus/idmap.py:2741-2749 | which base and size are refused and with which error, exactly; any other base stands for its slot, and a size alone for any slot |
| Prefix.PrefixRangeEnd | nova/virt/incus/idmap.py:957-966 | raises exactly for a prefix of maximal bytes; otherwise cuts them and increments the last other byte |
| Prefix.RangeIsPrefix | nova/virt/incus/idmap.py:957-976 | a key lies in the half-open range if and only if it starts with the prefix |
| Documents.ValidateRestoreDocument | tools/openstack-incus-idmap-registry.py:163-274 | accepts exactly the documents that describe one registry of this namespace in canonical order |
| Exports.RegistryDocument | tools/openstack-incus-idmap-registry.py:75-108 | exports only a well-formed snapshot whose lists are the caller's, as the export of that snapshot; an integrity error is exactly one not well formed, a conflict one with other lists |
| Exports.ExportIsValid | tools/openstack-incus-idmap-registry.py:75-108 | the export of a well-formed registry passes validation |
| Exports.ExportIsExact | tools/openstack-incus-idmap-registry.py:48-72 | the export says exactly the records of the registry, fence ledger aside |
| Exports.ExportRestoresExactly | tools/openstack-incus-idmap-registry.py:303-342 | a registry that is exactly the export has the exported registry's records, key by key |
| Restoration.RestoreNeverOverwrites | nova/virt/incus/idmap.py:3013-3051 | a committed restore transaction only creates keys of its own allocation |
| Restoration.FrozenRegistry.Restore | nova/virt/incus/idmap.py:2914-3091 | overwrites nothing, adds nothing else, succeeds only when exactly the allocation, its claims and its barrier stand, and always does in the absence of faults from any earlier stopping point; any partial or different state is refused and left alone |
| Restoration.FrozenRegistry.RestoreRegistry | tools/openstack-incus-idmap-registry.py:303-342 | on success and failure alike nothing stored changes and nothing foreign is added; success means exactly the document; a fault-free rerun succeeds from an empty namespace or from wherever earlier runs stopped; a registry that is not in order or holds a foreign allocation or barrier is refused and left alone |
| Rotation.Volume.Advance | nova/virt/incus/manager.py:940-1007 | from any phase and any fault, unless deletes crossed: the old or the recorded replacement attachment exists for sure; success ends in bdm-rotated or changes nothing; an uncertain create is never acted on; fault-free it reaches bdm-rotated exactly when the attachments allow it and otherwise deletes nothing |
| Rotation.Volume.CreateReplacement | nova/virt/incus/manager.py:911-938 | at most one create request per record; the old attachment stays; fault-free it ends with the new attachment on record |
| Rotation.Volume.DeleteFormer | nova/virt/incus/manager.py:955-979 | the old attachment is given up only while the recorded replacement exists for sure; fault-free exactly when that is usable and the old one attached or gone, else nothing changes |
| Rotation.Volume.RecoverFailed | nova/virt/incus/manager.py:5084-5161 | rollback from any phase and any fault: while the record stands one of the two attachments does, and once it is gone Nova names one that exists for sure; no create; a fault-free rollback succeeds exactly where the attachments allow it, and one that cannot tell which attachment to keep deletes nothing |
| Rotation.Volume.RestoreNewOwner | nova/virt/incus/manager.py:4802-4880 | once the record is removed Nova names the replacement, which exists for sure, and the old attachment is gone; fault-free it ends so exactly when the attachments allow it, with the replacement attached |
| Rotation.Volume.Release | nova/virt/incus/manager.py:5419-5582 | the successful end: once the record is removed Nova names the replacement, which exists for sure, and the old attachment is gone; without faults it ends so exactly when the target is attached and the old attachment not reserved again, else nothing changes |
| Rotation.Volume.RetireTerminal | nova/virt/incus/manager.py:4882-5045 | a terminal record is removed only when exactly one of the two attachments is left and Nova names it; without faults exactly then |
| Rotation.Volume.Transition | nova/virt/incus/driver.py:10471-10506 | one durable phase change of exactly the expected record, along the legal edges |
| Rotation.Volume.Reruns | nova/virt/incus/manager.py:1029-1039 | any number of rotations of boot and data volumes, each cut short anywhere: every finished record ended terminal, with one create at most and exactly one attachment, and the present one is lost if and only if its deletes crossed |
| Rotation.Volume.LostExactlyWhenCrossed | nova/virt/incus/manager.py:5114-5136 | in every reachable state both attachments are gone or about to go if and only if two deletes crossed under the present record |
| Rotation.LostExactlyByCrossing | nova/virt/incus/manager.py:961-979 | over any sequence of delete requests and late arrivals, both attachments are lost in the end if and only if some request reached Cinder while a delete of the other was outstanding |
| Rotation.LateDeleteLosesBoth | nova/virt/incus/manager.py:5114-5136 | the sequence that loses both: a failed delete of the old attachment, a rollback that deletes the replacement, and the late arrival |
| Managed.Volume.AttachVolume | nova/virt/incus/manager.py:645-683 | success means that Nova and Cinder have the volume with this connection; once begun, the intent is retired only when the host has it too; without faults it is |
| Managed.Volume.DetachVolume | nova/virt/incus/manager.py:697-749 | success means that host and Cinder let go, and Nova too when it destroys the mapping; a detach that does is retired only when all three agree; without faults it is |
| Managed.Volume.RecoverAttach | nova/virt/incus/manager.py:5584-5680 | recovery retires the intent only when all three agree, and leaves an attachment that Cinder reports attached as it is; from every state whose evidence is consistent it finishes without faults, and from any other it refuses and changes nothing |
| Managed.Volume.RecoverPending | nova/virt/incus/manager.py:4261-4315 | the same for the window before the driver ran or after everything committed |
| Managed.Volume.RollbackAttach | nova/virt/incus/manager.py:4371-4451 | the attachment goes only after the host mapping, the mapping in Nova only after both, the evidence only when all are gone; a contradictory state is refused and left alone |
| Managed.Volume.RecoverDetach | nova/virt/incus/manager.py:4054-4231 | the same for detach; one that keeps the mapping is never finished once the driver has started; from every state whose evidence is consistent it finishes without faults, and from any other it refuses and changes nothing |
| Managed.Volume.RecoverAttachRepeatedly | nova/virt/incus/manager.py:5584-5680 | repeated attempts cut short anywhere end in agreement whenever the intent is gone |
| Cursor.Task.Cycles | nova/virt/incus/manager.py:1751-1762 | from any cursor, enough cycles to cover n candidates by count do work on every one |
| Cursor.Task.NextBatch | nova/virt/incus/manager.py:1867-1873 | one batch of consecutive candidates going round, and the cursor behind it |
| Overlap.IdmapOverlapErrors | tools/openstack-incus-scale-e2e.py:264-297 | the reports are exactly the colliding pairs of the fleet, each once; none if and only if all ranges of a kind are pairwise disjoint |
| Overlap.PairsReordered | tools/openstack-incus-scale-e2e.py:279-283 | the all-pairs reference does not depend on the order |
| Overlap.SweepLine | tools/openstack-incus-scale-e2e.py:284-296 | what pruning leaves active is everything that the next range collides with |
| Artifact.LogReadableExactly | tools/openstack-incus-scale-e2e.py:970-995 | a log can be read back if and only if no append that finished its line came after one that did not; then exactly the finished records are read, in order |
| Codecs.SampleCodecOk | tools/openstack-incus-scale-e2e.py:748-752 | a line format with the properties that are used of a record's text exists |
| Artifact.ReplayTwice | tools/openstack-incus-scale-e2e.py:763-809 | replaying an absorbed log changes nothing |
| ScaleRun.LoadedArtifact.ApplyRecord | tools/openstack-incus-scale-e2e.py:763-809 | the in-place update computes the specification and fails exactly where it does |
| ScaleRun.LoadCleanupArtifact | tools/openstack-incus-scale-e2e.py:962-1009 | succeeds exactly when snapshot and log recover to distinct servers, with that state |
| ScaleRun.Run.CreateOne | tools/openstack-incus-scale-e2e.py:1948-1980 | whatever happened before, the disk keeps telling all that the run knows unless the record contradicts it; on a healthy run a failed append costs at most its own server; after a torn append one more server makes the log unreadable; without a failed write it is journalled |
| ScaleRun.Run.Save | tools/openstack-incus-scale-e2e.py:1247-1252 | a crash between snapshot and removal of the log loses and duplicates nothing, also after failed appends; a full save, which only a crash prevents, makes the run healthy again |
| ScaleRun.Run.CrashRecovers | tools/openstack-incus-scale-e2e.py:962-1009 | after a crash at any moment the artifact loads if and only if no unfinished line precedes a finished one; then every server that the run knows is loaded exactly once with its data, and every loaded server is known to the run or was journalled whole |
| ScaleRun.Run.Campaign | tools/openstack-incus-scale-e2e.py:1961-1980 | the same over any number of creations, failures, saves and crashes between their steps |

## Left out

- HTTP, TLS, authentication, base64 and JSON syntax: foreign input and output; a request may be lost or repeated.
- Reason strings, logging and timing: a lease may lapse at any time.
- bootstrap of a live fleet: the fleet machine starts with its configuration record; an empty namespace is bootstrapped in `Restoration` only.
- Prefix listings used as hints (release candidates, host claims): every decision rereads exactly.
- assert_startable, adopt, get: one read each.
- Etcd answers that are malformed rather than missing: they count as lost answers.
- Restoration.FrozenRegistry.Submit: the health guard of a frozen recovery is one more reason for a fault, since nobody else acts.
- Rotation.Volume.Prepare: the managed-intent checks before a rotation and the migration, generation and connection-info checks of its retirement are arbitrary refusals.
- Restoration.FrozenRegistry.Restore: other writers are excluded, since the registry is frozen while it is restored.
- Managed.Volume.NovaAttach: Nova's own flow is upstream code; it is modelled as its order of effects with an arbitrary failure path.
- Managed.Volume.RecoverDetach: Cinder's volume status is an arbitrary refusal.
- Live migration, Manila shares, migration-target recovery, telemetry, quota and Placement audits: their decisive steps lie elsewhere.
- Documents.ValidateRestoreDocument: JSON typing and duplicate keys are syntax.
- Overlap.IdmapOverlapErrors: requires non-empty ranges, which is what the inventory parser delivers (tools/openstack-incus-scale-e2e.py:252-257).
- ScaleRun.Run.CreateOne: the create request itself and the timing source are outside; only the recorded values enter.
