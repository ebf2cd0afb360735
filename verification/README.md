# UPM control plane: a verified model

UPM has one Central control plane and many Sites that keep working offline. They exchange
numbered, durable events. This project models the parts of Central, and of the Site code that
answers it, whose correctness spans many operations, and proves what every run keeps.

| module | subject |
|---|---|
| Deployments, SiteProjection, DeploymentLane, SiteStream, StreamDrain | the revisioned deployment protocol: Central's record, the Site's projection, one deployment end to end, many over one shared stream of batches, and exactly when that stream runs dry |
| OutboundChannel, OutboxTables, CentralStore | the numbered outbox per Site, polling and acknowledging, and Central's transactions over it |
| EventEdits | editing an Event: re-zoning its sessions and publishing it in one transaction |
| SiteInbox | the receipt-and-cursor gate for Site events and what each event type does |
| Relational, EventDeletion, EventDeletionResults, EventDeletionRun, PeopleRemoval | Central's schema with its foreign keys and the ordered lifecycle deletions |
| Digests, FileReplication, StorageReplication, MediaPull | resumable, crash-safe transfer of media |
| Promotion | confirming staged media with concurrent workers |
| ImportBatches, ImportReview, Materialization, GroupedSessions, LocalTime | program import, the presentation of every imported session, and local schedule times |
| BoundedRunner | the browser's bounded upload loop |

Each database transaction is one atomic step; a method that models one either reaches its
specified state or restores the old one. Steps of different actors interleave freely. Classes
follow the objects and tables that the source updates in place; their methods are proved
against functions, and the theorems are lemmas about those functions.

Identities are natural numbers, and new ones are assumed unused. A digest determines the
content it was taken of. Foreign keys are checked at the end of each statement, as PostgreSQL
does for these constraints.

## What the proofs found

Properties that hold only under a condition are proved with the exact condition.

- `retry_deployment` on a deployment whose current revision is a revocation sends the revocation
  again; the Site inserts the same revision row a second time, the whole pulled batch is rolled
  back, and that Site's stream stops where the batch begins (`StreamDrain.BatchRefusedExactly`,
  `StreamDrain.RefusedPollStays`). Ordinary operations reach this, because a late failure report
  turns REVOKED into FAILED (`DeploymentLane.UnluckyRunBlocks`). Exactly these retries do it
  (`StreamDrain.StepPoisonsExactly`).
- A report about a deployment that was deleted with its Event is refused, so the Site's inbound
  stream halts there (`SiteStream.DeletionHaltsReports`); exactly the deletions made while the Site
  still has something to say bring it about (`StreamDrain.StepDeafensExactly`).
- The content endpoint never cuts the stored bytes back to the confirmed offset: a block that was
  stored without Central's commit strands the session (`StorageReplication.CanFinishExactly`). The
  file-based receiver recovers from the same crash (`FileReplication.HonestSenderCanFinish`).
- Deletion of an Event succeeds exactly when nothing outside it refers to what it deletes; a
  presentation that a Site placed on another Event's session is enough to prevent it
  (`EventDeletionResults.CrossEventSessionBlocks`).
- An analysis that fails late un-confirms a confirmed import
  (`Promotion.AnalysisFailureUndoesConfirmation`), and nothing else breaks what promotion promises
  (`Promotion.RunKeepsInvExactly`). Cancelling does not stop a queued promotion.
- Materialization may take a presentation from another session by its code
  (`Materialization.LosesExactly`), against its comment that it only reuses; exactly when a repair
  is incomplete for that reason is `Materialization.RepairCompleteExactly`.
- In `runBounded`, `beforeEach` runs outside the `try`: its rejection loses the claimed value and
  ends that runner (`BoundedRunner.QuietAccounting`).
- Re-zoning an Event there and back shifts a time by the overlap if it was the second showing of a
  repeated wall time (`LocalTime.RezoneRoundTrip`, `EventEdits.EditedBackExactly`).

## Model

| member | source | states |
|---|---|---|
| `Deployments.RunKeepsSound` | central/python/src/upm_central/event_deployments.py:448-610 | After a creation and any sequence of pushes, retries, revocations and arbitrary Site reports: acknowledged <= desired, the revision log is exactly 1..desired, DEPLOYED implies acknowledged == desired, and the queued revisions never decrease and end at desired |
| `Deployments.ActKeepsSound` | central/python/src/upm_central/sync.py:184-222 | One operation or report, however untimely, keeps all of that and never lowers a counter or rewrites a stored revision |
| `Deployments.RunIsMonotone` | central/python/src/upm_central/sync.py:187-220 | Acknowledged and desired revisions never go back over any run from any sound record |
| `Deployments.OperationsNeverAbort` | central/python/src/upm_central/event_deployments.py:46-103 | Of a sound record push fails exactly when it is revoked, retry exactly when it has not failed, revoke never; a push raises desired by one and a retry changes only the status |
| `Deployments.PermitsByTarget` | central/python/src/upm_central/event_deployments.py:46-103 | The transition table read backwards: from which statuses each status can be reached |
| `Deployments.RefusedExactly` | central/python/src/upm_central/event_deployments.py:448-610 | Of any record, sound or not: the statuses and logs on which push, retry and revoke are refused, and which kind a push publishes |
| `Deployments.OperationPublishes` | central/python/src/upm_central/event_deployments.py:448-610 | What push, retry and revoke publish and leave, field by field: kind, revision, status, the log before it untouched, and the acknowledged revision never moved by Central itself |
| `Deployments.ReportAssigns` | central/python/src/upm_central/sync.py:187-220 | What each kind of report makes of counters and status: the acknowledged revision becomes the larger of what it was and what is reported, but never passes desired |
| `Deployments.RunRequestsOnce` | central/python/src/upm_central/event_deployments.py:448-567 | Over any run exactly revision 1 is a request, and a retry queues the last row again as it was |
| `Deployments.LateReportUndoesRevocation` | central/python/src/upm_central/sync.py:187-206 | An applied or stale report on a revoked record assigns UPDATE_PENDING or DEPLOYED, with the exact condition for each, a move the transition table forbids |
| `Deployments.CreatedIsPushed` | central/python/src/upm_central/event_deployments.py:500-526 | The state creation commits is the first push of a fresh record, and it is sound |
| `Deployments.UnpublishedDraftWouldBreak` | central/python/src/upm_central/sync.py:187-206 | Why the invariant starts at creation: on a record never pushed an applied report would make every later push fail |
| `DeploymentLane.QuietMeansConverged` | central/python/src/upm_central/event_deployments.py:448-610 | For every interleaving of Central operations, Site pulls and report deliveries: once both queues are empty, acknowledged equals the Site's applied revision and Central's status says exactly how the Site stands |
| `DeploymentLane.RunKeepsInv` | site/python/src/upm_site/event_deployments.py:547-632 | The invariant tying Central's record, the rows, the Site's projection and its reports, over every run |
| `DeploymentLane.PullShape` | site/python/src/upm_site/event_deployments.py:547-632 | What one delivered row does to the Site: nothing if known, one failure report, or its revision applied and reported |
| `DeploymentLane.NewRowOutcome` | site/python/src/upm_site/event_deployments.py:547-632 | A newer snapshot takes effect exactly if it is usable, a newer revocation exactly if the deployment is known; otherwise one failure is reported and the revision in force stays |
| `SiteProjection.KnownSnapshot` | site/python/src/upm_site/event_deployments.py:565-577 | A snapshot that is not newer changes no program data and is answered once: applied if it is the one in force, stale if older |
| `DeploymentLane.KnownRowChangesNothing` | site/python/src/upm_site/event_deployments.py:58-72 | A row sent again is recognised by its status key and leaves the Site and its log exactly as they were |
| `DeploymentLane.BlockedExactlyOnResentRevocation` | site/python/src/upm_site/event_deployments.py:605-631 | A row fails to apply exactly when it is a revocation whose revision the Site already holds, because the projection row is inserted again |
| `DeploymentLane.BlockedForever` | site/python/src/upm_site/sync_transport.py:257-285 | A stopped stream stays stopped, whatever Central does afterwards |
| `DeploymentLane.RetriedRevocationBlocks` | central/python/src/upm_central/event_deployments.py:528-567 | Retrying a revocation the Site has carried out stops that Site's stream for good |
| `DeploymentLane.UnluckyRunBlocks` | central/python/src/upm_central/sync.py:209-212 | A concrete run of ordinary operations reaches that stop: a late failure report turns REVOKED into FAILED and the operator retries |
| `DeploymentLane.StepDooms` | central/python/src/upm_central/event_deployments.py:528-567 | Exactly which step queues a row that the Site will not be able to apply: a retry that sends a revocation again to a Site that knows the deployment or will; only a failing snapshot undoes that |
| `DeploymentLane.PrudentIsNeverDoomed` | central/python/src/upm_central/event_deployments.py:528-567 | Runs without such a retry never stop the Site; where every snapshot is usable, they are the only ones |
| `DeploymentLane.DeliveryMakesProgress` | central/python/src/upm_central/event_deployments.py:448-610 | Deliveries decrease a measure, and some delivery changes the state unless it is quiet or stopped |
| `DeploymentLane.SettledRunConverges` | central/python/src/upm_central/sync.py:184-222 | For every run: Central stops acting and the queues are delivered; this ends, with both queues empty exactly when no queued row is a revocation sent again to a Site that will know the deployment, and then both ends agree |
| `DeploymentLane.ReachesDesiredExactly` | central/python/src/upm_central/sync.py:184-222 | For every run: the settled Site holds exactly the desired revision, acknowledged and with the status to match, if and only if nothing queued is doomed and the last row took effect or can |
| `DeploymentLane.UsableRunReachesDesired` | central/python/src/upm_central/sync.py:184-222 | If every snapshot is usable, the settled Site holds exactly the desired revision, with status DEPLOYED or REVOKED to match, if and only if no fatal retry was made, however late any report was |
| `SiteStream.StepProjects` | site/python/src/upm_site/sync_transport.py:257-285 | Refinement: each step of the shared numbered stream is some steps of each deployment alone; a batch that the Site takes is one pull for each of its rows, a batch that is rolled back is none; a deleted deployment is followed until its tombstone is consumed |
| `SiteStream.DrainedSystemConverges` | central/python/src/upm_central/sync.py:111-222 | For many deployments over one lossy, duplicating, reordering channel with batches: when both streams are consumed every live deployment has converged and the Site holds nothing of any other |
| `SiteStream.OtherDeliveriesChangeNothing` | site/python/src/upm_site/sync.py:165-190 | A batch without the next number, and any report but the next, leaves both ends unchanged |
| `SiteStream.DeletionHaltsReports` | central/python/src/upm_central/sync.py:171-183 | After an Event is deleted, the first unheard report about its deployment is refused and no later report of that Site is ever heard |
| `SiteStream.NextDeliveryRefused` | central/python/src/upm_central/sync.py:171-183 | Exactly which next-in-line deliveries the two ends refuse |
| `StreamDrain.BatchRefusedExactly` | site/python/src/upm_site/sync_transport.py:266-275 | A polled batch is rolled back as a whole exactly when one of its rows is a revocation sent again whose deployment the Site will know by then; otherwise all of it is consumed and nobody's prospects change |
| `StreamDrain.RefusedPollStays` | site/python/src/upm_site/sync_transport.py:257-285 | A poll that is rolled back is rolled back for ever, whatever Central does: the Site stays where that batch began |
| `StreamDrain.TakeKeepsUnsettled` | site/python/src/upm_site/event_deployments.py:58-110 | A row makes the Site report exactly when it does not carry the applied revision: what the Site had still to say becomes what it has said |
| `StreamDrain.StepPoisonsExactly` | central/python/src/upm_central/event_deployments.py:528-567 | Over all deployments of a Site: a row that will stop its batches is queued exactly by a retry that sends a revocation again |
| `StreamDrain.StepDeafensExactly` | central/python/src/upm_central/lifecycle.py:505-525 | Central's receiver will halt exactly when a deployment is deleted while the Site has, or will have, something to say about it |
| `StreamDrain.EveryRunDrainsExactly` | central/python/src/upm_central/sync.py:111-222 | For every run, every network and every batch size: delivering what is queued ends, with both streams consumed exactly when no row stops a batch and no report about a deleted deployment is due; then every live deployment has converged |
| `StreamDrain.PrudentRunsDrain` | central/python/src/upm_central/event_deployments.py:448-610 | Runs without a fatal retry or a hasty deletion always drain and converge; with usable snapshots only they do |
| `OutboundChannel.AnyAcknowledgementIsMonotone` | central/python/src/upm_central/api.py:994-1028 | Even for out-of-order acknowledgements: statuses are never withdrawn and the cursor neither goes back nor passes the last number |
| `OutboundChannel.AcknowledgeExactly` | central/python/src/upm_central/api.py:994-1028 | Exactly which acknowledgements are accepted, which rows become acknowledged, and where the cursor goes |
| `OutboundChannel.ServedExactly` | central/python/src/upm_central/api.py:994-1028 | Over any traffic of any Site: a row is acknowledged exactly if an accepted acknowledgement named it when it was there, and the cursor is the highest checkpoint accepted so far |
| `OutboundChannel.PollIsFirstPending` | central/python/src/upm_central/api.py:980-991 | Whatever is acknowledged, a poll answers the pending rows in order, all of them or the first up to the limit |
| `OutboundChannel.HighestIsMaximum` | central/python/src/upm_central/api.py:1021-1025 | The bound a checkpoint is checked against is the highest named row, or the current cursor when none exists |
| `OutboundChannel.AcknowledgedIsAPrefix` | central/python/src/upm_central/api.py:972-1028 | With a Site that consumes numbers in order, over any run with lost, late and repeated acknowledgements, the acknowledged rows are always 1..a and the cursor is exactly a |
| `OutboundChannel.DeliverKeepsInv` | central/python/src/upm_central/api.py:1021-1026 | An acknowledgement such a Site ever sent is never refused and moves the prefix to the later of the two ends |
| `OutboundChannel.RoundsDrain` | central/python/src/upm_central/api.py:980-991 | r rounds of poll, apply, acknowledge take exactly min(n, a + r * limit) rows, so bounded polls drain the queue |
| `OutboxTables.EnqueueKeepsNumbered` | central/python/src/upm_central/sync.py:80-90 | Queueing a row for one Site keeps every Site's numbers exactly 1..n and touches no other Site's queue |
| `OutboxTables.LaterRowsHaveHigherNumbers` | central/python/src/upm_central/sync.py:80-90 | Rows queued later for the same Site carry strictly higher numbers, below the next value |
| `OutboxTables.NumberHasRow` | central/python/src/upm_central/sync.py:80-90 | Every number up to the last one issued is carried by a row of that Site |
| `OutboxTables.NumberIsPosition` | central/python/src/upm_central/api.py:980-991 | A row's number is its position in its Site's queue, and its status is that position's status |
| `CentralStore.Store.NextSequence` | central/python/src/upm_central/sync.py:80-90 | The allocator answers 1 first and n + 1 after n, and stores the successor |
| `CentralStore.Store.EnqueueOutbox` | central/python/src/upm_central/event_deployments.py:416-446 | Appends one pending row with the next number of its Site |
| `CentralStore.Store.CreateSettingEvent` | central/python/src/upm_central/sync.py:387-405 | A setting change is one more row of the same numbered queue |
| `CentralStore.Store.Transition` | central/python/src/upm_central/event_deployments.py:95-103 | Moves exactly when the target is the current status or in the table, and answers the new status |
| `CentralStore.Store.PushDeployment` | central/python/src/upm_central/event_deployments.py:448-497 | Refused without effect or publishes exactly one row: the next revision for its Site, with a snapshot that names exactly the people who take part in the Event and is stored under that revision; numbering is kept |
| `CentralStore.Store.CreateDeployment` | central/python/src/upm_central/event_deployments.py:500-526 | Refused in the order of the checks for an unknown Event, an unknown or inactive Site, an ambiguous room or an existing pair, without effect; otherwise commits a fresh record and its first push |
| `CentralStore.CreationRefusedExactly` | central/python/src/upm_central/event_deployments.py:500-526 | When each refusal is given, in terms of Events, Sites, room labels and assignments |
| `CentralStore.Store.RetryDeployment` | central/python/src/upm_central/event_deployments.py:528-567 | Allowed exactly for FAILED; the stored snapshot of the desired revision always exists and is sent again |
| `CentralStore.Store.RevokeDeployment` | central/python/src/upm_central/event_deployments.py:569-610 | Always goes through and publishes one revocation |
| `Deployments.RecordReport` | central/python/src/upm_central/sync.py:187-220 | The report branches as code assign exactly the specified record |
| `CentralStore.Store.RecordReport` | central/python/src/upm_central/sync.py:187-220 | An accepted report changes that one record and nothing else in the store |
| `CentralStore.Store.PushAll` | central/python/src/upm_central/api.py:724-730 | A fan-out over active deployments never aborts and pushes each exactly once |
| `CentralStore.PushesRaiseByOne` | central/python/src/upm_central/program.py:86-100 | Each pushed deployment's desired revision rises by exactly one |
| `CentralStore.PushOneMore` | central/python/src/upm_central/api.py:724-730 | One more push extends a partial fan-out: its deployment was untouched before and no row is repeated |
| `CentralStore.PublishedKeepsSane` | central/python/src/upm_central/event_deployments.py:448-610 | Publishing keeps numbering, stored snapshots and every record's soundness together |
| `CentralStore.Store.TouchEventProgram` | central/python/src/upm_central/program.py:86-100 | Raises the revision by one, publishes nothing, and names exactly the active deployments |
| `CentralStore.Store.PublishEdit` | central/python/src/upm_central/api.py:718-731 | The fan-out at the end of an edit publishes the Event to every active deployment, each by exactly one revision, or changes nothing |
| `EventEdits.Editor.UpdateEvent` | central/python/src/upm_central/api.py:681-731 | One transaction: refused for an unknown Event, zone or wrong dates without effect; otherwise every session of the Event and no other is re-zoned, and each active deployment gets exactly one more revision |
| `EventEdits.Editor.RezoneSessions` | central/python/src/upm_central/api.py:697-712 | The loop over the Event's sessions and their two scheduled fields |
| `EventEdits.EditKeepsWalls` | central/python/src/upm_central/api.py:697-712 | An edit to a zone where the Event's times are unambiguous keeps every wall clock of its sessions and no other Event's times change |
| `EventEdits.EditedBackExactly` | central/python/src/upm_central/api.py:697-712 | Editing there and back restores the whole schedule exactly when no time was the second showing of a repeated wall time |
| `CentralStore.Store.RunBulkPeopleDeletion` | central/python/src/upm_central/lifecycle.py:381-437 | Afterwards the people are in no Event; first all tombstones were queued, then for each active deployment of an affected Event exactly one snapshot, with its new desired revision, naming everybody who took part but the deleted people, and nothing else |
| `CentralStore.ToldExactly` | central/python/src/upm_central/lifecycle.py:404-416 | The Sites that get a tombstone are exactly those that host an Event one of the people took part in |
| `CentralStore.RepublishedExactly` | central/python/src/upm_central/lifecycle.py:417-437 | Which deployments are raised by one revision and which Events' programs are touched: exactly those somebody deleted took part in |
| `CentralStore.WithoutExactly` | central/python/src/upm_central/lifecycle.py:395-406 | Everybody else takes part in what they took part in before, nobody deleted in anything |
| `CentralStore.RepublicationOneMore` | central/python/src/upm_central/lifecycle.py:404-437 | One more affected Event adds one clean snapshot for each of its due deployments and repeats none |
| `CentralStore.Store.PublishTombstones` | central/python/src/upm_central/lifecycle.py:440-474 | Exactly one tombstone per Site, appended, whatever the order of Sites |
| `CentralStore.TombstonePrecedesSnapshots` | central/python/src/upm_central/lifecycle.py:404-416 | For every affected Site the tombstone's number is below that of each snapshot the same deletion republishes to it |
| `CentralStore.Store.DeleteEvent` | central/python/src/upm_central/lifecycle.py:505-525 | One numbered tombstone to every Site that hosts the Event, then its deployments and revisions are gone and all others unchanged |
| `CentralStore.Store.AcknowledgeCentralEvents` | central/python/src/upm_central/api.py:994-1028 | Exactly the named rows of that Site become acknowledged and its cursor moves to the checkpoint if that is higher, or nothing changes; other Sites' rows and cursors are unchanged |
| `CentralStore.AcknowledgedExactly` | central/python/src/upm_central/api.py:1021-1025 | Accepted exactly if the checkpoint is not above the highest row named, or above the cursor if none is |
| `CentralStore.MarkingIsAcknowledging` | central/python/src/upm_central/api.py:1006-1016 | Marking rows by identity is acknowledging their numbers |
| `CentralStore.Store.MarkEvents` | central/python/src/upm_central/api.py:1006-1023 | The loop marks exactly the named rows of that Site and finds their highest number |
| `CentralStore.Store.OutboundEvents` | central/python/src/upm_central/api.py:972-992 | A poll returns the first pending rows of that Site in number order, at most the limit |
| `SiteInbox.EveryRunIsExplained` | central/python/src/upm_central/sync.py:111-384 | Exactly once, in order: for any loss, repetition, reordering and batching, with arbitrary Central writes in between, at every point of the run the tables are what its own journal produces; the journal holds Central's writes exactly where the run has them and each Site's accepted events, which are exactly the first `cursor` of its log, once each, and later steps only add to it; the receipts are that prefix |
| `SiteInbox.WritesAreCentrals` | central/python/src/upm_central/sync.py:111-384 | In that journal nothing but the run's own Central steps writes freely |
| `SiteInbox.RunKeepsInv` | central/python/src/upm_central/sync.py:126-143 | Whatever any Site sends, receipts carry exactly the numbers 1..cursor for distinct events |
| `SiteInbox.ApplyShape` | central/python/src/upm_central/sync.py:119-384 | An answer other than acceptance changes nothing; an acceptance is the event's own effect plus the next receipt, and touches no other Site's inbox |
| `SiteInbox.GateInOrder` | central/python/src/upm_central/sync.py:111-143 | Protocol, authority, duplicate, gap, then the event itself: which answer each envelope gets |
| `SiteInbox.NextEventAdvances` | central/python/src/upm_central/sync.py:126-143 | Sending a Site's next event moves its cursor exactly when the event's effect goes through, and otherwise changes nothing |
| `SiteInbox.HopelessExactly` | central/python/src/upm_central/sync.py:162-369 | Exactly which events no state of Central's tables can accept |
| `SiteInbox.HopelessEventHalts` | central/python/src/upm_central/sync.py:133-143 | Such an event in front stops its Site's stream whatever is delivered and whatever Central writes |
| `SiteInbox.SitesOnlyMoveForward` | central/python/src/upm_central/sync.py:144-369 | Over any deliveries, honest or not: acknowledged revisions and confirmed offsets never go back, a succeeded transfer is never touched again, presentations change only with a higher revision, and the uniqueness and key constraints of presentations and versions hold |
| `SiteInbox.EffectIsForward` | central/python/src/upm_central/sync.py:144-369 | The same for the effect of one event of each type |
| `SiteInbox.HeartbeatSays` | central/python/src/upm_central/sync.py:142-154 | A heartbeat is always taken and replaces what is known of that Site alone |
| `SiteInbox.ReportSays` | central/python/src/upm_central/sync.py:162-222 | A deployment report is taken exactly from the Site and for the Event of the deployment it names, and changes that record only |
| `SiteInbox.ProgressTaken` | central/python/src/upm_central/sync.py:223-262 | Which progress reports are taken, and why the others are refused |
| `SiteInbox.ProgressSays` | central/python/src/upm_central/sync.py:263-287 | A taken report that is not late leaves job and import succeeded and ready exactly if it says completed and ready, failed exactly if it says failed, in transfer otherwise; a late one changes nothing |
| `SiteInbox.ReadyOnlyIfCompleted` | central/python/src/upm_central/sync.py:223-287 | Over every run an import is ready only with a succeeded job and with exactly the media object that a taken report of its own Site named as completed |
| `SiteInbox.UpsertTaken` | central/python/src/upm_central/sync.py:288-331 | When a Site's presentation is taken, is refused, or kills the request |
| `SiteInbox.UpsertSays` | central/python/src/upm_central/sync.py:288-331 | What it leaves: a new presentation as sent, nothing of an older revision, the program fields of a newer one |
| `SiteInbox.VersionSays` | central/python/src/upm_central/sync.py:332-369 | When a Site's version is taken, is refused, or kills the request; versions are only ever added |
| `SiteInbox.Receiver.ApplySiteEvent` | central/python/src/upm_central/sync.py:111-384 | The branch-by-branch code is the specified gate: acceptance, duplicate, each refusal code, or an uncaught error |
| `SiteInbox.Receiver.ReceiveSiteEvents` | central/python/src/upm_central/api.py:937-955 | A request applies its whole batch or, on an uncaught error, nothing; its checkpoint is the cursor |
| `SiteInbox.Receiver.ReceiveProgress` | central/python/src/upm_central/sync.py:223-287 | Progress is refused or advances the named transfer exactly as specified |
| `SiteInbox.Receiver.ReceiveUpsert` | central/python/src/upm_central/sync.py:288-331 | A presentation is refused, created, updated by a newer revision, left alone by an older one, or the request dies on a constraint |
| `Relational.DeleteKeepsFkValid` | central/python/src/upm_central/persistence/models.py:415-1310 | A delete that the constraints let through, cascades and nulled columns included, leaves no dangling reference |
| `Relational.DeleteExactly` | central/python/src/upm_central/persistence/models.py:415-1310 | When a DELETE is refused, which rows go with it, and which links of the others it empties |
| `Relational.ReferringColumnsAreAll` | central/python/src/upm_central/persistence/models.py:415-1310 | The foreign keys into each table, exhaustively |
| `Relational.CascadesAreShallow` | central/python/src/upm_central/persistence/models.py:857-884 | No cascading row is cascaded to in turn |
| `EventDeletion.Cleanup.DeleteEvent` | central/python/src/upm_central/lifecycle.py:477-656 | The ordered statements commit exactly when no surviving row refers to a deleted one, then leave exactly the closed-form result; removed plus preserved media are the media considered; a refusal restores everything |
| `EventDeletion.Cleanup.DeleteTable` | central/python/src/upm_central/lifecycle.py:555-591 | One whole-table statement of the order: its late WHERE clause selects what the first state selects, and it fails only on a real survivor |
| `EventDeletion.DeleteInOrder` | central/python/src/upm_central/lifecycle.py:552-656 | A statement in order either deletes exactly its rows or shows a surviving row that holds on to them |
| `EventDeletion.ReferrerGoesFirst` | central/python/src/upm_central/lifecycle.py:555-622 | Why the order works: each table is emptied after every table that refers to it |
| `EventDeletion.WhereGoesLater` | central/python/src/upm_central/lifecycle.py:555-622 | No statement's WHERE clause looks at a table that was emptied before it |
| `EventDeletion.Cleanup.DeleteBatch` | central/python/src/upm_central/lifecycle.py:595-612 | Import batches one by one: decisions, issues, rows, batch, and the source exactly when its last batch goes |
| `EventDeletion.OrphansOneMore` | central/python/src/upm_central/lifecycle.py:606-612 | Which sources become orphans when one more batch goes |
| `EventDeletion.Cleanup.CollectMedia` | central/python/src/upm_central/lifecycle.py:633-645 | The media loop removes exactly the collectable media with their jobs and counts them |
| `EventDeletion.StillNamed` | central/python/src/upm_central/lifecycle.py:634-639 | The check for another asset, made late, decides exactly what the first state says |
| `EventDeletion.EventGoes` | central/python/src/upm_central/lifecycle.py:626-656 | Deleting the Event's own row is never refused by then; upload batches cascade, transport rows and shared media lose only their link |
| `EventDeletionResults.CommittedStateIsSound` | central/python/src/upm_central/lifecycle.py:477-656 | After a committed deletion no foreign key dangles, no live row refers to the Event, and NOT NULL columns are set |
| `EventDeletionResults.ProgramGoesExactly` | central/python/src/upm_central/lifecycle.py:555-622 | Which rows of the program, its files, people's parts in it, deployments and identifiers go: exactly those whose own columns lead to the Event |
| `EventDeletionResults.ImportsGoExactly` | central/python/src/upm_central/lifecycle.py:592-612 | Which import data goes: the Event's batches with rows, issues and decisions, and a source exactly if it served no other Event's batch |
| `EventDeletionResults.TrafficGoesExactly` | central/python/src/upm_central/lifecycle.py:540-566 | Which media traffic goes: the Event's uploads and receive sessions, the transfer jobs its uploads name, and the jobs of removed media |
| `EventDeletionResults.KeptExactly` | central/python/src/upm_central/lifecycle.py:623-650 | A row that stays keeps everything but its link to the Event, or to an upload batch that goes with it |
| `EventDeletionResults.OthersStay` | central/python/src/upm_central/lifecycle.py:526-650 | Of the Events only the deleted one goes; people, transport, history and audit rows never do |
| `EventDeletionResults.OtherEventsKeepTheirRows` | central/python/src/upm_central/lifecycle.py:555-622 | Rows owned by another Event survive |
| `EventDeletionResults.CollectionIsExact` | central/python/src/upm_central/lifecycle.py:526-645 | A media replica goes exactly when the Event considers it and no surviving asset names it |
| `EventDeletionResults.ConsideredExactly` | central/python/src/upm_central/lifecycle.py:526-645 | The media an Event considers: those an asset of its presentations names, and its own |
| `EventDeletionResults.ObstacleColumns` | central/python/src/upm_central/persistence/models.py:586-1130 | The only ten columns through which a deletion can be held up |
| `EventDeletionResults.UnobstructedExactly` | central/python/src/upm_central/persistence/models.py:586-1130 | The deletion can be made exactly if whatever stays has the targets of its restricting columns still there |
| `EventDeletionResults.LinkedDataDeletes` | central/python/src/upm_central/lifecycle.py:477-656 | If program, files and uploads stay inside one Event each, every Event can be deleted |
| `EventDeletionResults.CrossEventSessionBlocks` | central/python/src/upm_central/sync.py:312-331 | A presentation of another Event that names this Event's session, which Site events may create, holds the deletion up |
| `EventDeletionResults.SharedSessionBlocksOneEvent` | central/python/src/upm_central/sync.py:312-331 | Two Events and one shared session, concretely: one Event cannot be deleted, the other can |
| `EventDeletionRun.RunEventDeletion` | central/python/src/upm_central/lifecycle.py:477-656 | History for everybody who took part, then the deletion; it commits under the same condition, and everybody is remembered afterwards |
| `EventDeletionRun.RetainHistory` | central/python/src/upm_central/lifecycle.py:481-504 | Exactly one history row for each participant who had none, with what a participation of theirs said, and no other change |
| `EventDeletionRun.RetainedExactly` | central/python/src/upm_central/lifecycle.py:481-504 | Each new history row is of this Event, copies a participation of a person who had none, and no person gets two |
| `EventDeletionRun.HistoryIsNeutral` | central/python/src/upm_central/lifecycle.py:481-504 | Writing history first changes neither what is deleted nor whether it can be |
| `EventDeletionRun.RetainingTwiceAddsNothing` | central/python/src/upm_central/lifecycle.py:481-504 | Repeating it adds nothing |
| `PeopleRemoval.DeletePerson` | central/python/src/upm_central/lifecycle.py:659-707 | A person can always be deleted, whatever else the data holds, with exactly the closed-form result |
| `PeopleRemoval.GoneExactly` | central/python/src/upm_central/lifecycle.py:659-690 | A row goes exactly if it is one of the people, or cannot do without one of them or what they took part in |
| `PeopleRemoval.ForgottenExactly` | central/python/src/upm_central/lifecycle.py:691-705 | Of a row that stays, exactly both answers of an import row that proposed or resolved to one of them, and a decision's choice of one of them, are emptied |
| `PeopleRemoval.OthersUntouched` | central/python/src/upm_central/lifecycle.py:659-707 | A row that names none of them, and nothing they took part in, is left exactly as it was |
| `PeopleRemoval.DeletePeople` | central/python/src/upm_central/lifecycle.py:395-402 | The list in any order, repeats and unknown people included, equals deleting the set at once; the count is exact |
| `PeopleRemoval.NobodyIsNamed` | central/python/src/upm_central/lifecycle.py:659-707 | Afterwards no participation, link, signal, history, external identifier, import row or decision names them, and nothing dangles |
| `PeopleRemoval.BulkLeavesNoName` | central/python/src/upm_central/lifecycle.py:381-402 | After a bulk deletion no column names anybody of the list who existed |
| `PeopleRemoval.WithoutOneMore` | central/python/src/upm_central/lifecycle.py:659-707 | Deleting one after others is deleting them together |
| `Digests.HashFile` | central/python/src/upm_central/media_replication.py:105-108 | The block loop hashes exactly the file, whatever its length |
| `FileReplication.RunKeepsInv` | central/python/src/upm_central/media_replication.py:77-148 | Over any run of appends, torn writes, recoveries, crashes, repeated finalizations and clean-ups: the first confirmed bytes are the sender's, only content with the declared digest is published, never more than one replica and one asset |
| `FileReplication.RecoveryIsExact` | central/python/src/upm_central/media_replication.py:77-88 | Recovery never fails on a live session and leaves exactly the confirmed bytes |
| `FileReplication.RecoveryRefused` | central/python/src/upm_central/media_replication.py:77-88 | A partial shorter than the offset is refused and neither truncated nor extended |
| `FileReplication.AppendExactly` | central/python/src/upm_central/media_replication.py:77-88 | A block that fits extends stored bytes and offset by itself; one that does not changes nothing |
| `FileReplication.TornExactly` | central/python/src/upm_central/media_replication.py:77-88 | A torn write leaves the confirmed bytes in front of what it wrote and no trace in the session |
| `FileReplication.FinalizeExactly` | central/python/src/upm_central/media_replication.py:91-148 | What a finalization makes of a complete session, wherever it dies: published and recorded exactly with the declared content, marked failed exactly with any other |
| `FileReplication.FinalizeLeaves` | central/python/src/upm_central/media_replication.py:94-100 | An incomplete or finished session is left as it is, and a finished one takes no more blocks |
| `FileReplication.FinalizeExpired` | central/python/src/upm_central/media_replication.py:77-104 | After clean-up a session that failed cannot be finalized again |
| `FileReplication.CleanUpExactly` | central/python/src/upm_central/media_replication.py:197-215 | Clean-up drops the partial file of a failed session and of no other |
| `FileReplication.FinalizationSettles` | central/python/src/upm_central/media_replication.py:91-148 | After any history, a crash between rename and commit included, one undisturbed finalization publishes exactly when the digest is right, with one replica and one asset, for good |
| `FileReplication.HonestSenderCanFinish` | central/python/src/upm_central/media_replication.py:77-148 | An honest sender is never marked failed and can always send the rest and finish |
| `FileReplication.Receiver.RecoverPartial` | central/python/src/upm_central/media_replication.py:77-88 | The truncation as code |
| `FileReplication.Receiver.FinalizeReplication` | central/python/src/upm_central/media_replication.py:91-148 | The finalization as code, with a crash at each point |
| `StorageReplication.RunKeepsInv` | central/python/src/upm_central/presentation_media_api.py:1072-1132 | The same safety for the storage-service endpoints, with blocks that break off anywhere |
| `StorageReplication.CanFinishExactly` | central/python/src/upm_central/presentation_media_api.py:1086-1109 | An honest session can still be finished exactly when the service holds no byte Central has not confirmed |
| `StorageReplication.BrokenBlockStrands` | central/python/src/upm_central/presentation_media_api.py:1102-1105 | One block stored without Central's commit strands the session |
| `StorageReplication.StrandedForever` | central/python/src/upm_central/presentation_media_api.py:1088-1089 | No later request moves a stranded session |
| `StorageReplication.FinalizingAgainSettles` | central/python/src/upm_central/media_replication.py:151-194 | A crash between publication and commit is repaired by finalizing again |
| `StorageReplication.PublishedIsTheSitesFile` | media-storage/python/src/upm_media_storage/api.py:372-416 | What a finalized session points at is the Site's file, whoever published those bytes first |
| `StorageReplication.AdmittedIsAPrefix` | central/python/src/upm_central/presentation_media_api.py:1090-1099 | The bounded stream passes on a prefix within both limits, all of it when it fits |
| `StorageReplication.AdmittedExactly` | central/python/src/upm_central/presentation_media_api.py:1090-1099 | Exactly the leading chunks that fit both limits are passed on, and the first that does not ends the stream |
| `StorageReplication.PutExactly` | central/python/src/upm_central/presentation_media_api.py:1072-1109 | A block is confirmed exactly if it is whole, within both limits and Central commits; otherwise its first bytes stay at the service, unconfirmed |
| `StorageReplication.PutRefused` | central/python/src/upm_central/presentation_media_api.py:1086-1089 | A request that either offset check stops changes nothing |
| `StorageReplication.OthersPublish` | media-storage/python/src/upm_media_storage/api.py:372-416 | Another publication adds its content under its own digest and never replaces what is there |
| `StorageReplication.FinalizeExactly` | central/python/src/upm_central/presentation_media_api.py:1111-1132 | Published exactly for a complete, authorized session with the declared digest, and recorded unless the request dies first; no other object changes |
| `StorageReplication.PassOn` | central/python/src/upm_central/presentation_media_api.py:1090-1099 | The generator's loop |
| `StorageReplication.Receiver.ReplicationContent` | central/python/src/upm_central/presentation_media_api.py:1072-1109 | The content endpoint as code |
| `StorageReplication.Receiver.FinalizeReplication` | central/python/src/upm_central/presentation_media_api.py:1111-1132 | The finalize endpoint as code |
| `MediaPull.AnswerExactly` | central/python/src/upm_central/presentation_media_api.py:907-939 | An answer starts at the offset asked for, is as long as block size and object allow, and names where it stopped |
| `MediaPull.PullRest` | central/python/src/upm_central/presentation_media_api.py:907-939 | Following the returned offsets reassembles exactly the rest of the object in ceil(rest / block) pulls |
| `Promotion.ConfirmationsAreExact` | central/python/src/upm_central/presentation_media.py:643-710 | Over every interleaving of workers, repeats, Site versions and originals, cancellations and analyses, failing ones included unless their import was confirmed by then: no two confirmed imports share a version, numbers stay distinct, each confirmed import has exactly one original naming its own media |
| `Promotion.RunKeepsInv` | central/python/src/upm_central/presentation_media.py:592-710 | And no confirmation, presentation, version or original is ever changed or lost |
| `Promotion.RunKeepsInvExactly` | central/python/src/upm_central/presentation_media.py:569-576 | Exactly which runs keep all that: those where no analysis fails after its import was confirmed; the damage done otherwise is never repaired |
| `Promotion.FailureIsHarmlessExactly` | central/python/src/upm_central/presentation_media.py:569-576 | A failing analysis keeps it exactly when the import is not confirmed |
| `Promotion.ConfirmsExactly` | central/python/src/upm_central/presentation_media.py:814-896 | Exactly when a confirmation goes through: never for a destination Site, never onto a version that has a Site's original |
| `Promotion.RepairFindsNothing` | central/python/src/upm_central/presentation_media.py:651-664 | Repeating a confirmed promotion changes nothing |
| `Promotion.NextVersionFacts` | central/python/src/upm_central/presentation_media.py:826-853 | The chosen version keeps numbers distinct and no live import holds it |
| `Promotion.NextVersionExactly` | central/python/src/upm_central/presentation_media.py:826-853 | The newest version if no live import holds it, otherwise a new one numbered one above the newest, or 1 |
| `Promotion.AssignExactly` | central/python/src/upm_central/presentation_media.py:814-934 | When an assignment goes through, what it writes to the import, and that it writes nothing else |
| `Promotion.EnsureOriginalExactly` | central/python/src/upm_central/presentation_media.py:92-152 | When the linkage goes through, and the media row and original it then leaves |
| `Promotion.DueExactly` | central/python/src/upm_central/presentation_media.py:155-184 | Which imports a backfill is for |
| `Promotion.QueueExactly` | central/python/src/upm_central/presentation_media.py:592-642 | A promotion is queued exactly for an analysed import and a presentation of its Event, and not again once confirmed |
| `Promotion.ReviewStepsExactly` | central/python/src/upm_central/presentation_media.py:555-576 | Which imports an analysis, its failure and a cancellation reach, and what they write there |
| `Promotion.ArrivalsExactly` | central/python/src/upm_central/sync.py:332-369 | What arrives from outside is added under identities and numbers of its own, and never replaces anything |
| `Promotion.AnalysisFailureUndoesConfirmation` | central/python/src/upm_central/presentation_media.py:569-576 | The analysis failure handler takes a confirmation back, and the next promotion gives the same media a second original |
| `Promotion.CancelledCanBeConfirmed` | central/python/src/upm_central/presentation_media.py:672-679 | A queued promotion confirms an import that was cancelled meanwhile |
| `Promotion.BackfillIsComplete` | central/python/src/upm_central/presentation_media.py:155-184 | After a backfill nothing is due |
| `Promotion.Staging.PromoteAndAssign` | central/python/src/upm_central/presentation_media.py:672-710 | The last transaction as code; an abort restores every table |
| `Promotion.Staging.AssignTo` | central/python/src/upm_central/presentation_media.py:814-934 | Version choice and record fields as code |
| `Promotion.Staging.EnsureConfirmedOriginalAsset` | central/python/src/upm_central/presentation_media.py:92-152 | The linkage as code |
| `Promotion.Staging.BackfillConfirmedOriginalAssets` | central/python/src/upm_central/presentation_media.py:155-184 | Links exactly the imports alone on a version without an original, changes nothing else, or rolls back |
| `ImportBatches.RunKeepsOk` | central/python/src/upm_central/imports.py:798-856 | Over any course of decisions, program edits and commits the counters describe the rows, and a committed batch never changes |
| `ImportBatches.CreatedIsOk` | central/python/src/upm_central/imports.py:768-785 | The counters and status a new batch is given describe its rows |
| `ImportBatches.DecideKeepsOk` | central/python/src/upm_central/imports.py:808-834 | A decision lowers the conflict counter by exactly one when the row was in conflict; the clamp at zero never decides it |
| `ImportBatches.DecideExactly` | central/python/src/upm_central/imports.py:798-834 | Which decisions are accepted, and that exactly this action is recorded on exactly this row |
| `ImportBatches.ResolutionIsLastAction` | central/python/src/upm_central/imports.py:808-834 | Over any course of review each row's resolution is the action of the last decision accepted on it |
| `ImportBatches.RejectedAsDecided` | central/python/src/upm_central/imports.py:1200-1222 | What a commit counts as rejected are exactly the rows last decided to be ignored or rejected; all others count as committed |
| `ImportBatches.CommitGuarantees` | central/python/src/upm_central/imports.py:1156-1651 | A successful commit marks every row, accounts for each as committed or rejected, raises the revision at most once and exactly when a row touched the program, leaves every named session with a presentation, and a second commit changes nothing |
| `ImportBatches.CommitExactly` | central/python/src/upm_central/imports.py:1156-1260 | Exactly when a commit goes through: the program is the one reviewed, every faulty row was refused, every row can be applied in its turn, and every session named ends with its presentation |
| `ImportBatches.RecordedExactly` | central/python/src/upm_central/imports.py:1200-1586 | After a commit each row is recorded with the session it was committed to, which bears the session code of the row, and refused rows and rows without a session with none |
| `ImportBatches.LoopExactly` | central/python/src/upm_central/imports.py:1200-1586 | The loop over rows goes through exactly if each row can be applied, read off rows and program before it: its person unchanged, its session there, made by an earlier row, or described |
| `ImportBatches.SettleAgrees` | central/python/src/upm_central/imports.py:1587-1637 | The closing check passes if the codes of the sessions named agree with what is linked to them |
| `ImportBatches.CommitSessionExactly` | central/python/src/upm_central/imports.py:1270-1392 | A session row updates the session with its code, or makes a new imported one, and touches no other |
| `ImportBatches.CommitItemExactly` | central/python/src/upm_central/imports.py:1393-1450 | A presentation row updates the presentation with its code, or makes a new one, and touches no other |
| `ImportBatches.CommitPresentationExactly` | central/python/src/upm_central/imports.py:1450-1505 | And links it to the session it names, making that session if it is described, failing if it is not |
| `ImportBatches.OrderIsPermutation` | central/python/src/upm_central/imports.py:1192-1200 | Sorting by kind processes every row exactly once |
| `ImportBatches.OrderIsSorted` | central/python/src/upm_central/imports.py:1192-1200 | People before sessions before presentations before the rest, equals in file order |
| `ImportReview.Importer.DecideRow` | central/python/src/upm_central/imports.py:798-834 | The decision as code |
| `ImportReview.Importer.CommitBatch` | central/python/src/upm_central/imports.py:1156-1651 | The commit as code; every failure restores rows, counters and program |
| `ImportReview.Importer.MaterializeNamed` | central/python/src/upm_central/imports.py:1587-1637 | Presentations for all named sessions, then the check |
| `ImportReview.Importer.CommitPresentationRow` | central/python/src/upm_central/imports.py:1393-1505 | A presentation row and the session it names |
| `Materialization.RepairIsCompleteAndIdempotent` | central/python/src/upm_central/imports.py:1119-1135 | If codes agree, repair in any order leaves no imported coded session without a presentation, keeps codes unique, and repeating it changes nothing |
| `Materialization.RepairCompleteExactly` | central/python/src/upm_central/imports.py:1119-1135 | For any data and order: repair leaves every imported coded session with a presentation exactly when none is robbed, read off the tables before it: it has a presentation at its turn and earlier or later sessions without one take its last by their codes |
| `Materialization.MaterializeGives` | central/python/src/upm_central/imports.py:996-1078 | Whatever the data, the session ends with its presentation and link, and codes stay unique |
| `Materialization.MaterializeExactly` | central/python/src/upm_central/imports.py:996-1078 | Which presentation a session is given, and which of its fields follow the session: title and time exactly if it was made from one |
| `Materialization.LosesExactly` | central/python/src/upm_central/imports.py:1019-1051 | Exactly when giving one session its presentation empties another: its only one bore this session's code |
| `Materialization.RepairCanEmptyASession` | central/python/src/upm_central/imports.py:1019-1051 | Without agreement the repair itself empties a session it has already been through |
| `Materialization.ProgramTables.MaterializeSession` | central/python/src/upm_central/imports.py:996-1078 | The helper as code |
| `Materialization.ProgramTables.RepairEvent` | central/python/src/upm_central/imports.py:1119-1135 | The repair loop as code |
| `GroupedSessions.UnflaggedMeansEqual` | central/python/src/upm_central/imports.py:693-730 | No row of a group is flagged exactly when all its signatures are pairwise equal |
| `GroupedSessions.FlaggedExactly` | central/python/src/upm_central/imports.py:693-730 | What one flag says: the first row of a code is flagged exactly if a later one differs, a later row exactly if it differs from the first |
| `GroupedSessions.CheckGroups` | central/python/src/upm_central/imports.py:693-730 | The single pass flags a later row exactly when it differs from the first, and the first exactly when some row differs |
| `LocalTime.AcceptedMeansOneInstant` | central/python/src/upm_central/imports.py:317-325 | A wall time is accepted exactly when one and only one instant shows it, and that instant is the answer |
| `LocalTime.WallAndFoldIdentify` | central/python/src/upm_central/api.py:708-711 | Wall time and fold together identify the instant |
| `LocalTime.RezoneKeepsWall` | central/python/src/upm_central/api.py:697-712 | Re-zoning to a zone where the time is unambiguous keeps the wall clock |
| `LocalTime.RezoneRoundTrip` | central/python/src/upm_central/api.py:697-712 | Re-zoning back restores the instant exactly when it was not the second showing of a repeated wall time |
| `LocalTime.OverlapByFold` | central/python/src/upm_central/imports.py:317-325 | A wall time shown twice: fold 0 names the earlier instant, fold 1 the later, and both read back as such |
| `LocalTime.RezoneInOverlap` | central/python/src/upm_central/api.py:708-711 | Re-zoning to a zone that shows the wall time twice keeps the clock and takes the earlier or later showing as it was before |
| `LocalTime.RezoneInGap` | central/python/src/upm_central/api.py:708-711 | Re-zoning into a gap moves the clock forward for a first showing and back for a second |
| `BoundedRunner.QuietAccounting` | web/src/components/uploadSelection.ts:40-57 | Under every interleaving, when all runners are over: exactly the values held by rejected runners are missing among the claimed ones, and every value was processed exactly when no beforeEach rejected |
| `BoundedRunner.RunKeepsInv` | web/src/components/uploadSelection.ts:40-57 | Values are claimed in index order, each is in exactly one place, and the number of runners is never exceeded |
| `BoundedRunner.RunnersExactly` | web/src/components/uploadSelection.ts:40-57 | At every moment there are exactly min(concurrency, n) runners, so never more values in flight |
| `BoundedRunner.NextExactly` | web/src/components/uploadSelection.ts:40-57 | A resumption claims exactly the next value, starts its worker, settles it whether it threw or not, or stops when none is left |
| `BoundedRunner.NextMakesProgress` | web/src/components/uploadSelection.ts:40-57 | Every resumption of a runner that is not over decreases a measure |
| `BoundedRunner.Uploads.RunToEnd` | web/src/components/uploadSelection.ts:40-57 | Under any scheduler the pool ends, and without rejections every value was processed exactly once |
| `BoundedRunner.NoRunnersNoWork` | web/src/components/uploadSelection.ts:40-57 | With concurrency zero nothing is processed |

## Left out

- HTTP routing, sessions, credentials, enrollment and operational or audit logging: no protocol state.
- The queue's lease and claim logic: a queued row is pending until acknowledged, and a promotion job may run at any time and any number of times.
- Snapshot contents other than the people they name, and how a Site writes them into its own tables: whether a snapshot is usable is an input of each delivery.
- The protocol-version and payload-schema checks on the Site's side: all modelled envelopes carry the supported versions.
- Column widths, timestamps, progress percentages and summary texts; constraints on them are taken to hold.
- Columns that refer to Sites, storage roots and users: the modelled deletions never delete those.
- The destination-Site branch of `assign` beyond its effect on the import's state: every such confirmation aborts.
- CSV and XLSX parsing, text normalization, person matching and presenter rows of an import: their outcomes are fields of the row. Codes, titles and signatures are numbers.
- Presentation identifiers and the clash that their allocation may report during import: a clash aborts like any other constraint.
- `create_replication` and clean-up of storage-side staging: the session is open from the start, and nothing else removes its staged bytes.
- Concurrent replication sessions for the same media identity: one session at a time owns its files.
- SMB intake, list views, HTML pages and React components.
- DeploymentLane.UsableRunReachesDesired: asks for usable snapshots; ReachesDesiredExactly has the condition for all runs.
- SiteStream.DrainedSystemConverges: says nothing of a stream that has halted; StreamDrain.EveryRunDrainsExactly says when it does.
- StreamDrain.EveryRunDrainsExactly: a poll is taken to answer the rows after those the Site has consumed; the acknowledgements between are OutboundChannel's, and snapshots still queued are taken to be usable.
- OutboundChannel.AcknowledgedIsAPrefix: asks for a Site that consumes numbers in order, because the endpoint accepts any rows.
- Materialization.RepairIsCompleteAndIdempotent: asks for agreeing codes, because without them the repair can undo itself; RepairCompleteExactly has the condition for its completeness.
- LocalTime.AcceptedMeansOneInstant: asks for transitions whose ambiguous wall times do not overlap, as in every published zone.
- LocalTime.RezoneInGap: asks for transitions further apart than the shifts they make.
