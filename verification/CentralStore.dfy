/**
 Central's transactions over its deployment and outbox tables. Each method is one
 transaction: it either commits what it ensures or leaves every table as it was.
 */
module CentralStore {
  import opened Wrappers
  import opened Deployments
  import opened OutboxTables
  import Channels = OutboundChannel

  // ---------------------------------------------------------------- specification

  function Participants(t: Tables, event: EventId): set<PersonId> {
    if event in t.participants then t.participants[event] else {}
  }

  /** Exactly the people who take part in the Event. */
  ghost predicate NamesAll(people: set<PersonId>, participants: map<EventId, set<PersonId>>, event: EventId) {
    forall p :: p in people <==> event in participants && p in participants[event]
  }

  /** Write a deployment's new record and its stored revision, and queue the envelope for its Site. */
  function Published(t: Tables, id: DeploymentId, change: (Deployment, Row), people: set<PersonId>): Tables
    requires id in t.deployments
  {
    var a := t.deployments[id];
    Enqueue(t.(deployments := t.deployments[id := a.(record := change.0)],
               snapshots := t.snapshots[(id, change.1.revision) := people]),
            a.site, Publication(id, change.1, people))
  }

  ghost predicate Stored(t: Tables, id: DeploymentId)
    requires id in t.deployments
  {
    && Sound(t.deployments[id].record)
    && forall r :: 1 <= r <= t.deployments[id].record.desired ==> (id, r) in t.snapshots
  }

  ghost predicate Sane(t: Tables) {
    Numbered(t) && forall id :: id in t.deployments ==> Stored(t, id)
  }

  lemma NoRows(site: SiteId)
    ensures SequencesOf([], site) == []
  {}

  lemma SaneIsNumbered(t: Tables)
    requires Sane(t)
    ensures Numbered(t)
  {}

  lemma FrameNumbered(t: Tables, t': Tables)
    requires Numbered(t) && t'.nextValues == t.nextValues && t'.outbox == t.outbox
    ensures Numbered(t')
  {
    forall site: SiteId
      ensures NumberedFor(t', site)
    {
      assert NumberedFor(t, site);
    }
  }

  predicate Assigned(t: Tables, event: EventId, site: SiteId) {
    exists i :: i in t.deployments && t.deployments[i].event == event && t.deployments[i].site == site
  }

  /**
   What creation looks up: the Sites and whether they are enabled and enrolled, the room labels of
   each Event's sessions, and the labels a Site's mappings leave ambiguous.
   */
  datatype Directory = Directory(sites: map<SiteId, bool>, labels: map<EventId, set<nat>>, ambiguous: set<(SiteId, nat)>)

  datatype Refusal = EventNotFound | SiteNotFound | SiteNotActive | ValidationFailed | AlreadyAssigned

  /** The preview finds an error exactly for a room label the Site cannot resolve. */
  predicate RoomsResolve(dir: Directory, event: EventId, site: SiteId) {
    event in dir.labels ==> forall room :: room in dir.labels[event] ==> (site, room) !in dir.ambiguous
  }

  /** Why a deployment is not created, in the order of the checks; None if it is. */
  function CreationRefusal(t: Tables, dir: Directory, event: EventId, site: SiteId): Option<Refusal> {
    if event !in t.events then Some(EventNotFound)
    else if site !in dir.sites then Some(SiteNotFound)
    else if !dir.sites[site] then Some(SiteNotActive)
    else if !RoomsResolve(dir, event, site) then Some(ValidationFailed)
    else if Assigned(t, event, site) then Some(AlreadyAssigned)
    else None
  }

  /** Each refusal, in the terms of the tables; creation goes through exactly when none applies. */
  lemma CreationRefusedExactly(t: Tables, dir: Directory, event: EventId, site: SiteId)
    ensures var refusal := CreationRefusal(t, dir, event, site);
      var known, active := site in dir.sites, site in dir.sites && dir.sites[site];
      var ambiguous := event in dir.labels && exists room :: room in dir.labels[event] && (site, room) in dir.ambiguous;
      var taken := exists i :: i in t.deployments && t.deployments[i].event == event && t.deployments[i].site == site;
      && (refusal == Some(EventNotFound) <==> event !in t.events)
      && (refusal == Some(SiteNotFound) <==> event in t.events && !known)
      && (refusal == Some(SiteNotActive) <==> event in t.events && known && !active)
      && (refusal == Some(ValidationFailed) <==> event in t.events && active && ambiguous)
      && (refusal == Some(AlreadyAssigned) <==> event in t.events && active && !ambiguous && taken)
      && (refusal.None? <==> event in t.events && active && !ambiguous && !taken)
  {}

  predicate Active(a: Assignment) {
    a.record.status != Revoked && a.record.status != Archived
  }

  function ActiveOf(t: Tables, event: EventId): set<DeploymentId> {
    set id | id in t.deployments && t.deployments[id].event == event && Active(t.deployments[id])
  }

  /** ids were pushed, each exactly once, in some order, and nothing else happened. */
  ghost predicate PushedAll(t: Tables, t': Tables, ids: set<DeploymentId>)
    requires ids <= t.deployments.Keys
  {
    && t'.events == t.events && t'.participants == t.participants && t'.checkpoints == t.checkpoints
    && PushedRecords(t, t', ids) && PushedRows(t, t', ids)
  }

  ghost predicate PushedRecords(t: Tables, t': Tables, ids: set<DeploymentId>)
    requires ids <= t.deployments.Keys
  {
    && t'.deployments.Keys == t.deployments.Keys
    && (forall id :: id in t.deployments ==> t'.deployments[id] == PushedIf(t.deployments[id], id in ids))
  }

  function PushedIf(a: Assignment, pushed: bool): Assignment {
    var p := Push(a.record, false);
    if pushed && p.Some? then a.(record := p.value.0) else a
  }

  ghost predicate PushedRows(t: Tables, t': Tables, ids: set<DeploymentId>) {
    && |t'.outbox| == |t.outbox| + |ids| && t'.outbox[..|t.outbox|] == t.outbox
    && (forall k :: |t.outbox| <= k < |t'.outbox| ==> IsPushOf(t, t'.outbox[k], ids))
    && (forall j, k :: |t.outbox| <= j < k < |t'.outbox| ==> t'.outbox[j].payload.id != t'.outbox[k].payload.id)
    && (forall id :: id in ids ==> QueuedSince(t'.outbox, |t.outbox|, id))
  }

  /** Some row from here on carries a revision of this deployment. */
  ghost predicate QueuedSince(rows: seq<OutboxRow>, from: nat, id: DeploymentId) {
    exists k :: from <= k < |rows| && rows[k].payload.Publication? && rows[k].payload.id == id
  }

  ghost predicate IsPushOf(t: Tables, row: OutboxRow, ids: set<DeploymentId>) {
    && row.payload.Publication? && row.payload.id in ids && row.payload.id in t.deployments
    && var a := t.deployments[row.payload.id];
    && row.site == a.site && !row.acknowledged
    && Push(a.record, false).Some? && row.payload.row == Push(a.record, false).value.1
    && NamesAll(row.payload.people, t.participants, a.event)
  }

  function PushStep(t: Tables, id: DeploymentId): Tables
    requires id in t.deployments && Push(t.deployments[id].record, false).Some?
  {
    Published(t, id, Push(t.deployments[id].record, false).value, Participants(t, t.deployments[id].event))
  }

  lemma NothingPushed(t: Tables)
    ensures PushedAll(t, t, {})
  {}

  lemma QueuedStays(rows: seq<OutboxRow>, more: seq<OutboxRow>, from: nat, id: DeploymentId)
    requires |rows| <= |more| && more[..|rows|] == rows && QueuedSince(rows, from, id)
    ensures QueuedSince(more, from, id)
  {}

  lemma PushOfMore(t: Tables, row: OutboxRow, ids: set<DeploymentId>, more: set<DeploymentId>)
    requires IsPushOf(t, row, ids) && ids <= more
    ensures IsPushOf(t, row, more) && row.payload.Publication? && row.payload.id in ids
  {}

  lemma PushOneMoreRow(t0: Tables, t: Tables, done: set<DeploymentId>, id: DeploymentId)
    requires done <= t0.deployments.Keys && id in t0.deployments && id in t.deployments && id !in done
    requires t.deployments[id] == t0.deployments[id] && Push(t.deployments[id].record, false).Some?
    requires t.participants == t0.participants && PushedRows(t0, t, done)
    ensures PushedRows(t0, PushStep(t, id), done + {id})
  {
    hide IsPushOf, QueuedSince, PushStep;
    var rows, n := PushStep(t, id).outbox, |t.outbox|;
    NewPushRow(t0, t, done + {id}, id);
    assert rows[..|t0.outbox|] == rows[..n][..|t0.outbox|];
    forall k | |t0.outbox| <= k < n
      ensures IsPushOf(t0, rows[k], done + {id}) && rows[k].payload.Publication? && rows[k].payload.id in done && rows[k] == t.outbox[k]
    {
      assert rows[..n][k] == rows[k];
      PushOfMore(t0, t.outbox[k], done, done + {id});
    }
    forall i | i in done
      ensures QueuedSince(rows, |t0.outbox|, i)
    {
      QueuedStays(t.outbox, rows, |t0.outbox|, i);
    }
  }

  lemma NewPushRow(t0: Tables, t: Tables, ids: set<DeploymentId>, id: DeploymentId)
    requires id in t0.deployments && id in t.deployments && id in ids && t.deployments[id] == t0.deployments[id]
    requires Push(t.deployments[id].record, false).Some? && t.participants == t0.participants && |t0.outbox| <= |t.outbox|
    ensures var rows := PushStep(t, id).outbox;
      && |rows| == |t.outbox| + 1 && rows[..|t.outbox|] == t.outbox && IsPushOf(t0, rows[|t.outbox|], ids)
      && rows[|t.outbox|].payload.Publication? && rows[|t.outbox|].payload.id == id
      && QueuedSince(rows, |t0.outbox|, id)
  {}

  lemma PushOneMore(t0: Tables, t: Tables, done: set<DeploymentId>, id: DeploymentId)
    requires done <= t0.deployments.Keys && id in t0.deployments && id !in done && PushedAll(t0, t, done)
    requires Push(t0.deployments[id].record, false).Some?
    ensures t.deployments[id] == t0.deployments[id]
    ensures PushedAll(t0, PushStep(t, id), done + {id})
  {
    PushOneMoreRow(t0, t, done, id);
  }

  lemma PublishedKeepsSane(t: Tables, id: DeploymentId, op: Op, people: set<PersonId>)
    requires Sane(t) && id in t.deployments && !op.DoReport? && Perform(t.deployments[id].record, op).Some?
    ensures Sane(Published(t, id, Perform(t.deployments[id].record, op).value, people))
  {
    var change := Perform(t.deployments[id].record, op).value;
    var a := t.deployments[id];
    var mid := t.(deployments := t.deployments[id := a.(record := change.0)],
                  snapshots := t.snapshots[(id, change.1.revision) := people]);
    FrameNumbered(t, mid);
    EnqueueKeepsNumbered(mid, a.site, Publication(id, change.1, people));
    assert Stored(t, id);
    forall other | other in mid.deployments
      ensures Stored(mid, other)
    {
      assert Stored(t, other);
    }
  }

  lemma FrameSane(t: Tables, t': Tables)
    requires Sane(t) && Numbered(t') && t'.deployments == t.deployments && t'.snapshots == t.snapshots
    ensures Sane(t')
  {}

  /** Each push is accepted and raises the desired revision by exactly one. */
  lemma PushesRaiseByOne(t0: Tables, t: Tables, ids: set<DeploymentId>)
    requires Sane(t0) && ids <= t0.deployments.Keys && (forall id :: id in ids ==> Active(t0.deployments[id]))
    requires PushedAll(t0, t, ids)
    ensures forall id :: id in ids ==>
              && t.deployments[id].record.desired == t0.deployments[id].record.desired + 1
              && t.deployments[id].record.status == UpdatePending
  {}

  // ---------------------------------------------------------------- deleting people

  function Affected(t: Tables, people: set<PersonId>): set<EventId> {
    set e | e in t.participants && t.participants[e] * people != {}
  }

  function SitesOf(t: Tables, affected: set<EventId>): set<SiteId> {
    set id | id in t.deployments && t.deployments[id].event in affected :: t.deployments[id].site
  }

  function Without(participants: map<EventId, set<PersonId>>, people: set<PersonId>): map<EventId, set<PersonId>> {
    map e | e in participants :: participants[e] - people
  }

  /** Somebody of these people takes part in the Event. */
  ghost predicate TakesPart(participants: map<EventId, set<PersonId>>, people: set<PersonId>, event: EventId) {
    event in participants && exists p :: p in people && p in participants[event]
  }

  lemma AffectedExactly(t: Tables, people: set<PersonId>, event: EventId)
    ensures event in Affected(t, people) <==> TakesPart(t.participants, people, event)
  {
    if TakesPart(t.participants, people, event) {
      var p :| p in people && p in t.participants[event];
      assert p in t.participants[event] * people;
    } else if event in t.participants {
      assert t.participants[event] * people == {};
    }
  }

  /** The Sites that are told are those that host an Event somebody deleted took part in. */
  lemma ToldExactly(t: Tables, people: set<PersonId>, site: SiteId)
    ensures site in SitesOf(t, Affected(t, people)) <==>
      exists id :: id in t.deployments && t.deployments[id].site == site && TakesPart(t.participants, people, t.deployments[id].event)
  {
    hide Affected;
    forall event
      ensures event in Affected(t, people) <==> TakesPart(t.participants, people, event)
    {
      AffectedExactly(t, people, event);
    }
  }

  /** Afterwards everybody else takes part in what they took part in before, and nobody deleted in anything. */
  lemma WithoutExactly(participants: map<EventId, set<PersonId>>, people: set<PersonId>, event: EventId, p: PersonId)
    ensures event in Without(participants, people) <==> event in participants
    ensures event in participants ==> (p in Without(participants, people)[event] <==> p in participants[event] && p !in people)
  {}

  /** One tombstone for each Site that hosts an affected Event. */
  ghost predicate Tombstones(rows: seq<OutboxRow>, sites: set<SiteId>, payload: Payload) {
    && |rows| == |sites|
    && (forall k :: 0 <= k < |rows| ==> rows[k].site in sites && rows[k].payload == payload)
    && (forall j, k :: 0 <= j < k < |rows| ==> rows[j].site != rows[k].site)
  }

  /** A snapshot of an affected deployment that names everybody who took part in its Event but the deleted people. */
  ghost predicate CleanSnapshot(row: OutboxRow, t: Tables, people: set<PersonId>) {
    && row.payload.Publication?
    && row.payload.id in t.deployments && row.site == t.deployments[row.payload.id].site
    && var event := t.deployments[row.payload.id].event;
    && event in t.participants && (exists p :: p in people && p in t.participants[event])
    && (forall p :: p in row.payload.people <==> p in t.participants[event] && p !in people)
  }

  /** Exactly the active deployments of existing Events among these were pushed, once each. */
  ghost predicate Republished(t: Tables, t': Tables, events: set<EventId>) {
    && t'.deployments.Keys == t.deployments.Keys && t'.events.Keys == t.events.Keys
    && (forall id :: id in t.deployments ==> t'.deployments[id] == PushedIf(t.deployments[id], Due(t, t.deployments[id], events)))
    && (forall e :: e in t.events ==> t'.events[e] == t.events[e] + if e in events then 1 else 0)
  }

  predicate Due(t: Tables, a: Assignment, events: set<EventId>) {
    a.event in events && a.event in t.events && Active(a)
  }

  /** Which deployments a bulk deletion publishes again, each by one revision, and which Events' programs it touches. */
  lemma RepublishedExactly(t0: Tables, t: Tables, people: set<PersonId>, id: DeploymentId)
    requires Sane(t0) && Republished(t0, t, Affected(t0, people)) && id in t0.deployments
    ensures id in t.deployments && t.deployments[id] == t0.deployments[id].(record := t.deployments[id].record)
    ensures var a := t0.deployments[id];
      var due := a.event in t0.events && TakesPart(t0.participants, people, a.event) && a.record.status != Revoked && a.record.status != Archived;
      if due then t.deployments[id].record.desired == a.record.desired + 1 && t.deployments[id].record.status == UpdatePending
      else t.deployments[id] == a
    ensures forall e :: e in t0.events ==> t.events[e] == t0.events[e] + if TakesPart(t0.participants, people, e) then 1 else 0
  {
    hide Affected;
    forall event
      ensures event in Affected(t0, people) <==> TakesPart(t0.participants, people, event)
    {
      AffectedExactly(t0, people, event);
    }
    assert Stored(t0, id);
    OperationsNeverAbort(t0.deployments[id].record, false);
  }

  // ---------------------------------------------------------------- acknowledgements

  function SequencesIn(outbox: seq<OutboxRow>, site: SiteId, ids: set<nat>): set<nat> {
    set i | 0 <= i < |outbox| && i in ids && outbox[i].site == site :: outbox[i].sequence
  }

  /** The endpoint's answer, on the Site's channel; None is the conflict. */
  function Acknowledged(t: Tables, site: SiteId, ids: set<nat>, checkpoint: nat): Option<Channels.Channel> {
    Channels.Acknowledge(ChannelOf(t, site), SequencesIn(t.outbox, site, ids), checkpoint)
  }

  /** The rows of one Site that ids name become acknowledged; positions stand for row identities. */
  function MarkRows(outbox: seq<OutboxRow>, site: SiteId, ids: set<nat>): seq<OutboxRow> {
    seq(|outbox|, i requires 0 <= i < |outbox| =>
      if i in ids && outbox[i].site == site then outbox[i].(acknowledged := true) else outbox[i])
  }

  lemma {:induction false} MarkingKeepsSequences(outbox: seq<OutboxRow>, site: SiteId, ids: set<nat>, other: SiteId)
    ensures SequencesOf(MarkRows(outbox, site, ids), other) == SequencesOf(outbox, other)
    ensures other != site ==> StatusesOf(MarkRows(outbox, site, ids), other) == StatusesOf(outbox, other)
    decreases |outbox|
  {
    if outbox != [] {
      var init := outbox[..|outbox| - 1];
      MarkingKeepsSequences(init, site, ids, other);
      assert MarkRows(outbox, site, ids)[..|outbox| - 1] == MarkRows(init, site, ids);
    }
  }

  /** A Site's row is named by its number exactly when it is named by its position. */
  lemma NamedByNumber(t: Tables, site: SiteId, ids: set<nat>, i: nat)
    requires Numbered(t) && i < |t.outbox| && t.outbox[i].site == site
    ensures t.outbox[i].sequence in SequencesIn(t.outbox, site, ids) <==> i in ids
  {
    if t.outbox[i].sequence in SequencesIn(t.outbox, site, ids) {
      var j :| 0 <= j < |t.outbox| && j in ids && t.outbox[j].site == site && t.outbox[j].sequence == t.outbox[i].sequence;
      if j < i { LaterRowsHaveHigherNumbers(t, j, i); }
      if i < j { LaterRowsHaveHigherNumbers(t, i, j); }
    }
  }

  lemma StatusAt(t: Tables, site: SiteId, k: nat) returns (i: nat)
    requires Numbered(t) && k < |StatusesOf(t.outbox, site)|
    ensures i < |t.outbox| && t.outbox[i].site == site && t.outbox[i].sequence == k + 1
    ensures StatusesOf(t.outbox, site)[k] == t.outbox[i].acknowledged
  {
    SameLength(t.outbox, site);
    assert NumberedFor(t, site);
    i := NumberHasRow(t.outbox, site, k);
    var at := PositionOf(t.outbox, site, i);
  }

  lemma MarkingKeepsNumbered(t: Tables, site: SiteId, ids: set<nat>)
    requires Numbered(t)
    ensures var t' := t.(outbox := MarkRows(t.outbox, site, ids));
      Numbered(t') && forall other: SiteId :: other != site ==> ChannelOf(t', other) == ChannelOf(t, other)
  {
    var t' := t.(outbox := MarkRows(t.outbox, site, ids));
    forall other: SiteId
      ensures NumberedFor(t', other) && (other != site ==> ChannelOf(t', other) == ChannelOf(t, other))
    {
      assert NumberedFor(t, other);
      MarkingKeepsSequences(t.outbox, site, ids, other);
    }
  }

  lemma SameRow(t: Tables, i: nat, j: nat)
    requires Numbered(t) && i < |t.outbox| && j < |t.outbox|
    requires t.outbox[i].site == t.outbox[j].site && t.outbox[i].sequence == t.outbox[j].sequence
    ensures i == j
  {
    if j < i { LaterRowsHaveHigherNumbers(t, j, i); }
    if i < j { LaterRowsHaveHigherNumbers(t, i, j); }
  }

  /** One place of the channel, before and after the marking. */
  lemma MarkedAt(t: Tables, site: SiteId, ids: set<nat>, k: nat)
    requires Numbered(t) && k < |StatusesOf(t.outbox, site)|
    requires |StatusesOf(MarkRows(t.outbox, site, ids), site)| == |StatusesOf(t.outbox, site)|
    ensures StatusesOf(MarkRows(t.outbox, site, ids), site)[k] ==
              (StatusesOf(t.outbox, site)[k] || k + 1 in SequencesIn(t.outbox, site, ids))
  {
    hide Numbered, StatusesOf, SequencesOf, SequencesIn;
    var t' := t.(outbox := MarkRows(t.outbox, site, ids));
    MarkingKeepsNumbered(t, site, ids);
    var i := StatusAt(t, site, k);
    var j := StatusAt(t', site, k);
    SameRow(t', i, j);
    NamedByNumber(t, site, ids, i);
  }

  /** Acknowledging rows by identity is acknowledging their numbers on the Site's channel. */
  lemma MarkingIsAcknowledging(t: Tables, site: SiteId, ids: set<nat>)
    requires Numbered(t)
    ensures StatusesOf(MarkRows(t.outbox, site, ids), site) ==
            Channels.Marked(StatusesOf(t.outbox, site), SequencesIn(t.outbox, site, ids))
  {
    hide Numbered, StatusesOf, SequencesOf, SequencesIn, MarkRows;
    MarkingKeepsSequences(t.outbox, site, ids, site);
    SameLength(t.outbox, site);
    SameLength(MarkRows(t.outbox, site, ids), site);
    forall k | 0 <= k < |StatusesOf(t.outbox, site)|
      ensures StatusesOf(MarkRows(t.outbox, site, ids), site)[k] ==
                (StatusesOf(t.outbox, site)[k] || k + 1 in SequencesIn(t.outbox, site, ids))
    {
      MarkedAt(t, site, ids, k);
    }
  }

  lemma HighestSequence(t: Tables, site: SiteId, ids: set<nat>, found: bool, highest: nat, current: nat)
    requires Numbered(t)
    requires found <==> SequencesIn(t.outbox, site, ids) != {}
    requires !found ==> highest == current
    requires found ==> highest in SequencesIn(t.outbox, site, ids)
    requires found ==> forall q :: q in SequencesIn(t.outbox, site, ids) ==> q <= highest
    ensures highest == Channels.Highest(SequencesIn(t.outbox, site, ids), |ChannelOf(t, site).acked|, current)
  {
    var named, n := SequencesIn(t.outbox, site, ids), |ChannelOf(t, site).acked|;
    forall q | q in named
      ensures 1 <= q <= n
    {
      var j :| 0 <= j < |t.outbox| && j in ids && t.outbox[j].site == site && t.outbox[j].sequence == q;
      NumberIsPosition(t, j);
    }
    Channels.HighestIsMaximum(named, n, current);
  }

  /** An acknowledgement is accepted exactly if its checkpoint is not above the highest row it names, or above the cursor if it names none. */
  lemma AcknowledgedExactly(t: Tables, site: SiteId, ids: set<nat>, checkpoint: nat)
    requires Numbered(t)
    ensures Acknowledged(t, site, ids, checkpoint).Some? <==>
      if exists i :: 0 <= i < |t.outbox| && i in ids && t.outbox[i].site == site
      then exists i :: 0 <= i < |t.outbox| && i in ids && t.outbox[i].site == site && checkpoint <= t.outbox[i].sequence
      else checkpoint <= Checkpoint(t, site)
  {
    hide Numbered, SequencesIn;
    var named, c := SequencesIn(t.outbox, site, ids), ChannelOf(t, site);
    Channels.AcknowledgeExactly(c, named, checkpoint, 0);
    NamedSequences(t.outbox, site, ids);
    forall i | 0 <= i < |t.outbox| && i in ids && t.outbox[i].site == site
      ensures 1 <= t.outbox[i].sequence <= |c.acked|
    {
      NumberIsPosition(t, i);
    }
  }

  lemma NamedSequences(outbox: seq<OutboxRow>, site: SiteId, ids: set<nat>)
    ensures forall i :: 0 <= i < |outbox| && i in ids && outbox[i].site == site ==> outbox[i].sequence in SequencesIn(outbox, site, ids)
    ensures forall q :: q in SequencesIn(outbox, site, ids) ==>
              exists i :: 0 <= i < |outbox| && i in ids && outbox[i].site == site && outbox[i].sequence == q
  {}

  lemma CurrentIsCheckpoint(t: Tables, site: SiteId)
    ensures Checkpoint(t, site) == ChannelOf(t, site).checkpoint == if site in t.checkpoints then t.checkpoints[site] else 0
  {}

  lemma AcknowledgedUnless(t: Tables, site: SiteId, ids: set<nat>, checkpoint: nat)
    ensures var c := ChannelOf(t, site);
      Acknowledged(t, site, ids, checkpoint).Some? <==> checkpoint <= Channels.Highest(SequencesIn(t.outbox, site, ids), |c.acked|, c.checkpoint)
  {}

  /** Marking the rows and moving the cursor is the channel's acknowledgement, and no other channel's business. */
  lemma AcknowledgedTables(t: Tables, t': Tables, site: SiteId, ids: set<nat>, checkpoint: nat)
    requires Sane(t) && Acknowledged(t, site, ids, checkpoint).Some?
    requires t' == t.(outbox := MarkRows(t.outbox, site, ids), checkpoints := t.checkpoints[site := Max(checkpoint, Checkpoint(t, site))])
    ensures Sane(t') && ChannelOf(t', site) == Acknowledged(t, site, ids, checkpoint).value
    ensures forall other: SiteId :: other != site ==> ChannelOf(t', other) == ChannelOf(t, other)
  {
    hide Numbered, SequencesOf, StatusesOf, SequencesIn, MarkRows;
    MarkingIsAcknowledging(t, site, ids);
    MarkingKeepsNumbered(t, site, ids);
    FrameNumbered(t.(outbox := t'.outbox), t');
    FrameSane(t, t');
  }

  lemma MarkOneMore(outbox: seq<OutboxRow>, site: SiteId, ids: set<nat>, i: nat)
    requires i < |outbox|
    ensures var named := i in ids && outbox[i].site == site;
      && MarkRows(outbox[..i + 1], site, ids) ==
           MarkRows(outbox[..i], site, ids) + [if named then outbox[i].(acknowledged := true) else outbox[i]]
      && SequencesIn(outbox[..i + 1], site, ids) ==
           SequencesIn(outbox[..i], site, ids) + (if named then {outbox[i].sequence} else {})
  {}

  lemma FewerDeployments(t: Tables, t': Tables)
    requires Sane(t) && t'.outbox == t.outbox && t'.nextValues == t.nextValues
    requires forall id :: id in t'.deployments ==> id in t.deployments && t'.deployments[id] == t.deployments[id]
    requires forall key :: key in t.snapshots && key.0 in t'.deployments ==> key in t'.snapshots
    ensures Sane(t')
  {
    FrameNumbered(t, t');
    forall id | id in t'.deployments
      ensures Stored(t', id)
    {
      assert Stored(t, id);
    }
  }

  lemma OneMoreTombstone(rows: seq<OutboxRow>, sites: set<SiteId>, payload: Payload, row: OutboxRow)
    requires Tombstones(rows, sites, payload) && row.site !in sites && row.payload == payload
    ensures Tombstones(rows + [row], sites + {row.site}, payload)
  {}

  /** The deployments that a republication of these Events reaches. */
  function DueIn(t: Tables, events: set<EventId>): set<DeploymentId> {
    set id | id in t.deployments && Due(t, t.deployments[id], events)
  }

  /** A clean snapshot that carries a due deployment's next revision. */
  ghost predicate IsRepublished(row: OutboxRow, t0: Tables, people: set<PersonId>, events: set<EventId>) {
    && CleanSnapshot(row, t0, people) && row.payload.id in DueIn(t0, events)
    && var p := Push(t0.deployments[row.payload.id].record, false);
    && p.Some? && row.payload.row == p.value.1
  }

  /** rows extends start by one such snapshot for each due deployment, and nothing else. */
  ghost predicate Republication(start: seq<OutboxRow>, rows: seq<OutboxRow>, t0: Tables, people: set<PersonId>, events: set<EventId>) {
    && |start| <= |rows| && rows[..|start|] == start
    && (forall k :: |start| <= k < |rows| ==> IsRepublished(rows[k], t0, people, events))
    && (forall j, k :: |start| <= j < k < |rows| ==> rows[j].payload.id != rows[k].payload.id)
    && (forall id :: id in DueIn(t0, events) ==> QueuedSince(rows, |start|, id))
  }

  lemma NothingRepublished(start: seq<OutboxRow>, t0: Tables, people: set<PersonId>)
    ensures Republication(start, start, t0, people, {})
  {}

  /** Bulk deletion's second half, one more Event done. */
  lemma RepublishOneMore(t0: Tables, t: Tables, t': Tables, done: set<EventId>, event: EventId, active: set<DeploymentId>)
    requires event !in done && event in t0.events && Republished(t0, t, done)
    requires active == ActiveOf(t, event)
    requires PushedAll(t.(events := t.events[event := t.events[event] + 1]), t', active)
    ensures Republished(t0, t', done + {event})
  {}

  lemma SkipMissingEvent(t0: Tables, t: Tables, done: set<EventId>, event: EventId, start: seq<OutboxRow>, people: set<PersonId>)
    requires event !in t0.events && Republished(t0, t, done) && Republication(start, t.outbox, t0, people, done)
    ensures Republished(t0, t, done + {event}) && Republication(start, t.outbox, t0, people, done + {event})
  {}

  /** The Events done so far leave the next one's deployments as they were. */
  lemma NotYetRepublished(t0: Tables, t: Tables, done: set<EventId>, event: EventId)
    requires Republished(t0, t, done) && event !in done && event in t0.events
    ensures DueIn(t0, done + {event}) == DueIn(t0, done) + ActiveOf(t, event) && DueIn(t0, done) !! ActiveOf(t, event)
    ensures forall id :: id in ActiveOf(t, event) ==>
              id in t0.deployments && t.deployments[id] == t0.deployments[id] && t0.deployments[id].event == event
  {}

  lemma PushIsRepublished(t0: Tables, t: Tables, row: OutboxRow, done: set<EventId>, event: EventId, active: set<DeploymentId>, people: set<PersonId>)
    requires t.participants == Without(t0.participants, people) && event in Affected(t0, people)
    requires IsPushOf(t, row, active) && row.payload.id in active
    requires forall id :: id in active ==> id in t0.deployments && id in t.deployments && t.deployments[id] == t0.deployments[id]
    requires forall id :: id in active ==> t0.deployments[id].event == event && id in DueIn(t0, done + {event})
    ensures IsRepublished(row, t0, people, done + {event})
  {}

  /** One more Event's rows: clean, of its own deployments only, and all of them. */
  lemma RepublicationOneMore(t0: Tables, t: Tables, t': Tables, start: seq<OutboxRow>, done: set<EventId>, event: EventId,
                             active: set<DeploymentId>, people: set<PersonId>)
    requires t.participants == Without(t0.participants, people) && event in Affected(t0, people)
    requires Republication(start, t.outbox, t0, people, done) && PushedRows(t, t', active)
    requires DueIn(t0, done + {event}) == DueIn(t0, done) + active && DueIn(t0, done) !! active
    requires forall id :: id in active ==> id in t0.deployments && id in t.deployments && t.deployments[id] == t0.deployments[id]
    requires forall id :: id in active ==> t0.deployments[id].event == event
    ensures Republication(start, t'.outbox, t0, people, done + {event})
  {
    hide DueIn, Affected, Without, IsPushOf, CleanSnapshot, IsRepublished, QueuedSince;
    var mid, rows := |t.outbox|, t'.outbox;
    assert rows[..|start|] == rows[..mid][..|start|];
    forall k | |start| <= k < |rows|
      ensures IsRepublished(rows[k], t0, people, done + {event}) && rows[k].payload.Publication?
      ensures k < mid ==> rows[k].payload.id in DueIn(t0, done)
      ensures k >= mid ==> rows[k].payload.id in active
    {
      if k < mid {
        assert rows[..mid][k] == t.outbox[k];
        RepublishedMore(rows[k], t0, people, done, done + {event});
      } else {
        PushNames(t, rows[k], active);
        PushIsRepublished(t0, t, rows[k], done, event, active, people);
      }
    }
    assert forall j, k :: |start| <= j < k < mid ==> rows[..mid][j].payload.id != rows[..mid][k].payload.id;
    forall id | id in DueIn(t0, done + {event})
      ensures QueuedSince(rows, |start|, id)
    {
      if id in active {
        QueuedEarlier(rows, |start|, mid, id);
      } else {
        QueuedStays(t.outbox, rows, |start|, id);
      }
    }
  }

  lemma QueuedEarlier(rows: seq<OutboxRow>, start: nat, from: nat, id: DeploymentId)
    requires start <= from && QueuedSince(rows, from, id)
    ensures QueuedSince(rows, start, id)
  {}

  lemma RepublishedMore(row: OutboxRow, t0: Tables, people: set<PersonId>, events: set<EventId>, more: set<EventId>)
    requires IsRepublished(row, t0, people, events) && events <= more
    ensures IsRepublished(row, t0, people, more) && row.payload.Publication? && row.payload.id in DueIn(t0, events)
  {}

  lemma PushNames(t: Tables, row: OutboxRow, ids: set<DeploymentId>)
    requires IsPushOf(t, row, ids)
    ensures row.payload.Publication? && row.payload.id in ids
  {}

  lemma NoConflictsExactly(dir: Directory, event: EventId, site: SiteId, labels: set<nat>, conflicts: set<nat>)
    requires labels == if event in dir.labels then dir.labels[event] else {}
    requires conflicts == set room | room in labels && (site, room) in dir.ambiguous
    ensures conflicts == {} <==> RoomsResolve(dir, event, site)
  {
    if conflicts == {} && event in dir.labels {
      forall room | room in dir.labels[event]
        ensures (site, room) !in dir.ambiguous
      {
        assert room !in conflicts;
      }
    }
  }

  // ---------------------------------------------------------------- the store

  class Store {
    var nextValues: map<SiteId, nat>
    var outbox: seq<OutboxRow>
    var deployments: map<DeploymentId, Assignment>
    var snapshots: map<(DeploymentId, nat), set<PersonId>>
    var events: map<EventId, nat>
    var participants: map<EventId, set<PersonId>>
    var checkpoints: map<SiteId, nat>

    ghost function View(): Tables
      reads this
    {
      Tables(nextValues, outbox, deployments, snapshots, events, participants, checkpoints)
    }

    ghost predicate Valid()
      reads this
    {
      Sane(View())
    }

    constructor ()
      ensures Valid() && View() == Tables(map[], [], map[], map[], map[], map[], map[])
    {
      nextValues, outbox, deployments, snapshots := map[], [], map[], map[];
      events, participants, checkpoints := map[], map[], map[];
      new;
      assert forall site: SiteId :: NumberedFor(View(), site);
    }

    /** The per-Site allocator: the first call stores 2 and answers 1. */
    method NextSequence(site: SiteId) returns (value: nat)
      modifies this`nextValues
      ensures value == NextValue(old(View()), site)
      ensures nextValues == old(nextValues)[site := value + 1]
    {
      if site !in nextValues {
        nextValues := nextValues[site := 2];
        return 1;
      }
      value := nextValues[site];
      nextValues := nextValues[site := value + 1];
    }

    method EnqueueOutbox(site: SiteId, payload: Payload)
      requires Numbered(View())
      modifies this
      ensures View() == Enqueue(old(View()), site, payload) && Numbered(View())
    {
      EnqueueKeepsNumbered(View(), site, payload);
      var sequence := NextSequence(site);
      outbox := outbox + [OutboxRow(site, sequence, payload, false)];
    }

    method CreateSettingEvent(site: SiteId)
      requires Valid()
      modifies this
      ensures Valid() && View() == Enqueue(old(View()), site, SettingChanged)
    {
      EnqueueOutbox(site, SettingChanged);
    }

    /** Move to the target if the table allows it; answers false for the conflict. */
    method Transition(status: Status, target: Status) returns (ok: bool, result: Status)
      ensures ok <==> Permits(status, target)
      ensures result == if ok then target else status
    {
      if target == status {
        return true, status;
      }
      if target !in AllowedTargets(status) {
        return false, status;
      }
      return true, target;
    }

    method PushDeployment(id: DeploymentId, initial: bool) returns (ok: bool)
      requires id in deployments && Numbered(View())
      modifies this
      ensures ok <==> Push(old(deployments[id].record), initial).Some?
      ensures !ok ==> View() == old(View())
      ensures ok ==> View() == Published(old(View()), id, Push(old(deployments[id].record), initial).value,
                                         Participants(old(View()), old(deployments[id].event)))
      ensures ok ==>
        var next := old(deployments[id].record.desired) + 1;
        && |outbox| == |old(outbox)| + 1 && outbox[..|old(outbox)|] == old(outbox)
        && var row := outbox[|old(outbox)|];
        && row.site == old(deployments[id].site) && !row.acknowledged
        && row.payload.Publication? && row.payload.id == id && row.payload.row.revision == next
        && (id, next) in snapshots && snapshots[(id, next)] == row.payload.people
        && NamesAll(row.payload.people, old(participants), old(deployments[id].event))
      ensures Numbered(View())
    {
      var a := deployments[id];
      var d := a.record;
      if d.status == Revoked || d.status == Archived {
        return false;
      }
      var revision := d.desired + 1;
      var people := if a.event in participants then participants[a.event] else {};
      var kind := if initial || d.desired == 0 then Requested else Updated;
      if revision in d.revisions {
        return false;
      }
      d := d.(revisions := d.revisions[revision := kind]);
      var target := if d.desired == 0 then Pending else UpdatePending;
      var moved, status := Transition(d.status, target);
      if !moved {
        return false;
      }
      d := d.(status := status, desired := revision);
      deployments := deployments[id := a.(record := d)];
      snapshots := snapshots[(id, revision) := people];
      FrameNumbered(old(View()), View());
      EnqueueOutbox(a.site, Publication(id, Row(revision, kind), people));
      return true;
    }

    method CreateDeployment(dir: Directory, id: DeploymentId, event: EventId, site: SiteId) returns (refusal: Option<Refusal>)
      requires Valid() && id !in deployments
      modifies this
      ensures Valid()
      ensures refusal == CreationRefusal(old(View()), dir, event, site)
      ensures refusal.Some? ==> View() == old(View())
      ensures refusal.None? ==>
        var h := Created();
        View() == Published(old(View()).(deployments := old(deployments)[id := Assignment(event, site, NEW_DEPLOYMENT)]), id,
                            (h.deployment, h.rows[0]), Participants(old(View()), event))
      ensures refusal.None? ==>
        && |outbox| == |old(outbox)| + 1 && outbox[..|old(outbox)|] == old(outbox)
        && var row := outbox[|old(outbox)|];
        && row.site == site && !row.acknowledged
        && row.payload.Publication? && row.payload.id == id && row.payload.row == Row(1, Requested)
        && (id, 1) in snapshots && snapshots[(id, 1)] == row.payload.people && NamesAll(row.payload.people, old(participants), event)
    {
      CreatedIsPushed();
      if event !in events {
        return Some(EventNotFound);
      }
      if site !in dir.sites {
        return Some(SiteNotFound);
      }
      if !dir.sites[site] {
        return Some(SiteNotActive);
      }
      var labels := if event in dir.labels then dir.labels[event] else {};
      var conflicts := set room | room in labels && (site, room) in dir.ambiguous;
      NoConflictsExactly(dir, event, site, labels, conflicts);
      if conflicts != {} {
        return Some(ValidationFailed);
      }
      if exists i :: i in deployments && deployments[i].event == event && deployments[i].site == site {
        return Some(AlreadyAssigned);
      }
      deployments := deployments[id := Assignment(event, site, NEW_DEPLOYMENT)];
      FrameNumbered(old(View()), View());
      var ok := PushDeployment(id, true);
      return None;
    }

    method RetryDeployment(id: DeploymentId) returns (ok: bool)
      requires Valid() && id in deployments
      modifies this
      ensures Valid()
      ensures ok <==> old(deployments[id].record.status) == Failed
      ensures !ok ==> View() == old(View())
      ensures ok ==> Retry(old(deployments[id].record)).Some?
                     && (id, old(deployments[id].record.desired)) in old(snapshots)
                     && View() == Published(old(View()), id, Retry(old(deployments[id].record)).value,
                                            old(snapshots[(id, deployments[id].record.desired)]))
    {
      var a := deployments[id];
      var d := a.record;
      if d.status != Failed || d.desired !in d.revisions {
        return false;
      }
      var kind := d.revisions[d.desired];
      var moved, status := Transition(d.status, if d.acked == 0 then Pending else UpdatePending);
      if !moved {
        return false;
      }
      deployments := deployments[id := a.(record := d.(status := status))];
      FrameNumbered(old(View()), View());
      EnqueueOutbox(a.site, Publication(id, Row(d.desired, kind), snapshots[(id, d.desired)]));
      assert snapshots[(id, d.desired) := snapshots[(id, d.desired)]] == snapshots;
      return true;
    }

    method RevokeDeployment(id: DeploymentId) returns (ok: bool)
      requires Valid() && id in deployments
      modifies this
      ensures Valid()
      ensures ok
      ensures Revoke(old(deployments[id].record)).Some?
              && View() == Published(old(View()), id, Revoke(old(deployments[id].record)).value, {})
    {
      var a := deployments[id];
      var d := a.record;
      var moved, status := Transition(d.status, Revoked);
      if !moved {
        return false;
      }
      var revision := d.desired + 1;
      if revision in d.revisions {
        return false;
      }
      d := d.(status := status, desired := revision, revisions := d.revisions[revision := Revocation]);
      deployments := deployments[id := a.(record := d)];
      snapshots := snapshots[(id, revision) := {}];
      FrameNumbered(old(View()), View());
      EnqueueOutbox(a.site, Publication(id, Row(revision, Revocation), {}));
      return true;
    }

    /** A deployment report that passed the identity checks. */
    method RecordReport(id: DeploymentId, report: Report)
      requires Valid() && id in deployments
      modifies this`deployments
      ensures Valid()
      ensures deployments == old(deployments)[id := old(deployments[id]).(record := ApplyReport(old(deployments[id].record), report))]
    {
      var d := Deployments.RecordReport(deployments[id].record, report);
      deployments := deployments[id := deployments[id].(record := d)];
      FrameNumbered(old(View()), View());
    }

    /** Push a set of active deployments; none of the pushes can be refused. */
    method PushAll(ids: set<DeploymentId>)
      requires Valid() && ids <= deployments.Keys && (forall id :: id in ids ==> Active(deployments[id]))
      modifies this
      ensures Valid() && PushedAll(old(View()), View(), ids)
    {
      hide PushedAll, Sane;
      var todo := ids;
      ghost var t0, done: set<DeploymentId> := View(), {};
      NothingPushed(t0);
      while todo != {}
        invariant done + todo == ids && done !! todo
        invariant Valid() && PushedAll(t0, View(), done)
      {
        var id :| id in todo;
        PushNext(t0, done, id);
        todo, done := todo - {id}, done + {id};
      }
      assert done == ids;
    }

    method PushNext(ghost t0: Tables, ghost done: set<DeploymentId>, id: DeploymentId)
      requires Sane(t0) && done <= t0.deployments.Keys && id in t0.deployments && id !in done && Active(t0.deployments[id])
      requires Valid() && PushedAll(t0, View(), done)
      modifies this
      ensures Valid() && PushedAll(t0, View(), done + {id})
    {
      ghost var t := View();
      assert Stored(t0, id);
      OperationsNeverAbort(t0.deployments[id].record, false);
      PushOneMore(t0, t, done, id);
      PublishedKeepsSane(t, id, DoPush, Participants(t, t.deployments[id].event));
      var ok := PushDeployment(id, false);
      assert View() == PushStep(t, id);
    }

    /** Raise the Event's program revision and list the deployments a publication would reach. */
    method TouchEventProgram(event: EventId) returns (active: set<DeploymentId>)
      requires Valid() && event in events
      modifies this`events
      ensures Valid() && events == old(events)[event := old(events)[event] + 1]
      ensures active == ActiveOf(old(View()), event)
    {
      events := events[event := events[event] + 1];
      FrameNumbered(old(View()), View());
      FrameSane(old(View()), View());
      active := set id | id in deployments && deployments[id].event == event && Active(deployments[id]);
    }

    /** The end of an edit publishes the Event to every active deployment, or, for an unknown Event, does nothing. */
    method PublishEdit(event: EventId) returns (ok: bool)
      requires Valid()
      modifies this
      ensures Valid()
      ensures ok <==> event in old(events)
      ensures !ok ==> View() == old(View())
      ensures ok ==> PushedAll(old(View()).(events := old(events)[event := old(events)[event] + 1]), View(),
                               ActiveOf(old(View()), event))
      ensures ok ==> deployments.Keys == old(deployments).Keys && forall id :: id in deployments ==>
                var a := old(deployments)[id];
                if a.event == event && a.record.status != Revoked && a.record.status != Archived
                then deployments[id].record.desired == a.record.desired + 1 && deployments[id].record.status == UpdatePending
                else deployments[id] == a
    {
      if event !in events {
        return false;
      }
      var active := TouchEventProgram(event);
      ghost var touched := View();
      PushAll(active);
      PushesRaiseByOne(touched, View(), active);
      return true;
    }

    /**
     Delete people everywhere, then tell the Sites: first one tombstone per affected
     Site, then fresh snapshots of the affected deployments. mark separates the two.
     */
    method RunBulkPeopleDeletion(people: set<PersonId>) returns (ghost mark: nat)
      requires Valid()
      modifies this
      ensures Valid()
      ensures participants == Without(old(participants), people) && checkpoints == old(checkpoints)
      ensures Republished(old(View()), View(), Affected(old(View()), people))
      ensures |old(outbox)| <= mark <= |outbox| && outbox[..|old(outbox)|] == old(outbox)
      ensures Tombstones(outbox[|old(outbox)|..mark], SitesOf(old(View()), Affected(old(View()), people)), PeopleDeleted(people))
      ensures Republication(outbox[..mark], outbox, old(View()), people, Affected(old(View()), people))
    {
      hide Sane, Affected, Without, Republished, Tombstones, IsRepublished, DueIn;
      ghost var t0 := View();
      var affected := DeletePeople(people);
      var sites := set id | id in deployments && deployments[id].event in affected :: deployments[id].site;
      PublishTombstones(PeopleDeleted(people), sites);
      mark := |outbox|;
      ghost var start := outbox;
      RepublishPeople(t0, people, affected);
      assert outbox[..|t0.outbox|] == start[..|t0.outbox|];
      assert outbox[|t0.outbox|..mark] == start[|t0.outbox|..];
    }

    /** Remove the people from every Event they take part in, and name those Events. */
    method DeletePeople(people: set<PersonId>) returns (affected: set<EventId>)
      requires Valid()
      modifies this`participants
      ensures Valid() && participants == Without(old(participants), people)
      ensures affected == Affected(old(View()), people)
    {
      affected := set e | e in participants && participants[e] * people != {};
      participants := map e | e in participants :: participants[e] - people;
      FrameNumbered(old(View()), View());
      FrameSane(old(View()), View());
    }

    /** Touch every affected Event that still exists and push its active deployments. */
    method RepublishPeople(ghost t0: Tables, people: set<PersonId>, affected: set<EventId>)
      requires Valid() && affected == Affected(t0, people) && participants == Without(t0.participants, people)
      requires deployments == t0.deployments && events == t0.events
      modifies this
      ensures Valid() && participants == old(participants) && checkpoints == old(checkpoints)
      ensures Republished(t0, View(), affected)
      ensures Republication(old(outbox), outbox, t0, people, affected)
    {
      var todo := affected;
      ghost var start, done: set<EventId> := outbox, {};
      NothingRepublished(start, t0, people);
      while todo != {}
        invariant Valid() && done + todo == affected && done !! todo
        invariant participants == old(participants) && checkpoints == old(checkpoints)
        invariant Republished(t0, View(), done) && Republication(start, outbox, t0, people, done)
      {
        var event :| event in todo;
        RepublishEvent(t0, start, done, people, event);
        todo, done := todo - {event}, done + {event};
      }
      assert done == affected;
    }

    method RepublishEvent(ghost t0: Tables, ghost start: seq<OutboxRow>, ghost done: set<EventId>,
                          ghost people: set<PersonId>, event: EventId)
      requires Valid() && event in Affected(t0, people) && event !in done
      requires participants == Without(t0.participants, people)
      requires Republished(t0, View(), done) && Republication(start, outbox, t0, people, done)
      modifies this
      ensures Valid() && participants == old(participants) && checkpoints == old(checkpoints)
      ensures Republished(t0, View(), done + {event}) && Republication(start, outbox, t0, people, done + {event})
    {
      ghost var t := View();
      if event in events {
        var active := TouchEventProgram(event);
        ghost var touched := View();
        PushAll(active);
        RepublishOneMore(t0, t, View(), done, event, active);
        NotYetRepublished(t0, t, done, event);
        RepublicationOneMore(t0, touched, View(), start, done, event, active, people);
      } else {
        SkipMissingEvent(t0, t, done, event, start, people);
      }
    }

    /** One tombstone per Site, in any order of Sites. */
    method PublishTombstones(payload: Payload, sites: set<SiteId>)
      requires Valid()
      modifies this`outbox, this`nextValues
      ensures Valid()
      ensures |old(outbox)| <= |outbox| && outbox[..|old(outbox)|] == old(outbox)
      ensures Tombstones(outbox[|old(outbox)|..], sites, payload)
    {
      var todo := sites;
      ghost var start, t0, done: set<SiteId> := outbox, View(), {};
      while todo != {}
        invariant Numbered(View()) && done + todo == sites && done !! todo
        invariant |start| <= |outbox| && outbox[..|start|] == start
        invariant Tombstones(outbox[|start|..], done, payload)
      {
        var site :| site in todo;
        EnqueueTombstone(start, done, payload, site);
        todo, done := todo - {site}, done + {site};
      }
      assert done == sites;
      FrameSane(t0, View());
    }

    method EnqueueTombstone(ghost start: seq<OutboxRow>, ghost done: set<SiteId>, payload: Payload, site: SiteId)
      requires Numbered(View()) && site !in done
      requires |start| <= |outbox| && outbox[..|start|] == start && Tombstones(outbox[|start|..], done, payload)
      modifies this`outbox, this`nextValues
      ensures Numbered(View())
      ensures |start| <= |outbox| && outbox[..|start|] == start && Tombstones(outbox[|start|..], done + {site}, payload)
    {
      EnqueueKeepsNumbered(View(), site, payload);
      var sequence := NextSequence(site);
      outbox := outbox + [OutboxRow(site, sequence, payload, false)];
      assert outbox[|start|..] == old(outbox)[|start|..] + [outbox[|old(outbox)|]];
      OneMoreTombstone(old(outbox)[|start|..], done, payload, outbox[|old(outbox)|]);
    }

    /**
     The part of an Event's deletion that Sites see: one tombstone to every Site that hosts it,
     numbered after everything queued before; its deployments and revisions then go.
     */
    method DeleteEvent(event: EventId) returns (ok: bool)
      requires Valid()
      modifies this
      ensures Valid()
      ensures ok <==> event in old(events)
      ensures !ok ==> View() == old(View())
      ensures ok ==>
        && |old(outbox)| <= |outbox| && outbox[..|old(outbox)|] == old(outbox)
        && Tombstones(outbox[|old(outbox)|..], SitesOf(old(View()), {event}), EventDeleted(event))
        && (forall site :: site in SitesOf(old(View()), {event}) <==>
              exists id :: id in old(deployments) && old(deployments)[id].event == event && old(deployments)[id].site == site)
        && (forall id :: id in deployments <==> id in old(deployments) && old(deployments)[id].event != event)
        && (forall id :: id in deployments ==> deployments[id] == old(deployments)[id])
        && (forall key :: key in snapshots <==> key in old(snapshots) && key.0 in deployments)
        && (forall key :: key in snapshots ==> snapshots[key] == old(snapshots)[key])
        && events == old(events) - {event} && participants == old(participants) - {event}
        && checkpoints == old(checkpoints)
    {
      hide Sane, Tombstones;
      if event !in events {
        return false;
      }
      var sites := set id | id in deployments && deployments[id].event in {event} :: deployments[id].site;
      assert sites == SitesOf(View(), {event});
      PublishTombstones(EventDeleted(event), sites);
      ghost var t := View();
      deployments := map id | id in deployments && deployments[id].event != event :: deployments[id];
      snapshots := map key | key in snapshots && key.0 in deployments :: snapshots[key];
      events, participants := events - {event}, participants - {event};
      FewerDeployments(t, View());
      return true;
    }

    /** Acknowledge the rows a Site names and advance its checkpoint. */
    method AcknowledgeCentralEvents(site: SiteId, ids: set<nat>, checkpoint: nat) returns (ok: bool)
      requires Valid()
      modifies this`outbox, this`checkpoints
      ensures Valid()
      ensures ok <==> Acknowledged(old(View()), site, ids, checkpoint).Some?
      ensures ok ==> outbox == MarkRows(old(outbox), site, ids)
                     && ChannelOf(View(), site) == Acknowledged(old(View()), site, ids, checkpoint).value
      ensures !ok ==> View() == old(View())
      ensures ok ==>
        && (forall i :: 0 <= i < |outbox| ==> outbox[i] == old(outbox)[i].(
              acknowledged := old(outbox)[i].acknowledged || (i in ids && old(outbox)[i].site == site)))
        && site in checkpoints && checkpoints[site] == Max(checkpoint, if site in old(checkpoints) then old(checkpoints)[site] else 0)
        && checkpoints == old(checkpoints)[site := checkpoints[site]]
      ensures forall other: SiteId :: other != site ==> ChannelOf(View(), other) == ChannelOf(old(View()), other)
    {
      hide Sane, Numbered, SequencesOf, StatusesOf, SequencesIn, ChannelOf, Acknowledged;
      ghost var t0 := View();
      SaneIsNumbered(t0);
      var current := if site in checkpoints then checkpoints[site] else 0;
      var rows, highest, found := MarkEvents(site, ids, current);
      CurrentIsCheckpoint(t0, site);
      HighestSequence(t0, site, ids, found, highest, current);
      AcknowledgedUnless(t0, site, ids, checkpoint);
      if checkpoint > highest {
        return false;
      }
      outbox := rows;
      checkpoints := checkpoints[site := if checkpoint > current then checkpoint else current];
      AcknowledgedTables(t0, View(), site, ids, checkpoint);
      return true;
    }

    /** The loop over the named rows: their new contents and the highest number among them. */
    method MarkEvents(site: SiteId, ids: set<nat>, current: nat)
      returns (rows: seq<OutboxRow>, highest: nat, found: bool)
      ensures rows == MarkRows(outbox, site, ids)
      ensures found <==> SequencesIn(outbox, site, ids) != {}
      ensures !found ==> highest == current
      ensures found ==> highest in SequencesIn(outbox, site, ids)
                        && forall q :: q in SequencesIn(outbox, site, ids) ==> q <= highest
    {
      rows, highest, found := [], current, false;
      for i := 0 to |outbox|
        invariant rows == MarkRows(outbox[..i], site, ids)
        invariant found <==> SequencesIn(outbox[..i], site, ids) != {}
        invariant !found ==> highest == current
        invariant found ==> highest in SequencesIn(outbox[..i], site, ids)
                            && forall q :: q in SequencesIn(outbox[..i], site, ids) ==> q <= highest
      {
        MarkOneMore(outbox, site, ids, i);
        var row := outbox[i];
        if i in ids && row.site == site {
          highest := if !found || row.sequence > highest then row.sequence else highest;
          found := true;
          row := row.(acknowledged := true);
        }
        rows := rows + [row];
      }
      assert outbox[..|outbox|] == outbox;
    }

    /** The first pending rows of a Site, in sequence order. */
    method OutboundEvents(site: SiteId, limit: nat) returns (batch: seq<OutboxRow>)
      requires Valid()
      ensures Numbers(batch) == Channels.Poll(ChannelOf(View(), site), limit)
      ensures forall row :: row in batch ==> row in outbox && row.site == site && !row.acknowledged
    {
      hide Sane, Numbered, SequencesOf, StatusesOf, Numbers, Channels.PollFrom;
      SaneIsNumbered(View());
      NoRows(site);
      batch := [];
      NoNumbers(ChannelOf(View(), site), limit);
      ghost var t, c, at := View(), ChannelOf(View(), site), 0;
      SameLength(outbox, site);
      var i := 0;
      while i < |outbox| && |batch| < limit
        invariant 0 <= i <= |outbox| && |batch| <= limit
        invariant at == |SequencesOf(outbox[..i], site)| <= |c.acked|
        invariant forall row :: row in batch ==> row in outbox && row.site == site && !row.acknowledged
        invariant Numbers(batch) + Channels.PollFrom(c.acked, at, limit - |batch|) == Channels.Poll(c, limit)
      {
        PollStep(t, site, i);
        if outbox[i].site == site {
          PollOneMore(c, at, batch, outbox[i], limit);
          if !outbox[i].acknowledged {
            batch := batch + [outbox[i]];
          }
          at := at + 1;
        }
        i := i + 1;
      }
      if i == |outbox| {
        assert outbox[..i] == outbox;
      }
      PollEnds(c, at, limit - |batch|);
    }
  }

  lemma NoNumbers(c: Channels.Channel, limit: nat)
    ensures Numbers([]) == [] && Channels.PollFrom(c.acked, 0, limit) == Channels.Poll(c, limit)
  {}

  lemma PollEnds(c: Channels.Channel, at: nat, limit: nat)
    requires at <= |c.acked| && (at == |c.acked| || limit == 0)
    ensures Channels.PollFrom(c.acked, at, limit) == []
  {}

  /** The next row of the channel joins the answer exactly if it is pending. */
  lemma PollOneMore(c: Channels.Channel, at: nat, batch: seq<OutboxRow>, row: OutboxRow, limit: nat)
    requires |batch| < limit && at < |c.acked| && row.sequence == at + 1 && row.acknowledged == c.acked[at]
    requires Numbers(batch) + Channels.PollFrom(c.acked, at, limit - |batch|) == Channels.Poll(c, limit)
    ensures var more := if row.acknowledged then batch else batch + [row];
      Numbers(more) + Channels.PollFrom(c.acked, at + 1, limit - |more|) == Channels.Poll(c, limit)
  {}

  /** One row further along the table is one row further along its Site's channel, and no other. */
  lemma PollStep(t: Tables, site: SiteId, i: nat)
    requires Numbered(t) && i < |t.outbox|
    ensures var at := |SequencesOf(t.outbox[..i], site)|;
      && |SequencesOf(t.outbox[..i + 1], site)| == (if t.outbox[i].site == site then at + 1 else at)
      && (t.outbox[i].site == site ==>
            at < |ChannelOf(t, site).acked| && t.outbox[i].sequence == at + 1
            && ChannelOf(t, site).acked[at] == t.outbox[i].acknowledged)
  {
    assert t.outbox[..i + 1][..i] == t.outbox[..i];
    if t.outbox[i].site == site {
      var k := PositionOf(t.outbox, site, i);
      assert NumberedFor(t, site);
    }
  }

  function Numbers(rows: seq<OutboxRow>): seq<nat> {
    seq(|rows|, i requires 0 <= i < |rows| => rows[i].sequence)
  }

  /** For every Site, the tombstone is numbered below each snapshot the same deletion republished to it. */
  lemma TombstonePrecedesSnapshots(t0: Tables, t: Tables, people: set<PersonId>, start: nat, mark: nat, k: nat)
    returns (i: nat)
    requires Numbered(t) && start <= mark <= k < |t.outbox|
    requires Tombstones(t.outbox[start..mark], SitesOf(t0, Affected(t0, people)), PeopleDeleted(people))
    requires CleanSnapshot(t.outbox[k], t0, people)
    ensures start <= i < mark && t.outbox[i].site == t.outbox[k].site && t.outbox[i].payload == PeopleDeleted(people)
    ensures t.outbox[i].sequence < t.outbox[k].sequence
  {
    var rows, sites := t.outbox[start..mark], SitesOf(t0, Affected(t0, people));
    var site := t.outbox[k].site;
    AffectedExactly(t0, people, t0.deployments[t.outbox[k].payload.id].event);
    assert site in sites;
    EverySiteHasARow(rows, sites, PeopleDeleted(people), site);
    var j :| 0 <= j < |rows| && rows[j].site == site;
    i := start + j;
    LaterRowsHaveHigherNumbers(t, i, k);
  }

  lemma {:induction false} EverySiteHasARow(rows: seq<OutboxRow>, sites: set<SiteId>, payload: Payload, site: SiteId)
    requires Tombstones(rows, sites, payload) && site in sites
    ensures exists j :: 0 <= j < |rows| && rows[j].site == site
    decreases |rows|
  {
    if rows != [] {
      var last := rows[|rows| - 1];
      if last.site != site {
        EverySiteHasARow(rows[..|rows| - 1], sites - {last.site}, payload, site);
      }
    }
  }
}
