/**
 The tables that publishing touches, as values, and the law every transaction keeps:
 the rows queued for a Site carry exactly the sequence numbers 1..n, in order.
 */
module OutboxTables {
  import opened Wrappers
  import opened Deployments
  import Channels = OutboundChannel

  type SiteId = nat
  type EventId = nat
  type PersonId = nat
  type DeploymentId = nat

  datatype Payload =
    | Publication(id: DeploymentId, row: Row, people: set<PersonId>)
    | SettingChanged
    | EventDeleted(event: EventId)
    | PeopleDeleted(deleted: set<PersonId>)

  datatype OutboxRow = OutboxRow(site: SiteId, sequence: nat, payload: Payload, acknowledged: bool)

  datatype Assignment = Assignment(event: EventId, site: SiteId, record: Deployment)

  /**
   nextValues holds a row only for Sites that were ever sent something; snapshots holds
   the people of each stored revision.
   */
  datatype Tables = Tables(
    nextValues: map<SiteId, nat>,
    outbox: seq<OutboxRow>,
    deployments: map<DeploymentId, Assignment>,
    snapshots: map<(DeploymentId, nat), set<PersonId>>,
    events: map<EventId, nat>,
    participants: map<EventId, set<PersonId>>,
    checkpoints: map<SiteId, nat>)

  // ---------------------------------------------------------------- numbering

  function NextValue(t: Tables, site: SiteId): nat {
    if site in t.nextValues then t.nextValues[site] else 1
  }

  function SequencesOf(outbox: seq<OutboxRow>, site: SiteId): seq<nat> {
    if outbox == [] then []
    else
      var last := outbox[|outbox| - 1];
      SequencesOf(outbox[..|outbox| - 1], site) + (if last.site == site then [last.sequence] else [])
  }

  function StatusesOf(outbox: seq<OutboxRow>, site: SiteId): seq<bool> {
    if outbox == [] then []
    else
      var last := outbox[|outbox| - 1];
      StatusesOf(outbox[..|outbox| - 1], site) + (if last.site == site then [last.acknowledged] else [])
  }

  function Checkpoint(t: Tables, site: SiteId): nat {
    if site in t.checkpoints then t.checkpoints[site] else 0
  }

  /** The queue of one Site, as the polling protocol sees it. */
  function ChannelOf(t: Tables, site: SiteId): Channels.Channel {
    Channels.Channel(StatusesOf(t.outbox, site), Checkpoint(t, site))
  }

  ghost predicate NumberedFor(t: Tables, site: SiteId) {
    && 1 <= NextValue(t, site)
    && SequencesOf(t.outbox, site) == Channels.Count(0, NextValue(t, site) - 1)
  }

  ghost predicate Numbered(t: Tables) {
    forall site: SiteId :: NumberedFor(t, site)
  }

  function Enqueue(t: Tables, site: SiteId, payload: Payload): Tables {
    t.(nextValues := t.nextValues[site := NextValue(t, site) + 1],
       outbox := t.outbox + [OutboxRow(site, NextValue(t, site), payload, false)])
  }

  lemma EnqueueKeepsNumbered(t: Tables, site: SiteId, payload: Payload)
    requires Numbered(t)
    ensures Numbered(Enqueue(t, site, payload))
    ensures var t' := Enqueue(t, site, payload);
      && t' == t.(nextValues := t'.nextValues, outbox := t'.outbox) && |t'.outbox| == |t.outbox| + 1 && t'.outbox[..|t.outbox|] == t.outbox
      && t'.outbox[|t.outbox|] == OutboxRow(site, |SequencesOf(t.outbox, site)| + 1, payload, false)
    ensures ChannelOf(Enqueue(t, site, payload), site) ==
            ChannelOf(t, site).(acked := ChannelOf(t, site).acked + [false])
    ensures forall other: SiteId :: other != site ==>
              ChannelOf(Enqueue(t, site, payload), other) == ChannelOf(t, other)
  {
    var t' := Enqueue(t, site, payload);
    assert t'.outbox[..|t.outbox|] == t.outbox && NumberedFor(t, site);
    forall other: SiteId
      ensures NumberedFor(t', other)
    {
      assert NumberedFor(t, other);
      var n := NextValue(t, other) - 1;
      assert other == site ==> Channels.Count(0, n + 1) == Channels.Count(0, n) + [n + 1];
    }
    forall other: SiteId | other != site
      ensures ChannelOf(t', other) == ChannelOf(t, other)
    {
      assert StatusesOf(t'.outbox, other) == StatusesOf(t.outbox, other);
    }
  }

  // ---------------------------------------------------------------- what numbering means

  lemma {:induction false} PositionOf(outbox: seq<OutboxRow>, site: SiteId, i: nat) returns (k: nat)
    requires i < |outbox| && outbox[i].site == site
    ensures k < |SequencesOf(outbox, site)| && SequencesOf(outbox, site)[k] == outbox[i].sequence
    ensures |StatusesOf(outbox, site)| == |SequencesOf(outbox, site)| && StatusesOf(outbox, site)[k] == outbox[i].acknowledged
    ensures k == |SequencesOf(outbox[..i], site)|
    decreases |outbox|
  {
    SameLength(outbox, site);
    SameLength(outbox[..|outbox| - 1], site);
    if i == |outbox| - 1 {
      k := |SequencesOf(outbox[..i], site)|;
    } else {
      assert outbox[..|outbox| - 1][..i] == outbox[..i];
      k := PositionOf(outbox[..|outbox| - 1], site, i);
    }
  }

  lemma {:induction false} SameLength(outbox: seq<OutboxRow>, site: SiteId)
    ensures |StatusesOf(outbox, site)| == |SequencesOf(outbox, site)|
    decreases |outbox|
  {
    if outbox != [] {
      SameLength(outbox[..|outbox| - 1], site);
    }
  }

  lemma {:induction false} PrefixIsShorter(outbox: seq<OutboxRow>, site: SiteId, i: nat, j: nat)
    requires i <= j <= |outbox|
    ensures |SequencesOf(outbox[..i], site)| <= |SequencesOf(outbox[..j], site)|
    decreases j
  {
    if i < j {
      assert outbox[..j][..j - 1] == outbox[..j - 1];
      PrefixIsShorter(outbox, site, i, j - 1);
    }
  }

  /** Rows queued later for the same Site carry strictly higher numbers, all of them below the next value. */
  lemma LaterRowsHaveHigherNumbers(t: Tables, i: nat, j: nat)
    requires Numbered(t) && i < j < |t.outbox| && t.outbox[i].site == t.outbox[j].site
    ensures 1 <= t.outbox[i].sequence < t.outbox[j].sequence < NextValue(t, t.outbox[j].site)
  {
    var site := t.outbox[i].site;
    var a := PositionOf(t.outbox, site, i);
    var b := PositionOf(t.outbox, site, j);
    PrefixIsShorter(t.outbox, site, i + 1, j);
    assert t.outbox[..i + 1][..i] == t.outbox[..i];
    assert NumberedFor(t, site);
  }

  /** The k-th row of a Site's queue is the row numbered k + 1. */
  lemma NumberIsPosition(t: Tables, i: nat)
    requires Numbered(t) && i < |t.outbox|
    ensures var row, c := t.outbox[i], ChannelOf(t, t.outbox[i].site);
      && 1 <= row.sequence <= |c.acked| && |c.acked| == NextValue(t, row.site) - 1
      && c.acked[row.sequence - 1] == row.acknowledged
  {
    var site := t.outbox[i].site;
    var k := PositionOf(t.outbox, site, i);
    assert NumberedFor(t, site);
  }

  /** Every number up to the last one issued is carried by some row. */
  lemma {:induction false} NumberHasRow(outbox: seq<OutboxRow>, site: SiteId, k: nat) returns (i: nat)
    requires k < |SequencesOf(outbox, site)|
    ensures i < |outbox| && outbox[i].site == site && outbox[i].sequence == SequencesOf(outbox, site)[k]
    ensures |SequencesOf(outbox[..i], site)| == k
    decreases |outbox|
  {
    var init := outbox[..|outbox| - 1];
    if k < |SequencesOf(init, site)| {
      i := NumberHasRow(init, site, k);
      assert init[..i] == outbox[..i];
    } else {
      i := |outbox| - 1;
    }
  }
}
