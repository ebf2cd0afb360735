/**
 Editing an Event: one transaction that moves its sessions to the new time zone, raises the
 program revision and publishes the Event to every active deployment.
 */
module EventEdits {
  import opened Wrappers
  import opened LocalTime
  import opened Deployments
  import opened OutboxTables
  import CentralStore

  type SessionId = nat

  datatype Scheduled = Scheduled(event: EventId, starts: Option<int>, ends: Option<int>)

  /** zone is None for a name that is no time zone; aware: both dates carry an offset, or are absent. */
  datatype Edit = Edit(zone: Option<Zone>, aware: bool, starts: Option<int>, ends: Option<int>)

  datatype Answer = NotFound | Unprocessable | Edited

  predicate IsZone(z: Zone) { |z.offsets| == |z.at| + 1 }

  function Rezoned(item: Scheduled, event: EventId, before: Zone, after: Zone): Scheduled
    requires IsZone(before) && IsZone(after)
  {
    if item.event != event || before == after then item
    else Scheduled(item.event, RezoneField(before, after, item.starts), RezoneField(before, after, item.ends))
  }

  function RezonedAll(schedule: map<SessionId, Scheduled>, event: EventId, before: Zone, after: Zone): map<SessionId, Scheduled>
    requires IsZone(before) && IsZone(after)
  {
    map s | s in schedule :: Rezoned(schedule[s], event, before, after)
  }

  // ---------------------------------------------------------------- what re-zoning means for a schedule

  /** The instants an Event's sessions are scheduled at. */
  predicate ScheduledAt(schedule: map<SessionId, Scheduled>, event: EventId, s: SessionId, instant: int) {
    s in schedule && schedule[s].event == event && (schedule[s].starts == Some(instant) || schedule[s].ends == Some(instant))
  }

  ghost predicate Unambiguous(schedule: map<SessionId, Scheduled>, event: EventId, before: Zone, after: Zone)
    requires IsZone(before) && IsZone(after)
  {
    forall s, i :: ScheduledAt(schedule, event, s, i) ==> EventDatetime(after, Wall(before, i)).Some?
  }

  /** Moving an Event to a zone where its times are unambiguous keeps every wall clock and touches no other Event. */
  lemma EditKeepsWalls(schedule: map<SessionId, Scheduled>, event: EventId, before: Zone, after: Zone, s: SessionId)
    requires WellSpaced(before) && WellSpaced(after) && before != after && s in schedule
    requires Unambiguous(schedule, event, before, after)
    ensures var now := RezonedAll(schedule, event, before, after)[s];
      if schedule[s].event != event then now == schedule[s]
      else
        && (schedule[s].starts.Some? <==> now.starts.Some?) && (schedule[s].ends.Some? <==> now.ends.Some?)
        && (now.starts.Some? ==> Wall(after, now.starts.value) == Wall(before, schedule[s].starts.value))
        && (now.ends.Some? ==> Wall(after, now.ends.value) == Wall(before, schedule[s].ends.value))
  {
    var item := schedule[s];
    if item.event == event && item.starts.Some? {
      assert ScheduledAt(schedule, event, s, item.starts.value);
      RezoneKeepsWall(before, after, item.starts.value);
    }
    if item.event == event && item.ends.Some? {
      assert ScheduledAt(schedule, event, s, item.ends.value);
      RezoneKeepsWall(before, after, item.ends.value);
    }
  }

  lemma FieldRoundTrip(before: Zone, after: Zone, field: Option<int>)
    requires WellSpaced(before) && WellSpaced(after)
    requires field.Some? ==> EventDatetime(after, Wall(before, field.value)).Some?
    ensures RezoneField(after, before, RezoneField(before, after, field)) == field <==> (field.Some? ==> !Fold(before, field.value))
  {
    if field.Some? { RezoneRoundTrip(before, after, field.value); }
  }

  /** Editing an Event there and back restores its whole schedule exactly when no time was the second showing of a wall time. */
  lemma EditedBackExactly(schedule: map<SessionId, Scheduled>, event: EventId, before: Zone, after: Zone)
    requires WellSpaced(before) && WellSpaced(after) && before != after
    requires Unambiguous(schedule, event, before, after)
    ensures RezonedAll(RezonedAll(schedule, event, before, after), event, after, before) == schedule <==>
              forall s, i :: ScheduledAt(schedule, event, s, i) ==> !Fold(before, i)
  {
    hide EventDatetime, RezoneField, Fold;
    var back := RezonedAll(RezonedAll(schedule, event, before, after), event, after, before);
    forall s | s in schedule
      ensures back[s] == schedule[s] <==> forall i :: ScheduledAt(schedule, event, s, i) ==> !Fold(before, i)
    {
      var item := schedule[s];
      if item.event == event {
        assert item.starts.Some? ==> ScheduledAt(schedule, event, s, item.starts.value);
        assert item.ends.Some? ==> ScheduledAt(schedule, event, s, item.ends.value);
        FieldRoundTrip(before, after, item.starts);
        FieldRoundTrip(before, after, item.ends);
      }
    }
    assert back == schedule <==> forall s :: s in schedule ==> back[s] == schedule[s];
  }

  // ---------------------------------------------------------------- the endpoint

  class Editor {
    const store: CentralStore.Store
    var zones: map<EventId, Zone>
    var schedule: map<SessionId, Scheduled>

    ghost predicate Valid()
      reads this, store
    {
      store.Valid() && zones.Keys == store.events.Keys && forall e :: e in zones ==> IsZone(zones[e])
    }

    constructor (s: CentralStore.Store, eventZones: map<EventId, Zone>, sessions: map<SessionId, Scheduled>)
      requires s.Valid() && eventZones.Keys == s.events.Keys && forall e :: e in eventZones ==> IsZone(eventZones[e])
      ensures Valid() && store == s && zones == eventZones && schedule == sessions
    {
      store, zones, schedule := s, eventZones, sessions;
    }

    /** The loop over the Event's sessions and their two scheduled fields. */
    method RezoneSessions(event: EventId, before: Zone, after: Zone)
      requires IsZone(before) && IsZone(after)
      modifies this`schedule
      ensures schedule == RezonedAll(old(schedule), event, before, after)
    {
      if before == after {
        return;
      }
      var todo := set s | s in schedule && schedule[s].event == event;
      while todo != {}
        invariant schedule.Keys == old(schedule).Keys
        invariant todo <= set s | s in old(schedule) && old(schedule)[s].event == event
        invariant forall s :: s in schedule ==>
                    schedule[s] == if s in todo then old(schedule)[s] else Rezoned(old(schedule)[s], event, before, after)
      {
        var s :| s in todo;
        var item := schedule[s];
        if item.starts.Some? {
          item := item.(starts := Some(Instant(after, Wall(before, item.starts.value), Fold(before, item.starts.value))));
        }
        if item.ends.Some? {
          item := item.(ends := Some(Instant(after, Wall(before, item.ends.value), Fold(before, item.ends.value))));
        }
        schedule := schedule[s := item];
        todo := todo - {s};
      }
    }

    /** Every active deployment of the Event gets exactly one more revision, and the schedule its new zone; or nothing changes. */
    method UpdateEvent(event: EventId, edit: Edit) returns (answer: Answer)
      requires Valid() && (edit.zone.Some? ==> IsZone(edit.zone.value))
      modifies this, store
      ensures Valid()
      ensures answer == NotFound <==> event !in old(store.events)
      ensures answer == Edited <==>
                (event in old(store.events) && edit.zone.Some? && edit.aware
                 && !(edit.starts.Some? && edit.ends.Some? && edit.ends.value < edit.starts.value))
      ensures answer != Edited ==> store.View() == old(store.View()) && zones == old(zones) && schedule == old(schedule)
      ensures answer == Edited ==>
        && zones == old(zones)[event := edit.zone.value]
        && schedule == RezonedAll(old(schedule), event, old(zones)[event], edit.zone.value)
        && CentralStore.PushedAll(old(store.View()).(events := old(store.events)[event := old(store.events)[event] + 1]), store.View(),
                                  CentralStore.ActiveOf(old(store.View()), event))
      ensures answer == Edited ==> store.deployments.Keys == old(store.deployments).Keys && forall id :: id in store.deployments ==>
                var a := old(store.deployments)[id];
                if a.event == event && a.record.status != Revoked && a.record.status != Archived
                then store.deployments[id].record.desired == a.record.desired + 1
                else store.deployments[id] == a
    {
      if event !in store.events {
        return NotFound;
      }
      if edit.zone.None? || !edit.aware {
        return Unprocessable;
      }
      if edit.starts.Some? && edit.ends.Some? && edit.ends.value < edit.starts.value {
        return Unprocessable;
      }
      RezoneSessions(event, zones[event], edit.zone.value);
      zones := zones[event := edit.zone.value];
      var ok := store.PublishEdit(event);
      return Edited;
    }
  }
}
