/**
 The worker's deletion run: person-owned history is written first, then the Event goes.
 History survives the deletion, once per person, however often the job is repeated.
 */
module EventDeletionRun {
  import opened Wrappers
  import opened Relational
  import opened EventDeletion

  predicate IsHistory(db: Db, k: Key, person: Key, e: Key) {
    && k in db && k.table == Histories && HISTORY_PERSON in db[k].refs && HISTORY_EVENT in db[k].refs
    && db[k].refs[HISTORY_PERSON] == person && db[k].refs[HISTORY_EVENT] == e
  }

  predicate Remembered(db: Db, person: Key, e: Key) {
    exists k :: k in db && IsHistory(db, k, person, e)
  }

  function Participants(db: Db, e: Key): set<Key> {
    Named(db, PARTICIPATION_PERSON, Having(db, PARTICIPATION_EVENT, {e}))
  }

  /** A history row that keeps what participation p said. */
  predicate Summarises(db: Db, e: Key, p: Key, row: Row) {
    && p in Having(db, PARTICIPATION_EVENT, {e}) && PARTICIPATION_PERSON in db[p].refs && HISTORY_PERSON in row.refs
    && db[p].refs[PARTICIPATION_PERSON] == row.refs[HISTORY_PERSON] && db[p].data == row.data
  }

  /** after is before plus one history row for each of these people who had none for e, and nothing else. */
  ghost predicate Retained(before: Db, after: Db, e: Key, people: set<Key>) {
    && (forall k :: k in before ==> k in after && after[k] == before[k])
    && (forall k :: k in after && k !in before ==> k.table == Histories && after[k].refs.Keys == {HISTORY_PERSON, HISTORY_EVENT})
    && (forall k :: k in after && k !in before ==>
          after[k].refs[HISTORY_EVENT] == e && after[k].refs[HISTORY_PERSON] in people && !Remembered(before, after[k].refs[HISTORY_PERSON], e))
    && (forall j, k :: j in after && k in after && j !in before && k !in before && j != k ==>
          after[j].refs[HISTORY_PERSON] != after[k].refs[HISTORY_PERSON])
    && (forall p :: p in people ==> Remembered(after, p, e))
    && (forall k :: k in after && k !in before ==> exists p :: p in before && Summarises(before, e, p, after[k]))
  }

  lemma {:induction false} UnusedId(keys: set<Key>) returns (id: nat)
    ensures forall k :: k in keys ==> k.id < id
    decreases keys
  {
    if keys == {} {
      id := 0;
    } else {
      var k :| k in keys;
      id := UnusedId(keys - {k});
      id := if k.id < id then id else k.id + 1;
    }
  }

  /** identifiers are drawn fresh; the summary of the participation is kept with the row. */
  method RetainHistory(c: Cleanup, e: Key)
    requires c.Valid() && Complete(c.rows) && e.table == Events
    modifies c
    ensures c.Valid() && Complete(c.rows)
    ensures Retained(old(c.rows), c.rows, e, Participants(old(c.rows), e))
  {
    hide Retained, Named, Having, Typed, FkValid, Complete;
    var before := c.rows;
    var todo := Having(c.rows, PARTICIPATION_EVENT, {e});
    ghost var done: set<Key> := {};
    HavingInHome(before, PARTICIPATION_EVENT, {e});
    NothingRetained(before, e);
    while todo != {}
      invariant c.Valid() && Complete(c.rows)
      invariant done + todo == Having(before, PARTICIPATION_EVENT, {e})
      invariant Retained(before, c.rows, e, Named(before, PARTICIPATION_PERSON, done))
      decreases todo
    {
      var p :| p in todo;
      RetainOne(before, c, e, done, p);
      todo, done := todo - {p}, done + {p};
    }
    assert done == Having(before, PARTICIPATION_EVENT, {e});
  }

  method RetainOne(ghost before: Db, c: Cleanup, e: Key, ghost done: set<Key>, p: Key)
    requires c.Valid() && Complete(c.rows) && Typed(before) && FkValid(before) && Complete(before) && e.table == Events
    requires p in Having(before, PARTICIPATION_EVENT, {e}) && p.table == Participations
    requires Retained(before, c.rows, e, Named(before, PARTICIPATION_PERSON, done))
    modifies c
    ensures c.Valid() && Complete(c.rows)
    ensures Retained(before, c.rows, e, Named(before, PARTICIPATION_PERSON, done + {p}))
  {
    hide Retained, Having, Typed, FkValid, Complete, ColumnsOf;
    PersonOf(before, c.rows, e, done, p);
    var person := c.rows[p].refs[PARTICIPATION_PERSON];
    assert Named(before, PARTICIPATION_PERSON, done + {p}) == Named(before, PARTICIPATION_PERSON, done) + {person};
    if exists k :: k in c.rows && IsHistory(c.rows, k, person, e) {
      NothingToRetain(before, c.rows, e, Named(before, PARTICIPATION_PERSON, done), person);
      return;
    }
    ghost var unused := UnusedId(c.rows.Keys);
    assert Key(Histories, unused) !in c.rows;
    var id: nat :| Key(Histories, id) !in c.rows;
    OneMoreHistory(before, c.rows, e, Named(before, PARTICIPATION_PERSON, done), p, id);
    c.rows := c.rows[Key(Histories, id) := HistoryRow(person, e, c.rows[p].data)];
  }

  function HistoryRow(person: Key, e: Key, summary: nat): Row {
    Row(map[HISTORY_PERSON := person, HISTORY_EVENT := e], summary)
  }

  lemma PersonOf(before: Db, rows: Db, e: Key, done: set<Key>, p: Key)
    requires Typed(before) && FkValid(before) && Complete(before) && p in Having(before, PARTICIPATION_EVENT, {e}) && p.table == Participations
    requires Retained(before, rows, e, Named(before, PARTICIPATION_PERSON, done))
    ensures p in before && p in rows && rows[p] == before[p] && PARTICIPATION_PERSON in before[p].refs
    ensures before[p].refs[PARTICIPATION_PERSON] in rows && before[p].refs[PARTICIPATION_PERSON].table == Persons
  {
    assert PARTICIPATION_PERSON in ColumnsOf(Participations);
  }

  lemma NothingToRetain(before: Db, rows: Db, e: Key, people: set<Key>, person: Key)
    requires Retained(before, rows, e, people) && Remembered(rows, person, e)
    ensures Retained(before, rows, e, people + {person})
  {}

  lemma NothingRetained(db: Db, e: Key)
    ensures Retained(db, db, e, Named(db, PARTICIPATION_PERSON, {}))
  {}

  lemma HistoryRowIsTyped(person: Key, e: Key, summary: nat, c: Column)
    requires person.table == Persons && e.table == Events
    ensures c in HistoryRow(person, e, summary).refs <==> c in ColumnsOf(Histories)
    ensures c in ColumnsOf(Histories) ==> c.home == Histories && (c.rule != Unconstrained ==> HistoryRow(person, e, summary).refs[c] == person && c.target == Persons)
  {}

  lemma HistoryFitsSchema(rows: Db, e: Key, person: Key, id: nat, summary: nat)
    requires Typed(rows) && FkValid(rows) && Complete(rows) && Key(Histories, id) !in rows
    requires person in rows && person.table == Persons && e.table == Events
    ensures var after := rows[Key(Histories, id) := HistoryRow(person, e, summary)];
      Typed(after) && FkValid(after) && Complete(after)
  {
    hide ColumnsOf, HistoryRow;
    forall c: Column
      ensures c in HistoryRow(person, e, summary).refs <==> c in ColumnsOf(Histories)
      ensures c in ColumnsOf(Histories) ==> c.home == Histories && (c.rule != Unconstrained ==> HistoryRow(person, e, summary).refs[c] == person && c.target == Persons)
    {
      HistoryRowIsTyped(person, e, summary, c);
    }
  }

  lemma RemembersMore(rows: Db, after: Db, person: Key, e: Key)
    requires forall k :: k in rows ==> k in after && after[k] == rows[k]
    ensures Remembered(rows, person, e) ==> Remembered(after, person, e)
  {}

  lemma RetainsOneMore(before: Db, rows: Db, e: Key, people: set<Key>, p: Key, id: nat)
    requires p in before && p in Having(before, PARTICIPATION_EVENT, {e}) && PARTICIPATION_PERSON in before[p].refs && Key(Histories, id) !in rows
    requires Retained(before, rows, e, people) && !Remembered(rows, before[p].refs[PARTICIPATION_PERSON], e)
    ensures var person := before[p].refs[PARTICIPATION_PERSON];
      Retained(before, rows[Key(Histories, id) := HistoryRow(person, e, before[p].data)], e, people + {person})
  {
    hide Remembered, Having;
    var person, summary := before[p].refs[PARTICIPATION_PERSON], before[p].data;
    var key, after := Key(Histories, id), rows[Key(Histories, id) := HistoryRow(person, e, summary)];
    assert after[key].refs.Keys == {HISTORY_PERSON, HISTORY_EVENT};
    assert Summarises(before, e, p, after[key]);
    forall p
      ensures Remembered(rows, p, e) ==> Remembered(after, p, e)
      ensures Remembered(before, p, e) ==> Remembered(rows, p, e)
    {
      RemembersMore(rows, after, p, e);
      RemembersMore(before, rows, p, e);
    }
    RemembersRow(after, key, person, e);
    forall k | k in rows && k !in before
      ensures rows[k].refs[HISTORY_PERSON] != person
    {
      if rows[k].refs[HISTORY_PERSON] == person { RemembersRow(rows, k, person, e); }
    }
  }

  lemma RemembersRow(rows: Db, k: Key, person: Key, e: Key)
    requires IsHistory(rows, k, person, e)
    ensures Remembered(rows, person, e)
  {}

  lemma OneMoreHistory(before: Db, rows: Db, e: Key, people: set<Key>, p: Key, id: nat)
    requires p in before && p in Having(before, PARTICIPATION_EVENT, {e}) && PARTICIPATION_PERSON in before[p].refs && Key(Histories, id) !in rows
    requires Retained(before, rows, e, people) && !Remembered(rows, before[p].refs[PARTICIPATION_PERSON], e)
    requires Typed(rows) && FkValid(rows) && Complete(rows) && e.table == Events
    requires before[p].refs[PARTICIPATION_PERSON] in rows && before[p].refs[PARTICIPATION_PERSON].table == Persons
    ensures var person := before[p].refs[PARTICIPATION_PERSON];
      var after := rows[Key(Histories, id) := HistoryRow(person, e, before[p].data)];
      Retained(before, after, e, people + {person}) && Typed(after) && FkValid(after) && Complete(after)
  {
    hide Retained, Typed, FkValid, Complete, ColumnsOf, HistoryRow, Having;
    HistoryFitsSchema(rows, e, before[p].refs[PARTICIPATION_PERSON], id, before[p].data);
    RetainsOneMore(before, rows, e, people, p, id);
  }

  // ---------------------------------------------------------------- history and deletion together

  /** after has every row of before, unchanged, and besides only history rows about the same Event. */
  ghost predicate OnlyHistoryAdded(before: Db, after: Db) {
    && (forall k :: k in before ==> k in after && after[k] == before[k])
    && (forall k :: k in after && k !in before ==> k.table == Histories)
  }

  lemma SameQuery(before: Db, after: Db, c: Column, targets: set<Key>)
    requires OnlyHistoryAdded(before, after) && Typed(before) && Typed(after) && c.home != Histories
    ensures Having(after, c, targets) == Having(before, c, targets)
  {}

  lemma SameNames(before: Db, after: Db, c: Column, rows: set<Key>)
    requires OnlyHistoryAdded(before, after) && Typed(before) && Typed(after) && c.home != Histories
    ensures Named(after, c, rows) == Named(before, c, rows)
  {}

  /** The columns the deletion's conditions look at. */
  ghost predicate SameQueries(before: Db, after: Db) {
    && (forall c: Column, targets: set<Key> :: c.home != Histories ==> Having(after, c, targets) == Having(before, c, targets))
    && (forall c: Column, rows: set<Key> :: c.home != Histories ==> Named(after, c, rows) == Named(before, c, rows))
    && AllOf(after, Assets) == AllOf(before, Assets)
  }

  lemma HistoryIsNotQueried(before: Db, after: Db)
    requires OnlyHistoryAdded(before, after) && Typed(before) && Typed(after)
    ensures SameQueries(before, after)
  {
    hide Having, Named, Typed;
    forall c: Column, targets: set<Key> | c.home != Histories
      ensures Having(after, c, targets) == Having(before, c, targets) && Named(after, c, targets) == Named(before, c, targets)
    {
      SameQuery(before, after, c, targets);
      SameNames(before, after, c, targets);
    }
  }

  lemma SamePrograms(before: Db, after: Db, e: Key)
    requires SameQueries(before, after)
    ensures AssetsOf(after, e) == AssetsOf(before, e) && PresentationsOf(after, e) == PresentationsOf(before, e)
    ensures VersionsOf(after, e) == VersionsOf(before, e) && BatchesOf(after, e) == BatchesOf(before, e)
    ensures Collected(after, e) == Collected(before, e) && ImportJobsOf(after, e) == ImportJobsOf(before, e)
    ensures forall b: set<Key> :: RowsOf(after, b) == RowsOf(before, b)
  {
    hide Having, Named, AllOf;
  }

  lemma SameOrphans(before: Db, after: Db, batches: set<Key>)
    requires SameQueries(before, after)
    ensures OrphanedBy(after, batches) == OrphanedBy(before, batches)
  {}

  lemma SameDoom(before: Db, after: Db, e: Key, t: Table)
    requires SameQueries(before, after)
    ensures DoomedIn(after, e, t) == DoomedIn(before, e, t)
  {
    hide Having, Named, AllOf, PresentationsOf, VersionsOf, AssetsOf, BatchesOf, Collected, ImportJobsOf, OrphanedBy, RowsOf;
    SamePrograms(before, after, e);
    SameOrphans(before, after, BatchesOf(before, e));
  }

  lemma SameIsDoomed(before: Db, after: Db, e: Key, k: Key)
    requires OnlyHistoryAdded(before, after) && SameQueries(before, after)
    ensures IsDoomed(after, e, k) <==> IsDoomed(before, e, k)
    ensures k in after && k !in before ==> !IsDoomed(after, e, k)
  {
    hide SameQueries, DoomedIn;
    SameDoom(before, after, e, k.table);
    HistoriesStay(before, e);
  }

  lemma HistoriesStay(db: Db, e: Key)
    ensures DoomedIn(db, e, Histories) == DoomedIn(db, e, Persons) == {}
  {}

  lemma HistoryColumns(c: Column)
    requires c in ColumnsOf(Histories) && c.rule == Restrict
    ensures c.target == Persons
  {}

  lemma SameObstacle(before: Db, after: Db, e: Key, k: Key, c: Column)
    requires Typed(after) && OnlyHistoryAdded(before, after) && SameQueries(before, after)
    ensures Obstacle(after, e, k, c) <==> Obstacle(before, e, k, c)
  {
    hide ColumnsOf, SameQueries, DoomedIn, IsDoomed;
    SameIsDoomed(before, after, e, k);
    if k in after && c in after[k].refs {
      SameIsDoomed(before, after, e, after[k].refs[c]);
      if k !in before && c.rule == Restrict {
        HistoryColumns(c);
        NoPersonIsDoomed(after, e, after[k].refs[c]);
      }
    }
  }

  lemma HistoryIsNeutral(before: Db, after: Db, e: Key)
    requires Typed(before) && Typed(after) && OnlyHistoryAdded(before, after)
    ensures Unobstructed(after, e) <==> Unobstructed(before, e)
    ensures OnlyHistoryAdded(Final(before, e), Final(after, e))
    ensures forall k :: k in after && k !in before ==> k in Final(after, e)
  {
    hide ColumnsOf, Typed, SameQueries, Obstacle, IsDoomed, Loosened;
    HistoryIsNotQueried(before, after);
    forall k, c
      ensures Obstacle(after, e, k, c) <==> Obstacle(before, e, k, c)
    {
      SameObstacle(before, after, e, k, c);
    }
    FinalGrows(before, after, e);
  }

  lemma FinalGrows(before: Db, after: Db, e: Key)
    requires Typed(before) && Typed(after) && OnlyHistoryAdded(before, after) && SameQueries(before, after)
    ensures OnlyHistoryAdded(Final(before, e), Final(after, e))
    ensures forall k :: k in after && k !in before ==> k in Final(after, e)
  {
    hide Typed, SameQueries, IsDoomed, Having;
    forall k
      ensures IsDoomed(after, e, k) <==> IsDoomed(before, e, k)
      ensures k in after && k !in before ==> !IsDoomed(after, e, k)
    {
      SameIsDoomed(before, after, e, k);
    }
    SameQuery(before, after, MEDIA_BATCH_EVENT, {e});
    forall k | k in before
      ensures Kept(after, e, after[k]) == Kept(before, e, before[k])
    {}
  }

  lemma NoPersonIsDoomed(db: Db, e: Key, p: Key)
    requires p.table == Persons
    ensures !IsDoomed(db, e, p)
  {}

  lemma HistoryRowSurvives(db: Db, e: Key, k: Key, p: Key)
    requires IsHistory(db, k, p, e)
    ensures k in Final(db, e) && IsHistory(Final(db, e), k, p, e)
  {}

  /** What a run that commits leaves: the Event gone, and one memory of it for everybody who took part. */
  lemma HistorySurvives(before: Db, after: Db, e: Key, people: set<Key>)
    requires Typed(before) && Typed(after) && Retained(before, after, e, people)
    ensures forall p :: p in people ==> Remembered(Final(after, e), p, e)
  {
    hide IsHistory, Final, ColumnsOf;
    forall p | p in people
      ensures Remembered(Final(after, e), p, e)
    {
      var k :| k in after && IsHistory(after, k, p, e);
      HistoryRowSurvives(after, e, k, p);
    }
  }

  /** The people an Event's history is about are those of its participations, and what remembers them is a row of their own. */
  lemma RememberedExactly(db: Db, after: Db, e: Key, k: Key)
    requires k in db && PARTICIPATION_EVENT in db[k].refs && db[k].refs[PARTICIPATION_EVENT] == e && PARTICIPATION_PERSON in db[k].refs
    requires forall p :: p in Participants(db, e) ==> Remembered(after, p, e)
    ensures exists h ::
      && h in after && h.table == Histories
      && HISTORY_PERSON in after[h].refs && after[h].refs[HISTORY_PERSON] == db[k].refs[PARTICIPATION_PERSON]
      && HISTORY_EVENT in after[h].refs && after[h].refs[HISTORY_EVENT] == e
  {
    assert k in Having(db, PARTICIPATION_EVENT, {e});
    assert db[k].refs[PARTICIPATION_PERSON] in Participants(db, e);
  }

  /** One new history row for somebody who had none, and none for anybody else. */
  lemma RetainedExactly(before: Db, after: Db, e: Key, h: Key)
    requires Retained(before, after, e, Participants(before, e)) && h in after && h !in before
    ensures h.table == Histories && HISTORY_PERSON in after[h].refs && HISTORY_EVENT in after[h].refs && after[h].refs[HISTORY_EVENT] == e
    ensures exists k ::
      && k in before && PARTICIPATION_EVENT in before[k].refs && before[k].refs[PARTICIPATION_EVENT] == e
      && PARTICIPATION_PERSON in before[k].refs && before[k].refs[PARTICIPATION_PERSON] == after[h].refs[HISTORY_PERSON] && before[k].data == after[h].data
    ensures forall o ::
      o in before && o.table == Histories && HISTORY_PERSON in before[o].refs && HISTORY_EVENT in before[o].refs && before[o].refs[HISTORY_EVENT] == e
      ==> before[o].refs[HISTORY_PERSON] != after[h].refs[HISTORY_PERSON]
    ensures forall o :: o in after && o !in before && o != h && HISTORY_PERSON in after[o].refs ==>
      after[o].refs[HISTORY_PERSON] != after[h].refs[HISTORY_PERSON]
  {
    forall o | o in before && o.table == Histories && HISTORY_PERSON in before[o].refs && HISTORY_EVENT in before[o].refs && before[o].refs[HISTORY_EVENT] == e
      ensures Remembered(before, before[o].refs[HISTORY_PERSON], e)
    {
      assert IsHistory(before, o, before[o].refs[HISTORY_PERSON], e);
    }
    var p :| p in before && Summarises(before, e, p, after[h]);
    assert PARTICIPATION_EVENT in before[p].refs;
  }

  /** The job: history, then the ordered cleanup; a refusal rolls both back. */
  method RunEventDeletion(c: Cleanup, e: Key) returns (ok: bool)
    requires c.Valid() && Complete(c.rows) && e.table == Events
    modifies c
    ensures c.Valid()
    ensures e !in old(c.rows) ==> ok && c.rows == old(c.rows)
    ensures e in old(c.rows) ==> (ok <==> Unobstructed(old(c.rows), e))
    ensures !ok ==> c.rows == old(c.rows)
    ensures e in old(c.rows) && ok ==>
      && OnlyHistoryAdded(Final(old(c.rows), e), c.rows)
      && forall p :: p in Participants(old(c.rows), e) ==> Remembered(c.rows, p, e)
    ensures e in old(c.rows) && ok ==>
      forall k :: k in old(c.rows) && PARTICIPATION_EVENT in old(c.rows)[k].refs && old(c.rows)[k].refs[PARTICIPATION_EVENT] == e
                  && PARTICIPATION_PERSON in old(c.rows)[k].refs ==>
        exists h :: h in c.rows && h.table == Histories
          && HISTORY_PERSON in c.rows[h].refs && c.rows[h].refs[HISTORY_PERSON] == old(c.rows)[k].refs[PARTICIPATION_PERSON]
          && HISTORY_EVENT in c.rows[h].refs && c.rows[h].refs[HISTORY_EVENT] == e
  {
    hide Typed, FkValid, Complete, Retained, OnlyHistoryAdded, Unobstructed, Participants, Final;
    var saved := c.rows;
    if e !in c.rows {
      return true;
    }
    RetainHistory(c, e);
    ghost var kept := c.rows;
    RetainedIsOnlyHistory(saved, kept, e, Participants(saved, e));
    HistoryIsNeutral(saved, kept, e);
    HistorySurvives(saved, kept, e, Participants(saved, e));
    var removed, preserved;
    ok, removed, preserved := c.DeleteEvent(e);
    if !ok {
      c.rows := saved;
    } else {
      AllRemembered(saved, c.rows, e);
    }
  }

  lemma AllRemembered(db: Db, after: Db, e: Key)
    requires forall p :: p in Participants(db, e) ==> Remembered(after, p, e)
    ensures forall k :: k in db && PARTICIPATION_EVENT in db[k].refs && db[k].refs[PARTICIPATION_EVENT] == e && PARTICIPATION_PERSON in db[k].refs ==>
      exists h :: h in after && h.table == Histories
        && HISTORY_PERSON in after[h].refs && after[h].refs[HISTORY_PERSON] == db[k].refs[PARTICIPATION_PERSON]
        && HISTORY_EVENT in after[h].refs && after[h].refs[HISTORY_EVENT] == e
  {
    hide Participants, Remembered;
    forall k | k in db && PARTICIPATION_EVENT in db[k].refs && db[k].refs[PARTICIPATION_EVENT] == e && PARTICIPATION_PERSON in db[k].refs
      ensures exists h ::
        && h in after && h.table == Histories
        && HISTORY_PERSON in after[h].refs && after[h].refs[HISTORY_PERSON] == db[k].refs[PARTICIPATION_PERSON]
        && HISTORY_EVENT in after[h].refs && after[h].refs[HISTORY_EVENT] == e
    {
      RememberedExactly(db, after, e, k);
    }
  }

  lemma RetainedIsOnlyHistory(before: Db, after: Db, e: Key, people: set<Key>)
    requires Retained(before, after, e, people)
    ensures OnlyHistoryAdded(before, after)
    ensures e in before ==> e in after
  {}

  /** Run again before the deletion commits, the first half adds nothing. */
  lemma RetainingTwiceAddsNothing(before: Db, once: Db, twice: Db, e: Key, people: set<Key>)
    requires Retained(before, once, e, people) && Retained(once, twice, e, people)
    ensures twice == once
  {}
}
