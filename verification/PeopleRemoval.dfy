/**
 Permanent deletion of people. Unlike an Event, a person can always be deleted: every
 foreign key to a person is cleared first, whatever the rest of the data looks like.
 */
module PeopleRemoval {
  import opened Wrappers
  import opened Relational
  import opened EventDeletion

  // ---------------------------------------------------------------- what one person takes along

  function ParticipationsOf(db: Db, people: set<Key>): set<Key> { Having(db, PARTICIPATION_PERSON, people) }

  /** People, what they took part in, what is known about them, and their external identifiers. */
  function Erased(db: Db, people: set<Key>): set<Key> {
    Having(db, PARTICIPANT_PARTICIPATION, ParticipationsOf(db, people))
    + Having(db, PRESENTER_PARTICIPATION, ParticipationsOf(db, people))
    + ParticipationsOf(db, people) + Having(db, HISTORY_PERSON, people) + Having(db, SIGNAL_PERSON, people)
    + Having(db, IDENTITY_PERSON, people) + Having(db, IDENTITY_LINKED, people) + Having(db, EXTERNAL_ENTITY, people) + people
  }

  predicate Holds(row: Row, c: Column, people: set<Key>) { c in row.refs && row.refs[c] in people }

  /** An import row that proposes or resolves to one of them loses both answers. */
  function ForgetAnswers(row: Row, people: set<Key>): Row {
    if Holds(row, ROW_PROPOSED, people) || Holds(row, ROW_RESOLVED, people)
    then row.(refs := row.refs - {ROW_PROPOSED, ROW_RESOLVED}) else row
  }

  function ForgetSelection(row: Row, people: set<Key>): Row {
    if Holds(row, DECISION_PERSON, people) then row.(refs := row.refs - {DECISION_PERSON}) else row
  }

  function Forgetting(row: Row, people: set<Key>): Row {
    ForgetSelection(ForgetAnswers(row, people), people)
  }

  function Without(db: Db, people: set<Key>): Db {
    map k | k in db && k !in Erased(db, people) :: Forgetting(db[k], people)
  }

  // ---------------------------------------------------------------- nothing refers to them

  lemma PersonColumns(c: Column)
    requires c in ColumnsOf(c.home) && c.rule != Unconstrained && c.target == Persons
    ensures c in {PARTICIPATION_PERSON, ROW_PROPOSED, ROW_RESOLVED, DECISION_PERSON, SIGNAL_PERSON, IDENTITY_PERSON,
                  IDENTITY_LINKED, HISTORY_PERSON}
  {}

  lemma NamerIsErased(db: Db, people: set<Key>, k: Key, c: Column)
    requires k in db && k !in Erased(db, people)
    ensures c in {PARTICIPATION_PERSON, HISTORY_PERSON, SIGNAL_PERSON, IDENTITY_PERSON, IDENTITY_LINKED, EXTERNAL_ENTITY} ==>
              !Holds(db[k], c, people)
    ensures c in {PARTICIPANT_PARTICIPATION, PRESENTER_PARTICIPATION} ==> !Holds(db[k], c, ParticipationsOf(db, people))
  {}

  lemma ForgetsPeople(row: Row, people: set<Key>, c: Column)
    requires c in {ROW_PROPOSED, ROW_RESOLVED, DECISION_PERSON}
    ensures !Holds(Forgetting(row, people), c, people)
  {}

  /** No column of any row names a deleted person, and no remaining row is left dangling. */
  lemma NobodyIsNamed(db: Db, people: set<Key>)
    requires Typed(db) && FkValid(db) && forall p :: p in people ==> p.table == Persons
    ensures var after := Without(db, people);
      && Typed(after) && FkValid(after)
      && forall k, c :: k in after && c in after[k].refs && (c.rule != Unconstrained || c == EXTERNAL_ENTITY) ==> after[k].refs[c] !in people
  {
    hide ColumnsOf, Erased, Forgetting, ParticipationsOf;
    var after := Without(db, people);
    forall k, c | k in after && c in after[k].refs && (c.rule != Unconstrained || c == EXTERNAL_ENTITY)
      ensures after[k].refs[c] !in people && c in db[k].refs && after[k].refs[c] == db[k].refs[c]
      ensures c.rule != Unconstrained ==> after[k].refs[c] in after
    {
      RefIsOld(db[k], people, c);
      KeptRef(db, people, k, c);
    }
    forall k, c | k in after && c in after[k].refs
      ensures c in db[k].refs && after[k].refs[c] == db[k].refs[c]
    {
      RefIsOld(db[k], people, c);
    }
  }

  lemma RefIsOld(row: Row, people: set<Key>, c: Column)
    requires c in Forgetting(row, people).refs
    ensures c in row.refs && Forgetting(row, people).refs[c] == row.refs[c]
  {}

  lemma KeptRef(db: Db, people: set<Key>, k: Key, c: Column)
    requires Typed(db) && FkValid(db) && forall p :: p in people ==> p.table == Persons
    requires k in db && k !in Erased(db, people) && c in Forgetting(db[k], people).refs && (c.rule != Unconstrained || c == EXTERNAL_ENTITY)
    ensures var target := Forgetting(db[k], people).refs[c];
      target !in people && (c.rule != Unconstrained ==> target in Without(db, people))
  {
    hide ColumnsOf, ParticipationsOf, Forgetting, Erased;
    RefIsOld(db[k], people, c);
    NamerIsErased(db, people, k, c);
    if c in {ROW_PROPOSED, ROW_RESOLVED, DECISION_PERSON} { ForgetsPeople(db[k], people, c); }
    if c.rule != Unconstrained {
      if c.target == Persons { PersonColumns(c); PersonsErased(db, people); } else { ErasedTables(db, people, k, c); }
    }
  }

  lemma PersonsErased(db: Db, people: set<Key>)
    requires Typed(db)
    ensures forall k :: k in Erased(db, people) && k !in people ==>
      k.table in {SessionParticipants, Presenters, Participations, Histories, Signals, Links, ExternalIds}
    ensures forall k :: k in Erased(db, people) && k !in people && k.table == Participations ==> k in ParticipationsOf(db, people)
  {
    hide Typed, Having, ColumnsOf;
    HavingInHome(db, PARTICIPATION_PERSON, people);
    HavingInHome(db, PARTICIPANT_PARTICIPATION, ParticipationsOf(db, people));
    HavingInHome(db, PRESENTER_PARTICIPATION, ParticipationsOf(db, people));
    HavingInHome(db, HISTORY_PERSON, people);
    HavingInHome(db, SIGNAL_PERSON, people);
    HavingInHome(db, IDENTITY_PERSON, people);
    HavingInHome(db, IDENTITY_LINKED, people);
    HavingInHome(db, EXTERNAL_ENTITY, people);
  }

  lemma LeafTables(c: Column)
    requires c in ReferringColumns(c.target)
    ensures c.target !in {SessionParticipants, Presenters, Histories, Signals, Links, ExternalIds, Persons}
    ensures c.target == Participations ==> c == PARTICIPANT_PARTICIPATION || c == PRESENTER_PARTICIPATION
  {}

  lemma ErasedTables(db: Db, people: set<Key>, k: Key, c: Column)
    requires Typed(db) && k in db && k !in Erased(db, people) && c in db[k].refs && c.rule != Unconstrained && c.target != Persons
    requires forall p :: p in people ==> p.table == Persons
    ensures db[k].refs[c] !in Erased(db, people)
  {
    hide Erased, ColumnsOf, ReferringColumns, ParticipationsOf;
    PersonsErased(db, people);
    if c.target != Events {
      ReferringColumnsAreAll(c);
      LeafTables(c);
      NamerIsErased(db, people, k, c);
    }
  }

  // ---------------------------------------------------------------- exactly what goes, what stays and what is forgotten

  /** The row's column names one of these people. */
  predicate NamesPerson(row: Row, c: Column, people: set<Key>) {
    c in row.refs && row.refs[c] in people
  }

  /** The row's column names what one of these people took part in. */
  predicate NamesParticipation(db: Db, row: Row, c: Column, people: set<Key>) {
    c in row.refs && row.refs[c] in db && NamesPerson(db[row.refs[c]], PARTICIPATION_PERSON, people)
  }

  /** A row goes exactly if it is one of them, or cannot do without one of them or what they took part in. */
  lemma GoneExactly(db: Db, people: set<Key>, k: Key)
    requires k in db
    ensures k !in Without(db, people) <==>
      || k in people
      || NamesPerson(db[k], PARTICIPATION_PERSON, people) || NamesPerson(db[k], HISTORY_PERSON, people)
      || NamesPerson(db[k], SIGNAL_PERSON, people) || NamesPerson(db[k], IDENTITY_PERSON, people)
      || NamesPerson(db[k], IDENTITY_LINKED, people) || NamesPerson(db[k], EXTERNAL_ENTITY, people)
      || NamesParticipation(db, db[k], PARTICIPANT_PARTICIPATION, people)
      || NamesParticipation(db, db[k], PRESENTER_PARTICIPATION, people)
  {}

  /**
   Of a row that stays only these columns are emptied: both answers of an import row that proposed or
   resolved to one of them, and the choice of a decision that chose one of them.
   */
  lemma ForgottenExactly(db: Db, people: set<Key>, k: Key, c: Column)
    requires k in Without(db, people)
    ensures var row, row' := db[k], Without(db, people)[k];
      && row'.data == row.data
      && (c in row'.refs ==> c in row.refs && row'.refs[c] == row.refs[c])
      && (c in row.refs && c !in row'.refs <==>
            || (c in row.refs && (c == ROW_PROPOSED || c == ROW_RESOLVED)
                && (NamesPerson(row, ROW_PROPOSED, people) || NamesPerson(row, ROW_RESOLVED, people)))
            || (c == DECISION_PERSON && NamesPerson(row, DECISION_PERSON, people)))
  {}

  /** Whoever names none of them, and nothing they took part in, stays exactly as it was. */
  lemma OthersUntouched(db: Db, people: set<Key>, k: Key)
    requires k in db && k !in people
    requires forall c :: c in db[k].refs ==> !NamesPerson(db[k], c, people) && !NamesParticipation(db, db[k], c, people)
    ensures k in Without(db, people) && Without(db, people)[k] == db[k]
  {
    GoneExactly(db, people, k);
  }

  // ---------------------------------------------------------------- the statements

  lemma LeafGoes(db: Db, t: Table, doomed: set<Key>)
    requires Typed(db) && doomed <= AllOf(db, t) && t !in {Events, Persons, ImportRows, MediaBatches}
    requires forall c :: c in ReferringColumns(t) ==> Having(db, c, doomed) == {}
    ensures Delete(db, doomed) == Some(Minus(db, doomed))
  {
    hide ColumnsOf, ReferringColumns;
    forall k, c | k in db && k !in doomed && c in db[k].refs && db[k].refs[c] in doomed
      ensures c.rule == Unconstrained
    {
      assert k in Having(db, c, doomed);
      if c.rule != Unconstrained {
        ReferringColumnsAreAll(c);
      }
    }
    PlainDelete(db, doomed);
  }

  lemma MinusQuery(db: Db, gone: set<Key>, c: Column, targets: set<Key>)
    ensures Having(Minus(db, gone), c, targets) == Having(db, c, targets) - gone
  {}

  lemma MinusTwice(db: Db, gone: set<Key>, more: set<Key>)
    ensures Minus(Minus(db, gone), more) == Minus(db, gone + more)
  {}

  method DeleteLeaf(c: Cleanup, ghost t: Table, doomed: set<Key>)
    requires c.Valid() && doomed <= AllOf(c.rows, t) && t !in {Events, Persons, ImportRows, MediaBatches}
    requires forall d :: d in ReferringColumns(t) ==> Having(c.rows, d, doomed) == {}
    modifies c
    ensures c.Valid() && c.rows == Minus(old(c.rows), doomed)
  {
    hide Typed, FkValid, ReferringColumns, Delete, Minus, Having, AllOf;
    LeafGoes(c.rows, t, doomed);
    var ok := c.Execute(doomed);
  }

  /** Rows that name the person in one column of a table nothing refers to. */
  method DeleteNaming(ghost db: Db, c: Cleanup, ghost gone: set<Key>, column: Column, targets: set<Key>)
    requires c.Valid() && Typed(db) && c.rows == Minus(db, gone)
    requires column.home in {SessionParticipants, Presenters, Histories, Signals, ExternalIds}
    modifies c
    ensures c.Valid() && c.rows == Minus(db, gone + Having(db, column, targets))
  {
    hide Typed, FkValid, Delete, Minus, Having, AllOf;
    var doomed := Having(c.rows, column, targets);
    HavingInHome(c.rows, column, targets);
    DeleteLeaf(c, column.home, doomed);
    MinusQuery(db, gone, column, targets);
    MinusTwice(db, gone, doomed);
    assert gone + doomed == gone + Having(db, column, targets);
  }

  /** The rows of the first two statements and the participations they lead to. */
  function Appearances(db: Db, people: set<Key>): set<Key> {
    Having(db, PARTICIPANT_PARTICIPATION, ParticipationsOf(db, people))
    + Having(db, PRESENTER_PARTICIPATION, ParticipationsOf(db, people))
    + ParticipationsOf(db, people)
  }

  lemma ParticipationsUntouched(db: Db, p: Key, gone: set<Key>)
    requires Typed(db) && forall k :: k in gone ==> k.table == SessionParticipants || k.table == Presenters
    ensures ParticipationsOf(Minus(db, gone), {p}) == ParticipationsOf(db, {p}) && ParticipationsOf(db, {p}) <= AllOf(Minus(db, gone), Participations)
  {
    hide ColumnsOf;
    MinusQuery(db, gone, PARTICIPATION_PERSON, {p});
  }

  lemma NoAppearanceLeft(db: Db, p: Key, gone: set<Key>)
    requires gone == Having(db, PARTICIPANT_PARTICIPATION, ParticipationsOf(db, {p})) + Having(db, PRESENTER_PARTICIPATION, ParticipationsOf(db, {p}))
    ensures forall d :: d in ReferringColumns(Participations) ==> Having(Minus(db, gone), d, ParticipationsOf(db, {p})) == {}
  {}

  method DeleteAppearances(ghost db: Db, c: Cleanup, p: Key)
    requires c.Valid() && c.rows == db
    modifies c
    ensures c.Valid() && c.rows == Minus(db, Appearances(db, {p}))
  {
    hide Typed, FkValid, Minus, Having, AllOf, ReferringColumns, ParticipationsOf;
    assert Minus(db, {}) == db by { NothingGone(db); }
    ghost var epids := ParticipationsOf(db, {p});
    DeleteNaming(db, c, {}, PARTICIPANT_PARTICIPATION, ParticipationsOf(c.rows, {p}));
    ghost var first := {} + Having(db, PARTICIPANT_PARTICIPATION, epids);
    InTables(db, epids);
    ParticipationsUntouched(db, p, first);
    DeleteNaming(db, c, first, PRESENTER_PARTICIPATION, ParticipationsOf(c.rows, {p}));
    ghost var gone := Having(db, PARTICIPANT_PARTICIPATION, epids) + Having(db, PRESENTER_PARTICIPATION, epids);
    assert first + Having(db, PRESENTER_PARTICIPATION, epids) == gone;
    ParticipationsUntouched(db, p, gone);
    NoAppearanceLeft(db, p, gone);
    DeleteLeaf(c, Participations, ParticipationsOf(c.rows, {p}));
    MinusTwice(db, gone, epids);
  }

  lemma NothingGone(db: Db)
    ensures Minus(db, {}) == db
  {}

  lemma InTables(db: Db, epids: set<Key>)
    requires Typed(db)
    ensures forall k :: k in Having(db, PARTICIPANT_PARTICIPATION, epids) ==> k.table == SessionParticipants
    ensures forall k :: k in Having(db, PRESENTER_PARTICIPATION, epids) ==> k.table == Presenters
  {}

  /** All but the person's own row. */
  function ErasedAround(db: Db, p: Key): set<Key> {
    Appearances(db, {p}) + Having(db, HISTORY_PERSON, {p}) + Having(db, SIGNAL_PERSON, {p})
    + (Having(db, IDENTITY_PERSON, {p}) + Having(db, IDENTITY_LINKED, {p})) + Having(db, EXTERNAL_ENTITY, {p})
  }

  method DeleteKnowledge(ghost db: Db, c: Cleanup, p: Key)
    requires c.Valid() && Typed(db) && c.rows == Minus(db, Appearances(db, {p}))
    modifies c
    ensures c.Valid() && c.rows == Minus(db, ErasedAround(db, p))
  {
    hide Typed, FkValid, Minus, Having, AllOf, ReferringColumns, Appearances;
    ghost var gone := Appearances(db, {p});
    DeleteNaming(db, c, gone, HISTORY_PERSON, {p});
    gone := gone + Having(db, HISTORY_PERSON, {p});
    DeleteNaming(db, c, gone, SIGNAL_PERSON, {p});
    gone := gone + Having(db, SIGNAL_PERSON, {p});
    var links := Having(c.rows, IDENTITY_PERSON, {p}) + Having(c.rows, IDENTITY_LINKED, {p});
    LinksAreLinks(c.rows, p);
    DeleteLeaf(c, Links, links);
    MinusQuery(db, gone, IDENTITY_PERSON, {p});
    MinusQuery(db, gone, IDENTITY_LINKED, {p});
    MinusTwice(db, gone, links);
    assert gone + links == gone + (Having(db, IDENTITY_PERSON, {p}) + Having(db, IDENTITY_LINKED, {p}));
    gone := gone + (Having(db, IDENTITY_PERSON, {p}) + Having(db, IDENTITY_LINKED, {p}));
    DeleteNaming(db, c, gone, EXTERNAL_ENTITY, {p});
  }

  lemma LinksAreLinks(db: Db, p: Key)
    requires Typed(db)
    ensures Having(db, IDENTITY_PERSON, {p}) + Having(db, IDENTITY_LINKED, {p}) <= AllOf(db, Links)
    ensures ReferringColumns(Links) == {}
  {}

  /** Every row that is left, with the person's name taken out of import rows and decisions. */
  function Forgotten(db: Db, p: Key): Db {
    map k | k in Minus(db, ErasedAround(db, p)) :: Forgetting(db[k], {p})
  }

  method ForgetPerson(ghost db: Db, c: Cleanup, p: Key)
    requires c.Valid() && c.rows == Minus(db, ErasedAround(db, p))
    modifies c
    ensures c.Valid() && c.rows == Forgotten(db, p)
  {
    hide ErasedAround, ForgetAnswers, ForgetSelection, Typed, FkValid;
    ForgettingKeepsValid(c.rows, p);
    c.rows := map k | k in c.rows :: ForgetAnswers(c.rows[k], {p});
    ForgettingKeepsValid(c.rows, p);
    c.rows := map k | k in c.rows :: ForgetSelection(c.rows[k], {p});
  }

  lemma ForgettingKeepsValid(db: Db, p: Key)
    requires Typed(db) && FkValid(db)
    ensures var a := map k | k in db :: ForgetAnswers(db[k], {p}); Typed(a) && FkValid(a)
    ensures var s := map k | k in db :: ForgetSelection(db[k], {p}); Typed(s) && FkValid(s)
  {
    hide ColumnsOf;
  }

  lemma PersonGoes(db: Db, p: Key)
    requires Typed(db) && FkValid(db) && p in db && p.table == Persons
    ensures Delete(Forgotten(db, p), {p}) == Some(Without(db, {p}))
  {
    hide Typed, FkValid, Forgetting, ColumnsOf, Delete;
    ErasedIsAround(db, p);
    var rows := Forgotten(db, p);
    NobodyIsNamed(db, {p});
    forall k, c | k in rows && k != p && c in rows[k].refs && rows[k].refs[c] in {p}
      ensures c.rule == Unconstrained
    {
      assert k in Without(db, {p}) && Without(db, {p})[k] == rows[k];
    }
    PlainDelete(rows, {p});
    assert Minus(rows, {p}) == Without(db, {p});
  }

  lemma ErasedIsAround(db: Db, p: Key)
    ensures Erased(db, {p}) == ErasedAround(db, p) + {p}
  {}

  /** Always succeeds, and leaves exactly Without. */
  method DeletePerson(c: Cleanup, p: Key)
    requires c.Valid() && p.table == Persons
    modifies c
    ensures c.Valid()
    ensures c.rows == if p in old(c.rows) then Without(old(c.rows), {p}) else old(c.rows)
  {
    hide Typed, FkValid, Minus, Forgotten, Without, ErasedAround, Appearances, Delete;
    if p !in c.rows {
      return;
    }
    ghost var db := c.rows;
    DeleteAppearances(db, c, p);
    DeleteKnowledge(db, c, p);
    ForgetPerson(db, c, p);
    PersonGoes(db, p);
    var ok := c.Execute({p});
  }

  // ---------------------------------------------------------------- many people

  lemma ForgettingTwice(row: Row, people: set<Key>, p: Key)
    ensures Forgetting(Forgetting(row, people), {p}) == Forgetting(row, people + {p})
  {}

  lemma QueryWithout(db: Db, people: set<Key>, c: Column, targets: set<Key>)
    requires c !in {ROW_PROPOSED, ROW_RESOLVED, DECISION_PERSON}
    ensures Having(Without(db, people), c, targets) == Having(db, c, targets) - Erased(db, people)
  {}

  lemma ParticipationsWithout(db: Db, people: set<Key>, p: Key)
    requires Typed(db) && p !in people && forall q :: q in people ==> q.table == Persons
    ensures ParticipationsOf(Without(db, people), {p}) == ParticipationsOf(db, {p})
  {
    hide Erased, Typed;
    QueryWithout(db, people, PARTICIPATION_PERSON, {p});
    PersonsErased(db, people);
    HavingInHome(db, PARTICIPATION_PERSON, {p});
  }

  lemma ErasedOneMore(db: Db, people: set<Key>, p: Key)
    requires Typed(db) && p !in people && forall q :: q in people ==> q.table == Persons
    ensures Erased(db, people + {p}) == Erased(db, people) + Erased(Without(db, people), {p})
  {
    hide Having, Without, Typed;
    ParticipationsWithout(db, people, p);
    var after, epids := Without(db, people), ParticipationsOf(db, {p});
    QueryWithout(db, people, PARTICIPANT_PARTICIPATION, epids);
    QueryWithout(db, people, PRESENTER_PARTICIPATION, epids);
    QueryWithout(db, people, HISTORY_PERSON, {p});
    QueryWithout(db, people, SIGNAL_PERSON, {p});
    QueryWithout(db, people, IDENTITY_PERSON, {p});
    QueryWithout(db, people, IDENTITY_LINKED, {p});
    QueryWithout(db, people, EXTERNAL_ENTITY, {p});
    forall c: Column
      ensures Having(db, c, people + {p}) == Having(db, c, people) + Having(db, c, {p})
      ensures Having(db, c, ParticipationsOf(db, people) + epids) == Having(db, c, ParticipationsOf(db, people)) + Having(db, c, epids)
    {
      HavingUnion(db, c, people, {p});
      HavingUnion(db, c, ParticipationsOf(db, people), epids);
    }
    assert ParticipationsOf(db, people + {p}) == ParticipationsOf(db, people) + epids;
  }

  lemma HavingUnion(db: Db, c: Column, a: set<Key>, b: set<Key>)
    ensures Having(db, c, a + b) == Having(db, c, a) + Having(db, c, b)
  {}

  lemma WithoutOneMore(db: Db, people: set<Key>, p: Key)
    requires Typed(db) && p !in people && forall q :: q in people ==> q.table == Persons
    ensures Without(Without(db, people), {p}) == Without(db, people + {p})
  {
    hide Erased, Typed, Forgetting;
    ErasedOneMore(db, people, p);
    forall k | k in db
      ensures Forgetting(Forgetting(db[k], people), {p}) == Forgetting(db[k], people + {p})
    {
      ForgettingTwice(db[k], people, p);
    }
  }

  lemma NobodyErasesNothing(db: Db)
    ensures Without(db, {}) == db
  {}

  lemma PresenceWithout(db: Db, people: set<Key>, p: Key)
    requires Typed(db) && p.table == Persons && forall q :: q in people ==> q.table == Persons
    ensures p in Without(db, people) <==> p in db && p !in people
  {
    hide Typed, ParticipationsOf, Having;
    PersonsErased(db, people);
  }

  /** The people of the list that exist. */
  function Present(db: Db, list: seq<Key>): set<Key> {
    set p | p in list && p in db
  }

  /** Bulk deletion: whoever of the list still exists goes, in any order, and the count says how many. */
  method DeletePeople(c: Cleanup, list: seq<Key>) returns (deleted: nat)
    requires c.Valid() && forall p :: p in list ==> p.table == Persons
    modifies c
    ensures c.Valid()
    ensures c.rows == Without(old(c.rows), Present(old(c.rows), list))
    ensures deleted == |Present(old(c.rows), list)|
    ensures forall p :: p in list ==> p !in c.rows
    ensures forall p :: p in Present(old(c.rows), list) <==> p in list && p in old(c.rows)
  {
    hide Typed, FkValid, Without;
    ghost var db := c.rows;
    deleted := 0;
    NobodyErasesNothing(db);
    assert Present(db, list[..0]) == {};
    for i := 0 to |list|
      invariant c.Valid() && c.rows == Without(db, Present(db, list[..i])) && deleted == |Present(db, list[..i])|
    {
      ghost var done := Present(db, list[..i]);
      assert list[..i + 1] == list[..i] + [list[i]];
      assert Present(db, list[..i + 1]) == if list[i] in db then done + {list[i]} else done;
      PresenceWithout(db, done, list[i]);
      if list[i] in c.rows {
        WithoutOneMore(db, done, list[i]);
        DeletePerson(c, list[i]);
        deleted := deleted + 1;
      } else {
        assert Present(db, list[..i + 1]) == done;
      }
    }
    assert list[..|list|] == list;
    forall p | p in list
      ensures p !in c.rows
    {
      PresenceWithout(db, Present(db, list), p);
    }
  }

  /** Afterwards no column of any row names anybody who was deleted. */
  lemma BulkLeavesNoName(db: Db, list: seq<Key>, k: Key, c: Column)
    requires Typed(db) && FkValid(db) && forall p :: p in list ==> p.table == Persons
    requires var after := Without(db, Present(db, list)); k in after && c in after[k].refs && (c.rule != Unconstrained || c == EXTERNAL_ENTITY)
    ensures Without(db, Present(db, list))[k].refs[c] !in Present(db, list)
  {
    hide Typed, FkValid, Without;
    NobodyIsNamed(db, Present(db, list));
  }
}
