/**
 Permanent deletion of an Event: the worker's ordered statements, in one transaction.
 The theorem is that their order never matters for success: the transaction commits
 exactly when no row that survives refers to a row that is deleted.
 */
module EventDeletion {
  import opened Wrappers
  import opened Relational

  // ---------------------------------------------------------------- what is deleted, stated on the first state

  function PresentationsOf(db: Db, e: Key): set<Key> { Having(db, PRESENTATION_EVENT, {e}) }

  function VersionsOf(db: Db, e: Key): set<Key> { Having(db, VERSION_PRESENTATION, PresentationsOf(db, e)) }

  function AssetsOf(db: Db, e: Key): set<Key> { Having(db, ASSET_VERSION, VersionsOf(db, e)) }

  function BatchesOf(db: Db, e: Key): set<Key> { Having(db, BATCH_EVENT, {e}) }

  function RowsOf(db: Db, batches: set<Key>): set<Key> { Having(db, ROW_BATCH, batches) }

  /** Sources all of whose batches are among these. */
  function OrphanedBy(db: Db, batches: set<Key>): set<Key> {
    set s | s in Named(db, BATCH_SOURCE, batches) && Having(db, BATCH_SOURCE, {s}) <= batches
  }

  /** The media the deletion looks at: named by a deleted asset, or owned by the Event. */
  function Considered(db: Db, e: Key): set<Key> {
    Named(db, ASSET_MEDIA, AssetsOf(db, e)) + Having(db, REPLICA_EVENT, {e})
  }

  function NamedBySurvivors(db: Db, e: Key): set<Key> {
    Named(db, ASSET_MEDIA, AllOf(db, Assets) - AssetsOf(db, e))
  }

  function Collected(db: Db, e: Key): set<Key> { Considered(db, e) - NamedBySurvivors(db, e) }

  function ImportJobsOf(db: Db, e: Key): set<Key> { Named(db, IMPORT_TRANSFER, Having(db, IMPORT_EVENT, {e})) }

  function DoomedIn(db: Db, e: Key, t: Table): set<Key> {
    match t
    case MediaImports => Having(db, IMPORT_EVENT, {e})
    case ReceiveSessions => Having(db, RECEIVE_EVENT, {e})
    case TransferJobs => ImportJobsOf(db, e) + Having(db, TRANSFER_MEDIA, Collected(db, e))
    case Assets => AssetsOf(db, e)
    case Versions => VersionsOf(db, e)
    case Presenters => Having(db, PRESENTER_PRESENTATION, PresentationsOf(db, e))
    case PresentationSessions => Having(db, LINK_PRESENTATION, PresentationsOf(db, e))
    case Presentations => PresentationsOf(db, e)
    case SessionParticipants =>
      Having(db, PARTICIPANT_SESSION, Having(db, SESSION_EVENT, {e}))
      + Having(db, PARTICIPANT_PARTICIPATION, Having(db, PARTICIPATION_EVENT, {e}))
    case Sessions => Having(db, SESSION_EVENT, {e})
    case Participations => Having(db, PARTICIPATION_EVENT, {e})
    case Decisions => Having(db, DECISION_ROW, RowsOf(db, BatchesOf(db, e)))
    case Issues => Having(db, ISSUE_ROW, RowsOf(db, BatchesOf(db, e)))
    case ImportRows => RowsOf(db, BatchesOf(db, e))
    case Batches => BatchesOf(db, e)
    case Sources => OrphanedBy(db, BatchesOf(db, e))
    case DeploymentRevisions => Having(db, REVISION_DEPLOYMENT, Having(db, DEPLOYMENT_EVENT, {e}))
    case EventDeployments => Having(db, DEPLOYMENT_EVENT, {e})
    case ExternalIds => Having(db, EXTERNAL_EVENT, {e})
    case ProcessingJobs => Having(db, JOB_MEDIA, Collected(db, e))
    case Replicas => Collected(db, e)
    case MediaBatches => Having(db, MEDIA_BATCH_EVENT, {e})
    case Events => {e}
    case Persons | SyncEvents | OutboxEvents | Signals | Links | Histories | AuditRecords => {}
  }

  ghost predicate Schema(db: Db, e: Key) {
    Typed(db) && FkValid(db) && Complete(db) && e in db && e.table == Events
  }

  ghost predicate IsDoomed(db: Db, e: Key, k: Key) {
    k in db && k in DoomedIn(db, e, k.table)
  }

  ghost function Doomed(db: Db, e: Key): set<Key> {
    set k | k in db && IsDoomed(db, e, k)
  }

  lemma DoomedInTable(db: Db, e: Key, t: Table)
    requires Schema(db, e)
    ensures DoomedIn(db, e, t) <= AllOf(db, t)
  {
    hide ColumnsOf, Typed, FkValid, Complete, Having, Named;
    forall k | k in DoomedIn(db, e, t)
      ensures k in AllOf(db, t)
    {
      match t
      case MediaImports => HavingInHome(db, IMPORT_EVENT, {e});
      case ReceiveSessions => HavingInHome(db, RECEIVE_EVENT, {e});
      case TransferJobs =>
        NamedInTarget(db, IMPORT_TRANSFER, Having(db, IMPORT_EVENT, {e}));
        HavingInHome(db, TRANSFER_MEDIA, Collected(db, e));
      case Assets => HavingInHome(db, ASSET_VERSION, VersionsOf(db, e));
      case Versions => HavingInHome(db, VERSION_PRESENTATION, PresentationsOf(db, e));
      case Presenters => HavingInHome(db, PRESENTER_PRESENTATION, PresentationsOf(db, e));
      case PresentationSessions => HavingInHome(db, LINK_PRESENTATION, PresentationsOf(db, e));
      case Presentations => HavingInHome(db, PRESENTATION_EVENT, {e});
      case SessionParticipants =>
        HavingInHome(db, PARTICIPANT_SESSION, Having(db, SESSION_EVENT, {e}));
        HavingInHome(db, PARTICIPANT_PARTICIPATION, Having(db, PARTICIPATION_EVENT, {e}));
      case Sessions => HavingInHome(db, SESSION_EVENT, {e});
      case Participations => HavingInHome(db, PARTICIPATION_EVENT, {e});
      case Decisions => HavingInHome(db, DECISION_ROW, RowsOf(db, BatchesOf(db, e)));
      case Issues => HavingInHome(db, ISSUE_ROW, RowsOf(db, BatchesOf(db, e)));
      case ImportRows => HavingInHome(db, ROW_BATCH, BatchesOf(db, e));
      case Batches => HavingInHome(db, BATCH_EVENT, {e});
      case Sources => NamedInTarget(db, BATCH_SOURCE, BatchesOf(db, e));
      case DeploymentRevisions => HavingInHome(db, REVISION_DEPLOYMENT, Having(db, DEPLOYMENT_EVENT, {e}));
      case EventDeployments => HavingInHome(db, DEPLOYMENT_EVENT, {e});
      case ExternalIds => HavingInHome(db, EXTERNAL_EVENT, {e});
      case ProcessingJobs => HavingInHome(db, JOB_MEDIA, Collected(db, e));
      case Replicas =>
        NamedInTarget(db, ASSET_MEDIA, AssetsOf(db, e));
        HavingInHome(db, REPLICA_EVENT, {e});
      case MediaBatches => HavingInHome(db, MEDIA_BATCH_EVENT, {e});
      case Events | Persons | SyncEvents | OutboxEvents | Signals | Links | Histories | AuditRecords =>
    }
  }

  /** Every column through which a surviving row can hold on to a deleted one. */
  ghost predicate Obstacle(db: Db, e: Key, k: Key, c: Column) {
    && k in db && !IsDoomed(db, e, k) && c in db[k].refs && c.rule == Restrict && c != REPLICA_EVENT
    && IsDoomed(db, e, db[k].refs[c])
  }

  ghost predicate Unobstructed(db: Db, e: Key) {
    forall k, c :: !Obstacle(db, e, k, c)
  }

  /** What a surviving row keeps: all but its links to the Event and to a cascaded upload batch. */
  ghost function Kept(db: Db, e: Key, row: Row): Row {
    row.(refs := map c | c in row.refs && !Loosened(db, e, c, row.refs[c]) :: row.refs[c])
  }

  ghost predicate Loosened(db: Db, e: Key, c: Column, target: Key) {
    || ((c == SYNC_EVENT || c == OUTBOX_EVENT || c == REPLICA_EVENT) && target == e)
    || (c == IMPORT_MEDIA_BATCH && target in Having(db, MEDIA_BATCH_EVENT, {e}))
  }

  ghost function Final(db: Db, e: Key): Db {
    map k | k in db && !IsDoomed(db, e, k) :: Kept(db, e, db[k])
  }

  // ---------------------------------------------------------------- one statement

  const NULLED := {SYNC_EVENT, OUTBOX_EVENT, REPLICA_EVENT}

  /** The place of a table among the statements that empty it in one go; 0 for all others. */
  function Rank(t: Table): nat {
    match t
    case MediaImports => 1
    case ReceiveSessions => 2
    case Assets => 3
    case Versions => 4
    case Presenters => 5
    case PresentationSessions => 6
    case Presentations => 7
    case SessionParticipants => 8
    case Sessions => 9
    case Participations => 10
    case DeploymentRevisions => 11
    case EventDeployments => 12
    case ExternalIds => 13
    case _ => 0
  }

  predicate Before(t: Table, next: nat) { 0 < Rank(t) < next }

  /** The tables that the two loops work through piecemeal. */
  const PIECEMEAL := {Decisions, Issues, ImportRows, Batches, Sources, ProcessingJobs, TransferJobs, Replicas}

  ghost function Loose(row: Row, nulled: set<Column>, e: Key): Row {
    row.(refs := map c | c in row.refs && !(c in nulled && row.refs[c] == e) :: row.refs[c])
  }

  ghost function Rest(db: Db, gone: set<Key>, nulled: set<Column>, e: Key): Db {
    map k | k in db && k !in gone :: Loose(db[k], nulled, e)
  }

  ghost function DoomedUpTo(db: Db, e: Key, next: nat): set<Key> {
    set k | k in db && IsDoomed(db, e, k) && Before(k.table, next)
  }

  /** The state before statement `next`, with the rows in extra gone as well. */
  ghost predicate At(db: Db, e: Key, next: nat, extra: set<Key>, nulled: set<Column>, rows: Db) {
    && rows == Rest(db, DoomedUpTo(db, e, next) + extra, nulled, e)
    && (forall k :: k in extra ==> IsDoomed(db, e, k) && k.table in PIECEMEAL)
    && nulled <= NULLED
  }

  /** Nothing that is deleted later holds on to what is deleted now, and nothing is dragged along. */
  ghost predicate InOrder(db: Db, e: Key, rows: Db, doomed: set<Key>) {
    forall k, c :: k in rows && k !in doomed && c in rows[k].refs && rows[k].refs[c] in doomed ==>
      (c.rule == Restrict && !IsDoomed(db, e, k)) || c.rule == Unconstrained
  }

  lemma VetoIsObstacle(db: Db, e: Key, gone: set<Key>, nulled: set<Column>, doomed: set<Key>)
    requires nulled <= NULLED && doomed <= Doomed(db, e) && InOrder(db, e, Rest(db, gone, nulled, e), doomed)
    requires Typed(db) && forall k :: k in doomed ==> k.table != Events
    requires Vetoed(Rest(db, gone, nulled, e), doomed)
    ensures !Unobstructed(db, e)
  {
    hide IsDoomed, DoomedIn, ColumnsOf, NULLED;
    var rows := Rest(db, gone, nulled, e);
    var k :| k in rows && k !in doomed && Refers(rows[k], Restrict, doomed);
    var c :| c in rows[k].refs && c.rule == Restrict && rows[k].refs[c] in doomed;
    assert c in db[k].refs && db[k].refs[c] == rows[k].refs[c];
    assert Obstacle(db, e, k, c);
  }

  lemma RestMinus(db: Db, e: Key, gone: set<Key>, nulled: set<Column>, doomed: set<Key>)
    ensures Minus(Rest(db, gone, nulled, e), doomed) == Rest(db, gone + doomed, nulled, e)
  {}

  lemma DeleteInOrder(db: Db, e: Key, gone: set<Key>, nulled: set<Column>, doomed: set<Key>)
    requires nulled <= NULLED && doomed <= Doomed(db, e) && InOrder(db, e, Rest(db, gone, nulled, e), doomed)
    requires Typed(db) && forall k :: k in doomed ==> k.table != Events
    ensures var r := Delete(Rest(db, gone, nulled, e), doomed);
      && (r.None? ==> !Unobstructed(db, e))
      && (r.Some? ==> r.value == Rest(db, gone + doomed, nulled, e))
  {
    hide Doomed, Rest, Unobstructed, Delete, Typed, Vetoed, Minus;
    PlainDelete(Rest(db, gone, nulled, e), doomed);
    RestMinus(db, e, gone, nulled, doomed);
    if Vetoed(Rest(db, gone, nulled, e), doomed) {
      VetoIsObstacle(db, e, gone, nulled, doomed);
    }
  }

  /** Deleting rows of t is in order if each foreign key into t comes from a finished table or from none of the rest. */
  lemma TableInOrder(db: Db, e: Key, next: nat, extra: set<Key>, nulled: set<Column>, t: Table, doomed: set<Key>)
    requires Typed(db) && doomed <= AllOf(db, t) && t != Events && t != Persons && t != MediaBatches
    requires forall c :: c in ReferringColumns(t) ==>
               (c.rule == Restrict && (Before(c.home, next) || (c.home == t && doomed == DoomedIn(db, e, t))))
               || Having(db, c, doomed) <= DoomedUpTo(db, e, next) + extra
    ensures InOrder(db, e, Rest(db, DoomedUpTo(db, e, next) + extra, nulled, e), doomed)
  {
    hide ColumnsOf, ReferringColumns, DoomedIn;
    var rows := Rest(db, DoomedUpTo(db, e, next) + extra, nulled, e);
    forall k, c | k in rows && k !in doomed && c in rows[k].refs && rows[k].refs[c] in doomed
      ensures (c.rule == Restrict && !IsDoomed(db, e, k)) || c.rule == Unconstrained
    {
      assert c in db[k].refs && db[k].refs[c] == rows[k].refs[c];
      if c.rule != Unconstrained {
        assert c.target == t && c.home == k.table;
        ReferringColumnsAreAll(c);
        assert k in Having(db, c, doomed);
      }
    }
  }

  /** A query on a table nothing was deleted from answers as it did at the start. */
  lemma QueryUntouched(db: Db, e: Key, gone: set<Key>, nulled: set<Column>, c: Column, targets: set<Key>)
    requires Typed(db) && (c !in nulled || e !in targets) && forall k :: k in gone ==> k.table != c.home
    ensures Having(Rest(db, gone, nulled, e), c, targets) == Having(db, c, targets)
  {}

  lemma QueryRest(db: Db, e: Key, gone: set<Key>, nulled: set<Column>, c: Column, targets: set<Key>)
    requires c !in nulled || e !in targets
    ensures Having(Rest(db, gone, nulled, e), c, targets) == Having(db, c, targets) - gone
  {}

  /** The tables a statement's WHERE clause looks at. */
  function QueriedBy(t: Table): set<Table> {
    match t
    case Assets => {Presentations, Versions, Assets}
    case Versions => {Presentations, Versions}
    case Presenters => {Presentations, Presenters}
    case PresentationSessions => {Presentations, PresentationSessions}
    case SessionParticipants => {Sessions, Participations, SessionParticipants}
    case DeploymentRevisions => {EventDeployments, DeploymentRevisions}
    case _ => {t}
  }

  lemma WhereUntouched(db: Db, e: Key, gone: set<Key>, t: Table)
    requires Typed(db) && t !in PIECEMEAL && t != MediaBatches && forall k :: k in gone ==> k.table !in QueriedBy(t)
    ensures DoomedIn(Rest(db, gone, {}, e), e, t) == DoomedIn(db, e, t)
  {
    hide ColumnsOf, Typed, Having, Rest;
    if QueriedBy(t) >= {Presentations} { QueryUntouched(db, e, gone, {}, PRESENTATION_EVENT, {e}); }
    match t
    case MediaImports => QueryUntouched(db, e, gone, {}, IMPORT_EVENT, {e});
    case ReceiveSessions => QueryUntouched(db, e, gone, {}, RECEIVE_EVENT, {e});
    case Versions => QueryUntouched(db, e, gone, {}, VERSION_PRESENTATION, PresentationsOf(db, e));
    case Assets =>
      QueryUntouched(db, e, gone, {}, VERSION_PRESENTATION, PresentationsOf(db, e));
      QueryUntouched(db, e, gone, {}, ASSET_VERSION, VersionsOf(db, e));
    case Presenters => QueryUntouched(db, e, gone, {}, PRESENTER_PRESENTATION, PresentationsOf(db, e));
    case PresentationSessions => QueryUntouched(db, e, gone, {}, LINK_PRESENTATION, PresentationsOf(db, e));
    case SessionParticipants =>
      QueryUntouched(db, e, gone, {}, SESSION_EVENT, {e});
      QueryUntouched(db, e, gone, {}, PARTICIPATION_EVENT, {e});
      QueryUntouched(db, e, gone, {}, PARTICIPANT_SESSION, Having(db, SESSION_EVENT, {e}));
      QueryUntouched(db, e, gone, {}, PARTICIPANT_PARTICIPATION, Having(db, PARTICIPATION_EVENT, {e}));
    case Sessions => QueryUntouched(db, e, gone, {}, SESSION_EVENT, {e});
    case Participations => QueryUntouched(db, e, gone, {}, PARTICIPATION_EVENT, {e});
    case DeploymentRevisions =>
      QueryUntouched(db, e, gone, {}, DEPLOYMENT_EVENT, {e});
      QueryUntouched(db, e, gone, {}, REVISION_DEPLOYMENT, Having(db, DEPLOYMENT_EVENT, {e}));
    case EventDeployments => QueryUntouched(db, e, gone, {}, DEPLOYMENT_EVENT, {e});
    case ExternalIds => QueryUntouched(db, e, gone, {}, EXTERNAL_EVENT, {e});
    case _ =>
  }

  lemma DoomedInIsDoomed(db: Db, e: Key, t: Table)
    requires Schema(db, e)
    ensures DoomedIn(db, e, t) <= Doomed(db, e) && DoomedIn(db, e, t) <= AllOf(db, t)
    ensures forall k :: k in DoomedIn(db, e, t) <==> IsDoomed(db, e, k) && k.table == t
  {
    hide DoomedIn, ColumnsOf, Typed, FkValid, Complete;
    DoomedInTable(db, e, t);
  }

  lemma StartsHere(db: Db, e: Key)
    ensures At(db, e, 1, {}, {}, db)
  {
    hide IsDoomed;
    forall k | k in db
      ensures Loose(db[k], {}, e) == db[k]
    {
      assert Loose(db[k], {}, e).refs == db[k].refs;
    }
    assert DoomedUpTo(db, e, 1) == {};
  }

  /** Why the order works: what refers to a table goes first, or with it. */
  lemma ReferrerGoesFirst(t: Table, c: Column)
    requires Rank(t) > 0 && c in ReferringColumns(t)
    ensures c.rule == Restrict && (Before(c.home, Rank(t)) || c.home == t)
  {}

  /** And what a statement's WHERE clause looks at has not been emptied yet. */
  lemma WhereGoesLater(t: Table)
    requires Rank(t) > 0
    ensures forall q :: q in QueriedBy(t) ==> Rank(q) >= Rank(t)
  {}

  lemma PiecemealIsUnranked()
    ensures forall t :: t in PIECEMEAL ==> Rank(t) == 0
  {}

  lemma RankIsInjective(t: Table, u: Table)
    requires Rank(t) == Rank(u) > 0
    ensures t == u
  {}

  lemma NextRank(db: Db, e: Key, t: Table)
    requires Schema(db, e) && Rank(t) > 0
    ensures DoomedUpTo(db, e, Rank(t) + 1) == DoomedUpTo(db, e, Rank(t)) + DoomedIn(db, e, t)
  {
    hide DoomedIn, ColumnsOf, Typed, FkValid, Complete, Rank;
    DoomedInIsDoomed(db, e, t);
    forall k | k in DoomedUpTo(db, e, Rank(t) + 1) && k !in DoomedUpTo(db, e, Rank(t))
      ensures k in DoomedIn(db, e, t)
    {
      RankIsInjective(k.table, t);
    }
  }

  /** The piecemeal counterpart: what refers to these rows is in a finished table or among the rows already gone. */
  lemma PartInOrder(db: Db, e: Key, next: nat, extra: set<Key>, nulled: set<Column>, t: Table, doomed: set<Key>)
    requires Schema(db, e) && doomed <= AllOf(db, t) && t in PIECEMEAL
    requires forall c :: c in ReferringColumns(t) ==> (c.rule == Restrict && Before(c.home, next)) || Having(db, c, doomed) <= extra
    ensures InOrder(db, e, Rest(db, DoomedUpTo(db, e, next) + extra, nulled, e), doomed)
  {
    hide InOrder, ReferringColumns, Typed, FkValid, Complete, Rest, DoomedIn, DoomedUpTo, AllOf, Having;
    TableInOrder(db, e, next, extra, nulled, t, doomed);
  }

  lemma PartQuery(db: Db, e: Key, next: nat, extra: set<Key>, nulled: set<Column>, c: Column, targets: set<Key>)
    requires Typed(db) && Rank(c.home) == 0 && c !in nulled
    ensures Having(Rest(db, DoomedUpTo(db, e, next) + extra, nulled, e), c, targets) == Having(db, c, targets) - extra
  {}

  lemma ImportJobsAreJobs(db: Db, e: Key)
    requires Schema(db, e)
    ensures forall k :: k in ImportJobsOf(db, e) ==> k.table == TransferJobs
  {
    hide ColumnsOf;
    NamedInTarget(db, IMPORT_TRANSFER, Having(db, IMPORT_EVENT, {e}));
  }

  lemma ImportJobsInOrder(db: Db, e: Key, rows: Db)
    requires Schema(db, e) && At(db, e, 3, {}, {}, rows)
    ensures ImportJobsOf(db, e) <= Doomed(db, e) && forall k :: k in ImportJobsOf(db, e) ==> k.table == TransferJobs
    ensures InOrder(db, e, rows, ImportJobsOf(db, e))
  {
    hide InOrder, Typed, FkValid, Complete, IsDoomed, ImportJobsOf, Rest, Doomed, DoomedUpTo, AllOf;
    DoomedInIsDoomed(db, e, TransferJobs);
    assert ImportJobsOf(db, e) <= DoomedIn(db, e, TransferJobs);
    PartInOrder(db, e, 3, {}, {}, TransferJobs, ImportJobsOf(db, e));
  }

  // ---------------------------------------------------------------- import batches, one at a time

  /** Everything that goes with these batches. */
  function Family(db: Db, batches: set<Key>): set<Key> {
    Having(db, DECISION_ROW, RowsOf(db, batches)) + Having(db, ISSUE_ROW, RowsOf(db, batches))
    + RowsOf(db, batches) + batches + OrphanedBy(db, batches)
  }

  function SourceOf(db: Db, b: Key): Key
    requires b in db && BATCH_SOURCE in db[b].refs
  {
    db[b].refs[BATCH_SOURCE]
  }

  lemma OrphansOneMore(db: Db, batches: set<Key>, b: Key)
    requires b in db && BATCH_SOURCE in db[b].refs && b !in batches
    ensures OrphanedBy(db, batches + {b}) ==
      OrphanedBy(db, batches) + if Having(db, BATCH_SOURCE, {SourceOf(db, b)}) <= batches + {b} then {SourceOf(db, b)} else {}
  {}

  lemma FamilyOneMore(db: Db, batches: set<Key>, b: Key)
    requires b in db && BATCH_SOURCE in db[b].refs && b !in batches
    ensures Family(db, batches + {b}) ==
      Family(db, batches) + Having(db, DECISION_ROW, RowsOf(db, {b})) + Having(db, ISSUE_ROW, RowsOf(db, {b})) + RowsOf(db, {b}) + {b}
      + if Having(db, BATCH_SOURCE, {SourceOf(db, b)}) <= batches + {b} then {SourceOf(db, b)} else {}
  {
    OrphansOneMore(db, batches, b);
    assert RowsOf(db, batches + {b}) == RowsOf(db, batches) + RowsOf(db, {b});
  }

  lemma FamilyParts(db: Db, e: Key, batches: set<Key>)
    requires batches <= BatchesOf(db, e)
    ensures Having(db, DECISION_ROW, RowsOf(db, batches)) <= DoomedIn(db, e, Decisions)
    ensures Having(db, ISSUE_ROW, RowsOf(db, batches)) <= DoomedIn(db, e, Issues)
    ensures RowsOf(db, batches) <= DoomedIn(db, e, ImportRows) && batches <= DoomedIn(db, e, Batches)
    ensures OrphanedBy(db, batches) <= DoomedIn(db, e, Sources)
  {
    assert RowsOf(db, batches) <= RowsOf(db, BatchesOf(db, e));
  }

  lemma FamilyIsDoomed(db: Db, e: Key, batches: set<Key>)
    requires Schema(db, e) && batches <= BatchesOf(db, e)
    ensures Family(db, batches) <= Doomed(db, e)
    ensures forall k :: k in Family(db, batches) ==>
      match k.table
      case Decisions => k in Having(db, DECISION_ROW, RowsOf(db, batches))
      case Issues => k in Having(db, ISSUE_ROW, RowsOf(db, batches))
      case ImportRows => k in RowsOf(db, batches)
      case Batches => k in batches
      case Sources => k in OrphanedBy(db, batches)
      case _ => false
  {
    hide DoomedIn, Having, Named, Typed, FkValid, Complete, OrphanedBy, RowsOf, BatchesOf, IsDoomed;
    FamilyParts(db, e, batches);
    DoomedInIsDoomed(db, e, Decisions);
    DoomedInIsDoomed(db, e, Issues);
    DoomedInIsDoomed(db, e, ImportRows);
    DoomedInIsDoomed(db, e, Batches);
    DoomedInIsDoomed(db, e, Sources);
  }

  lemma HavingShrinks(db: Db, fewer: set<Key>, more: set<Key>)
    requires fewer <= more
    ensures forall d: Column :: Having(db, d, fewer) <= Having(db, d, more)
  {}

  /** It is b's turn, with these batches already done and only transfer jobs besides. */
  ghost predicate BatchTurn(db: Db, e: Key, jobs: set<Key>, done: set<Key>, b: Key) {
    done <= BatchesOf(db, e) && b in BatchesOf(db, e) && b !in done && forall k :: k in jobs ==> k.table == TransferJobs
  }

  /** What is gone just before the batch row itself goes. */
  ghost function WithLines(db: Db, jobs: set<Key>, done: set<Key>, b: Key): set<Key> {
    jobs + Family(db, done) + Having(db, DECISION_ROW, RowsOf(db, {b})) + Having(db, ISSUE_ROW, RowsOf(db, {b})) + RowsOf(db, {b})
  }

  lemma LinesAreDoomed(db: Db, e: Key, b: Key)
    requires Schema(db, e) && b in BatchesOf(db, e)
    ensures Having(db, DECISION_ROW, RowsOf(db, {b})) <= Doomed(db, e)
    ensures Having(db, ISSUE_ROW, RowsOf(db, {b})) <= Doomed(db, e)
    ensures RowsOf(db, {b}) <= Doomed(db, e)
  {
    hide Having, RowsOf, BatchesOf, OrphanedBy, Doomed, Typed, FkValid, Complete;
    FamilyIsDoomed(db, e, {b});
  }

  /** The rows gone so far hold no line of b, and no batch but those already done. */
  lemma BatchApart(db: Db, e: Key, jobs: set<Key>, done: set<Key>, b: Key)
    requires Schema(db, e) && BatchTurn(db, e, jobs, done, b)
    ensures RowsOf(db, {b}) !! jobs + Family(db, done)
    ensures b.table == Batches && b in db && BATCH_SOURCE in db[b].refs
    ensures forall k :: k in WithLines(db, jobs, done, b) && k.table == Batches ==> k in done
    ensures forall k :: k in done ==> k in WithLines(db, jobs, done, b) && k.table == Batches
  {
    hide Having, IsDoomed, Doomed, Typed, FkValid, Complete, OrphanedBy, RowsOf, BatchesOf;
    LineApart(db, done, b);
    InHomes(db, e, {b});
    HavingInHome(db, DECISION_ROW, RowsOf(db, {b}));
    HavingInHome(db, ISSUE_ROW, RowsOf(db, {b}));
    BatchHasSource(db, b);
    FamilyIsDoomed(db, e, done);
  }

  lemma InHomes(db: Db, e: Key, batches: set<Key>)
    requires Typed(db)
    ensures RowsOf(db, batches) <= AllOf(db, ImportRows) && BatchesOf(db, e) <= AllOf(db, Batches)
  {}

  lemma BatchHasSource(db: Db, b: Key)
    requires Complete(db) && b in db && b.table == Batches
    ensures BATCH_SOURCE in db[b].refs
  {}

  lemma LineApart(db: Db, done: set<Key>, b: Key)
    requires b !in done
    ensures RowsOf(db, {b}) !! RowsOf(db, done)
  {}

  lemma BatchLines(db: Db, e: Key, jobs: set<Key>, done: set<Key>, b: Key, rows: Db)
    requires Schema(db, e) && BatchTurn(db, e, jobs, done, b) && At(db, e, 11, jobs + Family(db, done), {}, rows)
    ensures RowsOf(rows, {b}) == RowsOf(db, {b})
  {
    hide Having, Rest, DoomedUpTo, IsDoomed, Typed, FkValid, Complete, Family, BatchTurn;
    BatchApart(db, e, jobs, done, b);
    PartQuery(db, e, 11, jobs + Family(db, done), {}, ROW_BATCH, {b});
  }

  lemma BatchStays(db: Db, e: Key, extra: set<Key>, b: Key)
    requires b in db && b !in extra && Rank(b.table) == 0 && BATCH_SOURCE in db[b].refs
    ensures var rows := Rest(db, DoomedUpTo(db, e, 11) + extra, {}, e);
      b in rows && BATCH_SOURCE in rows[b].refs && SourceOf(rows, b) == SourceOf(db, b)
  {}

  lemma BatchGoes(db: Db, e: Key, jobs: set<Key>, done: set<Key>, b: Key, rows: Db)
    requires Schema(db, e) && BatchTurn(db, e, jobs, done, b) && At(db, e, 11, WithLines(db, jobs, done, b), {}, rows)
    ensures b in rows && b in db && BATCH_SOURCE in rows[b].refs && BATCH_SOURCE in db[b].refs && SourceOf(rows, b) == SourceOf(db, b)
    ensures {b} <= Doomed(db, e) && b.table == Batches && InOrder(db, e, rows, {b})
  {
    hide Having, Rest, DoomedUpTo, IsDoomed, Typed, FkValid, Complete, Family, BatchesOf, InOrder, Doomed, SourceOf, AllOf;
    BatchApart(db, e, jobs, done, b);
    BatchStays(db, e, WithLines(db, jobs, done, b), b);
    BatchIsDoomed(db, e, b);
    PartInOrder(db, e, 11, WithLines(db, jobs, done, b), {}, Batches, {b});
  }

  lemma BatchesUntouched(db: Db, e: Key, jobs: set<Key>, rows: Db)
    requires Schema(db, e) && At(db, e, 11, jobs, {}, rows) && forall k :: k in jobs ==> k.table == TransferJobs
    ensures BatchesOf(rows, e) == BatchesOf(db, e) && At(db, e, 11, jobs + Family(db, {}), {}, rows)
  {
    hide Rest, IsDoomed, DoomedUpTo, Typed, FkValid, Complete;
    PartQuery(db, e, 11, jobs, {}, BATCH_EVENT, {e});
    InHomes(db, e, {});
    assert jobs + Family(db, {}) == jobs;
  }

  lemma BatchIsDoomed(db: Db, e: Key, b: Key)
    requires Schema(db, e) && b in BatchesOf(db, e)
    ensures {b} <= Doomed(db, e) && {b} <= AllOf(db, Batches)
  {
    hide Having, IsDoomed, Typed, FkValid, Complete, BatchesOf, Doomed, AllOf;
    DoomedInIsDoomed(db, e, Batches);
    assert BatchesOf(db, e) == DoomedIn(db, e, Batches);
  }

  lemma SourceIsDoomed(db: Db, e: Key, done: set<Key>, b: Key)
    requires Schema(db, e) && done + {b} <= BatchesOf(db, e) && b !in done && b in db && BATCH_SOURCE in db[b].refs
    requires Having(db, BATCH_SOURCE, {SourceOf(db, b)}) <= done + {b}
    ensures {SourceOf(db, b)} <= Doomed(db, e) && {SourceOf(db, b)} <= AllOf(db, Sources)
  {
    hide Having, IsDoomed, Typed, FkValid, Complete, BatchesOf, Doomed, AllOf, OrphanedBy, SourceOf, DoomedIn;
    OrphansOneMore(db, done, b);
    FamilyParts(db, e, done + {b});
    DoomedInIsDoomed(db, e, Sources);
  }

  lemma SourceQuery(db: Db, e: Key, jobs: set<Key>, done: set<Key>, b: Key, rows: Db)
    requires Schema(db, e) && BatchTurn(db, e, jobs, done, b) && At(db, e, 11, WithLines(db, jobs, done, b) + {b}, {}, rows)
    requires b in db && BATCH_SOURCE in db[b].refs
    ensures var with := Having(db, BATCH_SOURCE, {SourceOf(db, b)});
      && (Having(rows, BATCH_SOURCE, {SourceOf(db, b)}) == {} <==> with <= done + {b})
      && (with <= done + {b} ==> with <= WithLines(db, jobs, done, b) + {b})
  {
    hide Having, Rest, DoomedUpTo, IsDoomed, Typed, FkValid, Complete, WithLines, BatchTurn, SourceOf, Family, RowsOf;
    BatchApart(db, e, jobs, done, b);
    HavingInHome(db, BATCH_SOURCE, {SourceOf(db, b)});
    PartQuery(db, e, 11, WithLines(db, jobs, done, b) + {b}, {}, BATCH_SOURCE, {SourceOf(db, b)});
    BatchesAmong(Having(db, BATCH_SOURCE, {SourceOf(db, b)}), WithLines(db, jobs, done, b), done, b);
  }

  lemma BatchesAmong(with: set<Key>, lines: set<Key>, done: set<Key>, b: Key)
    requires forall k :: k in with ==> k.table == Batches
    requires forall k :: k in lines && k.table == Batches ==> k in done
    requires done <= lines
    ensures with - (lines + {b}) == {} <==> with <= done + {b}
    ensures with <= done + {b} ==> with <= lines + {b}
  {}

  lemma SourceGoes(db: Db, e: Key, jobs: set<Key>, done: set<Key>, b: Key, rows: Db)
    requires Schema(db, e) && BatchTurn(db, e, jobs, done, b) && At(db, e, 11, WithLines(db, jobs, done, b) + {b}, {}, rows)
    requires b in db && BATCH_SOURCE in db[b].refs
    ensures var s := SourceOf(db, b);
      if Having(rows, BATCH_SOURCE, {s}) == {} then
        && {s} <= Doomed(db, e) && s.table == Sources && InOrder(db, e, rows, {s})
        && WithLines(db, jobs, done, b) + {b} + {s} == jobs + Family(db, done + {b})
      else WithLines(db, jobs, done, b) + {b} == jobs + Family(db, done + {b})
  {
    hide Having, Rest, DoomedUpTo, IsDoomed, Typed, FkValid, Complete, BatchesOf, InOrder, Doomed, At;
    SourceQuery(db, e, jobs, done, b, rows);
    FamilyOneMore(db, done, b);
    hide Family;
    if Having(rows, BATCH_SOURCE, {SourceOf(db, b)}) == {} {
      SourceInOrder(db, e, jobs, done, b, rows);
    }
  }

  lemma SourceInOrder(db: Db, e: Key, jobs: set<Key>, done: set<Key>, b: Key, rows: Db)
    requires Schema(db, e) && BatchTurn(db, e, jobs, done, b) && At(db, e, 11, WithLines(db, jobs, done, b) + {b}, {}, rows)
    requires b in db && BATCH_SOURCE in db[b].refs && Having(db, BATCH_SOURCE, {SourceOf(db, b)}) <= done + {b}
    requires Having(db, BATCH_SOURCE, {SourceOf(db, b)}) <= WithLines(db, jobs, done, b) + {b}
    ensures {SourceOf(db, b)} <= Doomed(db, e) && SourceOf(db, b).table == Sources && InOrder(db, e, rows, {SourceOf(db, b)})
  {
    hide Having, Rest, DoomedUpTo, IsDoomed, Typed, FkValid, Complete, WithLines, BatchesOf, InOrder, Doomed, SourceOf;
    SourceIsDoomed(db, e, done, b);
    PartInOrder(db, e, 11, WithLines(db, jobs, done, b) + {b}, {}, Sources, {SourceOf(db, b)});
  }

  // ---------------------------------------------------------------- media, one object at a time

  const TRANSPORT := {SYNC_EVENT, OUTBOX_EVENT}

  function MediaFamily(db: Db, media: set<Key>): set<Key> {
    Having(db, JOB_MEDIA, media) + Having(db, TRANSFER_MEDIA, media) + media
  }

  lemma MediaFamilyOneMore(db: Db, media: set<Key>, m: Key)
    ensures MediaFamily(db, media + {m}) == MediaFamily(db, media) + Having(db, JOB_MEDIA, {m}) + Having(db, TRANSFER_MEDIA, {m}) + {m}
  {}

  lemma NoMediaFamily(db: Db, extra: set<Key>)
    ensures extra + MediaFamily(db, {}) == extra
  {}

  lemma MediaFamilyIsDoomed(db: Db, e: Key, media: set<Key>)
    requires Schema(db, e) && media <= Collected(db, e)
    ensures Having(db, JOB_MEDIA, media) <= Doomed(db, e) && Having(db, TRANSFER_MEDIA, media) <= Doomed(db, e) && media <= Doomed(db, e)
    ensures media <= AllOf(db, Replicas)
  {
    hide IsDoomed, Typed, FkValid, Complete, Doomed, AllOf, Collected, ImportJobsOf;
    assert Having(db, JOB_MEDIA, media) <= DoomedIn(db, e, ProcessingJobs);
    assert Having(db, TRANSFER_MEDIA, media) <= DoomedIn(db, e, TransferJobs);
    assert media <= DoomedIn(db, e, Replicas);
    DoomedInIsDoomed(db, e, ProcessingJobs);
    DoomedInIsDoomed(db, e, TransferJobs);
    DoomedInIsDoomed(db, e, Replicas);
  }

  /** The check for another asset, made late in the transaction, decides exactly what is collected. */
  lemma StillNamed(db: Db, e: Key, extra: set<Key>, rows: Db, m: Key)
    requires Schema(db, e) && At(db, e, 14, extra, TRANSPORT, rows) && m in Considered(db, e)
    ensures Having(rows, ASSET_MEDIA, {m}) == {} <==> m in Collected(db, e)
  {
    hide Rest, IsDoomed, DoomedIn, Typed, FkValid, Complete, Having, AssetsOf, Considered;
    var gone := DoomedUpTo(db, e, 14) + extra;
    QueryRest(db, e, gone, TRANSPORT, ASSET_MEDIA, {m});
    AssetsGone(db, e, extra);
    NamingAssets(db, e, m);
  }

  lemma AssetsGone(db: Db, e: Key, extra: set<Key>)
    requires Schema(db, e) && forall k :: k in extra ==> k.table in PIECEMEAL
    ensures forall k: Key :: k.table == Assets ==> (k in DoomedUpTo(db, e, 14) + extra <==> k in AssetsOf(db, e))
  {
    hide IsDoomed, Typed, FkValid, Complete, AssetsOf;
    DoomedInIsDoomed(db, e, Assets);
  }

  lemma NamingAssets(db: Db, e: Key, m: Key)
    requires Typed(db)
    ensures Having(db, ASSET_MEDIA, {m}) <= AllOf(db, Assets)
    ensures m in NamedBySurvivors(db, e) <==> Having(db, ASSET_MEDIA, {m}) - AssetsOf(db, e) != {}
  {
    hide Having, Typed, AssetsOf, Named;
    HavingInHome(db, ASSET_MEDIA, {m});
    NamedMeansHeld(db, ASSET_MEDIA, AllOf(db, Assets) - AssetsOf(db, e), m);
    assert Having(db, ASSET_MEDIA, {m}) * (AllOf(db, Assets) - AssetsOf(db, e)) == Having(db, ASSET_MEDIA, {m}) - AssetsOf(db, e);
  }

  lemma MediumInOrder(db: Db, e: Key, extra: set<Key>, rows: Db, m: Key)
    requires Schema(db, e) && At(db, e, 14, extra, TRANSPORT, rows) && m in Collected(db, e)
    requires Having(db, JOB_MEDIA, {m}) + Having(db, TRANSFER_MEDIA, {m}) <= extra
    ensures {m} <= Doomed(db, e) && InOrder(db, e, rows, {m}) && m.table == Replicas
  {
    hide Rest, IsDoomed, DoomedIn, DoomedUpTo, Typed, FkValid, Complete, Having, Collected, Doomed, InOrder;
    MediaFamilyIsDoomed(db, e, {m});
    PartInOrder(db, e, 14, extra, TRANSPORT, Replicas, {m});
  }

  // ---------------------------------------------------------------- the last statements

  lemma NullOneMore(db: Db, gone: set<Key>, nulled: set<Column>, e: Key, c: Column)
    ensures SetToNull(Rest(db, gone, nulled, e), c, e) == Rest(db, gone, nulled + {c}, e)
  {
    forall k | k in db && k !in gone
      ensures WithoutRef(Loose(db[k], nulled, e), c, e) == Loose(db[k], nulled + {c}, e)
    {
      assert WithoutRef(Loose(db[k], nulled, e), c, e).refs == Loose(db[k], nulled + {c}, e).refs;
    }
  }

  ghost function Everything(db: Db, e: Key): set<Key> {
    ImportJobsOf(db, e) + Family(db, BatchesOf(db, e)) + MediaFamily(db, Collected(db, e))
  }

  lemma EverythingIsDoomed(db: Db, e: Key)
    requires Schema(db, e)
    ensures Everything(db, e) <= Doomed(db, e) && forall k :: k in Everything(db, e) ==> k.table in PIECEMEAL
  {
    hide Having, OrphanedBy, BatchesOf, RowsOf, Collected, ImportJobsOf, Typed, FkValid, Complete, IsDoomed, Doomed;
    FamilyIsDoomed(db, e, BatchesOf(db, e));
    MediaFamilyIsDoomed(db, e, Collected(db, e));
    DoomedInIsDoomed(db, e, TransferJobs);
    HavingInHome(db, JOB_MEDIA, Collected(db, e));
  }

  lemma DoomedIsCovered(db: Db, e: Key, t: Table)
    requires Rank(t) == 0 && t != MediaBatches && t != Events
    ensures DoomedIn(db, e, t) <= Everything(db, e)
  {}

  /** Before the Event's own row goes, every doomed row is gone but the upload batches that cascade with it. */
  lemma AllButTheEvent(db: Db, e: Key, k: Key)
    requires Schema(db, e)
    ensures k in DoomedUpTo(db, e, 14) + Everything(db, e) <==> IsDoomed(db, e, k) && k != e && k.table != MediaBatches
  {
    hide DoomedIn, Typed, FkValid, Complete, Everything, Rank;
    EverythingIsDoomed(db, e);
    DoomedInIsDoomed(db, e, Events);
    RankBound(k.table);
    if Rank(k.table) == 0 && k.table != MediaBatches && k.table != Events {
      DoomedIsCovered(db, e, k.table);
    }
    OnlyTheEvent(db, e);
  }

  lemma RankBound(t: Table)
    ensures Rank(t) < 14 && Rank(Events) == Rank(MediaBatches) == 0
  {}

  lemma OnlyTheEvent(db: Db, e: Key)
    ensures DoomedIn(db, e, Events) == {e} && DoomedIn(db, e, MediaBatches) == Having(db, MEDIA_BATCH_EVENT, {e})
  {}

  ghost predicate LastRows(db: Db, e: Key, rows: Db) {
    && rows.Keys == (set k | k in db && (!IsDoomed(db, e, k) || k == e || k in Having(db, MEDIA_BATCH_EVENT, {e})))
    && forall k :: k in rows ==> rows[k] == Loose(db[k], NULLED, e)
  }

  lemma BeforeTheEvent(db: Db, e: Key, rows: Db)
    requires Schema(db, e) && At(db, e, 14, Everything(db, e), NULLED, rows)
    ensures LastRows(db, e, rows)
  {
    hide Having, DoomedIn, Typed, FkValid, Complete, Everything, DoomedUpTo, Loose;
    DoomedInIsDoomed(db, e, MediaBatches);
    OnlyTheEvent(db, e);
    forall k | k in db
      ensures k in rows <==> !IsDoomed(db, e, k) || k == e || k in Having(db, MEDIA_BATCH_EVENT, {e})
    {
      AllButTheEvent(db, e, k);
    }
  }

  lemma CascadesWithEvent(db: Db, e: Key, k: Key)
    requires Typed(db) && e.table == Events && k in db
    ensures Refers(Loose(db[k], NULLED, e), CascadeRule, {e}) <==> k in Having(db, MEDIA_BATCH_EVENT, {e})
  {
    hide ColumnsOf;
    var row := Loose(db[k], NULLED, e);
    if Refers(row, CascadeRule, {e}) {
      var c :| c in row.refs && c.rule == CascadeRule && row.refs[c] in {e};
      OtherRules(c);
    }
    if k in Having(db, MEDIA_BATCH_EVENT, {e}) {
      assert MEDIA_BATCH_EVENT in row.refs;
    }
  }

  lemma EventCascade(db: Db, e: Key, rows: Db)
    requires Schema(db, e) && LastRows(db, e, rows)
    ensures WithCascade(rows, {e}) == {e} + Having(db, MEDIA_BATCH_EVENT, {e})
  {
    hide Having, Refers, Loose, Typed, IsDoomed, FkValid, Complete;
    HavingInHome(db, MEDIA_BATCH_EVENT, {e});
    forall k | k in rows
      ensures Refers(rows[k], CascadeRule, {e}) <==> k in Having(db, MEDIA_BATCH_EVENT, {e})
    {
      CascadesWithEvent(db, e, k);
    }
  }

  /** Every row that names the Event in a restricting column is itself deleted, except replicas, which let go of it. */
  lemma NamersAreDoomed(db: Db, e: Key, c: Column)
    requires c in ColumnsOf(c.home) && c.rule == Restrict && c.target == Events && c != REPLICA_EVENT
    ensures Having(db, c, {e}) == DoomedIn(db, e, c.home)
  {
    hide Having, ColumnsOf, Collected, ImportJobsOf;
    EventColumns(c);
  }

  lemma EventNotHeld(db: Db, e: Key, rows: Db, k: Key, c: Column)
    requires Schema(db, e) && LastRows(db, e, rows) && k in rows && k !in {e} + Having(db, MEDIA_BATCH_EVENT, {e})
    requires c in rows[k].refs && c.rule == Restrict
    ensures rows[k].refs[c] !in {e} + Having(db, MEDIA_BATCH_EVENT, {e})
  {
    hide ColumnsOf, FkValid, Complete, ReferringColumns, DoomedIn;
    var target := db[k].refs[c];
    HavingInHome(db, MEDIA_BATCH_EVENT, {e});
    assert k in Having(db, c, {target});
    if target in Having(db, MEDIA_BATCH_EVENT, {e}) {
      MediaBatchColumns(c);
    } else if target == e && c != REPLICA_EVENT {
      NamersAreDoomed(db, e, c);
    }
  }

  lemma MediaBatchColumns(c: Column)
    requires c in ColumnsOf(c.home) && c.target == MediaBatches
    ensures c.rule != Restrict
  {}

  lemma ColumnIsKept(db: Db, e: Key, k: Key, c: Column)
    requires Typed(db) && e.table == Events && k in db && c in db[k].refs
    ensures var target, media := db[k].refs[c], Having(db, MEDIA_BATCH_EVENT, {e});
      (c in NULLED && target == e) || (c.rule == SetNull && target in {e} + media) <==> Loosened(db, e, c, target)
  {
    hide ColumnsOf, Having;
    HavingInHome(db, MEDIA_BATCH_EVENT, {e});
    if c.rule == SetNull { OtherRules(c); }
  }

  lemma KeptIsUnlinked(db: Db, e: Key, k: Key)
    requires Typed(db) && e.table == Events && k in db
    ensures Unlinked(Loose(db[k], NULLED, e), {e} + Having(db, MEDIA_BATCH_EVENT, {e})) == Kept(db, e, db[k])
  {
    hide Typed, Having, Loosened, NULLED;
    var gone := {e} + Having(db, MEDIA_BATCH_EVENT, {e});
    var before, after := Unlinked(Loose(db[k], NULLED, e), gone).refs, Kept(db, e, db[k]).refs;
    forall c | c in db[k].refs
      ensures c in before <==> c in after
    {
      ColumnIsKept(db, e, k, c);
    }
    assert before == after;
  }

  lemma EventGoes(db: Db, e: Key, rows: Db)
    requires Schema(db, e) && At(db, e, 14, Everything(db, e), NULLED, rows)
    ensures Delete(rows, {e}) == Some(Final(db, e))
  {
    hide Having, IsDoomed, Typed, FkValid, Complete, Everything, DoomedUpTo, Loose, Kept, Unlinked, WithCascade, At;
    BeforeTheEvent(db, e, rows);
    EventCascade(db, e, rows);
    forall k, c | k in rows && k !in {e} + Having(db, MEDIA_BATCH_EVENT, {e}) && c in rows[k].refs && c.rule == Restrict
      ensures rows[k].refs[c] !in {e} + Having(db, MEDIA_BATCH_EVENT, {e})
    {
      EventNotHeld(db, e, rows, k, c);
    }
    assert !Refused(rows, {e});
    MediaBatchesAreDoomed(db, e);
    forall k | k in db
      ensures Unlinked(Loose(db[k], NULLED, e), {e} + Having(db, MEDIA_BATCH_EVENT, {e})) == Kept(db, e, db[k])
    {
      KeptIsUnlinked(db, e, k);
    }
    assert Delete(rows, {e}).value == Final(db, e);
  }

  lemma MediaBatchesAreDoomed(db: Db, e: Key)
    requires Schema(db, e)
    ensures IsDoomed(db, e, e) && forall k :: k in Having(db, MEDIA_BATCH_EVENT, {e}) ==> IsDoomed(db, e, k)
  {
    hide Having, Typed, FkValid, Complete, IsDoomed;
    DoomedInIsDoomed(db, e, MediaBatches);
    DoomedInIsDoomed(db, e, Events);
  }

  /** A state without dangling references in which everything doomed is gone shows that nothing was in the way. */
  lemma NothingWasInTheWay(db: Db, e: Key)
    requires Schema(db, e) && FkValid(Final(db, e))
    ensures Unobstructed(db, e)
  {
    hide IsDoomed, Typed, ColumnsOf;
    forall k, c | k in db && !IsDoomed(db, e, k) && c in db[k].refs && c.rule == Restrict && c != REPLICA_EVENT
      ensures !IsDoomed(db, e, db[k].refs[c])
    {
      assert c in Final(db, e)[k].refs;
    }
  }

  // ---------------------------------------------------------------- the worker

  class Cleanup {
    var rows: Db

    ghost predicate Valid()
      reads this
    {
      Typed(rows) && FkValid(rows)
    }

    method Execute(doomed: set<Key>) returns (ok: bool)
      requires Valid()
      modifies this
      ensures Valid()
      ensures match Delete(old(rows), doomed)
        case None => !ok && rows == old(rows)
        case Some(db) => ok && rows == db
    {
      if Delete(rows, doomed).Some? { DeleteKeepsFkValid(rows, doomed); }
      var gone := WithCascade(rows, doomed);
      if exists k :: k in rows && k !in gone && Refers(rows[k], Restrict, gone) {
        return false;
      }
      rows := map k | k in rows && k !in gone :: Unlinked(rows[k], gone);
      return true;
    }

    /** One table of the ordered cleanup. */
    method DeleteTable(ghost db: Db, ghost e: Key, ghost extra: set<Key>, ghost t: Table, doomed: set<Key>) returns (ok: bool)
      requires Valid() && Schema(db, e) && Rank(t) > 0 && At(db, e, Rank(t), extra, {}, rows)
      requires doomed == DoomedIn(rows, e, t)
      modifies this
      ensures Valid()
      ensures ok ==> At(db, e, Rank(t) + 1, extra, {}, rows)
      ensures !ok ==> !Unobstructed(db, e)
    {
      hide ColumnsOf, ReferringColumns, QueriedBy, DoomedIn, Unobstructed, Rest, InOrder, AllOf, Delete, Typed, FkValid, Complete, IsDoomed;
      ghost var gone := DoomedUpTo(db, e, Rank(t)) + extra;
      forall c | c in ReferringColumns(t)
        ensures c.rule == Restrict && (Before(c.home, Rank(t)) || c.home == t)
      {
        ReferrerGoesFirst(t, c);
      }
      WhereGoesLater(t);
      PiecemealIsUnranked();
      WhereUntouched(db, e, gone, t);
      DoomedInIsDoomed(db, e, t);
      TableInOrder(db, e, Rank(t), extra, {}, t, doomed);
      DeleteInOrder(db, e, gone, {}, doomed);
      ok := Execute(doomed);
      NextRank(db, e, t);
      assert gone + doomed == DoomedUpTo(db, e, Rank(t) + 1) + extra;
    }

    /** Some rows of a table that is worked through piecemeal. */
    method DeletePart(ghost db: Db, ghost e: Key, ghost next: nat, ghost extra: set<Key>, ghost nulled: set<Column>, doomed: set<Key>)
      returns (ok: bool)
      requires Valid() && Schema(db, e) && At(db, e, next, extra, nulled, rows)
      requires doomed <= Doomed(db, e) && forall k :: k in doomed ==> k.table in PIECEMEAL
      requires InOrder(db, e, rows, doomed)
      modifies this
      ensures Valid()
      ensures ok ==> At(db, e, next, extra + doomed, nulled, rows)
      ensures !ok ==> !Unobstructed(db, e)
    {
      hide Unobstructed, Rest, InOrder, Delete, Typed, FkValid, Complete, IsDoomed;
      ghost var gone := DoomedUpTo(db, e, next) + extra;
      DeleteInOrder(db, e, gone, nulled, doomed);
      ok := Execute(doomed);
      assert gone + doomed == DoomedUpTo(db, e, next) + (extra + doomed);
    }

    /** DELETE ... WHERE c IN targets, on a table that is worked through piecemeal. */
    method DeleteHaving(ghost db: Db, ghost e: Key, ghost next: nat, ghost extra: set<Key>, ghost nulled: set<Column>,
                        c: Column, targets: set<Key>) returns (ok: bool)
      requires Valid() && Schema(db, e) && At(db, e, next, extra, nulled, rows)
      requires c.home in PIECEMEAL && c !in nulled && Having(db, c, targets) <= Doomed(db, e)
      requires forall d :: d in ReferringColumns(c.home) ==>
                 (d.rule == Restrict && Before(d.home, next)) || Having(db, d, Having(db, c, targets)) <= extra
      modifies this
      ensures Valid()
      ensures ok ==> At(db, e, next, extra + Having(db, c, targets), nulled, rows)
      ensures !ok ==> !Unobstructed(db, e)
    {
      hide Unobstructed, InOrder, DoomedIn, Typed, FkValid, Complete, IsDoomed, Rest, DoomedUpTo, ReferringColumns, ColumnsOf;
      PiecemealIsUnranked();
      PartQuery(db, e, next, extra, nulled, c, targets);
      HavingInHome(db, c, targets);
      var doomed := Having(rows, c, targets);
      HavingShrinks(db, doomed, Having(db, c, targets));
      PartInOrder(db, e, next, extra, nulled, c.home, doomed);
      ok := DeletePart(db, e, next, extra, nulled, doomed);
      assert extra + doomed == extra + Having(db, c, targets);
    }

    /** One import batch: its decisions, issues and rows, the batch, and its source if no batch is left of it. */
    method DeleteBatch(ghost db: Db, ghost e: Key, ghost jobs: set<Key>, ghost done: set<Key>, b: Key) returns (ok: bool)
      requires Valid() && Schema(db, e) && BatchTurn(db, e, jobs, done, b)
      requires At(db, e, 11, jobs + Family(db, done), {}, rows)
      modifies this
      ensures Valid()
      ensures ok ==> At(db, e, 11, jobs + Family(db, done + {b}), {}, rows)
      ensures !ok ==> !Unobstructed(db, e)
    {
      hide Unobstructed, At, InOrder, Typed, FkValid, Complete, IsDoomed, Having, Family, Doomed;
      ghost var extra := jobs + Family(db, done);
      BatchLines(db, e, jobs, done, b, rows);
      LinesAreDoomed(db, e, b);
      var lines := RowsOf(rows, {b});
      ok := DeleteHaving(db, e, 11, extra, {}, DECISION_ROW, lines);
      if ok {
        extra := extra + Having(db, DECISION_ROW, lines);
        ok := DeleteHaving(db, e, 11, extra, {}, ISSUE_ROW, lines);
      }
      if ok {
        extra := extra + Having(db, ISSUE_ROW, lines);
        ok := DeleteHaving(db, e, 11, extra, {}, ROW_BATCH, {b});
      }
      if ok {
        ok := DeleteBatchRow(db, e, jobs, done, b);
      }
    }

    method DeleteBatchRow(ghost db: Db, ghost e: Key, ghost jobs: set<Key>, ghost done: set<Key>, b: Key) returns (ok: bool)
      requires Valid() && Schema(db, e) && BatchTurn(db, e, jobs, done, b)
      requires At(db, e, 11, WithLines(db, jobs, done, b), {}, rows)
      modifies this
      ensures Valid()
      ensures ok ==> At(db, e, 11, jobs + Family(db, done + {b}), {}, rows)
      ensures !ok ==> !Unobstructed(db, e)
    {
      hide Unobstructed, BatchTurn, At, InOrder, Typed, FkValid, Complete, IsDoomed, Having, Family, Doomed, WithLines, Rest;
      ghost var extra := WithLines(db, jobs, done, b);
      BatchGoes(db, e, jobs, done, b, rows);
      var source := SourceOf(rows, b);
      ok := DeletePart(db, e, 11, extra, {}, {b});
      if ok {
        SourceGoes(db, e, jobs, done, b, rows);
        if Having(rows, BATCH_SOURCE, {source}) == {} {
          ok := DeletePart(db, e, 11, extra + {b}, {}, {source});
        }
      }
    }

    /** Imports and receive sessions, failed and unmatched ones included, then the imports' transfer jobs. */
    method DeleteUploads(ghost db: Db, e: Key) returns (ok: bool)
      requires Valid() && Schema(db, e) && rows == db
      modifies this
      ensures Valid()
      ensures ok ==> At(db, e, 3, ImportJobsOf(db, e), {}, rows)
      ensures !ok ==> !Unobstructed(db, e)
    {
      hide Unobstructed, At, Typed, FkValid, Complete, IsDoomed, ImportJobsOf;
      StartsHere(db, e);
      var jobs := ImportJobsOf(rows, e);
      ok := DeleteTable(db, e, {}, MediaImports, Having(rows, IMPORT_EVENT, {e}));
      if ok {
        ok := DeleteTable(db, e, {}, ReceiveSessions, Having(rows, RECEIVE_EVENT, {e}));
      }
      if ok && jobs != {} {
        ok := DeleteImportJobs(db, e, jobs);
      }
    }

    method DeleteImportJobs(ghost db: Db, ghost e: Key, jobs: set<Key>) returns (ok: bool)
      requires Valid() && Schema(db, e) && At(db, e, 3, {}, {}, rows) && jobs == ImportJobsOf(db, e)
      modifies this
      ensures Valid()
      ensures ok ==> At(db, e, 3, jobs, {}, rows)
      ensures !ok ==> !Unobstructed(db, e)
    {
      hide Unobstructed, InOrder, DoomedIn, At, Typed, FkValid, Complete, IsDoomed, ImportJobsOf;
      ImportJobsInOrder(db, e, rows);
      assert {} + jobs == jobs;
      ok := DeletePart(db, e, 3, {}, {}, jobs);
    }

    method DeletePresentations(ghost db: Db, e: Key, ghost extra: set<Key>) returns (ok: bool)
      requires Valid() && Schema(db, e) && At(db, e, 3, extra, {}, rows)
      modifies this
      ensures Valid()
      ensures ok ==> At(db, e, 8, extra, {}, rows)
      ensures !ok ==> !Unobstructed(db, e)
    {
      hide Unobstructed, At, Typed, FkValid, Complete, IsDoomed;
      ok := DeleteTable(db, e, extra, Assets, AssetsOf(rows, e));
      if ok {
        ok := DeleteTable(db, e, extra, Versions, VersionsOf(rows, e));
      }
      if ok {
        ok := DeleteTable(db, e, extra, Presenters, Having(rows, PRESENTER_PRESENTATION, PresentationsOf(rows, e)));
      }
      if ok {
        ok := DeleteTable(db, e, extra, PresentationSessions, Having(rows, LINK_PRESENTATION, PresentationsOf(rows, e)));
      }
      if ok {
        ok := DeleteTable(db, e, extra, Presentations, PresentationsOf(rows, e));
      }
    }

    method DeleteAgenda(ghost db: Db, e: Key, ghost extra: set<Key>) returns (ok: bool)
      requires Valid() && Schema(db, e) && At(db, e, 8, extra, {}, rows)
      modifies this
      ensures Valid()
      ensures ok ==> At(db, e, 11, extra, {}, rows)
      ensures !ok ==> !Unobstructed(db, e)
    {
      hide Unobstructed, At, Typed, FkValid, Complete, IsDoomed;
      ok := DeleteTable(db, e, extra, SessionParticipants,
                        Having(rows, PARTICIPANT_SESSION, Having(rows, SESSION_EVENT, {e}))
                        + Having(rows, PARTICIPANT_PARTICIPATION, Having(rows, PARTICIPATION_EVENT, {e})));
      if ok {
        ok := DeleteTable(db, e, extra, Sessions, Having(rows, SESSION_EVENT, {e}));
      }
      if ok {
        ok := DeleteTable(db, e, extra, Participations, Having(rows, PARTICIPATION_EVENT, {e}));
      }
    }

    method DeleteHosting(ghost db: Db, e: Key, ghost extra: set<Key>) returns (ok: bool)
      requires Valid() && Schema(db, e) && At(db, e, 11, extra, {}, rows)
      modifies this
      ensures Valid()
      ensures ok ==> At(db, e, 14, extra, {}, rows)
      ensures !ok ==> !Unobstructed(db, e)
    {
      hide Unobstructed, At, Typed, FkValid, Complete, IsDoomed;
      ok := DeleteTable(db, e, extra, DeploymentRevisions, Having(rows, REVISION_DEPLOYMENT, Having(rows, DEPLOYMENT_EVENT, {e})));
      if ok {
        ok := DeleteTable(db, e, extra, EventDeployments, Having(rows, DEPLOYMENT_EVENT, {e}));
      }
      if ok {
        ok := DeleteTable(db, e, extra, ExternalIds, Having(rows, EXTERNAL_EVENT, {e}));
      }
    }

    method DeleteBatches(ghost db: Db, e: Key, ghost jobs: set<Key>) returns (ok: bool)
      requires Valid() && Schema(db, e) && At(db, e, 11, jobs, {}, rows)
      requires forall k :: k in jobs ==> k.table == TransferJobs
      modifies this
      ensures Valid()
      ensures ok ==> At(db, e, 11, jobs + Family(db, BatchesOf(db, e)), {}, rows)
      ensures !ok ==> !Unobstructed(db, e)
    {
      hide Unobstructed, At, Typed, FkValid, Complete, IsDoomed, Having, Family;
      BatchesUntouched(db, e, jobs, rows);
      var todo := BatchesOf(rows, e);
      ghost var done: set<Key> := {};
      ok := true;
      while ok && todo != {}
        invariant Valid() && todo + done == BatchesOf(db, e) && todo !! done
        invariant ok ==> At(db, e, 11, jobs + Family(db, done), {}, rows)
        invariant !ok ==> !Unobstructed(db, e)
        decreases todo
      {
        var b :| b in todo;
        ok := DeleteBatch(db, e, jobs, done, b);
        todo, done := todo - {b}, done + {b};
      }
      assert ok ==> done == BatchesOf(db, e);
    }

    method SetNull(ghost db: Db, e: Key, ghost next: nat, ghost extra: set<Key>, ghost nulled: set<Column>, c: Column)
      requires Valid() && At(db, e, next, extra, nulled, rows) && c in NULLED
      modifies this
      ensures Valid() && At(db, e, next, extra, nulled + {c}, rows)
    {
      hide Typed, FkValid, IsDoomed, Rest, DoomedUpTo;
      SetToNullKeepsFkValid(rows, c, e);
      NullOneMore(db, DoomedUpTo(db, e, next) + extra, nulled, e, c);
      rows := map k | k in rows :: WithoutRef(rows[k], c, e);
    }

    /** One media object: collected with its jobs, unless an asset that is left still names it. */
    method CollectMedium(ghost db: Db, ghost e: Key, ghost extra: set<Key>, m: Key) returns (ok: bool, removed: bool)
      requires Valid() && Schema(db, e) && At(db, e, 14, extra, TRANSPORT, rows) && m in Considered(db, e)
      modifies this
      ensures Valid()
      ensures ok ==> (removed <==> m in Collected(db, e))
      ensures ok ==> At(db, e, 14, if removed then extra + MediaFamily(db, {m}) else extra, TRANSPORT, rows)
      ensures !ok ==> !Unobstructed(db, e)
    {
      hide Unobstructed, At, InOrder, Typed, FkValid, Complete, IsDoomed, Having, Doomed, Considered, Collected, AllOf;
      StillNamed(db, e, extra, rows, m);
      if Having(rows, ASSET_MEDIA, {m}) != {} {
        return true, false;
      }
      MediaFamilyIsDoomed(db, e, {m});
      removed := true;
      ok := DeleteHaving(db, e, 14, extra, TRANSPORT, JOB_MEDIA, {m});
      if ok {
        ok := DeleteHaving(db, e, 14, extra + Having(db, JOB_MEDIA, {m}), TRANSPORT, TRANSFER_MEDIA, {m});
      }
      if ok {
        ghost var now := extra + Having(db, JOB_MEDIA, {m}) + Having(db, TRANSFER_MEDIA, {m});
        MediumInOrder(db, e, now, rows, m);
        ok := DeletePart(db, e, 14, now, TRANSPORT, {m});
        assert now + {m} == extra + MediaFamily(db, {m});
      }
    }

    method CollectMedia(ghost db: Db, ghost e: Key, ghost extra: set<Key>, media: set<Key>) returns (ok: bool, removed: nat)
      requires Valid() && Schema(db, e) && At(db, e, 14, extra, TRANSPORT, rows) && media == Considered(db, e)
      modifies this
      ensures Valid()
      ensures ok ==> removed == |Collected(db, e)| && At(db, e, 14, extra + MediaFamily(db, Collected(db, e)), TRANSPORT, rows)
      ensures !ok ==> !Unobstructed(db, e)
    {
      hide Unobstructed, At, Typed, FkValid, Complete, IsDoomed, Having, Considered, NamedBySurvivors;
      var todo := media;
      ghost var gone: set<Key> := {};
      ok, removed := true, 0;
      NoMediaFamily(db, extra);
      while ok && todo != {}
        invariant Valid() && todo <= media
        invariant ok ==> gone == Collected(db, e) - todo && removed == |gone|
        invariant ok ==> At(db, e, 14, extra + MediaFamily(db, gone), TRANSPORT, rows)
        invariant !ok ==> !Unobstructed(db, e)
        decreases todo
      {
        var m :| m in todo;
        var one;
        ok, one := CollectMedium(db, e, extra + MediaFamily(db, gone), m);
        if ok && one {
          MediaFamilyOneMore(db, gone, m);
          assert extra + MediaFamily(db, gone) + MediaFamily(db, {m}) == extra + MediaFamily(db, gone + {m});
          removed, gone := removed + 1, gone + {m};
        }
        todo := todo - {m};
      }
    }

    /**
     The whole deletion, one transaction. It commits exactly when nothing that survives refers to
     anything deleted; what it commits is Final; a refusal rolls every statement back.
     */
    method DeleteEvent(e: Key) returns (ok: bool, removed: nat, preserved: nat)
      requires Valid() && Complete(rows) && e.table == Events
      modifies this
      ensures Valid()
      ensures e !in old(rows) ==> ok && rows == old(rows)
      ensures e in old(rows) ==> (ok <==> Unobstructed(old(rows), e))
      ensures e in old(rows) && ok ==>
        && rows == Final(old(rows), e)
        && removed == |Collected(old(rows), e)| && removed + preserved == |Considered(old(rows), e)|
      ensures !ok ==> rows == old(rows)
    {
      hide Unobstructed, At, Typed, FkValid, Complete, IsDoomed, Having, Considered, NamedBySurvivors, Final, Family, MediaFamily, ImportJobsOf;
      var saved := rows;
      if e !in rows {
        return true, 0, 0;
      }
      var media := Considered(rows, e);
      ok := DeleteUploads(saved, e);
      ghost var jobs := ImportJobsOf(saved, e);
      ImportJobsAreJobs(saved, e);
      if ok {
        ok := DeletePresentations(saved, e, jobs);
      }
      if ok {
        ok := DeleteAgenda(saved, e, jobs);
      }
      if ok {
        ok := DeleteBatches(saved, e, jobs);
      }
      ghost var extra := jobs + Family(saved, BatchesOf(saved, e));
      if ok {
        ok := DeleteHosting(saved, e, extra);
      }
      if ok {
        SetNull(saved, e, 14, extra, {}, SYNC_EVENT);
        SetNull(saved, e, 14, extra, {} + {SYNC_EVENT}, OUTBOX_EVENT);
        assert {} + {SYNC_EVENT} + {OUTBOX_EVENT} == TRANSPORT;
        ok, removed := CollectMedia(saved, e, extra, media);
      }
      if !ok {
        rows := saved;
        return false, 0, 0;
      }
      SetNull(saved, e, 14, Everything(saved, e), TRANSPORT, REPLICA_EVENT);
      assert TRANSPORT + {REPLICA_EVENT} == NULLED;
      assert Collected(saved, e) <= media;
      preserved := |media| - removed;
      EventGoes(saved, e, rows);
      ok := Execute({e});
      NothingWasInTheWay(saved, e);
    }
  }
}
