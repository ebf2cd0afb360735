/**
 Central's tables as one keyed store with foreign keys, and the statements the lifecycle
 code issues: a DELETE that honours RESTRICT, CASCADE and SET NULL, and an UPDATE to null.
 Columns that refer to Sites, storage roots and users are left out: nothing here deletes those.
 */
module Relational {
  import opened Wrappers

  datatype Table =
    | Events | Persons | EventDeployments | DeploymentRevisions | Participations | Sessions | SessionParticipants
    | Presentations | PresentationSessions | Presenters | Versions | Assets | Sources | Batches | ImportRows | Issues
    | Decisions | Replicas | MediaBatches | MediaImports | ReceiveSessions | ProcessingJobs | TransferJobs
    | SyncEvents | OutboxEvents | ExternalIds | Signals | Links | Histories | AuditRecords

  datatype Rule = Restrict | CascadeRule | SetNull | Unconstrained

  /** A referring column: its table, the table it refers to, ON DELETE, and NOT NULL; ordinal tells twins apart. */
  datatype Column = Column(home: Table, target: Table, rule: Rule, required: bool, ordinal: nat)

  const DEPLOYMENT_EVENT := Column(EventDeployments, Events, Restrict, true, 0)
  const REVISION_DEPLOYMENT := Column(DeploymentRevisions, EventDeployments, Restrict, true, 0)
  const PARTICIPATION_EVENT := Column(Participations, Events, Restrict, true, 0)
  const PARTICIPATION_PERSON := Column(Participations, Persons, Restrict, true, 0)
  const SESSION_EVENT := Column(Sessions, Events, Restrict, true, 0)
  const PARTICIPANT_SESSION := Column(SessionParticipants, Sessions, Restrict, true, 0)
  const PARTICIPANT_PARTICIPATION := Column(SessionParticipants, Participations, Restrict, true, 0)
  const PRESENTATION_EVENT := Column(Presentations, Events, Restrict, true, 0)
  const PRESENTATION_SESSION := Column(Presentations, Sessions, Restrict, false, 0)
  const LINK_PRESENTATION := Column(PresentationSessions, Presentations, Restrict, true, 0)
  const LINK_SESSION := Column(PresentationSessions, Sessions, Restrict, true, 0)
  const PRESENTER_PRESENTATION := Column(Presenters, Presentations, Restrict, true, 0)
  const PRESENTER_PARTICIPATION := Column(Presenters, Participations, Restrict, true, 0)
  const VERSION_PRESENTATION := Column(Versions, Presentations, Restrict, true, 0)
  const ASSET_VERSION := Column(Assets, Versions, Restrict, true, 0)
  const ASSET_MEDIA := Column(Assets, Replicas, Restrict, true, 0)
  const ASSET_SOURCE := Column(Assets, Assets, Restrict, false, 0)
  const BATCH_EVENT := Column(Batches, Events, Restrict, true, 0)
  const BATCH_SOURCE := Column(Batches, Sources, Restrict, true, 0)
  const ROW_BATCH := Column(ImportRows, Batches, Restrict, true, 0)
  const ROW_PROPOSED := Column(ImportRows, Persons, Restrict, false, 0)
  const ROW_RESOLVED := Column(ImportRows, Persons, Restrict, false, 1)
  const ISSUE_ROW := Column(Issues, ImportRows, CascadeRule, true, 0)
  const DECISION_ROW := Column(Decisions, ImportRows, Restrict, true, 0)
  const DECISION_PERSON := Column(Decisions, Persons, Restrict, false, 0)
  const REPLICA_EVENT := Column(Replicas, Events, Restrict, false, 0)
  const MEDIA_BATCH_EVENT := Column(MediaBatches, Events, CascadeRule, true, 0)
  const IMPORT_MEDIA_BATCH := Column(MediaImports, MediaBatches, SetNull, false, 0)
  const IMPORT_EVENT := Column(MediaImports, Events, Restrict, true, 0)
  const IMPORT_PRESENTATION := Column(MediaImports, Presentations, Restrict, false, 0)
  const IMPORT_VERSION := Column(MediaImports, Versions, Restrict, false, 0)
  const IMPORT_TRANSFER := Column(MediaImports, TransferJobs, Restrict, false, 0)
  const RECEIVE_EVENT := Column(ReceiveSessions, Events, Restrict, true, 0)
  const RECEIVE_PRESENTATION := Column(ReceiveSessions, Presentations, Restrict, true, 0)
  const RECEIVE_VERSION := Column(ReceiveSessions, Versions, Restrict, true, 0)
  const RECEIVE_MEDIA := Column(ReceiveSessions, Replicas, Restrict, false, 0)
  const JOB_MEDIA := Column(ProcessingJobs, Replicas, Restrict, false, 0)
  const TRANSFER_MEDIA := Column(TransferJobs, Replicas, Restrict, false, 0)
  const SYNC_EVENT := Column(SyncEvents, Events, SetNull, false, 0)
  const OUTBOX_EVENT := Column(OutboxEvents, Events, SetNull, false, 0)
  const EXTERNAL_EVENT := Column(ExternalIds, Events, Restrict, false, 0)
  const EXTERNAL_ENTITY := Column(ExternalIds, Persons, Unconstrained, true, 0)
  const SIGNAL_PERSON := Column(Signals, Persons, Restrict, true, 0)
  const IDENTITY_PERSON := Column(Links, Persons, Restrict, true, 0)
  const IDENTITY_LINKED := Column(Links, Persons, Restrict, true, 1)
  const HISTORY_PERSON := Column(Histories, Persons, Restrict, true, 0)
  const HISTORY_EVENT := Column(Histories, Events, Unconstrained, true, 0)
  const AUDIT_EVENT := Column(AuditRecords, Events, Unconstrained, false, 0)

  /** The referring columns of each table; EXTERNAL_ENTITY may name a row of several tables. */
  function ColumnsOf(t: Table): set<Column> {
    match t
    case EventDeployments => {DEPLOYMENT_EVENT}
    case DeploymentRevisions => {REVISION_DEPLOYMENT}
    case Participations => {PARTICIPATION_EVENT, PARTICIPATION_PERSON}
    case Sessions => {SESSION_EVENT}
    case SessionParticipants => {PARTICIPANT_SESSION, PARTICIPANT_PARTICIPATION}
    case Presentations => {PRESENTATION_EVENT, PRESENTATION_SESSION}
    case PresentationSessions => {LINK_PRESENTATION, LINK_SESSION}
    case Presenters => {PRESENTER_PRESENTATION, PRESENTER_PARTICIPATION}
    case Versions => {VERSION_PRESENTATION}
    case Assets => {ASSET_VERSION, ASSET_MEDIA, ASSET_SOURCE}
    case Batches => {BATCH_EVENT, BATCH_SOURCE}
    case ImportRows => {ROW_BATCH, ROW_PROPOSED, ROW_RESOLVED}
    case Issues => {ISSUE_ROW}
    case Decisions => {DECISION_ROW, DECISION_PERSON}
    case Replicas => {REPLICA_EVENT}
    case MediaBatches => {MEDIA_BATCH_EVENT}
    case MediaImports => {IMPORT_MEDIA_BATCH, IMPORT_EVENT, IMPORT_PRESENTATION, IMPORT_VERSION, IMPORT_TRANSFER}
    case ReceiveSessions => {RECEIVE_EVENT, RECEIVE_PRESENTATION, RECEIVE_VERSION, RECEIVE_MEDIA}
    case ProcessingJobs => {JOB_MEDIA}
    case TransferJobs => {TRANSFER_MEDIA}
    case SyncEvents => {SYNC_EVENT}
    case OutboxEvents => {OUTBOX_EVENT}
    case ExternalIds => {EXTERNAL_EVENT, EXTERNAL_ENTITY}
    case Signals => {SIGNAL_PERSON}
    case Links => {IDENTITY_PERSON, IDENTITY_LINKED}
    case Histories => {HISTORY_PERSON, HISTORY_EVENT}
    case AuditRecords => {AUDIT_EVENT}
    case Events | Persons | Sources => {}
  }

  datatype Key = Key(table: Table, id: nat)

  /** refs holds the columns that are not null; data stands for every other column. */
  datatype Row = Row(refs: map<Column, Key>, data: nat)

  type Db = map<Key, Row>

  ghost predicate Complete(db: Db) {
    forall k, c :: k in db && c in ColumnsOf(k.table) && c.required ==> c in db[k].refs
  }

  ghost predicate Typed(db: Db) {
    forall k, c :: k in db && c in db[k].refs ==>
      c.home == k.table && c in ColumnsOf(k.table) && (c.rule != Unconstrained ==> db[k].refs[c].table == c.target)
  }

  ghost predicate FkValid(db: Db) {
    forall k, c :: k in db && c in db[k].refs && c.rule != Unconstrained ==> db[k].refs[c] in db
  }

  /** The foreign keys into a table that is not referred to from almost everywhere. */
  function ReferringColumns(t: Table): set<Column> {
    match t
    case EventDeployments => {REVISION_DEPLOYMENT}
    case Sessions => {PARTICIPANT_SESSION, PRESENTATION_SESSION, LINK_SESSION}
    case Participations => {PARTICIPANT_PARTICIPATION, PRESENTER_PARTICIPATION}
    case Presentations => {LINK_PRESENTATION, PRESENTER_PRESENTATION, VERSION_PRESENTATION, IMPORT_PRESENTATION, RECEIVE_PRESENTATION}
    case Versions => {ASSET_VERSION, IMPORT_VERSION, RECEIVE_VERSION}
    case Assets => {ASSET_SOURCE}
    case Sources => {BATCH_SOURCE}
    case Batches => {ROW_BATCH}
    case ImportRows => {DECISION_ROW, ISSUE_ROW}
    case Replicas => {ASSET_MEDIA, RECEIVE_MEDIA, JOB_MEDIA, TRANSFER_MEDIA}
    case MediaBatches => {IMPORT_MEDIA_BATCH}
    case TransferJobs => {IMPORT_TRANSFER}
    case _ => {}
  }

  lemma ReferringColumnsAreAll(c: Column)
    requires c in ColumnsOf(c.home) && c.rule != Unconstrained && c.target != Events && c.target != Persons
    ensures c in ReferringColumns(c.target)
  {}

  lemma EventColumns(c: Column)
    requires c in ColumnsOf(c.home) && c.rule == Restrict && c.target == Events
    ensures c in {DEPLOYMENT_EVENT, PARTICIPATION_EVENT, SESSION_EVENT, PRESENTATION_EVENT, BATCH_EVENT,
                  REPLICA_EVENT, IMPORT_EVENT, RECEIVE_EVENT, EXTERNAL_EVENT}
  {}

  lemma OtherRules(c: Column)
    requires c in ColumnsOf(c.home) && (c.rule == CascadeRule || c.rule == SetNull)
    ensures c == ISSUE_ROW || c == MEDIA_BATCH_EVENT || c == IMPORT_MEDIA_BATCH || c == SYNC_EVENT || c == OUTBOX_EVENT
  {}

  // ---------------------------------------------------------------- statements

  /** Rows whose column holds one of these keys. */
  function Having(db: Db, c: Column, targets: set<Key>): set<Key> {
    set k | k in db && c in db[k].refs && db[k].refs[c] in targets
  }

  /** The keys these rows hold in a column. */
  function Named(db: Db, c: Column, rows: set<Key>): set<Key> {
    set k | k in rows && k in db && c in db[k].refs :: db[k].refs[c]
  }

  lemma HavingInHome(db: Db, c: Column, targets: set<Key>)
    requires Typed(db)
    ensures Having(db, c, targets) <= AllOf(db, c.home)
  {}

  lemma NamedMeansHeld(db: Db, c: Column, rows: set<Key>, target: Key)
    ensures target in Named(db, c, rows) <==> Having(db, c, {target}) * rows != {}
  {
    if target in Named(db, c, rows) {
      var k :| k in rows && k in db && c in db[k].refs && db[k].refs[c] == target;
      assert k in Having(db, c, {target}) * rows;
    }
    if Having(db, c, {target}) * rows != {} {
      var k :| k in Having(db, c, {target}) * rows;
      assert db[k].refs[c] in Named(db, c, rows);
    }
  }

  lemma NamedInTarget(db: Db, c: Column, rows: set<Key>)
    requires Typed(db) && FkValid(db) && c.rule != Unconstrained
    ensures Named(db, c, rows) <= AllOf(db, c.target)
  {}

  function AllOf(db: Db, t: Table): set<Key> {
    set k | k in db && k.table == t
  }

  predicate Refers(row: Row, rule: Rule, targets: set<Key>) {
    exists c :: c in row.refs && c.rule == rule && row.refs[c] in targets
  }

  /** A delete takes with it the rows that cascade; no cascading row is cascaded to in turn. */
  function WithCascade(db: Db, doomed: set<Key>): set<Key> {
    doomed + set k | k in db && Refers(db[k], CascadeRule, doomed)
  }

  function Unlinked(row: Row, gone: set<Key>): Row {
    row.(refs := map c | c in row.refs && !(c.rule == SetNull && row.refs[c] in gone) :: row.refs[c])
  }

  predicate Refused(db: Db, doomed: set<Key>) {
    exists k :: k in db && k !in WithCascade(db, doomed) && Refers(db[k], Restrict, WithCascade(db, doomed))
  }

  /** None is the integrity error that rolls the transaction back. */
  function Delete(db: Db, doomed: set<Key>): Option<Db> {
    var gone := WithCascade(db, doomed);
    if Refused(db, doomed) then None
    else Some(map k | k in db && k !in gone :: Unlinked(db[k], gone))
  }

  /** The row is deleted, or cannot outlive one that is. */
  ghost predicate Goes(db: Db, doomed: set<Key>, k: Key) {
    k in doomed || (k in db && exists c :: c in db[k].refs && c.rule == CascadeRule && db[k].refs[c] in doomed)
  }

  /** What the engine does with a DELETE: when it refuses, which rows it removes, and which links it empties. */
  lemma DeleteExactly(db: Db, doomed: set<Key>)
    ensures Delete(db, doomed).None? <==>
      exists k, c :: k in db && !Goes(db, doomed, k) && c in db[k].refs && c.rule == Restrict && Goes(db, doomed, db[k].refs[c])
    ensures Delete(db, doomed).Some? ==>
      var after := Delete(db, doomed).value;
      && (forall k :: k in after <==> k in db && !Goes(db, doomed, k))
      && (forall k :: k in after ==> after[k].data == db[k].data)
      && (forall k, c :: k in after && c in after[k].refs <==>
            k in after && c in db[k].refs && !(c.rule == SetNull && Goes(db, doomed, db[k].refs[c])))
      && (forall k, c :: k in after && c in after[k].refs ==> after[k].refs[c] == db[k].refs[c])
  {
    forall k
      ensures k in WithCascade(db, doomed) <==> Goes(db, doomed, k)
    {}
    if Refused(db, doomed) {
      var k :| k in db && k !in WithCascade(db, doomed) && Refers(db[k], Restrict, WithCascade(db, doomed));
      var c :| c in db[k].refs && c.rule == Restrict && db[k].refs[c] in WithCascade(db, doomed);
      assert Goes(db, doomed, db[k].refs[c]);
    }
  }

  predicate Vetoed(db: Db, doomed: set<Key>) {
    exists k :: k in db && k !in doomed && Refers(db[k], Restrict, doomed)
  }

  function Minus(db: Db, doomed: set<Key>): Db {
    map k | k in db && k !in doomed :: db[k]
  }

  /** A delete that drags nothing along is vetoed or plain. */
  lemma PlainDelete(db: Db, doomed: set<Key>)
    requires forall k :: k in db && k !in doomed ==> !Refers(db[k], CascadeRule, doomed) && !Refers(db[k], SetNull, doomed)
    ensures Delete(db, doomed) == if Vetoed(db, doomed) then None else Some(Minus(db, doomed))
  {
    assert WithCascade(db, doomed) == doomed;
    assert Refused(db, doomed) <==> Vetoed(db, doomed);
    forall k | k in db && k !in doomed
      ensures Unlinked(db[k], doomed) == db[k]
    {
      assert Unlinked(db[k], doomed).refs == db[k].refs by {
        assert !Refers(db[k], SetNull, doomed);
      }
    }
    if !Vetoed(db, doomed) {
      assert Delete(db, doomed).value == Minus(db, doomed);
    }
  }

  function WithoutRef(row: Row, c: Column, target: Key): Row {
    if c in row.refs && row.refs[c] == target then row.(refs := row.refs - {c}) else row
  }

  function SetToNull(db: Db, c: Column, target: Key): Db {
    map k | k in db :: WithoutRef(db[k], c, target)
  }

  lemma CascadesAreShallow(c: Column, d: Column)
    requires c in ColumnsOf(c.home) && d in ColumnsOf(d.home) && c.rule == CascadeRule && d.rule == CascadeRule
    ensures c.target != d.home
  {}

  /** What a row that survives a delete refers to is not deleted, unless the column is nulled. */
  lemma SurvivorsReferToSurvivors(db: Db, doomed: set<Key>, k: Key, c: Column)
    requires Typed(db) && Delete(db, doomed).Some? && k in db && k !in WithCascade(db, doomed)
    requires c in db[k].refs && db[k].refs[c] in db && (c.rule == Restrict || c.rule == CascadeRule)
    ensures db[k].refs[c] !in WithCascade(db, doomed)
  {
    hide ColumnsOf;
    var target := db[k].refs[c];
    assert !Refers(db[k], Restrict, WithCascade(db, doomed));
    assert !Refers(db[k], CascadeRule, doomed);
    if c.rule == CascadeRule {
      forall d | d in db[target].refs
        ensures d.rule != CascadeRule
      {
        if d.rule == CascadeRule { CascadesAreShallow(c, d); }
      }
    }
  }

  /** The constraint at work: a delete that goes through leaves no dangling reference. */
  lemma DeleteKeepsFkValid(db: Db, doomed: set<Key>)
    requires Typed(db) && FkValid(db) && Delete(db, doomed).Some?
    ensures Typed(Delete(db, doomed).value) && FkValid(Delete(db, doomed).value)
  {
    hide ColumnsOf;
    var gone, db' := WithCascade(db, doomed), Delete(db, doomed).value;
    forall k, c | k in db' && c in db'[k].refs && c.rule != Unconstrained
      ensures db'[k].refs[c] in db'
    {
      assert c in db[k].refs && db'[k].refs[c] == db[k].refs[c] && db[k].refs[c] in db;
      if c.rule != SetNull {
        SurvivorsReferToSurvivors(db, doomed, k, c);
      }
    }
  }

  lemma SetToNullKeepsFkValid(db: Db, c: Column, target: Key)
    requires Typed(db) && FkValid(db)
    ensures Typed(SetToNull(db, c, target)) && FkValid(SetToNull(db, c, target))
  {
    hide ColumnsOf;
  }
}
