/** What a committed Event deletion means, and exactly which data let it commit. */
module EventDeletionResults {
  import opened Wrappers
  import opened Relational
  import opened EventDeletion

  // ---------------------------------------------------------------- afterwards

  lemma DoomedTargetIsLoosened(db: Db, e: Key, k: Key, c: Column)
    requires Schema(db, e) && Unobstructed(db, e) && k in db && !IsDoomed(db, e, k) && c in db[k].refs
    requires c.rule != Unconstrained && IsDoomed(db, e, db[k].refs[c])
    ensures Loosened(db, e, c, db[k].refs[c])
  {
    hide ColumnsOf, DoomedIn, Having, FkValid, Complete;
    var target := db[k].refs[c];
    OnlyTheEvent(db, e);
    if c.rule == Restrict {
      assert c == REPLICA_EVENT by { assert !Obstacle(db, e, k, c); }
    } else {
      OtherRules(c);
      assert c != ISSUE_ROW && c != MEDIA_BATCH_EVENT by { CascadedIsDoomed(db, e, k, c); }
    }
  }

  /** A row that refers to a doomed row through a column that fills its own table's doom is doomed. */
  lemma InDoomedHaving(db: Db, e: Key, k: Key, c: Column, targets: set<Key>)
    requires k in db && c in db[k].refs && db[k].refs[c] in targets && c.home == k.table
    requires Having(db, c, targets) <= DoomedIn(db, e, k.table)
    ensures IsDoomed(db, e, k)
  {}

  lemma TypedRef(db: Db, k: Key, c: Column)
    requires Typed(db) && k in db && c in db[k].refs
    ensures c.home == k.table && c in ColumnsOf(c.home) && (c.rule != Unconstrained ==> db[k].refs[c].table == c.target)
  {
    hide ColumnsOf;
  }

  lemma CascadedIsDoomed(db: Db, e: Key, k: Key, c: Column)
    requires Schema(db, e) && k in db && c in db[k].refs && IsDoomed(db, e, db[k].refs[c])
    ensures c == ISSUE_ROW || c == MEDIA_BATCH_EVENT ==> IsDoomed(db, e, k)
  {
    hide Typed, FkValid, Complete, RowsOf, BatchesOf;
    TypedRef(db, k, c);
    OnlyTheEvent(db, e);
    if c == ISSUE_ROW {
      InDoomedHaving(db, e, k, c, RowsOf(db, BatchesOf(db, e)));
    } else if c == MEDIA_BATCH_EVENT {
      InDoomedHaving(db, e, k, c, {e});
    }
  }

  lemma NeverLoosenedIfRequired(db: Db, e: Key, c: Column, target: Key)
    requires c.required
    ensures !Loosened(db, e, c, target)
  {}

  /** No dangling reference anywhere, no live reference to the Event, and every NOT NULL column still set. */
  lemma CommittedStateIsSound(db: Db, e: Key)
    requires Schema(db, e) && Unobstructed(db, e)
    ensures var after := Final(db, e);
      && Typed(after) && FkValid(after) && Complete(after)
      && forall k, c :: k in after && c in after[k].refs && c.rule != Unconstrained ==> after[k].refs[c] != e
  {
    hide ColumnsOf, DoomedIn, Loosened, Obstacle;
    var after := Final(db, e);
    OnlyTheEvent(db, e);
    forall k, c | k in after && c in after[k].refs && c.rule != Unconstrained
      ensures after[k].refs[c] in after
    {
      assert c in db[k].refs && after[k].refs[c] == db[k].refs[c] && db[k].refs[c] in db;
      if IsDoomed(db, e, db[k].refs[c]) { DoomedTargetIsLoosened(db, e, k, c); }
    }
    forall k, c | k in after && c in ColumnsOf(k.table) && c.required
      ensures c in after[k].refs
    {
      assert c in db[k].refs;
      NeverLoosenedIfRequired(db, e, c, db[k].refs[c]);
    }
  }

  /** Deployments, program, imports and uploads of other Events stay, whatever links them to this one. */
  lemma OtherEventsKeepTheirRows(db: Db, e: Key, k: Key, c: Column)
    requires Schema(db, e) && k in db && c in db[k].refs && c.target == Events && db[k].refs[c] != e
    requires c.rule != Unconstrained && c != REPLICA_EVENT
    ensures k in Final(db, e)
  {
    hide Typed, FkValid, Complete, ColumnsOf, DoomedIn, Kept;
    TypedRef(db, k, c);
    assert k !in Having(db, c, {e});
    if c.rule == Restrict {
      NamersAreDoomed(db, e, c);
    } else {
      OtherRules(c);
      OnlyTheEvent(db, e);
      TransportStays(db, e);
    }
  }

  lemma TransportStays(db: Db, e: Key)
    ensures DoomedIn(db, e, SyncEvents) == DoomedIn(db, e, OutboxEvents) == {}
  {}

  lemma AssetSurvives(db: Db, e: Key, a: Key)
    requires Schema(db, e) && a in db && a.table == Assets
    ensures ASSET_MEDIA in db[a].refs && (a in Final(db, e) <==> a !in AssetsOf(db, e))
    ensures a in Final(db, e) ==> ASSET_MEDIA in Final(db, e)[a].refs && Final(db, e)[a].refs[ASSET_MEDIA] == db[a].refs[ASSET_MEDIA]
  {
    hide AssetsOf, Typed, FkValid;
    assert ASSET_MEDIA in ColumnsOf(Assets);
  }

  lemma SurvivingNamers(db: Db, e: Key, m: Key)
    requires Schema(db, e)
    ensures forall a :: a in AssetsOf(db, e) ==> a in db && ASSET_MEDIA in db[a].refs
    ensures forall a :: a in Final(db, e) && a.table == Assets ==> ASSET_MEDIA in Final(db, e)[a].refs
    ensures m in NamedBySurvivors(db, e) <==> exists a :: a in Final(db, e) && a.table == Assets && Final(db, e)[a].refs[ASSET_MEDIA] == m
  {
    hide AssetsOf, Typed, FkValid, Complete, Kept, IsDoomed, Loosened;
    DoomedInIsDoomed(db, e, Assets);
    forall a | a in db && a.table == Assets
      ensures ASSET_MEDIA in db[a].refs && (a in Final(db, e) <==> a !in AssetsOf(db, e))
      ensures a in Final(db, e) ==> ASSET_MEDIA in Final(db, e)[a].refs && Final(db, e)[a].refs[ASSET_MEDIA] == db[a].refs[ASSET_MEDIA]
    {
      AssetSurvives(db, e, a);
    }
    if m in NamedBySurvivors(db, e) {
      var a :| a in AllOf(db, Assets) - AssetsOf(db, e) && ASSET_MEDIA in db[a].refs && db[a].refs[ASSET_MEDIA] == m;
      assert a in Final(db, e) && Final(db, e)[a].refs[ASSET_MEDIA] == m;
    }
    if a :| a in Final(db, e) && a.table == Assets && Final(db, e)[a].refs[ASSET_MEDIA] == m {
      assert a in AllOf(db, Assets) - AssetsOf(db, e) && db[a].refs[ASSET_MEDIA] == m;
    }
  }

  /** A media object goes exactly when the Event considers it and no surviving asset names it. */
  lemma CollectionIsExact(db: Db, e: Key, m: Key)
    requires Schema(db, e) && m in db && m.table == Replicas
    ensures forall a :: a in AssetsOf(db, e) ==> a in db && ASSET_MEDIA in db[a].refs
    ensures forall a :: a in Final(db, e) && a.table == Assets ==> ASSET_MEDIA in Final(db, e)[a].refs
    ensures m !in Final(db, e) <==>
      && ((exists a :: a in AssetsOf(db, e) && db[a].refs[ASSET_MEDIA] == m) || (REPLICA_EVENT in db[m].refs && db[m].refs[REPLICA_EVENT] == e))
      && !(exists a :: a in Final(db, e) && a.table == Assets && Final(db, e)[a].refs[ASSET_MEDIA] == m)
  {
    hide AssetsOf, Typed, FkValid, NamedBySurvivors, Complete, Kept;
    SurvivingNamers(db, e, m);
    assert IsDoomed(db, e, m) <==> m in Considered(db, e) && m !in NamedBySurvivors(db, e);
  }

  // ---------------------------------------------------------------- exactly which rows go

  /** The row's column holds this key. */
  predicate Names(db: Db, k: Key, c: Column, target: Key) {
    k in db && c in db[k].refs && db[k].refs[c] == target
  }

  /** The row's column leads to a row whose own column holds this key. */
  predicate Leads(db: Db, k: Key, c: Column, d: Column, target: Key) {
    k in db && c in db[k].refs && Names(db, db[k].refs[c], d, target)
  }

  predicate LeadsOn(db: Db, k: Key, b: Column, c: Column, d: Column, target: Key) {
    k in db && b in db[k].refs && Leads(db, db[k].refs[b], c, d, target)
  }

  /** Program, its links and files, people's parts in it, deployments and identifiers: each by the Event it leads to. */
  lemma ProgramGoesExactly(db: Db, e: Key, k: Key)
    requires k in db
    ensures k.table == Presentations ==> (k !in Final(db, e) <==> Names(db, k, PRESENTATION_EVENT, e))
    ensures k.table == Versions ==> (k !in Final(db, e) <==> Leads(db, k, VERSION_PRESENTATION, PRESENTATION_EVENT, e))
    ensures k.table == Assets ==> (k !in Final(db, e) <==> LeadsOn(db, k, ASSET_VERSION, VERSION_PRESENTATION, PRESENTATION_EVENT, e))
    ensures k.table == Presenters ==> (k !in Final(db, e) <==> Leads(db, k, PRESENTER_PRESENTATION, PRESENTATION_EVENT, e))
    ensures k.table == PresentationSessions ==> (k !in Final(db, e) <==> Leads(db, k, LINK_PRESENTATION, PRESENTATION_EVENT, e))
    ensures k.table == Sessions ==> (k !in Final(db, e) <==> Names(db, k, SESSION_EVENT, e))
    ensures k.table == Participations ==> (k !in Final(db, e) <==> Names(db, k, PARTICIPATION_EVENT, e))
    ensures k.table == SessionParticipants ==> (k !in Final(db, e) <==>
      Leads(db, k, PARTICIPANT_SESSION, SESSION_EVENT, e) || Leads(db, k, PARTICIPANT_PARTICIPATION, PARTICIPATION_EVENT, e))
    ensures k.table == EventDeployments ==> (k !in Final(db, e) <==> Names(db, k, DEPLOYMENT_EVENT, e))
    ensures k.table == DeploymentRevisions ==> (k !in Final(db, e) <==> Leads(db, k, REVISION_DEPLOYMENT, DEPLOYMENT_EVENT, e))
    ensures k.table == ExternalIds ==> (k !in Final(db, e) <==> Names(db, k, EXTERNAL_EVENT, e))
  {}

  /** Imports: a batch with its rows, issues and decisions, and a source that served this Event's batches only. */
  lemma ImportsGoExactly(db: Db, e: Key, k: Key)
    requires k in db
    ensures k.table == Batches ==> (k !in Final(db, e) <==> Names(db, k, BATCH_EVENT, e))
    ensures k.table == ImportRows ==> (k !in Final(db, e) <==> Leads(db, k, ROW_BATCH, BATCH_EVENT, e))
    ensures k.table == Issues ==> (k !in Final(db, e) <==> LeadsOn(db, k, ISSUE_ROW, ROW_BATCH, BATCH_EVENT, e))
    ensures k.table == Decisions ==> (k !in Final(db, e) <==> LeadsOn(db, k, DECISION_ROW, ROW_BATCH, BATCH_EVENT, e))
    ensures k.table == Sources ==> (k !in Final(db, e) <==>
      && (exists b :: Names(db, b, BATCH_SOURCE, k) && Names(db, b, BATCH_EVENT, e))
      && (forall b :: Names(db, b, BATCH_SOURCE, k) ==> Names(db, b, BATCH_EVENT, e)))
  {
    if k.table == Sources { SourceGoesExactly(db, e, k); }
  }

  lemma SourceGoesExactly(db: Db, e: Key, s: Key)
    ensures s in OrphanedBy(db, BatchesOf(db, e)) <==>
      && (exists b :: Names(db, b, BATCH_SOURCE, s) && Names(db, b, BATCH_EVENT, e))
      && (forall b :: Names(db, b, BATCH_SOURCE, s) ==> Names(db, b, BATCH_EVENT, e))
  {
    forall b
      ensures b in Having(db, BATCH_SOURCE, {s}) <==> Names(db, b, BATCH_SOURCE, s)
      ensures b in BatchesOf(db, e) <==> Names(db, b, BATCH_EVENT, e)
    {}
    if exists b :: Names(db, b, BATCH_SOURCE, s) && Names(db, b, BATCH_EVENT, e) {
      var b :| Names(db, b, BATCH_SOURCE, s) && Names(db, b, BATCH_EVENT, e);
      assert b in BatchesOf(db, e) && db[b].refs[BATCH_SOURCE] == s;
      assert s in Named(db, BATCH_SOURCE, BatchesOf(db, e));
    }
    if s in Named(db, BATCH_SOURCE, BatchesOf(db, e)) {
      var b :| b in BatchesOf(db, e) && b in db && BATCH_SOURCE in db[b].refs && db[b].refs[BATCH_SOURCE] == s;
      assert Names(db, b, BATCH_SOURCE, s) && Names(db, b, BATCH_EVENT, e);
    }
  }

  /** Media traffic: uploads and receive sessions of the Event, the transfer jobs its uploads name, and the jobs of removed media. */
  lemma TrafficGoesExactly(db: Db, e: Key, k: Key)
    requires Schema(db, e) && k in db
    ensures k.table == MediaImports ==> (k !in Final(db, e) <==> Names(db, k, IMPORT_EVENT, e))
    ensures k.table == ReceiveSessions ==> (k !in Final(db, e) <==> Names(db, k, RECEIVE_EVENT, e))
    ensures k.table == MediaBatches ==> (k !in Final(db, e) <==> Names(db, k, MEDIA_BATCH_EVENT, e))
    ensures k.table == TransferJobs ==> (k !in Final(db, e) <==>
      || (exists i :: Names(db, i, IMPORT_EVENT, e) && Names(db, i, IMPORT_TRANSFER, k))
      || (TRANSFER_MEDIA in db[k].refs && db[k].refs[TRANSFER_MEDIA] !in Final(db, e)))
    ensures k.table == ProcessingJobs ==> (k !in Final(db, e) <==> JOB_MEDIA in db[k].refs && db[k].refs[JOB_MEDIA] !in Final(db, e))
  {
    hide Typed, FkValid, Complete, ColumnsOf, Collected, Kept;
    if k.table == TransferJobs || k.table == ProcessingJobs {
      var c := if k.table == TransferJobs then TRANSFER_MEDIA else JOB_MEDIA;
      MediaOf(db, e, k, c);
      ImportJobsExactly(db, e, k);
    }
  }

  lemma ImportJobsExactly(db: Db, e: Key, k: Key)
    ensures k in ImportJobsOf(db, e) <==> exists i :: Names(db, i, IMPORT_EVENT, e) && Names(db, i, IMPORT_TRANSFER, k)
  {
    if i :| Names(db, i, IMPORT_EVENT, e) && Names(db, i, IMPORT_TRANSFER, k) {
      assert i in Having(db, IMPORT_EVENT, {e}) && db[i].refs[IMPORT_TRANSFER] == k;
    }
    if k in ImportJobsOf(db, e) {
      var i :| i in Having(db, IMPORT_EVENT, {e}) && i in db && IMPORT_TRANSFER in db[i].refs && db[i].refs[IMPORT_TRANSFER] == k;
      assert Names(db, i, IMPORT_EVENT, e) && Names(db, i, IMPORT_TRANSFER, k);
    }
  }

  lemma MediaOf(db: Db, e: Key, k: Key, c: Column)
    requires Schema(db, e) && k in db && (c == TRANSFER_MEDIA || c == JOB_MEDIA)
    ensures c in db[k].refs ==> (db[k].refs[c] in Collected(db, e) <==> db[k].refs[c] !in Final(db, e))
  {
    hide ColumnsOf, Collected, Kept, DoomedIn, Typed, Complete;
    AssetsAreAssets(db, e);
    if c in db[k].refs { TypedRef(db, k, c); }
  }

  /** Which media the deletion looks at and counts: named by an asset of the Event, or the Event's own. */
  lemma ConsideredExactly(db: Db, e: Key, m: Key)
    ensures m in Considered(db, e) <==>
      || (exists a :: Names(db, a, ASSET_MEDIA, m) && LeadsOn(db, a, ASSET_VERSION, VERSION_PRESENTATION, PRESENTATION_EVENT, e))
      || Names(db, m, REPLICA_EVENT, e)
  {
    forall a
      ensures a in AssetsOf(db, e) <==> LeadsOn(db, a, ASSET_VERSION, VERSION_PRESENTATION, PRESENTATION_EVENT, e)
    {}
    if a :| Names(db, a, ASSET_MEDIA, m) && LeadsOn(db, a, ASSET_VERSION, VERSION_PRESENTATION, PRESENTATION_EVENT, e) {
      assert db[a].refs[ASSET_MEDIA] in Named(db, ASSET_MEDIA, AssetsOf(db, e));
    }
    if m in Named(db, ASSET_MEDIA, AssetsOf(db, e)) {
      var a :| a in AssetsOf(db, e) && a in db && ASSET_MEDIA in db[a].refs && db[a].refs[ASSET_MEDIA] == m;
      assert Names(db, a, ASSET_MEDIA, m);
    }
  }

  /** The deletion can be made exactly if every row that stays has what its restricting columns name still there. */
  lemma UnobstructedExactly(db: Db, e: Key)
    requires FkValid(db)
    ensures Unobstructed(db, e) <==>
      forall k, c :: k in Final(db, e) && c in db[k].refs && c.rule == Restrict && c != REPLICA_EVENT ==> db[k].refs[c] in Final(db, e)
  {
    hide DoomedIn, Kept;
    if Unobstructed(db, e) {
      forall k, c | k in Final(db, e) && c in db[k].refs && c.rule == Restrict && c != REPLICA_EVENT
        ensures db[k].refs[c] in Final(db, e)
      {
        assert !Obstacle(db, e, k, c);
      }
    }
  }

  /** The Event's own row goes; people and transport, history and audit rows never do. */
  lemma OthersStay(db: Db, e: Key, k: Key)
    requires k in db
    ensures k.table == Events ==> (k !in Final(db, e) <==> k == e)
    ensures k.table in {Persons, SyncEvents, OutboxEvents, Signals, Links, Histories, AuditRecords} ==> k in Final(db, e)
  {}

  /** A row that stays keeps everything but its link to the Event itself, or to an upload batch that goes with it. */
  lemma KeptExactly(db: Db, e: Key, k: Key, c: Column)
    requires k in Final(db, e)
    ensures var row, row' := db[k], Final(db, e)[k];
      && row'.data == row.data && (c in row'.refs ==> c in row.refs && row'.refs[c] == row.refs[c])
      && (c in row.refs && c !in row'.refs <==>
            || ((c == SYNC_EVENT || c == OUTBOX_EVENT || c == REPLICA_EVENT) && Names(db, k, c, e))
            || (c == IMPORT_MEDIA_BATCH && Leads(db, k, c, MEDIA_BATCH_EVENT, e)))
  {}

  // ---------------------------------------------------------------- which data let it commit

  /** The Event a row of the program belongs to, through its own columns. */
  function EventOf(db: Db, k: Key): Option<Key> {
    match k.table
    case Sessions => Ref(db, k, SESSION_EVENT)
    case Participations => Ref(db, k, PARTICIPATION_EVENT)
    case Presentations => Ref(db, k, PRESENTATION_EVENT)
    case MediaImports => Ref(db, k, IMPORT_EVENT)
    case ReceiveSessions => Ref(db, k, RECEIVE_EVENT)
    case Versions => EventOfPresentation(db, Ref(db, k, VERSION_PRESENTATION))
    case PresentationSessions => EventOfPresentation(db, Ref(db, k, LINK_PRESENTATION))
    case Presenters => EventOfPresentation(db, Ref(db, k, PRESENTER_PRESENTATION))
    case Assets => EventOfVersion(db, Ref(db, k, ASSET_VERSION))
    case _ => None
  }

  function Ref(db: Db, k: Key, c: Column): Option<Key> {
    if k in db && c in db[k].refs then Some(db[k].refs[c]) else None
  }

  function EventOfPresentation(db: Db, p: Option<Key>): Option<Key> {
    if p.None? then None else Ref(db, p.value, PRESENTATION_EVENT)
  }

  function EventOfVersion(db: Db, v: Option<Key>): Option<Key> {
    if v.None? then None else EventOfPresentation(db, Ref(db, v.value, VERSION_PRESENTATION))
  }

  const LINKS := {PRESENTATION_SESSION, LINK_SESSION, PRESENTER_PARTICIPATION, ASSET_SOURCE,
                  IMPORT_PRESENTATION, IMPORT_VERSION, RECEIVE_PRESENTATION, RECEIVE_VERSION}

  /** Links of the program, its uploads and its files stay inside one Event. */
  ghost predicate LinkedWithinEvents(db: Db) {
    forall k, c :: k in db && c in db[k].refs && c in LINKS ==> EventOf(db, k) == EventOf(db, db[k].refs[c])
  }

  /** Two imports share a transfer job only inside one Event. */
  ghost predicate TransfersWithinEvents(db: Db) {
    forall j, k :: Ref(db, j, IMPORT_TRANSFER).Some? && Ref(db, j, IMPORT_TRANSFER) == Ref(db, k, IMPORT_TRANSFER) ==>
      EventOf(db, j) == EventOf(db, k)
  }

  ghost predicate NamedInEvent(db: Db, m: Key, e: Option<Key>) {
    exists a :: a in Having(db, ASSET_MEDIA, {m}) && EventOf(db, a) == e
  }

  /** A finished upload's media object is named by an asset of the upload's own Event. */
  ghost predicate UploadsNamed(db: Db) {
    && (forall k :: k in db && RECEIVE_MEDIA in db[k].refs ==> NamedInEvent(db, db[k].refs[RECEIVE_MEDIA], EventOf(db, k)))
    && (forall k, j :: j in db && TRANSFER_MEDIA in db[j].refs && Ref(db, k, IMPORT_TRANSFER) == Some(j) ==>
          NamedInEvent(db, db[j].refs[TRANSFER_MEDIA], EventOf(db, k)))
  }

  const OWNED := {Sessions, Participations, Presentations, MediaImports, ReceiveSessions, Versions, PresentationSessions, Presenters, Assets}

  lemma DoomedByOwner(db: Db, e: Key, k: Key)
    requires k in db && k.table in OWNED
    ensures IsDoomed(db, e, k) <==> EventOf(db, k) == Some(e)
  {}

  /** Whatever refers to a doomed row in one of these columns is doomed too. */
  lemma DoomFollows(db: Db, e: Key, k: Key, c: Column)
    requires Schema(db, e) && k in db && c in db[k].refs && IsDoomed(db, e, db[k].refs[c])
    requires c in {REVISION_DEPLOYMENT, PARTICIPANT_SESSION, PARTICIPANT_PARTICIPATION, LINK_PRESENTATION, PRESENTER_PRESENTATION,
                   VERSION_PRESENTATION, ASSET_VERSION, ROW_BATCH, DECISION_ROW, JOB_MEDIA, TRANSFER_MEDIA}
    ensures IsDoomed(db, e, k)
  {
    hide Typed, FkValid, Complete, Having, PresentationsOf, Collected, ImportJobsOf, BatchesOf;
    TypedRef(db, k, c);
    InDoomedHaving(db, e, k, c, DoomedIn(db, e, c.target));
  }

  lemma AssetObstacle(db: Db, e: Key, k: Key)
    requires Schema(db, e) && k in db && ASSET_MEDIA in db[k].refs && IsDoomed(db, e, db[k].refs[ASSET_MEDIA])
    ensures IsDoomed(db, e, k)
  {
    hide Typed, FkValid, Complete, AssetsOf, Considered, DoomedIn;
    var m := db[k].refs[ASSET_MEDIA];
    TypedRef(db, k, ASSET_MEDIA);
    AssetsAreAssets(db, e);
    assert k !in AssetsOf(db, e) ==> m in NamedBySurvivors(db, e);
  }

  lemma BatchObstacle(db: Db, e: Key, k: Key)
    requires Schema(db, e) && k in db && BATCH_SOURCE in db[k].refs && IsDoomed(db, e, db[k].refs[BATCH_SOURCE])
    ensures IsDoomed(db, e, k)
  {
    hide Typed, FkValid, Complete, BatchesOf, Named;
    TypedRef(db, k, BATCH_SOURCE);
    assert k in Having(db, BATCH_SOURCE, {db[k].refs[BATCH_SOURCE]});
  }

  /** The only columns that can ever hold a deletion up. */
  lemma ObstacleColumns(db: Db, e: Key, k: Key, c: Column)
    requires Schema(db, e) && Obstacle(db, e, k, c)
    ensures c in LINKS || c == IMPORT_TRANSFER || c == RECEIVE_MEDIA
  {
    hide DoomedIn, ColumnsOf, FkValid, Complete, IsDoomed, ReferringColumns;
    var target := db[k].refs[c];
    PersonsAreSafe(db, e, target);
    if c.target == Events {
      EventObstacle(db, e, k, c);
    } else if c.target != Persons {
      ReferringColumnsAreAll(c);
      if c == ASSET_MEDIA { AssetObstacle(db, e, k); }
      else if c == BATCH_SOURCE { BatchObstacle(db, e, k); }
      else { OtherColumns(c); if c !in LINKS && c != IMPORT_TRANSFER && c != RECEIVE_MEDIA { DoomFollows(db, e, k, c); } }
    }
  }

  lemma OtherColumns(c: Column)
    requires c in ReferringColumns(c.target) && c.rule == Restrict && c != ASSET_MEDIA && c != BATCH_SOURCE
    ensures c in LINKS || c == IMPORT_TRANSFER || c == RECEIVE_MEDIA ||
            c in {REVISION_DEPLOYMENT, PARTICIPANT_SESSION, PARTICIPANT_PARTICIPATION, LINK_PRESENTATION, PRESENTER_PRESENTATION,
                  VERSION_PRESENTATION, ASSET_VERSION, ROW_BATCH, DECISION_ROW, JOB_MEDIA, TRANSFER_MEDIA}
  {}

  lemma PersonsAreSafe(db: Db, e: Key, p: Key)
    ensures IsDoomed(db, e, p) ==> p.table != Persons
    ensures IsDoomed(db, e, p) && p.table == Events ==> p == e
  {}

  lemma EventObstacle(db: Db, e: Key, k: Key, c: Column)
    requires Schema(db, e) && k in db && c in db[k].refs && c.rule == Restrict && c.target == Events && db[k].refs[c] == e && c != REPLICA_EVENT
    ensures IsDoomed(db, e, k)
  {
    hide ColumnsOf, FkValid, Complete, DoomedIn;
    NamersAreDoomed(db, e, c);
  }

  lemma LinkIsNoObstacle(db: Db, e: Key, k: Key, c: Column)
    requires Schema(db, e) && LinkedWithinEvents(db) && k in db && c in db[k].refs && c in LINKS && IsDoomed(db, e, db[k].refs[c])
    ensures IsDoomed(db, e, k)
  {
    hide DoomedIn, ColumnsOf, FkValid, Complete, IsDoomed, EventOf;
    var target := db[k].refs[c];
    LinkTables(c);
    assert target in db by { assert c.rule == Restrict; DoomedIsThere(db, e, target); }
    DoomedByOwner(db, e, target);
    DoomedByOwner(db, e, k);
  }

  lemma DoomedIsThere(db: Db, e: Key, k: Key)
    requires IsDoomed(db, e, k)
    ensures k in db
  {}

  lemma LinkTables(c: Column)
    requires c in LINKS
    ensures c.home in OWNED && c.target in OWNED && c.rule == Restrict
  {}

  lemma NamedMediaIsKept(db: Db, e: Key, m: Key, k: Key)
    requires Schema(db, e) && k in db && k.table in OWNED && !IsDoomed(db, e, k) && NamedInEvent(db, m, EventOf(db, k))
    ensures m !in Collected(db, e)
  {
    hide DoomedIn, ColumnsOf, FkValid, Complete, IsDoomed, EventOf, Considered, AssetsOf;
    var a :| a in Having(db, ASSET_MEDIA, {m}) && EventOf(db, a) == EventOf(db, k);
    DoomedByOwner(db, e, a);
    DoomedByOwner(db, e, k);
    DoomedInIsDoomed(db, e, Assets);
    assert DoomedIn(db, e, Assets) == AssetsOf(db, e) by { AssetsAreAssets(db, e); }
    assert a in AllOf(db, Assets) - AssetsOf(db, e);
  }

  lemma AssetsAreAssets(db: Db, e: Key)
    ensures DoomedIn(db, e, Assets) == AssetsOf(db, e) && DoomedIn(db, e, Replicas) == Collected(db, e)
    ensures DoomedIn(db, e, TransferJobs) == ImportJobsOf(db, e) + Having(db, TRANSFER_MEDIA, Collected(db, e))
  {}

  lemma TransferIsNoObstacle(db: Db, e: Key, k: Key)
    requires Schema(db, e) && TransfersWithinEvents(db) && UploadsNamed(db)
    requires k in db && IMPORT_TRANSFER in db[k].refs && IsDoomed(db, e, db[k].refs[IMPORT_TRANSFER])
    ensures IsDoomed(db, e, k)
  {
    hide DoomedIn, ColumnsOf, FkValid, Complete, EventOf, Collected, NamedInEvent;
    var j := db[k].refs[IMPORT_TRANSFER];
    AssetsAreAssets(db, e);
    assert k.table == MediaImports && j.table == TransferJobs;
    DoomedByOwner(db, e, k);
    if j in ImportJobsOf(db, e) {
      var other :| other in Having(db, IMPORT_EVENT, {e}) && other in db && IMPORT_TRANSFER in db[other].refs && db[other].refs[IMPORT_TRANSFER] == j;
      ImportOwner(db, e, other);
    } else if !IsDoomed(db, e, k) {
      NamedMediaIsKept(db, e, db[j].refs[TRANSFER_MEDIA], k);
    }
  }

  lemma ImportOwner(db: Db, e: Key, k: Key)
    requires Typed(db) && k in Having(db, IMPORT_EVENT, {e})
    ensures EventOf(db, k) == Some(e)
  {
    hide ColumnsOf;
  }

  lemma ReceiveIsNoObstacle(db: Db, e: Key, k: Key)
    requires Schema(db, e) && UploadsNamed(db) && k in db && RECEIVE_MEDIA in db[k].refs && IsDoomed(db, e, db[k].refs[RECEIVE_MEDIA])
    ensures IsDoomed(db, e, k)
  {
    hide DoomedIn, ColumnsOf, FkValid, Complete, EventOf, Collected, NamedInEvent;
    AssetsAreAssets(db, e);
    assert k.table == ReceiveSessions && db[k].refs[RECEIVE_MEDIA].table == Replicas;
    if !IsDoomed(db, e, k) {
      NamedMediaIsKept(db, e, db[k].refs[RECEIVE_MEDIA], k);
    }
  }

  /** If program, files and uploads stay inside one Event each, any Event can be deleted. */
  lemma LinkedDataDeletes(db: Db, e: Key)
    requires Schema(db, e) && LinkedWithinEvents(db) && TransfersWithinEvents(db) && UploadsNamed(db)
    ensures Unobstructed(db, e)
  {
    hide Schema, LinkedWithinEvents, TransfersWithinEvents, UploadsNamed, IsDoomed;
    forall k, c
      ensures !Obstacle(db, e, k, c)
    {
      if Obstacle(db, e, k, c) {
        ObstacleColumns(db, e, k, c);
        if c == IMPORT_TRANSFER { TransferIsNoObstacle(db, e, k); }
        else if c == RECEIVE_MEDIA { ReceiveIsNoObstacle(db, e, k); }
        else { LinkIsNoObstacle(db, e, k, c); }
      }
    }
  }

  /** A presentation or link of another Event that names one of this Event's sessions holds its deletion up. */
  lemma CrossEventSessionBlocks(db: Db, e: Key, k: Key, c: Column)
    requires Schema(db, e) && k in db && (c == PRESENTATION_SESSION || c == LINK_SESSION) && c in db[k].refs
    requires EventOf(db, db[k].refs[c]) == Some(e) && EventOf(db, k) != Some(e)
    ensures !Unobstructed(db, e)
  {
    hide DoomedIn, ColumnsOf, Complete, IsDoomed, EventOf;
    DoomedByOwner(db, e, k);
    DoomedByOwner(db, e, db[k].refs[c]);
    assert Obstacle(db, e, k, c);
  }

  // ---------------------------------------------------------------- two Events sharing a session

  const SPRING := Key(Events, 1)
  const AUTUMN := Key(Events, 2)
  const KEYNOTE := Key(Sessions, 3)
  const SLIDES := Key(Presentations, 4)

  /** The slides of one Event hang on the session of the other. */
  const SHARED: Db := map[
    SPRING := Row(map[], 0),
    AUTUMN := Row(map[], 0),
    KEYNOTE := Row(map[SESSION_EVENT := SPRING], 0),
    SLIDES := Row(map[PRESENTATION_EVENT := AUTUMN, PRESENTATION_SESSION := KEYNOTE], 0)]

  lemma SharedColumns(k: Key, c: Column)
    requires k in SHARED
    ensures k.table == Events ==> ColumnsOf(k.table) == {}
    ensures k.table == Sessions ==> ColumnsOf(k.table) == {SESSION_EVENT}
    ensures k.table == Presentations ==> ColumnsOf(k.table) == {PRESENTATION_EVENT, PRESENTATION_SESSION}
  {}

  lemma SharedFitsSchema()
    ensures Schema(SHARED, SPRING) && Schema(SHARED, AUTUMN)
  {
    RowsFitSchema(SHARED);
  }

  lemma RowsFitSchema(db: Db)
    requires db == SHARED
    ensures Typed(db) && FkValid(db) && Complete(db)
  {
    hide ColumnsOf, SHARED;
    forall k, c | k in db && c in db[k].refs
      ensures c.home == k.table && c in ColumnsOf(k.table) && db[k].refs[c].table == c.target && db[k].refs[c] in db
    {
      SharedRow(k, c);
    }
    forall k, c | k in db && c in ColumnsOf(k.table) && c.required
      ensures c in db[k].refs
    {
      SharedRow(k, c);
    }
  }

  lemma SharedRow(k: Key, c: Column)
    requires k in SHARED
    ensures c in SHARED[k].refs ==> c.home == k.table && c in ColumnsOf(k.table) && SHARED[k].refs[c].table == c.target && SHARED[k].refs[c] in SHARED
    ensures c in ColumnsOf(k.table) && c.required ==> c in SHARED[k].refs
  {
    hide ColumnsOf;
    SharedColumns(k, c);
  }

  /** The spring Event cannot be deleted while the autumn one holds on to its session; the autumn one can. */
  lemma SharedSessionBlocksOneEvent()
    ensures !Unobstructed(SHARED, SPRING) && Unobstructed(SHARED, AUTUMN)
  {
    hide Schema, IsDoomed;
    SharedFitsSchema();
    CrossEventSessionBlocks(SHARED, SPRING, SLIDES, PRESENTATION_SESSION);
    KeynoteStays();
    forall k, c
      ensures !Obstacle(SHARED, AUTUMN, k, c)
    {
      if Obstacle(SHARED, AUTUMN, k, c) { ObstacleColumns(SHARED, AUTUMN, k, c); }
    }
  }

  lemma KeynoteStays()
    ensures !IsDoomed(SHARED, AUTUMN, KEYNOTE)
  {
    hide ColumnsOf;
    DoomedByOwner(SHARED, AUTUMN, KEYNOTE);
  }
}
