/**
 The whole stream between Central and one Site: many deployments share one numbered
 outbox and one numbered report log. The network may lose, repeat and reorder what it
 carries; each side consumes number n + 1 after number n and nothing else. The Site takes
 a pulled batch in one transaction: all of it or nothing.

 Each deployment, looked at alone, runs exactly as a DeploymentLane, until its deletion
 reaches the Site.
 */
module SiteStream {
  import opened Wrappers
  import opened Deployments
  import opened SiteProjection
  import L = DeploymentLane

  type DeploymentId = nat

  datatype Item = ForDeployment(id: DeploymentId, row: Row) | Tombstone(id: DeploymentId) | Setting

  datatype Tagged = Tagged(id: DeploymentId, report: Report)

  /**
   outbox[k] has sequence k + 1; pulled and heard are the two receivers' cursors. retired keeps
   the last records of deleted deployments for the proofs; no step reads it.
   */
  datatype System = System(deployments: map<DeploymentId, Deployment>, retired: map<DeploymentId, Deployment>,
                           outbox: seq<Item>, pulled: nat, projections: map<DeploymentId, Projection>,
                           log: seq<Tagged>, heard: nat)

  /** One envelope of a pulled batch. usable: whether a snapshot can be written into the Site's tables. */
  datatype Offer = Offer(k: nat, usable: bool)

  datatype Step =
    | Create(id: DeploymentId)
    | Administer(id: DeploymentId, op: Op)
    | Delete(id: DeploymentId)
    | ChangeSetting
    | DeliverItems(batch: seq<Offer>)
    | DeliverReport(k: nat)

  const EMPTY := System(map[], map[], [], 0, map[], [], 0)

  // ---------------------------------------------------------------- views

  function RowsOf(items: seq<Item>, id: DeploymentId): seq<Row> {
    if items == [] then []
    else
      var last := items[|items| - 1];
      RowsOf(items[..|items| - 1], id) + (if last.ForDeployment? && last.id == id then [last.row] else [])
  }

  function ReportsOf(log: seq<Tagged>, id: DeploymentId): seq<Report> {
    if log == [] then []
    else
      var last := log[|log| - 1];
      ReportsOf(log[..|log| - 1], id) + (if last.id == id then [last.report] else [])
  }

  function Tag(id: DeploymentId, reports: seq<Report>): seq<Tagged> {
    seq(|reports|, i requires 0 <= i < |reports| => Tagged(id, reports[i]))
  }

  /** The Site's state for one deployment; report keys carry the deployment's identity. */
  function SiteOf(s: System, id: DeploymentId): Site {
    Site(if id in s.projections then Some(s.projections[id]) else None, ReportsOf(s.log, id))
  }

  predicate TombstoneAhead(s: System, id: DeploymentId) {
    exists k :: s.pulled <= k < |s.outbox| && s.outbox[k] == Tombstone(id)
  }

  /** Live at Central, or deleted there while the Site has yet to consume the tombstone. */
  predicate Tracked(s: System, id: DeploymentId) {
    id in s.deployments || (id in s.retired && TombstoneAhead(s, id))
  }

  function LaneOf(s: System, id: DeploymentId): L.Lane
    requires Tracked(s, id) && s.pulled <= |s.outbox| && s.heard <= |s.log|
  {
    L.Lane(if id in s.deployments then s.deployments[id] else s.retired[id],
           RowsOf(s.outbox, id), |RowsOf(s.outbox[..s.pulled], id)|,
           SiteOf(s, id), |ReportsOf(s.log[..s.heard], id)|)
  }

  // ---------------------------------------------------------------- steps

  ghost predicate Mentioned(s: System, id: DeploymentId) {
    || id in s.deployments || id in s.projections
    || (exists k :: 0 <= k < |s.outbox| && s.outbox[k] != Setting && s.outbox[k].id == id)
    || (exists k :: 0 <= k < |s.log| && s.log[k].id == id)
  }

  function ConsumeItem(s: System, item: Item, usable: bool): Option<System> {
    match item
    case Setting => Some(s.(pulled := s.pulled + 1))
    case Tombstone(id) => Some(s.(pulled := s.pulled + 1, projections := s.projections - {id}))
    case ForDeployment(id, row) =>
      match ApplyRow(SiteOf(s, id), row, usable)
      case Aborted => None
      case Done(site) => Some(StoreSite(s, id, site).(pulled := s.pulled + 1))
  }

  /** A lower number is a duplicate and accepted without effect; a higher one is a gap and undoes the batch. */
  function Take(s: System, offer: Offer): Option<System> {
    if offer.k < s.pulled then Some(s)
    else if offer.k > s.pulled || offer.k >= |s.outbox| then None
    else ConsumeItem(s, s.outbox[offer.k], offer.usable)
  }

  function TakeAll(s: System, batch: seq<Offer>): Option<System>
    decreases |batch|
  {
    if batch == [] then Some(s)
    else match TakeAll(s, batch[..|batch| - 1])
      case None => None
      case Some(mid) => Take(mid, batch[|batch| - 1])
  }

  /** Write one deployment's new Site state back, queueing the reports it added. */
  function StoreSite(s: System, id: DeploymentId, site: Site): System {
    var before := |SiteOf(s, id).log|;
    var added := if before <= |site.log| then site.log[before..] else [];
    s.(projections := if site.projection.Some? then s.projections[id := site.projection.value] else s.projections,
       log := s.log + Tag(id, added))
  }

  ghost function Next(s: System, step: Step): System {
    match step
    case Create(id) =>
      if Mentioned(s, id) then s
      else
        var h := Deployments.Created();
        s.(deployments := s.deployments[id := h.deployment], outbox := s.outbox + [ForDeployment(id, h.rows[0])])
    case Administer(id, op) =>
      if id !in s.deployments || op.DoReport? then s
      else (match Perform(s.deployments[id], op)
            case None => s
            case Some((d, row)) =>
              s.(deployments := s.deployments[id := d], outbox := s.outbox + [ForDeployment(id, row)]))
    case Delete(id) =>
      if id !in s.deployments then s
      else s.(deployments := s.deployments - {id}, retired := s.retired[id := s.deployments[id]],
              outbox := s.outbox + [Tombstone(id)])
    case ChangeSetting => s.(outbox := s.outbox + [Setting])
    case DeliverItems(batch) => if TakeAll(s, batch).Some? then TakeAll(s, batch).value else s
    case DeliverReport(k) =>
      if k != s.heard || k >= |s.log| || s.log[k].id !in s.deployments then s
      else
        var Tagged(id, report) := s.log[k];
        s.(deployments := s.deployments[id := ApplyReport(s.deployments[id], report)], heard := s.heard + 1)
  }

  ghost function Run(s: System, steps: seq<Step>): System
    decreases |steps|
  {
    if steps == [] then s else Next(Run(s, steps[..|steps| - 1]), steps[|steps| - 1])
  }

  // ---------------------------------------------------------------- filter lemmas

  lemma {:induction false} RowsOfConcat(a: seq<Item>, b: seq<Item>, id: DeploymentId)
    ensures RowsOf(a + b, id) == RowsOf(a, id) + RowsOf(b, id)
    decreases |b|
  {
    if b == [] {
      assert a + b == a;
    } else {
      RowsOfConcat(a, b[..|b| - 1], id);
      assert (a + b)[..|a + b| - 1] == a + b[..|b| - 1];
    }
  }

  lemma {:induction false} ReportsOfConcat(a: seq<Tagged>, b: seq<Tagged>, id: DeploymentId)
    ensures ReportsOf(a + b, id) == ReportsOf(a, id) + ReportsOf(b, id)
    decreases |b|
  {
    if b == [] {
      assert a + b == a;
    } else {
      ReportsOfConcat(a, b[..|b| - 1], id);
      assert (a + b)[..|a + b| - 1] == a + b[..|b| - 1];
    }
  }

  lemma {:induction false} ReportsOfTag(id: DeploymentId, reports: seq<Report>, other: DeploymentId)
    ensures ReportsOf(Tag(id, reports), other) == if other == id then reports else []
    decreases |reports|
  {
    if reports != [] {
      ReportsOfTag(id, reports[..|reports| - 1], other);
      assert Tag(id, reports)[..|reports| - 1] == Tag(id, reports[..|reports| - 1]);
    }
  }

  lemma RowsOfSplit(items: seq<Item>, k: nat, id: DeploymentId)
    requires k < |items|
    ensures var own := items[k].ForDeployment? && items[k].id == id;
      && RowsOf(items[..k + 1], id) == RowsOf(items[..k], id) + (if own then [items[k].row] else [])
      && |RowsOf(items[..k + 1], id)| <= |RowsOf(items, id)|
      && (own ==> RowsOf(items, id)[|RowsOf(items[..k], id)|] == items[k].row)
  {
    assert items[..k + 1][..k] == items[..k];
    assert items == items[..k + 1] + items[k + 1..];
    RowsOfConcat(items[..k + 1], items[k + 1..], id);
  }

  lemma ReportsOfSplit(log: seq<Tagged>, k: nat, id: DeploymentId)
    requires k < |log|
    ensures ReportsOf(log[..k + 1], id) == ReportsOf(log[..k], id) + (if log[k].id == id then [log[k].report] else [])
    ensures |ReportsOf(log[..k + 1], id)| <= |ReportsOf(log, id)|
    ensures log[k].id == id ==> ReportsOf(log, id)[|ReportsOf(log[..k], id)|] == log[k].report
  {
    assert log[..k + 1][..k] == log[..k];
    assert log == log[..k + 1] + log[k + 1..];
    ReportsOfConcat(log[..k + 1], log[k + 1..], id);
  }

  lemma {:induction false} UnmentionedHasNoRows(items: seq<Item>, id: DeploymentId)
    requires forall k :: 0 <= k < |items| && items[k] != Setting ==> items[k].id != id
    ensures RowsOf(items, id) == []
    decreases |items|
  {
    if items != [] {
      UnmentionedHasNoRows(items[..|items| - 1], id);
    }
  }

  lemma {:induction false} UnmentionedHasNoReports(log: seq<Tagged>, id: DeploymentId)
    requires forall k :: 0 <= k < |log| ==> log[k].id != id
    ensures ReportsOf(log, id) == []
    decreases |log|
  {
    if log != [] {
      UnmentionedHasNoReports(log[..|log| - 1], id);
    }
  }

  // ---------------------------------------------------------------- projection onto lanes

  ghost predicate Concerns(item: Item, id: DeploymentId) {
    item != Setting && item.id == id
  }

  ghost predicate WellFormed(s: System) {
    s.pulled <= |s.outbox| && s.heard <= |s.log| && Consistent(s)
  }

  /** Every row has its deployment's record, and a tombstone, one per deleted deployment, comes after its rows. */
  ghost predicate Consistent(s: System) {
    && s.deployments.Keys !! s.retired.Keys
    && (forall k :: 0 <= k < |s.outbox| && s.outbox[k].ForDeployment? ==> s.outbox[k].id in s.deployments || s.outbox[k].id in s.retired)
    && (forall k :: 0 <= k < |s.outbox| && s.outbox[k].Tombstone? ==> s.outbox[k].id in s.retired)
    && (forall j, k :: 0 <= j < k < |s.outbox| && s.outbox[j].Tombstone? ==> !Concerns(s.outbox[k], s.outbox[j].id))
    && (forall id :: id in s.retired ==> exists k :: 0 <= k < |s.outbox| && s.outbox[k] == Tombstone(id))
  }

  lemma TakeFrame(s: System, offer: Offer)
    requires Take(s, offer).Some?
    ensures var s' := Take(s, offer).value;
      && s' == s.(pulled := s'.pulled, projections := s'.projections, log := s'.log)
      && s'.pulled == (if offer.k == s.pulled then s.pulled + 1 else s.pulled) && s.pulled <= s'.pulled
      && (offer.k != s.pulled ==> s' == s) && (offer.k == s.pulled ==> offer.k < |s.outbox|)
      && |s.log| <= |s'.log| && s'.log[..|s.log|] == s.log
  {}

  lemma TakeKeepsWellFormed(s: System, offer: Offer)
    requires WellFormed(s) && Take(s, offer).Some?
    ensures WellFormed(Take(s, offer).value)
    ensures forall id :: Tracked(Take(s, offer).value, id) ==> Tracked(s, id)
  {
    hide Take;
    TakeFrame(s, offer);
  }

  lemma {:induction false} TakeAllKeepsWellFormed(s: System, batch: seq<Offer>)
    requires WellFormed(s) && TakeAll(s, batch).Some?
    ensures var s' := TakeAll(s, batch).value;
      && WellFormed(s') && s' == s.(pulled := s'.pulled, projections := s'.projections, log := s'.log) && s.pulled <= s'.pulled
      && |s.log| <= |s'.log| && s'.log[..|s.log|] == s.log
    ensures forall id :: Tracked(TakeAll(s, batch).value, id) ==> Tracked(s, id)
    decreases |batch|
  {
    hide Take, Consistent, Tracked;
    if batch != [] {
      var init := batch[..|batch| - 1];
      TakeAllKeepsWellFormed(s, init);
      var mid := TakeAll(s, init).value;
      TakeFrame(mid, batch[|batch| - 1]);
      TakeKeepsWellFormed(mid, batch[|batch| - 1]);
      var s' := TakeAll(s, batch).value;
      assert s'.log[..|mid.log|][..|s.log|] == s'.log[..|s.log|];
    }
  }

  lemma StepKeepsWellFormed(s: System, step: Step)
    requires WellFormed(s)
    ensures WellFormed(Next(s, step))
  {
    hide TakeAll, Consistent, Perform, Mentioned;
    match step
    case DeliverItems(batch) => if TakeAll(s, batch).Some? { TakeAllKeepsWellFormed(s, batch); }
    case Delete(id) => if id in s.deployments { DeleteKeepsWellFormed(s, id); }
    case DeliverReport(k) => ReportKeepsWellFormed(s, k);
    case ChangeSetting => SettingKeepsWellFormed(s);
    case Create(id) =>
      if !Mentioned(s, id) {
        UnmentionedIsNew(s, id);
        RowKeepsWellFormed(s, id, Deployments.Created().deployment, Deployments.Created().rows[0]);
      }
    case Administer(id, op) =>
      if id in s.deployments && !op.DoReport? && Perform(s.deployments[id], op).Some? {
        LiveIsNotRetired(s, id);
        var (d, row) := Perform(s.deployments[id], op).value;
        RowKeepsWellFormed(s, id, d, row);
      }
  }

  lemma LiveIsNotRetired(s: System, id: DeploymentId)
    requires WellFormed(s) && id in s.deployments
    ensures id !in s.retired
  {}

  lemma UnmentionedIsNew(s: System, id: DeploymentId)
    requires WellFormed(s) && !Mentioned(s, id)
    ensures id !in s.retired && id !in s.deployments
  {}

  lemma ReportKeepsWellFormed(s: System, k: nat)
    requires WellFormed(s)
    ensures WellFormed(Next(s, DeliverReport(k)))
  {}

  lemma SettingKeepsWellFormed(s: System)
    requires WellFormed(s)
    ensures WellFormed(Next(s, ChangeSetting))
  {
    TombstonesStay(s, Next(s, ChangeSetting));
  }

  lemma RowKeepsWellFormed(s: System, id: DeploymentId, d: Deployment, row: Row)
    requires WellFormed(s) && id !in s.retired
    ensures WellFormed(s.(deployments := s.deployments[id := d], outbox := s.outbox + [ForDeployment(id, row)]))
  {
    TombstonesStay(s, s.(outbox := s.outbox + [ForDeployment(id, row)]));
  }

  lemma TombstonesStay(s: System, s': System)
    requires WellFormed(s) && s.outbox <= s'.outbox
    ensures forall id :: id in s.retired ==> exists k :: 0 <= k < |s'.outbox| && s'.outbox[k] == Tombstone(id)
  {}

  lemma DeleteKeepsWellFormed(s: System, id: DeploymentId)
    requires WellFormed(s) && id in s.deployments
    ensures WellFormed(Next(s, Delete(id)))
  {
    var s' := Next(s, Delete(id));
    assert s'.outbox[|s.outbox|] == Tombstone(id);
    TombstonesStay(s, s');
  }

  /** How one offered envelope, and a whole batch, look from one deployment. */
  function LanePull(s: System, offer: Offer, id: DeploymentId): seq<L.Step> {
    if offer.k == s.pulled && offer.k < |s.outbox| && s.outbox[offer.k].ForDeployment? && s.outbox[offer.k].id == id
    then [L.Pull(offer.usable)] else []
  }

  function LanePulls(s: System, batch: seq<Offer>, id: DeploymentId): seq<L.Step>
    requires TakeAll(s, batch).Some?
    decreases |batch|
  {
    if batch == [] then []
    else
      var init := batch[..|batch| - 1];
      LanePulls(s, init, id) + LanePull(TakeAll(s, init).value, batch[|batch| - 1], id)
  }

  /** How one step of the system looks from a deployment that is tracked before and after it. */
  function LaneSteps(s: System, step: Step, id: DeploymentId): seq<L.Step> {
    match step
    case Administer(i, op) => if i == id && id in s.deployments then [L.Administer(op)] else []
    case DeliverItems(batch) => if TakeAll(s, batch).Some? then LanePulls(s, batch, id) else []
    case DeliverReport(k) =>
      if k == s.heard && k < |s.log| && s.log[k].id == id && id in s.deployments then [L.Hear] else []
    case _ => []
  }

  lemma RunNone(l: L.Lane)
    ensures L.Run(l, []) == l
  {}

  lemma RunOne(l: L.Lane, step: L.Step)
    ensures L.Run(l, [step]) == L.Next(l, step)
  {}

  /** The Site's side only ever appends to a deployment's own reports. */
  lemma ApplyRowAppends(site: Site, row: Row, usable: bool)
    ensures var outcome := ApplyRow(site, row, usable);
      outcome.Done? ==>
        && |site.log| <= |outcome.site.log| && outcome.site.log[..|site.log|] == site.log
        && (site.projection.Some? ==> outcome.site.projection.Some?)
  {}

  lemma StoreSiteIsLocal(s: System, id: DeploymentId, site: Site, other: DeploymentId)
    requires s.heard <= |s.log|
    requires |SiteOf(s, id).log| <= |site.log| && site.log[..|SiteOf(s, id).log|] == SiteOf(s, id).log
    requires site.projection.None? ==> id !in s.projections
    ensures var s' := StoreSite(s, id, site);
      && SiteOf(s', other) == (if other == id then site else SiteOf(s, other))
      && s.heard <= |s'.log| && s'.log[..s.heard] == s.log[..s.heard]
  {
    var added := site.log[|SiteOf(s, id).log|..];
    assert site.log == SiteOf(s, id).log + added;
    ReportsOfConcat(s.log, Tag(id, added), other);
    ReportsOfTag(id, added, other);
  }

  /** One envelope taken: each deployment still tracked makes its own pull, or nothing. */
  lemma TakeProjects(s: System, offer: Offer, id: DeploymentId)
    requires WellFormed(s) && Take(s, offer).Some? && Tracked(Take(s, offer).value, id)
    ensures var s' := Take(s, offer).value;
      WellFormed(s') && Tracked(s, id) && LaneOf(s', id) == L.Run(LaneOf(s, id), LanePull(s, offer, id))
  {
    TakeKeepsWellFormed(s, offer);
    RunNone(LaneOf(s, id));
    TakeFrame(s, offer);
    if offer.k == s.pulled {
      TakeNextProjects(s, offer.usable, id);
      RunOne(LaneOf(s, id), L.Pull(offer.usable));
    }
  }

  lemma TakeNextProjects(s: System, usable: bool, id: DeploymentId)
    requires WellFormed(s) && s.pulled < |s.outbox| && Take(s, Offer(s.pulled, usable)).Some?
    requires Tracked(s, id) && Tracked(Take(s, Offer(s.pulled, usable)).value, id)
    ensures var s', item := Take(s, Offer(s.pulled, usable)).value, s.outbox[s.pulled];
      && s'.pulled <= |s'.outbox| && s'.heard <= |s'.log|
      && LaneOf(s', id) == if item.ForDeployment? && item.id == id then L.Next(LaneOf(s, id), L.Pull(usable)) else LaneOf(s, id)
  {
    hide ApplyRow, RowsOf, ReportsOf, StoreSite, Consistent, Tracked, SiteOf;
    TakeFrame(s, Offer(s.pulled, usable));
    var s' := Take(s, Offer(s.pulled, usable)).value;
    RowsOfSplit(s.outbox, s.pulled, id);
    match s.outbox[s.pulled]
    case ForDeployment(i, row) =>
      var site := ApplyRow(SiteOf(s, i), row, usable).site;
      ApplyRowAppends(SiteOf(s, i), row, usable);
      SiteOfFacts(s, i);
      StoreSiteIsLocal(s, i, site, id);
      SiteOfIgnoresPulled(StoreSite(s, i, site), s', id);
    case Tombstone(i) => TombstoneIsAnothers(s, usable, id);
    case Setting => SiteOfIgnoresPulled(s, s', id);
  }

  lemma SiteOfFacts(s: System, id: DeploymentId)
    ensures SiteOf(s, id).projection.Some? <==> id in s.projections
  {}

  lemma SiteOfIgnoresPulled(s: System, s': System, id: DeploymentId)
    requires s'.projections == s.projections && s'.log == s.log
    ensures SiteOf(s', id) == SiteOf(s, id)
  {}

  /** A deployment still tracked after a tombstone is not the one it names. */
  lemma TombstoneIsAnothers(s: System, usable: bool, id: DeploymentId)
    requires WellFormed(s) && s.pulled < |s.outbox| && s.outbox[s.pulled].Tombstone?
    requires Tracked(Take(s, Offer(s.pulled, usable)).value, id)
    ensures id != s.outbox[s.pulled].id
    ensures SiteOf(Take(s, Offer(s.pulled, usable)).value, id) == SiteOf(s, id)
  {}

  lemma {:induction false} TakeAllProjects(s: System, batch: seq<Offer>, id: DeploymentId)
    requires WellFormed(s) && TakeAll(s, batch).Some? && Tracked(TakeAll(s, batch).value, id)
    ensures var s' := TakeAll(s, batch).value;
      WellFormed(s') && Tracked(s, id) && LaneOf(s', id) == L.Run(LaneOf(s, id), LanePulls(s, batch, id))
    decreases |batch|
  {
    hide Take, Consistent, Tracked, LanePull;
    RunNoneIfTracked(s, id);
    if batch != [] {
      var init, last := batch[..|batch| - 1], batch[|batch| - 1];
      TakeAllKeepsWellFormed(s, init);
      var mid := TakeAll(s, init).value;
      TakeProjects(mid, last, id);
      TakeAllProjects(s, init, id);
      L.RunConcat(LaneOf(s, id), LanePulls(s, init, id), LanePull(mid, last, id));
    }
  }

  lemma RunNoneIfTracked(s: System, id: DeploymentId)
    requires WellFormed(s)
    ensures Tracked(s, id) ==> L.Run(LaneOf(s, id), []) == LaneOf(s, id)
  {}

  lemma DeliverReportProjects(s: System, k: nat, id: DeploymentId)
    requires WellFormed(s) && Tracked(s, id)
    ensures var s' := Next(s, DeliverReport(k));
      && WellFormed(s') && Tracked(s', id)
      && LaneOf(s', id) == L.Run(LaneOf(s, id), LaneSteps(s, DeliverReport(k), id))
  {
    StepKeepsWellFormed(s, DeliverReport(k));
    RunNone(LaneOf(s, id));
    RunOne(LaneOf(s, id), L.Hear);
    if k == s.heard && k < |s.log| {
      ReportsOfSplit(s.log, k, id);
    }
  }

  lemma AppendItemProjects(s: System, s': System, item: Item, id: DeploymentId)
    requires WellFormed(s) && Tracked(s, id) && Tracked(s', id)
    requires s' == s.(deployments := s'.deployments, retired := s'.retired, outbox := s.outbox + [item])
    ensures LaneOf(s', id) == LaneOf(s, id).(
        central := LaneOf(s', id).central,
        rows := LaneOf(s, id).rows + if item.ForDeployment? && item.id == id then [item.row] else [])
  {
    RowsOfConcat(s.outbox, [item], id);
    assert [item][..0] == [];
    assert RowsOf([item], id) == (if item.ForDeployment? && item.id == id then [item.row] else []);
    assert s'.outbox[..s.pulled] == s.outbox[..s.pulled];
  }

  /** Central's own transactions leave every tracked deployment tracked. */
  lemma CentralKeepsTracked(s: System, step: Step, id: DeploymentId)
    requires WellFormed(s) && Tracked(s, id) && !step.DeliverItems?
    ensures Tracked(Next(s, step), id)
  {
    var s' := Next(s, step);
    if step.Delete? && step.id == id && id in s.deployments {
      assert s'.outbox[|s.outbox|] == Tombstone(id);
    } else if id !in s.deployments {
      var k :| s.pulled <= k < |s.outbox| && s.outbox[k] == Tombstone(id);
      assert s'.outbox[k] == Tombstone(id);
    }
  }

  /**
   Refinement: every step of the shared stream is some steps of each tracked deployment alone,
   a committed batch one pull for each row of its own, a batch that was undone none at all.
   */
  lemma StepProjects(s: System, step: Step, id: DeploymentId)
    requires WellFormed(s) && Tracked(s, id) && Tracked(Next(s, step), id)
    ensures WellFormed(Next(s, step))
    ensures LaneOf(Next(s, step), id) == L.Run(LaneOf(s, id), LaneSteps(s, step, id))
  {
    hide Take, Consistent, Tracked, RowsOf, ReportsOf, SiteOf;
    StepKeepsWellFormed(s, step);
    RunNoneIfTracked(s, id);
    var s' := Next(s, step);
    match step
    case DeliverItems(batch) => if TakeAll(s, batch).Some? { TakeAllProjects(s, batch, id); }
    case DeliverReport(k) => DeliverReportProjects(s, k, id);
    case Administer(i, op) =>
      if i == id && id in s.deployments { RunOne(LaneOf(s, id), L.Administer(op)); }
      AppendProjects(s, step, id);
    case _ => AppendProjects(s, step, id);
  }

  lemma AppendProjects(s: System, step: Step, id: DeploymentId)
    requires WellFormed(s) && Tracked(s, id) && Tracked(Next(s, step), id)
    requires !step.DeliverItems? && !step.DeliverReport?
    ensures WellFormed(Next(s, step))
    ensures LaneOf(Next(s, step), id) ==
      if step.Administer? && step.id == id && id in s.deployments then L.Next(LaneOf(s, id), L.Administer(step.op)) else LaneOf(s, id)
  {
    hide RowsOf, ReportsOf, SiteOf, Mentioned, Perform, Tracked, Consistent;
    StepKeepsWellFormed(s, step);
    var s' := Next(s, step);
    if s' != s {
      TrackedIsKnown(s, id);
      var item := s'.outbox[|s.outbox|];
      AppendItemProjects(s, s', item, id);
      if step.Create? { MentionedIfKnown(s, id); }
    }
  }

  lemma TrackedIsKnown(s: System, id: DeploymentId)
    requires WellFormed(s) && Tracked(s, id)
    ensures id in s.deployments || (id in s.retired && id !in s.deployments)
  {}

  lemma MentionedIfKnown(s: System, id: DeploymentId)
    requires WellFormed(s) && Tracked(s, id)
    ensures Mentioned(s, id)
  {}

  lemma CreateStartsLane(s: System, id: DeploymentId)
    requires WellFormed(s) && !Mentioned(s, id)
    ensures var s' := Next(s, Create(id)); WellFormed(s') && Tracked(s', id) && LaneOf(s', id) == L.Created()
  {
    StepKeepsWellFormed(s, Create(id));
    var s' := Next(s, Create(id));
    UnmentionedHasNoRows(s.outbox, id);
    UnmentionedHasNoRows(s.outbox[..s.pulled], id);
    UnmentionedHasNoReports(s.log, id);
    UnmentionedHasNoReports(s.log[..s.heard], id);
    assert s'.outbox[..s.pulled] == s.outbox[..s.pulled];
    assert s'.outbox[..|s.outbox|] == s.outbox;
  }

  // ---------------------------------------------------------------- deletion reaches the Site

  lemma PendingIsTracked(s: System, k: nat)
    requires WellFormed(s) && s.pulled <= k < |s.outbox| && s.outbox[k].ForDeployment?
    ensures Tracked(s, s.outbox[k].id)
  {}

  /** The Site holds nothing of a deployment whose tombstone it has consumed. */
  ghost predicate NothingLeftBehind(s: System) {
    forall id :: id in s.projections ==> Tracked(s, id)
  }

  lemma TakeLeavesNothing(s: System, offer: Offer)
    requires WellFormed(s) && NothingLeftBehind(s) && Take(s, offer).Some?
    ensures NothingLeftBehind(Take(s, offer).value)
  {
    hide ApplyRow, Consistent, SiteOf;
    TakeFrame(s, offer);
    var s' := Take(s, offer).value;
    if offer.k == s.pulled {
      forall id | id in s'.projections
        ensures Tracked(s', id)
      {
        if s.outbox[s.pulled].ForDeployment? && s.outbox[s.pulled].id == id { PendingIsTracked(s, s.pulled); }
        assert Tracked(s, id) && s.outbox[s.pulled] != Tombstone(id);
        if id !in s.deployments {
          var k :| s.pulled <= k < |s.outbox| && s.outbox[k] == Tombstone(id);
          assert s'.outbox[k] == Tombstone(id);
        }
      }
    }
  }

  lemma {:induction false} TakeAllLeavesNothing(s: System, batch: seq<Offer>)
    requires WellFormed(s) && NothingLeftBehind(s) && TakeAll(s, batch).Some?
    ensures NothingLeftBehind(TakeAll(s, batch).value)
    decreases |batch|
  {
    hide Take, Consistent, NothingLeftBehind;
    if batch != [] {
      TakeAllKeepsWellFormed(s, batch[..|batch| - 1]);
      TakeAllLeavesNothing(s, batch[..|batch| - 1]);
      TakeLeavesNothing(TakeAll(s, batch[..|batch| - 1]).value, batch[|batch| - 1]);
    }
  }

  lemma StepLeavesNothing(s: System, step: Step)
    requires WellFormed(s) && NothingLeftBehind(s)
    ensures NothingLeftBehind(Next(s, step))
  {
    hide TakeAll, Consistent;
    if step.DeliverItems? {
      if TakeAll(s, step.batch).Some? { TakeAllLeavesNothing(s, step.batch); }
    } else {
      forall id | id in s.projections
        ensures Tracked(Next(s, step), id)
      {
        CentralKeepsTracked(s, step, id);
      }
    }
  }

  // ---------------------------------------------------------------- the system's invariant

  ghost predicate Inv(s: System) {
    WellFormed(s) && NothingLeftBehind(s) && forall id :: Tracked(s, id) ==> L.Inv(LaneOf(s, id))
  }

  /** A deployment tracked only after the step was created by it. */
  lemma NewlyTracked(s: System, step: Step, id: DeploymentId)
    requires WellFormed(s) && !Tracked(s, id) && Tracked(Next(s, step), id)
    ensures step == Create(id) && !Mentioned(s, id)
  {
    hide TakeAll;
    var s' := Next(s, step);
    if step.DeliverItems? {
      if TakeAll(s, step.batch).Some? { TakeAllKeepsWellFormed(s, step.batch); }
    }
  }

  lemma LaneKeepsInv(s: System, step: Step, id: DeploymentId)
    requires Inv(s) && Tracked(Next(s, step), id)
    ensures WellFormed(Next(s, step)) && L.Inv(LaneOf(Next(s, step), id))
  {
    hide Take, TakeAll, Consistent, RowsOf, ReportsOf, Tracked, L.Inv, Next;
    StepKeepsWellFormed(s, step);
    if Tracked(s, id) {
      StepProjects(s, step, id);
      L.RunKeepsInv(LaneOf(s, id), LaneSteps(s, step, id));
    } else {
      NewlyTracked(s, step, id);
      CreateStartsLane(s, id);
      L.CreatedInv();
    }
  }

  lemma StepKeepsInv(s: System, step: Step)
    requires Inv(s)
    ensures Inv(Next(s, step))
  {
    hide Next, Consistent, Tracked, L.Inv;
    StepKeepsWellFormed(s, step);
    StepLeavesNothing(s, step);
    forall id | Tracked(Next(s, step), id)
      ensures L.Inv(LaneOf(Next(s, step), id))
    {
      LaneKeepsInv(s, step, id);
    }
  }

  lemma {:induction false} RunKeepsInv(s: System, steps: seq<Step>)
    requires Inv(s)
    ensures Inv(Run(s, steps))
    decreases |steps|
  {
    if steps != [] {
      RunKeepsInv(s, steps[..|steps| - 1]);
      StepKeepsInv(Run(s, steps[..|steps| - 1]), steps[|steps| - 1]);
    }
  }

  lemma DrainedConverges(s: System)
    requires Inv(s) && s.pulled == |s.outbox| && s.heard == |s.log|
    ensures forall id :: id in s.deployments ==> L.Converged(LaneOf(s, id))
    ensures forall id :: id in s.projections ==> id in s.deployments
  {
    assert s.outbox[..s.pulled] == s.outbox && s.log[..s.heard] == s.log;
    forall id | id in s.deployments
      ensures L.Converged(LaneOf(s, id))
    {
      assert Tracked(s, id) && L.Inv(LaneOf(s, id));
      L.QuietInvMeansConverged(LaneOf(s, id));
    }
  }

  lemma EmptyInv()
    ensures Inv(EMPTY)
  {}

  /**
   For every run and every behaviour of the network: when both numbered streams have
   been consumed, every live deployment has converged, all of them at once, and the Site
   holds nothing of any other.
   */
  lemma DrainedSystemConverges(steps: seq<Step>)
    ensures var s := Run(EMPTY, steps);
      Inv(s) && (s.pulled == |s.outbox| && s.heard == |s.log| ==>
                   && (forall id :: id in s.deployments ==> L.Converged(LaneOf(s, id)))
                   && (forall id :: id in s.projections ==> id in s.deployments))
  {
    hide Inv, L.Converged;
    EmptyInv();
    RunKeepsInv(EMPTY, steps);
    var s := Run(EMPTY, steps);
    if s.pulled == |s.outbox| && s.heard == |s.log| {
      DrainedConverges(s);
    }
  }

  /** Only the next number is consumed: anything else the network delivers changes nothing. */
  lemma {:induction false} OtherDeliveriesChangeNothing(s: System, batch: seq<Offer>, k: nat)
    requires forall i :: 0 <= i < |batch| ==> batch[i].k != s.pulled
    ensures Next(s, DeliverItems(batch)) == s
    ensures TakeAll(s, batch).Some? ==> TakeAll(s, batch).value == s
    ensures k != s.heard ==> Next(s, DeliverReport(k)) == s
    decreases |batch|
  {
    if batch != [] {
      OtherDeliveriesChangeNothing(s, batch[..|batch| - 1], k);
    }
  }

  /**
   The report stream halts at the first unheard report of a deleted deployment: no
   later report of this Site, about any deployment, is ever heard again.
   */
  lemma {:induction false} DeletionHaltsReports(s: System, steps: seq<Step>, k: nat)
    requires WellFormed(s) && s.heard <= k < |s.log| && s.log[k].id !in s.deployments
    ensures var s' := Run(s, steps);
      && WellFormed(s') && s'.heard <= k < |s'.log| && s'.log[k] == s.log[k] && s.log[k].id !in s'.deployments
    decreases |steps|
  {
    hide Consistent, TakeAll;
    if steps != [] {
      var mid, step := Run(s, steps[..|steps| - 1]), steps[|steps| - 1];
      DeletionHaltsReports(s, steps[..|steps| - 1], k);
      StepKeepsWellFormed(mid, step);
      assert Mentioned(mid, mid.log[k].id);
      if step.DeliverItems? && TakeAll(mid, step.batch).Some? {
        TakeAllKeepsWellFormed(mid, step.batch);
        assert TakeAll(mid, step.batch).value.log[..|mid.log|][k] == mid.log[k];
      }
    }
  }


  /** Exactly which deliveries the two ends refuse for good although they are next in line. */
  lemma NextDeliveryRefused(s: System)
    requires Inv(s)
    ensures s.heard < |s.log| ==>
      (Next(s, DeliverReport(s.heard)) == s <==> s.log[s.heard].id !in s.deployments)
    ensures s.pulled < |s.outbox| ==>
      (Take(s, Offer(s.pulled, true)).None? <==>
        var item := s.outbox[s.pulled];
        && item.ForDeployment? && item.row.kind == Revocation
        && item.id in s.projections && item.row.revision in s.projections[item.id].held)
  {
    hide Consistent, NothingLeftBehind, Tracked, L.Inv, RowsOf, ReportsOf, StoreSite;
  }
}
