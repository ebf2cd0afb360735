/**
 One deployment end to end: Central's record, the rows it queued in sequence
 order, how many of them the Site has consumed, the Site's projection and report
 log, and how many reports Central has consumed. Steps interleave freely, so
 every report may be late. Rows are taken one at a time here; in SiteStream they come in
 batches that the Site takes or rolls back as a whole.
 */
module DeploymentLane {
  import opened Wrappers
  import opened Deployments
  import opened SiteProjection

  datatype Lane = Lane(central: Deployment, rows: seq<Row>, pulled: nat, site: Site, heard: nat)

  datatype Step = Administer(op: Op) | Pull(usable: bool) | Hear

  function Created(): Lane {
    var h := Deployments.Created();
    Lane(h.deployment, h.rows, 0, Site(None, []), 0)
  }

  function Next(l: Lane, step: Step): Lane {
    match step
    case Administer(op) =>
      if op.DoReport? then l
      else (match Perform(l.central, op)
            case None => l
            case Some((d, row)) => l.(central := d, rows := l.rows + [row]))
    case Pull(usable) =>
      if l.pulled >= |l.rows| then l
      else (match ApplyRow(l.site, l.rows[l.pulled], usable)
            case Aborted => l
            case Done(site) => l.(site := site, pulled := l.pulled + 1))
    case Hear =>
      if l.heard >= |l.site.log| then l
      else l.(central := ApplyReport(l.central, l.site.log[l.heard]), heard := l.heard + 1)
  }

  function Run(l: Lane, steps: seq<Step>): Lane
    decreases |steps|
  {
    if steps == [] then l else Next(Run(l, steps[..|steps| - 1]), steps[|steps| - 1])
  }

  // ---------------------------------------------------------------- invariant

  /** The highest revision the reports acknowledge as present at the Site. */
  function Acknowledged(log: seq<Report>): nat
    decreases |log|
  {
    if log == [] then 0
    else
      var rest := Acknowledged(log[..|log| - 1]);
      var r := log[|log| - 1];
      if r.kind == Applied || r.kind == RevokedBySite then Max(rest, r.applied) else rest
  }

  function LastPulled(l: Lane): nat
    requires l.pulled <= |l.rows|
  {
    if l.pulled == 0 then 0 else l.rows[l.pulled - 1].revision
  }

  function ReportFor(kind: Kind): ReportKind {
    if kind == Revocation then RevokedBySite else Applied
  }

  function StatusFor(kind: Kind): Status {
    if kind == Revocation then Status.Revoked else Deployed
  }

  ghost predicate CentralOk(l: Lane) {
    && Sound(l.central)
    && RowsFollow(History(l.central, l.rows))
    && l.pulled <= |l.rows|
    && l.heard <= |l.site.log|
  }

  ghost predicate SiteOk(l: Lane)
    requires CentralOk(l)
  {
    var applied := AppliedRevision(l.site);
    && applied <= LastPulled(l)
    && (l.site.projection.Some? ==>
          var p := l.site.projection.value;
          && 1 <= p.applied && p.desired <= LastPulled(l) && p.applied in p.held
          && (forall r :: r in p.held ==> 1 <= r <= p.applied)
          && (p.status == LocalFailed <==> p.applied < LastPulled(l))
          && (l.central.revisions[LastPulled(l)] == Revocation ==> p.applied == LastPulled(l))
          && (p.status != LocalFailed ==> p.desired == p.applied)
          && (p.status == LocalRevoked ==> l.central.revisions[p.applied] == Revocation)
          && (p.status == LocalDeployed ==> l.central.revisions[p.applied] != Revocation))
  }

  /** The last report is the verdict on the last row the Site consumed. */
  ghost predicate LogOk(l: Lane)
    requires CentralOk(l) && SiteOk(l)
  {
    var applied := AppliedRevision(l.site);
    && (forall i :: 0 <= i < |l.site.log| ==> ReportOk(l.site.log[i], applied))
    && Acknowledged(l.site.log) == applied
    && (l.pulled == 0 <==> l.site.log == [])
    && (l.pulled > 0 ==>
          var last := l.site.log[|l.site.log| - 1];
          && last.desired == LastPulled(l) && last.applied == applied
          && last.kind == (if applied == LastPulled(l) then ReportFor(l.central.revisions[applied]) else FailedToApply))
  }

  ghost predicate ReportOk(r: Report, applied: nat) {
    r.applied <= applied && r.kind != Stale && (r.kind != FailedToApply ==> r.desired == r.applied)
  }

  /** Once Central has heard everything, its status is the Site's verdict. */
  ghost predicate HeardOk(l: Lane)
    requires CentralOk(l) && SiteOk(l)
  {
    var applied := AppliedRevision(l.site);
    && l.central.acked == Acknowledged(l.site.log[..l.heard])
    && (l.heard == |l.site.log| && applied == l.central.desired ==>
          l.central.status == StatusFor(l.central.revisions[applied]))
    && (l.heard == |l.site.log| && l.pulled == |l.rows| && applied < l.central.desired ==>
          l.central.status == Failed)
  }

  ghost predicate Inv(l: Lane) {
    CentralOk(l) && SiteOk(l) && LogOk(l) && HeardOk(l)
  }

  lemma CreatedInv()
    ensures Inv(Created())
  {}

  /** The record and its rows after an operation; nothing on the Site's side moves. */
  lemma AdministerShape(l: Lane, op: Op)
    requires CentralOk(l)
    ensures var l' := Next(l, Administer(op));
      && CentralOk(l') && l' == l.(central := l'.central, rows := l'.rows) && LastPulled(l') == LastPulled(l)
      && (forall r :: r in l.central.revisions ==> r in l'.central.revisions && l'.central.revisions[r] == l.central.revisions[r])
      && l'.central.acked == l.central.acked
      && (l' != l ==>
            && |l'.rows| == |l.rows| + 1
            && (l'.central.desired > l.central.desired || (l.central.status == Failed && l'.central.desired == l.central.desired)))
  {}

  lemma LastPulledBound(l: Lane)
    requires CentralOk(l)
    ensures LastPulled(l) <= l.central.desired && (l.pulled > 0 ==> LastPulled(l) in l.central.revisions)
  {}

  lemma AdministerKeepsInv(l: Lane, op: Op)
    requires Inv(l)
    ensures Inv(Next(l, Administer(op)))
  {
    hide RowsFollow, Sound, Next, LastPulled;
    AdministerShape(l, op);
    LastPulledBound(l);
  }

  lemma AcknowledgedAppend(log: seq<Report>, r: Report)
    ensures Acknowledged(log + [r]) ==
            if r.kind == Applied || r.kind == RevokedBySite then Max(Acknowledged(log), r.applied) else Acknowledged(log)
  {}

  lemma AcknowledgedBound(log: seq<Report>, k: nat)
    requires k <= |log|
    ensures Acknowledged(log[..k]) <= Acknowledged(log)
    decreases |log|
  {
    if k < |log| {
      assert log[..|log| - 1][..k] == log[..k];
      AcknowledgedBound(log[..|log| - 1], k);
    } else {
      assert log[..k] == log;
    }
  }

  lemma HearKeepsInv(l: Lane)
    requires Inv(l)
    ensures Inv(Next(l, Hear))
  {
    if l.heard < |l.site.log| {
      var r := l.site.log[l.heard];
      assert l.site.log[..l.heard + 1] == l.site.log[..l.heard] + [r];
      AcknowledgedAppend(l.site.log[..l.heard], r);
      AcknowledgedBound(l.site.log, l.heard);
      ActKeepsSound(History(l.central, l.rows), DoReport(r));
      assert l.site.log[..|l.site.log|] == l.site.log;
    }
  }

  /** A row already applied is recognised: the Site's state does not change at all. */
  lemma KnownRowChangesNothing(l: Lane)
    requires Inv(l) && l.pulled < |l.rows|
    requires l.site.projection.Some? && l.rows[l.pulled].revision <= l.site.projection.value.applied
    requires l.rows[l.pulled].kind != Revocation
    ensures l.rows[l.pulled].revision == l.site.projection.value.applied == LastPulled(l)
    ensures ApplySnapshot(l.site, l.rows[l.pulled].revision, true) == l.site
    ensures ApplySnapshot(l.site, l.rows[l.pulled].revision, false) == l.site
  {}

  /** The Site could not use the row: nothing applied, one failure report. */
  ghost predicate Fails(l: Lane, site: Site)
    requires l.pulled < |l.rows|
  {
    var row := l.rows[l.pulled];
    && AppliedRevision(l.site) < row.revision
    && site.log == l.site.log + [Report(FailedToApply, row.revision, AppliedRevision(l.site))]
    && (site.projection.Some? <==> l.site.projection.Some?)
    && (site.projection.Some? ==>
          site.projection.value == l.site.projection.value.(status := LocalFailed, desired := row.revision))
    && (row.kind == Revocation ==> l.site.projection.None?)
  }

  /** The row took effect: the projection holds its revision and the last report says so. */
  ghost predicate Succeeds(l: Lane, site: Site)
    requires l.pulled < |l.rows|
  {
    var revision, kind := l.rows[l.pulled].revision, l.rows[l.pulled].kind;
    && AppliedRevision(l.site) < revision
    && site.projection.Some?
    && var p := site.projection.value;
    && p.status == (if kind == Revocation then LocalRevoked else LocalDeployed)
    && p.desired == p.applied == revision
    && p.held == (if l.site.projection.Some? then l.site.projection.value.held else {}) + {revision}
    && site.log == l.site.log +
         (if kind == Revocation then [] else [Report(Received, revision, revision)]) +
         [Report(ReportFor(kind), revision, revision)]
  }

  lemma PullShape(l: Lane, usable: bool)
    requires Inv(l) && l.pulled < |l.rows|
    ensures var outcome := ApplyRow(l.site, l.rows[l.pulled], usable);
      outcome.Done? ==> outcome.site == l.site || Fails(l, outcome.site) || Succeeds(l, outcome.site)
    ensures ApplyRow(l.site, l.rows[l.pulled], usable) == Done(l.site) ==>
              l.rows[l.pulled].revision == AppliedRevision(l.site) == LastPulled(l)
  {}

  /** A newer snapshot takes effect if it is usable and fails otherwise; a revocation takes effect if the deployment is known. */
  lemma NewRowOutcome(l: Lane, usable: bool)
    requires Inv(l) && l.pulled < |l.rows| && l.rows[l.pulled].revision > AppliedRevision(l.site)
    ensures var outcome, row := ApplyRow(l.site, l.rows[l.pulled], usable), l.rows[l.pulled];
      && outcome.Done?
      && if (if row.kind == Revocation then l.site.projection.Some? else usable) then Succeeds(l, outcome.site) else Fails(l, outcome.site)
  {}

  lemma FailureKeepsSite(l: Lane, site: Site)
    requires Inv(l) && l.pulled < |l.rows| && Fails(l, site)
    ensures var l' := l.(site := site, pulled := l.pulled + 1); CentralOk(l') && SiteOk(l')
  {
    assert l.pulled > 0 ==> LastPulled(l) <= l.rows[l.pulled].revision;
  }

  lemma FailureKeepsInv(l: Lane, site: Site)
    requires Inv(l) && l.pulled < |l.rows| && Fails(l, site)
    ensures Inv(l.(site := site, pulled := l.pulled + 1))
  {
    hide RowsFollow, Sound;
    FailureKeepsSite(l, site);
    AcknowledgedAppend(l.site.log, site.log[|l.site.log|]);
    assert site.log[..l.heard] == l.site.log[..l.heard];
  }

  lemma SuccessKeepsInv(l: Lane, site: Site)
    requires Inv(l) && l.pulled < |l.rows| && Succeeds(l, site)
    ensures Inv(l.(site := site, pulled := l.pulled + 1))
  {
    var row := l.rows[l.pulled];
    var l' := l.(site := site, pulled := l.pulled + 1);
    var verdict := Report(ReportFor(row.kind), row.revision, row.revision);
    var middle := if row.kind == Revocation then l.site.log else l.site.log + [Report(Received, row.revision, row.revision)];
    assert site.log == middle + [verdict];
    AcknowledgedAppend(l.site.log, Report(Received, row.revision, row.revision));
    AcknowledgedAppend(middle, verdict);
    assert site.log[..l.heard] == l.site.log[..l.heard];
    assert SiteOk(l');
  }

  lemma PullKeepsInv(l: Lane, usable: bool)
    requires Inv(l)
    ensures Inv(Next(l, Pull(usable)))
  {
    if l.pulled < |l.rows| {
      PullShape(l, usable);
      var outcome := ApplyRow(l.site, l.rows[l.pulled], usable);
      if outcome.Done? && outcome.site != l.site {
        if Fails(l, outcome.site) {
          FailureKeepsInv(l, outcome.site);
        } else {
          SuccessKeepsInv(l, outcome.site);
        }
      }
    }
  }

  lemma StepKeepsInv(l: Lane, step: Step)
    requires Inv(l)
    ensures Inv(Next(l, step))
  {
    match step
    case Administer(op) => AdministerKeepsInv(l, op);
    case Pull(usable) => PullKeepsInv(l, usable);
    case Hear => HearKeepsInv(l);
  }

  lemma {:induction false} RunKeepsInv(l: Lane, steps: seq<Step>)
    requires Inv(l)
    ensures Inv(Run(l, steps))
    decreases |steps|
  {
    if steps != [] {
      RunKeepsInv(l, steps[..|steps| - 1]);
      StepKeepsInv(Run(l, steps[..|steps| - 1]), steps[|steps| - 1]);
    }
  }

  // ---------------------------------------------------------------- convergence

  predicate Quiet(l: Lane) {
    l.pulled == |l.rows| && l.heard == |l.site.log|
  }

  ghost predicate Converged(l: Lane)
    requires Sound(l.central)
  {
    var applied, desired := AppliedRevision(l.site), l.central.desired;
    && l.central.acked == applied
    && (l.central.status == Failed <==> applied < desired)
    && (l.central.status == Deployed <==> applied == desired && l.central.revisions[desired] != Revocation)
    && (l.central.status == Status.Revoked <==> applied == desired && l.central.revisions[desired] == Revocation)
    && (applied == desired ==>
          && l.site.projection.Some?
          && (l.site.projection.value.status == LocalRevoked <==> l.central.revisions[desired] == Revocation)
          && (l.site.projection.value.status == LocalDeployed <==> l.central.revisions[desired] != Revocation))
  }

  lemma QuietInvMeansConverged(l: Lane)
    requires Inv(l) && Quiet(l)
    ensures Converged(l)
  {
    assert l.site.log[..l.heard] == l.site.log;
    assert LastPulled(l) == l.central.desired;
  }

  /**
   Whatever the interleaving of pushes, retries, revocations, failures and late
   reports was: once both queues are empty, Central's acknowledged revision is
   the Site's applied one and its status says exactly how the Site stands.
   */
  lemma QuietMeansConverged(steps: seq<Step>)
    ensures var l := Run(Created(), steps);
      Inv(l) && (Quiet(l) ==> Converged(l))
  {
    CreatedInv();
    RunKeepsInv(Created(), steps);
    var l := Run(Created(), steps);
    if Quiet(l) {
      QuietInvMeansConverged(l);
    }
  }

  // ---------------------------------------------------------------- progress

  predicate Blocked(l: Lane) {
    l.pulled < |l.rows| && ApplyRow(l.site, l.rows[l.pulled], true) == Aborted
  }

  /**
   The Site's stream stops at a row exactly when that row sends a revocation a
   second time and the Site knows the deployment.
   */
  lemma BlockedExactlyOnResentRevocation(l: Lane)
    requires Inv(l)
    ensures Blocked(l) <==>
      && l.pulled < |l.rows| && l.rows[l.pulled].kind == Revocation && l.site.projection.Some?
      && exists j :: 0 <= j < l.pulled && l.rows[j].revision == l.rows[l.pulled].revision
  {}

  lemma {:induction false} BlockedForever(l: Lane, steps: seq<Step>)
    requires Blocked(l)
    ensures Blocked(Run(l, steps)) && Run(l, steps).pulled == l.pulled && Run(l, steps).site == l.site
    ensures |Run(l, steps).rows| >= |l.rows| && Run(l, steps).rows[..|l.rows|] == l.rows
    decreases |steps|
  {
    if steps != [] {
      BlockedForever(l, steps[..|steps| - 1]);
      var mid := Run(l, steps[..|steps| - 1]);
      assert mid.rows[..|l.rows|][l.pulled] == mid.rows[l.pulled];
    }
  }

  /** Retrying a revocation the Site has already carried out stops the stream for good. */
  lemma RetriedRevocationBlocks(l: Lane, steps: seq<Step>)
    requires Inv(l) && l.pulled == |l.rows| && l.site.projection.Some?
    requires l.central.status == Failed && l.central.revisions[l.central.desired] == Revocation
    ensures Blocked(Run(Next(l, Administer(DoRetry)), steps))
  {}

  // ---------------------------------------------------------------- exactly which queues stop

  /** The Site knows the deployment, or will once the rows before j are delivered. */
  predicate KnownBy(l: Lane, j: nat)
    requires j <= |l.rows|
  {
    l.site.projection.Some? || exists k :: l.pulled <= k < j && l.rows[k].kind != Revocation
  }

  predicate Resent(rows: seq<Row>, j: nat)
    requires j < |rows|
  {
    rows[j].kind == Revocation && exists i :: 0 <= i < j && rows[i].revision == rows[j].revision
  }

  /** A revocation still to be delivered is there a second time, and the Site will know the deployment by then. */
  ghost predicate Doomed(l: Lane) {
    exists j: nat :: l.pulled <= j < |l.rows| && Resent(l.rows, j) && KnownBy(l, j)
  }

  lemma BlockedIsDoomed(l: Lane)
    requires Inv(l)
    ensures Blocked(l) <==> l.pulled < |l.rows| && Resent(l.rows, l.pulled) && KnownBy(l, l.pulled)
    ensures Blocked(l) ==> Doomed(l)
  {}

  /** A delivered row takes itself off the queue, and the Site knows the deployment exactly if it did or the row was a snapshot. */
  lemma PullLearns(l: Lane)
    requires Inv(l) && l.pulled < |l.rows| && !Blocked(l)
    ensures var l' := Next(l, Pull(true));
      && l'.pulled == l.pulled + 1 && l'.rows == l.rows && l'.central == l.central
      && (l'.site.projection.Some? <==> l.site.projection.Some? || l.rows[l.pulled].kind != Revocation)
  {}

  lemma PullKeepsKnown(l: Lane, j: nat)
    requires Inv(l) && l.pulled < j <= |l.rows| && !Blocked(l)
    ensures KnownBy(Next(l, Pull(true)), j) <==> KnownBy(l, j)
  {}

  lemma PullKeepsDoom(l: Lane)
    requires Inv(l) && l.pulled < |l.rows|
    ensures Doomed(Next(l, Pull(true))) <==> Doomed(l)
  {}

  /** No delivery, usable or not, lets the Site know a deployment that it would not have known anyway. */
  lemma PullAddsNoKnowledge(l: Lane, usable: bool, j: nat)
    requires Inv(l) && l.pulled < j <= |l.rows| && Next(l, Pull(usable)).pulled > l.pulled
    ensures KnownBy(Next(l, Pull(usable)), j) ==> KnownBy(l, j)
  {}

  /** A failing delivery can only help: a snapshot that fails leaves the Site without a projection. */
  lemma FailedPullKeepsSafe(l: Lane)
    requires Inv(l) && l.pulled < |l.rows| && Doomed(Next(l, Pull(false)))
    ensures Doomed(l)
  {}

  /** The retry that must not be made: it sends a revocation again to a Site that knows the deployment, or will. */
  ghost predicate Fatal(l: Lane, step: Step) {
    && step == Administer(DoRetry) && Retry(l.central).Some?
    && l.central.revisions[l.central.desired] == Revocation && KnownBy(l, |l.rows|)
  }

  /** Publishing adds at most one row; it is sent again to a Site that will know the deployment exactly if the step is fatal. */
  lemma AdministerAddsRow(l: Lane, op: Op)
    requires Inv(l) && Next(l, Administer(op)) != l
    ensures var l', n := Next(l, Administer(op)), |l.rows|;
      && l.pulled <= n && |l'.rows| == n + 1 && l'.rows[..n] == l.rows && l'.pulled == l.pulled && l'.site == l.site
      && (forall j: nat :: j <= n ==> (KnownBy(l', j) <==> KnownBy(l, j)))
      && (forall j: nat :: j < n ==> (Resent(l'.rows, j) <==> Resent(l.rows, j)))
      && (Resent(l'.rows, n) && KnownBy(l', n) <==> Fatal(l, Administer(op)))
  {}

  lemma AdministerDooms(l: Lane, op: Op)
    requires Inv(l)
    ensures Doomed(Next(l, Administer(op))) <==> Doomed(l) || Fatal(l, Administer(op))
  {
    hide Inv, KnownBy, Resent;
    var l' := Next(l, Administer(op));
    if l' != l {
      AdministerAddsRow(l, op);
      assert Resent(l'.rows, |l.rows|) && KnownBy(l', |l.rows|) ==> Doomed(l');
    } else {
      FatalChangesLane(l, op);
    }
  }

  lemma FatalChangesLane(l: Lane, op: Op)
    ensures Fatal(l, Administer(op)) ==> Next(l, Administer(op)) != l
  {}

  /** One step dooms the lane exactly when it was doomed or the step is fatal; only a failing delivery can save it. */
  lemma StepDooms(l: Lane, step: Step)
    requires Inv(l)
    ensures step != Pull(false) ==> (Doomed(Next(l, step)) <==> Doomed(l) || Fatal(l, step))
    ensures Doomed(Next(l, step)) ==> Doomed(l) || Fatal(l, step)
  {
    match step
    case Administer(op) => AdministerDooms(l, op);
    case Pull(usable) =>
      if l.pulled < |l.rows| {
        if usable { PullKeepsDoom(l); } else if Doomed(Next(l, step)) { FailedPullKeepsSafe(l); }
      }
    case Hear => HearKeepsDoom(l);
  }

  lemma HearKeepsDoom(l: Lane)
    ensures Doomed(Next(l, Hear)) <==> Doomed(l)
  {}

  /** A run without a fatal retry. */
  ghost predicate Prudent(l: Lane, steps: seq<Step>)
    decreases |steps|
  {
    steps == [] || (Prudent(l, steps[..|steps| - 1]) && !Fatal(Run(l, steps[..|steps| - 1]), steps[|steps| - 1]))
  }

  /** Prudent runs are never doomed; where every snapshot is usable, only prudent runs are not. */
  lemma {:induction false} PrudentIsNeverDoomed(l: Lane, steps: seq<Step>)
    requires Inv(l) && !Doomed(l)
    ensures Prudent(l, steps) ==> !Doomed(Run(l, steps)) && !Blocked(Run(l, steps))
    ensures Pull(false) !in steps ==> (Prudent(l, steps) <==> !Doomed(Run(l, steps)))
    decreases |steps|
  {
    RunKeepsInv(l, steps);
    BlockedIsDoomed(Run(l, steps));
    if steps != [] {
      var init := steps[..|steps| - 1];
      RunKeepsInv(l, init);
      PrudentIsNeverDoomed(l, init);
      StepDooms(Run(l, init), steps[|steps| - 1]);
    }
  }

  lemma CreatedIsNotDoomed()
    ensures !Doomed(Created())
  {}

  /** Work left once Central stops acting: a consumed row queues at most two reports. */
  function Work(l: Lane): int {
    3 * (|l.rows| - l.pulled) + (|l.site.log| - l.heard)
  }

  lemma DeliveryMakesProgress(l: Lane, step: Step)
    requires Inv(l) && !step.Administer?
    ensures 0 <= Work(Next(l, step)) <= Work(l)
    ensures Next(l, step) != l ==> Work(Next(l, step)) < Work(l)
    ensures !Quiet(l) && !Blocked(l) ==> Next(l, Hear) != l || Next(l, Pull(true)) != l
  {
    StepKeepsInv(l, step);
    if step.Pull? && l.pulled < |l.rows| {
      PullShape(l, step.usable);
    }
  }

  predicate Settled(l: Lane) {
    l.heard >= |l.site.log| && (l.pulled >= |l.rows| || Blocked(l))
  }

  function NextDelivery(l: Lane): Step {
    if l.heard < |l.site.log| then Hear else Pull(true)
  }

  lemma NextDeliveryFacts(l: Lane)
    requires Inv(l) && !Settled(l)
    ensures var l' := Next(l, NextDelivery(l));
      && Inv(l') && 0 <= Work(l') < Work(l)
      && l'.rows == l.rows
      && l'.central.desired == l.central.desired && l'.central.revisions == l.central.revisions
  {
    StepKeepsInv(l, NextDelivery(l));
    DeliveryMakesProgress(l, NextDelivery(l));
  }

  /** Central stops; the Site's reports and rows are delivered until nothing is left to deliver. */
  ghost function Settle(l: Lane): Lane
    requires Inv(l)
    decreases Work(l)
  {
    if Settled(l) then l
    else
      NextDeliveryFacts(l);
      Settle(Next(l, NextDelivery(l)))
  }

  /** Delivering everything empties both queues exactly when the lane is not doomed. */
  lemma {:induction false} SettleIsQuietExactly(l: Lane)
    requires Inv(l)
    ensures var s := Settle(l);
      && Inv(s) && Settled(s) && s.rows == l.rows
      && s.central.desired == l.central.desired && s.central.revisions == l.central.revisions
      && (Quiet(s) <==> !Doomed(l))
    decreases Work(l)
  {
    if Settled(l) {
      BlockedIsDoomed(l);
    } else {
      NextDeliveryFacts(l);
      StepDooms(l, NextDelivery(l));
      SettleIsQuietExactly(Next(l, NextDelivery(l)));
    }
  }

  /**
   End to end, for every run whatever was retried: delivering what is queued always ends. It ends
   with both queues empty exactly when no revocation is queued again for a Site that will know
   the deployment, and then Central's view equals the Site's.
   */
  lemma SettledRunConverges(steps: seq<Step>)
    ensures var l := Run(Created(), steps);
      && Inv(l)
      && (Quiet(Settle(l)) <==> !Doomed(l))
      && Inv(Settle(l)) && (Quiet(Settle(l)) ==> Converged(Settle(l)))
  {
    CreatedInv();
    RunKeepsInv(Created(), steps);
    var l := Run(Created(), steps);
    SettleIsQuietExactly(l);
    if Quiet(Settle(l)) {
      QuietInvMeansConverged(Settle(l));
    }
  }

  ghost predicate HoldsDesired(l: Lane) {
    && AppliedRevision(l.site) == l.central.acked == l.central.desired
    && l.central.desired in l.central.revisions
    && l.central.status == StatusFor(l.central.revisions[l.central.desired])
  }

  /** The last row took effect, or will if everything is usable from now on. */
  ghost predicate Reaches(l: Lane)
    requires Inv(l)
  {
    if l.pulled == |l.rows| then AppliedRevision(l.site) == l.central.desired
    else l.rows[|l.rows| - 1].kind != Revocation || KnownBy(l, |l.rows|)
  }

  lemma DeliveryKeepsReach(l: Lane)
    requires Inv(l) && !Settled(l)
    ensures Inv(Next(l, NextDelivery(l))) && (Reaches(Next(l, NextDelivery(l))) <==> Reaches(l))
  {
    NextDeliveryFacts(l);
    if l.heard >= |l.site.log| {
      PullLearns(l);
      PullShape(l, true);
      if l.pulled + 1 < |l.rows| {
        PullKeepsKnown(l, |l.rows|);
      }
    } else {
      assert KnownBy(Next(l, Hear), |l.rows|) <==> KnownBy(l, |l.rows|);
    }
  }

  lemma QuietReachesExactly(l: Lane)
    requires Inv(l) && Quiet(l)
    ensures HoldsDesired(l) <==> Reaches(l)
  {}

  lemma {:induction false} SettleReachesExactly(l: Lane)
    requires Inv(l)
    ensures Quiet(Settle(l)) ==> (HoldsDesired(Settle(l)) <==> Reaches(l))
    decreases Work(l)
  {
    if Settled(l) {
      if Quiet(l) { QuietReachesExactly(l); }
    } else {
      NextDeliveryFacts(l);
      DeliveryKeepsReach(l);
      SettleReachesExactly(Next(l, NextDelivery(l)));
    }
  }

  /**
   For every run: when Central stops and what is queued is delivered, the Site ends at exactly
   the desired revision, acknowledged, with the status Deployed or Revoked to match it, if and
   only if nothing is doomed and the last row took effect or can take effect.
   */
  lemma ReachesDesiredExactly(steps: seq<Step>)
    ensures var l := Run(Created(), steps);
      && Inv(l) && Settle(l).central.desired == l.central.desired
      && (Quiet(Settle(l)) && HoldsDesired(Settle(l)) <==> !Doomed(l) && Reaches(l))
  {
    CreatedInv();
    RunKeepsInv(Created(), steps);
    SettleIsQuietExactly(Run(Created(), steps));
    SettleReachesExactly(Run(Created(), steps));
  }

  /** Every row consumed so far took effect, and the first one was a snapshot. */
  ghost predicate FaultFree(l: Lane)
    requires Inv(l)
  {
    && l.rows[0].kind == Requested
    && AppliedRevision(l.site) == LastPulled(l)
  }

  lemma StepKeepsFaultFree(l: Lane, step: Step)
    requires Inv(l) && FaultFree(l) && step != Pull(false)
    ensures Inv(Next(l, step)) && FaultFree(Next(l, step))
  {
    StepKeepsInv(l, step);
    if step.Pull? && l.pulled < |l.rows| {
      PullShape(l, true);
    }
  }

  lemma {:induction false} RunKeepsFaultFree(l: Lane, steps: seq<Step>)
    requires Inv(l) && FaultFree(l) && Pull(false) !in steps
    ensures Inv(Run(l, steps)) && FaultFree(Run(l, steps))
    decreases |steps|
  {
    if steps != [] {
      RunKeepsFaultFree(l, steps[..|steps| - 1]);
      StepKeepsFaultFree(Run(l, steps[..|steps| - 1]), steps[|steps| - 1]);
    }
  }

  lemma FaultFreeReaches(l: Lane)
    requires Inv(l) && FaultFree(l)
    ensures Reaches(l)
  {}

  /** Where every snapshot is usable, it is the retries alone that decide: desired is reached exactly by the prudent runs. */
  lemma UsableRunReachesDesired(steps: seq<Step>)
    requires Pull(false) !in steps
    ensures var l := Run(Created(), steps);
      && Inv(l) && Settle(l).central.desired == l.central.desired
      && (Quiet(Settle(l)) && HoldsDesired(Settle(l)) <==> Prudent(Created(), steps))
  {
    CreatedInv();
    CreatedIsNotDoomed();
    PrudentIsNeverDoomed(Created(), steps);
    RunKeepsFaultFree(Created(), steps);
    FaultFreeReaches(Run(Created(), steps));
    ReachesDesiredExactly(steps);
  }

  // ---------------------------------------------------------------- a reachable stop

  const DEPLOYS: seq<Step> := [Pull(true), Hear, Hear]
  const FAILS: seq<Step> := [Administer(DoPush), Pull(false)]
  const REVOKES: seq<Step> := [Administer(DoRevoke), Pull(true)]
  /** The failure of revision 2 arrives late, REVOKED becomes FAILED, and the revocation is retried. */
  const RETRIES: seq<Step> := [Hear, Administer(DoRetry)]

  const DEPLOYED_LANE := Lane(
    Deployment(Deployed, 1, 1, map[1 := Requested]), [Row(1, Requested)], 1,
    Site(Some(Projection(LocalDeployed, 1, 1, {1})), [Report(Received, 1, 1), Report(Applied, 1, 1)]), 2)

  const FAILING_LANE := Lane(
    Deployment(UpdatePending, 2, 1, map[1 := Requested, 2 := Updated]), DEPLOYED_LANE.rows + [Row(2, Updated)], 2,
    Site(Some(Projection(LocalFailed, 2, 1, {1})), DEPLOYED_LANE.site.log + [Report(FailedToApply, 2, 1)]), 2)

  const REVOKED_LANE := Lane(
    Deployment(Status.Revoked, 3, 1, map[1 := Requested, 2 := Updated, 3 := Revocation]),
    FAILING_LANE.rows + [Row(3, Revocation)], 3,
    Site(Some(Projection(LocalRevoked, 3, 3, {1, 3})), FAILING_LANE.site.log + [Report(RevokedBySite, 3, 3)]), 2)

  lemma UnluckyDeploys()
    ensures Next(Next(Next(Created(), Pull(true)), Hear), Hear) == DEPLOYED_LANE
  {
    var l := Next(Created(), Pull(true));
    assert l.site.projection.value.held == {1};
  }

  lemma UnluckyFails()
    ensures Next(Next(DEPLOYED_LANE, Administer(DoPush)), Pull(false)) == FAILING_LANE
  {}

  lemma UnluckyRevokes()
    ensures Next(Next(FAILING_LANE, Administer(DoRevoke)), Pull(true)) == REVOKED_LANE
  {
    var l := Next(FAILING_LANE, Administer(DoRevoke));
    assert l.central == REVOKED_LANE.central;
    assert Next(l, Pull(true)).site.projection.value.held == {1, 3};
  }

  lemma UnluckyStops()
    ensures Blocked(Next(Next(REVOKED_LANE, Hear), Administer(DoRetry)))
  {}

  lemma RunTwo(l: Lane, a: Step, b: Step)
    ensures Run(l, [a, b]) == Next(Next(l, a), b)
  {
    assert [a, b][..1] == [a] && [a][..0] == [];
    assert Run(l, [a]) == Next(l, a);
  }

  lemma {:induction false} RunConcat(l: Lane, first: seq<Step>, second: seq<Step>)
    ensures Run(l, first + second) == Run(Run(l, first), second)
    decreases |second|
  {
    if second == [] {
      assert first + second == first;
    } else {
      RunConcat(l, first, second[..|second| - 1]);
      assert (first + second)[..|first + second| - 1] == first + second[..|second| - 1];
    }
  }

  lemma DeploysReaches()
    ensures Run(Created(), DEPLOYS) == DEPLOYED_LANE
  {
    assert DEPLOYS[..2] == [Pull(true), Hear];
    RunTwo(Created(), Pull(true), Hear);
    UnluckyDeploys();
  }

  /** A late failure undoes a revocation, and retrying it then stops the Site's stream. */
  lemma UnluckyRunBlocks()
    ensures Blocked(Run(Created(), DEPLOYS + FAILS + REVOKES + RETRIES))
  {
    RunConcat(Created(), DEPLOYS + FAILS + REVOKES, RETRIES);
    RunConcat(Created(), DEPLOYS + FAILS, REVOKES);
    RunConcat(Created(), DEPLOYS, FAILS);
    DeploysReaches();
    RunTwo(DEPLOYED_LANE, Administer(DoPush), Pull(false));
    UnluckyFails();
    RunTwo(FAILING_LANE, Administer(DoRevoke), Pull(true));
    UnluckyRevokes();
    RunTwo(REVOKED_LANE, Hear, Administer(DoRetry));
    UnluckyStops();
  }
}
