/**
 Central's deployment record: one row per (Event, Site), with a desired revision,
 an acknowledged revision, a status and the log of published revisions.

 The functions here are the specification of push, retry, revoke and of the
 reports a Site sends back; CentralStore implements them step by step.
 */
module Deployments {
  import opened Wrappers

  datatype Status = Draft | Pending | Deploying | Deployed | UpdatePending | Failed | Revoked | Archived

  /** The event type stored with a revision and sent in its envelope. */
  datatype Kind = Requested | Updated | Revocation

  /** The envelope that carries one revision to the Site. */
  datatype Row = Row(revision: nat, kind: Kind)

  datatype Deployment = Deployment(status: Status, desired: nat, acked: nat, revisions: map<nat, Kind>)

  datatype ReportKind = Received | Applied | FailedToApply | Stale | RevokedBySite

  datatype Report = Report(kind: ReportKind, desired: nat, applied: nat)

  const NEW_DEPLOYMENT := Deployment(Draft, 0, 0, map[])

  // ---------------------------------------------------------------- status table

  function AllowedTargets(from: Status): set<Status> {
    match from
    case Draft => {Pending, Archived}
    case Pending => {Deploying, Deployed, UpdatePending, Failed, Revoked}
    case Deploying => {Deployed, UpdatePending, Failed, Revoked}
    case Deployed => {UpdatePending, Revoked, Archived}
    case UpdatePending => {Deploying, Deployed, Failed, Revoked}
    case Failed => {Pending, UpdatePending, Revoked, Archived}
    case Revoked => {Pending, Archived}
    case Archived => {}
  }

  predicate Permits(from: Status, target: Status) {
    target == from || target in AllowedTargets(from)
  }

  predicate Deployable(status: Status) {
    status != Revoked && status != Archived
  }

  // ---------------------------------------------------------------- operations

  function Publish(d: Deployment, target: Status, kind: Kind): (Deployment, Row) {
    var revision := d.desired + 1;
    (Deployment(target, revision, d.acked, d.revisions[revision := kind]), Row(revision, kind))
  }

  /** Publish a new snapshot; None is the conflict answer, which changes nothing. */
  function Push(d: Deployment, initial: bool): Option<(Deployment, Row)> {
    var target := if d.desired == 0 then Pending else UpdatePending;
    var kind := if initial || d.desired == 0 then Requested else Updated;
    if Deployable(d.status) && Permits(d.status, target) && d.desired + 1 !in d.revisions
    then Some(Publish(d, target, kind)) else None
  }

  /** Send the current revision again after a failure. */
  function Retry(d: Deployment): Option<(Deployment, Row)> {
    var target := if d.acked == 0 then Pending else UpdatePending;
    if d.status == Failed && d.desired in d.revisions && Permits(d.status, target)
    then Some((d.(status := target), Row(d.desired, d.revisions[d.desired]))) else None
  }

  function Revoke(d: Deployment): Option<(Deployment, Row)> {
    if Permits(d.status, Revoked) && d.desired + 1 !in d.revisions
    then Some(Publish(d, Revoked, Revocation)) else None
  }

  /** What one report of the Site does to the record; statuses are assigned, not checked. */
  function ApplyReport(d: Deployment, r: Report): Deployment {
    match r.kind
    case Applied | Stale =>
      var acked := Max(d.acked, Min(r.applied, d.desired));
      d.(acked := acked, status := if acked == d.desired then Deployed else UpdatePending)
    case Received =>
      if d.status == Pending || d.status == UpdatePending then d.(status := Deploying) else d
    case FailedToApply => d.(status := Failed)
    case RevokedBySite =>
      d.(acked := Max(d.acked, Min(r.desired, d.desired)), status := Revoked)
  }

  /** The branches of the report handler, one assignment after the other. */
  method RecordReport(before: Deployment, report: Report) returns (d: Deployment)
    ensures d == ApplyReport(before, report)
  {
    d := before;
    match report.kind {
      case Applied | Stale =>
        d := d.(acked := Max(d.acked, Min(report.applied, d.desired)));
        if d.acked == d.desired {
          d := d.(status := Deployed);
        } else {
          d := d.(status := UpdatePending);
        }
      case Received =>
        if d.status == Pending || d.status == UpdatePending {
          d := d.(status := Deploying);
        }
      case FailedToApply =>
        d := d.(status := Failed);
      case RevokedBySite =>
        d := d.(acked := Max(d.acked, Min(report.desired, d.desired)), status := Revoked);
    }
  }

  // ---------------------------------------------------------------- invariant

  /** Holds of every deployment from the transaction that creates it onwards. */
  ghost predicate Sound(d: Deployment) {
    && 1 <= d.desired
    && d.acked <= d.desired
    && (forall i :: i in d.revisions <==> 1 <= i <= d.desired)
    && d.status != Draft && d.status != Archived
    && (d.status == Deployed ==> d.acked == d.desired)
  }

  datatype Op = DoPush | DoRetry | DoRevoke | DoReport(report: Report)

  function Perform(d: Deployment, op: Op): Option<(Deployment, Row)>
    requires !op.DoReport?
  {
    match op
    case DoPush => Push(d, false)
    case DoRetry => Retry(d)
    case DoRevoke => Revoke(d)
  }

  datatype History = History(deployment: Deployment, rows: seq<Row>)

  function Act(h: History, op: Op): History {
    if op.DoReport? then h.(deployment := ApplyReport(h.deployment, op.report))
    else match Perform(h.deployment, op)
      case None => h
      case Some((d, row)) => History(d, h.rows + [row])
  }

  function Run(h: History, ops: seq<Op>): History
    decreases |ops|
  {
    if ops == [] then h else Act(Run(h, ops[..|ops| - 1]), ops[|ops| - 1])
  }

  /** The state create_deployment commits: a fresh record and its first push. */
  function Created(): History {
    var (d, row) := Publish(NEW_DEPLOYMENT, Pending, Requested);
    History(d, [row])
  }

  ghost predicate RowsFollow(h: History) {
    && |h.rows| > 0
    && h.rows[|h.rows| - 1].revision == h.deployment.desired
    && (forall i, j :: 0 <= i <= j < |h.rows| ==> h.rows[i].revision <= h.rows[j].revision)
    && (forall i :: 0 <= i < |h.rows| ==>
          h.rows[i].revision in h.deployment.revisions &&
          h.deployment.revisions[h.rows[i].revision] == h.rows[i].kind)
  }

  lemma CreatedIsPushed()
    ensures Push(NEW_DEPLOYMENT, true) == Some((Created().deployment, Created().rows[0]))
    ensures Sound(Created().deployment) && RowsFollow(Created())
  {}

  /** One operation or report, however untimely, keeps the record sound and its counters monotone. */
  lemma ActKeepsSound(h: History, op: Op)
    requires Sound(h.deployment) && RowsFollow(h)
    ensures Sound(Act(h, op).deployment) && RowsFollow(Act(h, op))
    ensures h.deployment.acked <= Act(h, op).deployment.acked
    ensures h.deployment.desired <= Act(h, op).deployment.desired
    ensures forall i :: i in h.deployment.revisions ==>
              i in Act(h, op).deployment.revisions &&
              Act(h, op).deployment.revisions[i] == h.deployment.revisions[i]
  {}

  /**
   For every sequence of pushes, retries, revocations and arbitrary Site reports:
   the record stays sound, the acknowledged and desired revisions never go back,
   the revision log is exactly 1..desired, and the revisions queued for the Site
   never decrease and end at the desired one.
   */
  lemma {:induction false} RunKeepsSound(ops: seq<Op>)
    ensures Sound(Run(Created(), ops).deployment) && RowsFollow(Run(Created(), ops))
    decreases |ops|
  {
    if ops == [] {
      CreatedIsPushed();
    } else {
      RunKeepsSound(ops[..|ops| - 1]);
      ActKeepsSound(Run(Created(), ops[..|ops| - 1]), ops[|ops| - 1]);
    }
  }

  lemma {:induction false} RunIsMonotone(h: History, ops: seq<Op>)
    requires Sound(h.deployment) && RowsFollow(h)
    ensures Sound(Run(h, ops).deployment) && RowsFollow(Run(h, ops))
    ensures h.deployment.acked <= Run(h, ops).deployment.acked
    ensures h.deployment.desired <= Run(h, ops).deployment.desired
    decreases |ops|
  {
    if ops != [] {
      RunIsMonotone(h, ops[..|ops| - 1]);
      ActKeepsSound(Run(h, ops[..|ops| - 1]), ops[|ops| - 1]);
    }
  }

  // ---------------------------------------------------------------- consequences

  /**
   Of a sound record, push fails exactly on a revoked or archived one, retry exactly
   when the record has not failed, and revoke never: a fan-out over the deployments
   whose status is neither revoked nor archived cannot abort part-way.
   */
  lemma OperationsNeverAbort(d: Deployment, initial: bool)
    requires Sound(d)
    ensures Push(d, initial).Some? <==> d.status != Revoked
    ensures Push(d, initial).Some? ==> Push(d, initial).value.0.desired == d.desired + 1
    ensures Retry(d).Some? <==> d.status == Failed
    ensures Retry(d).Some? ==> Retry(d).value.0.(status := d.status) == d
    ensures Revoke(d).Some?
  {}

  /** The status table read by target: what can become what. */
  lemma PermitsByTarget(from: Status, target: Status)
    ensures target != from ==> (Permits(from, target) <==>
      match target
      case Draft => false
      case Pending => from == Draft || from == Failed || from == Revoked
      case Deploying => from == Pending || from == UpdatePending
      case Deployed => from == Pending || from == Deploying || from == UpdatePending
      case UpdatePending => from == Pending || from == Deploying || from == Deployed || from == Failed
      case Failed => from == Pending || from == Deploying || from == UpdatePending
      case Revoked => from != Draft && from != Archived
      case Archived => from == Draft || from == Deployed || from == Failed || from == Revoked)
    ensures Permits(from, from)
  {}

  /** Of any record at all, sound or not: when each operation is refused, and what kind of row it publishes. */
  lemma RefusedExactly(d: Deployment, initial: bool)
    ensures Push(d, initial).Some? <==>
      (d.status != Revoked && d.status != Archived && (d.desired > 0 ==> d.status != Draft)
       && (d.desired == 0 ==> d.status == Draft || d.status == Pending || d.status == Failed)
       && d.desired + 1 !in d.revisions)
    ensures Push(d, initial).Some? ==>
      (Push(d, initial).value.1.kind == if initial || d.desired == 0 then Requested else Updated)
    ensures Retry(d).Some? <==> d.status == Failed && d.desired in d.revisions
    ensures Revoke(d).Some? <==> d.status != Draft && d.status != Archived && d.desired + 1 !in d.revisions
  {}

  /** What an accepted operation on a sound record publishes and leaves, field by field. */
  lemma OperationPublishes(d: Deployment, op: Op)
    requires Sound(d) && !op.DoReport? && Perform(d, op).Some?
    ensures var (d', row) := Perform(d, op).value;
      && d'.acked == d.acked && row.revision == d'.desired && d'.revisions[row.revision] == row.kind
      && (op.DoPush? ==> row.kind == Updated && d'.status == UpdatePending)
      && (op.DoRevoke? ==> row.kind == Revocation && d'.status == Revoked)
      && (op.DoPush? || op.DoRevoke? ==>
            d'.desired == d.desired + 1 && (forall i :: i in d.revisions ==> d'.revisions[i] == d.revisions[i]))
      && (op.DoRetry? ==>
            && d'.desired == d.desired && d'.revisions == d.revisions
            && d'.status == (if d.acked == 0 then Pending else UpdatePending))
  {}

  /** What a report makes of the counters, measured against any n, and of the status, whatever the record said before. */
  lemma ReportAssigns(d: Deployment, r: Report, n: nat)
    ensures var d' := ApplyReport(d, r);
      && d'.desired == d.desired && d'.revisions == d.revisions
      && (r.kind == Received || r.kind == FailedToApply ==> d'.acked == d.acked)
      && (r.kind == Applied || r.kind == Stale ==>
            && (n <= d'.acked <==> n <= d.acked || (n <= r.applied && n <= d.desired))
            && (d'.status == Deployed <==> d'.acked == d.desired) && (d'.status == UpdatePending <==> d'.acked != d.desired))
      && (r.kind == RevokedBySite ==>
            && d'.status == Revoked
            && (n <= d'.acked <==> n <= d.acked || (n <= r.desired && n <= d.desired)))
      && (r.kind == FailedToApply ==> d'.status == Failed)
      && (r.kind == Received ==> d'.status == if d.status == Pending || d.status == UpdatePending then Deploying else d.status)
  {}

  /** Revision 1 is the request, every later one an update or a revocation. */
  ghost predicate KindsFit(d: Deployment) {
    forall i :: i in d.revisions ==> (d.revisions[i] == Requested <==> i == 1)
  }

  /** Over any run: only the first row ever requests the deployment, and a retry repeats the last row as it was. */
  lemma {:induction false} RunRequestsOnce(ops: seq<Op>)
    ensures Sound(Run(Created(), ops).deployment) && RowsFollow(Run(Created(), ops)) && KindsFit(Run(Created(), ops).deployment)
    ensures ops != [] && ops[|ops| - 1] == DoRetry ==>
      var before, after := Run(Created(), ops[..|ops| - 1]), Run(Created(), ops);
      |before.rows| > 0 && (after.rows == before.rows || after.rows == before.rows + [before.rows[|before.rows| - 1]])
    decreases |ops|
  {
    RunKeepsSound(ops);
    if ops != [] {
      RunKeepsSound(ops[..|ops| - 1]);
      RunRequestsOnce(ops[..|ops| - 1]);
    }
  }

  /** The status table alone would allow no such thing: a report overrides it. */
  lemma LateReportUndoesRevocation(d: Deployment, r: Report)
    requires Sound(d) && d.status == Revoked && (r.kind == Applied || r.kind == Stale)
    ensures var d' := ApplyReport(d, r);
      && (d'.status == UpdatePending <==> d.acked < d.desired && r.applied < d.desired)
      && (d'.status == Deployed <==> d.acked == d.desired || d.desired <= r.applied)
      && !Permits(Revoked, d'.status)
  {}

  /** On a record that was never pushed, a report would break push for good. */
  lemma UnpublishedDraftWouldBreak(r: Report)
    requires r.kind == Applied
    ensures Push(ApplyReport(NEW_DEPLOYMENT, r), false).None?
  {}
}
