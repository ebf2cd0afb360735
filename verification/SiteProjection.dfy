/**
 The Site's side of one deployment: its local projection, the log of status
 reports it has queued for Central, and what one delivered row does to both.
 */
module SiteProjection {
  import opened Wrappers
  import opened Deployments

  datatype LocalStatus = LocalDeployed | LocalRevoked | LocalFailed

  /** held: the revisions in the Site's own revision table, unique per deployment. */
  datatype Projection = Projection(status: LocalStatus, desired: nat, applied: nat, held: set<nat>)

  datatype Site = Site(projection: Option<Projection>, log: seq<Report>)

  /** Aborted: the pull transaction rolls back and the row stays undelivered. */
  datatype Outcome = Done(site: Site) | Aborted

  function AppliedRevision(s: Site): nat {
    if s.projection.Some? then s.projection.value.applied else 0
  }

  /** Status reports are queued once per (desired, applied, status). */
  function QueueOnce(log: seq<Report>, p: Projection, kind: ReportKind): seq<Report> {
    var r := Report(kind, p.desired, p.applied);
    if r in log then log else log + [r]
  }

  /** A row the Site cannot apply is still consumed; Central is told it failed. */
  function ReportFailure(s: Site, revision: nat): Site {
    var p := if s.projection.None? then None
      else Some(s.projection.value.(status := LocalFailed, desired := Max(s.projection.value.desired, revision)));
    Site(p, s.log + [Report(FailedToApply, Max(1, revision), AppliedRevision(s))])
  }

  /** usable: whether writing the snapshot into the Site's program tables succeeds. */
  function ApplySnapshot(s: Site, revision: nat, usable: bool): Site {
    if s.projection.Some? && revision <= s.projection.value.applied then
      var p := s.projection.value.(desired := Max(s.projection.value.desired, revision));
      Site(Some(p), QueueOnce(s.log, p, if revision == p.applied then Applied else Stale))
    else if !usable then ReportFailure(s, revision)
    else
      var held := if s.projection.Some? then s.projection.value.held else {};
      var p := Projection(LocalDeployed, revision, revision, held + {revision});
      Site(Some(p), QueueOnce(QueueOnce(s.log, p, Received), p, Applied))
  }

  function ApplyRevocation(s: Site, revision: nat): Outcome {
    if s.projection.None? then Done(ReportFailure(s, revision))
    else if revision in s.projection.value.held then Aborted
    else
      var before := s.projection.value;
      var p := Projection(LocalRevoked, Max(before.desired, revision), Max(before.applied, revision), before.held + {revision});
      Done(Site(Some(p), QueueOnce(s.log, p, RevokedBySite)))
  }

  function ApplyRow(s: Site, row: Row, usable: bool): Outcome {
    if row.kind == Revocation then ApplyRevocation(s, row.revision)
    else Done(ApplySnapshot(s, row.revision, usable))
  }

  /**
   A snapshot that is not newer changes no more than the highest revision heard of, and is answered at
   most once: as applied if it is the one in force, as stale if it is older.
   */
  lemma KnownSnapshot(s: Site, revision: nat, usable: bool, n: nat)
    requires s.projection.Some? && revision <= s.projection.value.applied
    ensures var site, p := ApplySnapshot(s, revision, usable), s.projection.value;
      && site.projection.Some? && site.projection.value == p.(desired := site.projection.value.desired)
      && (n <= site.projection.value.desired <==> n <= p.desired || n <= revision)
      && var answer := Report(if revision == p.applied then Applied else Stale, site.projection.value.desired, p.applied);
      site.log == if answer in s.log then s.log else s.log + [answer]
  {}
}
