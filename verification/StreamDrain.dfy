/**
 Exactly when the stream between Central and one Site runs dry: which queued row will stop
 the Site's batches, which report will stop Central's receiver, and which steps bring either
 about.
 */
module StreamDrain {
  import opened Wrappers
  import opened Deployments
  import opened SiteProjection
  import opened SiteStream
  import L = DeploymentLane

  // ---------------------------------------------------------------- rows that stop the Site

  /** The k-th row is a revocation sent again, and the Site will know its deployment when it comes. */
  ghost predicate PoisonAt(s: System, k: nat) {
    && s.pulled <= k < |s.outbox| && s.heard <= |s.log|
    && s.outbox[k].ForDeployment? && Tracked(s, s.outbox[k].id)
    && var id := s.outbox[k].id;
    && var l, j := LaneOf(s, id), |RowsOf(s.outbox[..k], id)|;
    && j < |l.rows| && L.Resent(l.rows, j) && L.KnownBy(l, j)
  }

  ghost predicate Poisoned(s: System) {
    exists k: nat :: PoisonAt(s, k)
  }

  lemma {:induction false} RowsGrow(items: seq<Item>, j: nat, k: nat, id: DeploymentId)
    requires j <= k <= |items|
    ensures |RowsOf(items[..j], id)| <= |RowsOf(items[..k], id)|
    decreases k
  {
    if j < k {
      assert items[..k][..k - 1] == items[..k - 1];
      RowsGrow(items, j, k - 1, id);
    }
  }

  lemma LaneIsInv(s: System, id: DeploymentId)
    requires Inv(s) && Tracked(s, id)
    ensures L.Inv(LaneOf(s, id))
  {}

  /** The next row stops the Site exactly if it is poison. */
  lemma NextIsRefusedExactly(s: System)
    requires Inv(s) && s.pulled < |s.outbox|
    ensures Take(s, Offer(s.pulled, true)).None? <==> PoisonAt(s, s.pulled)
  {
    hide RowsOf, ReportsOf, ApplyRow, SiteOf, Tracked, Consistent, L.Inv, StoreSite;
    if s.outbox[s.pulled].ForDeployment? {
      var id := s.outbox[s.pulled].id;
      PendingIsTracked(s, s.pulled);
      LaneIsInv(s, id);
      RowsOfSplit(s.outbox, s.pulled, id);
      L.BlockedIsDoomed(LaneOf(s, id));
    }
  }

  /** Taking the next row changes the prospects of no later one, except that a failing snapshot can only improve them. */
  lemma TakeKeepsPoison(s: System, usable: bool, k: nat)
    requires Inv(s) && s.pulled < k < |s.outbox| && Take(s, Offer(s.pulled, usable)).Some?
    ensures PoisonAt(Take(s, Offer(s.pulled, usable)).value, k) ==> PoisonAt(s, k)
    ensures usable ==> (PoisonAt(s, k) <==> PoisonAt(Take(s, Offer(s.pulled, usable)).value, k))
  {
    hide Take, RowsOf, ReportsOf, ApplyRow, Tracked, Consistent, L.Inv, L.KnownBy, L.Resent, L.Next, L.Blocked;
    var s' := Take(s, Offer(s.pulled, usable)).value;
    TakeFrame(s, Offer(s.pulled, usable));
    TakeKeepsWellFormed(s, Offer(s.pulled, usable));
    if s.outbox[k].ForDeployment? {
      var id := s.outbox[k].id;
      PendingIsTracked(s, k);
      PendingIsTracked(s', k);
      LaneIsInv(s, id);
      TakeNextProjects(s, usable, id);
      RowsOfSplit(s.outbox, k, id);
      if s.outbox[s.pulled].ForDeployment? && s.outbox[s.pulled].id == id {
        OwnTakeKeepsPoison(s, usable, k);
      }
    }
  }

  lemma OwnTakeKeepsPoison(s: System, usable: bool, k: nat)
    requires Inv(s) && s.pulled < k < |s.outbox| && Take(s, Offer(s.pulled, usable)).Some?
    requires s.outbox[k].ForDeployment? && s.outbox[s.pulled].ForDeployment? && s.outbox[s.pulled].id == s.outbox[k].id
    requires Tracked(s, s.outbox[k].id)
    ensures var l, j := LaneOf(s, s.outbox[k].id), |RowsOf(s.outbox[..k], s.outbox[k].id)|;
      var l' := L.Next(l, L.Pull(usable));
      && j <= |l.rows| && l'.rows == l.rows
      && (L.KnownBy(l', j) ==> L.KnownBy(l, j)) && (usable ==> (L.KnownBy(l', j) <==> L.KnownBy(l, j)))
  {
    hide RowsOf, ReportsOf, ApplyRow, Tracked, Consistent, L.Inv, L.KnownBy, StoreSite, SiteOf;
    var id := s.outbox[k].id;
    var l, j := LaneOf(s, id), |RowsOf(s.outbox[..k], id)|;
    LaneIsInv(s, id);
    RowsOfSplit(s.outbox, s.pulled, id);
    RowsOfSplit(s.outbox, k, id);
    RowsGrow(s.outbox, s.pulled + 1, k, id);
    assert l.pulled < j <= |l.rows|;
    assert L.Next(l, L.Pull(usable)).pulled > l.pulled;
    L.PullAddsNoKnowledge(l, usable, j);
    if usable { L.PullKeepsKnown(l, j); }
  }

  // ---------------------------------------------------------------- deployments the Site has something to say about

  ghost predicate Unheard(s: System, id: DeploymentId) {
    exists k :: s.heard <= k < |s.log| && s.log[k].id == id
  }

  /** The k-th row will make the Site report: it does not carry the revision the Site has applied. */
  predicate Tells(s: System, k: nat)
    requires k < |s.outbox|
  {
    s.outbox[k].ForDeployment? && s.outbox[k].row.revision != AppliedRevision(SiteOf(s, s.outbox[k].id))
  }

  ghost predicate WillTell(s: System, id: DeploymentId) {
    exists k: nat :: s.pulled <= k < |s.outbox| && Tells(s, k) && s.outbox[k].id == id
  }

  ghost predicate Unsettled(s: System, id: DeploymentId) {
    Unheard(s, id) || WillTell(s, id)
  }

  /** Central will be told about a deployment it has deleted, and will not listen from there on. */
  ghost predicate Deaf(s: System) {
    exists id :: id !in s.deployments && Unsettled(s, id)
  }

  /** What a row does to its own deployment's Site state, told or untold. */
  lemma RowTells(s: System, usable: bool)
    requires Inv(s) && s.pulled < |s.outbox| && s.outbox[s.pulled].ForDeployment?
    ensures var ForDeployment(id, row) := s.outbox[s.pulled];
      var outcome := ApplyRow(SiteOf(s, id), row, usable);
      outcome.Done? ==>
        if Tells(s, s.pulled) then |outcome.site.log| > |SiteOf(s, id).log| else outcome.site == SiteOf(s, id)
  {
    hide RowsOf, ReportsOf, ApplyRow, Tracked, Consistent, L.Inv, SiteOf;
    var id := s.outbox[s.pulled].id;
    PendingIsTracked(s, s.pulled);
    LaneIsInv(s, id);
    RowsOfSplit(s.outbox, s.pulled, id);
    L.PullShape(LaneOf(s, id), usable);
  }

  lemma {:induction false} TaggedReports(log: seq<Tagged>, id: DeploymentId)
    ensures ReportsOf(log, id) != [] <==> exists k :: 0 <= k < |log| && log[k].id == id
    decreases |log|
  {
    if log != [] {
      var init := log[..|log| - 1];
      TaggedReports(init, id);
      if k :| 0 <= k < |log| && log[k].id == id {
        assert k < |init| ==> init[k].id == id;
      }
      if k :| 0 <= k < |init| && init[k].id == id {
        assert log[k].id == id;
      }
    }
  }

  /** How the log grows when a row is taken: by the reports of its own deployment. */
  lemma TakeLogs(s: System, usable: bool, id: DeploymentId)
    requires Inv(s) && s.pulled < |s.outbox| && Take(s, Offer(s.pulled, usable)).Some?
    ensures var s', item := Take(s, Offer(s.pulled, usable)).value, s.outbox[s.pulled];
      && |s.log| <= |s'.log| && s'.log[..|s.log|] == s.log
      && ((exists k :: |s.log| <= k < |s'.log| && s'.log[k].id == id) <==> item.ForDeployment? && item.id == id && Tells(s, s.pulled))
  {
    hide ReportsOf, ApplyRow, RowsOf, Consistent, Tracked, L.Inv;
    var s', item := Take(s, Offer(s.pulled, usable)).value, s.outbox[s.pulled];
    if item.ForDeployment? {
      RowTells(s, usable);
      ApplyRowAppends(SiteOf(s, item.id), item.row, usable);
      var site := ApplyRow(SiteOf(s, item.id), item.row, usable).site;
      var added := site.log[|SiteOf(s, item.id).log|..];
      assert s'.log == s.log + Tag(item.id, added);
      assert added != [] ==> s'.log[|s.log|].id == item.id;
    }
  }

  /** Afterwards only the row's own deployment may have another state, and not that if the row told nothing. */
  lemma TakeSites(s: System, usable: bool, id: DeploymentId)
    requires Inv(s) && s.pulled < |s.outbox| && Take(s, Offer(s.pulled, usable)).Some?
    requires !(s.outbox[s.pulled].ForDeployment? && s.outbox[s.pulled].id == id && Tells(s, s.pulled))
    requires s.outbox[s.pulled] != Tombstone(id)
    ensures SiteOf(Take(s, Offer(s.pulled, usable)).value, id) == SiteOf(s, id)
  {
    hide ReportsOf, ApplyRow, RowsOf, Consistent, Tracked, L.Inv, StoreSite, SiteOf;
    var s', item := Take(s, Offer(s.pulled, usable)).value, s.outbox[s.pulled];
    match item
    case ForDeployment(i, row) =>
      RowTells(s, usable);
      ApplyRowAppends(SiteOf(s, i), row, usable);
      SiteOfFacts(s, i);
      var site := ApplyRow(SiteOf(s, i), row, usable).site;
      StoreSiteIsLocal(s, i, site, id);
      SiteOfIgnoresPulled(StoreSite(s, i, site), s', id);
    case Tombstone(i) => OtherTombstone(s, s', i, id);
    case Setting => SiteOfIgnoresPulled(s, s', id);
  }

  lemma OtherTombstone(s: System, s': System, i: DeploymentId, id: DeploymentId)
    requires s'.projections == s.projections - {i} && s'.log == s.log && i != id
    ensures SiteOf(s', id) == SiteOf(s, id)
  {}

  /** Taking a row turns what the Site would say into what it has said. */
  lemma TakeKeepsUnsettled(s: System, usable: bool, id: DeploymentId)
    requires Inv(s) && s.pulled < |s.outbox| && Take(s, Offer(s.pulled, usable)).Some?
    ensures Unsettled(Take(s, Offer(s.pulled, usable)).value, id) <==> Unsettled(s, id)
  {
    hide Take, ReportsOf, RowsOf, Tracked, SiteOf, L.Inv;
    var s', item := Take(s, Offer(s.pulled, usable)).value, s.outbox[s.pulled];
    TakeFrame(s, Offer(s.pulled, usable));
    TakeLogs(s, usable, id);
    assert forall k :: s.heard <= k < |s.log| ==> s'.log[k] == s.log[k];
    assert Unheard(s', id) <==> Unheard(s, id) || (item.ForDeployment? && item.id == id && Tells(s, s.pulled));
    if item == Tombstone(id) {
      assert forall k :: s.pulled < k < |s.outbox| ==> !Concerns(s.outbox[k], id);
      assert !WillTell(s, id) && !WillTell(s', id);
    } else if item.ForDeployment? && item.id == id && Tells(s, s.pulled) {
      assert WillTell(s, id);
    } else {
      TakeSites(s, usable, id);
      assert forall k: nat :: s.pulled < k < |s.outbox| && s.outbox[k].ForDeployment? && s.outbox[k].id == id ==> (Tells(s', k) <==> Tells(s, k));
      assert WillTell(s', id) <==> WillTell(s, id);
    }
  }

  // ---------------------------------------------------------------- batches

  /** The next n rows, all usable. */
  function Window(s: System, n: nat): seq<Offer> {
    seq(n, i requires 0 <= i < n => Offer(s.pulled + i, true))
  }

  /** What Central answers to a poll, once it has heard of everything the Site consumed. */
  function Poll(s: System, limit: nat): seq<Offer>
    requires s.pulled <= |s.outbox|
  {
    Window(s, Min(limit, |s.outbox| - s.pulled))
  }

  lemma WindowOneMore(s: System, n: nat)
    ensures Window(s, n + 1)[..n] == Window(s, n) && Window(s, n + 1)[n] == Offer(s.pulled + n, true)
  {}

  lemma TakeAllKeepsInv(s: System, batch: seq<Offer>)
    requires Inv(s) && TakeAll(s, batch).Some?
    ensures Inv(TakeAll(s, batch).value)
  {
    hide Inv, TakeAll;
    StepKeepsInv(s, DeliverItems(batch));
  }

  /** A batch is refused as a whole exactly if one of its rows is poison: the stream stops where the batch begins. */
  lemma {:induction false} BatchRefusedExactly(s: System, n: nat)
    requires Inv(s) && s.pulled + n <= |s.outbox|
    ensures TakeAll(s, Window(s, n)).None? <==> exists k: nat :: s.pulled <= k < s.pulled + n && PoisonAt(s, k)
    ensures TakeAll(s, Window(s, n)).Some? ==>
      var s' := TakeAll(s, Window(s, n)).value;
      && Inv(s') && s' == s.(pulled := s.pulled + n, projections := s'.projections, log := s'.log)
      && (forall k: nat :: k >= s'.pulled ==> (PoisonAt(s', k) <==> PoisonAt(s, k)))
      && (forall id :: Unsettled(s', id) <==> Unsettled(s, id))
      && |s'.log| <= |s.log| + 2 * n
    decreases n
  {
    hide Take, PoisonAt, Unsettled, Consistent, Tracked, L.Inv;
    if n > 0 {
      WindowOneMore(s, n - 1);
      BatchRefusedExactly(s, n - 1);
      if TakeAll(s, Window(s, n - 1)).Some? {
        var mid := TakeAll(s, Window(s, n - 1)).value;
        NextIsRefusedExactly(mid);
        if Take(mid, Offer(mid.pulled, true)).Some? {
          TakeAllKeepsInv(s, Window(s, n));
          TakeFrame(mid, Offer(mid.pulled, true));
          TakeAddsTwo(mid, true);
          var s' := Take(mid, Offer(mid.pulled, true)).value;
          forall k: nat | k >= s'.pulled
            ensures PoisonAt(s', k) <==> PoisonAt(s, k)
          {
            if k < |s.outbox| { TakeKeepsPoison(mid, true, k); } else { NoPoisonPastEnd(s, s', k); }
          }
          forall id
            ensures Unsettled(s', id) <==> Unsettled(s, id)
          {
            TakeKeepsUnsettled(mid, true, id);
          }
        }
      }
    }
  }

  lemma NoPoisonPastEnd(s: System, s': System, k: nat)
    requires k >= |s.outbox| && s'.outbox == s.outbox
    ensures !PoisonAt(s, k) && !PoisonAt(s', k)
  {}

  lemma TakeAddsTwo(s: System, usable: bool)
    requires s.pulled < |s.outbox| && Take(s, Offer(s.pulled, usable)).Some?
    ensures |Take(s, Offer(s.pulled, usable)).value.log| <= |s.log| + 2
  {}

  // ---------------------------------------------------------------- running dry

  predicate Drained(s: System) {
    s.pulled == |s.outbox| && s.heard == |s.log|
  }

  predicate Hears(s: System) {
    s.heard < |s.log| && s.log[s.heard].id in s.deployments
  }

  predicate Pulls(s: System, limit: nat) {
    s.pulled < |s.outbox| && TakeAll(s, Poll(s, limit)).Some?
  }

  /** Consumed rows queue at most two reports each. */
  function Work(s: System): int {
    3 * (|s.outbox| - s.pulled) + (|s.log| - s.heard)
  }

  lemma HearingFacts(s: System)
    requires Inv(s) && Hears(s)
    ensures var s' := Next(s, DeliverReport(s.heard));
      && Inv(s') && 0 <= Work(s') < Work(s) && s'.deployments.Keys == s.deployments.Keys
  {
    hide Consistent, NothingLeftBehind, Tracked, L.Inv, RowsOf, ReportsOf;
    StepKeepsInv(s, DeliverReport(s.heard));
  }

  lemma PullingFacts(s: System, limit: nat)
    requires Inv(s) && Pulls(s, limit) && limit > 0
    ensures var s' := TakeAll(s, Poll(s, limit)).value;
      && Inv(s') && 0 <= Work(s') < Work(s) && s'.deployments == s.deployments
  {
    hide PoisonAt, Unsettled, TakeAll, Consistent, Tracked, L.Inv;
    BatchRefusedExactly(s, Min(limit, |s.outbox| - s.pulled));
  }

  /** Central stops acting; reports and polled batches are delivered until neither end takes any more. */
  ghost function Settle(s: System, limit: nat): System
    requires Inv(s) && limit > 0
    decreases Work(s)
  {
    if Hears(s) then
      HearingFacts(s);
      Settle(Next(s, DeliverReport(s.heard)), limit)
    else if Pulls(s, limit) then
      PullingFacts(s, limit);
      Settle(TakeAll(s, Poll(s, limit)).value, limit)
    else s
  }

  /** Hearing a live deployment's report changes nothing for rows and for deleted deployments. */
  lemma HearKeepsProspects(s: System, k: nat)
    requires Inv(s)
    ensures var s' := Next(s, DeliverReport(k));
      && (forall i: nat :: PoisonAt(s', i) <==> PoisonAt(s, i))
      && (Deaf(s') <==> Deaf(s))
  {
    hide RowsOf, ReportsOf, Consistent, L.Inv;
    var s' := Next(s, DeliverReport(k));
    StepKeepsWellFormed(s, DeliverReport(k));
    if s' != s {
      forall i: nat
        ensures PoisonAt(s', i) <==> PoisonAt(s, i)
      {
        if s.pulled <= i < |s.outbox| && s.outbox[i].ForDeployment? { HearKeepsPoison(s, k, i); }
      }
      forall id | id !in s.deployments
        ensures Unsettled(s', id) <==> Unsettled(s, id)
      {
        assert SiteOf(s', id) == SiteOf(s, id);
        assert Unheard(s', id) <==> Unheard(s, id);
        assert WillTell(s', id) <==> WillTell(s, id);
      }
    }
  }

  lemma HearKeepsPoison(s: System, k: nat, i: nat)
    requires Inv(s) && s.pulled <= i < |s.outbox| && s.outbox[i].ForDeployment?
    ensures PoisonAt(Next(s, DeliverReport(k)), i) <==> PoisonAt(s, i)
  {
    hide RowsOf, ReportsOf, L.Inv, Tracked;
    var s', id := Next(s, DeliverReport(k)), s.outbox[i].id;
    StepKeepsWellFormed(s, DeliverReport(k));
    PendingIsTracked(s, i);
    PendingIsTracked(s', i);
    var l, l' := LaneOf(s, id), LaneOf(s', id);
    assert l'.rows == l.rows && l'.pulled == l.pulled && l'.site.projection == l.site.projection;
  }

  /** What settling keeps and where it ends. */
  lemma {:induction false} SettleDrainsExactly(s: System, limit: nat)
    requires Inv(s) && limit > 0
    ensures var f := Settle(s, limit);
      && Inv(f) && f.deployments.Keys == s.deployments.Keys
      && (Drained(f) <==> !Poisoned(s) && !Deaf(s))
    decreases Work(s)
  {
    hide PoisonAt, Deaf, TakeAll, Next;
    if Hears(s) {
      HearingFacts(s);
      HearKeepsProspects(s, s.heard);
      SettleDrainsExactly(Next(s, DeliverReport(s.heard)), limit);
    } else if Pulls(s, limit) {
      PullingFacts(s, limit);
      PullKeepsProspects(s, limit);
      SettleDrainsExactly(TakeAll(s, Poll(s, limit)).value, limit);
    } else {
      StoppedExactly(s, limit);
    }
  }

  lemma PullKeepsProspects(s: System, limit: nat)
    requires Inv(s) && Pulls(s, limit) && limit > 0
    ensures var s' := TakeAll(s, Poll(s, limit)).value;
      (Poisoned(s') <==> Poisoned(s)) && (Deaf(s') <==> Deaf(s))
  {
    hide PoisonAt, Unsettled, TakeAll;
    BatchRefusedExactly(s, Min(limit, |s.outbox| - s.pulled));
    var s' := TakeAll(s, Poll(s, limit)).value;
    forall k: nat | k < s'.pulled
      ensures !PoisonAt(s', k) && !PoisonAt(s, k)
    {
      if k < s.pulled { NoPoisonBehind(s, k); }
      NoPoisonBehind(s', k);
    }
    assert forall id :: id !in s.deployments ==> (Unsettled(s', id) <==> Unsettled(s, id));
  }

  lemma NoPoisonBehind(s: System, k: nat)
    requires k < s.pulled
    ensures !PoisonAt(s, k)
  {}

  lemma StoppedExactly(s: System, limit: nat)
    requires Inv(s) && limit > 0 && !Hears(s) && !Pulls(s, limit)
    ensures Drained(s) <==> !Poisoned(s) && !Deaf(s)
  {
    hide RowsOf, ReportsOf, Tracked, L.Inv, TakeAll;
    if s.heard < |s.log| {
      assert Unheard(s, s.log[s.heard].id);
    } else if s.pulled < |s.outbox| {
      BatchRefusedExactly(s, Min(limit, |s.outbox| - s.pulled));
    } else {
      assert forall id :: !Unheard(s, id) && !WillTell(s, id);
    }
  }

  /**
   For every run, every behaviour of the network and every batch size: delivering what is queued
   always ends. It ends with both streams consumed exactly when no row is poison and Central will
   not be told about a deployment it has deleted, and then every live deployment has converged.
   */
  lemma EveryRunDrainsExactly(steps: seq<Step>, limit: nat)
    requires limit > 0
    ensures var s := SiteStream.Run(EMPTY, steps);
      && Inv(s)
      && var f := Settle(s, limit);
      && Inv(f) && f.deployments.Keys == s.deployments.Keys
      && (Drained(f) <==> !Poisoned(s) && !Deaf(s))
      && (Drained(f) ==> forall id :: id in f.deployments ==> L.Converged(LaneOf(f, id)))
  {
    hide RowsOf, ReportsOf, Poisoned, Deaf, L.Inv, L.Converged, Next;
    EmptyIsClean();
    RunKeepsInv(EMPTY, steps);
    var s := SiteStream.Run(EMPTY, steps);
    SettleDrainsExactly(s, limit);
    var f := Settle(s, limit);
    if Drained(f) {
      DrainedConverges(f);
    }
  }

  lemma EmptyIsClean()
    ensures Inv(EMPTY) && !Poisoned(EMPTY) && !Deaf(EMPTY)
  {}

  // ---------------------------------------------------------------- which steps bring it about

  /** A retry that sends a revocation again to a Site that knows the deployment, or will. */
  ghost predicate FatalRetry(s: System, step: Step)
    requires WellFormed(s)
  {
    step.Administer? && step.id in s.deployments && L.Fatal(LaneOf(s, step.id), L.Administer(step.op))
  }

  /** A deletion while the Site has something to say about the deployment, now or by what is queued. */
  ghost predicate HastyDeletion(s: System, step: Step) {
    step.Delete? && step.id in s.deployments && Unsettled(s, step.id)
  }

  /** Poison among the rows that were there already is what it was. */
  lemma AppendKeepsPoison(s: System, step: Step, k: nat)
    requires Inv(s) && !step.DeliverItems? && !step.DeliverReport? && k < |s.outbox|
    ensures PoisonAt(Next(s, step), k) <==> PoisonAt(s, k)
  {
    hide RowsOf, ReportsOf, Consistent, Tracked, L.Inv, L.KnownBy, L.Resent, SiteOf, Next;
    var s' := Next(s, step);
    StepKeepsWellFormed(s, step);
    CentralAppends(s, step);
    if s.pulled <= k && s.outbox[k].ForDeployment? {
      var id := s.outbox[k].id;
      PendingIsTracked(s, k);
      CentralKeepsTracked(s, step, id);
      AppendProjects(s, step, id);
      LaneIsInv(s, id);
      RowsOfSplit(s.outbox, k, id);
      assert s'.outbox[..k] == s.outbox[..k] && s'.outbox[k] == s.outbox[k];
      if step.Administer? && step.id == id && id in s.deployments && L.Next(LaneOf(s, id), L.Administer(step.op)) != LaneOf(s, id) {
        L.AdministerAddsRow(LaneOf(s, id), step.op);
      }
    }
  }

  /** Central's transactions only append to the outbox. */
  lemma CentralAppends(s: System, step: Step)
    requires !step.DeliverItems? && !step.DeliverReport?
    ensures var s' := Next(s, step);
      && s'.pulled == s.pulled && s'.heard == s.heard && s'.log == s.log && s'.projections == s.projections
      && |s.outbox| <= |s'.outbox| <= |s.outbox| + 1 && s'.outbox[..|s.outbox|] == s.outbox
      && (|s'.outbox| > |s.outbox| && s'.outbox[|s.outbox|].ForDeployment? ==>
            (step.Administer? || step.Create?) && s'.outbox[|s.outbox|].id == step.id)
      && (forall id :: id in s'.deployments <==>
            (id in s.deployments && step != Delete(id)) || (step == Create(id) && !Mentioned(s, id)))
  {}

  /** A new row is poison exactly if a fatal retry sent it. */
  lemma NewRowIsPoisonExactly(s: System, step: Step)
    requires Inv(s) && !step.DeliverItems? && !step.DeliverReport?
    ensures PoisonAt(Next(s, step), |s.outbox|) <==> FatalRetry(s, step)
  {
    hide RowsOf, ReportsOf, Consistent, Tracked, L.Inv, L.KnownBy, L.Resent, SiteOf, L.Next;
    var s', n := Next(s, step), |s.outbox|;
    StepKeepsInv(s, step);
    CentralAppends(s, step);
    match step
    case Create(id) =>
      if !Mentioned(s, id) {
        CreateStartsLane(s, id);
        FirstRowIsNoRevocation();
        OwnRowIsLast(s, s', id);
      }
    case Administer(id, op) =>
      if id in s.deployments {
        LiveIsTracked(s, id);
        LiveIsTracked(s', id);
        LaneIsInv(s, id);
        AppendProjects(s, step, id);
        L.FatalChangesLane(LaneOf(s, id), op);
        if LaneOf(s', id) != LaneOf(s, id) {
          L.AdministerAddsRow(LaneOf(s, id), op);
          OwnRowIsLast(s, s', id);
        }
      }
    case _ =>
  }

  lemma LiveIsTracked(s: System, id: DeploymentId)
    requires id in s.deployments
    ensures Tracked(s, id)
  {}

  lemma FirstRowIsNoRevocation()
    ensures forall j: nat :: j < |L.Created().rows| ==> !L.Resent(L.Created().rows, j)
  {}

  lemma OwnRowIsLast(s: System, s': System, id: DeploymentId)
    requires |s'.outbox| == |s.outbox| + 1 && s'.outbox[..|s.outbox|] == s.outbox
    requires s'.outbox[|s.outbox|].ForDeployment? && s'.outbox[|s.outbox|].id == id
    ensures |RowsOf(s'.outbox, id)| == |RowsOf(s'.outbox[..|s.outbox|], id)| + 1
    ensures RowsOf(s'.outbox[..|s.outbox|], id) == RowsOf(s.outbox, id)
  {}

  /** One envelope, at whatever number: no poison appears, and with usable rows none disappears. */
  lemma OfferPoison(s: System, offer: Offer)
    requires Inv(s) && Take(s, offer).Some?
    ensures Inv(Take(s, offer).value)
    ensures Poisoned(Take(s, offer).value) ==> Poisoned(s)
    ensures offer.usable ==> (Poisoned(Take(s, offer).value) <==> Poisoned(s))
    ensures forall id :: Unsettled(Take(s, offer).value, id) <==> Unsettled(s, id)
  {
    hide Take, PoisonAt, Unsettled, Inv;
    TakeFrame(s, offer);
    OfferKeepsInv(s, offer);
    if offer.k == s.pulled {
      NextIsRefusedExactly(s);
      var s' := Take(s, offer).value;
      forall k: nat
        ensures PoisonAt(s', k) ==> PoisonAt(s, k)
        ensures offer.usable ==> (PoisonAt(s', k) <==> PoisonAt(s, k))
      {
        if k < s.pulled { NoPoisonBehind(s, k); }
        if k < s'.pulled { NoPoisonBehind(s', k); }
        if k >= |s.outbox| { NoPoisonPastEnd(s, s', k); }
        if s.pulled < k < |s.outbox| { TakeKeepsPoison(s, offer.usable, k); }
      }
      forall id
        ensures Unsettled(s', id) <==> Unsettled(s, id)
      {
        TakeKeepsUnsettled(s, offer.usable, id);
      }
    }
  }

  lemma OfferKeepsInv(s: System, offer: Offer)
    requires Inv(s) && Take(s, offer).Some?
    ensures Inv(Take(s, offer).value)
  {
    hide Take, Inv;
    assert [offer][..0] == [];
    assert TakeAll(s, []) == Some(s);
    assert TakeAll(s, [offer]) == Take(s, offer);
    TakeAllKeepsInv(s, [offer]);
  }

  lemma {:induction false} BatchPoison(s: System, batch: seq<Offer>)
    requires Inv(s) && TakeAll(s, batch).Some?
    ensures var s' := TakeAll(s, batch).value;
      && Inv(s') && s'.deployments == s.deployments
      && (Poisoned(s') ==> Poisoned(s))
      && ((forall i :: 0 <= i < |batch| ==> batch[i].usable) ==> (Poisoned(s') <==> Poisoned(s)))
      && (forall id :: Unsettled(s', id) <==> Unsettled(s, id))
    decreases |batch|
  {
    hide Take, Poisoned, Unsettled, Inv;
    if batch != [] {
      var init, last := batch[..|batch| - 1], batch[|batch| - 1];
      BatchPoison(s, init);
      OfferPoison(TakeAll(s, init).value, last);
      TakeFrame(TakeAll(s, init).value, last);
    }
  }

  predicate AllUsable(step: Step) {
    step.DeliverItems? ==> forall i :: 0 <= i < |step.batch| ==> step.batch[i].usable
  }

  /** Poison comes only from fatal retries, and only a failing snapshot takes it away. */
  lemma StepPoisonsExactly(s: System, step: Step)
    requires Inv(s)
    ensures Poisoned(Next(s, step)) ==> Poisoned(s) || FatalRetry(s, step)
    ensures AllUsable(step) ==> (Poisoned(Next(s, step)) <==> Poisoned(s) || FatalRetry(s, step))
  {
    hide PoisonAt, TakeAll, Unsettled, Deaf, Consistent, Tracked, L.Inv;
    var s' := Next(s, step);
    if step.DeliverItems? {
      if TakeAll(s, step.batch).Some? { BatchPoison(s, step.batch); }
    } else if step.DeliverReport? {
      HearKeepsProspects(s, step.k);
    } else {
      CentralAppends(s, step);
      NewRowIsPoisonExactly(s, step);
      forall k: nat
        ensures k != |s.outbox| ==> (PoisonAt(s', k) <==> PoisonAt(s, k))
      {
        if k < |s.outbox| { AppendKeepsPoison(s, step, k); } else if k > |s.outbox| { NoPoisonSoFar(s, k); NoPoisonSoFar(s', k); }
      }
      NoPoisonSoFar(s, |s.outbox|);
    }
  }

  lemma NoPoisonSoFar(s: System, k: nat)
    requires k >= |s.outbox|
    ensures !PoisonAt(s, k)
  {}

  /** Central becomes deaf exactly by a hasty deletion, and never hears again. */
  lemma StepDeafensExactly(s: System, step: Step)
    requires Inv(s)
    ensures Deaf(Next(s, step)) <==> Deaf(s) || HastyDeletion(s, step)
  {
    hide PoisonAt, TakeAll, Unsettled, L.Inv;
    var s' := Next(s, step);
    if step.DeliverItems? {
      if TakeAll(s, step.batch).Some? { BatchPoison(s, step.batch); }
    } else if step.DeliverReport? {
      HearKeepsProspects(s, step.k);
    } else {
      CentralAppends(s, step);
      forall id
        ensures id in s'.deployments || id !in s.deployments || step == Delete(id)
        ensures id !in s'.deployments ==> (Unsettled(s', id) <==> Unsettled(s, id))
      {
        if id !in s'.deployments { AppendKeepsUnsettled(s, step, id); }
      }
      if step.Create? && !Mentioned(s, step.id) { NewIsSettled(s, step.id); }
    }
  }

  lemma NewIsSettled(s: System, id: DeploymentId)
    requires !Mentioned(s, id)
    ensures !Unsettled(s, id)
  {}

  lemma AppendKeepsUnsettled(s: System, step: Step, id: DeploymentId)
    requires Inv(s) && !step.DeliverItems? && !step.DeliverReport? && id !in Next(s, step).deployments
    ensures Unsettled(Next(s, step), id) <==> Unsettled(s, id)
  {
    hide ReportsOf, Next, Consistent, Tracked, L.Inv;
    var s' := Next(s, step);
    CentralAppends(s, step);
    assert SiteOf(s', id) == SiteOf(s, id);
    assert Unheard(s', id) <==> Unheard(s, id);
    assert forall k: nat :: k < |s.outbox| ==> s'.outbox[..|s.outbox|][k] == s'.outbox[k];
    OnlyLiveGetRows(s, step, id);
    assert WillTell(s', id) <==> WillTell(s, id);
  }

  lemma OnlyLiveGetRows(s: System, step: Step, id: DeploymentId)
    requires !step.DeliverItems? && !step.DeliverReport? && id !in Next(s, step).deployments
    ensures var s' := Next(s, step);
      |s'.outbox| > |s.outbox| && s'.outbox[|s.outbox|].ForDeployment? ==> s'.outbox[|s.outbox|].id != id
  {}

  // ---------------------------------------------------------------- runs

  /** No fatal retry and no hasty deletion. */
  ghost predicate Prudent(s: System, steps: seq<Step>)
    requires Inv(s)
    decreases |steps|
  {
    steps == [] ||
    (var init := steps[..|steps| - 1];
     RunKeepsInv(s, init);
     var before := SiteStream.Run(s, init);
     Prudent(s, init) && !FatalRetry(before, steps[|steps| - 1]) && !HastyDeletion(before, steps[|steps| - 1]))
  }

  lemma {:induction false} PrudentExactly(s: System, steps: seq<Step>)
    requires Inv(s) && !Poisoned(s) && !Deaf(s)
    ensures Prudent(s, steps) ==> !Poisoned(SiteStream.Run(s, steps)) && !Deaf(SiteStream.Run(s, steps))
    ensures (forall i :: 0 <= i < |steps| ==> AllUsable(steps[i])) ==>
      (Prudent(s, steps) <==> !Poisoned(SiteStream.Run(s, steps)) && !Deaf(SiteStream.Run(s, steps)))
    decreases |steps|
  {
    hide Poisoned, Deaf, Inv, FatalRetry, HastyDeletion, Next, AllUsable;
    if steps != [] {
      var init, last := steps[..|steps| - 1], steps[|steps| - 1];
      RunKeepsInv(s, init);
      PrudentExactly(s, init);
      StepPoisonsExactly(SiteStream.Run(s, init), last);
      StepDeafensExactly(SiteStream.Run(s, init), last);
    }
  }

  /**
   The whole system end to end: after a prudent run everything queued is delivered in the end and
   every live deployment converges, whatever the batch size; and where every snapshot is usable,
   the prudent runs are the only ones after which both streams run dry.
   */
  lemma PrudentRunsDrain(steps: seq<Step>, limit: nat)
    requires limit > 0
    ensures Inv(EMPTY) && Inv(SiteStream.Run(EMPTY, steps))
    ensures var f := Settle(SiteStream.Run(EMPTY, steps), limit);
      && Inv(f)
      && (Prudent(EMPTY, steps) ==> Drained(f) && forall id :: id in f.deployments ==> L.Converged(LaneOf(f, id)))
      && ((forall i :: 0 <= i < |steps| ==> AllUsable(steps[i])) ==> (Drained(f) <==> Prudent(EMPTY, steps)))
  {
    hide RowsOf, ReportsOf, Poisoned, Deaf, L.Inv, L.Converged, Next;
    EmptyIsClean();
    EveryRunDrainsExactly(steps, limit);
    PrudentExactly(EMPTY, steps);
  }

  // ---------------------------------------------------------------- a stopped stream

  /** The polls of one Site: batches are only ever what Central answers then. */
  ghost predicate OnlyPolls(s: System, steps: seq<Step>, limit: nat)
    decreases |steps|
  {
    steps == [] ||
    (var before := SiteStream.Run(s, steps[..|steps| - 1]);
     && OnlyPolls(s, steps[..|steps| - 1], limit)
     && (steps[|steps| - 1].DeliverItems? ==>
           before.pulled <= |before.outbox| && steps[|steps| - 1].batch == Poll(before, limit)))
  }

  /**
   Once the batch that a poll answers is refused, it is refused for good, whatever Central does:
   the Site stays where the batch began and consumes not even the rows before the poison.
   */
  lemma {:induction false} RefusedPollStays(s: System, steps: seq<Step>, limit: nat)
    requires Inv(s) && TakeAll(s, Poll(s, limit)).None? && OnlyPolls(s, steps, limit)
    ensures var s' := SiteStream.Run(s, steps);
      && Inv(s') && TakeAll(s', Poll(s', limit)).None?
      && s'.pulled == s.pulled && s'.projections == s.projections && s'.log == s.log
    decreases |steps|
  {
    hide TakeAll, Poll, Next, Consistent, Tracked, L.Inv;
    if steps != [] {
      RefusedPollStays(s, steps[..|steps| - 1], limit);
      RefusedPollStep(SiteStream.Run(s, steps[..|steps| - 1]), steps[|steps| - 1], limit);
    }
  }

  lemma RefusedPollStep(s: System, step: Step, limit: nat)
    requires Inv(s) && TakeAll(s, Poll(s, limit)).None?
    requires step.DeliverItems? ==> step.batch == Poll(s, limit)
    ensures var s' := Next(s, step);
      && Inv(s') && TakeAll(s', Poll(s', limit)).None?
      && s'.pulled == s.pulled && s'.projections == s.projections && s'.log == s.log
  {
    hide PoisonAt, TakeAll, Unsettled, Deaf, Consistent, Tracked, L.Inv;
    var s' := Next(s, step);
    StepKeepsInv(s, step);
    if !step.DeliverItems? {
      BatchRefusedExactly(s, Min(limit, |s.outbox| - s.pulled));
      BatchRefusedExactly(s', Min(limit, |s'.outbox| - s'.pulled));
      var k: nat :| s.pulled <= k < s.pulled + Min(limit, |s.outbox| - s.pulled) && PoisonAt(s, k);
      if step.DeliverReport? { HearKeepsProspects(s, step.k); } else { CentralAppends(s, step); AppendKeepsPoison(s, step, k); }
      assert PoisonAt(s', k);
    }
  }
}
