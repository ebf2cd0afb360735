/**
 Central's receiver for the numbered events of many Sites: protocol and authority
 checks, receipts, a cursor per Site, and what each event type does to Central's
 tables. A request carries a batch and commits or rolls back as a whole.
 */
module SiteInbox {
  import opened Wrappers
  import opened Deployments

  type SiteId = nat
  type Id = nat

  const PROTOCOL_VERSION := 1

  // ---------------------------------------------------------------- envelopes

  /** None stands for a payload that fails validation. */
  datatype Body =
    | Heartbeat(info: nat)
    | DeploymentReport(report: Option<SiteReport>)
    | TransferProgress(progress: Option<Progress>)
    | PresentationUpserted(upsert: Option<Upsert>)
    | VersionCreated(version: Option<NewVersion>)
    | Unsupported

  datatype SiteReport = SiteReport(deployment: Id, event: Id, site: SiteId, report: Report)

  datatype TransferPhase = InFlight | Completed | FailedAtSite

  datatype Progress = Progress(transfer: Id, site: SiteId, size: nat, offset: nat, phase: TransferPhase,
                               event: Option<Id>, version: Option<Id>, media: Option<Id>, ready: bool)

  /** title and identifier may be absent: the code reads them only when it needs them. */
  datatype Upsert = Upsert(presentation: Id, event: Id, session: Option<Id>, revision: int,
                           title: Option<nat>, identifier: Option<nat>, external: Option<nat>)

  datatype NewVersion = NewVersion(version: Id, presentation: Id, number: int)

  datatype Envelope = Envelope(id: Id, protocol: nat, fromSite: bool, source: Option<SiteId>, siteAuthority: bool,
                               sequence: nat, entity: Option<Id>, body: Body)

  // ---------------------------------------------------------------- tables

  datatype Hosted = Hosted(event: Id, site: SiteId, record: Deployment)

  datatype JobStatus = OpenJob | Succeeded | FailedJob

  datatype ImportState = Transferring | SiteReady | ImportFailed | OtherState

  datatype MediaImport = MediaImport(event: Id, version: Option<Id>, size: Option<nat>, state: ImportState, siteMedia: Option<Id>)

  /** A transfer job together with the import that names it, if any. */
  datatype Transfer = Transfer(site: Option<SiteId>, offset: nat, status: JobStatus, media: Option<MediaImport>)

  datatype Presentation = Presentation(event: Id, session: Option<Id>, title: nat, identifier: nat, external: Option<nat>, revision: int)

  datatype Version = Version(presentation: Id, number: int)

  datatype Domain = Domain(health: map<SiteId, nat>, deployments: map<Id, Hosted>, transfers: map<Id, Transfer>,
                           presentations: map<Id, Presentation>, versions: map<Id, Version>, sessions: set<Id>)

  datatype Code =
    | IncompatibleProtocol | InvalidAuthority | SequenceGap
    | MalformedDeploymentStatus | InvalidDeploymentIdentity
    | MalformedTransferProgress | InvalidTransferProgressIdentity | UnknownTransferProgress
    | MalformedPresentation | InvalidPresentationScope
    | MalformedPresentationVersion | PresentationMetadataRequired | PresentationVersionConflict
    | UnsupportedEventType

  /** Aborts is an error the code does not catch: a missing key or a violated constraint. */
  datatype Verdict = Took(domain: Domain) | Refused(code: Code) | Aborts

  // ---------------------------------------------------------------- effects

  function ReportEffect(d: Domain, site: SiteId, entity: Option<Id>, report: Option<SiteReport>): Verdict {
    if report.None? || report.value.report.desired == 0 then Refused(MalformedDeploymentStatus)
    else
      var r := report.value;
      if r.deployment !in d.deployments || r.site != site || d.deployments[r.deployment].site != site
         || d.deployments[r.deployment].event != r.event || entity != Some(r.deployment)
      then Refused(InvalidDeploymentIdentity)
      else
        var h := d.deployments[r.deployment];
        Took(d.(deployments := d.deployments[r.deployment := h.(record := ApplyReport(h.record, r.report))]))
  }

  predicate ValidProgress(p: Progress) {
    p.offset <= p.size && (p.phase == Completed ==> p.offset == p.size)
  }

  predicate KnownTransfer(d: Domain, site: SiteId, p: Progress) {
    && p.transfer in d.transfers
    && var t := d.transfers[p.transfer];
    && t.media.Some? && t.site == Some(site)
    && Some(t.media.value.event) == p.event && t.media.value.version == p.version && t.media.value.size == Some(p.size)
  }

  /** A report of progress moves a transfer only forward, and never one that has succeeded. */
  function Advance(t: Transfer, p: Progress): Transfer
    requires t.media.Some?
  {
    if p.offset < t.offset || t.status == Succeeded then t
    else
      var m := t.media.value;
      if p.phase == Completed && p.ready then
        t.(offset := p.offset, status := Succeeded, media := Some(m.(state := SiteReady, siteMedia := p.media)))
      else if p.phase == FailedAtSite then
        t.(offset := p.offset, status := FailedJob, media := Some(m.(state := ImportFailed)))
      else
        t.(offset := p.offset, media := Some(m.(state := Transferring)))
  }

  function ProgressEffect(d: Domain, site: SiteId, entity: Option<Id>, progress: Option<Progress>): Verdict {
    if progress.None? || !ValidProgress(progress.value) then Refused(MalformedTransferProgress)
    else
      var p := progress.value;
      if p.site != site || entity != Some(p.transfer) then Refused(InvalidTransferProgressIdentity)
      else if !KnownTransfer(d, site, p) then Refused(UnknownTransferProgress)
      else Took(d.(transfers := d.transfers[p.transfer := Advance(d.transfers[p.transfer], p)]))
  }

  predicate HostsEvent(d: Domain, site: SiteId, event: Id) {
    exists i :: i in d.deployments && d.deployments[i].site == site && d.deployments[i].event == event
  }

  predicate SessionExists(d: Domain, session: Option<Id>) {
    session.Some? ==> session.value in d.sessions
  }

  predicate IdentifierTaken(d: Domain, event: Id, identifier: nat) {
    exists i :: i in d.presentations && d.presentations[i].event == event && d.presentations[i].identifier == identifier
  }

  function UpsertEffect(d: Domain, site: SiteId, entity: Option<Id>, upsert: Option<Upsert>): Verdict {
    if upsert.None? then Refused(MalformedPresentation)
    else
      var u := upsert.value;
      if !HostsEvent(d, site, u.event) || entity != Some(u.presentation) then Refused(InvalidPresentationScope)
      else if u.presentation !in d.presentations then
        if u.title.None? || u.identifier.None? || !SessionExists(d, u.session) || IdentifierTaken(d, u.event, u.identifier.value)
        then Aborts
        else Took(d.(presentations := d.presentations[
          u.presentation := Presentation(u.event, u.session, u.title.value, u.identifier.value, u.external, u.revision)]))
      else if u.revision <= d.presentations[u.presentation].revision then Took(d)
      else if u.title.None? || !SessionExists(d, u.session) then Aborts
      else Took(d.(presentations := d.presentations[
        u.presentation := d.presentations[u.presentation].(
          title := u.title.value, session := u.session, external := u.external, revision := u.revision)]))
  }

  predicate NumberTaken(d: Domain, presentation: Id, number: int) {
    exists i :: i in d.versions && d.versions[i] == Version(presentation, number)
  }

  function VersionEffect(d: Domain, entity: Option<Id>, version: Option<NewVersion>): Verdict {
    if version.None? then Refused(MalformedPresentationVersion)
    else
      var v := version.value;
      if v.presentation !in d.presentations || entity != Some(v.version) then Refused(PresentationMetadataRequired)
      else if v.version !in d.versions then
        if v.number < 1 || NumberTaken(d, v.presentation, v.number) then Aborts
        else Took(d.(versions := d.versions[v.version := Version(v.presentation, v.number)]))
      else if d.versions[v.version] != Version(v.presentation, v.number) then Refused(PresentationVersionConflict)
      else Took(d)
  }

  /** What an event does when its turn comes, with no regard to receipts and cursors. */
  function Effect(d: Domain, site: SiteId, e: Envelope): Verdict {
    match e.body
    case Heartbeat(info) => Took(d.(health := d.health[site := info]))
    case DeploymentReport(report) => ReportEffect(d, site, e.entity, report)
    case TransferProgress(progress) => ProgressEffect(d, site, e.entity, progress)
    case PresentationUpserted(upsert) => UpsertEffect(d, site, e.entity, upsert)
    case VersionCreated(version) => VersionEffect(d, e.entity, version)
    case Unsupported => Refused(UnsupportedEventType)
  }

  // ---------------------------------------------------------------- the gate

  datatype Receipt = Receipt(event: Id, sequence: nat)

  /** receipts in the order they were written; a Site without a cursor row is at 0. */
  datatype Inbox = Inbox(receipts: seq<Receipt>, cursor: nat)

  datatype World = World(domain: Domain, inboxes: map<SiteId, Inbox>)

  datatype Answer = Accepted | Duplicate | Rejected(code: Code)

  function InboxOf(w: World, site: SiteId): Inbox {
    if site in w.inboxes then w.inboxes[site] else Inbox([], 0)
  }

  predicate Received(inbox: Inbox, id: Id) {
    exists k :: 0 <= k < |inbox.receipts| && inbox.receipts[k].event == id
  }

  predicate Authentic(site: SiteId, e: Envelope) {
    e.fromSite && e.source == Some(site) && e.siteAuthority
  }

  function Recorded(inbox: Inbox, e: Envelope): Inbox {
    Inbox(inbox.receipts + [Receipt(e.id, e.sequence)], e.sequence)
  }

  /** One envelope of an authenticated Site; None when the request dies. */
  function Apply(w: World, site: SiteId, e: Envelope): Option<(World, Answer)> {
    var inbox := InboxOf(w, site);
    if e.protocol != PROTOCOL_VERSION then Some((w, Rejected(IncompatibleProtocol)))
    else if !Authentic(site, e) then Some((w, Rejected(InvalidAuthority)))
    else if Received(inbox, e.id) then Some((w, Duplicate))
    else if e.sequence != inbox.cursor + 1 then Some((w, Rejected(SequenceGap)))
    else
      match Effect(w.domain, site, e)
      case Refused(code) => Some((w, Rejected(code)))
      case Aborts => None
      case Took(domain) => Some((World(domain, w.inboxes[site := Recorded(inbox, e)]), Accepted))
  }

  function ApplyAll(w: World, site: SiteId, batch: seq<Envelope>): Option<(World, seq<Answer>)>
    decreases |batch|
  {
    if batch == [] then Some((w, []))
    else match ApplyAll(w, site, batch[..|batch| - 1])
      case None => None
      case Some((w', answers)) =>
        match Apply(w', site, batch[|batch| - 1])
        case None => None
        case Some((w'', answer)) => Some((w'', answers + [answer]))
  }

  /** A request: all of its batch, or nothing. */
  function Receive(w: World, site: SiteId, batch: seq<Envelope>): World {
    match ApplyAll(w, site, batch)
    case None => w
    case Some((w', _)) => w'
  }

  /** Between requests Central may change its tables in any way. */
  datatype Step = Request(site: SiteId, batch: seq<Envelope>) | Central(domain: Domain)

  function Next(w: World, step: Step): World {
    match step
    case Request(site, batch) => Receive(w, site, batch)
    case Central(domain) => w.(domain := domain)
  }

  function Run(w: World, steps: seq<Step>): World
    decreases |steps|
  {
    if steps == [] then w else Next(Run(w, steps[..|steps| - 1]), steps[|steps| - 1])
  }

  // ---------------------------------------------------------------- any deliveries at all

  /** Receipts carry the numbers 1..cursor, once each and in order, for distinct events. */
  ghost predicate InboxOk(inbox: Inbox) {
    && |inbox.receipts| == inbox.cursor
    && (forall k :: 0 <= k < |inbox.receipts| ==> inbox.receipts[k].sequence == k + 1)
    && (forall j, k :: 0 <= j < k < |inbox.receipts| ==> inbox.receipts[j].event != inbox.receipts[k].event)
  }

  ghost predicate Inv(w: World) {
    forall site: SiteId :: InboxOk(InboxOf(w, site))
  }

  /** Anything but an acceptance leaves every table as it was; an acceptance writes the next receipt. */
  lemma ApplyShape(w: World, site: SiteId, e: Envelope)
    requires Inv(w) && Apply(w, site, e).Some?
    ensures var (w', answer) := Apply(w, site, e).value;
      && Inv(w')
      && (answer != Accepted ==> w' == w)
      && (answer == Accepted ==>
            && Effect(w.domain, site, e) == Took(w'.domain)
            && InboxOf(w', site) == Recorded(InboxOf(w, site), e)
            && e.sequence == InboxOf(w, site).cursor + 1)
      && (forall other: SiteId :: other != site ==> InboxOf(w', other) == InboxOf(w, other))
  {
    var (w', answer) := Apply(w, site, e).value;
    if answer == Accepted {
      forall other: SiteId
        ensures InboxOk(InboxOf(w', other))
      {
        assert InboxOk(InboxOf(w, other));
        if other == site {
          assert !Received(InboxOf(w, site), e.id);
        }
      }
    }
  }

  lemma {:induction false} ApplyAllKeepsInv(w: World, site: SiteId, batch: seq<Envelope>)
    requires Inv(w) && ApplyAll(w, site, batch).Some?
    ensures Inv(ApplyAll(w, site, batch).value.0)
    ensures |ApplyAll(w, site, batch).value.1| == |batch|
    ensures forall other: SiteId :: other != site ==> InboxOf(ApplyAll(w, site, batch).value.0, other) == InboxOf(w, other)
    decreases |batch|
  {
    if batch != [] {
      var init := batch[..|batch| - 1];
      ApplyAllKeepsInv(w, site, init);
      ApplyShape(ApplyAll(w, site, init).value.0, site, batch[|batch| - 1]);
    }
  }

  lemma {:induction false} RunKeepsInv(w: World, steps: seq<Step>)
    requires Inv(w)
    ensures Inv(Run(w, steps))
    decreases |steps|
  {
    if steps != [] {
      var before := Run(w, steps[..|steps| - 1]);
      RunKeepsInv(w, steps[..|steps| - 1]);
      match steps[|steps| - 1]
      case Central(domain) =>
        forall site: SiteId ensures InboxOk(InboxOf(before.(domain := domain), site)) {
          assert InboxOk(InboxOf(before, site));
        }
      case Request(site, batch) =>
        if ApplyAll(before, site, batch).Some? {
          ApplyAllKeepsInv(before, site, batch);
        }
    }
  }

  // ---------------------------------------------------------------- honest Sites

  /** A Site's own log: numbered 1, 2, 3, ... under distinct identities, signed as its own. */
  ghost predicate Honest(site: SiteId, log: seq<Envelope>) {
    && (forall k :: 0 <= k < |log| ==>
          log[k].sequence == k + 1 && log[k].protocol == PROTOCOL_VERSION && Authentic(site, log[k]))
    && (forall j, k :: 0 <= j < k < |log| ==> log[j].id != log[k].id)
  }

  /** logs gives each Site's log; the network delivers any of its envelopes, in any order, any number of times. */
  ghost predicate Delivers(logs: SiteId -> seq<Envelope>, step: Step) {
    step.Request? ==>
      && Honest(step.site, logs(step.site))
      && forall e :: e in step.batch ==> e in logs(step.site)
  }

  ghost predicate Prefixed(logs: SiteId -> seq<Envelope>, w: World, site: SiteId) {
    var inbox, log := InboxOf(w, site), logs(site);
    && inbox.cursor <= |log| && |inbox.receipts| == inbox.cursor
    && forall k :: 0 <= k < inbox.cursor ==> inbox.receipts[k] == Receipt(log[k].id, log[k].sequence)
  }

  datatype Entry = Wrote(domain: Domain) | Did(site: SiteId, event: Envelope)

  /** The tables a journal produces when its entries take effect one after the other. */
  function Replay(d: Domain, journal: seq<Entry>): Option<Domain>
    decreases |journal|
  {
    if journal == [] then Some(d)
    else match Replay(d, journal[..|journal| - 1])
      case None => None
      case Some(before) =>
        match journal[|journal| - 1]
        case Wrote(domain) => Some(domain)
        case Did(site, e) =>
          match Effect(before, site, e)
          case Took(domain) => Some(domain)
          case _ => None
  }

  function EventsOf(journal: seq<Entry>, site: SiteId): seq<Envelope>
    decreases |journal|
  {
    if journal == [] then []
    else
      var last := journal[|journal| - 1];
      EventsOf(journal[..|journal| - 1], site) + (if last.Did? && last.site == site then [last.event] else [])
  }

  ghost predicate Explains(logs: SiteId -> seq<Envelope>, d: Domain, journal: seq<Entry>, w: World) {
    && Replay(d, journal) == Some(w.domain)
    && forall site: SiteId :: Prefixed(logs, w, site) && EventsOf(journal, site) == logs(site)[..InboxOf(w, site).cursor]
  }

  /** What a request put into effect: the events it was told were accepted, in their order. */
  function AcceptedIn(site: SiteId, batch: seq<Envelope>, answers: seq<Answer>): seq<Entry>
    requires |answers| == |batch|
    decreases |batch|
  {
    if batch == [] then []
    else
      var n := |batch| - 1;
      AcceptedIn(site, batch[..n], answers[..n]) + (if answers[n] == Accepted then [Did(site, batch[n])] else [])
  }

  lemma {:induction false} OneAnswerEach(w: World, site: SiteId, batch: seq<Envelope>)
    ensures ApplyAll(w, site, batch).Some? ==> |ApplyAll(w, site, batch).value.1| == |batch|
    decreases |batch|
  {
    if batch != [] {
      OneAnswerEach(w, site, batch[..|batch| - 1]);
    }
  }

  function EntriesOf(w: World, step: Step): seq<Entry> {
    match step
    case Central(domain) => [Wrote(domain)]
    case Request(site, batch) =>
      OneAnswerEach(w, site, batch);
      if ApplyAll(w, site, batch).None? then [] else AcceptedIn(site, batch, ApplyAll(w, site, batch).value.1)
  }

  /** The journal of a run: what Central wrote and which events were accepted, step by step. */
  function JournalOf(w: World, steps: seq<Step>): seq<Entry>
    decreases |steps|
  {
    if steps == [] then []
    else
      var init := steps[..|steps| - 1];
      JournalOf(w, init) + EntriesOf(Run(w, init), steps[|steps| - 1])
  }

  function WritesIn(journal: seq<Entry>): seq<Domain>
    decreases |journal|
  {
    if journal == [] then []
    else
      var last := journal[|journal| - 1];
      WritesIn(journal[..|journal| - 1]) + (if last.Wrote? then [last.domain] else [])
  }

  function CentralWrites(steps: seq<Step>): seq<Domain>
    decreases |steps|
  {
    if steps == [] then []
    else
      var last := steps[|steps| - 1];
      CentralWrites(steps[..|steps| - 1]) + (if last.Central? then [last.domain] else [])
  }

  lemma JournalOneMore(journal: seq<Entry>, entry: Entry, site: SiteId)
    ensures (journal + [entry])[..|journal|] == journal
    ensures EventsOf(journal + [entry], site) ==
            EventsOf(journal, site) + (if entry.Did? && entry.site == site then [entry.event] else [])
    ensures WritesIn(journal + [entry]) == WritesIn(journal) + (if entry.Wrote? then [entry.domain] else [])
  {}

  lemma AcceptedIsNext(logs: SiteId -> seq<Envelope>, w: World, site: SiteId, e: Envelope)
    requires Honest(site, logs(site)) && Prefixed(logs, w, site) && e in logs(site)
    requires Apply(w, site, e).Some? && Apply(w, site, e).value.1 == Accepted
    ensures InboxOf(w, site).cursor < |logs(site)| && e == logs(site)[InboxOf(w, site).cursor]
    ensures Prefixed(logs, Apply(w, site, e).value.0, site)
  {}

  lemma ApplyExplained(logs: SiteId -> seq<Envelope>, d: Domain, journal: seq<Entry>, w: World, site: SiteId, e: Envelope)
    requires Explains(logs, d, journal, w) && Honest(site, logs(site)) && e in logs(site) && Apply(w, site, e).Some?
    ensures var (w', answer) := Apply(w, site, e).value;
      Explains(logs, d, journal + (if answer == Accepted then [Did(site, e)] else []), w')
  {
    var (w', answer) := Apply(w, site, e).value;
    if answer != Accepted {
      assert w' == w && journal + [] == journal;
    } else {
      var journal' := journal + [Did(site, e)];
      AcceptedIsNext(logs, w, site, e) by { assert Prefixed(logs, w, site); }
      forall other: SiteId
        ensures Prefixed(logs, w', other) && EventsOf(journal', other) == logs(other)[..InboxOf(w', other).cursor]
      {
        JournalOneMore(journal, Did(site, e), other);
        assert Prefixed(logs, w, other);
        assert other != site ==> InboxOf(w', other) == InboxOf(w, other);
      }
      assert journal'[..|journal|] == journal;
    }
  }

  lemma {:induction false} BatchExplained(logs: SiteId -> seq<Envelope>, d: Domain, journal: seq<Entry>,
                                          w: World, site: SiteId, batch: seq<Envelope>)
    requires Explains(logs, d, journal, w) && Delivers(logs, Request(site, batch)) && ApplyAll(w, site, batch).Some?
    ensures var (w', answers) := ApplyAll(w, site, batch).value;
      |answers| == |batch| && Explains(logs, d, journal + AcceptedIn(site, batch, answers), w')
    decreases |batch|
  {
    OneAnswerEach(w, site, batch);
    if batch == [] {
      assert journal + [] == journal;
    } else {
      var n := |batch| - 1;
      var (mid, answers) := ApplyAll(w, site, batch[..n]).value;
      BatchExplained(logs, d, journal, w, site, batch[..n]);
      var so := journal + AcceptedIn(site, batch[..n], answers);
      ApplyExplained(logs, d, so, mid, site, batch[n]);
      var all := ApplyAll(w, site, batch).value.1;
      assert all[..n] == answers;
      assert journal + AcceptedIn(site, batch, all) == so + (if all[n] == Accepted then [Did(site, batch[n])] else []);
    }
  }

  lemma StepExplained(logs: SiteId -> seq<Envelope>, d: Domain, journal: seq<Entry>, w: World, step: Step)
    requires Explains(logs, d, journal, w) && Delivers(logs, step)
    ensures Explains(logs, d, journal + EntriesOf(w, step), Next(w, step))
  {
    match step
    case Request(site, batch) =>
      if ApplyAll(w, site, batch).Some? {
        BatchExplained(logs, d, journal, w, site, batch);
      } else {
        assert journal + [] == journal;
      }
    case Central(domain) =>
      var journal' := journal + [Wrote(domain)];
      assert journal'[..|journal|] == journal;
      forall site: SiteId
        ensures var w' := Next(w, step);
          Prefixed(logs, w', site) && EventsOf(journal', site) == logs(site)[..InboxOf(w', site).cursor]
      {
        assert Prefixed(logs, w, site);
        JournalOneMore(journal, Wrote(domain), site);
      }
  }

  lemma {:induction false} WritesConcat(a: seq<Entry>, b: seq<Entry>)
    ensures WritesIn(a + b) == WritesIn(a) + WritesIn(b)
    decreases |b|
  {
    if b == [] {
      assert a + b == a;
    } else {
      WritesConcat(a, b[..|b| - 1]);
      assert (a + b)[..|a + b| - 1] == a + b[..|b| - 1];
    }
  }

  lemma {:induction false} AcceptedAreNoWrites(site: SiteId, batch: seq<Envelope>, answers: seq<Answer>)
    requires |answers| == |batch|
    ensures WritesIn(AcceptedIn(site, batch, answers)) == []
    decreases |batch|
  {
    if batch != [] {
      var n := |batch| - 1;
      AcceptedAreNoWrites(site, batch[..n], answers[..n]);
      if answers[n] == Accepted {
        JournalOneMore(AcceptedIn(site, batch[..n], answers[..n]), Did(site, batch[n]), site);
      } else {
        assert AcceptedIn(site, batch, answers) == AcceptedIn(site, batch[..n], answers[..n]);
      }
    }
  }

  /** The journal says Central wrote something exactly where the run does. */
  lemma {:induction false} WritesAreCentrals(w: World, steps: seq<Step>)
    ensures WritesIn(JournalOf(w, steps)) == CentralWrites(steps)
    decreases |steps|
  {
    if steps != [] {
      var init, last := steps[..|steps| - 1], steps[|steps| - 1];
      WritesAreCentrals(w, init);
      var before := Run(w, init);
      WritesConcat(JournalOf(w, init), EntriesOf(before, last));
      match last
      case Central(domain) => assert [Wrote(domain)][..0] == [];
      case Request(site, batch) =>
        OneAnswerEach(before, site, batch);
        if ApplyAll(before, site, batch).Some? {
          AcceptedAreNoWrites(site, batch, ApplyAll(before, site, batch).value.1);
        }
    }
  }

  /** A longer run has a longer journal: what was written down stays as it is. */
  lemma {:induction false} JournalOnlyGrows(w: World, steps: seq<Step>, k: nat)
    requires k <= |steps|
    ensures JournalOf(w, steps[..k]) <= JournalOf(w, steps)
    decreases |steps|
  {
    if k == |steps| {
      assert steps[..k] == steps;
    } else {
      assert steps[..|steps| - 1][..k] == steps[..k];
      JournalOnlyGrows(w, steps[..|steps| - 1], k);
    }
  }

  lemma {:induction false} RunExplained(logs: SiteId -> seq<Envelope>, d: Domain, steps: seq<Step>)
    requires forall i :: 0 <= i < |steps| ==> Delivers(logs, steps[i])
    ensures Explains(logs, d, JournalOf(World(d, map[]), steps), Run(World(d, map[]), steps))
    decreases |steps|
  {
    if steps != [] {
      var init := steps[..|steps| - 1];
      RunExplained(logs, d, init);
      StepExplained(logs, d, JournalOf(World(d, map[]), init), Run(World(d, map[]), init), steps[|steps| - 1]);
    }
  }

  /**
   Exactly once, in order. Whatever the network loses, repeats, reorders or batches, and
   whatever Central writes in between: at every point k of the run the tables are what the
   run's own journal up to k produces, entry after entry. That journal holds Central's writes
   exactly where the run has them, and each Site's events in it are exactly the first `cursor`
   of its log, in log order, once each; later steps only add to it.
   */
  lemma EveryRunIsExplained(logs: SiteId -> seq<Envelope>, d: Domain, steps: seq<Step>, k: nat)
    requires k <= |steps| && forall i :: 0 <= i < |steps| ==> Delivers(logs, steps[i])
    ensures var w := World(d, map[]);
      && Explains(logs, d, JournalOf(w, steps[..k]), Run(w, steps[..k]))
      && WritesIn(JournalOf(w, steps[..k])) == CentralWrites(steps[..k])
      && JournalOf(w, steps[..k]) <= JournalOf(w, steps)
  {
    RunExplained(logs, d, steps[..k]);
    WritesAreCentrals(World(d, map[]), steps[..k]);
    JournalOnlyGrows(World(d, map[]), steps, k);
  }

  // ---------------------------------------------------------------- what each answer and each event says, in the tables' own terms

  /** The gate's checks in their order; what passes them all is answered by the event's own effect. */
  lemma GateInOrder(w: World, site: SiteId, e: Envelope)
    requires InboxOk(InboxOf(w, site))
    ensures var r, receipts := Apply(w, site, e), InboxOf(w, site).receipts;
      if e.protocol != 1 then r == Some((w, Rejected(IncompatibleProtocol)))
      else if !e.fromSite || e.source != Some(site) || !e.siteAuthority then r == Some((w, Rejected(InvalidAuthority)))
      else if exists k :: 0 <= k < |receipts| && receipts[k].event == e.id then r == Some((w, Duplicate))
      else if e.sequence != |receipts| + 1 then r == Some((w, Rejected(SequenceGap)))
      else
        && (r.None? <==> Effect(w.domain, site, e) == Aborts)
        && (r.Some? && r.value.1 == Accepted <==> Effect(w.domain, site, e).Took?)
        && (forall code :: r == Some((w, Rejected(code))) <==> Effect(w.domain, site, e) == Refused(code))
    ensures e.body.Unsupported? ==> Effect(w.domain, site, e) == Refused(UnsupportedEventType)
  {}

  lemma HeartbeatSays(d: Domain, site: SiteId, e: Envelope, other: SiteId)
    requires e.body.Heartbeat?
    ensures Effect(d, site, e).Took?
    ensures var d' := Effect(d, site, e).domain;
      && d' == d.(health := d'.health) && site in d'.health && d'.health[site] == e.body.info
      && (other != site ==> (other in d'.health <==> other in d.health) && (other in d.health ==> d'.health[other] == d.health[other]))
  {}

  /** A deployment report is taken exactly from the Site and for the Event of the deployment it names; it changes that record only. */
  lemma ReportSays(d: Domain, site: SiteId, entity: Option<Id>, report: Option<SiteReport>)
    ensures var v := ReportEffect(d, site, entity, report);
      && !v.Aborts?
      && (v == Refused(MalformedDeploymentStatus) <==> report.None? || report.value.report.desired == 0)
      && (v.Took? <==>
            (report.Some? && report.value.report.desired > 0
             && var r := report.value;
             && r.site == site && entity == Some(r.deployment)
             && r.deployment in d.deployments && d.deployments[r.deployment].site == site && d.deployments[r.deployment].event == r.event))
      && (v.Refused? ==> v.code == MalformedDeploymentStatus || v.code == InvalidDeploymentIdentity)
      && (v.Took? ==>
            var i := report.value.deployment;
            && v.domain == d.(deployments := v.domain.deployments) && v.domain.deployments.Keys == d.deployments.Keys
            && (forall j :: j in d.deployments && j != i ==> v.domain.deployments[j] == d.deployments[j])
            && v.domain.deployments[i] == d.deployments[i].(record := ApplyReport(d.deployments[i].record, report.value.report)))
  {}

  /** A progress report is taken exactly for a known transfer of that Site whose data it repeats. */
  lemma ProgressTaken(d: Domain, site: SiteId, entity: Option<Id>, progress: Option<Progress>)
    ensures var v := ProgressEffect(d, site, entity, progress);
      var malformed := progress.None? || progress.value.offset > progress.value.size
        || (progress.value.phase == Completed && progress.value.offset != progress.value.size);
      && !v.Aborts?
      && (v == Refused(MalformedTransferProgress) <==> malformed)
      && (v == Refused(InvalidTransferProgressIdentity) <==>
            !malformed && (progress.value.site != site || entity != Some(progress.value.transfer)))
      && (v.Refused? ==> v.code in {MalformedTransferProgress, InvalidTransferProgressIdentity, UnknownTransferProgress})
      && (v.Took? <==>
            (!malformed && progress.value.site == site && entity == Some(progress.value.transfer)
             && var p := progress.value;
             && p.transfer in d.transfers && d.transfers[p.transfer].site == Some(site) && d.transfers[p.transfer].media.Some?
             && var m := d.transfers[p.transfer].media.value;
             && p.event == Some(m.event) && p.version == m.version && m.size == Some(p.size)))
  {}

  /** A report behind the confirmed offset, or about a transfer that is over, comes late. */
  predicate Late(t: Transfer, p: Progress) { p.offset < t.offset || t.status == Succeeded }

  /**
   What an accepted report makes of its transfer: late, nothing; otherwise its offset is confirmed,
   and job and import are succeeded and ready exactly if it says completed and ready, failed exactly
   if it says failed, and in transfer in every other case. No other transfer changes.
   */
  lemma ProgressSays(d: Domain, site: SiteId, entity: Option<Id>, progress: Option<Progress>)
    requires ProgressEffect(d, site, entity, progress).Took?
    ensures var p, d' := progress.value, ProgressEffect(d, site, entity, progress).domain;
      && d' == d.(transfers := d'.transfers) && d'.transfers.Keys == d.transfers.Keys && p.transfer in d.transfers
      && (forall i :: i in d.transfers && i != p.transfer ==> d'.transfers[i] == d.transfers[i])
      && var t, t' := d.transfers[p.transfer], d'.transfers[p.transfer];
      && t.media.Some? && t'.media.Some?
      && var m, m' := t.media.value, t'.media.value;
      if Late(t, p) then t' == t
      else
        && t'.offset == p.offset && t'.site == t.site && m'.event == m.event && m'.version == m.version && m'.size == m.size
        && (t'.status == Succeeded <==> p.phase == Completed && p.ready)
        && (m'.state == SiteReady <==> p.phase == Completed && p.ready)
        && (m'.state == ImportFailed <==> p.phase == FailedAtSite)
        && (m'.state == Transferring <==> p.phase == InFlight || (p.phase == Completed && !p.ready))
        && (t'.status == FailedJob <==> p.phase == FailedAtSite || (t.status == FailedJob && !(p.phase == Completed && p.ready)))
        && m'.siteMedia == (if p.phase == Completed && p.ready then p.media else m.siteMedia)
  {}

  /** When a presentation of a Site is taken, refused, or kills the request. */
  lemma UpsertTaken(d: Domain, site: SiteId, entity: Option<Id>, upsert: Option<Upsert>)
    ensures var v := UpsertEffect(d, site, entity, upsert);
      && (v == Refused(MalformedPresentation) <==> upsert.None?)
      && (v.Refused? ==> v.code == MalformedPresentation || v.code == InvalidPresentationScope)
      && (upsert.Some? ==>
            var u := upsert.value;
            var hosted := exists i :: i in d.deployments && d.deployments[i].site == site && d.deployments[i].event == u.event;
            var sessionOk := u.session.None? || u.session.value in d.sessions;
            var clash := u.identifier.Some? && exists i :: i in d.presentations && d.presentations[i].event == u.event && d.presentations[i].identifier == u.identifier.value;
            && (v.Refused? <==> !hosted || entity != Some(u.presentation))
            && (v.Aborts? <==>
                  (hosted && entity == Some(u.presentation)
                   && if u.presentation !in d.presentations then u.title.None? || u.identifier.None? || !sessionOk || clash
                      else u.revision > d.presentations[u.presentation].revision && (u.title.None? || !sessionOk))))
  {}

  /** What it then leaves: a new presentation as sent; an older or equal revision nothing; a newer one its program fields. */
  lemma UpsertSays(d: Domain, site: SiteId, entity: Option<Id>, upsert: Option<Upsert>)
    requires UpsertEffect(d, site, entity, upsert).Took?
    ensures var u, d' := upsert.value, UpsertEffect(d, site, entity, upsert).domain;
      && d' == d.(presentations := d'.presentations) && u.presentation in d'.presentations
      && (forall i :: i != u.presentation ==>
            (i in d'.presentations <==> i in d.presentations) && (i in d.presentations ==> d'.presentations[i] == d.presentations[i]))
      && var p' := d'.presentations[u.presentation];
      if u.presentation !in d.presentations then
        && p'.event == u.event && p'.session == u.session && u.title == Some(p'.title) && u.identifier == Some(p'.identifier)
        && p'.external == u.external && p'.revision == u.revision
      else
        var p := d.presentations[u.presentation];
        if u.revision <= p.revision then p' == p
        else
          && p'.event == p.event && p'.identifier == p.identifier
          && p'.session == u.session && u.title == Some(p'.title) && p'.external == u.external && p'.revision == u.revision
  {}

  /** When a version of a Site is taken, refused, or kills the request, and that it is only ever added. */
  lemma VersionSays(d: Domain, entity: Option<Id>, version: Option<NewVersion>)
    ensures var v := VersionEffect(d, entity, version);
      && (v == Refused(MalformedPresentationVersion) <==> version.None?)
      && (version.Some? ==>
            var n := version.value;
            var known := n.presentation in d.presentations && entity == Some(n.version);
            && (v == Refused(PresentationMetadataRequired) <==> !known)
            && (v == Refused(PresentationVersionConflict) <==>
                  known && n.version in d.versions && !(d.versions[n.version].presentation == n.presentation && d.versions[n.version].number == n.number))
            && (v == Aborts <==>
                  (known && n.version !in d.versions
                   && (n.number < 1 || exists i :: i in d.versions && d.versions[i].presentation == n.presentation && d.versions[i].number == n.number)))
            && (v.Took? ==>
                  && v.domain == d.(versions := v.domain.versions)
                  && (forall i :: i in d.versions ==> i in v.domain.versions && v.domain.versions[i] == d.versions[i])
                  && (forall i :: i in v.domain.versions ==> i in d.versions || i == n.version)
                  && n.version in v.domain.versions && v.domain.versions[n.version].presentation == n.presentation
                  && v.domain.versions[n.version].number == n.number))
  {}

  // ---------------------------------------------------------------- an import is ready only on a Site's word

  predicate Ready(d: Domain, i: Id) {
    i in d.transfers && d.transfers[i].media.Some? && d.transfers[i].media.value.state == SiteReady
  }

  /** The event reports transfer i completed and ready, with this media object. */
  predicate Completes(site: SiteId, e: Envelope, i: Id, media: Option<Id>) {
    e.body.TransferProgress? && e.body.progress.Some?
    && var p := e.body.progress.value;
    p.transfer == i && p.site == site && p.phase == Completed && p.ready && p.offset == p.size && p.media == media
  }

  predicate CompletedBy(entry: Entry, t: Transfer, i: Id) {
    entry.Did? && t.site == Some(entry.site) && t.media.Some? && Completes(entry.site, entry.event, i, t.media.value.siteMedia)
  }

  ghost predicate CompletedIn(journal: seq<Entry>, t: Transfer, i: Id) {
    exists k :: 0 <= k < |journal| && CompletedBy(journal[k], t, i)
  }

  /** Every import that is ready has a succeeded job, and a taken event of its own Site named exactly its media object. */
  ghost predicate Backed(d: Domain, journal: seq<Entry>) {
    forall i :: Ready(d, i) ==> d.transfers[i].status == Succeeded && CompletedIn(journal, d.transfers[i], i)
  }

  lemma EffectBacked(d: Domain, site: SiteId, e: Envelope, journal: seq<Entry>)
    requires Backed(d, journal) && Effect(d, site, e).Took?
    ensures Backed(Effect(d, site, e).domain, journal + [Did(site, e)])
  {
    hide ReportEffect, UpsertEffect, VersionEffect, ProgressEffect;
    var d', more := Effect(d, site, e).domain, journal + [Did(site, e)];
    match e.body {
      case DeploymentReport(r) => ReportSays(d, site, e.entity, r);
      case TransferProgress(p) => ProgressTaken(d, site, e.entity, p); ProgressSays(d, site, e.entity, p);
      case PresentationUpserted(u) => UpsertSays(d, site, e.entity, u);
      case VersionCreated(v) => VersionSays(d, e.entity, v);
      case _ =>
    }
    forall i | Ready(d', i)
      ensures d'.transfers[i].status == Succeeded && CompletedIn(more, d'.transfers[i], i)
    {
      if i in d.transfers && d'.transfers[i] == d.transfers[i] {
        CompletedStays(journal, Did(site, e), d.transfers[i], i);
      } else {
        assert more[|journal|] == Did(site, e) && CompletedBy(more[|journal|], d'.transfers[i], i);
      }
    }
  }

  lemma CompletedStays(journal: seq<Entry>, entry: Entry, t: Transfer, i: Id)
    requires CompletedIn(journal, t, i)
    ensures CompletedIn(journal + [entry], t, i)
  {
    var k :| 0 <= k < |journal| && CompletedBy(journal[k], t, i);
    assert (journal + [entry])[k] == journal[k];
  }

  lemma {:induction false} BatchBacked(w: World, site: SiteId, batch: seq<Envelope>, journal: seq<Entry>)
    requires Backed(w.domain, journal) && ApplyAll(w, site, batch).Some?
    ensures var (w', answers) := ApplyAll(w, site, batch).value;
      |answers| == |batch| && Backed(w'.domain, journal + AcceptedIn(site, batch, answers))
    decreases |batch|
  {
    hide Backed, Effect;
    OneAnswerEach(w, site, batch);
    if batch == [] {
      assert journal + [] == journal;
    } else {
      var n := |batch| - 1;
      var (mid, answers) := ApplyAll(w, site, batch[..n]).value;
      BatchBacked(w, site, batch[..n], journal);
      var so, all := journal + AcceptedIn(site, batch[..n], answers), ApplyAll(w, site, batch).value.1;
      assert all[..n] == answers;
      if all[n] == Accepted {
        EffectBacked(mid.domain, site, batch[n], so);
        assert so + [Did(site, batch[n])] == journal + AcceptedIn(site, batch, all);
      } else {
        assert so == journal + AcceptedIn(site, batch, all);
      }
    }
  }

  /** Central's own writes make no import ready, and leave those that are. */
  ghost predicate LeavesReadiness(d: Domain, d': Domain) {
    forall i :: Ready(d', i) ==> i in d.transfers && d'.transfers[i] == d.transfers[i]
  }

  ghost predicate WritesLeaveReadiness(w: World, steps: seq<Step>)
    decreases |steps|
  {
    steps == [] ||
    (var last := steps[|steps| - 1];
     WritesLeaveReadiness(w, steps[..|steps| - 1])
     && (last.Central? ==> LeavesReadiness(Run(w, steps[..|steps| - 1]).domain, last.domain)))
  }

  /** Over every run: an import is ready exactly on the word of its own Site, with the media object that Site named. */
  lemma {:induction false} ReadyOnlyIfCompleted(w: World, steps: seq<Step>)
    requires (forall i :: !Ready(w.domain, i)) && WritesLeaveReadiness(w, steps)
    ensures Backed(Run(w, steps).domain, JournalOf(w, steps))
    decreases |steps|
  {
    if steps != [] {
      var init, last := steps[..|steps| - 1], steps[|steps| - 1];
      ReadyOnlyIfCompleted(w, init);
      var before, journal := Run(w, init), JournalOf(w, init);
      match last
      case Central(domain) =>
        forall i | Ready(domain, i)
          ensures domain.transfers[i].status == Succeeded && CompletedIn(journal + [Wrote(domain)], domain.transfers[i], i)
        {
          assert Ready(before.domain, i);
          CompletedStays(journal, Wrote(domain), before.domain.transfers[i], i);
        }
      case Request(site, batch) =>
        if ApplyAll(before, site, batch).Some? {
          BatchBacked(before, site, batch, journal);
        } else {
          assert journal + [] == journal;
        }
    }
  }

  // ---------------------------------------------------------------- progress and its limits

  /** Sending a Site's next event advances its cursor exactly when the event's effect goes through. */
  lemma NextEventAdvances(logs: SiteId -> seq<Envelope>, w: World, site: SiteId)
    requires Honest(site, logs(site)) && Prefixed(logs, w, site) && InboxOf(w, site).cursor < |logs(site)|
    ensures var inbox, e := InboxOf(w, site), logs(site)[InboxOf(w, site).cursor];
      var w' := Receive(w, site, [e]);
      && (Effect(w.domain, site, e).Took? <==> InboxOf(w', site).cursor == inbox.cursor + 1)
      && (!Effect(w.domain, site, e).Took? ==> w' == w)
  {
    var e := logs(site)[InboxOf(w, site).cursor];
    assert [e][..0] == [];
    assert ApplyAll(w, site, []) == Some((w, []));
    assert !Received(InboxOf(w, site), e.id);
  }

  /** An event no state of Central's tables can accept. */
  predicate Hopeless(site: SiteId, e: Envelope) {
    match e.body
    case Heartbeat(_) => false
    case DeploymentReport(r) =>
      r.None? || r.value.report.desired == 0 || r.value.site != site || e.entity != Some(r.value.deployment)
    case TransferProgress(p) =>
      p.None? || !ValidProgress(p.value) || p.value.site != site || e.entity != Some(p.value.transfer) || p.value.event.None?
    case PresentationUpserted(u) => u.None? || e.entity != Some(u.value.presentation)
    case VersionCreated(v) => v.None? || e.entity != Some(v.value.version)
    case Unsupported => true
  }

  const NO_DOMAIN := Domain(map[], map[], map[], map[], map[], {})

  /** A state of the tables in which an event that is not hopeless goes through. */
  function Welcoming(site: SiteId, e: Envelope): Domain
    requires !Hopeless(site, e)
  {
    match e.body
    case Heartbeat(_) => NO_DOMAIN
    case DeploymentReport(r) =>
      NO_DOMAIN.(deployments := map[r.value.deployment := Hosted(r.value.event, site, NEW_DEPLOYMENT)])
    case TransferProgress(Some(p)) =>
      NO_DOMAIN.(transfers := map[p.transfer :=
        Transfer(Some(site), 0, OpenJob, Some(MediaImport(p.event.value, p.version, Some(p.size), OtherState, None)))])
    case PresentationUpserted(Some(u)) =>
      NO_DOMAIN.(deployments := map[0 := Hosted(u.event, site, NEW_DEPLOYMENT)],
                 presentations := map[u.presentation := Presentation(u.event, None, 0, 0, None, u.revision)])
    case VersionCreated(Some(v)) =>
      NO_DOMAIN.(presentations := map[v.presentation := Presentation(0, None, 0, 0, None, 1)],
                 versions := map[v.version := Version(v.presentation, v.number)])
    case Unsupported => NO_DOMAIN
  }

  lemma HopelessExactly(site: SiteId, e: Envelope)
    ensures Hopeless(site, e) <==> forall d :: !Effect(d, site, e).Took?
  {
    if !Hopeless(site, e) {
      var d := Welcoming(site, e);
      if e.body.PresentationUpserted? {
        assert d.deployments[0].site == site;
      }
      assert Effect(d, site, e).Took?;
    }
  }

  /** A hopeless event in front stops its Site's stream, whatever is delivered and whatever Central writes. */
  lemma {:induction false} HopelessEventHalts(logs: SiteId -> seq<Envelope>, w: World, site: SiteId, steps: seq<Step>)
    requires forall i :: 0 <= i < |steps| ==> Delivers(logs, steps[i])
    requires Honest(site, logs(site)) && Prefixed(logs, w, site) && InboxOf(w, site).cursor < |logs(site)|
    requires Hopeless(site, logs(site)[InboxOf(w, site).cursor])
    ensures InboxOf(Run(w, steps), site) == InboxOf(w, site)
    decreases |steps|
  {
    if steps != [] {
      var before, step := Run(w, steps[..|steps| - 1]), steps[|steps| - 1];
      HopelessEventHalts(logs, w, site, steps[..|steps| - 1]);
      if step.Request? && ApplyAll(before, step.site, step.batch).Some? {
        BatchLeavesInbox(logs, before, site, step.site, step.batch);
      }
    }
  }

  lemma {:induction false} BatchLeavesInbox(logs: SiteId -> seq<Envelope>, w: World, site: SiteId, sender: SiteId, batch: seq<Envelope>)
    requires Delivers(logs, Request(sender, batch)) && ApplyAll(w, sender, batch).Some?
    requires Honest(site, logs(site)) && Prefixed(logs, w, site) && InboxOf(w, site).cursor < |logs(site)|
    requires Hopeless(site, logs(site)[InboxOf(w, site).cursor])
    ensures InboxOf(ApplyAll(w, sender, batch).value.0, site) == InboxOf(w, site)
    decreases |batch|
  {
    if batch != [] {
      var init, e := batch[..|batch| - 1], batch[|batch| - 1];
      BatchLeavesInbox(logs, w, site, sender, init);
      var before := ApplyAll(w, sender, init).value.0;
      if sender == site && Apply(before, site, e).value.1 == Accepted {
        AcceptedIsNext(logs, before, site, e);
        HopelessExactly(site, e);
        assert false;
      }
    }
  }

  // ---------------------------------------------------------------- what Sites can and cannot change

  ghost predicate DeploymentsForward(before: Domain, after: Domain) {
    && after.deployments.Keys == before.deployments.Keys
    && forall i :: i in before.deployments ==>
         var a, b := before.deployments[i], after.deployments[i];
         && b.event == a.event && b.site == a.site && b.record.desired == a.record.desired
         && b.record.revisions == a.record.revisions && a.record.acked <= b.record.acked
         && (Sound(a.record) ==> Sound(b.record))
  }

  /** Confirmed bytes never go back, and a transfer that has succeeded is never touched again. */
  ghost predicate TransfersForward(before: Domain, after: Domain) {
    && after.transfers.Keys == before.transfers.Keys
    && forall i :: i in before.transfers ==>
         var a, b := before.transfers[i], after.transfers[i];
         && a.offset <= b.offset && (a.status == Succeeded ==> b == a)
         && (b.status == Succeeded ==> b == a || (b.media.Some? && b.media.value.size == Some(b.offset)))
  }

  /** Presentations never change Event or identifier, and change at all only with a higher revision. */
  ghost predicate CatalogueForward(before: Domain, after: Domain) {
    && after.sessions == before.sessions
    && (forall i :: i in before.presentations ==> i in after.presentations)
    && (forall i :: i in before.presentations ==>
          var a, b := before.presentations[i], after.presentations[i];
          && b.event == a.event && b.identifier == a.identifier && (b == a || a.revision < b.revision))
    && (forall i :: i in before.versions ==> i in after.versions && after.versions[i] == before.versions[i])
  }

  predicate SameIdentifier(a: Presentation, b: Presentation) {
    a.event == b.event && a.identifier == b.identifier
  }

  /** The uniqueness and foreign-key constraints of presentations and versions. */
  ghost predicate Consistent(d: Domain) {
    && (forall i :: i in d.presentations ==> SessionExists(d, d.presentations[i].session))
    && (forall i, j :: i in d.presentations && j in d.presentations && i != j ==>
          !SameIdentifier(d.presentations[i], d.presentations[j]))
    && (forall i :: i in d.versions ==> d.versions[i].presentation in d.presentations && d.versions[i].number >= 1)
    && (forall i, j :: i in d.versions && j in d.versions && i != j ==> d.versions[i] != d.versions[j])
  }

  ghost predicate Forward(before: Domain, after: Domain) {
    && DeploymentsForward(before, after) && TransfersForward(before, after) && CatalogueForward(before, after)
    && (Consistent(before) ==> Consistent(after))
  }

  lemma ReportIsForward(d: Domain, site: SiteId, entity: Option<Id>, report: Option<SiteReport>)
    requires ReportEffect(d, site, entity, report).Took?
    ensures Forward(d, ReportEffect(d, site, entity, report).domain)
  {
    hide Consistent, CatalogueForward, TransfersForward;
    var d' := ReportEffect(d, site, entity, report).domain;
    CatalogueUntouched(d, d');
    assert d'.transfers == d.transfers;
    TransfersUntouched(d, d');
  }

  lemma CatalogueUntouched(d: Domain, d': Domain)
    requires d'.presentations == d.presentations && d'.versions == d.versions && d'.sessions == d.sessions
    ensures CatalogueForward(d, d') && (Consistent(d) ==> Consistent(d'))
  {}

  lemma TransfersUntouched(d: Domain, d': Domain)
    requires d'.transfers == d.transfers
    ensures TransfersForward(d, d')
  {}

  lemma ProgressIsForward(d: Domain, site: SiteId, entity: Option<Id>, progress: Option<Progress>)
    requires ProgressEffect(d, site, entity, progress).Took?
    ensures Forward(d, ProgressEffect(d, site, entity, progress).domain)
  {}

  lemma PutPresentation(d: Domain, id: Id, p: Presentation)
    requires SessionExists(d, p.session)
    requires if id in d.presentations then SameIdentifier(p, d.presentations[id]) else !IdentifierTaken(d, p.event, p.identifier)
    ensures Consistent(d) ==> Consistent(d.(presentations := d.presentations[id := p]))
  {}

  lemma UpsertIsForward(d: Domain, site: SiteId, entity: Option<Id>, upsert: Option<Upsert>)
    requires UpsertEffect(d, site, entity, upsert).Took?
    ensures Forward(d, UpsertEffect(d, site, entity, upsert).domain)
  {
    hide Consistent;
    var u, d' := upsert.value, UpsertEffect(d, site, entity, upsert).domain;
    if d' != d {
      PutPresentation(d, u.presentation, d'.presentations[u.presentation]);
    }
    assert DeploymentsForward(d, d') && TransfersForward(d, d');
  }

  lemma PutVersion(d: Domain, id: Id, v: Version)
    requires v.presentation in d.presentations && v.number >= 1 && id !in d.versions && !NumberTaken(d, v.presentation, v.number)
    ensures Consistent(d) ==> Consistent(d.(versions := d.versions[id := v]))
  {}

  lemma VersionIsForward(d: Domain, entity: Option<Id>, version: Option<NewVersion>)
    requires VersionEffect(d, entity, version).Took?
    ensures Forward(d, VersionEffect(d, entity, version).domain)
  {
    hide Consistent;
    var v, d' := version.value, VersionEffect(d, entity, version).domain;
    if d' != d {
      PutVersion(d, v.version, Version(v.presentation, v.number));
    }
    assert DeploymentsForward(d, d') && TransfersForward(d, d');
  }

  lemma HeartbeatIsForward(d: Domain, d': Domain)
    requires d' == d.(health := d'.health)
    ensures Forward(d, d')
  {}

  lemma EffectIsForward(d: Domain, site: SiteId, e: Envelope)
    requires Effect(d, site, e).Took?
    ensures Forward(d, Effect(d, site, e).domain)
  {
    hide Forward, ReportEffect, ProgressEffect, UpsertEffect, VersionEffect;
    match e.body
    case Heartbeat(info) => HeartbeatIsForward(d, d.(health := d.health[site := info]));
    case DeploymentReport(report) => ReportIsForward(d, site, e.entity, report);
    case TransferProgress(progress) => ProgressIsForward(d, site, e.entity, progress);
    case PresentationUpserted(upsert) => UpsertIsForward(d, site, e.entity, upsert);
    case VersionCreated(version) => VersionIsForward(d, e.entity, version);
    case Unsupported =>
  }

  lemma ForwardIsTransitive(a: Domain, b: Domain, c: Domain)
    requires Forward(a, b) && Forward(b, c)
    ensures Forward(a, c)
  {
    forall i | i in a.transfers
      ensures c.transfers[i].status == Succeeded ==>
                c.transfers[i] == a.transfers[i]
                || (c.transfers[i].media.Some? && c.transfers[i].media.value.size == Some(c.transfers[i].offset))
    {
      assert i in b.transfers;
    }
  }

  lemma {:induction false} BatchIsForward(w: World, site: SiteId, batch: seq<Envelope>)
    requires ApplyAll(w, site, batch).Some?
    ensures Forward(w.domain, ApplyAll(w, site, batch).value.0.domain)
    decreases |batch|
  {
    if batch != [] {
      var init, e := batch[..|batch| - 1], batch[|batch| - 1];
      BatchIsForward(w, site, init);
      var before := ApplyAll(w, site, init).value.0;
      if Apply(before, site, e).value.1 == Accepted {
        EffectIsForward(before.domain, site, e);
        ForwardIsTransitive(w.domain, before.domain, Effect(before.domain, site, e).domain);
      }
    }
  }

  /** Whatever Sites send, honest or not, acknowledged revisions, offsets and presentation revisions never go back. */
  lemma {:induction false} SitesOnlyMoveForward(w: World, steps: seq<Step>)
    requires forall i :: 0 <= i < |steps| ==> steps[i].Request?
    ensures Forward(w.domain, Run(w, steps).domain)
    decreases |steps|
  {
    if steps != [] {
      var before, step := Run(w, steps[..|steps| - 1]), steps[|steps| - 1];
      SitesOnlyMoveForward(w, steps[..|steps| - 1]);
      if ApplyAll(before, step.site, step.batch).Some? {
        BatchIsForward(before, step.site, step.batch);
        ForwardIsTransitive(w.domain, before.domain, ApplyAll(before, step.site, step.batch).value.0.domain);
      }
    }
  }

  // ---------------------------------------------------------------- the receiver

  /** The tables of one request's transaction. */
  class Receiver {
    var health: map<SiteId, nat>
    var deployments: map<Id, Hosted>
    var transfers: map<Id, Transfer>
    var presentations: map<Id, Presentation>
    var versions: map<Id, Version>
    const sessions: set<Id>
    var inboxes: map<SiteId, Inbox>

    function Tables(): Domain
      reads this
    {
      Domain(health, deployments, transfers, presentations, versions, sessions)
    }

    function View(): World
      reads this
    {
      World(Tables(), inboxes)
    }

    constructor (w: World)
      ensures View() == w
    {
      health, deployments, transfers := w.domain.health, w.domain.deployments, w.domain.transfers;
      presentations, versions, sessions := w.domain.presentations, w.domain.versions, w.domain.sessions;
      inboxes := w.inboxes;
    }

    method ReceiveReport(site: SiteId, entity: Option<Id>, report: Option<SiteReport>) returns (error: Option<Code>)
      modifies this`deployments
      ensures match ReportEffect(old(Tables()), site, entity, report)
        case Took(domain) => error.None? && Tables() == domain
        case Refused(code) => error == Some(code) && Tables() == old(Tables())
        case Aborts => false
    {
      if report.None? || report.value.report.desired == 0 {
        return Some(MalformedDeploymentStatus);
      }
      var r := report.value;
      if r.deployment !in deployments || r.site != site || deployments[r.deployment].site != site
         || deployments[r.deployment].event != r.event || entity != Some(r.deployment) {
        return Some(InvalidDeploymentIdentity);
      }
      var d := RecordReport(deployments[r.deployment].record, r.report);
      deployments := deployments[r.deployment := deployments[r.deployment].(record := d)];
      return None;
    }

    method ReceiveProgress(site: SiteId, entity: Option<Id>, progress: Option<Progress>) returns (error: Option<Code>)
      modifies this`transfers
      ensures match ProgressEffect(old(Tables()), site, entity, progress)
        case Took(domain) => error.None? && Tables() == domain
        case Refused(code) => error == Some(code) && Tables() == old(Tables())
        case Aborts => false
    {
      if progress.None? || !ValidProgress(progress.value) {
        return Some(MalformedTransferProgress);
      }
      var p := progress.value;
      if p.site != site || entity != Some(p.transfer) {
        return Some(InvalidTransferProgressIdentity);
      }
      if p.transfer !in transfers {
        return Some(UnknownTransferProgress);
      }
      var t := transfers[p.transfer];
      if t.media.None? || t.site != Some(site) || Some(t.media.value.event) != p.event
         || t.media.value.version != p.version || t.media.value.size != Some(p.size) {
        return Some(UnknownTransferProgress);
      }
      if p.offset >= t.offset && t.status != Succeeded {
        var m := t.media.value;
        t := t.(offset := p.offset);
        if p.phase == Completed && p.ready {
          m := m.(state := SiteReady, siteMedia := p.media);
          t := t.(status := Succeeded);
        } else if p.phase == FailedAtSite {
          m := m.(state := ImportFailed);
          t := t.(status := FailedJob);
        } else {
          m := m.(state := Transferring);
        }
        t := t.(media := Some(m));
      }
      transfers := transfers[p.transfer := t];
      return None;
    }

    method ReceiveUpsert(site: SiteId, entity: Option<Id>, upsert: Option<Upsert>) returns (ok: bool, error: Option<Code>)
      modifies this`presentations
      ensures match UpsertEffect(old(Tables()), site, entity, upsert)
        case Took(domain) => ok && error.None? && Tables() == domain
        case Refused(code) => ok && error == Some(code) && Tables() == old(Tables())
        case Aborts => !ok
    {
      if upsert.None? {
        return true, Some(MalformedPresentation);
      }
      var u := upsert.value;
      if entity != Some(u.presentation) || !HostsEvent(Tables(), site, u.event) {
        return true, Some(InvalidPresentationScope);
      }
      if u.presentation !in presentations {
        if u.title.None? || u.identifier.None? || !SessionExists(Tables(), u.session)
           || IdentifierTaken(Tables(), u.event, u.identifier.value) {
          return false, None;
        }
        var item := Presentation(u.event, u.session, u.title.value, u.identifier.value, u.external, u.revision);
        presentations := presentations[u.presentation := item];
      } else if u.revision > presentations[u.presentation].revision {
        if u.title.None? || !SessionExists(Tables(), u.session) {
          return false, None;
        }
        var item := presentations[u.presentation];
        item := item.(title := u.title.value);
        item := item.(session := u.session);
        item := item.(external := u.external);
        item := item.(revision := u.revision);
        presentations := presentations[u.presentation := item];
      }
      return true, None;
    }

    method ReceiveVersion(entity: Option<Id>, version: Option<NewVersion>) returns (ok: bool, error: Option<Code>)
      modifies this`versions
      ensures match VersionEffect(old(Tables()), entity, version)
        case Took(domain) => ok && error.None? && Tables() == domain
        case Refused(code) => ok && error == Some(code) && Tables() == old(Tables())
        case Aborts => !ok
    {
      if version.None? {
        return true, Some(MalformedPresentationVersion);
      }
      var v := version.value;
      if v.presentation !in presentations || entity != Some(v.version) {
        return true, Some(PresentationMetadataRequired);
      }
      if v.version !in versions {
        if v.number < 1 || NumberTaken(Tables(), v.presentation, v.number) {
          return false, None;
        }
        versions := versions[v.version := Version(v.presentation, v.number)];
      } else if versions[v.version].presentation != v.presentation || versions[v.version].number != v.number {
        return true, Some(PresentationVersionConflict);
      }
      return true, None;
    }

    /** ok is false when the code would raise; the caller then rolls the transaction back. */
    method ApplySiteEvent(site: SiteId, e: Envelope) returns (ok: bool, answer: Answer)
      modifies this
      ensures match Apply(old(View()), site, e)
        case None => !ok
        case Some((w, a)) => ok && answer == a && View() == w
    {
      if e.protocol != PROTOCOL_VERSION {
        return true, Rejected(IncompatibleProtocol);
      }
      if !e.fromSite || e.source != Some(site) || !e.siteAuthority {
        return true, Rejected(InvalidAuthority);
      }
      var inbox := if site in inboxes then inboxes[site] else Inbox([], 0);
      if exists k :: 0 <= k < |inbox.receipts| && inbox.receipts[k].event == e.id {
        return true, Duplicate;
      }
      if e.sequence != inbox.cursor + 1 {
        return true, Rejected(SequenceGap);
      }
      var error: Option<Code> := None;
      ok := true;
      match e.body {
        case Heartbeat(info) => health := health[site := info];
        case DeploymentReport(report) => error := ReceiveReport(site, e.entity, report);
        case TransferProgress(progress) => error := ReceiveProgress(site, e.entity, progress);
        case PresentationUpserted(upsert) => ok, error := ReceiveUpsert(site, e.entity, upsert);
        case VersionCreated(version) => ok, error := ReceiveVersion(e.entity, version);
        case Unsupported => error := Some(UnsupportedEventType);
      }
      if !ok {
        return false, Duplicate;
      }
      if error.Some? {
        return true, Rejected(error.value);
      }
      inboxes := inboxes[site := Inbox(inbox.receipts + [Receipt(e.id, e.sequence)], e.sequence)];
      return true, Accepted;
    }

    /** The endpoint: one transaction, its answers and the cursor it reports. */
    method ReceiveSiteEvents(site: SiteId, batch: seq<Envelope>) returns (ok: bool, answers: seq<Answer>, checkpoint: nat)
      modifies this
      ensures View() == Receive(old(View()), site, batch)
      ensures ok <==> ApplyAll(old(View()), site, batch).Some?
      ensures ok ==> answers == ApplyAll(old(View()), site, batch).value.1 && checkpoint == InboxOf(View(), site).cursor
    {
      var saved := View();
      answers := [];
      for i := 0 to |batch|
        invariant ApplyAll(old(View()), site, batch[..i]) == Some((View(), answers))
      {
        assert batch[..i + 1][..i] == batch[..i];
        var good, answer := ApplySiteEvent(site, batch[i]);
        if !good {
          AbortedPrefix(saved, site, batch, i + 1);
          health, deployments, transfers := saved.domain.health, saved.domain.deployments, saved.domain.transfers;
          presentations, versions, inboxes := saved.domain.presentations, saved.domain.versions, saved.inboxes;
          return false, [], 0;
        }
        answers := answers + [answer];
      }
      assert batch[..|batch|] == batch;
      return true, answers, if site in inboxes then inboxes[site].cursor else 0;
    }
  }

  /** A batch dies with any of its prefixes. */
  lemma {:induction false} AbortedPrefix(w: World, site: SiteId, batch: seq<Envelope>, i: nat)
    requires i <= |batch| && ApplyAll(w, site, batch[..i]).None?
    ensures ApplyAll(w, site, batch).None?
    decreases |batch| - i
  {
    if i == |batch| {
      assert batch[..i] == batch;
    } else {
      assert batch[..i + 1][..i] == batch[..i];
      AbortedPrefix(w, site, batch, i + 1);
    }
  }
}
