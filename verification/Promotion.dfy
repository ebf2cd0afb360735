/**
 Confirming staged media: concurrent workers promote bytes outside any transaction and then
 confirm the import in a short one. Each transaction here is atomic; between them anything
 may happen, including other workers' confirmations of the same import.
 */
module Promotion {
  import opened Wrappers

  type Id = nat

  datatype Match = Unmatched | Suggested | Confirmed

  datatype State = Staged | NeedsReview | Assigned | TransferQueued | Cancelled

  /** committed is the storage key of the published bytes; digest and size describe the staged ones. */
  datatype Import = Import(event: Id, destination: Option<Id>, verdict: Match, state: State, presentation: Option<Id>,
                           version: Option<Id>, committed: Option<nat>, digest: Option<nat>, size: Option<nat>)

  datatype Version = Version(presentation: Id, number: int)

  datatype Media = Media(key: nat, digest: nat, size: nat)

  /** presentations gives the Event of each; originals is the one original asset a version may have. */
  datatype Tables = Tables(imports: map<Id, Import>, presentations: map<Id, Id>, received: set<Id>,
                           versions: map<Id, Version>, media: map<Id, Media>, originals: map<Id, Id>, jobs: set<(Id, Id)>)

  // ---------------------------------------------------------------- assigning

  ghost predicate IsLatest(versions: map<Id, Version>, p: Id, v: Id) {
    && v in versions && versions[v].presentation == p
    && forall w :: w in versions && versions[w].presentation == p ==> versions[w].number <= versions[v].number
  }

  ghost function Latest(versions: map<Id, Version>, p: Id): Option<Id> {
    if exists v :: IsLatest(versions, p, v) then var v :| IsLatest(versions, p, v); Some(v) else None
  }

  predicate TakenVersion(t: Tables, v: Id) {
    exists j :: j in t.imports && t.imports[j].version == Some(v) && t.imports[j].state != Cancelled
  }

  /** The version the next confirmation of p gets; spare is the identity of a new one. */
  ghost function NextVersion(t: Tables, p: Id, spare: Id): (Tables, Id) {
    var latest := Latest(t.versions, p);
    if latest.Some? && !TakenVersion(t, latest.value) then (t, latest.value)
    else
      var number := if latest.Some? then t.versions[latest.value].number + 1 else 1;
      (t.(versions := t.versions[spare := Version(p, number)]), spare)
  }

  ghost predicate FreshVersion(t: Tables, v: Id) {
    v !in t.versions && v !in t.originals && forall j :: j in t.imports ==> t.imports[j].version != Some(v)
  }

  /** None stands for the errors that roll the transaction back. */
  ghost function Assign(t: Tables, i: Id, p: Id, spare: Id): Option<Tables>
    requires i in t.imports
  {
    if p !in t.presentations || t.presentations[p] != t.imports[i].event then None
    else
      var (t', v) := NextVersion(t, p, spare);
      var state := if t.imports[i].destination.Some? then TransferQueued else Assigned;
      Some(t'.(imports := t.imports[i := t.imports[i].(presentation := Some(p), version := Some(v), verdict := Confirmed, state := state)],
               received := t.received + {p}))
  }

  /** The canonical linkage of one confirmed import: its media row and its version's original. */
  function EnsureOriginal(t: Tables, i: Id): Option<Tables>
    requires i in t.imports
  {
    var r := t.imports[i];
    if r.verdict != Confirmed || r.state != Assigned || r.version.None? || r.presentation.None?
       || r.committed.None? || r.digest.None? || r.size.None? then None
    else if r.version.value !in t.versions || t.versions[r.version.value].presentation != r.presentation.value then None
    else if r.presentation.value !in t.presentations then None
    else
      var media := Media(r.committed.value, r.digest.value, r.size.value);
      if i in t.media && t.media[i] != media then None
      else if r.version.value in t.originals && t.originals[r.version.value] != i then None
      else Some(t.(received := t.received + {r.presentation.value}, media := t.media[i := media],
                   originals := t.originals[r.version.value := i]))
  }

  /** The worker's last transaction, whatever became of the import since the worker read it. */
  ghost function Confirm(t: Tables, i: Id, p: Id, key: nat, spare: Id): Option<Tables> {
    if i !in t.imports then None
    else if t.imports[i].verdict == Confirmed then Some(t)
    else
      var t1 := t.(imports := t.imports[i := t.imports[i].(committed := Some(key))]);
      match Assign(t1, i, p, spare)
      case None => None
      case Some(t2) => EnsureOriginal(t2, i)
  }

  function QueuePromotion(t: Tables, i: Id, p: Id): Option<Tables>
    requires i in t.imports
  {
    var r := t.imports[i];
    if p !in t.presentations || t.presentations[p] != r.event then None
    else if r.verdict == Confirmed then (if r.presentation == Some(p) then Some(t) else None)
    else if r.digest.None? || r.size.None? then None
    else Some(t.(jobs := t.jobs + {(i, p)}))
  }

  // ---------------------------------------------------------------- everything that can happen

  /** New identities are unused; a Site's media never carries the identity of an import. */
  datatype Step =
    | Stage(i: Id, staged: Import)
    | Analyze(i: Id, verdict: Match)
    | AnalysisFails(i: Id)
    | Queue(i: Id, p: Id)
    | ConfirmWork(i: Id, p: Id, key: nat, spare: Id)
    | Repair(i: Id)
    | Cancel(i: Id)
    | SiteVersion(v: Id, p: Id, number: int)
    | SiteOriginal(v: Id, m: Id, content: Media)

  function Or(result: Option<Tables>, t: Tables): Tables {
    if result.Some? then result.value else t
  }

  ghost function Next(t: Tables, step: Step): Tables {
    match step
    case Stage(i, staged) =>
      if i in t.imports || i in t.media || staged.verdict != Unmatched || staged.state != Staged
         || staged.presentation.Some? || staged.version.Some? then t
      else t.(imports := t.imports[i := staged])
    case Analyze(i, verdict) =>
      if i !in t.imports || verdict == Confirmed || (t.imports[i].state != Staged && t.imports[i].state != NeedsReview) then t
      else t.(imports := t.imports[i := t.imports[i].(verdict := verdict, state := NeedsReview)])
    case AnalysisFails(i) =>
      if i !in t.imports then t
      else t.(imports := t.imports[i := t.imports[i].(verdict := Unmatched, state := NeedsReview)])
    case Queue(i, p) => if i in t.imports then Or(QueuePromotion(t, i, p), t) else t
    case ConfirmWork(i, p, key, spare) => if FreshVersion(t, spare) then Or(Confirm(t, i, p, key, spare), t) else t
    case Repair(i) => if i in t.imports then Or(EnsureOriginal(t, i), t) else t
    case Cancel(i) =>
      if i !in t.imports || t.imports[i].presentation.Some? then t
      else t.(imports := t.imports[i := t.imports[i].(state := Cancelled)])
    case SiteVersion(v, p, number) =>
      if !FreshVersion(t, v) || p !in t.presentations || number < 1 || exists w :: w in t.versions && t.versions[w] == Version(p, number) then t
      else t.(versions := t.versions[v := Version(p, number)])
    case SiteOriginal(v, m, content) =>
      if v !in t.versions || v in t.originals || m in t.media || m in t.imports then t
      else t.(media := t.media[m := content], originals := t.originals[v := m])
  }

  ghost function Run(t: Tables, steps: seq<Step>): Tables
    decreases |steps|
  {
    if steps == [] then t else Next(Run(t, steps[..|steps| - 1]), steps[|steps| - 1])
  }

  // ---------------------------------------------------------------- invariants

  ghost predicate NumbersDistinct(t: Tables) {
    forall v, w :: v in t.versions && w in t.versions && v != w ==> t.versions[v] != t.versions[w]
  }

  /** A confirmed import holds its presentation's version alone, with an original that names its own media. */
  ghost predicate Linked(t: Tables, i: Id)
    requires i in t.imports
  {
    var r := t.imports[i];
    if r.verdict == Confirmed then
      && r.state == Assigned && r.presentation.Some? && r.version.Some?
      && r.presentation.value in t.presentations && t.presentations[r.presentation.value] == r.event
      && r.presentation.value in t.received
      && r.version.value in t.versions && t.versions[r.version.value].presentation == r.presentation.value
      && r.version.value in t.originals && t.originals[r.version.value] == i
      && i in t.media && r.committed.Some? && r.digest.Some? && r.size.Some?
      && t.media[i] == Media(r.committed.value, r.digest.value, r.size.value)
    else r.presentation.None? && r.version.None? && r.state != Assigned && r.state != TransferQueued && i !in t.media
  }

  /** An original that names an import's media belongs to that import's own version. */
  ghost predicate OriginalsOwned(t: Tables) {
    forall v :: v in t.originals ==>
      && v in t.versions && t.originals[v] in t.media
      && (t.originals[v] in t.imports ==> t.imports[t.originals[v]].verdict == Confirmed && t.imports[t.originals[v]].version == Some(v))
  }

  ghost predicate Inv(t: Tables) {
    NumbersDistinct(t) && OriginalsOwned(t) && forall i :: i in t.imports ==> Linked(t, i)
  }

  lemma {:induction false} SomeLatest(t: Tables, p: Id, vs: set<Id>) returns (v: Id)
    requires vs <= t.versions.Keys && vs != {} && forall w :: w in vs ==> t.versions[w].presentation == p
    ensures v in vs && forall w :: w in vs ==> t.versions[w].number <= t.versions[v].number
    decreases vs
  {
    v :| v in vs;
    if vs != {v} {
      var u := SomeLatest(t, p, vs - {v});
      if t.versions[u].number > t.versions[v].number { v := u; }
    }
  }

  lemma LatestFacts(t: Tables, p: Id)
    ensures Latest(t.versions, p).Some? ==> IsLatest(t.versions, p, Latest(t.versions, p).value)
    ensures Latest(t.versions, p).None? ==> forall v :: v in t.versions ==> t.versions[v].presentation != p
  {
    var vs := set v | v in t.versions && t.versions[v].presentation == p;
    if vs != {} {
      var v := SomeLatest(t, p, vs);
      assert IsLatest(t.versions, p, v);
    }
    assert forall v :: v in t.versions && t.versions[v].presentation == p ==> v in vs;
  }

  /** The chosen version exists, belongs to p, keeps numbers distinct, and no live import holds it. */
  lemma NextVersionFacts(t: Tables, p: Id, spare: Id)
    requires NumbersDistinct(t) && FreshVersion(t, spare)
    ensures var (t', v) := NextVersion(t, p, spare);
      && NumbersDistinct(t') && v in t'.versions && t'.versions[v].presentation == p
      && !TakenVersion(t, v) && t' == t.(versions := t'.versions)
      && (forall w :: w in t.versions ==> w in t'.versions && t'.versions[w] == t.versions[w])
  {
    LatestFacts(t, p);
  }

  /**
   Which version a confirmation gets: the newest of its presentation if no live import holds it,
   otherwise a new one, numbered 1 if it is the first and one more than the newest if not.
   */
  lemma NextVersionExactly(t: Tables, p: Id, spare: Id)
    requires NumbersDistinct(t) && FreshVersion(t, spare)
    ensures var (t', v) := NextVersion(t, p, spare);
      if v != spare then
        && t' == t && v in t.versions && t.versions[v].presentation == p
        && (forall w :: w in t.versions && t.versions[w].presentation == p ==> t.versions[w].number <= t.versions[v].number)
        && (forall j :: j in t.imports && t.imports[j].version == Some(v) ==> t.imports[j].state == Cancelled)
      else
        && t' == t.(versions := t'.versions) && t'.versions == t.versions[spare := t'.versions[spare]]
        && t'.versions[spare].presentation == p
        && (forall w :: w in t.versions && t.versions[w].presentation == p ==> t.versions[w].number < t'.versions[spare].number)
        && (t'.versions[spare].number == 1 || exists w :: w in t.versions && t.versions[w].presentation == p && t.versions[w].number == t'.versions[spare].number - 1)
        && ((forall w :: w in t.versions ==> t.versions[w].presentation != p) ==> t'.versions[spare].number == 1)
        && (forall w :: w in t.versions && t.versions[w].presentation == p && t.versions[w].number == t'.versions[spare].number - 1 ==>
              exists j :: j in t.imports && t.imports[j].version == Some(w) && t.imports[j].state != Cancelled)
  {
    LatestFacts(t, p);
  }

  /** When an assignment goes through, and what it writes. */
  lemma AssignExactly(t: Tables, i: Id, p: Id, spare: Id)
    requires i in t.imports
    ensures Assign(t, i, p, spare).Some? <==> p in t.presentations && t.presentations[p] == t.imports[i].event
    ensures Assign(t, i, p, spare).Some? ==>
      var t', (tv, v) := Assign(t, i, p, spare).value, NextVersion(t, p, spare);
      && t' == t.(imports := t'.imports, received := t'.received, versions := tv.versions)
      && t'.imports.Keys == t.imports.Keys && (forall j :: j in t.imports && j != i ==> t'.imports[j] == t.imports[j])
      && (forall q :: q in t'.received <==> q in t.received || q == p)
      && var r, r' := t.imports[i], t'.imports[i];
      && r'.presentation == Some(p) && r'.version == Some(v) && r'.verdict == Confirmed
      && (r'.state == TransferQueued <==> r.destination.Some?) && (r'.state == Assigned <==> r.destination.None?)
      && r'.event == r.event && r'.destination == r.destination && r'.committed == r.committed && r'.digest == r.digest && r'.size == r.size
  {}

  /** When the linkage of an import's original goes through, and what it writes. */
  lemma EnsureOriginalExactly(t: Tables, i: Id)
    requires i in t.imports
    ensures var r := t.imports[i];
      EnsureOriginal(t, i).Some? <==>
        (r.verdict == Confirmed && r.state == Assigned && r.version.Some? && r.presentation.Some?
         && r.committed.Some? && r.digest.Some? && r.size.Some? && r.presentation.value in t.presentations
         && r.version.value in t.versions && t.versions[r.version.value].presentation == r.presentation.value
         && (i in t.media ==> t.media[i].key == r.committed.value && t.media[i].digest == r.digest.value && t.media[i].size == r.size.value)
         && (r.version.value in t.originals ==> t.originals[r.version.value] == i))
    ensures EnsureOriginal(t, i).Some? ==>
      var t', r := EnsureOriginal(t, i).value, t.imports[i];
      && t' == t.(received := t'.received, media := t'.media, originals := t'.originals)
      && (forall q :: q in t'.received <==> q in t.received || Some(q) == r.presentation)
      && i in t'.media && t'.media == t.media[i := t'.media[i]]
      && Some(t'.media[i].key) == r.committed && Some(t'.media[i].digest) == r.digest && Some(t'.media[i].size) == r.size
      && r.version.value in t'.originals && t'.originals == t.originals[r.version.value := i]
  {}

  /** Analyses and cancellations: which imports they reach, and what they write there. */
  lemma ReviewStepsExactly(t: Tables, i: Id, verdict: Match)
    requires i in t.imports && verdict != Confirmed
    ensures var t', r := Next(t, Analyze(i, verdict)), t.imports[i];
      && t' == t.(imports := t.imports[i := t'.imports[i]])
      && (r.state == Staged || r.state == NeedsReview ==> t'.imports[i].verdict == verdict && t'.imports[i].state == NeedsReview)
      && (r.state != Staged && r.state != NeedsReview ==> t'.imports[i] == r)
      && t'.imports[i] == r.(verdict := t'.imports[i].verdict, state := t'.imports[i].state)
    ensures var t', r := Next(t, AnalysisFails(i)), t.imports[i];
      && t' == t.(imports := t.imports[i := t'.imports[i]])
      && t'.imports[i].verdict == Unmatched && t'.imports[i].state == NeedsReview
      && t'.imports[i] == r.(verdict := t'.imports[i].verdict, state := t'.imports[i].state)
    ensures var t', r := Next(t, Cancel(i)), t.imports[i];
      && t' == t.(imports := t.imports[i := t'.imports[i]])
      && (r.presentation.Some? ==> t'.imports[i] == r)
      && (r.presentation.None? ==> t'.imports[i].state == Cancelled && t'.imports[i] == r.(state := t'.imports[i].state))
  {
    assert t.imports[i := t.imports[i]] == t.imports;
  }

  /** What arrives from outside: a staged upload under an identity of its own, a Site's version under a number of its own, one original for it. */
  lemma ArrivalsExactly(t: Tables, i: Id, staged: Import, v: Id, p: Id, number: int, content: Media)
    ensures var t' := Next(t, Stage(i, staged));
      var taken := i !in t.imports && i !in t.media && staged.verdict == Unmatched && staged.state == Staged
        && staged.presentation.None? && staged.version.None?;
      t' == if taken then t.(imports := t.imports[i := staged]) else t
    ensures var t' := Next(t, SiteVersion(v, p, number));
      var taken := FreshVersion(t, v) && p in t.presentations && number >= 1
        && forall w :: w in t.versions && t.versions[w].presentation == p ==> t.versions[w].number != number;
      t' == if taken then t.(versions := t.versions[v := Version(p, number)]) else t
    ensures var t' := Next(t, SiteOriginal(v, i, content));
      var taken := v in t.versions && v !in t.originals && i !in t.media && i !in t.imports;
      t' == if taken then t.(media := t.media[i := content], originals := t.originals[v := i]) else t
  {}

  /** A promotion is queued exactly for an analysed import and a presentation of its Event; repeating a confirmed one queues nothing. */
  lemma QueueExactly(t: Tables, i: Id, p: Id)
    requires i in t.imports
    ensures var r := t.imports[i];
      QueuePromotion(t, i, p).Some? <==>
        (p in t.presentations && t.presentations[p] == r.event
         && if r.verdict == Confirmed then r.presentation == Some(p) else r.digest.Some? && r.size.Some?)
    ensures QueuePromotion(t, i, p).Some? ==>
      var t' := QueuePromotion(t, i, p).value;
      && t' == t.(jobs := t'.jobs)
      && (forall job :: job in t'.jobs <==> job in t.jobs || (job == (i, p) && t.imports[i].verdict != Confirmed))
  {}

  // ---------------------------------------------------------------- steps

  lemma ConfirmShape(t: Tables, i: Id, p: Id, key: nat, spare: Id)
    requires Inv(t) && i in t.imports && t.imports[i].verdict != Confirmed && FreshVersion(t, spare) && Confirm(t, i, p, key, spare).Some?
    ensures var (tv, v) := NextVersion(t, p, spare);
      var t' := Confirm(t, i, p, key, spare).value;
      var r := t.imports[i];
      && r.destination.None? && p in t.presentations && t.presentations[p] == r.event && v !in t.originals && i !in t.media
      && r.digest.Some? && r.size.Some?
      && t' == Tables(t.imports[i := r.(committed := Some(key), presentation := Some(p), version := Some(v), verdict := Confirmed, state := Assigned)],
                      t.presentations, t.received + {p}, tv.versions, t.media[i := Media(key, r.digest.value, r.size.value)],
                      t.originals[v := i], t.jobs)
  {
    var t1 := t.(imports := t.imports[i := t.imports[i].(committed := Some(key))]);
    CommitIsInvisible(t, t1, i, p, spare);
    NextVersionFacts(t, p, spare);
    var v := NextVersion(t, p, spare).1;
    assert Linked(t, i);
  }

  /** Storing the committed key changes nothing the version choice looks at. */
  lemma CommitIsInvisible(t: Tables, t1: Tables, i: Id, p: Id, spare: Id)
    requires i in t.imports && t1.versions == t.versions
    requires t1.imports.Keys == t.imports.Keys
    requires forall j :: j in t.imports ==> t1.imports[j].version == t.imports[j].version && t1.imports[j].state == t.imports[j].state
    ensures NextVersion(t1, p, spare).0.versions == NextVersion(t, p, spare).0.versions
    ensures NextVersion(t1, p, spare).1 == NextVersion(t, p, spare).1
  {}

  /** What promotion never undoes: a confirmation, its presentation and its version. */
  ghost predicate Settled(t: Tables, t': Tables) {
    && (forall i :: i in t.imports ==> i in t'.imports)
    && (forall i :: i in t.imports && t.imports[i].verdict == Confirmed ==> t'.imports[i] == t.imports[i])
    && (forall v :: v in t.versions ==> v in t'.versions && t'.versions[v] == t.versions[v])
    && (forall v :: v in t.originals ==> v in t'.originals && t'.originals[v] == t.originals[v])
  }

  /** The tables a confirmation commits, in one piece. */
  function Confirming(t: Tables, i: Id, p: Id, v: Id, key: nat, versions: map<Id, Version>): Tables
    requires i in t.imports && t.imports[i].digest.Some? && t.imports[i].size.Some?
  {
    var r := t.imports[i];
    Tables(t.imports[i := r.(committed := Some(key), presentation := Some(p), version := Some(v), verdict := Confirmed, state := Assigned)],
           t.presentations, t.received + {p}, versions, t.media[i := Media(key, r.digest.value, r.size.value)], t.originals[v := i], t.jobs)
  }

  /** What a confirmation of i onto v finds before it commits. */
  ghost predicate Confirmable(t: Tables, i: Id, p: Id, v: Id, versions: map<Id, Version>) {
    && i in t.imports && t.imports[i].verdict != Confirmed && t.imports[i].digest.Some? && t.imports[i].size.Some?
    && p in t.presentations && t.presentations[p] == t.imports[i].event && v !in t.originals && i !in t.media
    && NumbersDistinct(t.(versions := versions)) && v in versions && versions[v].presentation == p
    && forall w :: w in t.versions ==> w in versions && versions[w] == t.versions[w]
  }

  lemma ConfirmingKeepsOriginals(t: Tables, i: Id, p: Id, v: Id, key: nat, versions: map<Id, Version>)
    requires OriginalsOwned(t) && Confirmable(t, i, p, v, versions)
    ensures OriginalsOwned(Confirming(t, i, p, v, key, versions))
  {
    hide NumbersDistinct;
  }

  lemma ConfirmingKeepsLink(t: Tables, i: Id, p: Id, v: Id, key: nat, versions: map<Id, Version>, j: Id)
    requires Confirmable(t, i, p, v, versions) && j in t.imports && Linked(t, j)
    ensures Linked(Confirming(t, i, p, v, key, versions), j)
  {
    hide NumbersDistinct;
  }

  lemma ConfirmingKeepsInv(t: Tables, i: Id, p: Id, v: Id, key: nat, versions: map<Id, Version>)
    requires Inv(t) && Confirmable(t, i, p, v, versions)
    ensures Inv(Confirming(t, i, p, v, key, versions)) && Settled(t, Confirming(t, i, p, v, key, versions))
  {
    hide Linked, OriginalsOwned;
    var t' := Confirming(t, i, p, v, key, versions);
    ConfirmingKeepsOriginals(t, i, p, v, key, versions);
    forall j | j in t'.imports
      ensures Linked(t', j)
    {
      ConfirmingKeepsLink(t, i, p, v, key, versions, j);
    }
    assert NumbersDistinct(t') by { assert NumbersDistinct(t.(versions := versions)); }
  }

  lemma ConfirmKeepsInv(t: Tables, i: Id, p: Id, key: nat, spare: Id)
    requires Inv(t) && FreshVersion(t, spare)
    ensures Inv(Or(Confirm(t, i, p, key, spare), t)) && Settled(t, Or(Confirm(t, i, p, key, spare), t))
  {
    hide Inv, Settled, NextVersion, TakenVersion, Assign, EnsureOriginal, FreshVersion;
    SettledItself(t);
    if i in t.imports && t.imports[i].verdict != Confirmed && Confirm(t, i, p, key, spare).Some? {
      ConfirmShape(t, i, p, key, spare);
      DistinctNumbers(t);
      NextVersionFacts(t, p, spare);
      var (tv, v) := NextVersion(t, p, spare);
      ConfirmingKeepsInv(t, i, p, v, key, tv.versions);
      assert Confirm(t, i, p, key, spare).value == Confirming(t, i, p, v, key, tv.versions);
    }
  }

  lemma DistinctNumbers(t: Tables)
    requires Inv(t)
    ensures NumbersDistinct(t)
  {}

  /** A repair of a linked import finds everything in place. */
  lemma RepairFindsNothing(t: Tables, i: Id)
    requires Inv(t) && i in t.imports
    ensures EnsureOriginal(t, i) == if t.imports[i].verdict == Confirmed then Some(t) else None
  {
    assert Linked(t, i);
    if t.imports[i].verdict == Confirmed {
      var r := t.imports[i];
      assert t.received + {r.presentation.value} == t.received;
      assert t.media[i := t.media[i]] == t.media && t.originals[r.version.value := i] == t.originals;
    }
  }

  /** A change to one import that is not confirmed, before or after. */
  lemma RecordKeepsInv(t: Tables, i: Id, r: Import)
    requires Inv(t) && (i in t.imports ==> t.imports[i].verdict != Confirmed) && i !in t.media
    requires r.verdict != Confirmed && r.presentation.None? && r.version.None? && r.state != Assigned && r.state != TransferQueued
    ensures var t' := t.(imports := t.imports[i := r]); Inv(t') && Settled(t, t')
  {}

  lemma SiteVersionKeepsInv(t: Tables, v: Id, p: Id, number: int)
    requires Inv(t)
    ensures Inv(Next(t, SiteVersion(v, p, number))) && Settled(t, Next(t, SiteVersion(v, p, number)))
  {}

  lemma SiteOriginalKeepsInv(t: Tables, v: Id, m: Id, content: Media)
    requires Inv(t)
    ensures Inv(Next(t, SiteOriginal(v, m, content))) && Settled(t, Next(t, SiteOriginal(v, m, content)))
  {
    var t' := Next(t, SiteOriginal(v, m, content));
    if t' != t {
      forall j | j in t'.imports
        ensures Linked(t', j)
      {
        assert Linked(t, j);
      }
    }
  }

  lemma QueueKeepsInv(t: Tables, jobs: set<(Id, Id)>)
    requires Inv(t)
    ensures Inv(t.(jobs := jobs)) && Settled(t, t.(jobs := jobs))
  {}

  /** The failure of an analysis is harmful exactly when the import has been confirmed in the meantime. */
  predicate Harmless(t: Tables, step: Step) {
    step.AnalysisFails? && step.i in t.imports ==> t.imports[step.i].verdict != Confirmed
  }

  lemma FailureIsHarmlessExactly(t: Tables, i: Id)
    requires Inv(t) && i in t.imports
    ensures var t' := Next(t, AnalysisFails(i));
      Inv(t') && Settled(t, t') <==> t.imports[i].verdict != Confirmed
  {
    hide NumbersDistinct, OriginalsOwned, Settled;
    assert Linked(t, i);
    if t.imports[i].verdict != Confirmed {
      RecordKeepsInv(t, i, t.imports[i].(verdict := Unmatched, state := NeedsReview));
    } else {
      assert !Linked(Next(t, AnalysisFails(i)), i);
    }
  }

  lemma StepKeepsInv(t: Tables, step: Step)
    requires Inv(t) && Harmless(t, step)
    ensures Inv(Next(t, step)) && Settled(t, Next(t, step))
  {
    hide NumbersDistinct, OriginalsOwned, Settled, EnsureOriginal, Confirm;
    SettledItself(t);
    match step
    case Stage(i, staged) => if Next(t, step) != t { RecordKeepsInv(t, i, staged); }
    case Analyze(i, verdict) =>
      if Next(t, step) != t {
        assert Linked(t, i);
        RecordKeepsInv(t, i, t.imports[i].(verdict := verdict, state := NeedsReview));
      }
    case AnalysisFails(i) => if i in t.imports { FailureIsHarmlessExactly(t, i); }
    case Queue(i, p) => QueueKeepsInv(t, Next(t, step).jobs);
    case ConfirmWork(i, p, key, spare) => if FreshVersion(t, spare) { ConfirmKeepsInv(t, i, p, key, spare); }
    case Repair(i) => if i in t.imports { RepairFindsNothing(t, i); }
    case Cancel(i) =>
      if Next(t, step) != t {
        assert Linked(t, i);
        RecordKeepsInv(t, i, t.imports[i].(state := Cancelled));
      }
    case SiteVersion(v, p, number) => SiteVersionKeepsInv(t, v, p, number);
    case SiteOriginal(v, m, content) => SiteOriginalKeepsInv(t, v, m, content);
  }

  lemma SettledItself(t: Tables)
    ensures Settled(t, t)
  {}

  // ---------------------------------------------------------------- runs

  /** No analysis fails after its import was confirmed. */
  ghost predicate Timely(t: Tables, steps: seq<Step>)
    decreases |steps|
  {
    steps == [] || (Timely(t, steps[..|steps| - 1]) && Harmless(Run(t, steps[..|steps| - 1]), steps[|steps| - 1]))
  }

  lemma {:induction false} RunKeepsInv(t: Tables, steps: seq<Step>)
    requires Inv(t) && Timely(t, steps)
    ensures Inv(Run(t, steps)) && Settled(t, Run(t, steps))
    decreases |steps|
  {
    if steps != [] {
      RunKeepsInv(t, steps[..|steps| - 1]);
      StepKeepsInv(Run(t, steps[..|steps| - 1]), steps[|steps| - 1]);
    }
  }

  /**
   An import that was confirmed, had it taken back, and still has its old original: either it
   waits with its old version, or a later confirmation has given it another one as well.
   */
  ghost predicate Damaged(t: Tables, i: Id) {
    && i in t.imports
    && (WaitsWithOriginal(t, i) || exists v, w :: TwoOriginals(t, i, v, w))
  }

  predicate WaitsWithOriginal(t: Tables, i: Id)
    requires i in t.imports
  {
    var r := t.imports[i];
    r.verdict != Confirmed && r.state != Cancelled && r.presentation.Some? && r.version.Some?
    && r.version.value in t.versions && r.version.value in t.originals && t.originals[r.version.value] == i
  }

  predicate TwoOriginals(t: Tables, i: Id, v: Id, w: Id) {
    v != w && v in t.originals && w in t.originals && t.originals[v] == i && t.originals[w] == i
  }

  lemma OriginalsOnlyGrow(t: Tables, step: Step, v: Id)
    requires v in t.originals
    ensures v in Next(t, step).originals && Next(t, step).originals[v] == t.originals[v]
  {}

  lemma ImportsStay(t: Tables, step: Step, i: Id)
    requires i in t.imports
    ensures i in Next(t, step).imports
  {}

  /** A confirmation of a waiting import gets another version: its own one is taken, by itself. */
  lemma ConfirmingAgainAddsAnOriginal(t: Tables, i: Id, p: Id, key: nat, spare: Id)
    requires i in t.imports && WaitsWithOriginal(t, i) && FreshVersion(t, spare)
    ensures Damaged(Or(Confirm(t, i, p, key, spare), t), i)
  {
    if Confirm(t, i, p, key, spare).Some? {
      var t' := Confirm(t, i, p, key, spare).value;
      var v := t.imports[i].version.value;
      var t1 := t.(imports := t.imports[i := t.imports[i].(committed := Some(key))]);
      var w := NextVersion(t1, p, spare).1;
      assert t1.imports[i].version == Some(v) && t1.imports[i].state != Cancelled;
      assert TakenVersion(t1, v);
      assert w != v;
      assert TwoOriginals(t', i, v, w);
    }
  }

  /** Another import's confirmation does not touch this one's record. */
  lemma ConfirmLeavesOthers(t: Tables, j: Id, p: Id, key: nat, spare: Id, i: Id)
    requires i in t.imports && j != i && FreshVersion(t, spare)
    ensures var t' := Or(Confirm(t, j, p, key, spare), t);
      && i in t'.imports && t'.imports[i] == t.imports[i]
      && (forall v :: v in t.versions ==> v in t'.versions)
  {}

  lemma DamageStays(t: Tables, step: Step, i: Id)
    requires Damaged(t, i)
    ensures Damaged(Next(t, step), i)
  {
    hide Confirm, EnsureOriginal, FreshVersion;
    var t' := Next(t, step);
    ImportsStay(t, step, i);
    if v, w :| TwoOriginals(t, i, v, w) {
      OriginalsOnlyGrow(t, step, v);
      OriginalsOnlyGrow(t, step, w);
      assert TwoOriginals(t', i, v, w);
    } else {
      OriginalsOnlyGrow(t, step, t.imports[i].version.value);
      match step
      case ConfirmWork(j, p, key, spare) =>
        if FreshVersion(t, spare) {
          if j == i { ConfirmingAgainAddsAnOriginal(t, i, p, key, spare); } else { ConfirmLeavesOthers(t, j, p, key, spare, i); }
        }
      case Repair(j) => RepairKeepsRecords(t, j);
      case _ =>
    }
  }

  lemma RepairKeepsRecords(t: Tables, j: Id)
    ensures Next(t, Repair(j)).imports == t.imports && Next(t, Repair(j)).versions == t.versions
  {}

  lemma HarmDamages(t: Tables, step: Step)
    requires Inv(t) && !Harmless(t, step)
    ensures Damaged(Next(t, step), step.i)
  {}

  lemma DamagedIsNotInv(t: Tables, i: Id)
    requires Damaged(t, i)
    ensures !Inv(t)
  {}

  /** Exactly which runs keep the promise: damage, once done, is never repaired. */
  lemma {:induction false} RunKeepsInvExactly(t: Tables, steps: seq<Step>)
    requires Inv(t)
    ensures Inv(Run(t, steps)) <==> Timely(t, steps)
    ensures Timely(t, steps) || exists i :: Damaged(Run(t, steps), i)
    decreases |steps|
  {
    if steps != [] {
      var before, step := Run(t, steps[..|steps| - 1]), steps[|steps| - 1];
      RunKeepsInvExactly(t, steps[..|steps| - 1]);
      if Timely(t, steps) {
        StepKeepsInv(before, step);
      } else {
        ghost var i: Id;
        if Timely(t, steps[..|steps| - 1]) {
          HarmDamages(before, step);
          i := step.i;
        } else {
          i :| Damaged(before, i);
          DamageStays(before, step, i);
        }
        DamagedIsNotInv(Run(t, steps), i);
      }
    }
  }

  /**
   Over every interleaving of workers, repeated confirmations, Site versions and Site originals,
   cancellations and analyses, failed ones included unless their import was confirmed by then:
   no two confirmed imports share a version, version numbers stay distinct, and each confirmed
   import has exactly one original, which names its own media.
   */
  lemma ConfirmationsAreExact(t: Tables, steps: seq<Step>)
    requires Inv(t) && Timely(t, steps)
    ensures var t' := Run(t, steps);
      && NumbersDistinct(t')
      && (forall i, j :: i in t'.imports && j in t'.imports && i != j && t'.imports[i].verdict == Confirmed && t'.imports[j].verdict == Confirmed ==>
            t'.imports[i].version != t'.imports[j].version)
      && (forall i :: i in t'.imports && t'.imports[i].verdict == Confirmed ==>
            t'.imports[i].version.Some? && forall v :: v in t'.originals && t'.originals[v] == i <==> v == t'.imports[i].version.value)
  {
    RunKeepsInv(t, steps);
    var t' := Run(t, steps);
    forall i | i in t'.imports
      ensures Linked(t', i)
    {}
  }

  // ---------------------------------------------------------------- when a confirmation goes through

  /** Exactly when: in particular never for a destination Site, nor onto a version with a Site's original. */
  lemma ConfirmsExactly(t: Tables, i: Id, p: Id, key: nat, spare: Id)
    requires Inv(t) && i in t.imports && t.imports[i].verdict != Confirmed && FreshVersion(t, spare)
    ensures Confirm(t, i, p, key, spare).Some? <==>
      && p in t.presentations && t.presentations[p] == t.imports[i].event && t.imports[i].destination.None?
      && t.imports[i].digest.Some? && t.imports[i].size.Some?
      && !(Latest(t.versions, p).Some? && !TakenVersion(t, Latest(t.versions, p).value) && Latest(t.versions, p).value in t.originals)
  {
    if Confirm(t, i, p, key, spare).Some? {
      ConfirmShape(t, i, p, key, spare);
    } else {
      var t1 := t.(imports := t.imports[i := t.imports[i].(committed := Some(key))]);
      CommitIsInvisible(t, t1, i, p, spare);
      NextVersionFacts(t, p, spare);
      assert Linked(t, i);
    }
  }

  /** A queued promotion confirms an import that was cancelled meanwhile. */
  lemma CancelledCanBeConfirmed(t: Tables, i: Id, p: Id, key: nat, spare: Id)
    requires Inv(t) && i in t.imports && t.imports[i].state == Cancelled && t.imports[i].verdict != Confirmed && FreshVersion(t, spare)
    requires Confirm(t, i, p, key, spare).Some?
    ensures Next(t, ConfirmWork(i, p, key, spare)).imports[i].state == Assigned
  {}

  /**
   The failure handler of an analysis takes a confirmation back without looking, and the next
   promotion then gives the same media a second version and a second original.
   */
  lemma AnalysisFailureUndoesConfirmation(t: Tables, i: Id, spare: Id)
    requires Inv(t) && i in t.imports && t.imports[i].verdict == Confirmed && t.imports[i].destination.None? && FreshVersion(t, spare)
    ensures t.imports[i].presentation.Some? && t.imports[i].version.Some? && t.imports[i].committed.Some?
    ensures Next(t, AnalysisFails(i)).imports[i].verdict == Unmatched
    ensures var r := t.imports[i];
      var again := Next(Next(t, AnalysisFails(i)), ConfirmWork(i, r.presentation.value, r.committed.value, spare));
      Latest(t.versions, r.presentation.value) == r.version ==>
        && again.imports[i].version == Some(spare) && spare != r.version.value
        && spare in again.originals && again.originals[spare] == i && again.originals[r.version.value] == i
  {
    assert Linked(t, i);
    var r := t.imports[i];
    var p, v := r.presentation.value, r.version.value;
    var t1 := Next(t, AnalysisFails(i));
    var t2 := t1.(imports := t1.imports[i := t1.imports[i].(committed := r.committed)]);
    assert t2.imports[i].version == Some(v) && t2.imports[i].state != Cancelled;
    assert TakenVersion(t2, v);
    assert FreshVersion(t1, spare);
  }

  // ---------------------------------------------------------------- backfill of older data

  predicate Eligible(r: Import) {
    r.verdict == Confirmed && r.state == Assigned && r.version.Some? && r.committed.Some? && r.digest.Some? && r.size.Some?
  }

  function Records(t: Tables): set<Id> {
    set i | i in t.imports && Eligible(t.imports[i])
  }

  /** Confirmed imports alone on a version that has no original yet. */
  function Due(t: Tables): set<Id> {
    set i | i in t.imports && Eligible(t.imports[i]) && t.imports[i].version.value !in t.originals && Alone(t, i)
  }

  /** Which imports a backfill is for: confirmed, assigned, committed and described, alone with a version that has no original. */
  lemma DueExactly(t: Tables, i: Id)
    ensures i in Due(t) <==>
      && i in t.imports
      && var r := t.imports[i];
      && r.verdict == Confirmed && r.state == Assigned && r.version.Some? && r.committed.Some? && r.digest.Some? && r.size.Some?
      && r.version.value !in t.originals
      && forall j :: j in t.imports && j != i && t.imports[j].version == r.version ==>
           !(t.imports[j].verdict == Confirmed && t.imports[j].state == Assigned
             && t.imports[j].committed.Some? && t.imports[j].digest.Some? && t.imports[j].size.Some?)
  {
    if i in t.imports && Eligible(t.imports[i]) {
      assert Alone(t, i) <==> forall j :: j in t.imports && j != i && Eligible(t.imports[j]) ==> t.imports[j].version != t.imports[i].version;
    }
  }

  predicate Alone(t: Tables, i: Id)
    requires i in t.imports
  {
    forall j :: j in t.imports && j != i && Eligible(t.imports[j]) ==> t.imports[j].version != t.imports[i].version
  }

  /** Every import in done got its original and media row; nothing else changed. */
  ghost predicate Backfilled(t: Tables, t': Tables, done: set<Id>) {
    && t'.imports == t.imports && t'.presentations == t.presentations && t'.versions == t.versions && t'.jobs == t.jobs
    && (forall v :: v in t.originals ==> v in t'.originals && t'.originals[v] == t.originals[v])
    && (forall m :: m in t.media ==> m in t'.media && t'.media[m] == t.media[m])
    && (forall i :: i in done ==> i in t.imports && Eligible(t.imports[i]) && LinkedTo(t', i, t.imports[i]))
    && (forall v :: v in t'.originals && v !in t.originals ==> t'.originals[v] in done && t.imports[t'.originals[v]].version == Some(v))
    && (forall m :: m in t'.media && m !in t.media ==> m in done)
  }

  ghost predicate LinkedTo(t: Tables, i: Id, r: Import)
    requires Eligible(r)
  {
    r.version.value in t.originals && t.originals[r.version.value] == i
    && i in t.media && t.media[i] == Media(r.committed.value, r.digest.value, r.size.value)
  }

  lemma BackfillOneMore(t: Tables, t': Tables, done: set<Id>, i: Id)
    requires Backfilled(t, t', done) && done <= Due(t) && i in Due(t) && i !in done && EnsureOriginal(t', i).Some?
    ensures Backfilled(t, EnsureOriginal(t', i).value, done + {i})
  {
    var t'' := EnsureOriginal(t', i).value;
    var v := t.imports[i].version.value;
    assert Alone(t, i);
    assert v !in t'.originals;
    forall j | j in done
      ensures LinkedTo(t'', j, t.imports[j])
    {
      assert LinkedTo(t', j, t.imports[j]);
    }
  }

  /** A second backfill finds nothing left to do. */
  lemma BackfillIsComplete(t: Tables, t': Tables)
    requires Backfilled(t, t', Due(t))
    ensures Due(t') == {}
  {}

  // ---------------------------------------------------------------- the service

  class Staging {
    var imports: map<Id, Import>
    const presentations: map<Id, Id>
    var received: set<Id>
    var versions: map<Id, Version>
    var media: map<Id, Media>
    var originals: map<Id, Id>
    var jobs: set<(Id, Id)>

    function View(): Tables
      reads this
    {
      Tables(imports, presentations, received, versions, media, originals, jobs)
    }

    constructor (t: Tables)
      ensures View() == t
    {
      imports, presentations, received, versions := t.imports, t.presentations, t.received, t.versions;
      media, originals, jobs := t.media, t.originals, t.jobs;
    }

    /** The newest version of a presentation. */
    method FindLatest(p: Id) returns (latest: Option<Id>)
      requires NumbersDistinct(View())
      ensures latest == Latest(versions, p)
    {
      latest := None;
      var todo := versions.Keys;
      ghost var seen: set<Id> := {};
      while todo != {}
        invariant seen + todo == versions.Keys && seen !! todo
        invariant latest.None? ==> forall w :: w in seen ==> versions[w].presentation != p
        invariant latest.Some? ==> latest.value in seen && versions[latest.value].presentation == p
        invariant latest.Some? ==> forall w :: w in seen && versions[w].presentation == p ==> versions[w].number <= versions[latest.value].number
      {
        var v :| v in todo;
        if versions[v].presentation == p && (latest.None? || versions[v].number > versions[latest.value].number) {
          latest := Some(v);
        }
        todo, seen := todo - {v}, seen + {v};
      }
      LatestFacts(View(), p);
      if latest.Some? { assert IsLatest(versions, p, latest.value); }
    }

    /** Choose or create the version, and fill in the record; the caller rolls back when this answers false. */
    method AssignTo(i: Id, p: Id, spare: Id) returns (ok: bool)
      requires i in imports && NumbersDistinct(View())
      modifies this
      ensures ok <==> Assign(old(View()), i, p, spare).Some?
      ensures View() == Or(Assign(old(View()), i, p, spare), old(View()))
    {
      if p !in presentations || presentations[p] != imports[i].event {
        return false;
      }
      var latest := FindLatest(p);
      var v := spare;
      if latest.None? || exists j :: j in imports && imports[j].version == latest && imports[j].state != Cancelled {
        var number := if latest.Some? then versions[latest.value].number + 1 else 1;
        versions := versions[spare := Version(p, number)];
      } else {
        v := latest.value;
      }
      var r := imports[i].(presentation := Some(p), version := Some(v), verdict := Confirmed, state := Assigned);
      received := received + {p};
      if r.destination.Some? {
        r := r.(state := TransferQueued);
      }
      imports := imports[i := r];
      return true;
    }

    method EnsureConfirmedOriginalAsset(i: Id) returns (ok: bool)
      requires i in imports
      modifies this`received, this`media, this`originals
      ensures ok <==> EnsureOriginal(old(View()), i).Some?
      ensures View() == Or(EnsureOriginal(old(View()), i), old(View()))
    {
      var r := imports[i];
      if r.verdict != Confirmed || r.state != Assigned || r.version.None? || r.presentation.None?
         || r.committed.None? || r.digest.None? || r.size.None? {
        return false;
      }
      if r.version.value !in versions || versions[r.version.value].presentation != r.presentation.value
         || r.presentation.value !in presentations {
        return false;
      }
      var wanted := Media(r.committed.value, r.digest.value, r.size.value);
      if i in media && media[i] != wanted {
        return false;
      }
      if r.version.value in originals && originals[r.version.value] != i {
        return false;
      }
      received := received + {r.presentation.value};
      media := media[i := wanted];
      originals := originals[r.version.value := i];
      return true;
    }

    /** The transaction after the bytes were published under key. */
    method PromoteAndAssign(i: Id, p: Id, key: nat, spare: Id) returns (ok: bool)
      requires NumbersDistinct(View()) && FreshVersion(View(), spare)
      modifies this
      ensures ok <==> Confirm(old(View()), i, p, key, spare).Some?
      ensures View() == Next(old(View()), ConfirmWork(i, p, key, spare))
    {
      hide FreshVersion, Assign, EnsureOriginal;
      if i !in imports {
        return false;
      }
      if imports[i].verdict == Confirmed {
        return true;
      }
      var saved := View();
      imports := imports[i := imports[i].(committed := Some(key))];
      ok := AssignTo(i, p, spare);
      if ok {
        AssignKeepsImports(saved.(imports := saved.imports[i := saved.imports[i].(committed := Some(key))]), i, p, spare);
        ok := EnsureConfirmedOriginalAsset(i);
      }
      if !ok {
        imports, received, versions := saved.imports, saved.received, saved.versions;
        media, originals, jobs := saved.media, saved.originals, saved.jobs;
      }
    }

    /** The repair loop over older data; an inconsistent record rolls the whole repair back. */
    method BackfillConfirmedOriginalAssets() returns (ok: bool, repaired: nat)
      modifies this
      ensures ok ==> Backfilled(old(View()), View(), Due(old(View()))) && repaired == |Due(old(View()))|
      ensures !ok ==> View() == old(View())
    {
      hide Backfilled, Due, Eligible, Alone;
      var saved := View();
      var records := set i | i in imports && Eligible(imports[i]);
      DueIsEligible(saved);
      ok, repaired := BackfillAll(saved, records);
      if !ok {
        imports, received, versions := saved.imports, saved.received, saved.versions;
        media, originals, jobs := saved.media, saved.originals, saved.jobs;
      }
    }

    method BackfillAll(ghost saved: Tables, records: set<Id>) returns (ok: bool, repaired: nat)
      requires View() == saved && records == Records(saved) && Due(saved) <= records
      modifies this
      ensures ok ==> Backfilled(saved, View(), Due(saved)) && repaired == |Due(saved)|
    {
      hide Backfilled, Due, Eligible, Alone;
      var todo := records;
      ghost var done: set<Id> := {};
      ok, repaired := true, 0;
      NothingBackfilled(saved);
      while ok && todo != {}
        invariant todo <= records && (ok ==> done == Due(saved) - todo)
        invariant ok ==> repaired == |done| && Backfilled(saved, View(), done)
        decreases todo
      {
        var i :| i in todo;
        var one;
        ok, one := BackfillOne(saved, done, i);
        OneLess(Due(saved), todo, i);
        if one {
          done, repaired := done + {i}, repaired + 1;
        }
        todo := todo - {i};
      }
      assert ok ==> done == Due(saved);
    }

    method BackfillOne(ghost saved: Tables, ghost done: set<Id>, i: Id) returns (ok: bool, one: bool)
      requires Backfilled(saved, View(), done) && done <= Due(saved) && i !in done && i in saved.imports && Eligible(saved.imports[i])
      modifies this
      ensures ok ==> (one <==> i in Due(saved)) && Backfilled(saved, View(), if one then done + {i} else done)
      ensures !ok ==> !one
    {
      hide Backfilled, Alone, Due, EnsureOriginal;
      BackfilledKeeps(saved, View(), done, i);
      if !Alone(View(), i) || imports[i].version.value in originals {
        return true, false;
      }
      ghost var before := View();
      ok := EnsureConfirmedOriginalAsset(i);
      if ok {
        BackfillOneMore(saved, before, done, i);
      }
      one := ok;
    }
  }

  lemma OneLess(due: set<Id>, todo: set<Id>, i: Id)
    requires i in todo
    ensures due - (todo - {i}) == (due - todo) + if i in due then {i} else {}
  {}

  lemma DueIsEligible(t: Tables)
    ensures Due(t) <= Records(t)
  {}

  lemma NothingBackfilled(t: Tables)
    ensures Backfilled(t, t, {})
  {}

  /** The loop's own tests, made on the tables as they are by then, pick exactly the due imports. */
  lemma BackfilledKeeps(t: Tables, t': Tables, done: set<Id>, i: Id)
    requires Backfilled(t, t', done) && done <= Due(t) && i in t.imports && i !in done && Eligible(t.imports[i])
    ensures t'.imports == t.imports
    ensures i in Due(t) <==> Alone(t', i) && t'.imports[i].version.value !in t'.originals
  {}

  lemma AssignKeepsImports(t: Tables, i: Id, p: Id, spare: Id)
    requires i in t.imports
    ensures Assign(t, i, p, spare).Some? ==> i in Assign(t, i, p, spare).value.imports
  {}
}
