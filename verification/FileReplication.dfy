/**
 Central's file-based receiver of a Site's authoritative media: a partial file that may run
 ahead of the committed offset, a recovery that cuts it back, and a publication by rename
 that happens before the database commit that records it.
 */
module FileReplication {
  import opened Wrappers
  import opened Digests

  /** What the session was opened for; the bytes are the Site's file. */
  datatype Manifest = Manifest(bytes: seq<Byte>, declared: Digest)

  datatype Phase = Receiving | Completed | Failed | Expired

  /** finalized names the replica; replicas and assets count the rows written for it. */
  datatype Session = Session(confirmed: nat, phase: Phase, finalized: bool, replicas: nat, assets: nat)

  datatype Disk = Disk(partial: Option<seq<Byte>>, final: Option<seq<Byte>>)

  datatype World = World(disk: Disk, session: Session)

  const OPENED := World(Disk(None, None), Session(0, Receiving, false, 0, 0))

  /** When the process dies inside finalization; files keep what happened, the transaction does not. */
  datatype Crash = NoCrash | BeforeRename | AfterRename

  /** garbage is whatever a torn append left behind the committed bytes. */
  datatype Step =
    | Append(count: nat)
    | TornAppend(garbage: seq<Byte>)
    | Recover
    | Finalize(authorized: bool, crash: Crash)
    | CleanUp

  // ---------------------------------------------------------------- recovery

  /** None is the error for a partial shorter than the committed offset. */
  function Recovered(w: World): Option<Disk> {
    var stored := if w.disk.partial.Some? then w.disk.partial.value else [];
    if |stored| < w.session.confirmed then None
    else Some(w.disk.(partial := Some(stored[..w.session.confirmed])))
  }

  /** Creating the file survives even when recovery then gives up. */
  function Touched(d: Disk): Disk {
    if d.partial.None? then d.(partial := Some([])) else d
  }

  // ---------------------------------------------------------------- steps

  function AppendStep(w: World, m: Manifest, count: nat): World {
    if w.session.finalized || w.session.confirmed + count > |m.bytes| || Recovered(w).None? then w
    else
      var stored := Recovered(w).value.partial.value;
      var block := m.bytes[w.session.confirmed..w.session.confirmed + count];
      World(w.disk.(partial := Some(stored + block)), w.session.(confirmed := w.session.confirmed + count))
  }

  function TornStep(w: World, garbage: seq<Byte>): World {
    if w.session.finalized || Recovered(w).None? then w
    else w.(disk := w.disk.(partial := Some(Recovered(w).value.partial.value + garbage)))
  }

  function Candidate(w: World): Option<Disk> {
    if w.disk.final.Some? then Some(w.disk) else Recovered(w)
  }

  function Content(d: Disk): seq<Byte>
    requires d.final.Some? || d.partial.Some?
  {
    if d.final.Some? then d.final.value else d.partial.value
  }

  function FinalizeStep(w: World, m: Manifest, authorized: bool, crash: Crash): World {
    if w.session.finalized || w.session.confirmed != |m.bytes| then w
    else if Candidate(w).None? then w.(disk := Touched(w.disk))
    else
      var disk := Candidate(w).value;
      if Sha256(Content(disk)) != m.declared then
        if crash == BeforeRename then w.(disk := disk) else World(disk, w.session.(phase := Failed))
      else if !authorized || crash == BeforeRename then w.(disk := disk)
      else
        var published := if disk.final.Some? then disk else Disk(None, disk.partial);
        if crash == AfterRename then w.(disk := published)
        else World(published, Session(w.session.confirmed, Completed, true, w.session.replicas + 1, w.session.assets + 1))
  }

  function Next(w: World, m: Manifest, step: Step): World {
    match step
    case Append(count) => AppendStep(w, m, count)
    case TornAppend(garbage) => TornStep(w, garbage)
    case Recover => w.(disk := if Recovered(w).Some? then Recovered(w).value else Touched(w.disk))
    case Finalize(authorized, crash) => FinalizeStep(w, m, authorized, crash)
    case CleanUp =>
      if w.session.phase == Failed && !w.session.finalized
      then World(w.disk.(partial := None), w.session.(phase := Expired)) else w
  }

  function Run(w: World, m: Manifest, steps: seq<Step>): World
    decreases |steps|
  {
    if steps == [] then w else Next(Run(w, m, steps[..|steps| - 1]), m, steps[|steps| - 1])
  }

  // ---------------------------------------------------------------- safety

  predicate HoldsPrefix(stored: Option<seq<Byte>>, bytes: seq<Byte>, n: nat) {
    if stored.None? then n == 0 else n <= |stored.value| && n <= |bytes| && stored.value[..n] == bytes[..n]
  }

  ghost predicate Inv(w: World, m: Manifest) {
    && w.session.confirmed <= |m.bytes|
    && (w.disk.final.None? && w.session.phase != Expired ==> HoldsPrefix(w.disk.partial, m.bytes, w.session.confirmed))
    && (w.session.phase == Expired && w.session.confirmed > 0 ==> w.disk.partial == None || w.disk.partial == Some([]))
    && (w.disk.final.Some? ==> w.session.confirmed == |m.bytes| && w.disk.final.value == m.bytes && Sha256(m.bytes) == m.declared)
    && (w.session.finalized ==> w.disk.final.Some? && w.session.phase == Completed)
    && w.session.replicas == w.session.assets == (if w.session.finalized then 1 else 0)
    && (w.session.phase == Failed || w.session.phase == Expired ==> Sha256(m.bytes) != m.declared && w.session.confirmed == |m.bytes|)
  }

  /** Recovery leaves exactly the Site's first confirmed bytes. */
  lemma RecoveryIsExact(w: World, m: Manifest)
    requires Inv(w, m) && w.disk.final.None? && (w.session.phase != Expired || w.session.confirmed == 0)
    ensures Recovered(w).Some? && Recovered(w).value.partial == Some(m.bytes[..w.session.confirmed])
    ensures Next(w, m, Recover) == World(Disk(Some(m.bytes[..w.session.confirmed]), None), w.session)
  {}

  /** A partial shorter than the offset is refused, and stays as it is but for being created. */
  lemma RecoveryRefused(w: World, m: Manifest)
    requires |if w.disk.partial.Some? then w.disk.partial.value else []| < w.session.confirmed
    ensures Recovered(w).None?
    ensures var w' := Next(w, m, Recover);
      w'.session == w.session && w'.disk.final == w.disk.final
      && w'.disk.partial == Some(if w.disk.partial.Some? then w.disk.partial.value else [])
  {}

  lemma StepKeepsInv(w: World, m: Manifest, step: Step)
    requires Inv(w, m)
    ensures Inv(Next(w, m, step), m)
    ensures w.session.confirmed <= Next(w, m, step).session.confirmed
    ensures w.session.finalized ==> Next(w, m, step).session == w.session && Next(w, m, step).disk.final == w.disk.final
  {}

  /**
   However appends, torn writes, recoveries, crashes, repeated finalizations and clean-ups interleave:
   the first confirmed bytes are the Site's, only matching content is ever published, and there is never
   more than one replica and one asset.
   */
  lemma {:induction false} RunKeepsInv(w: World, m: Manifest, steps: seq<Step>)
    requires Inv(w, m)
    ensures Inv(Run(w, m, steps), m)
    ensures w.session.confirmed <= Run(w, m, steps).session.confirmed
    decreases |steps|
  {
    if steps != [] {
      RunKeepsInv(w, m, steps[..|steps| - 1]);
      StepKeepsInv(Run(w, m, steps[..|steps| - 1]), m, steps[|steps| - 1]);
    }
  }

  // ---------------------------------------------------------------- what each step does to files and session

  /** A block is taken exactly while nothing is published and it fits, and then extends the stored bytes and the offset by itself. */
  lemma AppendExactly(w: World, m: Manifest, count: nat)
    requires Inv(w, m) && w.disk.final.None? && w.session.phase != Expired
    ensures var w' := Next(w, m, Append(count));
      if w.session.confirmed + count > |m.bytes| then w' == w
      else
        && w'.session == w.session.(confirmed := w.session.confirmed + count) && w'.disk.final.None?
        && w'.disk.partial == Some(m.bytes[..w.session.confirmed + count])
  {
    if w.session.confirmed + count <= |m.bytes| {
      assert m.bytes[..w.session.confirmed] + m.bytes[w.session.confirmed..w.session.confirmed + count] == m.bytes[..w.session.confirmed + count];
    }
  }

  /** A torn append leaves the confirmed bytes, with whatever it wrote behind them, and no trace in the session. */
  lemma TornExactly(w: World, m: Manifest, garbage: seq<Byte>)
    requires Inv(w, m) && w.disk.final.None? && w.session.phase != Expired
    ensures var w' := Next(w, m, TornAppend(garbage));
      w'.session == w.session && w'.disk.final.None? && w'.disk.partial == Some(m.bytes[..w.session.confirmed] + garbage)
  {}

  /**
   What a finalization makes of a complete session, wherever it dies: with the declared content it
   publishes unless the Site is not authorized or the rename is not reached, and records that exactly
   if it also reaches its commit; with other content it publishes nothing and commits the failure.
   */
  lemma FinalizeExactly(w: World, m: Manifest, authorized: bool, crash: Crash)
    requires Inv(w, m) && !w.session.finalized && w.session.confirmed == |m.bytes| && w.session.phase != Expired
    ensures var w' := Next(w, m, Finalize(authorized, crash));
      if m.declared == Sha256(m.bytes) then
        && (w'.disk.final.Some? <==> w.disk.final.Some? || (authorized && crash != BeforeRename))
        && (w'.disk.final.Some? ==> w'.disk.final == Some(m.bytes))
        && w'.session == (if authorized && crash == NoCrash then Session(|m.bytes|, Completed, true, 1, 1) else w.session)
      else
        && w'.disk.final.None?
        && w'.session == (if crash == BeforeRename then w.session else w.session.(phase := Failed))
    ensures var d, d' := w.disk, Next(w, m, Finalize(authorized, crash)).disk;
      d'.partial == (if d.final.Some? then d.partial else if d'.final.Some? then None else Some(m.bytes))
  {
    assert m.bytes[..|m.bytes|] == m.bytes;
  }

  /** An incomplete or finished session is left as it is, and a finished one takes no more blocks. */
  lemma FinalizeLeaves(w: World, m: Manifest, authorized: bool, crash: Crash)
    requires w.session.finalized || w.session.confirmed != |m.bytes|
    ensures Next(w, m, Finalize(authorized, crash)) == w
    ensures w.session.finalized ==> forall count :: Next(w, m, Append(count)) == w
    ensures w.session.finalized ==> forall garbage :: Next(w, m, TornAppend(garbage)) == w
  {}

  /** Once a failed session's bytes are dropped, finalizing it again finds too few of them. */
  lemma FinalizeExpired(w: World, m: Manifest, authorized: bool, crash: Crash)
    requires Inv(w, m) && w.session.phase == Expired && w.session.confirmed == |m.bytes| > 0
    ensures Next(w, m, Finalize(authorized, crash)) == World(Disk(Some([]), None), w.session)
  {}

  /** Clean-up drops the partial file of a failed session and of no other. */
  lemma CleanUpExactly(w: World, m: Manifest)
    ensures var w' := Next(w, m, CleanUp);
      if w.session.phase == Failed && !w.session.finalized
      then w'.disk.partial.None? && w'.disk.final == w.disk.final && w'.session == w.session.(phase := Expired) else w' == w
  {}

  // ---------------------------------------------------------------- completion

  /** After any run, and any crash inside finalization, one undisturbed finalization settles the session for good. */
  lemma FinalizationSettles(m: Manifest, steps: seq<Step>, more: seq<Step>)
    requires Run(OPENED, m, steps).session.confirmed == |m.bytes|
    ensures var w := Run(OPENED, m, steps);
      var settled := Next(w, m, Finalize(true, NoCrash));
      && (settled.session.finalized <==> m.declared == Sha256(m.bytes))
      && (settled.session.finalized ==>
            && settled.disk.final == Some(m.bytes) && settled.session.replicas == 1 && settled.session.assets == 1
            && Run(settled, m, more).session == settled.session && Run(settled, m, more).disk.final == Some(m.bytes))
  {
    RunKeepsInv(OPENED, m, steps);
    var w := Run(OPENED, m, steps);
    StepKeepsInv(w, m, Finalize(true, NoCrash));
    var settled := Next(w, m, Finalize(true, NoCrash));
    if settled.session.finalized {
      FinalizedForGood(settled, m, more);
    }
  }

  lemma {:induction false} FinalizedForGood(w: World, m: Manifest, steps: seq<Step>)
    requires Inv(w, m) && w.session.finalized
    ensures Run(w, m, steps).session == w.session && Run(w, m, steps).disk.final == w.disk.final && Inv(Run(w, m, steps), m)
    decreases |steps|
  {
    if steps != [] {
      FinalizedForGood(w, m, steps[..|steps| - 1]);
      StepKeepsInv(Run(w, m, steps[..|steps| - 1]), m, steps[|steps| - 1]);
    }
  }

  /** A sender whose digest is honest is never told it failed, and can always send the rest. */
  lemma HonestSenderCanFinish(m: Manifest, steps: seq<Step>)
    requires m.declared == Sha256(m.bytes)
    ensures Run(OPENED, m, steps).session.confirmed <= |m.bytes|
    ensures var w := Run(OPENED, m, steps);
      var sent := Next(w, m, Append(|m.bytes| - w.session.confirmed));
      && w.session.phase != Failed && w.session.phase != Expired
      && sent.session.confirmed == |m.bytes|
      && Next(sent, m, Finalize(true, NoCrash)).session.finalized
  {
    RunKeepsInv(OPENED, m, steps);
    var w := Run(OPENED, m, steps);
    var rest := |m.bytes| - w.session.confirmed;
    StepKeepsInv(w, m, Append(rest));
    StepKeepsInv(Next(w, m, Append(rest)), m, Finalize(true, NoCrash));
  }

  // ---------------------------------------------------------------- the receiver

  class Receiver {
    const manifest: Manifest
    var partial: Option<seq<Byte>>
    var final: Option<seq<Byte>>
    var confirmed: nat
    var phase: Phase
    var finalized: bool
    var replicas: nat
    var assets: nat

    ghost function View(): World
      reads this
    {
      World(Disk(partial, final), Session(confirmed, phase, finalized, replicas, assets))
    }

    constructor (m: Manifest)
      ensures manifest == m && View() == OPENED
    {
      manifest := m;
      partial, final, confirmed, phase, finalized, replicas, assets := None, None, 0, Receiving, false, 0, 0;
    }

    /** Open the partial at exactly the committed offset. */
    method RecoverPartial() returns (ok: bool)
      modifies this`partial
      ensures View() == Next(old(View()), manifest, Recover)
      ensures ok <==> Recovered(old(View())).Some?
    {
      if partial.None? {
        partial := Some([]);
      }
      var size := |partial.value|;
      if size < confirmed {
        return false;
      }
      if size > confirmed {
        partial := Some(partial.value[..confirmed]);
      } else {
        assert partial.value[..confirmed] == partial.value;
      }
      return true;
    }

    method FinalizeReplication(authorized: bool, crash: Crash)
      modifies this
      ensures View() == Next(old(View()), manifest, Finalize(authorized, crash))
    {
      if finalized || confirmed != |manifest.bytes| {
        return;
      }
      if final.None? {
        var recovered := RecoverPartial();
        if !recovered {
          return;
        }
      }
      var digest := HashFile(if final.Some? then final.value else partial.value);
      if digest != manifest.declared {
        if crash != BeforeRename {
          phase := Failed;
        }
        return;
      }
      if !authorized || crash == BeforeRename {
        return;
      }
      if final.None? {
        partial, final := None, partial;
      }
      if crash == AfterRename {
        return;
      }
      replicas, assets := replicas + 1, assets + 1;
      finalized, phase := true, Completed;
    }
  }
}
