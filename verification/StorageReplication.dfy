/**
 The endpoints that receive a Site's media into the storage service. Central commits an
 offset only after the service has appended the block, and publishes before it records the
 replica; the service keeps whatever reached it, whether or not Central's commit follows.
 */
module StorageReplication {
  import opened Wrappers
  import opened Digests

  /** limit is the largest block Central accepts in one request. */
  datatype Manifest = Manifest(bytes: seq<Byte>, declared: Digest, limit: nat)

  datatype Session = Session(confirmed: nat, finalized: bool, replicas: nat, assets: nat)

  /** staging belongs to this session; objects are addressed by their digest and shared by all. */
  datatype World = World(staging: seq<Byte>, objects: map<Digest, seq<Byte>>, session: Session)

  /** Broken: the stream or Central fails after this many bytes of the block reached the service. */
  datatype Fate = Committed | Broken(reached: nat)

  datatype Step =
    | Put(offset: nat, chunks: seq<seq<Byte>>, fate: Fate)
    | Finalize(authorized: bool, crash: bool)
    | OtherPublishes(content: seq<Byte>)

  // ---------------------------------------------------------------- one block

  function Flat(chunks: seq<seq<Byte>>): seq<Byte> {
    if chunks == [] then [] else chunks[0] + Flat(chunks[1..])
  }

  /** The chunks passed on before a limit is hit, and whether none was. */
  function Admitted(chunks: seq<seq<Byte>>, written: nat, room: nat, limit: nat): (seq<Byte>, bool) {
    if chunks == [] then ([], true)
    else if written + |chunks[0]| > limit || written + |chunks[0]| > room then ([], false)
    else
      var rest := Admitted(chunks[1..], written + |chunks[0]|, room, limit);
      (chunks[0] + rest.0, rest.1)
  }

  lemma {:induction false} AdmittedIsAPrefix(chunks: seq<seq<Byte>>, written: nat, room: nat, limit: nat)
    ensures var a := Admitted(chunks, written, room, limit);
      && a.0 <= Flat(chunks) && (a.1 ==> a.0 == Flat(chunks))
      && (a.0 != [] ==> written + |a.0| <= limit && written + |a.0| <= room)
    ensures written + |Flat(chunks)| <= limit && written + |Flat(chunks)| <= room ==> Admitted(chunks, written, room, limit).1
    decreases |chunks|
  {
    if chunks != [] {
      AdmittedIsAPrefix(chunks[1..], written + |chunks[0]|, room, limit);
    }
  }

  predicate Fits(written: nat, chunks: seq<seq<Byte>>, room: nat, limit: nat) {
    written + |Flat(chunks)| <= limit && written + |Flat(chunks)| <= room
  }

  /** Exactly the leading chunks that fit are passed on; the first that does not ends the stream. */
  lemma {:induction false} AdmittedExactly(chunks: seq<seq<Byte>>, written: nat, room: nat, limit: nat) returns (j: nat)
    requires written <= limit && written <= room
    ensures j <= |chunks| && Fits(written, chunks[..j], room, limit)
    ensures Admitted(chunks, written, room, limit) == (Flat(chunks[..j]), j == |chunks|)
    ensures j < |chunks| ==> !Fits(written, chunks[..j + 1], room, limit)
    decreases |chunks|
  {
    if chunks == [] {
      return 0;
    }
    var now := written + |chunks[0]|;
    assert chunks[..1] == [chunks[0]] && Flat(chunks[..1]) == chunks[0] by { assert chunks[..1][1..] == []; }
    if now > limit || now > room {
      return 0;
    }
    var i := AdmittedExactly(chunks[1..], now, room, limit);
    j := i + 1;
    FlatOfPrefix(chunks, i);
    if j < |chunks| { FlatOfPrefix(chunks, i + 1); }
  }

  lemma FlatOfPrefix(chunks: seq<seq<Byte>>, i: nat)
    requires i < |chunks|
    ensures Flat(chunks[..i + 1]) == chunks[0] + Flat(chunks[1..][..i])
  {
    assert chunks[..i + 1][1..] == chunks[1..][..i];
  }

  lemma AddNothing(a: seq<Byte>)
    ensures [] + a == a && a + [] == a
  {}

  lemma Reassociate(a: seq<Byte>, b: seq<Byte>, c: seq<Byte>)
    ensures a + (b + c) == (a + b) + c
  {}

  /** The generator that wraps the request stream. */
  method PassOn(chunks: seq<seq<Byte>>, offset: nat, expected: nat, limit: nat) returns (passed: seq<Byte>, ok: bool)
    requires offset <= expected
    ensures (passed, ok) == Admitted(chunks, 0, expected - offset, limit)
  {
    passed, ok := [], true;
    var written, i := 0, 0;
    assert chunks[0..] == chunks;
    AddNothing(Admitted(chunks, 0, expected - offset, limit).0);
    while i < |chunks|
      invariant 0 <= i <= |chunks| && ok && written == |passed|
      invariant Admitted(chunks, 0, expected - offset, limit) ==
                var rest := Admitted(chunks[i..], written, expected - offset, limit); (passed + rest.0, rest.1)
    {
      written := written + |chunks[i]|;
      if written > limit || offset + written > expected {
        ok := false;
        assert passed + [] == passed;
        return;
      }
      assert chunks[i..][1..] == chunks[i + 1..];
      Reassociate(passed, chunks[i], Admitted(chunks[i + 1..], written, expected - offset, limit).0);
      passed := passed + chunks[i];
      i := i + 1;
    }
    assert passed + [] == passed;
  }

  // ---------------------------------------------------------------- steps

  function PutStep(w: World, m: Manifest, offset: nat, chunks: seq<seq<Byte>>, fate: Fate): World {
    if w.session.finalized || offset != w.session.confirmed || offset > |m.bytes| || |w.staging| != offset then w
    else
      var (passed, ok) := Admitted(chunks, 0, |m.bytes| - offset, m.limit);
      if ok && fate.Committed? then
        w.(staging := w.staging + passed, session := w.session.(confirmed := offset + |passed|))
      else
        var reached := if fate.Broken? && fate.reached < |passed| then fate.reached else |passed|;
        w.(staging := w.staging + passed[..reached])
  }

  function Stored(w: World, m: Manifest): map<Digest, seq<Byte>> {
    if m.declared in w.objects then w.objects else w.objects[m.declared := w.staging]
  }

  function FinalizeStep(w: World, m: Manifest, authorized: bool, crash: bool): World {
    if !authorized || w.session.confirmed != |m.bytes| || Sha256(w.staging) != m.declared then w
    else if crash || w.session.finalized then w.(objects := Stored(w, m))
    else World(w.staging, Stored(w, m), Session(w.session.confirmed, true, w.session.replicas + 1, w.session.assets + 1))
  }

  function Next(w: World, m: Manifest, step: Step): World {
    match step
    case Put(offset, chunks, fate) => PutStep(w, m, offset, chunks, fate)
    case Finalize(authorized, crash) => FinalizeStep(w, m, authorized, crash)
    case OtherPublishes(content) =>
      if Sha256(content) in w.objects then w else w.(objects := w.objects[Sha256(content) := content])
  }

  function Run(w: World, m: Manifest, steps: seq<Step>): World
    decreases |steps|
  {
    if steps == [] then w else Next(Run(w, m, steps[..|steps| - 1]), m, steps[|steps| - 1])
  }

  /** The Site sends its own bytes from the offset it names. */
  ghost predicate Honest(m: Manifest, step: Step) {
    step.Put? && step.offset <= |m.bytes| ==> Flat(step.chunks) <= m.bytes[step.offset..]
  }

  // ---------------------------------------------------------------- safety

  ghost predicate Inv(w: World, m: Manifest) {
    && w.session.confirmed <= |w.staging| <= |m.bytes| && w.staging == m.bytes[..|w.staging|]
    && (forall d :: d in w.objects ==> Sha256(w.objects[d]) == d)
    && (w.session.finalized ==> w.session.confirmed == |m.bytes| && m.declared in w.objects && m.declared == Sha256(m.bytes))
    && w.session.replicas == w.session.assets == (if w.session.finalized then 1 else 0)
  }

  lemma PrefixGrows(bytes: seq<Byte>, n: nat, block: seq<Byte>)
    requires n <= |bytes| && block <= bytes[n..]
    ensures bytes[..n] + block == bytes[..n + |block|]
  {}

  lemma PutKeepsInv(w: World, m: Manifest, offset: nat, chunks: seq<seq<Byte>>, fate: Fate)
    requires Inv(w, m) && Honest(m, Put(offset, chunks, fate))
    ensures Inv(PutStep(w, m, offset, chunks, fate), m)
  {
    var w' := PutStep(w, m, offset, chunks, fate);
    if w' != w {
      AdmittedIsAPrefix(chunks, 0, |m.bytes| - offset, m.limit);
      var passed := Admitted(chunks, 0, |m.bytes| - offset, m.limit).0;
      var block := w'.staging[offset..];
      assert w'.staging == w.staging + block && block <= passed <= Flat(chunks);
      assert block <= m.bytes[offset..];
      PrefixGrows(m.bytes, offset, block);
    }
  }

  lemma StepKeepsInv(w: World, m: Manifest, step: Step)
    requires Inv(w, m) && Honest(m, step)
    ensures Inv(Next(w, m, step), m) && w.session.confirmed <= Next(w, m, step).session.confirmed
    ensures w.session.finalized ==> Next(w, m, step).session == w.session
    ensures forall d :: d in w.objects ==> d in Next(w, m, step).objects && Next(w, m, step).objects[d] == w.objects[d]
  {
    if step.Put? { PutKeepsInv(w, m, step.offset, step.chunks, step.fate); }
  }

  /** A request the two offset checks let pass. */
  predicate Admissible(w: World, m: Manifest, offset: nat) {
    !w.session.finalized && offset == w.session.confirmed && offset <= |m.bytes| && |w.staging| == offset
  }

  lemma PutRefused(w: World, m: Manifest, offset: nat, chunks: seq<seq<Byte>>, fate: Fate)
    requires !Admissible(w, m, offset)
    ensures Next(w, m, Put(offset, chunks, fate)) == w
  {}

  /** What an admissible block does: complete and within both limits, all of it, confirmed; otherwise the bytes that got through, unconfirmed. */
  lemma PutExactly(w: World, m: Manifest, offset: nat, chunks: seq<seq<Byte>>, fate: Fate)
    requires Admissible(w, m, offset)
    ensures var w', passed := Next(w, m, Put(offset, chunks, fate)), Admitted(chunks, 0, |m.bytes| - offset, m.limit).0;
      && w'.objects == w.objects
      && if Fits(0, chunks, |m.bytes| - offset, m.limit) && fate.Committed?
         then w'.staging == w.staging + Flat(chunks) && w'.session == w.session.(confirmed := offset + |Flat(chunks)|)
         else
           && w'.session == w.session
           && w'.staging == w.staging + (if fate.Broken? && fate.reached < |passed| then passed[..fate.reached] else passed)
  {
    hide Admitted, Flat;
    var j := AdmittedExactly(chunks, 0, |m.bytes| - offset, m.limit);
    assert chunks[..|chunks|] == chunks;
    AdmittedIsAPrefix(chunks, 0, |m.bytes| - offset, m.limit);
    var passed := Admitted(chunks, 0, |m.bytes| - offset, m.limit).0;
    assert passed[..|passed|] == passed;
  }

  /** A finalization publishes exactly the complete, authorized session with the declared digest, and records it unless it dies before its commit. */
  lemma FinalizeExactly(w: World, m: Manifest, authorized: bool, crash: bool)
    requires Inv(w, m)
    ensures var w' := Next(w, m, Finalize(authorized, crash));
      if !authorized || w.session.confirmed != |m.bytes| || m.declared != Sha256(m.bytes) then w' == w
      else
        && w'.staging == w.staging && m.declared in w'.objects && w'.objects[m.declared] == m.bytes
        && (forall d :: d != m.declared ==> (d in w'.objects <==> d in w.objects) && (d in w.objects ==> w'.objects[d] == w.objects[d]))
        && w'.session == (if crash then w.session else Session(|m.bytes|, true, 1, 1))
  {}

  /** Someone else's publication adds its content under its own digest, unless that is already taken. */
  lemma OthersPublish(w: World, m: Manifest, content: seq<Byte>, d: Digest)
    ensures var w' := Next(w, m, OtherPublishes(content));
      && w'.staging == w.staging && w'.session == w.session
      && (d in w'.objects <==> d in w.objects || d == Sha256(content))
      && (d in w'.objects ==> w'.objects[d] == if d in w.objects then w.objects[d] else content)
  {}

  /** At every moment of every run the confirmed bytes are the Site's, and publication is exact and single. */
  lemma {:induction false} RunKeepsInv(w: World, m: Manifest, steps: seq<Step>)
    requires Inv(w, m) && forall i :: 0 <= i < |steps| ==> Honest(m, steps[i])
    ensures Inv(Run(w, m, steps), m) && w.session.confirmed <= Run(w, m, steps).session.confirmed
    ensures w.session.finalized ==> Run(w, m, steps).session == w.session
    decreases |steps|
  {
    if steps != [] {
      RunKeepsInv(w, m, steps[..|steps| - 1]);
      StepKeepsInv(Run(w, m, steps[..|steps| - 1]), m, steps[|steps| - 1]);
    }
  }

  /** What a finalized session points at is the Site's file, whoever published those bytes first. */
  lemma PublishedIsTheSitesFile(w: World, m: Manifest)
    requires Inv(w, m) && w.session.finalized
    ensures w.objects[m.declared] == m.bytes
  {}

  /** A crash between publication and commit is repaired by finalizing again. */
  lemma FinalizingAgainSettles(w: World, m: Manifest, steps: seq<Step>)
    requires Inv(w, m) && w.session.confirmed == |m.bytes| && m.declared == Sha256(m.bytes)
    requires forall i :: 0 <= i < |steps| ==> Honest(m, steps[i])
    ensures var crashed := Next(w, m, Finalize(true, true));
      var settled := Next(Run(crashed, m, steps), m, Finalize(true, false));
      settled.session.finalized && settled.session.replicas == 1 && settled.session.assets == 1
  {
    var crashed := Next(w, m, Finalize(true, true));
    StepKeepsInv(w, m, Finalize(true, true));
    RunKeepsInv(crashed, m, steps);
    var now := Run(crashed, m, steps);
    assert now.staging == m.bytes;
    StepKeepsInv(now, m, Finalize(true, false));
  }

  // ---------------------------------------------------------------- when a session can still finish

  /** Bytes the service kept and Central never committed: no later request gets past both checks. */
  predicate Stranded(w: World) {
    !w.session.finalized && w.session.confirmed < |w.staging|
  }

  lemma {:induction false} StrandedForever(w: World, m: Manifest, steps: seq<Step>)
    requires Inv(w, m) && Stranded(w) && forall i :: 0 <= i < |steps| ==> Honest(m, steps[i])
    ensures Run(w, m, steps).session == w.session && Run(w, m, steps).staging == w.staging
    decreases |steps|
  {
    if steps != [] {
      StrandedForever(w, m, steps[..|steps| - 1]);
    }
  }

  lemma OneChunk(block: seq<Byte>, room: nat, limit: nat)
    requires |block| <= room && |block| <= limit
    ensures Admitted([block], 0, room, limit) == (block, true) && Flat([block]) == block
  {
    assert block + [] == block;
    assert [block][1..] == [];
  }

  /** Blocks of at most limit bytes carry an unstranded session to its end. */
  lemma {:induction false} UnstrandedCanFinish(w: World, m: Manifest) returns (steps: seq<Step>)
    requires Inv(w, m) && !Stranded(w) && m.declared == Sha256(m.bytes) && 0 < m.limit
    ensures forall i :: 0 <= i < |steps| ==> Honest(m, steps[i])
    ensures Run(w, m, steps).session.finalized
    decreases |m.bytes| - w.session.confirmed
  {
    var n := w.session.confirmed;
    if w.session.finalized {
      return [];
    }
    if n == |m.bytes| {
      steps := [Finalize(true, false)];
      assert steps[..0] == [];
      assert Run(w, m, steps) == Next(Run(w, m, []), m, steps[0]);
      return;
    }
    var count := if |m.bytes| - n < m.limit then |m.bytes| - n else m.limit;
    var block := m.bytes[n..n + count];
    var put := Put(n, [block], Committed);
    OneChunk(block, |m.bytes| - n, m.limit);
    assert block == m.bytes[n..][..count];
    StepKeepsInv(w, m, put);
    var rest := UnstrandedCanFinish(Next(w, m, put), m);
    steps := [put] + rest;
    RunFrom(w, m, put, rest);
  }

  lemma {:induction false} RunFrom(w: World, m: Manifest, step: Step, rest: seq<Step>)
    ensures Run(w, m, [step] + rest) == Run(Next(w, m, step), m, rest)
    decreases |rest|
  {
    var steps := [step] + rest;
    if rest == [] {
      assert steps[..0] == [];
      assert Run(w, m, steps) == Next(Run(w, m, []), m, step);
    } else {
      assert steps[..|steps| - 1] == [step] + rest[..|rest| - 1];
      RunFrom(w, m, step, rest[..|rest| - 1]);
    }
  }

  ghost predicate CanFinish(w: World, m: Manifest) {
    exists steps: seq<Step> :: (forall i :: 0 <= i < |steps| ==> Honest(m, steps[i])) && Run(w, m, steps).session.finalized
  }

  /** An honest session can be finished exactly when the service holds no byte that Central has not confirmed. */
  lemma CanFinishExactly(w: World, m: Manifest)
    requires Inv(w, m) && m.declared == Sha256(m.bytes) && 0 < m.limit
    ensures CanFinish(w, m) <==> !Stranded(w)
  {
    if Stranded(w) {
      forall steps: seq<Step> | forall i :: 0 <= i < |steps| ==> Honest(m, steps[i])
        ensures !Run(w, m, steps).session.finalized
      {
        StrandedForever(w, m, steps);
      }
    } else {
      var steps := UnstrandedCanFinish(w, m);
    }
  }

  /** One block that reached the service without Central's commit is enough. */
  lemma BrokenBlockStrands(w: World, m: Manifest, block: seq<Byte>, reached: nat)
    requires Inv(w, m) && !w.session.finalized && |w.staging| == w.session.confirmed
    requires 0 < reached <= |block| <= m.limit && |block| <= |m.bytes| - w.session.confirmed
    ensures Stranded(Next(w, m, Put(w.session.confirmed, [block], Broken(reached))))
  {}

  // ---------------------------------------------------------------- the endpoints

  class Receiver {
    const manifest: Manifest
    var staging: seq<Byte>
    var objects: map<Digest, seq<Byte>>
    var confirmed: nat
    var finalized: bool
    var replicas: nat
    var assets: nat

    ghost function View(): World
      reads this
    {
      World(staging, objects, Session(confirmed, finalized, replicas, assets))
    }

    constructor (m: Manifest, published: map<Digest, seq<Byte>>)
      ensures manifest == m && View() == World([], published, Session(0, false, 0, 0))
    {
      manifest, staging, objects := m, [], published;
      confirmed, finalized, replicas, assets := 0, false, 0, 0;
    }

    /** The service appends only at its own end of file. */
    method AppendStaging(offset: nat, block: seq<Byte>) returns (now: Option<nat>)
      modifies this`staging
      ensures |old(staging)| == offset ==> staging == old(staging) + block && now == Some(offset + |block|)
      ensures |old(staging)| != offset ==> staging == old(staging) && now.None?
    {
      if |staging| != offset {
        return None;
      }
      staging := staging + block;
      return Some(|staging|);
    }

    method ReplicationContent(offset: nat, chunks: seq<seq<Byte>>, fate: Fate)
      modifies this
      ensures View() == Next(old(View()), manifest, Put(offset, chunks, fate))
    {
      if finalized || offset != confirmed || offset > |manifest.bytes| {
        return;
      }
      var passed, ok := PassOn(chunks, offset, |manifest.bytes|, manifest.limit);
      if fate.Broken? && fate.reached < |passed| {
        passed, ok := passed[..fate.reached], false;
      }
      var now := AppendStaging(offset, passed);
      if ok && fate.Committed? && now.Some? {
        confirmed := now.value;
      }
      assert passed[..|passed|] == passed;
    }

    method FinalizeReplication(authorized: bool, crash: bool)
      modifies this
      ensures View() == Next(old(View()), manifest, Finalize(authorized, crash))
    {
      if !authorized || confirmed != |manifest.bytes| {
        return;
      }
      var digest := HashFile(staging);
      if digest != manifest.declared {
        return;
      }
      if manifest.declared !in objects {
        objects := objects[manifest.declared := staging];
      }
      if crash || finalized {
        return;
      }
      replicas, assets, finalized := replicas + 1, assets + 1, true;
    }
  }
}
