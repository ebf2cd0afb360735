/**
 The program of one Event and the rule that every imported session with a code has a
 presentation: how one session is given its presentation, and the repair that does it for all.
 */
module Materialization {
  import opened Wrappers

  type Id = nat

  datatype Session = Session(code: Option<nat>, title: nat, starts: nat, imported: bool)

  /** materialized marks presentations that were made from a session and follow it. */
  datatype Presentation = Presentation(session: Option<Id>, code: Option<nat>, title: nat, scheduled: nat, materialized: bool)

  /** Identities are handed out in increasing order, so the oldest row has the smallest. */
  datatype Program = Program(sessions: map<Id, Session>, presentations: map<Id, Presentation>, links: set<(Id, Id)>, next: Id)

  // ---------------------------------------------------------------- constraints

  ghost predicate Fresh(t: Program) {
    (forall s :: s in t.sessions ==> s < t.next) && (forall p :: p in t.presentations ==> p < t.next)
  }

  /** Codes are unique within the Event, for sessions and for presentations. */
  ghost predicate CodesUnique(t: Program) {
    && (forall p, q :: p in t.presentations && q in t.presentations && p != q && t.presentations[p].code.Some? ==>
          t.presentations[p].code != t.presentations[q].code)
    && (forall r, s :: r in t.sessions && s in t.sessions && r != s && t.sessions[r].code.Some? ==>
          t.sessions[r].code != t.sessions[s].code)
  }

  ghost predicate Valid(t: Program) { Fresh(t) && CodesUnique(t) }

  predicate On(t: Program, p: Id, s: Id) { p in t.presentations && t.presentations[p].session == Some(s) }

  predicate Has(t: Program, s: Id) { exists p :: p in t.presentations && On(t, p, s) }

  predicate Bearing(t: Program, s: Id) { s in t.sessions && t.sessions[s].imported && t.sessions[s].code.Some? }

  ghost predicate BearsCode(t: Program, p: Id, s: Id) {
    p in t.presentations && s in t.sessions && t.presentations[p].code.Some? && t.presentations[p].code == t.sessions[s].code
  }

  // ---------------------------------------------------------------- one session

  ghost predicate IsOldestOn(t: Program, p: Id, s: Id) {
    On(t, p, s) && forall q: Id :: q in t.presentations && On(t, q, s) ==> p <= q
  }

  ghost function OldestOn(t: Program, s: Id): (oldest: Option<Id>)
    ensures oldest.Some? ==> IsOldestOn(t, oldest.value, s)
  {
    if exists p :: IsOldestOn(t, p, s) then var p :| IsOldestOn(t, p, s); Some(p) else None
  }

  ghost function WithCode(t: Program, code: Option<nat>): (bearer: Option<Id>)
    ensures bearer.Some? ==> code.Some? && bearer.value in t.presentations && t.presentations[bearer.value].code == code
  {
    if code.Some? && exists p :: p in t.presentations && t.presentations[p].code == code
    then var p :| p in t.presentations && t.presentations[p].code == code; Some(p) else None
  }

  /** The presentation a session is given: its oldest, else the bearer of its code, wherever that is linked. */
  ghost function Chosen(t: Program, s: Id): Option<Id>
    requires s in t.sessions
  {
    if OldestOn(t, s).Some? then OldestOn(t, s) else WithCode(t, t.sessions[s].code)
  }

  function Attached(item: Presentation, s: Id, session: Session): Presentation {
    var moved := item.(session := Some(s));
    if item.materialized then moved.(title := session.title, scheduled := session.starts) else moved
  }

  ghost function Materialize(t: Program, s: Id): (Program, Id)
    requires s in t.sessions
  {
    var session := t.sessions[s];
    if Chosen(t, s).None? then
      var p := t.next;
      (t.(presentations := t.presentations[p := Presentation(Some(s), session.code, session.title, session.starts, true)],
          links := t.links + {(p, s)}, next := t.next + 1), p)
    else
      var p := Chosen(t, s).value;
      (t.(presentations := t.presentations[p := Attached(t.presentations[p], s, session)], links := t.links + {(p, s)}), p)
  }

  lemma {:induction false} SomeOldest(ps: set<Id>) returns (p: Id)
    requires ps != {}
    ensures p in ps && forall q: Id :: q in ps ==> p <= q
    decreases ps
  {
    var first: Id :| first in ps;
    p := first;
    if ps - {first} != {} {
      var q := SomeOldest(ps - {first});
      p := if q < first then q else first;
      assert forall r: Id :: r in ps ==> r == first || r in ps - {first};
    } else {
      assert ps == {first};
    }
  }

  lemma OldestFacts(t: Program, s: Id)
    ensures OldestOn(t, s).Some? <==> Has(t, s)
    ensures forall p: Id :: IsOldestOn(t, p, s) ==> OldestOn(t, s) == Some(p)
  {
    var ps := set p | p in t.presentations && On(t, p, s);
    if Has(t, s) {
      var q :| q in t.presentations && On(t, q, s);
      assert q in ps;
      var p := SomeOldest(ps);
      assert forall r: Id :: r in t.presentations && On(t, r, s) ==> r in ps;
      assert IsOldestOn(t, p, s);
    }
  }

  /** Whatever the data: the session ends up with its presentation and their link, and codes stay unique. */
  lemma MaterializeGives(t: Program, s: Id)
    requires Valid(t) && s in t.sessions
    ensures var (t', p) := Materialize(t, s);
      && Valid(t') && On(t', p, s) && (p, s) in t'.links && t'.sessions == t.sessions
      && (forall q :: q in t.presentations ==> q in t'.presentations)
      && (forall q :: q in t'.presentations && q != p ==> q in t.presentations && t'.presentations[q] == t.presentations[q])
  {}

  /**
   What giving a session its presentation writes: which one it is, that it becomes the session's, and
   that its title and time follow the session exactly if it was made from one, or is made now.
   */
  lemma MaterializeExactly(t: Program, s: Id)
    requires Valid(t) && s in t.sessions
    ensures var (t', p) := Materialize(t, s);
      && t' == t.(presentations := t'.presentations, links := t'.links, next := t'.next)
      && (forall link :: link in t'.links <==> link in t.links || link == (p, s))
      && p in t'.presentations
      && var item := t'.presentations[p];
      && item.session == Some(s)
      && if Has(t, s) then
           && On(t, p, s) && (forall q :: q in t.presentations && On(t, q, s) ==> p <= q) && Follows(t.presentations[p], item, t.sessions[s])
         else if exists q :: BearsCode(t, q, s) then
           BearsCode(t, p, s) && Follows(t.presentations[p], item, t.sessions[s])
         else
           && p !in t.presentations && t'.next > p && item.materialized && item.code == t.sessions[s].code
           && item.title == t.sessions[s].title && item.scheduled == t.sessions[s].starts
  {
    OldestFacts(t, s);
    var found := WithCode(t, t.sessions[s].code);
    if found.Some? { assert BearsCode(t, found.value, s); }
    if q :| BearsCode(t, q, s) { assert q in t.presentations && t.presentations[q].code == t.sessions[s].code; }
  }

  /** A presentation made from a session takes the session's title and time; any other keeps its own. */
  predicate Follows(before: Presentation, after: Presentation, session: Session) {
    && after.code == before.code && after.materialized == before.materialized
    && after.title == (if before.materialized then session.title else before.title)
    && after.scheduled == (if before.materialized then session.starts else before.scheduled)
  }

  /** The only session a materialization can leave without its presentation: the one whose only one bore this code. */
  lemma LosesExactly(t: Program, s: Id, other: Id)
    requires Valid(t) && s in t.sessions && other != s
    ensures (Has(t, other) && !Has(Materialize(t, s).0, other)) <==>
              && !Has(t, s) && WithCode(t, t.sessions[s].code).Some?
              && IsOnlyOn(t, WithCode(t, t.sessions[s].code).value, other)
  {
    OldestFacts(t, s);
    MaterializeGives(t, s);
    var (t', p) := Materialize(t, s);
    if Has(t, other) && !Has(t', other) {
      var q :| q in t.presentations && On(t, q, other);
      assert On(t, p, other);
      forall r | r in t.presentations && On(t, r, other)
        ensures r == p
      {
        assert r != p ==> On(t', r, other);
      }
    }
    if !Has(t, s) && WithCode(t, t.sessions[s].code).Some? && IsOnlyOn(t, WithCode(t, t.sessions[s].code).value, other) {
      assert On(t, p, other);
    }
  }

  ghost predicate IsOnlyOn(t: Program, p: Id, s: Id) {
    On(t, p, s) && forall q :: q in t.presentations && On(t, q, s) ==> q == p
  }

  // ---------------------------------------------------------------- repair

  /** Every imported session with a code has a presentation. */
  ghost predicate Complete(t: Program) {
    forall s :: s in t.sessions && Bearing(t, s) ==> Has(t, s)
  }

  /** What bears the session's code is linked to it or to none. */
  ghost predicate Agrees(t: Program, s: Id) {
    forall p :: BearsCode(t, p, s) ==> t.presentations[p].session == None || t.presentations[p].session == Some(s)
  }

  /** No presentation bears the code of an imported session other than the one it is linked to. */
  ghost predicate CodesAgree(t: Program) {
    forall s :: Bearing(t, s) ==> Agrees(t, s)
  }

  /** Nothing more to do for this session. */
  ghost predicate InPlace(t: Program, s: Id)
    requires s in t.sessions
  {
    Has(t, s) && OldestOn(t, s).Some? && (OldestOn(t, s).value, s) in t.links && OldestOn(t, s).value in t.presentations
    && Attached(t.presentations[OldestOn(t, s).value], s, t.sessions[s]) == t.presentations[OldestOn(t, s).value]
  }

  lemma InPlaceMeansNoChange(t: Program, s: Id)
    requires s in t.sessions && InPlace(t, s)
    ensures Materialize(t, s).0 == t
  {}

  lemma MaterializePutsInPlace(t: Program, s: Id)
    requires Valid(t) && s in t.sessions
    ensures InPlace(Materialize(t, s).0, s)
  {
    OldestFacts(t, s);
    MaterializeGives(t, s);
    var (t', p) := Materialize(t, s);
    assert IsOldestOn(t', p, s);
    OldestFacts(t', s);
  }

  /** If its code agrees, giving one session its presentation leaves every other session's alone. */
  lemma OthersStayInPlace(t: Program, s: Id, other: Id)
    requires Valid(t) && s in t.sessions && Agrees(t, s) && other in t.sessions && other != s && InPlace(t, other)
    ensures InPlace(Materialize(t, s).0, other)
  {
    OldestFacts(t, s);
    OldestFacts(t, other);
    MaterializeGives(t, s);
    var (t', p) := Materialize(t, s);
    var q := OldestOn(t, other).value;
    assert WithCode(t, t.sessions[s].code).Some? ==> BearsCode(t, WithCode(t, t.sessions[s].code).value, s);
    assert q != p && IsOldestOn(t', q, other);
    OldestFacts(t', other);
  }

  lemma MaterializeKeepsAgreement(t: Program, s: Id, other: Id)
    requires Valid(t) && s in t.sessions && Agrees(t, s) && Agrees(t, other)
    ensures Agrees(Materialize(t, s).0, other)
  {
    MaterializeGives(t, s);
    MaterializeExactly(t, s);
  }

  /** The repair, over the imported sessions in some order. */
  ghost function Repair(t: Program, sessions: seq<Id>): Program
    requires forall i :: 0 <= i < |sessions| ==> sessions[i] in t.sessions
    ensures Repair(t, sessions).sessions == t.sessions
    decreases |sessions|
  {
    if sessions == [] then t
    else
      var before := Repair(t, sessions[..|sessions| - 1]);
      Materialize(before, sessions[|sessions| - 1]).0
  }

  lemma {:induction false} RepairKeepsValid(t: Program, sessions: seq<Id>)
    requires Valid(t) && forall i :: 0 <= i < |sessions| ==> sessions[i] in t.sessions
    ensures Valid(Repair(t, sessions))
    decreases |sessions|
  {
    if sessions != [] {
      RepairKeepsValid(t, sessions[..|sessions| - 1]);
      MaterializeGives(Repair(t, sessions[..|sessions| - 1]), sessions[|sessions| - 1]);
    }
  }

  lemma {:induction false} RepairPutsAllInPlace(t: Program, sessions: seq<Id>, others: set<Id>)
    requires Valid(t) && (forall i :: 0 <= i < |sessions| ==> sessions[i] in t.sessions && sessions[i] in others)
    requires forall s :: s in others ==> Agrees(t, s)
    ensures Valid(Repair(t, sessions)) && forall s :: s in others ==> Agrees(Repair(t, sessions), s)
    ensures forall i :: 0 <= i < |sessions| ==> InPlace(Repair(t, sessions), sessions[i])
    decreases |sessions|
  {
    hide Valid, Agrees, InPlace, Materialize;
    if sessions != [] {
      var init, last := sessions[..|sessions| - 1], sessions[|sessions| - 1];
      RepairPutsAllInPlace(t, init, others);
      var before := Repair(t, init);
      MaterializeGives(before, last);
      MaterializePutsInPlace(before, last);
      forall s | s in others
        ensures Agrees(Repair(t, sessions), s)
      {
        MaterializeKeepsAgreement(before, last, s);
      }
      forall i | 0 <= i < |sessions|
        ensures InPlace(Repair(t, sessions), sessions[i])
      {
        if sessions[i] != last {
          assert init[i] == sessions[i];
          OthersStayInPlace(before, last, sessions[i]);
        }
      }
    }
  }

  lemma {:induction false} NothingToRepair(t: Program, sessions: seq<Id>)
    requires forall i :: 0 <= i < |sessions| ==> sessions[i] in t.sessions && InPlace(t, sessions[i])
    ensures Repair(t, sessions) == t
    decreases |sessions|
  {
    if sessions != [] {
      NothingToRepair(t, sessions[..|sessions| - 1]);
      InPlaceMeansNoChange(t, sessions[|sessions| - 1]);
    }
  }

  /**
   If codes agree, the repair gives every imported coded session a presentation, in whatever
   order the sessions come, keeps codes unique, and a second repair in any order changes nothing.
   */
  lemma RepairIsCompleteAndIdempotent(t: Program, sessions: seq<Id>, again: seq<Id>)
    requires Valid(t) && CodesAgree(t)
    requires forall i :: 0 <= i < |sessions| ==> sessions[i] in t.sessions && Bearing(t, sessions[i])
    requires forall s :: s in t.sessions && Bearing(t, s) ==> s in sessions
    requires forall i :: 0 <= i < |again| ==> again[i] in sessions
    ensures var repaired := Repair(t, sessions);
      && Valid(repaired) && Complete(repaired)
      && (forall i :: 0 <= i < |again| ==> again[i] in repaired.sessions) && Repair(repaired, again) == repaired
  {
    RepairPutsAllInPlace(t, sessions, set s | s in t.sessions && Bearing(t, s));
    var repaired := Repair(t, sessions);
    forall s | s in repaired.sessions && Bearing(repaired, s)
      ensures Has(repaired, s)
    {
      assert Bearing(t, s);
      var i :| 0 <= i < |sessions| && sessions[i] == s;
      assert InPlace(repaired, sessions[i]);
    }
    forall i | 0 <= i < |again|
      ensures again[i] in repaired.sessions && InPlace(repaired, again[i])
    {
      var j :| 0 <= j < |sessions| && sessions[j] == again[i];
    }
    NothingToRepair(repaired, again);
  }

  // ---------------------------------------------------------------- exactly when a repair is complete

  /** The imported coded sessions, each once, as the query lists them. */
  ghost predicate Lists(t: Program, sessions: seq<Id>) {
    && (forall i :: 0 <= i < |sessions| ==> sessions[i] in t.sessions && Bearing(t, sessions[i]))
    && (forall s :: s in t.sessions && Bearing(t, s) ==> s in sessions)
    && (forall i, j :: 0 <= i < j < |sessions| ==> sessions[i] != sessions[j])
  }

  /** Before the repair: nothing is linked to the i-th session but what earlier ones will take by its code. */
  ghost predicate Needy(t: Program, sessions: seq<Id>, i: nat)
    requires i < |sessions|
    decreases i, 1
  {
    forall p :: p in t.presentations && On(t, p, sessions[i]) ==> TakenBefore(t, sessions, i, p)
  }

  /** One of the first i sessions is needy and p bears its code. */
  ghost predicate TakenBefore(t: Program, sessions: seq<Id>, i: nat, p: Id)
    requires i <= |sessions|
    decreases i, 0
  {
    exists j: nat :: j < i && BearsCode(t, p, sessions[j]) && Needy(t, sessions, j)
  }

  /** The i-th session finds a presentation at its turn, and loses the last one to later sessions. */
  ghost predicate Robbed(t: Program, sessions: seq<Id>, i: nat)
    requires i < |sessions|
  {
    && !Needy(t, sessions, i)
    && forall p :: p in t.presentations && On(t, p, sessions[i]) ==> TakenBefore(t, sessions, |sessions|, p)
  }

  /** What the first k steps did to the presentations there were: the taken ones are with their takers, the others stayed. */
  ghost predicate Placed(t: Program, sessions: seq<Id>, k: nat, now: Program)
    requires k <= |sessions|
  {
    forall p :: p in t.presentations ==>
      && p in now.presentations && now.presentations[p].code == t.presentations[p].code
      && (if TakenBefore(t, sessions, k, p) then forall i :: 0 <= i < |sessions| ==> (On(now, p, sessions[i]) <==> BearsCode(t, p, sessions[i]))
          else now.presentations[p].session == t.presentations[p].session)
  }

  /** New presentations are with the session whose code they bear, a needy one of the first k. */
  ghost predicate NewOnesOwn(t: Program, sessions: seq<Id>, k: nat, now: Program)
    requires k <= |sessions|
  {
    forall p, i :: p in now.presentations && p !in t.presentations && 0 <= i < |sessions| ==>
      (On(now, p, sessions[i]) <==> BearsCode(now, p, sessions[i])) && (On(now, p, sessions[i]) ==> i < k && Needy(t, sessions, i))
  }

  ghost predicate OwnsItsCode(now: Program, s: Id) {
    exists p :: p in now.presentations && BearsCode(now, p, s) && On(now, p, s)
  }

  ghost predicate NeedyServed(t: Program, sessions: seq<Id>, k: nat, now: Program)
    requires k <= |sessions|
  {
    forall j: nat :: j < k && Needy(t, sessions, j) ==> OwnsItsCode(now, sessions[j])
  }

  ghost predicate Traced(t: Program, sessions: seq<Id>, k: nat, now: Program)
    requires k <= |sessions|
  {
    && Valid(now) && now.sessions == t.sessions
    && Placed(t, sessions, k, now) && NewOnesOwn(t, sessions, k, now) && NeedyServed(t, sessions, k, now)
  }

  lemma TakenOneMore(t: Program, sessions: seq<Id>, k: nat, p: Id)
    requires k < |sessions|
    ensures TakenBefore(t, sessions, k + 1, p) <==>
              TakenBefore(t, sessions, k, p) || (BearsCode(t, p, sessions[k]) && Needy(t, sessions, k))
  {}

  /** A presentation bears the code of one session only. */
  lemma OneTaker(t: Program, sessions: seq<Id>, p: Id, i: nat, j: nat)
    requires Valid(t) && Lists(t, sessions) && i < |sessions| && j < |sessions|
    requires BearsCode(t, p, sessions[i]) && BearsCode(t, p, sessions[j])
    ensures i == j
  {}

  /** At its turn a session has a presentation exactly when it is not needy. */
  lemma TurnFinds(t: Program, sessions: seq<Id>, k: nat, now: Program)
    requires Valid(t) && Lists(t, sessions) && k < |sessions| && Traced(t, sessions, k, now)
    ensures Has(now, sessions[k]) <==> !Needy(t, sessions, k)
  {}

  /** By then the bearer of its code is the one of the first state. */
  lemma TurnTakes(t: Program, sessions: seq<Id>, k: nat, now: Program, p: Id)
    requires Valid(t) && Lists(t, sessions) && k < |sessions| && Traced(t, sessions, k, now)
    ensures BearsCode(now, p, sessions[k]) <==> BearsCode(t, p, sessions[k])
  {}

  lemma PlacedOneMore(t: Program, sessions: seq<Id>, k: nat, now: Program)
    requires Valid(t) && Lists(t, sessions) && k < |sessions| && Traced(t, sessions, k, now)
    ensures Placed(t, sessions, k + 1, Materialize(now, sessions[k]).0)
  {
    hide TakenBefore, Needy, Bearing;
    var s := sessions[k];
    TurnFinds(t, sessions, k, now);
    OldestFacts(now, s);
    var (next, given) := Materialize(now, s);
    forall p | p in t.presentations
      ensures p in next.presentations && next.presentations[p].code == t.presentations[p].code
      ensures if TakenBefore(t, sessions, k + 1, p) then forall i :: 0 <= i < |sessions| ==> (On(next, p, sessions[i]) <==> BearsCode(t, p, sessions[i]))
              else next.presentations[p].session == t.presentations[p].session
    {
      TakenOneMore(t, sessions, k, p);
      TurnTakes(t, sessions, k, now, p);
      assert BearsCode(now, p, s) && Needy(t, sessions, k) ==> WithCode(now, now.sessions[s].code) == Some(p);
      if p == given && !Needy(t, sessions, k) {
        assert On(now, p, s);
      } else if p == given {
        assert BearsCode(t, p, s);
        forall i | 0 <= i < |sessions|
          ensures On(next, p, sessions[i]) <==> BearsCode(t, p, sessions[i])
        {
          if BearsCode(t, p, sessions[i]) { OneTaker(t, sessions, p, i, k); }
        }
      }
    }
  }

  /** A new presentation of an earlier step is neither on the next session nor takes part in its turn. */
  lemma NewOnesStay(t: Program, sessions: seq<Id>, k: nat, now: Program, p: Id)
    requires Valid(t) && Lists(t, sessions) && k < |sessions| && Traced(t, sessions, k, now)
    requires p in now.presentations && p !in t.presentations
    ensures !On(now, p, sessions[k]) && !BearsCode(now, p, sessions[k])
    ensures Materialize(now, sessions[k]).0.presentations[p] == now.presentations[p]
  {
    hide TakenBefore, Needy, Placed, NeedyServed, Bearing;
    assert !On(now, p, sessions[k]) && !BearsCode(now, p, sessions[k]);
    MaterializeGives(now, sessions[k]);
    if Chosen(now, sessions[k]) == Some(p) { OldestFacts(now, sessions[k]); }
  }

  lemma NewOnesOneMore(t: Program, sessions: seq<Id>, k: nat, now: Program)
    requires Valid(t) && Lists(t, sessions) && k < |sessions| && Traced(t, sessions, k, now)
    ensures NewOnesOwn(t, sessions, k + 1, Materialize(now, sessions[k]).0)
  {
    hide TakenBefore, Needy, Placed, NeedyServed, Valid;
    var s := sessions[k];
    var (next, given) := Materialize(now, s);
    TurnFinds(t, sessions, k, now);
    OldestFacts(now, s);
    forall p, i | p in next.presentations && p !in t.presentations && 0 <= i < |sessions|
      ensures (On(next, p, sessions[i]) <==> BearsCode(next, p, sessions[i])) && (On(next, p, sessions[i]) ==> i < k + 1 && Needy(t, sessions, i))
    {
      if p in now.presentations {
        NewOnesStay(t, sessions, k, now, p);
      } else {
        assert p == given && BearsCode(next, p, s);
        if BearsCode(next, p, sessions[i]) { SameCode(t, sessions, i, k); }
      }
    }
  }

  lemma SameCode(t: Program, sessions: seq<Id>, i: nat, j: nat)
    requires Valid(t) && Lists(t, sessions) && i < |sessions| && j < |sessions|
    requires t.sessions[sessions[i]].code == t.sessions[sessions[j]].code
    ensures i == j
  {}

  lemma ServedOneMore(t: Program, sessions: seq<Id>, k: nat, now: Program)
    requires Valid(t) && Lists(t, sessions) && k < |sessions| && Traced(t, sessions, k, now)
    ensures NeedyServed(t, sessions, k + 1, Materialize(now, sessions[k]).0)
  {
    hide TakenBefore, Needy, Placed, NewOnesOwn;
    var s := sessions[k];
    var (next, given) := Materialize(now, s);
    TurnFinds(t, sessions, k, now);
    OldestFacts(now, s);
    forall j: nat | j < k + 1 && Needy(t, sessions, j)
      ensures OwnsItsCode(next, sessions[j])
    {
      if j == k {
        assert BearsCode(next, given, s) && On(next, given, s);
      } else {
        var p :| p in now.presentations && BearsCode(now, p, sessions[j]) && On(now, p, sessions[j]);
        assert sessions[j] != s;
        assert p != given;
        assert BearsCode(next, p, sessions[j]) && On(next, p, sessions[j]);
      }
    }
  }

  lemma {:induction false} RepairTraced(t: Program, sessions: seq<Id>, k: nat)
    requires Valid(t) && Lists(t, sessions) && k <= |sessions|
    ensures Traced(t, sessions, k, Repair(t, sessions[..k]))
    decreases k
  {
    if k == 0 {
      assert Repair(t, sessions[..0]) == t;
    } else {
      RepairTraced(t, sessions, k - 1);
      var now := Repair(t, sessions[..k - 1]);
      assert sessions[..k][..k - 1] == sessions[..k - 1];
      assert Repair(t, sessions[..k]) == Materialize(now, sessions[k - 1]).0;
      PlacedOneMore(t, sessions, k - 1, now);
      NewOnesOneMore(t, sessions, k - 1, now);
      ServedOneMore(t, sessions, k - 1, now);
      MaterializeGives(now, sessions[k - 1]);
    }
  }

  /**
   Exactly when the repair leaves every imported coded session with a presentation, read off the
   tables before it: no session in the list is robbed.
   */
  lemma RepairCompleteExactly(t: Program, sessions: seq<Id>)
    requires Valid(t) && Lists(t, sessions)
    ensures var repaired := Repair(t, sessions);
      Complete(repaired) <==> (forall i: nat :: i < |sessions| ==> !Robbed(t, sessions, i))
  {
    hide Valid, Needy, TakenBefore, Robbed, Has, Traced;
    var n, repaired := |sessions|, Repair(t, sessions);
    assert sessions[..n] == sessions;
    RepairTraced(t, sessions, n);
    assert forall s :: Bearing(repaired, s) <==> Bearing(t, s);
    forall i: nat | i < n
      ensures Bearing(repaired, sessions[i]) && (Has(repaired, sessions[i]) <==> !Robbed(t, sessions, i))
    {
      assert Bearing(t, sessions[i]);
      HasUnlessRobbed(t, sessions, i, repaired);
    }
    if i: nat :| i < n && Robbed(t, sessions, i) {
      assert !Has(repaired, sessions[i]);
    } else {
      forall s | s in repaired.sessions && Bearing(repaired, s)
        ensures Has(repaired, s)
      {
        assert Bearing(t, s) && s in sessions;
        var i: nat :| i < n && sessions[i] == s;
      }
    }
  }

  lemma HasUnlessRobbed(t: Program, sessions: seq<Id>, i: nat, repaired: Program)
    requires Valid(t) && Lists(t, sessions) && i < |sessions| && Traced(t, sessions, |sessions|, repaired)
    ensures Has(repaired, sessions[i]) <==> !Robbed(t, sessions, i)
  {}

  /** Without agreement the repair itself can empty a session it has already been through. */
  lemma RepairCanEmptyASession(t: Program, a: Id, b: Id)
    requires Valid(t) && Bearing(t, a) && Bearing(t, b) && a != b && !Has(t, b) && Has(t, a)
    requires WithCode(t, t.sessions[b].code).Some? && IsOnlyOn(t, WithCode(t, t.sessions[b].code).value, a)
    ensures !Has(Repair(t, [a, b]), a)
  {
    var p := WithCode(t, t.sessions[b].code).value;
    OldestFacts(t, a);
    assert [a, b][..1] == [a] && [a][..0] == [];
    assert Repair(t, []) == t;
    var t1 := Repair(t, [a]);
    assert t1 == Materialize(t, a).0;
    MaterializeGives(t, a);
    assert OldestOn(t, a) == Some(p);
    assert forall q :: q in t1.presentations ==> (On(t1, q, a) <==> On(t, q, a)) && (On(t1, q, b) <==> On(t, q, b));
    assert t1.presentations[p].code == t1.sessions[b].code;
    assert WithCode(t1, t1.sessions[b].code) == Some(p);
    assert IsOnlyOn(t1, p, a);
    LosesExactly(t1, b, a);
    assert Repair(t, [a, b]) == Materialize(t1, b).0;
  }

  // ---------------------------------------------------------------- the tables

  class ProgramTables {
    var sessions: map<Id, Session>
    var presentations: map<Id, Presentation>
    var links: set<(Id, Id)>
    var next: Id

    ghost function View(): Program
      reads this
    {
      Program(sessions, presentations, links, next)
    }

    constructor (t: Program)
      ensures View() == t
    {
      sessions, presentations, links, next := t.sessions, t.presentations, t.links, t.next;
    }

    method FindOldestOn(s: Id) returns (oldest: Option<Id>)
      ensures oldest == OldestOn(View(), s)
    {
      oldest := None;
      var todo := presentations.Keys;
      ghost var seen: set<Id> := {};
      while todo != {}
        invariant seen + todo == presentations.Keys && seen !! todo
        invariant oldest.None? ==> forall q: Id :: q in seen ==> !On(View(), q, s)
        invariant oldest.Some? ==> On(View(), oldest.value, s) && forall q: Id :: q in seen && On(View(), q, s) ==> oldest.value <= q
      {
        var p :| p in todo;
        if presentations[p].session == Some(s) && (oldest.None? || p < oldest.value) {
          oldest := Some(p);
        }
        todo, seen := todo - {p}, seen + {p};
      }
      OldestFacts(View(), s);
      if oldest.Some? { assert IsOldestOn(View(), oldest.value, s); }
    }

    method MaterializeSession(s: Id) returns (p: Id)
      requires s in sessions && Valid(View())
      modifies this`presentations, this`links, this`next
      ensures (View(), p) == Materialize(old(View()), s)
    {
      var session := sessions[s];
      var item := FindOldestOn(s);
      if item.None? && session.code.Some? {
        if q :| q in presentations && presentations[q].code == session.code {
          item := Some(q);
        }
      }
      if item.None? {
        p := next;
        next := next + 1;
        presentations := presentations[p := Presentation(Some(s), session.code, session.title, session.starts, true)];
      } else {
        p := item.value;
        var found := presentations[p].(session := Some(s));
        if found.materialized {
          found := found.(title := session.title, scheduled := session.starts);
        }
        presentations := presentations[p := found];
      }
      links := links + {(p, s)};
    }

    method RepairEvent(imported: seq<Id>)
      requires Valid(View()) && forall i :: 0 <= i < |imported| ==> imported[i] in sessions
      modifies this`presentations, this`links, this`next
      ensures View() == Repair(old(View()), imported)
    {
      for i := 0 to |imported|
        invariant View() == Repair(old(View()), imported[..i]) && Valid(View())
      {
        assert imported[..i + 1][..i] == imported[..i];
        MaterializeGives(View(), imported[i]);
        var p := MaterializeSession(imported[i]);
      }
      assert imported[..|imported|] == imported;
    }
  }
}
