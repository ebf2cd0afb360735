/** The service behind an import's review: decisions and the commit, step by step. */
module ImportReview {
  import opened Wrappers
  import opened Materialization
  import opened ImportBatches

  class Importer {
    const tables: ProgramTables
    var rows: seq<Row>
    var status: Status
    var conflicts: nat
    var committed: nat
    var rejected: nat
    const reviewed: nat
    var revision: nat

    ghost function View(): World
      reads this, tables
    {
      World(Batch(rows, status, conflicts, committed, rejected, reviewed), tables.View(), revision)
    }

    constructor (b: Batch, program: ProgramTables, eventRevision: nat)
      ensures View() == World(b, program.View(), eventRevision) && tables == program
    {
      tables, rows, status, conflicts := program, b.rows, b.status, b.conflicts;
      committed, rejected, reviewed, revision := b.committed, b.rejected, b.reviewed, eventRevision;
    }

    method DecideRow(i: nat, action: Action, personActive: bool) returns (ok: bool)
      requires i < |rows|
      modifies this
      ensures ok <==> Decide(old(View()).batch, i, action, personActive).Some?
      ensures View() == Next(old(View()), Decision(i, action, personActive))
    {
      var row := rows[i];
      if row.committed {
        return false;
      }
      var hadConflict := row.conflict;
      if (action == AcceptMatch || action == ChoosePerson) && !personActive {
        return false;
      }
      row := row.(resolution := Some(action));
      row := row.(conflict := false, validation := Fine);
      rows := rows[i := row];
      if hadConflict && conflicts > 0 {
        conflicts := conflicts - 1;
      }
      if conflicts == 0 {
        status := Ready;
      }
      return true;
    }

    method FindSession(code: Option<nat>) returns (found: Option<Id>)
      requires CodesUnique(tables.View())
      ensures found == SessionWithCode(tables.View(), code)
    {
      found := None;
      if code.Some? {
        if s :| s in tables.sessions && tables.sessions[s].code == code {
          found := Some(s);
        }
      }
    }

    method AddSession(code: Option<nat>, title: nat, starts: nat) returns (s: Id)
      modifies tables
      ensures (tables.View(), s) == NewSession(old(tables.View()), code, title, starts)
    {
      s := tables.next;
      tables.sessions := tables.sessions[s := Session(code, title, starts, true)];
      tables.next := tables.next + 1;
    }

    method CommitSessionRow(row: Row) returns (s: Id)
      requires Valid(tables.View())
      modifies tables
      ensures (tables.View(), s) == CommitSession(old(tables.View()), row)
    {
      var found := FindSession(row.sessionCode);
      if found.None? {
        s := AddSession(row.sessionCode, row.title, row.starts);
      } else {
        s := found.value;
        tables.sessions := tables.sessions[s := tables.sessions[s].(title := row.title, starts := row.starts)];
      }
    }

    method CommitItemRow(row: Row) returns (p: Id)
      requires Valid(tables.View())
      modifies tables
      ensures (tables.View(), p) == CommitItem(old(tables.View()), row)
    {
      var found: Option<Id> := None;
      if row.code.Some? {
        if q :| q in tables.presentations && tables.presentations[q].code == row.code {
          found := Some(q);
        }
      }
      if found.None? {
        p := tables.next;
        tables.presentations := tables.presentations[p := Presentation(None, row.code, row.title, row.starts, false)];
        tables.next := tables.next + 1;
      } else {
        p := found.value;
        tables.presentations := tables.presentations[p := tables.presentations[p].(title := row.title, scheduled := row.starts)];
      }
    }

    method CommitPresentationRow(row: Row) returns (ok: bool, entity: Option<Id>)
      requires Valid(tables.View())
      modifies tables
      ensures match CommitPresentation(old(tables.View()), row)
        case None => !ok
        case Some((program, e)) => ok && tables.View() == program && entity == e
    {
      hide Valid, SessionWithCode, CommitItem;
      CommitItemKeeps(tables.View(), row);
      var p := CommitItemRow(row);
      if row.sessionCode.None? {
        return true, None;
      }
      GrownIsValid(old(tables.View()), tables.View());
      entity := FindSession(row.sessionCode);
      if entity.None? {
        if row.sessionTitle.None? {
          return false, None;
        }
        var s := AddSession(row.sessionCode, row.sessionTitle.value, row.starts);
        entity := Some(s);
      }
      tables.presentations := tables.presentations[p := tables.presentations[p].(session := entity)];
      tables.links := tables.links + {(p, entity.value)};
      return true, entity;
    }

    ghost function Sofar(changed: bool): Progress
      reads this, tables
    {
      Progress(tables.View(), rows, committed, rejected, changed)
    }

    /** One row of the commit loop; ok is false where the code raises. */
    method CommitOne(i: nat, changed: bool) returns (ok: bool, nowChanged: bool)
      requires i < |rows| && Valid(tables.View())
      modifies this, tables
      ensures match StepRow(old(Sofar(changed)), i)
        case None => !ok
        case Some(s) => ok && Sofar(nowChanged) == s
      ensures status == old(status) && conflicts == old(conflicts) && revision == old(revision)
      ensures |rows| == |old(rows)|
    {
      hide Valid, CommitSession, CommitPresentation;
      var row := rows[i];
      nowChanged := changed;
      if row.committed {
        return true, changed;
      }
      if Refusing(row) {
        rejected := rejected + 1;
        rows := rows[i := row.(committed := true)];
        return true, changed;
      }
      var entity: Option<Id> := None;
      match row.kind {
        case PersonRow | ParticipantRow =>
          if !row.personOk {
            return false, changed;
          }
          nowChanged := true;
        case SessionRow =>
          var s := CommitSessionRow(row);
          entity, nowChanged := Some(s), true;
        case PresentationRow =>
          var good;
          good, entity := CommitPresentationRow(row);
          if !good {
            return false, changed;
          }
          nowChanged := true;
        case OtherRow =>
      }
      rows := rows[i := row.(committed := true, entity := entity)];
      committed := committed + 1;
      return true, nowChanged;
    }

    method CommitRows(order: seq<nat>) returns (ok: bool, changed: bool)
      requires Valid(tables.View()) && forall k :: 0 <= k < |order| ==> order[k] < |rows|
      modifies this, tables
      ensures match StepRows(old(Sofar(false)), order)
        case None => !ok
        case Some(s) => ok && Sofar(changed) == s && Valid(s.program)
      ensures status == old(status) && conflicts == old(conflicts) && revision == old(revision)
    {
      hide Valid, StepRow;
      ghost var start := Sofar(false);
      ok, changed := true, false;
      var k := 0;
      while ok && k < |order|
        invariant 0 <= k <= |order| && |rows| == |old(rows)|
        invariant if ok then StepRows(start, order[..k]) == Some(Sofar(changed)) else StepRows(start, order[..k]).None?
        invariant ok ==> Valid(tables.View())
        invariant status == old(status) && conflicts == old(conflicts) && revision == old(revision)
      {
        assert order[..k + 1][..k] == order[..k];
        StepRowKeeps(Sofar(changed), order[k]);
        ok, changed := CommitOne(order[k], changed);
        k := k + 1;
      }
      if ok {
        assert order[..k] == order;
      } else {
        DeadPrefix(start, order, k);
      }
    }

    method CommitBatch() returns (ok: bool)
      requires BatchOk(View().batch) && Valid(tables.View())
      modifies this, tables
      ensures ok <==> Commit(old(View())).Some?
      ensures View() == Next(old(View()), CommitMove)
    {
      hide Valid, BatchOk, StepRows, SettleSessions, Order;
      if status == CommittedStatus {
        return true;
      }
      if reviewed != revision || exists i :: 0 <= i < |rows| && rows[i].validation == Faulty && !Refusing(rows[i]) {
        assert reviewed != revision || exists i :: 0 <= i < |rows| && Unresolved(rows[i]);
        return false;
      }
      assert forall i :: 0 <= i < |rows| ==> !Unresolved(rows[i]);
      ghost var before := View();
      var savedRows, savedCommitted, savedRejected := rows, committed, rejected;
      var savedSessions, savedPresentations, savedLinks, savedNext := tables.sessions, tables.presentations, tables.links, tables.next;
      OrderInRange(rows);
      var changed;
      ok, changed := CommitRows(Order(rows));
      if ok {
        ok := MaterializeNamed();
      }
      if !ok {
        rows, committed, rejected := savedRows, savedCommitted, savedRejected;
        tables.sessions, tables.presentations, tables.links, tables.next := savedSessions, savedPresentations, savedLinks, savedNext;
        assert View() == before;
        return false;
      }
      if changed {
        revision := revision + 1;
      }
      status := CommittedStatus;
    }

    /** Give every session named by a committed row its presentation, then check that each has one. */
    method MaterializeNamed() returns (ok: bool)
      requires Valid(tables.View())
      modifies tables
      ensures match SettleSessions(old(tables.View()), rows)
        case None => !ok
        case Some(program) => ok && tables.View() == program
    {
      hide Valid, Repair, NamedSessions;
      if exists i :: 0 <= i < |rows| && rows[i].entity.Some? && rows[i].entity.value !in tables.sessions {
        return false;
      }
      NamedAreThere(rows, tables.View());
      tables.RepairEvent(NamedSessions(rows));
      ok := forall i :: 0 <= i < |rows| && rows[i].entity.Some? && !Refusing(rows[i]) ==>
        exists p :: p in tables.presentations && tables.presentations[p].session == rows[i].entity;
      CoveredMeans(tables.View(), rows);
    }
  }

  lemma GrownIsValid(t: Program, t': Program)
    requires Grown(t, t')
    ensures Valid(t') && CodesUnique(t')
  {}

  lemma CoveredMeans(t: Program, rows: seq<Row>)
    ensures (forall i :: 0 <= i < |rows| ==> Covered(t, rows[i])) <==>
            (forall i :: 0 <= i < |rows| && rows[i].entity.Some? && !Refusing(rows[i]) ==>
               exists p :: p in t.presentations && t.presentations[p].session == rows[i].entity)
  {}

  lemma StepRowKeeps(s: Progress, i: nat)
    requires i < |s.rows| && Valid(s.program)
    ensures StepRow(s, i).Some? ==> Valid(StepRow(s, i).value.program)
  {
    hide Valid, CommitRow;
    if !s.rows[i].committed && !Refusing(s.rows[i]) && CommitRow(s.program, s.rows[i]).Some? {
      CommitRowKeeps(s.program, s.rows[i]);
    }
  }

  lemma {:induction false} DeadPrefix(s: Progress, places: seq<nat>, k: nat)
    requires k <= |places| && (forall j :: 0 <= j < |places| ==> places[j] < |s.rows|) && StepRows(s, places[..k]).None?
    ensures StepRows(s, places).None?
    decreases |places| - k
  {
    if k == |places| {
      assert places[..k] == places;
    } else {
      assert places[..k + 1][..k] == places[..k];
      DeadPrefix(s, places, k + 1);
    }
  }
}
