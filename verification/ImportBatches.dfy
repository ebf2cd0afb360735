/**
 A program import under review: decisions on its rows, the counters kept beside them, and the
 commit that applies every row to the program in one transaction.
 */
module ImportBatches {
  import opened Wrappers
  import opened Materialization

  datatype Kind = PersonRow | ParticipantRow | SessionRow | PresentationRow | OtherRow

  datatype Validation = Fine | Warned | Faulty

  datatype Action = AcceptMatch | ChoosePerson | CreatePerson | CorrectValues | Ignore | Reject

  /** personOk: the person a roster row resolves to still exists and is unchanged since review. */
  datatype Row = Row(kind: Kind, validation: Validation, conflict: bool, resolution: Option<Action>, committed: bool,
                     sessionCode: Option<nat>, sessionTitle: Option<nat>, code: Option<nat>, title: nat, starts: nat,
                     personOk: bool, entity: Option<Id>)

  datatype Status = Review | Ready | CommittedStatus

  datatype Batch = Batch(rows: seq<Row>, status: Status, conflicts: nat, committed: nat, rejected: nat, reviewed: nat)

  datatype World = World(batch: Batch, program: Program, revision: nat)

  predicate Refusing(row: Row) {
    row.resolution == Some(Ignore) || row.resolution == Some(Reject)
  }

  // ---------------------------------------------------------------- counting

  function ConflictsIn(rows: seq<Row>): nat
    decreases |rows|
  {
    if rows == [] then 0 else ConflictsIn(rows[..|rows| - 1]) + if rows[|rows| - 1].conflict then 1 else 0
  }

  lemma {:induction false} ConflictsAfterUpdate(rows: seq<Row>, i: nat, row: Row)
    requires i < |rows| && !row.conflict
    ensures ConflictsIn(rows[i := row]) == ConflictsIn(rows) - if rows[i].conflict then 1 else 0
    decreases |rows|
  {
    var n := |rows| - 1;
    if i < n {
      assert rows[i := row][..n] == rows[..n][i := row];
      ConflictsAfterUpdate(rows[..n], i, row);
    } else {
      assert rows[i := row][..n] == rows[..n];
    }
  }

  lemma {:induction false} NoConflicts(rows: seq<Row>)
    ensures ConflictsIn(rows) == 0 <==> forall i :: 0 <= i < |rows| ==> !rows[i].conflict
    decreases |rows|
  {
    if rows != [] {
      NoConflicts(rows[..|rows| - 1]);
    }
  }

  // ---------------------------------------------------------------- review

  /** How a batch starts: what is in conflict is faulty, and the counters are taken from the rows. */
  ghost predicate Created(b: Batch) {
    && (forall i :: 0 <= i < |b.rows| ==>
          !b.rows[i].committed && b.rows[i].entity.None? && b.rows[i].resolution.None? && (b.rows[i].conflict ==> b.rows[i].validation == Faulty))
    && b.conflicts == ConflictsIn(b.rows) && b.committed == b.rejected == 0
    && b.status == (if exists i :: 0 <= i < |b.rows| && b.rows[i].validation == Faulty then Review else Ready)
  }

  /** None is the refusal of a decision on a committed row, or without an active person. */
  function Decide(b: Batch, i: nat, action: Action, personActive: bool): Option<Batch>
    requires i < |b.rows|
  {
    var row := b.rows[i];
    if row.committed || ((action == AcceptMatch || action == ChoosePerson) && !personActive) then None
    else
      var conflicts := if row.conflict then (if b.conflicts == 0 then 0 else b.conflicts - 1) else b.conflicts;
      Some(b.(rows := b.rows[i := row.(resolution := Some(action), conflict := false, validation := Fine)],
              conflicts := conflicts, status := if conflicts == 0 then Ready else b.status))
  }

  ghost predicate BatchOk(b: Batch) {
    && b.conflicts == ConflictsIn(b.rows)
    && (forall i :: 0 <= i < |b.rows| && b.rows[i].conflict ==> b.rows[i].validation == Faulty && b.rows[i].resolution.None?)
    && (forall i :: 0 <= i < |b.rows| ==> (b.rows[i].committed <==> b.status == CommittedStatus))
    && (b.status != CommittedStatus ==> forall i :: 0 <= i < |b.rows| ==> b.rows[i].entity.None?)
    && (if b.status == CommittedStatus then b.committed + b.rejected == |b.rows| else b.committed == b.rejected == 0)
  }

  lemma CreatedIsOk(b: Batch)
    requires Created(b)
    ensures BatchOk(b)
  {}

  /** A decision keeps the conflict counter exact; the clamp at zero is never what makes it so. */
  lemma DecideKeepsOk(b: Batch, i: nat, action: Action, personActive: bool)
    requires BatchOk(b) && i < |b.rows| && Decide(b, i, action, personActive).Some?
    ensures var b' := Decide(b, i, action, personActive).value;
      && BatchOk(b') && b.status != CommittedStatus
      && (b.rows[i].conflict ==> b.conflicts > 0 && b'.conflicts == b.conflicts - 1)
      && (b'.conflicts == 0 ==> b'.status == Ready)
  {
    var row := b.rows[i].(resolution := Some(action), conflict := false, validation := Fine);
    ConflictsAfterUpdate(b.rows, i, row);
    if b.rows[i].conflict { NoConflicts(b.rows); }
  }

  /** When a decision is accepted, and what it leaves: that action on that row, no other row changed. */
  lemma DecideExactly(b: Batch, i: nat, action: Action, personActive: bool)
    requires i < |b.rows|
    ensures Decide(b, i, action, personActive).Some? <==>
      !b.rows[i].committed && (action == AcceptMatch || action == ChoosePerson ==> personActive)
    ensures Decide(b, i, action, personActive).Some? ==>
      var b' := Decide(b, i, action, personActive).value;
      && b' == b.(rows := b'.rows, conflicts := b'.conflicts, status := b'.status) && |b'.rows| == |b.rows|
      && (forall j :: 0 <= j < |b.rows| && j != i ==> b'.rows[j] == b.rows[j])
      && b'.rows[i].resolution == Some(action) && !b'.rows[i].conflict && b'.rows[i].validation == Fine
      && b'.rows[i] == b.rows[i].(resolution := b'.rows[i].resolution, conflict := b'.rows[i].conflict, validation := b'.rows[i].validation)
      && b'.status == (if b'.conflicts == 0 then Ready else b.status)
  {}

  // ---------------------------------------------------------------- committing rows

  ghost function SessionWithCode(t: Program, code: Option<nat>): (bearer: Option<Id>)
    ensures bearer.Some? ==> code.Some? && bearer.value in t.sessions && t.sessions[bearer.value].code == code
  {
    if code.Some? && exists s :: s in t.sessions && t.sessions[s].code == code
    then var s :| s in t.sessions && t.sessions[s].code == code; Some(s) else None
  }

  function NewSession(t: Program, code: Option<nat>, title: nat, starts: nat): (Program, Id) {
    (t.(sessions := t.sessions[t.next := Session(code, title, starts, true)], next := t.next + 1), t.next)
  }

  ghost function CommitSession(t: Program, row: Row): (Program, Id) {
    var found := SessionWithCode(t, row.sessionCode);
    if found.None? then NewSession(t, row.sessionCode, row.title, row.starts)
    else (t.(sessions := t.sessions[found.value := t.sessions[found.value].(title := row.title, starts := row.starts)]), found.value)
  }

  ghost function CommitItem(t: Program, row: Row): (Program, Id) {
    var found := WithCode(t, row.code);
    if found.None? then
      (t.(presentations := t.presentations[t.next := Presentation(None, row.code, row.title, row.starts, false)], next := t.next + 1), t.next)
    else
      (t.(presentations := t.presentations[found.value := t.presentations[found.value].(title := row.title, scheduled := row.starts)]), found.value)
  }

  function Attach(t: Program, p: Id, s: Id): Program {
    if p !in t.presentations then t
    else t.(presentations := t.presentations[p := t.presentations[p].(session := Some(s))], links := t.links + {(p, s)})
  }

  /** A presentation row and the session it names; None when that session cannot be resolved. */
  ghost function CommitPresentation(t: Program, row: Row): Option<(Program, Option<Id>)> {
    var (t1, p) := CommitItem(t, row);
    if row.sessionCode.None? then Some((t1, None))
    else
      var found := SessionWithCode(t1, row.sessionCode);
      if found.Some? then Some((Attach(t1, p, found.value), found))
      else if row.sessionTitle.None? then None
      else
        var (t2, s) := NewSession(t1, row.sessionCode, row.sessionTitle.value, row.starts);
        Some((Attach(t2, p, s), Some(s)))
  }

  /** The program after one row, and the session the row committed to. */
  ghost function CommitRow(t: Program, row: Row): Option<(Program, Option<Id>)> {
    match row.kind
    case PersonRow | ParticipantRow => if row.personOk then Some((t, None)) else None
    case SessionRow => var (t', s) := CommitSession(t, row); Some((t', Some(s)))
    case PresentationRow => CommitPresentation(t, row)
    case OtherRow => Some((t, None))
  }

  predicate Changes(row: Row) { !Refusing(row) && row.kind != OtherRow }

  /** A session row: the session with its code takes over title and time, or a new imported session is made of it. */
  lemma CommitSessionExactly(t: Program, row: Row)
    requires Valid(t)
    ensures var (t', s) := CommitSession(t, row);
      var found := row.sessionCode.Some? && exists r :: r in t.sessions && t.sessions[r].code == row.sessionCode;
      && t' == t.(sessions := t'.sessions, next := t'.next) && s in t'.sessions
      && (forall r :: r != s ==> (r in t'.sessions <==> r in t.sessions) && (r in t.sessions ==> t'.sessions[r] == t.sessions[r]))
      && t'.sessions[s].code == row.sessionCode && t'.sessions[s].title == row.title && t'.sessions[s].starts == row.starts
      && if found then s in t.sessions && t'.sessions[s].imported == t.sessions[s].imported && t'.next == t.next
         else s !in t.sessions && t'.sessions[s].imported && t'.next == t.next + 1
  {}

  /** A presentation row: the presentation with its code takes over title and time, or a new one, linked to nothing, is made of it. */
  lemma CommitItemExactly(t: Program, row: Row)
    requires Valid(t)
    ensures var (t', p) := CommitItem(t, row);
      var found := row.code.Some? && exists q :: q in t.presentations && t.presentations[q].code == row.code;
      && t' == t.(presentations := t'.presentations, next := t'.next) && p in t'.presentations
      && (forall q :: q != p ==> (q in t'.presentations <==> q in t.presentations) && (q in t.presentations ==> t'.presentations[q] == t.presentations[q]))
      && t'.presentations[p].code == row.code && t'.presentations[p].title == row.title && t'.presentations[p].scheduled == row.starts
      && if found then
           p in t.presentations && t'.next == t.next
           && t'.presentations[p].session == t.presentations[p].session && t'.presentations[p].materialized == t.presentations[p].materialized
         else
           p !in t.presentations && t'.next == t.next + 1 && t'.presentations[p].session.None? && !t'.presentations[p].materialized
  {}

  /** And it goes to the session it names: the one with that code, or a new one if the row has a title for it; without one it fails. */
  lemma CommitPresentationExactly(t: Program, row: Row)
    requires Valid(t)
    ensures var known := exists r :: r in t.sessions && t.sessions[r].code == row.sessionCode;
      && (CommitPresentation(t, row).None? <==> row.sessionCode.Some? && !known && row.sessionTitle.None?)
      && (CommitPresentation(t, row).Some? ==>
            var ((t1, p), (t', entity)) := (CommitItem(t, row), CommitPresentation(t, row).value);
            && (row.sessionCode.None? ==> t' == t1 && entity.None?)
            && (row.sessionCode.Some? ==>
                  && entity.Some? && entity.value in t'.sessions && t'.sessions[entity.value].code == row.sessionCode
                  && (known ==> t'.sessions == t.sessions)
                  && (!known ==>
                        && entity.value !in t.sessions && t'.sessions == t.sessions[entity.value := t'.sessions[entity.value]]
                        && Some(t'.sessions[entity.value].title) == row.sessionTitle && t'.sessions[entity.value].starts == row.starts
                        && t'.sessions[entity.value].imported)
                  && p in t1.presentations && t'.presentations == t1.presentations[p := t1.presentations[p].(session := entity)]
                  && t'.links == t.links + {(p, entity.value)}))
  {
    hide CommitItem, CodesUnique;
    CommitItemExactly(t, row);
    CommitItemKeeps(t, row);
  }

  /** What a row does by its kind: roster rows fail without their person and leave sessions and presentations alone. */
  lemma CommitRowByKind(t: Program, row: Row)
    ensures row.kind == PersonRow || row.kind == ParticipantRow ==> CommitRow(t, row) == if row.personOk then Some((t, None)) else None
    ensures row.kind == SessionRow ==> CommitRow(t, row) == Some((CommitSession(t, row).0, Some(CommitSession(t, row).1)))
    ensures row.kind == PresentationRow ==> CommitRow(t, row) == CommitPresentation(t, row)
    ensures row.kind == OtherRow ==> CommitRow(t, row) == Some((t, None))
  {}

  // ---------------------------------------------------------------- order of rows

  function Priority(kind: Kind): nat {
    match kind
    case PersonRow | ParticipantRow => 0
    case SessionRow => 1
    case PresentationRow => 2
    case OtherRow => 3
  }

  /** Rows of one priority, in file order. */
  function Places(rows: seq<Row>, priority: nat, n: nat): seq<nat>
    requires n <= |rows|
  {
    if n == 0 then [] else Places(rows, priority, n - 1) + if Priority(rows[n - 1].kind) == priority then [n - 1] else []
  }

  function Order(rows: seq<Row>): seq<nat> {
    Places(rows, 0, |rows|) + Places(rows, 1, |rows|) + Places(rows, 2, |rows|) + Places(rows, 3, |rows|)
  }

  predicate Distinct(s: seq<nat>) {
    forall j, k :: 0 <= j < k < |s| ==> s[j] != s[k]
  }

  lemma DistinctConcat(a: seq<nat>, b: seq<nat>)
    requires Distinct(a) && Distinct(b) && forall i: nat :: i in a ==> i !in b
    ensures Distinct(a + b)
  {
    forall j, k | 0 <= j < k < |a + b|
      ensures (a + b)[j] != (a + b)[k]
    {
      if j < |a| <= k { assert a[j] in a && b[k - |a|] in b; }
    }
  }

  lemma {:induction false} PlacesFacts(rows: seq<Row>, priority: nat, n: nat)
    requires n <= |rows|
    ensures forall i: nat :: i in Places(rows, priority, n) <==> i < n && Priority(rows[i].kind) == priority
    ensures Distinct(Places(rows, priority, n))
    decreases n
  {
    if n > 0 {
      PlacesFacts(rows, priority, n - 1);
      if Priority(rows[n - 1].kind) == priority { DistinctConcat(Places(rows, priority, n - 1), [n - 1]); }
    }
  }

  /** Every row is processed exactly once. */
  lemma OrderIsPermutation(rows: seq<Row>)
    ensures (forall i: nat :: i in Order(rows) <==> i < |rows|) && Distinct(Order(rows))
  {
    var n := |rows|;
    PlacesFacts(rows, 0, n);
    PlacesFacts(rows, 1, n);
    PlacesFacts(rows, 2, n);
    PlacesFacts(rows, 3, n);
    var first, second := Places(rows, 0, n) + Places(rows, 1, n), Places(rows, 2, n);
    DistinctConcat(Places(rows, 0, n), Places(rows, 1, n));
    DistinctConcat(first, second);
    DistinctConcat(first + second, Places(rows, 3, n));
    forall i: nat
      ensures i in Order(rows) <==> i < |rows|
    {
      if i < |rows| { assert i in Places(rows, Priority(rows[i].kind), |rows|); }
    }
  }

  lemma OrderInRange(rows: seq<Row>)
    ensures forall k :: 0 <= k < |Order(rows)| ==> Order(rows)[k] < |rows|
  {
    OrderIsPermutation(rows);
    forall k | 0 <= k < |Order(rows)|
      ensures Order(rows)[k] < |rows|
    {
      assert Order(rows)[k] in Order(rows);
    }
  }

  lemma {:induction false} PlacesInOrder(rows: seq<Row>, priority: nat, n: nat)
    requires n <= |rows|
    ensures forall j, k :: 0 <= j < k < |Places(rows, priority, n)| ==> Places(rows, priority, n)[j] < Places(rows, priority, n)[k]
    ensures forall j :: 0 <= j < |Places(rows, priority, n)| ==>
              Places(rows, priority, n)[j] < n && Priority(rows[Places(rows, priority, n)[j]].kind) == priority
    decreases n
  {
    if n > 0 { PlacesInOrder(rows, priority, n - 1); }
  }

  predicate RosterKind(kind: Kind) { kind == PersonRow || kind == ParticipantRow }

  /** People come before sessions, sessions before presentations, those before the rest, and equals in file order. */
  predicate Precedes(rows: seq<Row>, i: nat, j: nat)
    requires i < |rows| && j < |rows|
  {
    var a, b := rows[i].kind, rows[j].kind;
    || (RosterKind(a) && !RosterKind(b))
    || (a == SessionRow && (b == PresentationRow || b == OtherRow))
    || (a == PresentationRow && b == OtherRow)
    || ((a == b || (RosterKind(a) && RosterKind(b))) && i < j)
  }

  lemma OrderIsSorted(rows: seq<Row>, j: nat, k: nat)
    requires j < k < |Order(rows)|
    ensures Order(rows)[j] < |rows| && Order(rows)[k] < |rows| && Precedes(rows, Order(rows)[j], Order(rows)[k])
  {
    var n := |rows|;
    PlacesInOrder(rows, 0, n);
    PlacesInOrder(rows, 1, n);
    PlacesInOrder(rows, 2, n);
    PlacesInOrder(rows, 3, n);
  }

  // ---------------------------------------------------------------- the commit

  /** What the loop over rows has done so far. */
  datatype Progress = Progress(program: Program, rows: seq<Row>, committed: nat, rejected: nat, changed: bool)

  ghost function StepRow(s: Progress, i: nat): Option<Progress>
    requires i < |s.rows|
    ensures StepRow(s, i).Some? ==> |StepRow(s, i).value.rows| == |s.rows|
  {
    var row := s.rows[i];
    if row.committed then Some(s)
    else if Refusing(row) then Some(s.(rows := s.rows[i := row.(committed := true)], rejected := s.rejected + 1))
    else
      match CommitRow(s.program, row)
      case None => None
      case Some((program, entity)) =>
        Some(Progress(program, s.rows[i := row.(committed := true, entity := entity)], s.committed + 1, s.rejected,
                      s.changed || row.kind != OtherRow))
  }

  ghost function StepRows(s: Progress, places: seq<nat>): Option<Progress>
    requires forall k :: 0 <= k < |places| ==> places[k] < |s.rows|
    ensures StepRows(s, places).Some? ==> |StepRows(s, places).value.rows| == |s.rows|
    decreases |places|
  {
    if places == [] then Some(s)
    else match StepRows(s, places[..|places| - 1])
      case None => None
      case Some(before) => StepRow(before, places[|places| - 1])
  }

  /** The sessions that committed rows name, each once, in the order they are first named. */
  function NamedSessions(rows: seq<Row>): seq<Id>
    decreases |rows|
  {
    if rows == [] then [] else
      var before, entity := NamedSessions(rows[..|rows| - 1]), rows[|rows| - 1].entity;
      if entity.Some? && entity.value !in before then before + [entity.value] else before
  }

  /** Each session that some row committed to, once. */
  lemma {:induction false} NamedExactly(rows: seq<Row>, s: Id)
    ensures s in NamedSessions(rows) <==> exists i :: 0 <= i < |rows| && rows[i].entity == Some(s)
    ensures forall j, k :: 0 <= j < k < |NamedSessions(rows)| ==> NamedSessions(rows)[j] != NamedSessions(rows)[k]
    decreases |rows|
  {
    if rows != [] {
      var init, n := rows[..|rows| - 1], |rows| - 1;
      NamedExactly(init, s);
      assert forall i :: 0 <= i < n ==> rows[i] == init[i];
      if exists i :: 0 <= i < |init| && init[i].entity == Some(s) {
        var i :| 0 <= i < |init| && init[i].entity == Some(s);
        assert rows[i].entity == Some(s);
      }
    }
  }

  predicate Covered(t: Program, row: Row) {
    row.entity.Some? && !Refusing(row) ==> Has(t, row.entity.value)
  }

  ghost predicate Unresolved(row: Row) { row.validation == Faulty && !Refusing(row) }

  /** Every session the rows name gets its presentation; None if one is missing before or bare after. */
  ghost function SettleSessions(t: Program, rows: seq<Row>): Option<Program> {
    if exists i :: 0 <= i < |rows| && rows[i].entity.Some? && rows[i].entity.value !in t.sessions then None
    else
      NamedAreThere(rows, t);
      var program := Repair(t, NamedSessions(rows));
      if exists i :: 0 <= i < |rows| && !Covered(program, rows[i]) then None else Some(program)
  }

  /** None is any refusal or failure; the transaction then leaves the world as it was. */
  ghost function Commit(w: World): Option<World> {
    var b := w.batch;
    if b.status == CommittedStatus then Some(w)
    else if b.reviewed != w.revision || exists i :: 0 <= i < |b.rows| && Unresolved(b.rows[i]) then None
    else
      OrderInRange(b.rows);
      match StepRows(Progress(w.program, b.rows, b.committed, b.rejected, false), Order(b.rows))
      case None => None
      case Some(s) =>
        match SettleSessions(s.program, s.rows)
        case None => None
        case Some(program) =>
          Some(World(Batch(s.rows, CommittedStatus, b.conflicts, s.committed, s.rejected, b.reviewed), program,
                          if s.changed then w.revision + 1 else w.revision))
  }

  lemma {:induction false} NamedAreThere(rows: seq<Row>, t: Program)
    requires forall i :: 0 <= i < |rows| && rows[i].entity.Some? ==> rows[i].entity.value in t.sessions
    ensures forall i :: 0 <= i < |NamedSessions(rows)| ==> NamedSessions(rows)[i] in t.sessions
    decreases |rows|
  {
    if rows != [] {
      NamedAreThere(rows[..|rows| - 1], t);
    }
  }

  // ---------------------------------------------------------------- what a commit guarantees

  function RefusedOf(rows: seq<Row>, places: seq<nat>): set<nat> {
    set i | i in places && i < |rows| && Refusing(rows[i])
  }

  /** The loop's state after these places, in terms of the rows it started from. */
  ghost predicate After(start: Progress, s: Progress, places: seq<nat>) {
    && |s.rows| == |start.rows| && Valid(s.program)
    && (forall i: nat :: i < |s.rows| ==> SameButCommitted(start.rows[i], s.rows[i], i in places))
    && s.committed + s.rejected == start.committed + start.rejected + |places|
    && s.rejected == start.rejected + |RefusedOf(start.rows, places)|
    && (s.changed <==> start.changed || exists i: nat :: i < |start.rows| && i in places && Changes(start.rows[i]))
    && (forall i: nat :: i < |s.rows| && s.rows[i].entity.Some? ==> s.rows[i].entity.value in s.program.sessions)
  }

  ghost predicate SameButCommitted(before: Row, after: Row, done: bool) {
    after == before.(committed := done, entity := after.entity) && (!done || Refusing(before) ==> after.entity == before.entity)
  }

  /** Nothing is taken away, and the constraints hold. */
  ghost predicate Grown(t: Program, t': Program) {
    Valid(t') && (forall s :: s in t.sessions ==> s in t'.sessions) && (forall p :: p in t.presentations ==> p in t'.presentations)
  }

  lemma NewSessionKeeps(t: Program, code: Option<nat>, title: nat, starts: nat)
    requires Valid(t) && SessionWithCode(t, code).None?
    ensures Grown(t, NewSession(t, code, title, starts).0) && NewSession(t, code, title, starts).1 in NewSession(t, code, title, starts).0.sessions
  {}

  lemma CommitSessionKeeps(t: Program, row: Row)
    requires Valid(t)
    ensures Grown(t, CommitSession(t, row).0) && CommitSession(t, row).1 in CommitSession(t, row).0.sessions
  {}

  lemma CommitItemKeeps(t: Program, row: Row)
    requires Valid(t)
    ensures Grown(t, CommitItem(t, row).0) && CommitItem(t, row).1 in CommitItem(t, row).0.presentations
    ensures CommitItem(t, row).0.sessions == t.sessions
  {}

  lemma AttachKeeps(t: Program, p: Id, s: Id)
    requires Valid(t)
    ensures Grown(t, Attach(t, p, s)) && Attach(t, p, s).sessions == t.sessions
  {}

  lemma CommitPresentationKeeps(t: Program, row: Row)
    requires Valid(t) && CommitPresentation(t, row).Some?
    ensures var (t', entity) := CommitPresentation(t, row).value;
      Grown(t, t') && (entity.Some? ==> entity.value in t'.sessions)
  {
    hide Valid, CommitItem, SessionWithCode, NewSession, Attach;
    CommitItemKeeps(t, row);
    var (t1, p) := CommitItem(t, row);
    if row.sessionCode.Some? {
      var found := SessionWithCode(t1, row.sessionCode);
      if found.Some? {
        AttachKeeps(t1, p, found.value);
      } else if row.sessionTitle.Some? {
        NewSessionKeeps(t1, row.sessionCode, row.sessionTitle.value, row.starts);
        var (t2, s) := NewSession(t1, row.sessionCode, row.sessionTitle.value, row.starts);
        AttachKeeps(t2, p, s);
      }
    }
  }

  lemma CommitRowKeeps(t: Program, row: Row)
    requires Valid(t) && CommitRow(t, row).Some?
    ensures var (t', entity) := CommitRow(t, row).value;
      Grown(t, t') && (entity.Some? ==> entity.value in t'.sessions)
  {
    hide Valid, CommitSession, CommitPresentation;
    match row.kind
    case SessionRow => CommitSessionKeeps(t, row);
    case PresentationRow => CommitPresentationKeeps(t, row);
    case _ =>
  }

  lemma RefusedOneMore(rows: seq<Row>, places: seq<nat>, i: nat)
    requires i < |rows| && i !in places
    ensures |RefusedOf(rows, places + [i])| == |RefusedOf(rows, places)| + if Refusing(rows[i]) then 1 else 0
  {
    assert RefusedOf(rows, places + [i]) == RefusedOf(rows, places) + if Refusing(rows[i]) then {i} else {};
  }

  lemma StepRowAdvances(start: Progress, s: Progress, places: seq<nat>, i: nat)
    requires After(start, s, places) && i < |s.rows| && i !in places && !start.rows[i].committed && StepRow(s, i).Some?
    ensures After(start, StepRow(s, i).value, places + [i])
  {
    hide Valid, CommitRow, RefusedOf;
    var row, s' := s.rows[i], StepRow(s, i).value;
    assert SameButCommitted(start.rows[i], row, false);
    if !Refusing(row) { CommitRowKeeps(s.program, row); }
    forall j: nat | j < |s'.rows|
      ensures SameButCommitted(start.rows[j], s'.rows[j], j in places + [i])
    {
      assert SameButCommitted(start.rows[j], s.rows[j], j in places);
    }
    assert forall j: nat :: j in places + [i] <==> j in places || j == i;
    RefusedOneMore(start.rows, places, i);
  }

  lemma {:induction false} StepRowsAdvance(start: Progress, places: seq<nat>)
    requires Valid(start.program) && Distinct(places) && forall k :: 0 <= k < |places| ==> places[k] < |start.rows|
    requires forall i: nat :: i < |start.rows| ==> !start.rows[i].committed && start.rows[i].entity.None?
    requires StepRows(start, places).Some?
    ensures After(start, StepRows(start, places).value, places)
    decreases |places|
  {
    if places != [] {
      var init, i := places[..|places| - 1], places[|places| - 1];
      StepRowsAdvance(start, init);
      assert i !in init;
      StepRowAdvances(start, StepRows(start, init).value, init, i);
      assert init + [i] == places;
    }
  }

  lemma PermutationLength(rows: seq<Row>)
    ensures |Order(rows)| == |rows|
  {
    PlacesLength(rows, |rows|);
  }

  lemma {:induction false} PlacesLength(rows: seq<Row>, n: nat)
    requires n <= |rows|
    ensures |Places(rows, 0, n)| + |Places(rows, 1, n)| + |Places(rows, 2, n)| + |Places(rows, 3, n)| == n
    decreases n
  {
    if n > 0 {
      PlacesLength(rows, n - 1);
    }
  }

  lemma RepairedIsValid(t: Program, rows: seq<Row>)
    requires Valid(t) && forall i :: 0 <= i < |rows| && rows[i].entity.Some? ==> rows[i].entity.value in t.sessions
    ensures forall i :: 0 <= i < |NamedSessions(rows)| ==> NamedSessions(rows)[i] in t.sessions
    ensures Valid(Repair(t, NamedSessions(rows)))
  {
    NamedAreThere(rows, t);
    RepairKeepsValid(t, NamedSessions(rows));
  }

  function RefusedRows(rows: seq<Row>): set<nat> {
    set i | 0 <= i < |rows| && Refusing(rows[i])
  }

  /**
   A commit that succeeds marks every row, accounts for each as committed or rejected, raises the
   Event's revision once if a row touched the program and not otherwise, leaves every session a row
   committed to with a presentation, and cannot be repeated.
   */
  lemma CommitGuarantees(w: World)
    requires BatchOk(w.batch) && Valid(w.program) && w.batch.status != CommittedStatus && Commit(w).Some?
    ensures var w' := Commit(w).value;
      && BatchOk(w'.batch) && w'.batch.status == CommittedStatus && w'.batch.conflicts == 0
      && |w'.batch.rows| == |w.batch.rows| && w'.batch.committed + w'.batch.rejected == |w.batch.rows|
      && w'.batch.rejected == |RefusedRows(w.batch.rows)|
      && w'.revision == w.revision + (if exists i :: 0 <= i < |w.batch.rows| && Changes(w.batch.rows[i]) then 1 else 0)
      && Valid(w'.program)
      && (forall i :: 0 <= i < |w'.batch.rows| ==> w'.batch.rows[i].committed && Covered(w'.program, w'.batch.rows[i]))
      && Commit(w') == Some(w')
  {
    hide Valid, StepRows, Repair, NamedSessions, Covered, Order;
    var b, order := w.batch, Order(w.batch.rows);
    OrderIsPermutation(b.rows);
    OrderInRange(b.rows);
    PermutationLength(b.rows);
    var start := Progress(w.program, b.rows, b.committed, b.rejected, false);
    StepRowsAdvance(start, order);
    var s := StepRows(start, order).value;
    RepairedIsValid(s.program, s.rows);
    assert RefusedOf(b.rows, order) == RefusedRows(b.rows);
    forall i: nat | i < |s.rows|
      ensures s.rows[i].committed && s.rows[i].conflict == b.rows[i].conflict == false && s.rows[i].validation == b.rows[i].validation
    {
      assert SameButCommitted(b.rows[i], s.rows[i], i in order);
      assert !Unresolved(b.rows[i]);
    }
    NoConflicts(b.rows);
    NoConflicts(s.rows);
  }

  // ---------------------------------------------------------------- exactly when a commit goes through

  ghost predicate KnownCode(t: Program, code: nat) {
    exists s :: s in t.sessions && t.sessions[s].code == Some(code)
  }

  /** Committing the row leaves a session with this code. */
  predicate Makes(row: Row, code: nat) {
    row.resolution != Some(Ignore) && row.resolution != Some(Reject) && (row.kind == SessionRow || row.kind == PresentationRow)
    && row.sessionCode == Some(code)
  }

  /** One of the first k rows in this order makes a session with the code. */
  ghost predicate MadeBefore(rows: seq<Row>, places: seq<nat>, k: nat, code: nat) {
    exists j: nat :: j < k && j < |places| && places[j] < |rows| && Makes(rows[places[j]], code)
  }

  /**
   The k-th row in this order can be applied: it is refused, or its person is still the one reviewed and
   the session it names is there, made by an earlier row, or described well enough to be made.
   */
  ghost predicate Applies(t: Program, rows: seq<Row>, places: seq<nat>, k: nat)
    requires k < |places| && places[k] < |rows|
  {
    var row := rows[places[k]];
    || row.resolution == Some(Ignore) || row.resolution == Some(Reject)
    || (&& (RosterKind(row.kind) ==> row.personOk)
        && (row.kind == PresentationRow && row.sessionCode.Some? && row.sessionTitle.None? ==>
              KnownCode(t, row.sessionCode.value) || MadeBefore(rows, places, k, row.sessionCode.value)))
  }

  lemma RowApplies(t: Program, row: Row, code: nat)
    requires Valid(t) && !Refusing(row)
    ensures CommitRow(t, row).Some? <==>
      (RosterKind(row.kind) ==> row.personOk)
      && (row.kind == PresentationRow && row.sessionCode.Some? && row.sessionTitle.None? ==> KnownCode(t, row.sessionCode.value))
    ensures CommitRow(t, row).Some? ==> (KnownCode(CommitRow(t, row).value.0, code) <==> KnownCode(t, code) || Makes(row, code))
  {
    hide Valid;
    CommitRowByKind(t, row);
    match row.kind
    case SessionRow => CommitSessionExactly(t, row); SessionRowCodes(t, row, code);
    case PresentationRow =>
      CommitPresentationExactly(t, row);
      if CommitPresentation(t, row).Some? { PresentationRowCodes(t, row, code); }
    case _ =>
  }

  lemma SessionRowCodes(t: Program, row: Row, code: nat)
    requires Valid(t)
    ensures KnownCode(CommitSession(t, row).0, code) <==> KnownCode(t, code) || row.sessionCode == Some(code)
  {
    hide Valid, CommitSession;
    CommitSessionExactly(t, row);
    var (t', s) := CommitSession(t, row);
    if s in t.sessions { SameBearer(t, row, s); }
    if r :| r in t.sessions && t.sessions[r].code == Some(code) { assert r in t'.sessions && t'.sessions[r].code == Some(code); }
  }

  lemma SameBearer(t: Program, row: Row, s: Id)
    requires Valid(t) && s in t.sessions && CommitSession(t, row).1 == s
    ensures t.sessions[s].code == row.sessionCode
  {}

  lemma PresentationRowCodes(t: Program, row: Row, code: nat)
    requires Valid(t) && CommitPresentation(t, row).Some?
    ensures KnownCode(CommitPresentation(t, row).value.0, code) <==> KnownCode(t, code) || row.sessionCode == Some(code)
  {
    hide Valid, CommitPresentation, CommitItem;
    CommitPresentationExactly(t, row);
    CommitItemExactly(t, row);
    var (t', entity) := CommitPresentation(t, row).value;
    if r :| r in t.sessions && t.sessions[r].code == Some(code) { assert r in t'.sessions && t'.sessions[r].code == Some(code); }
    if r :| r in t'.sessions && t'.sessions[r].code == Some(code) {
      assert r in t.sessions || Some(r) == entity;
    }
  }

  lemma MadeOneMore(rows: seq<Row>, places: seq<nat>, code: nat)
    requires places != [] && forall j :: 0 <= j < |places| ==> places[j] < |rows|
    ensures var n := |places| - 1;
      && (MadeBefore(rows, places, n + 1, code) <==> MadeBefore(rows, places[..n], n, code) || Makes(rows[places[n]], code))
      && (MadeBefore(rows, places, n, code) <==> MadeBefore(rows, places[..n], n, code))
      && (forall k :: 0 <= k < n ==> (MadeBefore(rows, places, k, code) <==> MadeBefore(rows, places[..n], k, code)))
  {
    var n := |places| - 1;
    forall k: nat | k <= n
      ensures MadeBefore(rows, places, k, code) <==> MadeBefore(rows, places[..n], k, code)
    {
      assert forall j: nat :: j < k ==> places[j] == places[..n][j];
    }
  }

  lemma AppliesInPrefix(t: Program, rows: seq<Row>, places: seq<nat>, k: nat)
    requires k < |places| - 1 && forall j :: 0 <= j < |places| ==> places[j] < |rows|
    ensures Applies(t, rows, places, k) <==> Applies(t, rows, places[..|places| - 1], k)
  {
    if rows[places[k]].sessionCode.Some? { MadeOneMore(rows, places, rows[places[k]].sessionCode.value); }
  }

  /** The loop over rows goes through exactly if every row can be applied, read off the rows and the program before it. */
  lemma {:induction false} LoopExactly(start: Progress, places: seq<nat>, code: nat)
    requires Valid(start.program) && Distinct(places) && forall k :: 0 <= k < |places| ==> places[k] < |start.rows|
    requires forall i: nat :: i < |start.rows| ==> !start.rows[i].committed && start.rows[i].entity.None?
    ensures StepRows(start, places).Some? <==> forall k :: 0 <= k < |places| ==> Applies(start.program, start.rows, places, k)
    ensures StepRows(start, places).Some? ==>
      (KnownCode(StepRows(start, places).value.program, code) <==>
         KnownCode(start.program, code) || MadeBefore(start.rows, places, |places|, code))
    decreases |places|
  {
    hide Valid, CommitRow, KnownCode, MadeBefore, Makes, Applies;
    if places == [] {
      NoneMade(start.rows, code);
    } else {
      var n := |places| - 1;
      var init, i := places[..n], places[n];
      LoopExactly(start, init, code);
      forall k | 0 <= k < n
        ensures Applies(start.program, start.rows, places, k) <==> Applies(start.program, start.rows, init, k)
      {
        AppliesInPrefix(start.program, start.rows, places, k);
      }
      MadeOneMore(start.rows, places, code);
      if StepRows(start, init).Some? {
        LastRowExactly(start, places, code);
      }
    }
  }

  lemma NoneMade(rows: seq<Row>, code: nat)
    ensures !MadeBefore(rows, [], 0, code)
  {}

  /** The last row of the order, its predecessors having gone through. */
  lemma {:induction false} LastRowExactly(start: Progress, places: seq<nat>, code: nat)
    requires places != [] && Valid(start.program) && Distinct(places) && forall k :: 0 <= k < |places| ==> places[k] < |start.rows|
    requires forall i: nat :: i < |start.rows| ==> !start.rows[i].committed && start.rows[i].entity.None?
    requires StepRows(start, places[..|places| - 1]).Some?
    ensures var n, before := |places| - 1, StepRows(start, places[..|places| - 1]).value;
      && (StepRows(start, places).Some? <==> Applies(start.program, start.rows, places, n))
      && (StepRows(start, places).Some? ==>
            (KnownCode(StepRows(start, places).value.program, code) <==> KnownCode(before.program, code) || Makes(start.rows[places[n]], code)))
    decreases |places|, 0
  {
    hide Valid, CommitRow, KnownCode, MadeBefore, StepRows;
    var n, i := |places| - 1, places[|places| - 1];
    var init := places[..n];
    StepRowsAdvance(start, init);
    var before := StepRows(start, init).value;
    assert i !in init;
    LastStep(start, places);
    var row := before.rows[i];
    assert SameButCommitted(start.rows[i], row, false);
    if !Refusing(row) {
      RowApplies(before.program, row, code);
      if row.sessionCode.Some? {
        RowApplies(before.program, row, row.sessionCode.value);
        LoopExactly(start, init, row.sessionCode.value);
        MadeOneMore(start.rows, places, row.sessionCode.value);
      }
      SameRowSameEffect(before.program, start.rows[i], row);
    }
  }

  lemma LastStep(start: Progress, places: seq<nat>)
    requires places != [] && (forall k :: 0 <= k < |places| ==> places[k] < |start.rows|) && StepRows(start, places[..|places| - 1]).Some?
    ensures StepRows(start, places) == StepRow(StepRows(start, places[..|places| - 1]).value, places[|places| - 1])
  {}

  lemma SameRowSameEffect(t: Program, a: Row, b: Row)
    requires SameButCommitted(a, b, false)
    ensures a.kind == b.kind && a.sessionCode == b.sessionCode && a.sessionTitle == b.sessionTitle && a.personOk == b.personOk && a.resolution == b.resolution
  {}

  /** The closing check passes exactly if afterwards every session a row committed to has a presentation. */
  lemma SettleExactly(t: Program, rows: seq<Row>)
    requires Valid(t) && forall i :: 0 <= i < |rows| && rows[i].entity.Some? ==> rows[i].entity.value in t.sessions
    ensures forall i :: 0 <= i < |NamedSessions(rows)| ==> NamedSessions(rows)[i] in t.sessions
    ensures SettleSessions(t, rows).Some? <==>
      forall i :: 0 <= i < |rows| && rows[i].entity.Some? && rows[i].resolution != Some(Ignore) && rows[i].resolution != Some(Reject) ==>
        Has(Repair(t, NamedSessions(rows)), rows[i].entity.value)
    ensures SettleSessions(t, rows).Some? ==> SettleSessions(t, rows).value == Repair(t, NamedSessions(rows))
  {
    hide Repair, NamedSessions, Has;
    NamedAreThere(rows, t);
    assert forall i :: 0 <= i < |rows| ==> (Covered(Repair(t, NamedSessions(rows)), rows[i]) <==>
      (rows[i].entity.Some? && rows[i].resolution != Some(Ignore) && rows[i].resolution != Some(Reject) ==>
         Has(Repair(t, NamedSessions(rows)), rows[i].entity.value)));
  }

  /** And it does pass if the codes of those sessions agree with what is linked to them. */
  lemma SettleAgrees(t: Program, rows: seq<Row>)
    requires Valid(t) && forall i :: 0 <= i < |rows| && rows[i].entity.Some? ==> rows[i].entity.value in t.sessions && Agrees(t, rows[i].entity.value)
    ensures SettleSessions(t, rows).Some?
  {
    hide Valid, Repair, Agrees, InPlace;
    SettleExactly(t, rows);
    var named := NamedSessions(rows);
    forall s | s in named
      ensures Agrees(t, s) && exists i :: 0 <= i < |rows| && rows[i].entity == Some(s)
    {
      NamedExactly(rows, s);
    }
    RepairPutsAllInPlace(t, named, set s | s in named);
    forall i | 0 <= i < |rows| && rows[i].entity.Some?
      ensures Has(Repair(t, named), rows[i].entity.value)
    {
      NamedExactly(rows, rows[i].entity.value);
      var k :| 0 <= k < |named| && named[k] == rows[i].entity.value;
      InPlaceHas(Repair(t, named), named[k]);
    }
  }

  lemma InPlaceHas(t: Program, s: Id)
    requires s in t.sessions && InPlace(t, s)
    ensures Has(t, s)
  {}

  /**
   Exactly when a commit goes through: the program is the one reviewed, every faulty row was refused,
   every row can be applied in its turn, and the sessions named then end with their presentations.
   */
  lemma CommitExactly(w: World)
    requires BatchOk(w.batch) && Valid(w.program) && w.batch.status != CommittedStatus
    ensures var rows := w.batch.rows;
      && (forall k :: 0 <= k < |Order(rows)| ==> Order(rows)[k] < |rows|)
      && (Commit(w).Some? <==>
            && w.batch.reviewed == w.revision
            && (forall i :: 0 <= i < |rows| && rows[i].validation == Faulty ==> rows[i].resolution == Some(Ignore) || rows[i].resolution == Some(Reject))
            && (forall k :: 0 <= k < |Order(rows)| ==> Applies(w.program, rows, Order(rows), k))
            && var s := StepRows(Progress(w.program, rows, w.batch.committed, w.batch.rejected, false), Order(rows));
            s.Some? && SettleSessions(s.value.program, s.value.rows).Some?)
  {
    hide Valid, StepRows, SettleSessions, Order, Applies;
    var b := w.batch;
    OrderIsPermutation(b.rows);
    OrderInRange(b.rows);
    LoopExactly(Progress(w.program, b.rows, b.committed, b.rejected, false), Order(b.rows), 0);
    assert (exists i :: 0 <= i < |b.rows| && Unresolved(b.rows[i])) <==>
      !forall i :: 0 <= i < |b.rows| && b.rows[i].validation == Faulty ==> b.rows[i].resolution == Some(Ignore) || b.rows[i].resolution == Some(Reject);
  }

  // ---------------------------------------------------------------- what the rows are recorded to have become

  /** A row that was committed to a session is recorded with it, a session bearing the row's session code; any other row with none. */
  predicate CommittedTo(t: Program, row: Row, entity: Option<Id>) {
    if row.resolution != Some(Ignore) && row.resolution != Some(Reject)
       && (row.kind == SessionRow || (row.kind == PresentationRow && row.sessionCode.Some?))
    then entity.Some? && entity.value in t.sessions && t.sessions[entity.value].code == row.sessionCode
    else entity.None?
  }

  ghost predicate CodesStay(t: Program, t': Program) {
    forall s :: s in t.sessions ==> s in t'.sessions && t'.sessions[s].code == t.sessions[s].code
  }

  lemma RowCommitsTo(t: Program, row: Row)
    requires Valid(t) && CommitRow(t, row).Some? && !Refusing(row)
    ensures CodesStay(t, CommitRow(t, row).value.0) && CommittedTo(CommitRow(t, row).value.0, row, CommitRow(t, row).value.1)
  {
    hide Valid;
    CommitRowByKind(t, row);
    match row.kind
    case SessionRow =>
      CommitSessionExactly(t, row);
      var s := CommitSession(t, row).1;
      if s in t.sessions { SameBearer(t, row, s); }
    case PresentationRow =>
      CommitPresentationExactly(t, row);
      CommitItemKeeps(t, row);
    case _ =>
  }

  lemma {:induction false} LoopRecords(start: Progress, places: seq<nat>, i: nat)
    requires Valid(start.program) && Distinct(places) && forall k :: 0 <= k < |places| ==> places[k] < |start.rows|
    requires forall j: nat :: j < |start.rows| ==> !start.rows[j].committed && start.rows[j].entity.None?
    requires StepRows(start, places).Some? && i in places
    ensures i < |start.rows| && CommittedTo(StepRows(start, places).value.program, start.rows[i], StepRows(start, places).value.rows[i].entity)
    decreases |places|
  {
    hide Valid, CommitRow, CommittedTo;
    var n, init := |places| - 1, places[..|places| - 1];
    LastStep(start, places);
    StepRowsAdvance(start, init);
    var before, last := StepRows(start, init).value, places[n];
    assert last !in init && places == init + [last];
    var row := before.rows[last];
    assert SameButCommitted(start.rows[last], row, false);
    if !Refusing(row) { RowCommitsTo(before.program, row); }
    if i != last {
      LoopRecords(start, init, i);
      if !Refusing(row) { StaysCommitted(before.program, CommitRow(before.program, row).value.0, start.rows[i], before.rows[i].entity); }
    } else if Refusing(row) {
      RefusedIsNowhere(before.program, start.rows[i]);
    } else {
      SameRecord(StepRows(start, places).value.program, start.rows[i], row, StepRows(start, places).value.rows[i].entity);
    }
  }

  lemma StaysCommitted(t: Program, t': Program, row: Row, entity: Option<Id>)
    requires CommittedTo(t, row, entity) && CodesStay(t, t')
    ensures CommittedTo(t', row, entity)
  {}

  lemma RefusedIsNowhere(t: Program, row: Row)
    requires Refusing(row)
    ensures CommittedTo(t, row, None)
  {}

  lemma SameRecord(t: Program, a: Row, b: Row, entity: Option<Id>)
    requires SameButCommitted(a, b, false)
    ensures CommittedTo(t, a, entity) <==> CommittedTo(t, b, entity)
  {}

  /** After a commit every row is recorded with exactly the session it was committed to. */
  lemma RecordedExactly(w: World, i: nat)
    requires BatchOk(w.batch) && Valid(w.program) && w.batch.status != CommittedStatus && Commit(w).Some?
    requires i < |w.batch.rows|
    ensures var w' := Commit(w).value;
      && |w'.batch.rows| == |w.batch.rows| && CommittedTo(w'.program, w.batch.rows[i], w'.batch.rows[i].entity)
      && w'.batch.rows[i] == w.batch.rows[i].(committed := true, entity := w'.batch.rows[i].entity)
  {
    hide Valid, StepRows, NamedSessions, Order, CommittedTo;
    var b, order := w.batch, Order(w.batch.rows);
    OrderIsPermutation(b.rows);
    OrderInRange(b.rows);
    var start := Progress(w.program, b.rows, b.committed, b.rejected, false);
    StepRowsAdvance(start, order);
    LoopRecords(start, order, i);
    var s := StepRows(start, order).value;
    assert SameButCommitted(b.rows[i], s.rows[i], i in order);
    NamedAreThere(s.rows, s.program);
    StaysCommitted(s.program, Commit(w).value.program, b.rows[i], s.rows[i].entity);
  }

  // ---------------------------------------------------------------- any course of review

  datatype Move = Decision(place: nat, action: Action, personActive: bool) | CommitMove | ProgramEdited(program: Program)

  /** A refused move changes nothing; other edits of the program raise the revision. */
  ghost function Next(w: World, move: Move): World {
    match move
    case Decision(i, action, active) =>
      if i < |w.batch.rows| && Decide(w.batch, i, action, active).Some?
      then w.(batch := Decide(w.batch, i, action, active).value) else w
    case CommitMove => if Commit(w).Some? then Commit(w).value else w
    case ProgramEdited(program) => if Valid(program) then w.(program := program, revision := w.revision + 1) else w
  }

  ghost function Run(w: World, moves: seq<Move>): World
    decreases |moves|
  {
    if moves == [] then w else Next(Run(w, moves[..|moves| - 1]), moves[|moves| - 1])
  }

  lemma NextKeepsOk(w: World, move: Move)
    requires BatchOk(w.batch) && Valid(w.program)
    ensures BatchOk(Next(w, move).batch) && Valid(Next(w, move).program) && |Next(w, move).batch.rows| == |w.batch.rows|
    ensures w.batch.status == CommittedStatus ==> Next(w, move).batch == w.batch
  {
    hide BatchOk, Valid;
    match move
    case Decision(i, action, active) =>
      if i < |w.batch.rows| && Decide(w.batch, i, action, active).Some? { DecideKeepsOk(w.batch, i, action, active); }
    case CommitMove => if w.batch.status != CommittedStatus && Commit(w).Some? { CommitGuarantees(w); }
    case ProgramEdited(_) =>
  }

  /** Whatever is decided, edited and committed, in whatever order, the counters describe the rows. */
  lemma {:induction false} RunKeepsOk(w: World, moves: seq<Move>)
    requires BatchOk(w.batch) && Valid(w.program)
    ensures BatchOk(Run(w, moves).batch) && Valid(Run(w, moves).program)
    ensures w.batch.status == CommittedStatus ==> Run(w, moves).batch == w.batch
    decreases |moves|
  {
    if moves != [] {
      RunKeepsOk(w, moves[..|moves| - 1]);
      NextKeepsOk(Run(w, moves[..|moves| - 1]), moves[|moves| - 1]);
    }
  }

  // ---------------------------------------------------------------- what was decided is what is committed

  /** A decision on place i that the row's state and the person let through. */
  ghost predicate AcceptedDecision(w: World, move: Move, i: nat) {
    && move.Decision? && move.place == i < |w.batch.rows| && !w.batch.rows[i].committed
    && (move.action == AcceptMatch || move.action == ChoosePerson ==> move.personActive)
  }

  /** The action of the last accepted decision on place i. */
  ghost function LastAction(w: World, moves: seq<Move>, i: nat): Option<Action>
    decreases |moves|
  {
    if moves == [] then None
    else
      var init, last := moves[..|moves| - 1], moves[|moves| - 1];
      if AcceptedDecision(Run(w, init), last, i) then Some(last.action) else LastAction(w, init, i)
  }

  lemma CommitKeepsResolutions(w: World, i: nat)
    requires BatchOk(w.batch) && Valid(w.program) && i < |w.batch.rows|
    ensures |Next(w, CommitMove).batch.rows| == |w.batch.rows|
    ensures Next(w, CommitMove).batch.rows[i].resolution == w.batch.rows[i].resolution
  {
    hide Valid, StepRows, Order, SettleSessions;
    if w.batch.status != CommittedStatus && Commit(w).Some? {
      var b, order := w.batch, Order(w.batch.rows);
      OrderIsPermutation(b.rows);
      OrderInRange(b.rows);
      var start := Progress(w.program, b.rows, b.committed, b.rejected, false);
      StepRowsAdvance(start, order);
      assert SameButCommitted(b.rows[i], StepRows(start, order).value.rows[i], i in order);
    }
  }

  /** Over any course of review, each row's resolution is the action of the last decision accepted on it. */
  lemma {:induction false} ResolutionIsLastAction(w: World, moves: seq<Move>, i: nat)
    requires Created(w.batch) && Valid(w.program) && i < |w.batch.rows|
    ensures BatchOk(Run(w, moves).batch) && Valid(Run(w, moves).program) && |Run(w, moves).batch.rows| == |w.batch.rows|
    ensures Run(w, moves).batch.rows[i].resolution == LastAction(w, moves, i)
    decreases |moves|
  {
    hide Valid, BatchOk, Decide;
    if moves == [] {
      CreatedIsOk(w.batch);
    } else {
      var init, last := moves[..|moves| - 1], moves[|moves| - 1];
      ResolutionIsLastAction(w, init, i);
      var before := Run(w, init);
      NextKeepsOk(before, last);
      match last
      case Decision(place, action, active) => if place < |before.batch.rows| { DecideExactly(before.batch, place, action, active); }
      case CommitMove => CommitKeepsResolutions(before, i);
      case ProgramEdited(_) =>
    }
  }

  /** The places whose last decision was to ignore or to reject them. */
  ghost function LastRefused(w: World, moves: seq<Move>): set<nat> {
    set i | 0 <= i < |w.batch.rows| && (LastAction(w, moves, i) == Some(Ignore) || LastAction(w, moves, i) == Some(Reject))
  }

  /** What a commit counts as rejected are exactly the rows last decided so; all others it counts as committed. */
  lemma RejectedAsDecided(w: World, moves: seq<Move>)
    requires Created(w.batch) && Valid(w.program)
    requires var now := Run(w, moves); now.batch.status != CommittedStatus && Commit(now).Some?
    ensures var b := Commit(Run(w, moves)).value.batch;
      && b.rejected == |LastRefused(w, moves)|
      && b.committed == |b.rows| - b.rejected && |b.rows| == |w.batch.rows|
  {
    hide Valid, BatchOk, Commit, LastAction;
    var now := Run(w, moves);
    CreatedIsOk(w.batch);
    RunKeepsOk(w, moves);
    RunKeepsLength(w, moves);
    CommitGuarantees(now);
    forall i: nat | i < |w.batch.rows|
      ensures now.batch.rows[i].resolution == LastAction(w, moves, i)
    {
      ResolutionIsLastAction(w, moves, i);
    }
    assert RefusedRows(now.batch.rows) == LastRefused(w, moves);
  }

  lemma {:induction false} RunKeepsLength(w: World, moves: seq<Move>)
    requires BatchOk(w.batch) && Valid(w.program)
    ensures |Run(w, moves).batch.rows| == |w.batch.rows|
    decreases |moves|
  {
    hide Valid, BatchOk;
    if moves != [] {
      RunKeepsLength(w, moves[..|moves| - 1]);
      RunKeepsOk(w, moves[..|moves| - 1]);
      NextKeepsOk(Run(w, moves[..|moves| - 1]), moves[|moves| - 1]);
    }
  }
}
