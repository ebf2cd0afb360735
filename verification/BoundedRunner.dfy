/**
 The browser's bounded upload loop: a few cooperative runners share one cursor. Between
 two awaits a runner is never interrupted; at each await any other runner may go first.
 */
module BoundedRunner {
  import opened Wrappers

  /** Head: at the loop test. Waiting: beforeEach is pending for a claimed value. Working: its worker is. */
  datatype Runner = Head | Waiting(value: nat) | Working(value: nat) | Finished | Rejected(value: nat)

  /** size: the number of values. done: the values whose worker settled, in that order. */
  datatype Pool = Pool(size: nat, cursor: nat, runners: seq<Runner>, done: seq<nat>)

  /** What a runner's pending promise does; a worker that throws counts as settled like any other. */
  datatype Outcome = Resolves | Rejects

  function Start(size: nat, concurrency: nat): Pool {
    Pool(size, 0, seq(Min(concurrency, size), _ => Head), [])
  }

  predicate Over(r: Runner) { r.Finished? || r.Rejected? }

  /** One runner's stretch between two awaits. */
  function Next(p: Pool, i: nat, outcome: Outcome): Pool
    requires i < |p.runners|
  {
    match p.runners[i]
    case Head =>
      if p.cursor < p.size then p.(runners := p.runners[i := Waiting(p.cursor)], cursor := p.cursor + 1)
      else p.(runners := p.runners[i := Finished])
    case Waiting(v) => p.(runners := p.runners[i := if outcome == Resolves then Working(v) else Rejected(v)])
    case Working(v) => p.(runners := p.runners[i := Head], done := p.done + [v])
    case Finished | Rejected(_) => p
  }

  predicate Quiet(p: Pool) {
    forall i :: 0 <= i < |p.runners| ==> Over(p.runners[i])
  }

  // ---------------------------------------------------------------- exact accounting

  predicate Holds(p: Pool, i: nat, v: nat) {
    i < |p.runners| && !p.runners[i].Head? && !p.runners[i].Finished? && p.runners[i].value == v
  }

  predicate HeldBySome(p: Pool, v: nat) {
    exists i :: 0 <= i < |p.runners| && Holds(p, i, v)
  }

  /** Every claimed value is in exactly one place: settled once, or held by one runner. */
  ghost predicate Inv(p: Pool) {
    && p.cursor <= p.size
    && (forall v: nat :: v < p.cursor <==> (v in p.done || HeldBySome(p, v)))
    && (forall v: nat :: v in p.done ==> !HeldBySome(p, v))
    && (forall i, j, v: nat :: 0 <= i < j < |p.runners| && Holds(p, i, v) ==> !Holds(p, j, v))
    && (forall j, k :: 0 <= j < k < |p.done| ==> p.done[j] != p.done[k])
    && (forall i :: 0 <= i < |p.runners| && p.runners[i].Finished? ==> p.cursor == p.size)
  }

  lemma StartInv(size: nat, concurrency: nat)
    ensures Inv(Start(size, concurrency))
  {}

  lemma HeldFacts(p: Pool, j: nat, v: nat)
    requires Inv(p) && Holds(p, j, v)
    ensures HeldBySome(p, v) && v < p.cursor && v !in p.done
  {
    assert HeldBySome(p, v) by { assert Holds(p, j, v); }
    assert v in p.done || HeldBySome(p, v);
  }

  /** A runner takes a value no one has, or passes its own on. */
  lemma MovePreserves(p: Pool, i: nat, r: Runner)
    requires Inv(p) && i < |p.runners| && !r.Head? && !r.Finished? && !p.runners[i].Head? && !p.runners[i].Finished? && r.value == p.runners[i].value
    ensures Inv(p.(runners := p.runners[i := r]))
  {
    var p' := p.(runners := p.runners[i := r]);
    assert forall j: nat, v: nat :: Holds(p', j, v) <==> Holds(p, j, v);
    forall v: nat
      ensures HeldBySome(p', v) <==> HeldBySome(p, v)
    {}
  }

  lemma ClaimPreserves(p: Pool, i: nat)
    requires Inv(p) && i < |p.runners| && p.runners[i] == Head && p.cursor < p.size
    ensures Inv(p.(runners := p.runners[i := Waiting(p.cursor)], cursor := p.cursor + 1))
  {
    var p' := p.(runners := p.runners[i := Waiting(p.cursor)], cursor := p.cursor + 1);
    forall j: nat, v: nat
      ensures Holds(p', j, v) <==> Holds(p, j, v) || (j == i && v == p.cursor)
      ensures Holds(p, j, v) ==> v < p.cursor
    {
      if Holds(p, j, v) { HeldFacts(p, j, v); }
    }
    assert Holds(p', i, p.cursor);
    forall v: nat
      ensures HeldBySome(p', v) <==> HeldBySome(p, v) || v == p.cursor
    {
      if HeldBySome(p, v) { var j :| 0 <= j < |p.runners| && Holds(p, j, v); assert Holds(p', j, v); }
    }
  }

  lemma SettlePreserves(p: Pool, i: nat)
    requires Inv(p) && i < |p.runners| && p.runners[i].Working?
    ensures Inv(p.(runners := p.runners[i := Head], done := p.done + [p.runners[i].value]))
  {
    var w := p.runners[i].value;
    var p' := p.(runners := p.runners[i := Head], done := p.done + [w]);
    assert Holds(p, i, w);
    HeldFacts(p, i, w);
    forall j: nat, v: nat
      ensures Holds(p', j, v) <==> Holds(p, j, v) && j != i
    {}
    forall v: nat
      ensures HeldBySome(p', v) <==> HeldBySome(p, v) && v != w
    {
      if HeldBySome(p, v) && v != w { var j :| 0 <= j < |p.runners| && Holds(p, j, v); assert Holds(p', j, v); }
      if HeldBySome(p', v) { var j :| 0 <= j < |p'.runners| && Holds(p', j, v); assert Holds(p, j, v); assert v == w ==> j == i; }
    }
    assert forall v: nat :: v in p'.done <==> v in p.done || v == w;
  }

  lemma LeavePreserves(p: Pool, i: nat)
    requires Inv(p) && i < |p.runners| && p.runners[i] == Head && p.cursor == p.size
    ensures Inv(p.(runners := p.runners[i := Finished]))
  {
    var p' := p.(runners := p.runners[i := Finished]);
    assert forall j: nat, v: nat :: Holds(p', j, v) <==> Holds(p, j, v);
    forall v: nat
      ensures HeldBySome(p', v) <==> HeldBySome(p, v)
    {}
  }

  lemma NextKeepsInv(p: Pool, i: nat, outcome: Outcome)
    requires Inv(p) && i < |p.runners|
    ensures Inv(Next(p, i, outcome))
  {
    hide HeldBySome;
    match p.runners[i]
    case Head => if p.cursor < p.size { ClaimPreserves(p, i); } else { LeavePreserves(p, i); }
    case Waiting(v) => MovePreserves(p, i, if outcome == Resolves then Working(v) else Rejected(v));
    case Working(v) => SettlePreserves(p, i);
    case Finished =>
    case Rejected(_) =>
  }

  // ---------------------------------------------------------------- termination

  function Weight(r: Runner): nat {
    match r
    case Head => 1
    case Waiting(_) => 3
    case Working(_) => 2
    case Finished | Rejected(_) => 0
  }

  function Weights(runners: seq<Runner>): nat {
    if runners == [] then 0 else Weights(runners[..|runners| - 1]) + Weight(runners[|runners| - 1])
  }

  lemma {:induction false} WeightsAfter(runners: seq<Runner>, i: nat, r: Runner)
    requires i < |runners|
    ensures Weights(runners[i := r]) == Weights(runners) - Weight(runners[i]) + Weight(r)
    decreases |runners|
  {
    var n := |runners| - 1;
    if i < n {
      assert runners[i := r][..n] == runners[..n][i := r];
      WeightsAfter(runners[..n], i, r);
    } else {
      assert runners[i := r][..n] == runners[..n];
    }
  }

  /** Steps left at most; it falls with every step of a runner that is not over. */
  function Work(p: Pool): int { 4 * (p.size - p.cursor) + Weights(p.runners) }

  lemma NextMakesProgress(p: Pool, i: nat, outcome: Outcome)
    requires i < |p.runners| && !Over(p.runners[i])
    ensures Work(Next(p, i, outcome)) < Work(p)
  {
    WeightsAfter(p.runners, i, Next(p, i, outcome).runners[i]);
  }

  // ---------------------------------------------------------------- runs

  datatype Turn = Turn(runner: nat, outcome: Outcome)

  function Run(p: Pool, turns: seq<Turn>): Pool
    decreases |turns|
  {
    if turns == [] then p
    else
      var before, turn := Run(p, turns[..|turns| - 1]), turns[|turns| - 1];
      if turn.runner < |before.runners| then Next(before, turn.runner, turn.outcome) else before
  }

  lemma {:induction false} RunKeepsInv(p: Pool, turns: seq<Turn>)
    requires Inv(p)
    ensures Inv(Run(p, turns)) && Run(p, turns).size == p.size && |Run(p, turns).runners| == |p.runners|
    decreases |turns|
  {
    if turns != [] {
      RunKeepsInv(p, turns[..|turns| - 1]);
      var before, turn := Run(p, turns[..|turns| - 1]), turns[|turns| - 1];
      if turn.runner < |before.runners| { NextKeepsInv(before, turn.runner, turn.outcome); }
    }
  }

  /** As many runners as allowed and useful, at every moment; so never more values in flight. */
  lemma RunnersExactly(size: nat, concurrency: nat, turns: seq<Turn>)
    ensures var n := |Run(Start(size, concurrency), turns).runners|;
      n <= size && n <= concurrency && (n == size || n == concurrency)
  {
    StartInv(size, concurrency);
    RunKeepsInv(Start(size, concurrency), turns);
  }

  /** What one resumption does: claim exactly the next value, start the worker, settle it whatever became of it, or stop. */
  lemma NextExactly(p: Pool, i: nat, outcome: Outcome)
    requires i < |p.runners|
    ensures var p' := Next(p, i, outcome);
      && p'.size == p.size && |p'.runners| == |p.runners| && (forall j :: 0 <= j < |p.runners| && j != i ==> p'.runners[j] == p.runners[j])
      && (p.runners[i].Head? && p.cursor < p.size ==> p'.cursor == p.cursor + 1 && p'.runners[i] == Waiting(p.cursor) && p'.done == p.done)
      && (p.runners[i].Head? && p.cursor >= p.size ==> p'.cursor == p.cursor && p'.runners[i] == Finished && p'.done == p.done)
      && (p.runners[i].Waiting? ==>
            && p'.cursor == p.cursor && p'.done == p.done && !Over(p.runners[i])
            && (outcome == Resolves ==> p'.runners[i] == Working(p.runners[i].value))
            && (outcome == Rejects ==> p'.runners[i] == Rejected(p.runners[i].value)))
      && (p.runners[i].Working? ==> p'.cursor == p.cursor && p'.runners[i] == Head && p'.done == p.done + [p.runners[i].value])
      && (Over(p.runners[i]) ==> p' == p)
  {}

  predicate NoneRejected(p: Pool) {
    forall i :: 0 <= i < |p.runners| ==> !p.runners[i].Rejected?
  }

  /** Once every runner is over, whatever the interleaving: what is missing is what rejected runners held, or never claimed. */
  lemma QuietAccounting(size: nat, concurrency: nat, turns: seq<Turn>)
    ensures var p := Run(Start(size, concurrency), turns);
      Quiet(p) ==>
        && (forall v: nat :: v < p.cursor ==> (v in p.done <==> !HeldBySome(p, v)))
        && (forall v: nat :: v in p.done ==> v < size)
        && (concurrency > 0 ==> (NoneRejected(p) <==> forall v: nat :: v < size ==> v in p.done))
  {
    StartInv(size, concurrency);
    RunKeepsInv(Start(size, concurrency), turns);
    var p := Run(Start(size, concurrency), turns);
    if Quiet(p) && concurrency > 0 {
      if NoneRejected(p) && size > 0 {
        assert p.runners[0].Finished?;
        forall v: nat | v < size
          ensures v in p.done
        {
          assert !HeldBySome(p, v);
        }
      }
      if !NoneRejected(p) {
        var i: nat :| i < |p.runners| && p.runners[i].Rejected?;
        assert Holds(p, i, p.runners[i].value) && HeldBySome(p, p.runners[i].value);
      }
    }
  }

  /** With no runner at all nothing is ever processed. */
  lemma {:induction false} NoRunnersNoWork(size: nat, turns: seq<Turn>)
    ensures Run(Start(size, 0), turns) == Start(size, 0) && Quiet(Start(size, 0))
    decreases |turns|
  {
    if turns != [] {
      NoRunnersNoWork(size, turns[..|turns| - 1]);
    }
  }

  // ---------------------------------------------------------------- the loop

  class Uploads {
    const size: nat
    var cursor: nat
    var runners: seq<Runner>
    var done: seq<nat>

    ghost function View(): Pool
      reads this
    {
      Pool(size, cursor, runners, done)
    }

    constructor (values: nat, concurrency: nat)
      ensures View() == Start(values, concurrency)
    {
      size, cursor, done := values, 0, [];
      runners := seq(Min(concurrency, values), _ => Head);
    }

    method Resume(i: nat, outcome: Outcome)
      requires i < |runners|
      modifies this
      ensures View() == Next(old(View()), i, outcome)
    {
      match runners[i] {
        case Head =>
          if cursor < size {
            var value := cursor;
            cursor := cursor + 1;
            runners := runners[i := Waiting(value)];
          } else {
            runners := runners[i := Finished];
          }
        case Waiting(v) =>
          runners := runners[i := if outcome == Resolves then Working(v) else Rejected(v)];
        case Working(v) =>
          done := done + [v];
          runners := runners[i := Head];
        case Finished =>
        case Rejected(_) =>
      }
    }

    /** Under any scheduler: it ends, and if no beforeEach rejects, every value was processed exactly once. */
    method RunToEnd(flaky: bool)
      requires Inv(View())
      modifies this
      ensures Inv(View()) && Quiet(View())
      ensures |runners| == |old(runners)|
      ensures !flaky && old(NoneRejected(View())) && |runners| > 0 ==>
                (forall v: nat :: v < size <==> v in done) && forall j, k :: 0 <= j < k < |done| ==> done[j] != done[k]
    {
      while exists i :: 0 <= i < |runners| && !Over(runners[i])
        invariant Inv(View()) && |runners| == |old(runners)|
        invariant !flaky && old(NoneRejected(View())) ==> NoneRejected(View())
        decreases Work(View())
      {
        var i :| 0 <= i < |runners| && !Over(runners[i]);
        var rejects: bool := *;
        var outcome := if flaky && rejects then Rejects else Resolves;
        NextKeepsInv(View(), i, outcome);
        NextMakesProgress(View(), i, outcome);
        Resume(i, outcome);
      }
      if !flaky && old(NoneRejected(View())) && |runners| > 0 {
        assert runners[0].Finished?;
        forall v: nat
          ensures v < size <==> v in done
        {
          assert !HeldBySome(View(), v);
        }
      }
    }
  }
}
