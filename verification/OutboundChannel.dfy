/**
 The acknowledged queue from Central to one Site: rows numbered 1..n, a poll that
 returns the first unacknowledged ones, and an acknowledgement endpoint that marks
 whatever it is told and advances a checkpoint.
 */
module OutboundChannel {
  import opened Wrappers

  /** acked[k] is the status of row k + 1; checkpoint is Central's cursor for the Site. */
  datatype Channel = Channel(acked: seq<bool>, checkpoint: nat)

  // ---------------------------------------------------------------- the two endpoints

  /** The numbers of the first pending rows after row `from`, at most `limit` of them. */
  function PollFrom(acked: seq<bool>, from: nat, limit: nat): seq<nat>
    requires from <= |acked|
    decreases |acked| - from
  {
    if from == |acked| || limit == 0 then []
    else if acked[from] then PollFrom(acked, from + 1, limit)
    else [from + 1] + PollFrom(acked, from + 1, limit - 1)
  }

  function Poll(c: Channel, limit: nat): seq<nat> {
    PollFrom(c.acked, 0, limit)
  }

  /** The highest existing row among ids; the checkpoint when none of them exists. */
  function Highest(ids: set<nat>, n: nat, default: nat): nat {
    if n == 0 then default else if n in ids then n else Highest(ids, n - 1, default)
  }

  function Marked(acked: seq<bool>, ids: set<nat>): seq<bool> {
    seq(|acked|, k requires 0 <= k < |acked| => acked[k] || k + 1 in ids)
  }

  /** None is the "invalid checkpoint" conflict, which leaves the channel as it was. */
  function Acknowledge(c: Channel, ids: set<nat>, checkpoint: nat): Option<Channel> {
    if checkpoint > Highest(ids, |c.acked|, c.checkpoint) then None
    else Some(Channel(Marked(c.acked, ids), if checkpoint > c.checkpoint then checkpoint else c.checkpoint))
  }

  // ---------------------------------------------------------------- any Site at all

  ghost predicate Bounded(c: Channel) { c.checkpoint <= |c.acked| }

  lemma {:induction false} HighestIsMaximum(ids: set<nat>, n: nat, default: nat)
    ensures var h := Highest(ids, n, default);
      if exists i :: i in ids && 1 <= i <= n
      then h in ids && 1 <= h <= n && (forall i :: i in ids && 1 <= i <= n ==> i <= h)
      else h == default
  {
    if n > 0 && n !in ids {
      HighestIsMaximum(ids, n - 1, default);
      if i :| i in ids && 1 <= i <= n {
        assert 1 <= i <= n - 1;
      }
    }
  }

  /** The pending rows after row `from` in order: all of them, or the first limit. */
  ghost predicate FirstPending(acked: seq<bool>, from: nat, limit: nat, batch: seq<nat>) {
    && |batch| <= limit
    && (forall i :: 0 <= i < |batch| ==> from < batch[i] <= |acked| && !acked[batch[i] - 1])
    && (forall i, j :: 0 <= i < j < |batch| ==> batch[i] < batch[j])
    && (forall k :: from <= k < |acked| && !acked[k] ==> k + 1 in batch || (|batch| == limit && (batch != [] ==> batch[|batch| - 1] <= k)))
  }

  lemma PendingFirst(acked: seq<bool>, from: nat, limit: nat, rest: seq<nat>)
    requires from < |acked| && !acked[from] && limit > 0 && FirstPending(acked, from + 1, limit - 1, rest)
    ensures FirstPending(acked, from, limit, [from + 1] + rest)
  {
    var batch := [from + 1] + rest;
    assert forall k :: k in batch <==> k == from + 1 || k in rest;
    assert rest != [] ==> batch[|batch| - 1] == rest[|rest| - 1];
  }

  lemma PendingLater(acked: seq<bool>, from: nat, limit: nat, batch: seq<nat>)
    requires from < |acked| && acked[from] && FirstPending(acked, from + 1, limit, batch)
    ensures FirstPending(acked, from, limit, batch)
  {}

  lemma NonePending(acked: seq<bool>, from: nat, limit: nat)
    requires from == |acked| || limit == 0
    ensures FirstPending(acked, from, limit, [])
  {}

  lemma {:induction false} PollIsFirstPending(acked: seq<bool>, from: nat, limit: nat)
    requires from <= |acked|
    ensures FirstPending(acked, from, limit, PollFrom(acked, from, limit))
    decreases |acked| - from
  {
    hide FirstPending;
    if from == |acked| || limit == 0 {
      NonePending(acked, from, limit);
    } else {
      if acked[from] {
        PollIsFirstPending(acked, from + 1, limit);
        PendingLater(acked, from, limit, PollFrom(acked, from + 1, limit));
      } else {
        PollIsFirstPending(acked, from + 1, limit - 1);
        PendingFirst(acked, from, limit, PollFrom(acked, from + 1, limit - 1));
      }
    }
  }

  /** Even a Site that acknowledges out of order: nothing goes back, nothing passes n. */
  lemma AnyAcknowledgementIsMonotone(c: Channel, ids: set<nat>, checkpoint: nat)
    requires Bounded(c) && Acknowledge(c, ids, checkpoint).Some?
    ensures var c' := Acknowledge(c, ids, checkpoint).value;
      && Bounded(c') && c.checkpoint <= c'.checkpoint
      && |c'.acked| == |c.acked| && (forall k :: 0 <= k < |c.acked| && c.acked[k] ==> c'.acked[k])
  {
    HighestIsMaximum(ids, |c.acked|, c.checkpoint);
  }

  /** When an acknowledgement is accepted, which rows it marks, and where it puts the cursor, measured against any n. */
  lemma AcknowledgeExactly(c: Channel, ids: set<nat>, checkpoint: nat, n: nat)
    ensures Acknowledge(c, ids, checkpoint).Some? <==>
      if exists i :: i in ids && 1 <= i <= |c.acked| then exists i :: i in ids && 1 <= i <= |c.acked| && checkpoint <= i
      else checkpoint <= c.checkpoint
    ensures Acknowledge(c, ids, checkpoint).Some? ==>
      var c' := Acknowledge(c, ids, checkpoint).value;
      && |c'.acked| == |c.acked| && (forall k :: 0 <= k < |c.acked| ==> (c'.acked[k] <==> c.acked[k] || k + 1 in ids))
      && (n <= c'.checkpoint <==> n <= c.checkpoint || n <= checkpoint)
  {
    HighestIsMaximum(ids, |c.acked|, c.checkpoint);
  }

  /** What reaches the channel of a Site, honest or not: new rows and acknowledgements. */
  datatype Traffic = Queued | Acknowledging(ids: set<nat>, checkpoint: nat)

  function Serve(c: Channel, traffic: Traffic): Channel {
    match traffic
    case Queued => c.(acked := c.acked + [false])
    case Acknowledging(ids, checkpoint) =>
      if Acknowledge(c, ids, checkpoint).Some? then Acknowledge(c, ids, checkpoint).value else c
  }

  function ServeAll(c: Channel, traffic: seq<Traffic>): Channel
    decreases |traffic|
  {
    if traffic == [] then c else Serve(ServeAll(c, traffic[..|traffic| - 1]), traffic[|traffic| - 1])
  }

  /** The i-th item was an acknowledgement that was accepted. */
  predicate AcceptedAt(c: Channel, traffic: seq<Traffic>, i: nat) {
    i < |traffic| && traffic[i].Acknowledging?
    && Acknowledge(ServeAll(c, traffic[..i]), traffic[i].ids, traffic[i].checkpoint).Some?
  }

  /** Some accepted acknowledgement carried a checkpoint of at least n. */
  ghost predicate Reported(c: Channel, traffic: seq<Traffic>, n: nat) {
    exists i: nat :: AcceptedAt(c, traffic, i) && n <= traffic[i].checkpoint
  }

  /** Some accepted acknowledgement named row n when it was there. */
  ghost predicate NamedRow(c: Channel, traffic: seq<Traffic>, n: nat) {
    exists i: nat :: AcceptedAt(c, traffic, i) && n in traffic[i].ids && n <= |ServeAll(c, traffic[..i]).acked|
  }

  lemma EarlierItem(c: Channel, traffic: seq<Traffic>, i: nat)
    requires i < |traffic| - 1
    ensures var init := traffic[..|traffic| - 1];
      && traffic[i] == init[i] && traffic[..i] == init[..i] && (AcceptedAt(c, traffic, i) <==> AcceptedAt(c, init, i))
  {
    hide Acknowledge, ServeAll;
    assert traffic[..i] == traffic[..|traffic| - 1][..i];
  }

  lemma OneMoreReport(c: Channel, traffic: seq<Traffic>, n: nat)
    requires traffic != []
    ensures var m := |traffic| - 1;
      Reported(c, traffic, n) <==> Reported(c, traffic[..m], n) || (AcceptedAt(c, traffic, m) && n <= traffic[m].checkpoint)
  {
    hide AcceptedAt;
    var m := |traffic| - 1;
    forall i: nat | i < m
      ensures traffic[i] == traffic[..m][i] && (AcceptedAt(c, traffic, i) <==> AcceptedAt(c, traffic[..m], i))
    {
      EarlierItem(c, traffic, i);
    }
    AcceptedInRange(c, traffic);
    AcceptedInRange(c, traffic[..m]);
  }

  lemma AcceptedInRange(c: Channel, traffic: seq<Traffic>)
    ensures forall i: nat :: AcceptedAt(c, traffic, i) ==> i < |traffic| && traffic[i].Acknowledging?
  {}

  lemma OneMoreName(c: Channel, traffic: seq<Traffic>, n: nat)
    requires traffic != []
    ensures var m := |traffic| - 1;
      NamedRow(c, traffic, n) <==>
        (NamedRow(c, traffic[..m], n) || (AcceptedAt(c, traffic, m) && n in traffic[m].ids && n <= |ServeAll(c, traffic[..m]).acked|))
  {
    hide AcceptedAt, ServeAll;
    var m := |traffic| - 1;
    forall i: nat | i < m
      ensures traffic[i] == traffic[..m][i] && traffic[..i] == traffic[..m][..i]
      ensures AcceptedAt(c, traffic, i) <==> AcceptedAt(c, traffic[..m], i)
    {
      EarlierItem(c, traffic, i);
    }
    AcceptedInRange(c, traffic);
    AcceptedInRange(c, traffic[..m]);
  }

  /**
   Over any traffic of any Site: a row is acknowledged exactly if an accepted acknowledgement named it
   when it was there, and the cursor is the highest checkpoint of those accepted, measured against n.
   */
  lemma {:induction false} ServedExactly(traffic: seq<Traffic>, n: nat)
    requires 0 < n
    ensures var start, c := Channel([], 0), ServeAll(Channel([], 0), traffic);
      && (n <= c.checkpoint <==> Reported(start, traffic, n))
      && (n <= |c.acked| ==> (c.acked[n - 1] <==> NamedRow(start, traffic, n)))
      && (n > |c.acked| ==> !NamedRow(start, traffic, n))
    decreases |traffic|
  {
    hide Reported, NamedRow;
    var start := Channel([], 0);
    if traffic == [] {
      NothingServed(start, n);
    } else {
      var init, last := traffic[..|traffic| - 1], traffic[|traffic| - 1];
      ServedExactly(init, n);
      OneMoreReport(start, traffic, n);
      OneMoreName(start, traffic, n);
      var before := ServeAll(start, init);
      if last.Acknowledging? { AcknowledgeExactly(before, last.ids, last.checkpoint, n); }
    }
  }

  lemma NothingServed(c: Channel, n: nat)
    ensures !Reported(c, [], n) && !NamedRow(c, [], n)
  {}

  // ---------------------------------------------------------------- the Site's transport loop

  datatype Ack = Ack(ids: set<nat>, checkpoint: nat)

  /** applied: the Site's own cursor; sent: acknowledgements on the wire, which may be lost or repeated. */
  datatype Link = Link(central: Channel, applied: nat, sent: set<Ack>)

  datatype Step = Enqueue | Pull | Deliver(ack: Ack)

  /** Applying a polled batch: duplicates pass, the next number advances, a gap aborts. */
  function ApplyBatch(cursor: nat, batch: seq<nat>): Option<nat>
    decreases |batch|
  {
    if batch == [] then Some(cursor)
    else if batch[0] <= cursor then ApplyBatch(cursor, batch[1..])
    else if batch[0] == cursor + 1 then ApplyBatch(cursor + 1, batch[1..])
    else None
  }

  /** A batch is applied exactly if no number leaves a gap after those before it, and then takes the cursor to the highest. */
  lemma {:induction false} BatchAppliedExactly(cursor: nat, batch: seq<nat>)
    ensures ApplyBatch(cursor, batch).Some? <==>
      forall i :: 0 <= i < |batch| ==> batch[i] <= cursor + 1 || exists j :: 0 <= j < i && batch[i] <= batch[j] + 1
    ensures ApplyBatch(cursor, batch).Some? ==>
      var now := ApplyBatch(cursor, batch).value;
      && cursor <= now && (now == cursor || now in batch) && forall i :: 0 <= i < |batch| ==> batch[i] <= now
    decreases |batch|
  {
    if batch != [] && batch[0] <= cursor + 1 {
      var first, rest := if batch[0] <= cursor then cursor else cursor + 1, batch[1..];
      BatchAppliedExactly(first, rest);
      assert forall i :: 1 <= i < |batch| ==> batch[i] == rest[i - 1];
      forall i | 1 <= i < |batch|
        ensures (batch[i] <= cursor + 1 || exists j :: 0 <= j < i && batch[i] <= batch[j] + 1) <==>
                (rest[i - 1] <= first + 1 || exists j :: 0 <= j < i - 1 && rest[i - 1] <= rest[j] + 1)
      {
        if j :| 0 <= j < i - 1 && rest[i - 1] <= rest[j] + 1 { assert batch[i] <= batch[j + 1] + 1; }
        if j :| 0 <= j < i && batch[i] <= batch[j] + 1 { if j > 0 { assert rest[i - 1] <= rest[j - 1] + 1; } }
      }
      if forall i :: 0 <= i < |batch| ==> batch[i] <= cursor + 1 || exists j :: 0 <= j < i && batch[i] <= batch[j] + 1 {
        forall k | 0 <= k < |rest|
          ensures rest[k] <= first + 1 || exists j :: 0 <= j < k && rest[k] <= rest[j] + 1
        {
          assert batch[k + 1] == rest[k];
        }
      }
    }
  }

  function Next(l: Link, step: Step, limit: nat): Link {
    match step
    case Enqueue => l.(central := l.central.(acked := l.central.acked + [false]))
    case Pull =>
      var batch := Poll(l.central, limit);
      if batch == [] then l
      else (match ApplyBatch(l.applied, batch)
            case None => l
            case Some(applied) => l.(applied := applied, sent := l.sent + {Ack(Ids(batch), applied)}))
    case Deliver(ack) =>
      if ack !in l.sent then l
      else (match Acknowledge(l.central, ack.ids, ack.checkpoint)
            case None => l
            case Some(c) => l.(central := c))
  }

  function Run(l: Link, steps: seq<Step>, limit: nat): Link
    decreases |steps|
  {
    if steps == [] then l else Next(Run(l, steps[..|steps| - 1], limit), steps[|steps| - 1], limit)
  }

  // ---------------------------------------------------------------- the acknowledged prefix

  function Ids(batch: seq<nat>): set<nat> { set i | i in batch }

  function Count(lo: nat, hi: nat): seq<nat>
    requires lo <= hi
  {
    seq(hi - lo, i requires 0 <= i < hi - lo => lo + i + 1)
  }

  ghost predicate Prefix(acked: seq<bool>, a: nat) {
    a <= |acked| && forall k :: 0 <= k < |acked| ==> (acked[k] <==> k < a)
  }

  ghost predicate AckOk(ack: Ack, lo: nat, a: nat, applied: nat) {
    && lo <= a && lo < ack.checkpoint <= applied
    && (forall i: nat :: i in ack.ids <==> lo < i <= ack.checkpoint)
  }

  /** The acknowledged rows are exactly 1..a, the cursor is at a, and the Site is at most one batch ahead. */
  ghost predicate Inv(l: Link, a: nat, limit: nat) {
    && Prefix(l.central.acked, a) && l.central.checkpoint == a
    && a <= l.applied <= |l.central.acked| && l.applied <= a + limit
    && (forall ack :: ack in l.sent ==> exists lo: nat :: AckOk(ack, lo, a, l.applied))
  }

  lemma CountMembers(lo: nat, hi: nat)
    requires lo <= hi
    ensures forall i: nat :: i in Ids(Count(lo, hi)) <==> lo < i <= hi
  {
    forall i: nat | lo < i <= hi
      ensures i in Count(lo, hi)
    {
      assert Count(lo, hi)[i - lo - 1] == i;
    }
  }

  lemma {:induction false} PollPrefix(acked: seq<bool>, a: nat, from: nat, limit: nat)
    requires Prefix(acked, a) && from <= |acked|
    ensures var start := if from <= a then a else from;
      PollFrom(acked, from, limit) == Count(start, Min(start + limit, |acked|))
    decreases |acked| - from
  {
    if from < |acked| && limit > 0 {
      if acked[from] {
        PollPrefix(acked, a, from + 1, limit);
      } else {
        PollPrefix(acked, a, from + 1, limit - 1);
      }
    }
  }

  lemma {:induction false} BatchApplies(cursor: nat, lo: nat, hi: nat)
    requires lo <= cursor && lo <= hi
    ensures ApplyBatch(cursor, Count(lo, hi)) == Some(if cursor >= hi then cursor else hi)
    decreases hi - lo
  {
    if lo < hi {
      assert Count(lo, hi)[1..] == Count(lo + 1, hi);
      BatchApplies(if lo + 1 == cursor + 1 then cursor + 1 else cursor, lo + 1, hi);
    }
  }

  lemma PullKeepsInv(l: Link, a: nat, limit: nat)
    requires Inv(l, a, limit)
    ensures Inv(Next(l, Pull, limit), a, limit)
    ensures a < |l.central.acked| && limit > 0 ==>
      var hi := Min(a + limit, |l.central.acked|);
      Next(l, Pull, limit) == l.(applied := hi, sent := l.sent + {Ack(Ids(Count(a, hi)), hi)})
  {
    PollPrefix(l.central.acked, a, 0, limit);
    var n := |l.central.acked|;
    var hi := Min(a + limit, n);
    var batch := Poll(l.central, limit);
    if batch != [] {
      assert a < hi;
      BatchApplies(l.applied, a, hi);
      assert l.applied <= hi;
      CountMembers(a, hi);
      assert AckOk(Ack(Ids(batch), hi), a, a, hi);
      var l' := Next(l, Pull, limit);
      forall ack | ack in l'.sent
        ensures exists lo: nat :: AckOk(ack, lo, a, l'.applied)
      {
        if ack in l.sent {
          var lo: nat :| AckOk(ack, lo, a, l.applied);
          assert AckOk(ack, lo, a, l'.applied);
        }
      }
    }
  }

  /** An acknowledgement this Site sent is never refused, however late or often it arrives. */
  lemma DeliverKeepsInv(l: Link, ack: Ack, a: nat, limit: nat)
    requires Inv(l, a, limit) && ack in l.sent
    ensures Acknowledge(l.central, ack.ids, ack.checkpoint).Some?
    ensures var a' := if ack.checkpoint > a then ack.checkpoint else a;
      Inv(Next(l, Deliver(ack), limit), a', limit)
  {
    var lo: nat :| AckOk(ack, lo, a, l.applied);
    HighestIsMaximum(ack.ids, |l.central.acked|, l.central.checkpoint);
    assert ack.checkpoint in ack.ids;
    var a' := if ack.checkpoint > a then ack.checkpoint else a;
    forall other | other in l.sent
      ensures exists lo: nat :: AckOk(other, lo, a', l.applied)
    {
      var lo: nat :| AckOk(other, lo, a, l.applied);
      assert AckOk(other, lo, a', l.applied);
    }
  }

  /**
   Whatever is lost, delayed or repeated, the rows this Site has acknowledged are
   always an initial segment 1..a of its queue, and Central's cursor is exactly at its end.
   */
  lemma {:induction false} AcknowledgedIsAPrefix(l: Link, steps: seq<Step>, a: nat, limit: nat) returns (a': nat)
    requires Inv(l, a, limit)
    ensures a <= a' && Inv(Run(l, steps, limit), a', limit)
    decreases |steps|
  {
    if steps == [] {
      return a;
    }
    a' := AcknowledgedIsAPrefix(l, steps[..|steps| - 1], a, limit);
    var mid := Run(l, steps[..|steps| - 1], limit);
    match steps[|steps| - 1]
    case Enqueue =>
    case Pull => PullKeepsInv(mid, a', limit);
    case Deliver(ack) =>
      if ack in mid.sent {
        DeliverKeepsInv(mid, ack, a', limit);
        if ack.checkpoint > a' { a' := ack.checkpoint; }
      }
  }

  // ---------------------------------------------------------------- draining

  /** One uneventful round: poll, apply, acknowledge. */
  function Round(l: Link, limit: nat): Link {
    var polled := Next(l, Pull, limit);
    var batch := Poll(l.central, limit);
    Next(polled, Deliver(Ack(Ids(batch), polled.applied)), limit)
  }

  function Rounds(l: Link, limit: nat, r: nat): Link {
    if r == 0 then l else Round(Rounds(l, limit, r - 1), limit)
  }

  lemma RoundAcknowledgesOneBatch(l: Link, a: nat, limit: nat)
    requires Inv(l, a, limit) && 0 < limit && a < |l.central.acked|
    ensures Inv(Round(l, limit), Min(a + limit, |l.central.acked|), limit)
    ensures |Round(l, limit).central.acked| == |l.central.acked|
  {
    PullKeepsInv(l, a, limit);
    PollPrefix(l.central.acked, a, 0, limit);
    var hi := Min(a + limit, |l.central.acked|);
    DeliverKeepsInv(Next(l, Pull, limit), Ack(Ids(Count(a, hi)), hi), a, limit);
  }

  lemma IdleRound(l: Link, a: nat, limit: nat)
    requires Inv(l, a, limit) && a == |l.central.acked|
    requires Ack({}, l.applied) !in l.sent
    ensures Round(l, limit) == l
  {
    PollPrefix(l.central.acked, a, 0, limit);
    assert Ids(Poll(l.central, limit)) == {};
  }

  lemma NoEmptyAck(l: Link, a: nat, limit: nat)
    requires Inv(l, a, limit)
    ensures Ack({}, l.applied) !in l.sent
  {
    var empty := Ack({}, l.applied);
    assert forall lo: nat :: AckOk(empty, lo, a, l.applied) ==> l.applied in empty.ids;
  }

  lemma RoundAdvances(l: Link, a: nat, limit: nat)
    requires Inv(l, a, limit) && 0 < limit
    ensures |Round(l, limit).central.acked| == |l.central.acked|
    ensures Inv(Round(l, limit), Min(a + limit, |l.central.acked|), limit)
  {
    if a < |l.central.acked| {
      RoundAcknowledgesOneBatch(l, a, limit);
    } else {
      NoEmptyAck(l, a, limit);
      IdleRound(l, a, limit);
    }
  }

  lemma TimesSucc(r: nat, limit: nat)
    requires r > 0
    ensures r * limit == (r - 1) * limit + limit
  {}

  lemma PrefixFits(l: Link, a: nat, limit: nat)
    requires Inv(l, a, limit)
    ensures a <= |l.central.acked|
  {}

  /** r rounds acknowledge exactly the next r * limit rows, or all of them. */
  lemma {:induction false} RoundsDrain(l: Link, a: nat, limit: nat, r: nat)
    requires Inv(l, a, limit) && 0 < limit
    ensures |Rounds(l, limit, r).central.acked| == |l.central.acked|
    ensures Inv(Rounds(l, limit, r), Min(a + r * limit, |l.central.acked|), limit)
  {
    hide Inv, Round;
    PrefixFits(l, a, limit);
    if r > 0 {
      var n, done := |l.central.acked|, (r - 1) * limit;
      RoundsDrain(l, a, limit, r - 1);
      TimesSucc(r, limit);
      RoundAdvances(Rounds(l, limit, r - 1), Min(a + done, n), limit);
      assert Min(Min(a + done, n) + limit, n) == Min(a + done + limit, n);
    }
  }
}
