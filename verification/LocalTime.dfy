/**
 Wall-clock times and zones as in PEP 495: a zone is a list of transitions, a wall time may
 occur twice or never, and a fold bit picks one of two occurrences.
 */
module LocalTime {
  import opened Wrappers

  /** offsets[k] applies from transition k - 1 up to transition k; times are seconds. */
  datatype Zone = Zone(at: seq<int>, offsets: seq<int>)

  /** The wall time at which a lookup with this fold switches to the next offset. */
  function Switch(z: Zone, k: nat, fold: bool): int
    requires k < |z.at| && |z.offsets| == |z.at| + 1
  {
    z.at[k] + if fold then Min(z.offsets[k], z.offsets[k + 1]) else Max(z.offsets[k], z.offsets[k + 1])
  }

  /** Real zones: transitions are further apart than the shifts they make. */
  ghost predicate WellSpaced(z: Zone) {
    && |z.offsets| == |z.at| + 1
    && (forall k :: 0 <= k < |z.at| - 1 ==> z.at[k] < z.at[k + 1])
    && (forall k :: 0 <= k < |z.at| - 1 ==> Switch(z, k, false) <= Switch(z, k + 1, true))
  }

  // ---------------------------------------------------------------- lookups

  /** How many of the first n transitions lie at or before the instant. */
  function Passed(z: Zone, instant: int, n: nat): nat
    requires n <= |z.at|
    ensures Passed(z, instant, n) <= n
  {
    if n == 0 then 0 else if z.at[n - 1] <= instant then n else Passed(z, instant, n - 1)
  }

  function PassedWall(z: Zone, wall: int, fold: bool, n: nat): nat
    requires n <= |z.at| && |z.offsets| == |z.at| + 1
    ensures PassedWall(z, wall, fold, n) <= n
  {
    if n == 0 then 0 else if Switch(z, n - 1, fold) <= wall then n else PassedWall(z, wall, fold, n - 1)
  }

  function Segment(z: Zone, instant: int): nat { Passed(z, instant, |z.at|) }

  function OffsetAt(z: Zone, instant: int): int
    requires |z.offsets| == |z.at| + 1
  {
    z.offsets[Segment(z, instant)]
  }

  function Wall(z: Zone, instant: int): int
    requires |z.offsets| == |z.at| + 1
  {
    instant + OffsetAt(z, instant)
  }

  /** The second occurrence of a repeated wall time. */
  function Fold(z: Zone, instant: int): bool
    requires |z.offsets| == |z.at| + 1
  {
    var n := Segment(z, instant);
    n > 0 && z.offsets[n - 1] - z.offsets[n] > instant - z.at[n - 1]
  }

  function Offset(z: Zone, wall: int, fold: bool): int
    requires |z.offsets| == |z.at| + 1
  {
    z.offsets[PassedWall(z, wall, fold, |z.at|)]
  }

  function Instant(z: Zone, wall: int, fold: bool): int
    requires |z.offsets| == |z.at| + 1
  {
    wall - Offset(z, wall, fold)
  }

  /** The import's rule: refuse a wall time whose two folds disagree. */
  function EventDatetime(z: Zone, wall: int): Option<int>
    requires |z.offsets| == |z.at| + 1
  {
    if Offset(z, wall, false) != Offset(z, wall, true) then None else Some(Instant(z, wall, false))
  }

  /** Re-zoning keeps the wall clock and the fold bit. */
  function Rezone(before: Zone, after: Zone, instant: int): int
    requires |before.offsets| == |before.at| + 1 && |after.offsets| == |after.at| + 1
  {
    Instant(after, Wall(before, instant), Fold(before, instant))
  }

  // ---------------------------------------------------------------- order

  lemma {:induction false} AtsOrdered(z: Zone, j: nat, k: nat)
    requires WellSpaced(z) && j < k < |z.at|
    ensures z.at[j] < z.at[k] && Switch(z, j, false) <= Switch(z, k, true)
    decreases k - j
  {
    if j + 1 < k {
      AtsOrdered(z, j + 1, k);
      assert Switch(z, j, false) <= Switch(z, j + 1, true) <= Switch(z, j + 1, false);
    }
  }

  lemma {:induction false} PassedFacts(z: Zone, instant: int, n: nat)
    requires WellSpaced(z) && n <= |z.at|
    ensures var r := Passed(z, instant, n);
      (r > 0 ==> z.at[r - 1] <= instant) && (r < n ==> instant < z.at[r])
    decreases n
  {
    if n > 0 && z.at[n - 1] > instant {
      PassedFacts(z, instant, n - 1);
    }
  }

  lemma {:induction false} PassedWallFacts(z: Zone, wall: int, fold: bool, n: nat)
    requires WellSpaced(z) && n <= |z.at|
    ensures var r := PassedWall(z, wall, fold, n);
      (r > 0 ==> Switch(z, r - 1, fold) <= wall) && (r < n ==> wall < Switch(z, r, fold))
    decreases n
  {
    if n > 0 && Switch(z, n - 1, fold) > wall {
      PassedWallFacts(z, wall, fold, n - 1);
    }
  }

  /** Segments are disjoint: an instant between two transitions is in the segment between them. */
  lemma InSegment(z: Zone, instant: int, n: nat)
    requires WellSpaced(z) && n <= |z.at| && (n > 0 ==> z.at[n - 1] <= instant) && (n < |z.at| ==> instant < z.at[n])
    ensures Segment(z, instant) == n
  {
    PassedFacts(z, instant, |z.at|);
    var r := Segment(z, instant);
    if r < n && r + 1 < n { AtsOrdered(z, r, n - 1); }
    if n < r && n + 1 < r { AtsOrdered(z, n, r - 1); }
  }

  lemma InWallSegment(z: Zone, wall: int, fold: bool, n: nat)
    requires WellSpaced(z) && n <= |z.at| && (n > 0 ==> Switch(z, n - 1, fold) <= wall) && (n < |z.at| ==> wall < Switch(z, n, fold))
    ensures PassedWall(z, wall, fold, |z.at|) == n
  {
    PassedWallFacts(z, wall, fold, |z.at|);
    var r := PassedWall(z, wall, fold, |z.at|);
    if r < n && r < n - 1 { AtsOrdered(z, r, n - 1); }
    if n < r && n < r - 1 { AtsOrdered(z, n, r - 1); }
  }

  // ---------------------------------------------------------------- theorems

  /** Every instant is recovered from its wall time and fold: what astimezone shows identifies the instant. */
  lemma WallAndFoldIdentify(z: Zone, instant: int)
    requires WellSpaced(z)
    ensures Instant(z, Wall(z, instant), Fold(z, instant)) == instant
    ensures PassedWall(z, Wall(z, instant), Fold(z, instant), |z.at|) == Segment(z, instant)
  {
    var n, wall, fold := Segment(z, instant), Wall(z, instant), Fold(z, instant);
    PassedFacts(z, instant, |z.at|);
    if n < |z.at| && n > 0 { assert Switch(z, n - 1, false) <= Switch(z, n, true); }
    InWallSegment(z, wall, fold, n);
  }

  /** The two folds name the same segment or neighbouring ones. */
  lemma FoldsAreClose(z: Zone, wall: int)
    requires WellSpaced(z)
    ensures PassedWall(z, wall, false, |z.at|) <= PassedWall(z, wall, true, |z.at|) <= PassedWall(z, wall, false, |z.at|) + 1
  {
    hide PassedWall;
    var f, s := PassedWall(z, wall, false, |z.at|), PassedWall(z, wall, true, |z.at|);
    PassedWallFacts(z, wall, false, |z.at|);
    PassedWallFacts(z, wall, true, |z.at|);
    if s + 1 < f { AtsOrdered(z, s, f - 1); }
    if f + 1 < s { AtsOrdered(z, f, s - 1); }
  }

  /** Both folds agree exactly when the wall time is outside every gap and overlap, and then name the same segment. */
  lemma FoldsAgree(z: Zone, wall: int)
    requires WellSpaced(z)
    ensures Offset(z, wall, false) == Offset(z, wall, true) <==>
              PassedWall(z, wall, false, |z.at|) == PassedWall(z, wall, true, |z.at|)
    ensures PassedWall(z, wall, false, |z.at|) <= PassedWall(z, wall, true, |z.at|) <= PassedWall(z, wall, false, |z.at|) + 1
  {
    hide PassedWall;
    FoldsAreClose(z, wall);
    PassedWallFacts(z, wall, false, |z.at|);
    PassedWallFacts(z, wall, true, |z.at|);
  }

  ghost predicate Shows(z: Zone, instant: int, wall: int)
    requires |z.offsets| == |z.at| + 1
  {
    Wall(z, instant) == wall
  }

  /** Accepted exactly when one and only one instant shows the wall time, and that instant is the answer. */
  lemma AcceptedMeansOneInstant(z: Zone, wall: int)
    requires WellSpaced(z)
    ensures EventDatetime(z, wall).Some? <==> exists i :: Shows(z, i, wall) && forall j :: Shows(z, j, wall) ==> j == i
    ensures EventDatetime(z, wall).Some? ==> Shows(z, EventDatetime(z, wall).value, wall)
  {
    FoldsAgree(z, wall);
    var f := PassedWall(z, wall, false, |z.at|);
    PassedWallFacts(z, wall, false, |z.at|);
    PassedWallFacts(z, wall, true, |z.at|);
    var first, second := Instant(z, wall, false), Instant(z, wall, true);
    forall j | Shows(z, j, wall)
      ensures j == first || j == second
    {
      WallAndFoldIdentify(z, j);
    }
    if EventDatetime(z, wall).Some? {
      InSegment(z, first, f);
      assert Shows(z, first, wall);
    } else if z.offsets[f + 1] < z.offsets[f] {
      OverlapShowsTwice(z, wall, f);
    } else {
      GapShowsNothing(z, wall, f);
    }
  }

  lemma OverlapShowsTwice(z: Zone, wall: int, f: nat)
    requires WellSpaced(z) && f < |z.at| && z.offsets[f + 1] < z.offsets[f] && Switch(z, f, true) <= wall < Switch(z, f, false)
    ensures Shows(z, wall - z.offsets[f], wall) && Shows(z, wall - z.offsets[f + 1], wall)
  {
    if f > 0 { assert Switch(z, f - 1, false) <= Switch(z, f, true); }
    if f + 1 < |z.at| { assert Switch(z, f, false) <= Switch(z, f + 1, true); }
    InSegment(z, wall - z.offsets[f], f);
    InSegment(z, wall - z.offsets[f + 1], f + 1);
  }

  lemma GapShowsNothing(z: Zone, wall: int, f: nat)
    requires WellSpaced(z) && f < |z.at| && z.offsets[f] <= z.offsets[f + 1]
    requires PassedWall(z, wall, false, |z.at|) == f && PassedWall(z, wall, true, |z.at|) == f + 1
    ensures forall j :: !Shows(z, j, wall)
  {
    PassedWallFacts(z, wall, false, |z.at|);
    PassedWallFacts(z, wall, true, |z.at|);
    forall j
      ensures !Shows(z, j, wall)
    {
      WallAndFoldIdentify(z, j);
      PassedFacts(z, j, |z.at|);
    }
  }

  /** The second showing of a wall time is in an overlap, where the folds disagree. */
  lemma FoldMeansOverlap(z: Zone, instant: int)
    requires WellSpaced(z) && Fold(z, instant)
    ensures Offset(z, Wall(z, instant), false) != Offset(z, Wall(z, instant), true)
  {
    var n, wall := Segment(z, instant), Wall(z, instant);
    PassedFacts(z, instant, |z.at|);
    WallAndFoldIdentify(z, instant);
    FoldsAgree(z, wall);
    PassedWallFacts(z, wall, false, |z.at|);
    assert wall < Switch(z, n - 1, false);
  }

  /** A wall time shown twice: fold 0 names the earlier instant, fold 1 the later, and the lookup back tells them apart. */
  lemma OverlapByFold(z: Zone, wall: int)
    requires WellSpaced(z) && exists i, j :: Shows(z, i, wall) && Shows(z, j, wall) && i != j
    ensures var first, second := Instant(z, wall, false), Instant(z, wall, true);
      && first < second && Shows(z, first, wall) && Shows(z, second, wall) && !Fold(z, first) && Fold(z, second)
      && forall i :: Shows(z, i, wall) ==> i == first || i == second
  {
    var first, second := Instant(z, wall, false), Instant(z, wall, true);
    forall i | Shows(z, i, wall)
      ensures i == if Fold(z, i) then second else first
    {
      WallAndFoldIdentify(z, i);
    }
    var i, j :| Shows(z, i, wall) && Shows(z, j, wall) && i != j;
    assert Fold(z, i) != Fold(z, j);
    FoldsAgree(z, wall);
    var f := PassedWall(z, wall, false, |z.at|);
    if second <= first { GapShowsNothing(z, wall, f); }
  }

  /** Neither of two successive transitions falls into the other's shift. */
  predicate Apart(z: Zone, k: nat)
    requires k + 1 < |z.at| && |z.offsets| == |z.at| + 1
  {
    z.at[k] + (z.offsets[k + 1] - z.offsets[k]) <= z.at[k + 1] && z.at[k] <= z.at[k + 1] - (z.offsets[k + 2] - z.offsets[k + 1])
  }

  ghost predicate Spacious(z: Zone) {
    WellSpaced(z) && forall k: nat :: k + 1 < |z.at| ==> Apart(z, k)
  }

  /** A wall time shown never: fold 0 reads it with the offset before the gap and lands after it, fold 1 the other way round. */
  lemma GapByFold(z: Zone, wall: int)
    requires Spacious(z) && forall i :: !Shows(z, i, wall)
    ensures var later, earlier := Instant(z, wall, false), Instant(z, wall, true);
      && earlier < later && Wall(z, earlier) < wall < Wall(z, later)
      && Wall(z, later) - wall == later - earlier == wall - Wall(z, earlier)
  {
    var later, earlier := Instant(z, wall, false), Instant(z, wall, true);
    FoldsAgree(z, wall);
    var f := PassedWall(z, wall, false, |z.at|);
    PassedWallFacts(z, wall, false, |z.at|);
    PassedWallFacts(z, wall, true, |z.at|);
    AcceptedMeansOneInstant(z, wall);
    if z.offsets[f + 1] < z.offsets[f] {
      OverlapShowsTwice(z, wall, f);
    }
    GapSegments(z, wall, f);
  }

  lemma GapSegments(z: Zone, wall: int, f: nat)
    requires Spacious(z) && f < |z.at| && z.offsets[f] < z.offsets[f + 1]
    requires Switch(z, f, true) <= wall < Switch(z, f, false)
    ensures Segment(z, wall - z.offsets[f]) == f + 1 && Segment(z, wall - z.offsets[f + 1]) == f
  {
    if f > 0 { assert Apart(z, f - 1); }
    if f + 1 < |z.at| { assert Apart(z, f); }
    InSegment(z, wall - z.offsets[f], f + 1);
    InSegment(z, wall - z.offsets[f + 1], f);
  }

  /** Re-zoning to a zone that shows the wall time twice keeps the wall clock, and takes the earlier or the later showing as it was before. */
  lemma RezoneInOverlap(before: Zone, after: Zone, instant: int)
    requires WellSpaced(before) && WellSpaced(after)
    requires exists i, j :: Shows(after, i, Wall(before, instant)) && Shows(after, j, Wall(before, instant)) && i != j
    ensures var now := Rezone(before, after, instant);
      && Wall(after, now) == Wall(before, instant) && Fold(after, now) == Fold(before, instant)
      && forall i :: Shows(after, i, Wall(before, instant)) ==> if Fold(before, instant) then i <= now else now <= i
  {
    OverlapByFold(after, Wall(before, instant));
  }

  /** Re-zoning into a gap moves the clock by the gap: forward for a first showing, back for a second. */
  lemma RezoneInGap(before: Zone, after: Zone, instant: int)
    requires WellSpaced(before) && Spacious(after) && forall i :: !Shows(after, i, Wall(before, instant))
    ensures var now := Rezone(before, after, instant);
      if Fold(before, instant) then Wall(after, now) < Wall(before, instant) else Wall(after, now) > Wall(before, instant)
  {
    GapByFold(after, Wall(before, instant));
  }

  /** Re-zoning to a zone where the wall time is unambiguous keeps the wall clock. */
  lemma RezoneKeepsWall(before: Zone, after: Zone, instant: int)
    requires WellSpaced(before) && WellSpaced(after) && EventDatetime(after, Wall(before, instant)).Some?
    ensures Wall(after, Rezone(before, after, instant)) == Wall(before, instant)
    ensures !Fold(after, Rezone(before, after, instant))
  {
    var wall := Wall(before, instant);
    AcceptedMeansOneInstant(after, wall);
    assert Rezone(before, after, instant) == EventDatetime(after, wall).value;
    if Fold(after, Rezone(before, after, instant)) { FoldMeansOverlap(after, Rezone(before, after, instant)); }
  }

  /** Re-zoning back restores the instant exactly when it was not the second showing of a repeated wall time. */
  lemma RezoneRoundTrip(before: Zone, after: Zone, instant: int)
    requires WellSpaced(before) && WellSpaced(after) && EventDatetime(after, Wall(before, instant)).Some?
    ensures Rezone(after, before, Rezone(before, after, instant)) == instant <==> !Fold(before, instant)
  {
    RezoneKeepsWall(before, after, instant);
    WallAndFoldIdentify(before, instant);
    if Fold(before, instant) { FoldMeansOverlap(before, instant); }
  }

  function RezoneField(before: Zone, after: Zone, field: Option<int>): Option<int>
    requires |before.offsets| == |before.at| + 1 && |after.offsets| == |after.at| + 1
  {
    if field.None? then None else Some(Rezone(before, after, field.value))
  }
}
