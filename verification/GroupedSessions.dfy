/** Roster rows that repeat a program code: one pass flags the rows that disagree with the first of their code. */
module GroupedSessions {
  import opened Wrappers

  /** key is the normalized session code, if the row has one; signature its authoritative fields. */
  datatype Line = Line(key: Option<nat>, signature: nat)

  predicate SameGroup(rows: seq<Line>, i: nat, j: nat)
    requires i < |rows| && j < |rows|
  {
    rows[i].key.Some? && rows[i].key == rows[j].key
  }

  predicate IsFirst(rows: seq<Line>, i: nat)
    requires i < |rows|
  {
    forall j :: 0 <= j < i ==> !SameGroup(rows, j, i)
  }

  /** The first row of a group is flagged if some row differs from it, a later one if it differs itself. */
  ghost predicate Flagged(rows: seq<Line>, i: nat)
    requires i < |rows|
  {
    exists j :: 0 <= j < |rows| && SameGroup(rows, i, j) && rows[i].signature != rows[j].signature
                && (IsFirst(rows, i) || IsFirst(rows, j))
  }

  /** What a flag says: the first row of a code has one exactly if a later row differs, a later row exactly if it differs from the first. */
  lemma FlaggedExactly(rows: seq<Line>, i: nat, first: nat)
    requires i < |rows| && first <= i && rows[first].key == rows[i].key
    requires forall j :: 0 <= j < first ==> rows[j].key != rows[i].key
    ensures rows[i].key.None? ==> !Flagged(rows, i)
    ensures rows[i].key.Some? && i == first ==>
      (Flagged(rows, i) <==> exists j :: i < j < |rows| && rows[j].key == rows[i].key && rows[j].signature != rows[i].signature)
    ensures rows[i].key.Some? && i != first ==> (Flagged(rows, i) <==> rows[i].signature != rows[first].signature)
  {
    if rows[i].key.Some? {
      assert IsFirst(rows, first) && SameGroup(rows, first, i) && SameGroup(rows, i, first);
      forall j: nat | j < |rows| && SameGroup(rows, i, j)
        ensures IsFirst(rows, j) <==> j == first
      {
        if j > first { assert SameGroup(rows, first, j); }
      }
    }
  }

  lemma FirstExists(rows: seq<Line>, i: nat) returns (f: nat)
    requires i < |rows| && rows[i].key.Some?
    ensures f <= i && SameGroup(rows, f, i) && IsFirst(rows, f)
    decreases i
  {
    if IsFirst(rows, i) {
      f := i;
    } else {
      var j: nat :| j < i && SameGroup(rows, j, i);
      f := FirstExists(rows, j);
    }
  }

  lemma FirstIsUnique(rows: seq<Line>, f: nat, g: nat)
    requires f < |rows| && g < |rows| && SameGroup(rows, f, g) && IsFirst(rows, f) && IsFirst(rows, g)
    ensures f == g
  {
    assert SameGroup(rows, g, f);
  }

  /** No row of a group is flagged exactly when all its signatures are pairwise equal. */
  lemma UnflaggedMeansEqual(rows: seq<Line>, key: nat)
    ensures (forall i :: 0 <= i < |rows| && rows[i].key == Some(key) ==> !Flagged(rows, i)) <==>
            (forall i, j :: 0 <= i < |rows| && 0 <= j < |rows| && rows[i].key == Some(key) && rows[j].key == Some(key) ==>
               rows[i].signature == rows[j].signature)
  {
    if forall i :: 0 <= i < |rows| && rows[i].key == Some(key) ==> !Flagged(rows, i) {
      forall i, j | 0 <= i < |rows| && 0 <= j < |rows| && rows[i].key == Some(key) && rows[j].key == Some(key)
        ensures rows[i].signature == rows[j].signature
      {
        var f := FirstExists(rows, i);
        var g := FirstExists(rows, j);
        FirstIsUnique(rows, f, g);
        assert !Flagged(rows, f) && SameGroup(rows, f, i) && SameGroup(rows, f, j);
      }
    }
  }

  /** What the pass has flagged after its first n rows. */
  ghost predicate FlaggedBy(rows: seq<Line>, flags: seq<bool>, n: nat)
    requires n <= |rows| && |flags| == |rows|
  {
    forall i: nat :: i < |rows| ==> (flags[i] <==> i < n && Flagged(rows[..n], i))
  }

  lemma PrefixFirst(rows: seq<Line>, n: nat, i: nat)
    requires i < n <= |rows|
    ensures IsFirst(rows[..n], i) <==> IsFirst(rows, i)
  {
    assert forall j :: 0 <= j < i ==> (SameGroup(rows[..n], j, i) <==> SameGroup(rows, j, i));
  }

  /** One more row changes the flags of itself and of the first row of its group, and of no other. */
  lemma OneMoreRow(rows: seq<Line>, n: nat, f: nat, i: nat)
    requires n < |rows| && rows[n].key.Some? && f <= n && SameGroup(rows, f, n) && IsFirst(rows, f) && i <= n
    ensures var differs := rows[f].signature != rows[n].signature;
      Flagged(rows[..n + 1], i) <==> (i < n && Flagged(rows[..n], i)) || (differs && (i == f || i == n))
  {
    var more, less := rows[..n + 1], rows[..n];
    PrefixFirst(rows, n + 1, f);
    if Flagged(more, i) {
      var j :| 0 <= j < |more| && SameGroup(more, i, j) && more[i].signature != more[j].signature && (IsFirst(more, i) || IsFirst(more, j));
      PrefixFirst(rows, n + 1, i);
      PrefixFirst(rows, n + 1, j);
      if i < n && j < n {
        PrefixFirst(rows, n, i);
        PrefixFirst(rows, n, j);
        assert SameGroup(less, i, j);
      } else {
        assert SameGroup(rows, f, i) && SameGroup(rows, f, j) && SameGroup(rows, i, j) && SameGroup(rows, j, i);
        assert SameGroup(rows, i, f) && SameGroup(rows, j, f);
        if IsFirst(rows, i) { FirstIsUnique(rows, f, i); } else { FirstIsUnique(rows, f, j); }
      }
    }
    if i < n && Flagged(less, i) {
      var j :| 0 <= j < |less| && SameGroup(less, i, j) && less[i].signature != less[j].signature && (IsFirst(less, i) || IsFirst(less, j));
      PrefixFirst(rows, n, i);
      PrefixFirst(rows, n, j);
      PrefixFirst(rows, n + 1, i);
      PrefixFirst(rows, n + 1, j);
      assert SameGroup(more, i, j);
    }
    if rows[f].signature != rows[n].signature {
      assert SameGroup(more, f, n) && SameGroup(more, n, f) && IsFirst(more, f);
      assert more[f].signature != more[n].signature;
    }
  }

  lemma OneMoreLooseRow(rows: seq<Line>, n: nat, i: nat)
    requires n < |rows| && rows[n].key.None? && i <= n
    ensures Flagged(rows[..n + 1], i) <==> i < n && Flagged(rows[..n], i)
  {
    var more, less := rows[..n + 1], rows[..n];
    if Flagged(more, i) {
      var j :| 0 <= j < |more| && SameGroup(more, i, j) && more[i].signature != more[j].signature && (IsFirst(more, i) || IsFirst(more, j));
      PrefixFirst(rows, n + 1, i);
      PrefixFirst(rows, n + 1, j);
      PrefixFirst(rows, n, i);
      PrefixFirst(rows, n, j);
      assert SameGroup(less, i, j);
    }
    if i < n && Flagged(less, i) {
      var j :| 0 <= j < |less| && SameGroup(less, i, j) && less[i].signature != less[j].signature && (IsFirst(less, i) || IsFirst(less, j));
      PrefixFirst(rows, n, i);
      PrefixFirst(rows, n, j);
      PrefixFirst(rows, n + 1, i);
      PrefixFirst(rows, n + 1, j);
      assert SameGroup(more, i, j);
    }
  }

  /** The single pass, with its dictionary of first rows. */
  method CheckGroups(rows: seq<Line>) returns (flags: seq<bool>)
    ensures |flags| == |rows| && forall i: nat :: i < |rows| ==> (flags[i] <==> Flagged(rows, i))
  {
    flags := seq(|rows|, _ => false);
    var first: map<nat, nat> := map[];
    for n := 0 to |rows|
      invariant |flags| == |rows| && FlaggedBy(rows, flags, n)
      invariant forall key :: key in first ==> first[key] < n && rows[first[key]].key == Some(key) && IsFirst(rows, first[key])
      invariant forall i :: 0 <= i < n && rows[i].key.Some? ==> rows[i].key.value in first
    {
      var row := rows[n];
      if row.key.None? {
        forall i: nat | i <= n ensures Flagged(rows[..n + 1], i) <==> i < n && Flagged(rows[..n], i) { OneMoreLooseRow(rows, n, i); }
      } else if row.key.value in first {
        var f := first[row.key.value];
        forall i: nat | i <= n
          ensures Flagged(rows[..n + 1], i) <==> (i < n && Flagged(rows[..n], i)) || (rows[f].signature != rows[n].signature && (i == f || i == n))
        {
          OneMoreRow(rows, n, f, i);
        }
        if rows[f].signature != row.signature {
          flags := flags[n := true][f := true];
        }
      } else {
        forall i: nat | i <= n ensures Flagged(rows[..n + 1], i) <==> i < n && Flagged(rows[..n], i) { OneMoreRow(rows, n, n, i); }
        first := first[row.key.value := n];
      }
    }
    assert rows[..|rows|] == rows;
  }
}
