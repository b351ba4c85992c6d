/**
 * The read-only report: what it predicts from the untouched database is what
 * the merge does, although the report chooses every winner up front and the
 * merge changes the tables between one group and the next.
 */
module CaseMergeReport {
  import opened Options
  import opened Ordering
  import opened ChildTable
  import opened CaseTables

  // ----- the movements table through a group

  ghost function MergeMovementRows(t: Table<Movement>, losers: seq<int>, winner: int): Table<Movement>
    decreases |losers|
  {
    if losers == [] then t else MergeMovementRows(Merged(t, MovementKey, losers[0], winner), losers[1..], winner)
  }

  /** Movement rows deleted while the losers are merged one after another. */
  ghost function Contained(t: Table<Movement>, losers: seq<int>, winner: int): nat
    decreases |losers|
  {
    if losers == [] then 0 else
      |DroppedIds(t, MovementKey, losers[0], winner)| +
        Contained(Merged(t, MovementKey, losers[0], winner), losers[1..], winner)
  }

  /** Movement rows that change owner meanwhile. */
  ghost function Unioned(t: Table<Movement>, losers: seq<int>, winner: int): nat
    decreases |losers|
  {
    if losers == [] then 0 else
      |Ids(t, losers[0]) - DroppedIds(t, MovementKey, losers[0], winner)|
      + Unioned(Merged(t, MovementKey, losers[0], winner), losers[1..], winner)
  }

  ghost function MovedIds<D>(before: Table<D>, after: Table<D>): set<int> {
    set id | id in before && id in after && before[id].caseId != after[id].caseId
  }

  lemma MergedSize(t: Table<Movement>, loser: int, winner: int)
    ensures |Merged(t, MovementKey, loser, winner)| == |t| - |DroppedIds(t, MovementKey, loser, winner)|
  {
    var d, m := DroppedIds(t, MovementKey, loser, winner), Merged(t, MovementKey, loser, winner);
    assert d <= t.Keys;
    assert m.Keys == t.Keys - d;
    assert |t.Keys| == |t.Keys - d| + |d|;
    assert |m.Keys| == |m| && |t.Keys| == |t|;
  }

  lemma MergedMoves(t: Table<Movement>, loser: int, winner: int)
    requires loser != winner
    ensures MovedIds(t, Merged(t, MovementKey, loser, winner)) ==
      Ids(t, loser) - DroppedIds(t, MovementKey, loser, winner)
  {
    var m := Merged(t, MovementKey, loser, winner);
    forall id ensures id in MovedIds(t, m) <==> id in Ids(t, loser) - DroppedIds(t, MovementKey, loser, winner) {
      if id in t {
        MergedRow(t, MovementKey, loser, winner, id);
      }
    }
  }

  /** A row whose owner is no loser stays as it is. */
  lemma {:induction false} OtherRowsStay(t: Table<Movement>, losers: seq<int>, winner: int, id: int)
    requires winner !in losers && id in t && forall l :: l in losers ==> t[id].caseId != Some(l)
    ensures id in MergeMovementRows(t, losers, winner) && MergeMovementRows(t, losers, winner)[id] == t[id]
    decreases |losers|
  {
    if losers != [] {
      MergedRow(t, MovementKey, losers[0], winner, id);
      OtherRowsStay(Merged(t, MovementKey, losers[0], winner), losers[1..], winner, id);
    }
  }

  lemma {:induction false} OnlyOldRows(t: Table<Movement>, losers: seq<int>, winner: int)
    requires winner !in losers
    ensures MergeMovementRows(t, losers, winner).Keys <= t.Keys
    decreases |losers|
  {
    if losers != [] {
      MergedSubset(t, MovementKey, losers[0], winner);
      OnlyOldRows(Merged(t, MovementKey, losers[0], winner), losers[1..], winner);
    }
  }

  /** Rows that move do so once: what moves in two stages is what moves in each. */
  lemma MovedInStages<D>(a: Table<D>, b: Table<D>, c: Table<D>, settled: set<int>)
    requires b.Keys <= a.Keys && c.Keys <= b.Keys
    requires forall id :: id in MovedIds(a, b) ==> b[id].caseId.Some? && b[id].caseId.value in settled
    requires forall id :: id in b && b[id].caseId.Some? && b[id].caseId.value in settled ==>
      id in c && c[id].caseId == b[id].caseId
    ensures |MovedIds(a, c)| == |MovedIds(a, b)| + |MovedIds(b, c)|
  {
    forall id ensures id in MovedIds(a, c) <==> id in MovedIds(a, b) || id in MovedIds(b, c) {}
    assert MovedIds(a, c) == MovedIds(a, b) + MovedIds(b, c);
    forall id | id in MovedIds(a, b) ensures id !in MovedIds(b, c) {}
    assert MovedIds(a, b) !! MovedIds(b, c);
  }

  lemma {:induction false} GroupEffect(t: Table<Movement>, losers: seq<int>, winner: int)
    requires winner !in losers
    ensures |MergeMovementRows(t, losers, winner)| == |t| - Contained(t, losers, winner)
    ensures |MovedIds(t, MergeMovementRows(t, losers, winner))| == Unioned(t, losers, winner)
    decreases |losers|
  {
    if losers == [] {
      assert MovedIds(t, t) == {};
    } else {
      var t1 := Merged(t, MovementKey, losers[0], winner);
      var end := MergeMovementRows(t1, losers[1..], winner);
      MergedSize(t, losers[0], winner);
      MergedMoves(t, losers[0], winner);
      GroupEffect(t1, losers[1..], winner);
      OnlyOldRows(t1, losers[1..], winner);
      forall id | id in MovedIds(t, t1) ensures t1[id].caseId == Some(winner) {
        MergedRow(t, MovementKey, losers[0], winner, id);
      }
      forall id | id in t1 && t1[id].caseId == Some(winner) ensures id in end && end[id].caseId == t1[id].caseId {
        OtherRowsStay(t1, losers[1..], winner, id);
      }
      MovedInStages(t, t1, end, {winner});
    }
  }

  // ----- a group's counts depend only on its own rows

  ghost predicate SameMovements(a: Table<Movement>, b: Table<Movement>, c: int) {
    Ids(a, c) == Ids(b, c) && forall id :: id in Ids(a, c) ==> a[id] == b[id]
  }

  lemma PrecedesSame(a: Table<Movement>, b: Table<Movement>, loser: int, winner: int, j: int, id: int)
    requires SameMovements(a, b, loser) && SameMovements(a, b, winner) && id in Ids(a, loser)
    requires Precedes(a, MovementKey, loser, winner, j, id)
    ensures Precedes(b, MovementKey, loser, winner, j, id)
  {
    assert j in Ids(a, loser) || j in Ids(a, winner);
  }

  lemma DroppedSame(a: Table<Movement>, b: Table<Movement>, loser: int, winner: int)
    requires SameMovements(a, b, loser) && SameMovements(a, b, winner)
    ensures DroppedIds(a, MovementKey, loser, winner) == DroppedIds(b, MovementKey, loser, winner)
  {
    forall id ensures id in DroppedIds(a, MovementKey, loser, winner) <==>
      id in DroppedIds(b, MovementKey, loser, winner) {
      if Dropped(a, MovementKey, loser, winner, id) {
        var j :| Precedes(a, MovementKey, loser, winner, j, id);
        assert id in Ids(a, loser);
        PrecedesSame(a, b, loser, winner, j, id);
      }
      if Dropped(b, MovementKey, loser, winner, id) {
        var j :| Precedes(b, MovementKey, loser, winner, j, id);
        assert id in Ids(b, loser);
        PrecedesSame(b, a, loser, winner, j, id);
      }
    }
  }

  lemma MergedSame(a: Table<Movement>, b: Table<Movement>, loser: int, winner: int, c: int)
    requires loser != winner && c != loser
    requires SameMovements(a, b, loser) && SameMovements(a, b, winner) && SameMovements(a, b, c)
    ensures SameMovements(Merged(a, MovementKey, loser, winner), Merged(b, MovementKey, loser, winner), c)
  {
    DroppedSame(a, b, loser, winner);
    var x, y := Merged(a, MovementKey, loser, winner), Merged(b, MovementKey, loser, winner);
    forall id ensures (id in Ids(x, c) ==> id in Ids(y, c) && x[id] == y[id]) && (id in Ids(y, c) ==> id in Ids(x, c)) {
      assert id in DroppedIds(a, MovementKey, loser, winner) <==> id in DroppedIds(b, MovementKey, loser, winner);
      if id in a { MergedRow(a, MovementKey, loser, winner, id); }
      if id in b { MergedRow(b, MovementKey, loser, winner, id); }
      assert id in Ids(a, c) <==> id in Ids(b, c);
      assert id in Ids(a, loser) <==> id in Ids(b, loser);
    }
  }

  lemma {:induction false} CountsSame(a: Table<Movement>, b: Table<Movement>, losers: seq<int>, winner: int)
    requires winner !in losers && (forall i, j :: 0 <= i < j < |losers| ==> losers[i] != losers[j])
    requires SameMovements(a, b, winner) && forall l :: l in losers ==> SameMovements(a, b, l)
    ensures Contained(a, losers, winner) == Contained(b, losers, winner)
    ensures Unioned(a, losers, winner) == Unioned(b, losers, winner)
    decreases |losers|
  {
    if losers != [] {
      var a1, b1 := Merged(a, MovementKey, losers[0], winner), Merged(b, MovementKey, losers[0], winner);
      DroppedSame(a, b, losers[0], winner);
      MergedSame(a, b, losers[0], winner, winner);
      forall l | l in losers[1..] ensures SameMovements(a1, b1, l) {
        MergedSame(a, b, losers[0], winner, l);
      }
      CountsSame(a1, b1, losers[1..], winner);
    }
  }

  // ----- the loop of the report over one group

  /** Losers in id order, movements in id order, identities already seen counted as contained. */
  method PredictGroup(k: Kids, losers: seq<int>, winner: int) returns (contained: nat, unioned: nat)
    requires winner !in losers && forall i, j :: 0 <= i < j < |losers| ==> losers[i] != losers[j]
    ensures contained == Contained(k.movements, losers, winner)
    ensures unioned == Unioned(k.movements, losers, winner)
  {
    contained, unioned := 0, 0;
    var seen := SeenKeys(k.movements, MovementKey, winner);
    ghost var t := k.movements;
    assert losers[0..] == losers;
    for i := 0 to |losers|
      invariant seen == Keys(t, MovementKey, winner)
        && (forall l :: l in losers[i..] ==> SameMovements(k.movements, t, l))
      invariant contained + Contained(t, losers[i..], winner) == Contained(k.movements, losers, winner)
      invariant unioned + Unioned(t, losers[i..], winner) == Unioned(k.movements, losers, winner)
    {
      var l := losers[i];
      assert losers[i..][0] == l && losers[i..][1..] == losers[i + 1..];
      var c, u, after := CountLoser(k.movements, seen, l);
      PredictedIsDropped(k.movements, t, l, winner);
      contained, unioned, seen := contained + c, unioned + u, after;
      forall m | m in losers[i + 1..] ensures SameMovements(k.movements, Merged(t, MovementKey, l, winner), m) {
        assert m in losers[i..];
        MergedElsewhere(t, MovementKey, l, winner, m);
      }
      t := Merged(t, MovementKey, l, winner);
    }
    assert losers[|losers|..] == [];
  }

  /** One loser: how many of its movements are already known, how many are new. */
  method CountLoser(rows: Table<Movement>, seen: set<Movement>, loser: int)
    returns (contained: nat, unioned: nat, after: set<Movement>)
    ensures contained == Hits(rows, seen, RowsOf(rows, loser), |RowsOf(rows, loser)|)
    ensures contained + unioned == |RowsOf(rows, loser)|
    ensures after == SeenBefore(rows, seen, RowsOf(rows, loser), |RowsOf(rows, loser)|)
  {
    contained, unioned, after := 0, 0, seen;
    var ids := RowsOf(rows, loser);
    for i := 0 to |ids|
      invariant after == SeenBefore(rows, seen, ids, i)
      invariant contained == Hits(rows, seen, ids, i) && unioned == i - contained
    {
      var key := rows[ids[i]].data;
      if key in after {
        contained := contained + 1;
      } else {
        unioned := unioned + 1;
        after := after + {key};
      }
    }
  }

  /** Identities seen, and rows found among them, before the visit of `ids[i]`. */
  ghost function SeenBefore(rows: Table<Movement>, seen: set<Movement>, ids: seq<int>, i: nat): set<Movement>
    requires i <= |ids| && forall j :: 0 <= j < |ids| ==> ids[j] in rows
  {
    if i == 0 then seen else SeenBefore(rows, seen, ids, i - 1) + {rows[ids[i - 1]].data}
  }

  ghost function Hits(rows: Table<Movement>, seen: set<Movement>, ids: seq<int>, i: nat): nat
    requires i <= |ids| && forall j :: 0 <= j < |ids| ==> ids[j] in rows
  {
    if i == 0 then 0 else
      Hits(rows, seen, ids, i - 1) + (if rows[ids[i - 1]].data in SeenBefore(rows, seen, ids, i - 1) then 1 else 0)
  }

  lemma {:induction false} SeenBeforeIs(rows: Table<Movement>, t: Table<Movement>, loser: int, winner: int,
                                        ids: seq<int>, i: nat)
    requires SameMovements(rows, t, loser) && i <= |ids|
      && forall j :: 0 <= j < |ids| ==> Owned(rows, loser, ids[j]) && ids[j] in Ids(t, loser)
    ensures SeenBefore(rows, Keys(t, MovementKey, winner), ids, i) == SeenAt(t, MovementKey, winner, ids, i)
    decreases i
  {
    if i > 0 {
      SeenBeforeIs(rows, t, loser, winner, ids, i - 1);
      SeenAtStep(t, MovementKey, winner, ids, i - 1);
    }
  }

  /** `ids[i]` is found exactly when the merge drops it. */
  lemma HitIffDropped(rows: Table<Movement>, t: Table<Movement>, loser: int, winner: int, ids: seq<int>, i: nat)
    requires loser != winner && Ascending(ids, IntLess) && Elements(ids) == Ids(t, loser) && i < |ids|
    requires SameMovements(rows, t, loser)
      && forall j :: 0 <= j < |ids| ==> Owned(rows, loser, ids[j]) && ids[j] in Ids(t, loser)
    ensures rows[ids[i]].data in SeenBefore(rows, Keys(t, MovementKey, winner), ids, i)
       <==> ids[i] in DroppedIds(t, MovementKey, loser, winner)
  {
    SeenBeforeIs(rows, t, loser, winner, ids, i);
    LoopStep(t, MovementKey, loser, winner, ids, i);
  }

  lemma {:induction false} HitsAre(rows: Table<Movement>, seen: set<Movement>, ids: seq<int>, i: nat, dropped: set<int>)
    requires Ascending(ids, IntLess) && i <= |ids| && forall j :: 0 <= j < |ids| ==> ids[j] in rows
    requires forall j :: 0 <= j < |ids| ==> (ids[j] in dropped <==> rows[ids[j]].data in SeenBefore(rows, seen, ids, j))
    ensures Hits(rows, seen, ids, i) == |dropped * Elements(ids[..i])|
    decreases i
  {
    if i > 0 {
      HitsAre(rows, seen, ids, i - 1, dropped);
      CountStep(dropped, ids, i - 1);
    }
  }

  /** `t` is the table the merge has reached when it takes this loser; the report only read `rows`. */
  lemma PredictedIsDropped(rows: Table<Movement>, t: Table<Movement>, loser: int, winner: int)
    requires loser != winner && SameMovements(rows, t, loser)
    ensures
      var ids, seen := RowsOf(rows, loser), Keys(t, MovementKey, winner);
      && Hits(rows, seen, ids, |ids|) == |DroppedIds(t, MovementKey, loser, winner)|
      && |ids| - Hits(rows, seen, ids, |ids|) == |Ids(t, loser) - DroppedIds(t, MovementKey, loser, winner)|
      && SeenBefore(rows, seen, ids, |ids|) == Keys(Merged(t, MovementKey, loser, winner), MovementKey, winner)
  {
    var ids, seen := RowsOf(rows, loser), Keys(t, MovementKey, winner);
    var dropped := DroppedIds(t, MovementKey, loser, winner);
    assert forall j :: 0 <= j < |ids| ==> ids[j] in Elements(ids);
    forall j | 0 <= j < |ids| ensures ids[j] in dropped <==> rows[ids[j]].data in SeenBefore(rows, seen, ids, j) {
      HitIffDropped(rows, t, loser, winner, ids, j);
    }
    HitsAre(rows, seen, ids, |ids|, dropped);
    SeenBeforeIs(rows, t, loser, winner, ids, |ids|);
    SeenEnds(t, loser, winner, ids);
    AscendingSize(ids, IntLess);
    assert dropped <= Ids(t, loser);
    assert |Ids(t, loser)| == |Ids(t, loser) - dropped| + |dropped|;
  }

  lemma SeenEnds(t: Table<Movement>, loser: int, winner: int, ids: seq<int>)
    requires loser != winner && Elements(ids) == Ids(t, loser)
    ensures ids[..|ids|] == ids
    ensures DroppedIds(t, MovementKey, loser, winner) * Elements(ids) == DroppedIds(t, MovementKey, loser, winner)
    ensures SeenAt(t, MovementKey, winner, ids, |ids|) ==
      Keys(Merged(t, MovementKey, loser, winner), MovementKey, winner)
  {
    assert ids[..|ids|] == ids;
    assert forall id :: id in DroppedIds(t, MovementKey, loser, winner) ==> id in Ids(t, loser);
    MergedKeys(t, MovementKey, loser, winner);
    assert KeysOf(t, MovementKey, Ids(t, loser)) == Keys(t, MovementKey, loser);
  }

  lemma CountStep(dropped: set<int>, ids: seq<int>, i: nat)
    requires Ascending(ids, IntLess) && i < |ids|
    ensures |dropped * Elements(ids[..i + 1])| == |dropped * Elements(ids[..i])| + (if ids[i] in dropped then 1 else 0)
  {
    TakeElements(ids, i);
    assert ids[i] !in ids[..i];
    var before := Elements(ids[..i]);
    if ids[i] in dropped {
      assert dropped * (before + {ids[i]}) == (dropped * before) + {ids[i]};
    } else {
      assert dropped * (before + {ids[i]}) == dropped * before;
    }
  }
}
