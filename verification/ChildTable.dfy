/**
 * One child table of `cases` and the loser -> winner merge of its rows.
 *
 * The tables differ only in what identifies a row inside a case, so the merge
 * is stated once for a table of `Row<D>` and an identity `key: D -> Option<K>`
 * (None: the row has no identity and is never collapsed).
 */
module ChildTable {
  import opened Options
  import opened Ordering

  datatype Row<+D> = Row(caseId: Option<int>, data: D)

  type Table<+D> = map<int, Row<D>>

  ghost predicate Owned<D>(t: Table<D>, c: int, id: int) {
    id in t && t[id].caseId == Some(c)
  }

  /** Ids of the rows of case `c`. */
  function Ids<D>(t: Table<D>, c: int): set<int> {
    set id | id in t && t[id].caseId == Some(c)
  }

  /** The identities held by case `c`. */
  ghost function Keys<D, K>(t: Table<D>, key: D -> Option<K>, c: int): set<K> {
    set id | id in Ids(t, c) && key(t[id].data).Some? :: key(t[id].data).value
  }

  ghost predicate Same<D, K>(t: Table<D>, key: D -> Option<K>, i: int, j: int)
    requires i in t && j in t
  {
    && t[i].caseId.Some? && t[i].caseId == t[j].caseId
    && key(t[i].data).Some? && key(t[i].data) == key(t[j].data)
  }

  /** No two rows of one case share an identity: the per-case UNIQUE constraint. */
  ghost predicate UniqueKeys<D, K>(t: Table<D>, key: D -> Option<K>) {
    forall i, j :: i in t && j in t && Same(t, key, i, j) ==> i == j
  }

  predicate OwnersIn<D>(t: Table<D>, cs: set<int>) {
    forall id :: id in t && t[id].caseId.Some? ==> t[id].caseId.value in cs
  }

  // ----- what the merge of one table does

  /** Row `j` is visited before loser row `id` and holds the same identity. */
  ghost predicate Precedes<D, K>(t: Table<D>, key: D -> Option<K>, loser: int, winner: int, j: int, id: int)
    requires id in t
  {
    && j in t && key(t[j].data) == key(t[id].data)
    && (t[j].caseId == Some(winner) || (t[j].caseId == Some(loser) && j < id))
  }

  /** Loser row `id` collides and is deleted. */
  ghost predicate Dropped<D, K>(t: Table<D>, key: D -> Option<K>, loser: int, winner: int, id: int) {
    && Owned(t, loser, id) && key(t[id].data).Some?
    && exists j :: Precedes(t, key, loser, winner, j, id)
  }

  ghost function DroppedIds<D, K>(t: Table<D>, key: D -> Option<K>, loser: int, winner: int): set<int> {
    set id | id in t && Dropped(t, key, loser, winner, id)
  }

  /** The table after the row operations (delete or re-point) of the rows in `done`. */
  ghost function Applied<D, K>(t: Table<D>, key: D -> Option<K>, loser: int, winner: int, done: set<int>): Table<D> {
    map id | id in t.Keys - (DroppedIds(t, key, loser, winner) * done) ::
      if id in done && t[id].caseId == Some(loser) then Row(Some(winner), t[id].data) else t[id]
  }

  ghost function Merged<D, K>(t: Table<D>, key: D -> Option<K>, loser: int, winner: int): Table<D> {
    Applied(t, key, loser, winner, t.Keys)
  }

  /** The row that keeps the identity of a dropped row: the winner's first, else the loser's first. */
  ghost predicate IsCanonical<D, K>(t: Table<D>, key: D -> Option<K>, loser: int, winner: int, id: int, c: int)
    requires id in t
  {
    && Precedes(t, key, loser, winner, c, id)
    && forall j :: Precedes(t, key, loser, winner, j, id) ==>
        if t[c].caseId == Some(winner) then t[j].caseId == Some(winner) ==> c <= j
        else t[j].caseId != Some(winner) && c <= j
  }

  ghost predicate IsCanon<D, K>(t: Table<D>, key: D -> Option<K>, loser: int, winner: int, canon: map<int, int>) {
    && canon.Keys == DroppedIds(t, key, loser, winner)
    && forall id :: id in canon ==> IsCanonical(t, key, loser, winner, id, canon[id])
  }

  lemma CanonicalExists<D, K>(t: Table<D>, key: D -> Option<K>, loser: int, winner: int, id: int) returns (c: int)
    requires loser != winner && Dropped(t, key, loser, winner, id)
    ensures IsCanonical(t, key, loser, winner, id, c)
  {
    var rivals := set j | j in t && Precedes(t, key, loser, winner, j, id);
    var ofWinner := set j | j in rivals && t[j].caseId == Some(winner);
    var j :| Precedes(t, key, loser, winner, j, id);
    assert j in rivals;
    c := Least(if ofWinner != {} then ofWinner else rivals, IntLess);
    forall i | Precedes(t, key, loser, winner, i, id)
      ensures if t[c].caseId == Some(winner) then t[i].caseId == Some(winner) ==> c <= i
              else t[i].caseId != Some(winner) && c <= i
    {
      assert i in rivals && (t[i].caseId == Some(winner) ==> i in ofWinner);
    }
  }

  /** The canonical row of every dropped row. */
  ghost function Canon<D, K>(t: Table<D>, key: D -> Option<K>, loser: int, winner: int): (canon: map<int, int>)
    requires loser != winner
    ensures IsCanon(t, key, loser, winner, canon)
  {
    assert forall id :: id in DroppedIds(t, key, loser, winner) ==>
      exists c :: IsCanonical(t, key, loser, winner, id, c) by {
      forall id | id in DroppedIds(t, key, loser, winner)
        ensures exists c :: IsCanonical(t, key, loser, winner, id, c) {
        var c := CanonicalExists(t, key, loser, winner, id);
      }
    }
    map id | id in DroppedIds(t, key, loser, winner) :: var c :| IsCanonical(t, key, loser, winner, id, c); c
  }

  lemma CanonUnique<D, K>(t: Table<D>, key: D -> Option<K>, loser: int, winner: int, a: map<int, int>, b: map<int, int>)
    requires IsCanon(t, key, loser, winner, a) && IsCanon(t, key, loser, winner, b)
    ensures a == b
  {
    forall id | id in a ensures a[id] == b[id] {
      assert IsCanonical(t, key, loser, winner, id, a[id]);
      assert IsCanonical(t, key, loser, winner, id, b[id]);
    }
  }

  // ----- what it guarantees

  /**
   * Step-wise uniqueness: whichever of the row operations have been carried out,
   * in whatever order, no case holds the same identity twice.
   */
  lemma AppliedUnique<D, K>(t: Table<D>, key: D -> Option<K>, loser: int, winner: int, done: set<int>)
    requires loser != winner && UniqueKeys(t, key)
    ensures UniqueKeys(Applied(t, key, loser, winner, done), key)
  {
    var u := Applied(t, key, loser, winner, done);
    forall i, j | i in u && j in u && Same(u, key, i, j) ensures i == j {
      if t[i].caseId == Some(loser) && t[j].caseId == Some(winner) {
        assert Precedes(t, key, loser, winner, j, i);
      } else if t[j].caseId == Some(loser) && t[i].caseId == Some(winner) {
        assert Precedes(t, key, loser, winner, i, j);
      } else {
        assert t[i].caseId == t[j].caseId ==> Same(t, key, i, j);
      }
    }
  }

  lemma MergedRow<D, K>(t: Table<D>, key: D -> Option<K>, loser: int, winner: int, id: int)
    requires id in t
    ensures id in Merged(t, key, loser, winner) <==> !Dropped(t, key, loser, winner, id)
    ensures id in Merged(t, key, loser, winner) ==>
      Merged(t, key, loser, winner)[id] == if Owned(t, loser, id) then Row(Some(winner), t[id].data) else t[id]
  {}

  /** No row is left on the loser and no row appears anywhere but on the winner. */
  lemma MergedOwners<D, K>(t: Table<D>, key: D -> Option<K>, loser: int, winner: int, cs: set<int>)
    requires loser != winner && winner in cs && OwnersIn(t, cs)
    ensures OwnersIn(Merged(t, key, loser, winner), cs - {loser})
  {}

  /** A canonical row survives, on the winner, with the identity of the row it replaces. */
  lemma CanonicalSurvives<D, K>(t: Table<D>, key: D -> Option<K>, loser: int, winner: int, id: int, c: int)
    requires loser != winner && Dropped(t, key, loser, winner, id) && IsCanonical(t, key, loser, winner, id, c)
    ensures Owned(Merged(t, key, loser, winner), winner, c)
    ensures Merged(t, key, loser, winner)[c].data == t[c].data && key(t[c].data) == key(t[id].data)
  {
    if t[c].caseId == Some(loser) && Dropped(t, key, loser, winner, c) {
      var j :| Precedes(t, key, loser, winner, j, c);
      assert Precedes(t, key, loser, winner, j, id);
      assert false;
    }
  }

  /** Nothing is lost and nothing invented: the winner ends with exactly the union of the identities. */
  lemma MergedKeys<D, K>(t: Table<D>, key: D -> Option<K>, loser: int, winner: int)
    requires loser != winner
    ensures Keys(Merged(t, key, loser, winner), key, winner) == Keys(t, key, winner) + Keys(t, key, loser)
  {
    var u := Merged(t, key, loser, winner);
    forall k | k in Keys(t, key, winner) + Keys(t, key, loser) ensures k in Keys(u, key, winner) {
      var id :| id in t && key(t[id].data) == Some(k) && (Owned(t, winner, id) || Owned(t, loser, id));
      if Dropped(t, key, loser, winner, id) {
        var c := CanonicalExists(t, key, loser, winner, id);
        CanonicalSurvives(t, key, loser, winner, id, c);
        assert c in Ids(u, winner);
      } else {
        MergedRow(t, key, loser, winner, id);
        assert id in u;
        assert Owned(t, loser, id) ==> u[id].caseId == Some(winner);
        assert Owned(t, winner, id) ==> t[id].caseId == Some(winner);
        assert !Owned(t, loser, id) ==> u[id].caseId == Some(winner);
        assert id in Ids(u, winner);
      }
    }
    forall k | k in Keys(u, key, winner) ensures k in Keys(t, key, winner) + Keys(t, key, loser) {
      var id :| id in Ids(u, winner) && key(u[id].data) == Some(k);
      assert id in Ids(t, winner) || id in Ids(t, loser);
    }
  }

  /** Rows of other cases are untouched. */
  lemma MergedElsewhere<D, K>(t: Table<D>, key: D -> Option<K>, loser: int, winner: int, c: int)
    requires c != loser && c != winner
    ensures Ids(Merged(t, key, loser, winner), c) == Ids(t, c)
    ensures forall id :: id in Ids(t, c) ==> Merged(t, key, loser, winner)[id] == t[id]
  {
    forall id ensures id in Ids(Merged(t, key, loser, winner), c) <==> id in Ids(t, c) {
      assert id in Ids(t, c) ==> id !in DroppedIds(t, key, loser, winner);
    }
  }

  // ----- the loop

  lemma AppliedNone<D, K>(t: Table<D>, key: D -> Option<K>, loser: int, winner: int)
    ensures Applied(t, key, loser, winner, {}) == t
  {}

  lemma AppliedAll<D, K>(t: Table<D>, key: D -> Option<K>, loser: int, winner: int)
    ensures Applied(t, key, loser, winner, Ids(t, loser)) == Merged(t, key, loser, winner)
  {
    var dropped := DroppedIds(t, key, loser, winner);
    assert forall id :: id in dropped ==> id in Ids(t, loser);
    assert dropped * Ids(t, loser) == dropped == dropped * t.Keys;
  }

  lemma AppliedStep<D, K>(t: Table<D>, key: D -> Option<K>, loser: int, winner: int, done: set<int>, id: int)
    requires loser != winner && Owned(t, loser, id) && id !in done
    ensures id in Applied(t, key, loser, winner, done)
    ensures Applied(t, key, loser, winner, done + {id}) ==
      if Dropped(t, key, loser, winner, id) then Applied(t, key, loser, winner, done) - {id}
      else Applied(t, key, loser, winner, done)[id := Row(Some(winner), t[id].data)]
  {}

  /** The identities a visited set of rows holds. */
  ghost function KeysOf<D, K>(t: Table<D>, key: D -> Option<K>, ids: set<int>): set<K> {
    set id | id in ids && id in t && key(t[id].data).Some? :: key(t[id].data).value
  }

  lemma KeysOfStep<D, K>(t: Table<D>, key: D -> Option<K>, ids: set<int>, id: int)
    requires id in t
    ensures KeysOf(t, key, ids + {id}) ==
      KeysOf(t, key, ids) + (if key(t[id].data).Some? then {key(t[id].data).value} else {})
  {}

  lemma TakeElements(s: seq<int>, i: nat)
    requires i < |s|
    ensures Elements(s[..i + 1]) == Elements(s[..i]) + {s[i]}
  {
    assert s[..i + 1] == s[..i] + [s[i]];
  }

  /** Row `id` is dropped exactly when its identity has been seen. */
  lemma SeenIffDropped<D, K>(t: Table<D>, key: D -> Option<K>, loser: int, winner: int, ids: seq<int>, i: nat)
    requires loser != winner && Ascending(ids, IntLess) && Elements(ids) == Ids(t, loser) && i < |ids|
    requires Owned(t, loser, ids[i]) && key(t[ids[i]].data).Some?
    ensures Dropped(t, key, loser, winner, ids[i]) <==>
      key(t[ids[i]].data).value in Keys(t, key, winner) + KeysOf(t, key, Elements(ids[..i]))
  {
    var id := ids[i];
    assert id in Elements(ids);
    var seen := Keys(t, key, winner) + KeysOf(t, key, Elements(ids[..i]));
    var k := key(t[id].data).value;
    if Dropped(t, key, loser, winner, id) {
      var j :| Precedes(t, key, loser, winner, j, id);
      if t[j].caseId == Some(winner) {
        assert j in Ids(t, winner);
      } else {
        assert j in Elements(ids);
        var m :| 0 <= m < |ids| && ids[m] == j;
        assert m < i;
        assert ids[..i][m] == j;
      }
    }
    if k in seen {
      if k in Keys(t, key, winner) {
        var j :| j in Ids(t, winner) && key(t[j].data) == Some(k);
        assert Precedes(t, key, loser, winner, j, id);
      } else {
        var j :| j in Elements(ids[..i]) && j in t && key(t[j].data) == Some(k);
        var m :| 0 <= m < i && ids[..i][m] == j;
        assert IntLess(ids[m], ids[i]);
        assert j in Elements(ids);
        assert Precedes(t, key, loser, winner, j, id);
      }
    }
  }

  /** The rows of case `c` in id order, as `order_by(id)` returns them. */
  function RowsOf<D>(t: Table<D>, c: int): (ids: seq<int>)
    ensures Ascending(ids, IntLess) && Elements(ids) == Ids(t, c)
    ensures forall i :: 0 <= i < |ids| ==> Owned(t, c, ids[i])
  {
    SortedEnumerates(Ids(t, c), IntLess);
    var ids := Sorted(Ids(t, c), IntLess);
    assert forall i :: 0 <= i < |ids| ==> ids[i] in Elements(ids);
    ids
  }

  lemma KeysOfBounds<D, K>(t: Table<D>, key: D -> Option<K>, c: int, ids: seq<int>)
    requires Elements(ids) == Ids(t, c)
    ensures KeysOf(t, key, Elements(ids[..0])) == {}
    ensures KeysOf(t, key, Elements(ids[..|ids|])) == Keys(t, key, c)
  {
    assert ids[..|ids|] == ids;
  }

  /** The identities of the rows of case `c`. */
  method SeenKeys<D, K(==)>(rows: Table<D>, key: D -> Option<K>, c: int) returns (seen: set<K>)
    ensures seen == Keys(rows, key, c)
  {
    seen := {};
    var ids := RowsOf(rows, c);
    KeysOfBounds(rows, key, c, ids);
    hide KeysOf, Keys, Ids;
    for i := 0 to |ids|
      invariant seen == KeysOf(rows, key, Elements(ids[..i]))
    {
      TakeElements(ids, i);
      KeysOfStep(rows, key, Elements(ids[..i]), ids[i]);
      var k := key(rows[ids[i]].data);
      if k.Some? {
        seen := seen + {k.value};
      }
    }
  }

  /** The table, and the identities seen, before the visit of `ids[i]`. */
  ghost function RowsAt<D, K>(t: Table<D>, key: D -> Option<K>, loser: int, winner: int, ids: seq<int>,
                              i: nat): Table<D>
    requires i <= |ids|
  {
    Applied(t, key, loser, winner, Elements(ids[..i]))
  }

  ghost function SeenAt<D, K>(t: Table<D>, key: D -> Option<K>, winner: int, ids: seq<int>, i: nat): set<K>
    requires i <= |ids|
  {
    Keys(t, key, winner) + KeysOf(t, key, Elements(ids[..i]))
  }

  lemma LoopBounds<D, K>(t: Table<D>, key: D -> Option<K>, loser: int, winner: int, ids: seq<int>)
    requires Elements(ids) == Ids(t, loser)
    ensures RowsAt(t, key, loser, winner, ids, 0) == t
    ensures SeenAt(t, key, winner, ids, 0) == Keys(t, key, winner)
    ensures RowsAt(t, key, loser, winner, ids, |ids|) == Merged(t, key, loser, winner)
  {
    AppliedNone(t, key, loser, winner);
    assert ids[..|ids|] == ids;
    AppliedAll(t, key, loser, winner);
  }

  lemma SeenAtStep<D, K>(t: Table<D>, key: D -> Option<K>, winner: int, ids: seq<int>, i: nat)
    requires i < |ids| && ids[i] in t && key(t[ids[i]].data).Some?
    ensures SeenAt(t, key, winner, ids, i + 1) == SeenAt(t, key, winner, ids, i) + {key(t[ids[i]].data).value}
  {
    TakeElements(ids, i);
    KeysOfStep(t, key, Elements(ids[..i]), ids[i]);
  }

  lemma LoopStep<D, K>(t: Table<D>, key: D -> Option<K>, loser: int, winner: int, ids: seq<int>, i: nat)
    requires loser != winner && Ascending(ids, IntLess) && Elements(ids) == Ids(t, loser) && i < |ids|
    ensures Owned(t, loser, ids[i])
    ensures
      var k := key(t[ids[i]].data);
      var seen := SeenAt(t, key, winner, ids, i);
      var collides := k.Some? && k.value in seen;
      && (collides <==> Dropped(t, key, loser, winner, ids[i]))
      && SeenAt(t, key, winner, ids, i + 1) == (if k.Some? then seen + {k.value} else seen)
      && RowsAt(t, key, loser, winner, ids, i + 1) ==
          if collides then RowsAt(t, key, loser, winner, ids, i) - {ids[i]}
          else RowsAt(t, key, loser, winner, ids, i)[ids[i] := Row(Some(winner), t[ids[i]].data)]
  {
    TakeElements(ids, i);
    assert ids[i] in Elements(ids);
    assert ids[i] !in ids[..i];
    KeysOfStep(t, key, Elements(ids[..i]), ids[i]);
    AppliedStep(t, key, loser, winner, Elements(ids[..i]), ids[i]);
    if key(t[ids[i]].data).Some? {
      SeenIffDropped(t, key, loser, winner, ids, i);
    }
  }

  /**
   * The loop shared by the tables that nothing references by id: remember the
   * winner's identities, then delete each loser row whose identity is known and
   * re-point the others.
   */
  method MergeRows<D, K(==)>(rows: Table<D>, key: D -> Option<K>, loser: int, winner: int)
    returns (merged: Table<D>)
    requires loser != winner
    ensures merged == Merged(rows, key, loser, winner)
  {
    merged := rows;
    var seen := SeenKeys(rows, key, winner);
    var ids := RowsOf(rows, loser);
    LoopBounds(rows, key, loser, winner, ids);
    hide RowsAt, SeenAt, Merged, Dropped, Ids, Elements, Ascending;
    for i := 0 to |ids|
      invariant merged == RowsAt(rows, key, loser, winner, ids, i)
      invariant seen == SeenAt(rows, key, winner, ids, i)
    {
      LoopStep(rows, key, loser, winner, ids, i);
      var row := rows[ids[i]];
      var k := key(row.data);
      if k.Some? && k.value in seen {
        merged := merged - {ids[i]};
      } else {
        merged := merged[ids[i] := Row(Some(winner), row.data)];
      }
      if k.Some? {
        seen := seen + {k.value};
      }
    }
  }

  // ----- the loop of the tables whose rows are referenced by id

  /** `x` is the first row of case `c` with identity `k`. */
  ghost predicate FirstOf<D, K>(t: Table<D>, key: D -> Option<K>, c: int, k: K, x: int) {
    && Owned(t, c, x) && key(t[x].data) == Some(k)
    && forall j :: Owned(t, c, j) && key(t[j].data) == Some(k) ==> x <= j
  }

  lemma FirstMet<D, K>(t: Table<D>, key: D -> Option<K>, c: int, ids: seq<int>, i: nat)
    requires Ascending(ids, IntLess) && Elements(ids) == Ids(t, c) && i < |ids|
    requires Owned(t, c, ids[i]) && key(t[ids[i]].data).Some?
    requires key(t[ids[i]].data).value !in KeysOf(t, key, Elements(ids[..i]))
    ensures FirstOf(t, key, c, key(t[ids[i]].data).value, ids[i])
  {
    var k := key(t[ids[i]].data).value;
    assert forall m :: 0 <= m < i ==> ids[m] == ids[..i][m] && ids[m] in Elements(ids[..i]);
    forall j | Owned(t, c, j) && key(t[j].data) == Some(k) ensures ids[i] <= j {
      assert j in Ids(t, c) && j in Elements(ids);
      var m :| 0 <= m < |ids| && ids[m] == j;
      assert i < m ==> IntLess(ids[i], ids[m]);
    }
  }

  /** `c` is the row that keeps identity `k`: the winner's first row, else the loser's. */
  ghost predicate Holder<D, K>(t: Table<D>, key: D -> Option<K>, loser: int, winner: int, k: K, c: int) {
    if k in Keys(t, key, winner) then FirstOf(t, key, winner, k, c) else FirstOf(t, key, loser, k, c)
  }

  ghost predicate SeenRows<D, K>(t: Table<D>, key: D -> Option<K>, loser: int, winner: int, known: set<K>,
                                 seen: map<K, int>) {
    && seen.Keys == known
    && forall k :: k in seen ==> Holder(t, key, loser, winner, k, seen[k])
  }

  ghost predicate AllFirst<D, K>(t: Table<D>, key: D -> Option<K>, c: int, seen: map<K, int>) {
    forall k :: k in seen ==> FirstOf(t, key, c, k, seen[k])
  }

  lemma KeysUpdated<K>(seen: map<K, int>, k: K, x: int)
    ensures seen[k := x].Keys == seen.Keys + {k}
  {}

  lemma AllFirstStep<D, K>(t: Table<D>, key: D -> Option<K>, c: int, seen: map<K, int>, k: K, x: int)
    requires AllFirst(t, key, c, seen) && FirstOf(t, key, c, k, x)
    ensures AllFirst(t, key, c, seen[k := x])
  {}

  lemma KeysOfNext<D, K>(t: Table<D>, key: D -> Option<K>, ids: seq<int>, i: nat)
    requires i < |ids| && ids[i] in t
    ensures
      var k, known, next := key(t[ids[i]].data), KeysOf(t, key, Elements(ids[..i])),
        KeysOf(t, key, Elements(ids[..i + 1]));
      && (k.None? || k.value in known ==> next == known)
      && (k.Some? ==> next == known + {k.value})
  {
    TakeElements(ids, i);
    KeysOfStep(t, key, Elements(ids[..i]), ids[i]);
  }

  /** First row of case `c` for each identity, as `setdefault` builds it. */
  method FirstRows<D, K(==)>(rows: Table<D>, key: D -> Option<K>, c: int) returns (seen: map<K, int>)
    ensures seen.Keys == Keys(rows, key, c) && AllFirst(rows, key, c, seen)
  {
    seen := map[];
    assert AllFirst(rows, key, c, seen);
    var ids := RowsOf(rows, c);
    KeysOfBounds(rows, key, c, ids);
    hide AllFirst, FirstOf, KeysOf, Keys, Ids, Ascending, Elements;
    for i := 0 to |ids|
      invariant seen.Keys == KeysOf(rows, key, Elements(ids[..i])) && AllFirst(rows, key, c, seen)
    {
      KeysOfNext(rows, key, ids, i);
      var k := key(rows[ids[i]].data);
      if k.Some? && k.value !in seen {
        FirstMet(rows, key, c, ids, i);
        AllFirstStep(rows, key, c, seen, k.value, ids[i]);
        KeysUpdated(seen, k.value, ids[i]);
        seen := seen[k.value := ids[i]];
      }
    }
  }

  lemma HolderIsCanonical<D, K>(t: Table<D>, key: D -> Option<K>, loser: int, winner: int, id: int, c: int)
    requires loser != winner && Dropped(t, key, loser, winner, id)
    requires Holder(t, key, loser, winner, key(t[id].data).value, c)
    ensures IsCanonical(t, key, loser, winner, id, c)
  {
    var k := key(t[id].data).value;
    var j :| Precedes(t, key, loser, winner, j, id);
    forall i | Precedes(t, key, loser, winner, i, id)
      ensures if t[c].caseId == Some(winner) then t[i].caseId == Some(winner) ==> c <= i
              else t[i].caseId != Some(winner) && c <= i
    {
      assert if t[i].caseId == Some(winner) then Owned(t, winner, i) && i in Ids(t, winner) else Owned(t, loser, i);
    }
  }

  /** A new identity met at `ids[i]` is kept by that row. */
  lemma NewHolder<D, K>(t: Table<D>, key: D -> Option<K>, loser: int, winner: int, ids: seq<int>, i: nat)
    requires loser != winner && Ascending(ids, IntLess) && Elements(ids) == Ids(t, loser) && i < |ids|
    requires Owned(t, loser, ids[i]) && key(t[ids[i]].data).Some?
    requires key(t[ids[i]].data).value !in SeenAt(t, key, winner, ids, i)
    ensures Holder(t, key, loser, winner, key(t[ids[i]].data).value, ids[i])
  {
    FirstMet(t, key, loser, ids, i);
  }
}
