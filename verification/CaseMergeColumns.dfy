/**
 * Which child rows a merge deletes, said in their columns: exactly those that
 * repeat, column by column, a row visited before them.
 */
module CaseMergeColumns {
  import opened Options
  import opened Ordering
  import opened ChildTable
  import opened CaseTables
  import opened CaseMergeLinks
  import opened CaseMerge
  import opened CaseMergeSafety
  import opened CaseMergeBatches
  import opened CaseMergeConservation
  import opened CaseMergeParts
  import opened CaseMergeOrder
  import opened CaseMergeReferences

  // ----- one table among the child tables

  /** The rows merged by `table`, with `key` and `follow`, collapse when they are the `same` once followed. */
  ghost predicate Collapsing<D(!new), K>(table: Kids -> Table<D>, key: D -> Option<K>, follow: (Redirects, D) -> D,
                                         same: (Redirects, D, D) -> bool) {
    && (forall k, l, w | l != w :: table(MergeKids(k, l, w))
          == Merged(Repointed(table(k), PairRedirects(k, l, w), follow), key, l, w))
    && (forall k, r :: table(Redirected(k, r)) == Repointed(table(k), r, follow))
    && (forall k, p :: table(KidsIn(k, p)) == RowsIn(table(k), p))
    && (forall r :: Respects(key, r, follow))
    && (forall a, b, d | Chained(a, b) :: follow(b, follow(a, d)) == follow(Joined(a, b), d))
    && (forall d :: follow(NO_REDIRECTS, d) == d)
    && (forall r, a, b :: same(r, a, b) <==> key(follow(r, a)).Some? && key(follow(r, a)) == key(follow(r, b)))
  }

  /**
   * Row `e` is visited before row `id` of loser `n`: it is of the winner, of an
   * earlier loser, or an earlier one of the same.
   */
  ghost predicate VisitedBefore<D>(t: Table<D>, losers: seq<int>, winner: int, n: nat, e: int, id: int)
    requires n < |losers|
  {
    && e in t && id in t && t[id].caseId == Some(losers[n])
    && (t[e].caseId == Some(winner) || (exists m :: 0 <= m < n && t[e].caseId == Some(losers[m]))
        || (t[e].caseId == Some(losers[n]) && e < id))
  }

  lemma PairGone<D(!new), K>(k: Kids, l: int, w: int, table: Kids -> Table<D>, key: D -> Option<K>,
                             follow: (Redirects, D) -> D, same: (Redirects, D, D) -> bool, id: int)
    requires Collapsing(table, key, follow, same) && l != w && id in table(k)
    ensures
      var t, m, r := table(k), table(MergeKids(k, l, w)), PairRedirects(k, l, w);
      && (id !in m <==> exists e :: VisitedBefore(t, [l], w, 0, e, id) && same(r, t[e].data, t[id].data))
      && (id in m ==> m[id] == Row(if t[id].caseId == Some(l) then Some(w) else t[id].caseId, follow(r, t[id].data)))
      && m.Keys <= t.Keys
  {
    var t, r := table(k), PairRedirects(k, l, w);
    var u := Repointed(t, r, follow);
    assert table(MergeKids(k, l, w)) == Merged(u, key, l, w);
    MergedRow(u, key, l, w, id);
    MergedSubset(u, key, l, w);
    if Dropped(u, key, l, w, id) {
      var e :| Precedes(u, key, l, w, e, id);
      assert VisitedBefore(t, [l], w, 0, e, id) && same(r, t[e].data, t[id].data);
    }
    if e :| VisitedBefore(t, [l], w, 0, e, id) && same(r, t[e].data, t[id].data) {
      assert Precedes(u, key, l, w, e, id);
    }
  }

  lemma PairStands<D(!new), K>(k: Kids, l: int, w: int, table: Kids -> Table<D>, key: D -> Option<K>,
                               follow: (Redirects, D) -> D, same: (Redirects, D, D) -> bool, id: int) returns (c: int)
    requires Collapsing(table, key, follow, same) && l != w && id in table(k) && id !in table(MergeKids(k, l, w))
    ensures
      var t, m, r := table(k), table(MergeKids(k, l, w)), PairRedirects(k, l, w);
      && c in m && m[c].caseId == Some(w) && c in t && (t[c].caseId == Some(w) || (t[c].caseId == Some(l) && c < id))
      && t[id].caseId == Some(l) && m[c].data == follow(r, t[c].data) && same(r, t[c].data, t[id].data)
  {
    var t, r := table(k), PairRedirects(k, l, w);
    var u := Repointed(t, r, follow);
    assert table(MergeKids(k, l, w)) == Merged(u, key, l, w);
    MergedRow(u, key, l, w, id);
    c := CanonicalExists(u, key, l, w, id);
    CanonicalSurvives(u, key, l, w, id, c);
    MergedRow(u, key, l, w, c);
  }

  // ----- a group

  /** Up to and with loser `n`. */
  ghost function Stage(k: Kids, losers: seq<int>, winner: int, n: nat): Redirects
    requires winner !in losers && n < |losers|
  {
    GroupRedirects(k, losers[..n + 1], winner)
  }

  lemma StageFirst(k: Kids, losers: seq<int>, winner: int)
    requires winner !in losers && losers != []
    ensures Stage(k, losers, winner, 0) == PairRedirects(k, losers[0], winner)
  {
    hide PairRedirects, MergeKids, GroupRedirects, Chained;
    GroupRedirectsCons(k, losers[..1], winner);
    assert losers[..1][1..] == [];
    GroupRedirectsNone(MergeKids(k, losers[0], winner), winner);
    JoinedNothing(PairRedirects(k, losers[0], winner));
  }

  lemma GroupRedirectsNone(k: Kids, winner: int)
    ensures GroupRedirects(k, [], winner) == NO_REDIRECTS
  {}

  lemma JoinedNothing(r: Redirects)
    ensures Joined(r, NO_REDIRECTS) == r
  {
    assert r.movements + map[] == r.movements && r.escritos + map[] == r.escritos;
  }

  lemma StageNext(k: Kids, losers: seq<int>, winner: int, n: nat)
    requires winner !in losers && 0 < n < |losers|
    ensures
      var first := PairRedirects(k, losers[0], winner);
      var later := Stage(MergeKids(k, losers[0], winner), losers[1..], winner, n - 1);
      Chained(first, later) && Stage(k, losers, winner, n) == Joined(first, later)
  {
    GroupRedirectsCons(k, losers[..n + 1], winner);
    assert losers[..n + 1][1..] == losers[1..][..n];
  }

  /** Row `id`, of loser `n`, repeats row `e` visited before it. */
  ghost predicate Repeated<D>(k: Kids, t: Table<D>, same: (Redirects, D, D) -> bool, losers: seq<int>, winner: int,
                              n: nat, e: int, id: int)
    requires winner !in losers && n < |losers|
  {
    VisitedBefore(t, losers, winner, n, e, id) && same(Stage(k, losers, winner, n), t[e].data, t[id].data)
  }

  /** Twins stay twins when more references are followed. */
  lemma SameLater<D(!new), K>(table: Kids -> Table<D>, key: D -> Option<K>, follow: (Redirects, D) -> D,
                              same: (Redirects, D, D) -> bool, a: Redirects, b: Redirects, x: D, y: D)
    requires Collapsing(table, key, follow, same) && Chained(a, b) && same(a, x, y)
    ensures same(Joined(a, b), x, y)
  {
    assert Respects(key, b, follow);
    assert follow(b, follow(a, x)) == follow(Joined(a, b), x) && follow(b, follow(a, y)) == follow(Joined(a, b), y);
    assert key(follow(b, follow(a, x))).Some? <==> key(follow(a, x)).Some?;
  }

  /** After the first merge rows are the same as they were, seen one stage later. */
  lemma SameAfterFirst<D(!new), K>(table: Kids -> Table<D>, key: D -> Option<K>, follow: (Redirects, D) -> D,
                                   same: (Redirects, D, D) -> bool, a: Redirects, b: Redirects, x: D, y: D)
    requires Collapsing(table, key, follow, same) && Chained(a, b)
    ensures same(b, follow(a, x), follow(a, y)) <==> same(Joined(a, b), x, y)
  {
    assert follow(b, follow(a, x)) == follow(Joined(a, b), x) && follow(b, follow(a, y)) == follow(Joined(a, b), y);
  }

  lemma SameChain<D(!new), K>(table: Kids -> Table<D>, key: D -> Option<K>, follow: (Redirects, D) -> D,
                              same: (Redirects, D, D) -> bool, r: Redirects, x: D, y: D, z: D)
    requires Collapsing(table, key, follow, same) && same(r, x, y) && same(r, y, z)
    ensures same(r, x, z)
  {}

  lemma RowsVisited<D>(t: Table<D>, losers: seq<int>, winner: int, n: nat, e: int, id: int)
    requires n < |losers| && VisitedBefore(t, losers, winner, n, e, id)
    ensures e in t && id in t
  {}

  lemma VisitedBack<D>(t: Table<D>, t1: Table<D>, losers: seq<int>, winner: int, n: nat, e: int, id: int)
    requires winner !in losers && n + 1 < |losers| && e in t && id in t && e in t1 && id in t1
    requires t1[e].caseId == if t[e].caseId == Some(losers[0]) then Some(winner) else t[e].caseId
    requires t1[id].caseId == if t[id].caseId == Some(losers[0]) then Some(winner) else t[id].caseId
    requires VisitedBefore(t1, losers[1..], winner, n, e, id)
    ensures VisitedBefore(t, losers, winner, n + 1, e, id)
  {
    assert losers[1..][n] == losers[n + 1] && losers[n + 1] in losers;
    if t1[e].caseId != Some(winner) && t1[e].caseId != Some(losers[n + 1]) {
      var m :| 0 <= m < n && t1[e].caseId == Some(losers[1..][m]);
      assert t[e].caseId == Some(losers[m + 1]);
    }
  }

  /** A repetition after the first merge is one of the table at the start. */
  lemma RepeatedBack<D(!new), K>(k: Kids, losers: seq<int>, winner: int, table: Kids -> Table<D>, key: D -> Option<K>,
                                 follow: (Redirects, D) -> D, same: (Redirects, D, D) -> bool, n: nat, e: int, id: int)
    requires Collapsing(table, key, follow, same) && winner !in losers && n + 1 < |losers|
    requires Repeated(MergeKids(k, losers[0], winner), table(MergeKids(k, losers[0], winner)), same, losers[1..],
                      winner, n, e, id)
    ensures Repeated(k, table(k), same, losers, winner, n + 1, e, id)
  {
    var k1 := MergeKids(k, losers[0], winner);
    var t, t1 := table(k), table(k1);
    hide Collapsing, MergeKids, Stage, PairRedirects, Chained, VisitedBefore;
    KeysShrink(k, losers[0], winner, table, key, follow, same);
    assert e in t1 && id in t1 by { RowsVisited(t1, losers[1..], winner, n, e, id); }
    PairGone(k, losers[0], winner, table, key, follow, same, e);
    PairGone(k, losers[0], winner, table, key, follow, same, id);
    StageNext(k, losers, winner, n + 1);
    SameAfterFirst(table, key, follow, same, PairRedirects(k, losers[0], winner), Stage(k1, losers[1..], winner, n),
      t[e].data, t[id].data);
    VisitedBack(t, t1, losers, winner, n, e, id);
  }

  lemma KeysShrink<D(!new), K>(k: Kids, l: int, w: int, table: Kids -> Table<D>, key: D -> Option<K>,
                               follow: (Redirects, D) -> D, same: (Redirects, D, D) -> bool)
    requires Collapsing(table, key, follow, same) && l != w
    ensures table(MergeKids(k, l, w)).Keys <= table(k).Keys
  {
    MergedSubset(Repointed(table(k), PairRedirects(k, l, w), follow), key, l, w);
  }

  /** And a repetition at a later stage is seen after the first merge, of the row or of the one that stands for it. */
  lemma RepeatedOn<D(!new), K>(k: Kids, losers: seq<int>, winner: int, table: Kids -> Table<D>, key: D -> Option<K>,
                               follow: (Redirects, D) -> D, same: (Redirects, D, D) -> bool, n: nat, e: int, id: int)
    returns (c: int)
    requires Collapsing(table, key, follow, same) && winner !in losers && 0 < n < |losers|
    requires losers[n] != losers[0] && Repeated(k, table(k), same, losers, winner, n, e, id)
    ensures Repeated(MergeKids(k, losers[0], winner), table(MergeKids(k, losers[0], winner)), same, losers[1..], winner,
                     n - 1, c, id)
  {
    var k1, first := MergeKids(k, losers[0], winner), PairRedirects(k, losers[0], winner);
    var t, t1, later := table(k), table(k1), Stage(k1, losers[1..], winner, n - 1);
    hide Collapsing, MergeKids, Stage, PairRedirects, Chained;
    StageNext(k, losers, winner, n);
    PairGone(k, losers[0], winner, table, key, follow, same, id);
    assert losers[1..][n - 1] == losers[n];
    if e in t1 {
      c := e;
      PairGone(k, losers[0], winner, table, key, follow, same, e);
      SameAfterFirst(table, key, follow, same, first, later, t[e].data, t[id].data);
      if t1[c].caseId != Some(winner) && t1[c].caseId != Some(losers[n]) {
        var m :| 0 <= m < n && t[e].caseId == Some(losers[m]);
        assert m > 0 && t1[c].caseId == Some(losers[1..][m - 1]);
      }
    } else {
      c := PairStands(k, losers[0], winner, table, key, follow, same, e);
      SameLater(table, key, follow, same, first, later, t[c].data, t[e].data);
      SameChain(table, key, follow, same, Joined(first, later), t[c].data, t[e].data, t[id].data);
      SameAfterFirst(table, key, follow, same, first, later, t[c].data, t[id].data);
    }
  }

  lemma RepeatedFirst<D(!new), K>(k: Kids, losers: seq<int>, winner: int, table: Kids -> Table<D>, key: D -> Option<K>,
                                  follow: (Redirects, D) -> D, same: (Redirects, D, D) -> bool, e: int, id: int)
    requires Collapsing(table, key, follow, same) && winner !in losers && losers != []
    requires Repeated(k, table(k), same, losers, winner, 0, e, id)
    ensures id !in table(MergeKids(k, losers[0], winner))
  {
    hide Collapsing, MergeKids, PairRedirects, GroupRedirects;
    StageFirst(k, losers, winner);
    PairGone(k, losers[0], winner, table, key, follow, same, id);
    assert VisitedBefore(table(k), [losers[0]], winner, 0, e, id);
  }

  /** A row is deleted from a group exactly when it repeats one visited before it. */
  lemma {:induction false} GoneIff<D(!new), K>(k: Kids, losers: seq<int>, winner: int, table: Kids -> Table<D>,
                                               key: D -> Option<K>, follow: (Redirects, D) -> D,
                                               same: (Redirects, D, D) -> bool, id: int)
    requires Collapsing(table, key, follow, same) && winner !in losers && Distinct(losers) && id in table(k)
    ensures id !in table(MergeAllKids(k, losers, winner)) <==>
      exists n: nat, e :: n < |losers| && Repeated(k, table(k), same, losers, winner, n, e, id)
    decreases |losers|
  {
    if losers != [] {
      var k1, rest := MergeKids(k, losers[0], winner), losers[1..];
      hide Collapsing, MergeKids, Stage, PairRedirects;
      PairGone(k, losers[0], winner, table, key, follow, same, id);
      StageFirst(k, losers, winner);
      if id !in table(k1) {
        var e :| VisitedBefore(table(k), [losers[0]], winner, 0, e, id)
          && same(PairRedirects(k, losers[0], winner), table(k)[e].data, table(k)[id].data);
        assert Repeated(k, table(k), same, losers, winner, 0, e, id);
        StaysGone(k1, rest, winner, table, key, follow, same, id);
      } else {
        GoneIff(k1, rest, winner, table, key, follow, same, id);
        if n: nat, e :| n < |rest| && Repeated(k1, table(k1), same, rest, winner, n, e, id) {
          RepeatedBack(k, losers, winner, table, key, follow, same, n, e, id);
        }
        if n: nat, e :| n < |losers| && Repeated(k, table(k), same, losers, winner, n, e, id) {
          if n == 0 {
            RepeatedFirst(k, losers, winner, table, key, follow, same, e, id);
          } else {
            var c := RepeatedOn(k, losers, winner, table, key, follow, same, n, e, id);
          }
        }
      }
    }
  }

  lemma {:induction false} StaysGone<D(!new), K>(k: Kids, losers: seq<int>, winner: int, table: Kids -> Table<D>,
                                                 key: D -> Option<K>, follow: (Redirects, D) -> D,
                                                 same: (Redirects, D, D) -> bool, id: int)
    requires Collapsing(table, key, follow, same) && winner !in losers && id !in table(k)
    ensures id !in table(MergeAllKids(k, losers, winner))
    decreases |losers|
  {
    if losers != [] {
      hide Collapsing, MergeKids;
      KeysShrink(k, losers[0], winner, table, key, follow, same);
      StaysGone(MergeKids(k, losers[0], winner), losers[1..], winner, table, key, follow, same, id);
    }
  }

  /** A row that stays keeps its columns, references followed, and goes to the winner if it was a loser's. */
  lemma {:induction false} StayingRow<D(!new), K>(k: Kids, losers: seq<int>, winner: int, table: Kids -> Table<D>,
                                                  key: D -> Option<K>, follow: (Redirects, D) -> D,
                                                  same: (Redirects, D, D) -> bool, id: int)
    requires Collapsing(table, key, follow, same) && winner !in losers && Distinct(losers) && id in table(k)
    requires id in table(MergeAllKids(k, losers, winner))
    ensures
      var t := table(k);
      table(MergeAllKids(k, losers, winner))[id]
      == Row(if t[id].caseId.Some? && t[id].caseId.value in losers then Some(winner) else t[id].caseId,
             follow(GroupRedirects(k, losers, winner), t[id].data))
    decreases |losers|
  {
    if losers == [] {
      assert GroupRedirects(k, losers, winner) == NO_REDIRECTS;
    } else {
      var k1, rest := MergeKids(k, losers[0], winner), losers[1..];
      var first, later := PairRedirects(k, losers[0], winner), GroupRedirects(k1, rest, winner);
      GroupRedirectsCons(k, losers, winner);
      assert follow(later, follow(first, table(k)[id].data)) == follow(Joined(first, later), table(k)[id].data);
      hide Collapsing, MergeKids, GroupRedirects, PairRedirects, Chained;
      if id !in table(k1) {
        StaysGone(k1, rest, winner, table, key, follow, same, id);
      }
      PairGone(k, losers[0], winner, table, key, follow, same, id);
      StayingRow(k1, rest, winner, table, key, follow, same, id);
      assert losers == [losers[0]] + rest;
    }
  }

  /** A deleted row is stood for by one of the winner with the same columns, references followed. */
  lemma {:induction false} StandIn<D(!new), K>(k: Kids, losers: seq<int>, winner: int, table: Kids -> Table<D>,
                                               key: D -> Option<K>, follow: (Redirects, D) -> D,
                                               same: (Redirects, D, D) -> bool, id: int) returns (c: int)
    requires Collapsing(table, key, follow, same) && winner !in losers && Distinct(losers) && id in table(k)
    requires id !in table(MergeAllKids(k, losers, winner))
    ensures
      var m := table(MergeAllKids(k, losers, winner));
      && c in m && c in table(k) && m[c].caseId == Some(winner)
      && same(GroupRedirects(k, losers, winner), table(k)[c].data, table(k)[id].data)
    decreases |losers|
  {
    var k1, rest := MergeKids(k, losers[0], winner), losers[1..];
    var t, t1, first, later := table(k), table(k1), PairRedirects(k, losers[0], winner),
      GroupRedirects(k1, rest, winner);
    GroupRedirectsCons(k, losers, winner);
    hide Collapsing, MergeKids, GroupRedirects, PairRedirects, Chained;
    KeysShrink(k, losers[0], winner, table, key, follow, same);
    if id in t1 {
      c := StandIn(k1, rest, winner, table, key, follow, same, id);
      PairGone(k, losers[0], winner, table, key, follow, same, id);
      PairGone(k, losers[0], winner, table, key, follow, same, c);
      SameAfterFirst(table, key, follow, same, first, later, t[c].data, t[id].data);
    } else {
      var d := PairStands(k, losers[0], winner, table, key, follow, same, id);
      SameLater(table, key, follow, same, first, later, t[d].data, t[id].data);
      c := d;
      WinnerRowStays(k1, rest, winner, table, key, follow, same, d);
    }
  }

  /** A row of the winner is never deleted. */
  lemma WinnerRowStays<D(!new), K>(k: Kids, losers: seq<int>, winner: int, table: Kids -> Table<D>, key: D -> Option<K>,
                                   follow: (Redirects, D) -> D, same: (Redirects, D, D) -> bool, id: int)
    requires Collapsing(table, key, follow, same) && winner !in losers && Distinct(losers)
    requires id in table(k) && table(k)[id].caseId == Some(winner)
    ensures
      var m := table(MergeAllKids(k, losers, winner));
      id in m && m[id].caseId == Some(winner)
  {
    hide Collapsing, MergeAllKids, Stage;
    GoneIff(k, losers, winner, table, key, follow, same, id);
    assert forall n :: 0 <= n < |losers| ==> losers[n] in losers;
    if id in table(MergeAllKids(k, losers, winner)) {
      StayingRow(k, losers, winner, table, key, follow, same, id);
    }
  }

  // ----- a run

  /**
   * The references followed when loser `n` of group `i` is merged: those of the
   * groups before and of its own so far.
   */
  ghost function RunStage(k: Kids, gs: seq<seq<int>>, i: nat, n: nat): Redirects
    requires NonEmpty(gs) && i < |gs| && n < |Losers(k, gs[i])|
  {
    assert Winner(k, gs[i]) !in Elements(Losers(k, gs[i]));
    Joined(RunRedirects(k, gs[..i]), Stage(k, Losers(k, gs[i]), Winner(k, gs[i]), n))
  }

  /** Row `id` repeats row `e` of its group, visited before it, once the references so far are followed. */
  ghost predicate RunRepeated<D>(k: Kids, t: Table<D>, same: (Redirects, D, D) -> bool, gs: seq<seq<int>>, i: nat,
                                 n: nat, e: int, id: int)
    requires NonEmpty(gs) && i < |gs| && n < |Losers(k, gs[i])|
  {
    && VisitedBefore(t, Losers(k, gs[i]), Winner(k, gs[i]), n, e, id)
    && same(RunStage(k, gs, i, n), t[e].data, t[id].data)
  }

  ghost predicate RunGone<D>(k: Kids, t: Table<D>, same: (Redirects, D, D) -> bool, gs: seq<seq<int>>, id: int)
    requires NonEmpty(gs)
  {
    exists i: nat, n: nat, e :: i < |gs| && n < |Losers(k, gs[i])| && RunRepeated(k, t, same, gs, i, n, e, id)
  }

  lemma GroupOwner<D(!new), K>(db: Db, g: seq<int>, table: Kids -> Table<D>, key: D -> Option<K>,
                               follow: (Redirects, D) -> D, same: (Redirects, D, D) -> bool, cs: set<int>, id: int)
    requires Collapsing(table, key, follow, same) && ValidGroup(db.cases, g) && Ascending(g, IntLess)
    requires (Elements(g) <= cs || Elements(g) !! cs) && id in table(MergeGroup(db, g).kids)
    ensures id in table(db.kids)
    ensures OfCases(table(MergeGroup(db, g).kids), id, cs) <==> OfCases(table(db.kids), id, cs)
  {
    var w, ls := Winner(db.kids, g), Losers(db.kids, g);
    hide Collapsing, MergeGroup, Winner, Losers;
    GroupMerge(db, g);
    LosersDistinct(db.kids, g);
    if id !in table(db.kids) {
      StaysGone(db.kids, ls, w, table, key, follow, same, id);
    }
    StayingRow(db.kids, ls, w, table, key, follow, same, id);
    assert forall c :: c in ls <==> c in Elements(ls);
  }

  lemma LosersDistinct(k: Kids, g: seq<int>)
    requires g != [] && Ascending(g, IntLess)
    ensures Distinct(Losers(k, g))
  {
    AscendingDistinct(Losers(k, g), IntLess);
  }

  /** No row passes from one group to another. */
  lemma {:induction false} RunOwner<D(!new), K>(db: Db, gs: seq<seq<int>>, table: Kids -> Table<D>, key: D -> Option<K>,
                                                follow: (Redirects, D) -> D, same: (Redirects, D, D) -> bool,
                                                cs: set<int>, id: int)
    requires Collapsing(table, key, follow, same) && ValidGroups(db.cases, gs) && AllAscending(gs)
    requires forall i :: 0 <= i < |gs| ==> Elements(gs[i]) <= cs || Elements(gs[i]) !! cs
    requires id in table(MergeGroups(db, gs).kids)
    ensures id in table(db.kids)
    ensures OfCases(table(MergeGroups(db, gs).kids), id, cs) <==> OfCases(table(db.kids), id, cs)
    decreases |gs|
  {
    hide Collapsing, MergeGroup, Ascending;
    if gs != [] {
      var next := FirstGroup(db, gs);
      var rest := gs[1..];
      forall i | 0 <= i < |rest| ensures Elements(rest[i]) <= cs || Elements(rest[i]) !! cs {
        assert Elements(gs[i + 1]) <= cs || Elements(gs[i + 1]) !! cs;
      }
      RunOwner(next, rest, table, key, follow, same, cs, id);
      GroupOwner(db, gs[0], table, key, follow, same, cs, id);
    }
  }

  /** The rows of group `i`, with the references to the groups before it followed. */
  ghost function RowsOfGroup(k: Kids, gs: seq<seq<int>>, i: nat): Kids
    requires NonEmpty(gs) && i < |gs|
  {
    Redirected(KidsIn(k, Part(Elements(gs[i]), true)), RunRedirects(k, gs[..i]))
  }

  lemma InGroup<D(!new), K>(db: Db, gs: seq<seq<int>>, i: nat, table: Kids -> Table<D>, key: D -> Option<K>,
                            follow: (Redirects, D) -> D, same: (Redirects, D, D) -> bool, id: int)
    requires Collapsing(table, key, follow, same) && ValidGroups(db.cases, gs) && AllAscending(gs) && i < |gs|
    requires NonEmpty(gs) && OfCases(table(db.kids), id, Elements(gs[i]))
    ensures NonEmpty(gs[i + 1..])
    ensures
      var k, g, m := db.kids, gs[i], table(MergeGroups(db, gs).kids);
      var rows, w, ls := RowsOfGroup(k, gs, i), Winner(k, g), Losers(k, g);
      && w !in ls && Distinct(ls) && id in table(rows)
      && table(rows)[id] == Row(table(k)[id].caseId, follow(RunRedirects(k, gs[..i]), table(k)[id].data))
      && (id in m <==> id in table(MergeAllKids(rows, ls, w)))
      && (id in m ==>
          m[id] == Row(table(MergeAllKids(rows, ls, w))[id].caseId,
                       follow(RunRedirects(k, gs[i + 1..]), table(MergeAllKids(rows, ls, w))[id].data)))
  {
    var k, g, m := db.kids, gs[i], MergeGroups(db, gs).kids;
    var p := Part(Elements(g), true);
    GroupsInside(db, gs, i);
    LosersDistinct(k, g);
    var rows, w, ls := RowsOfGroup(k, gs, i), Winner(k, g), Losers(k, g);
    var b := RunRedirects(k, gs[i + 1..]);
    assert table(KidsIn(m, p)) == RowsIn(table(m), p);
    assert table(Redirected(MergeAllKids(rows, ls, w), b)) == Repointed(table(MergeAllKids(rows, ls, w)), b, follow);
    assert table(rows) == Repointed(RowsIn(table(k), p), RunRedirects(k, gs[..i]), follow);
    hide Collapsing, MergeGroups, Winner, Losers, MergeAllKids, RunRedirects, Redirected, KidsIn;
    if id in table(m) {
      forall j | 0 <= j < |gs| ensures Elements(gs[j]) <= Elements(g) || Elements(gs[j]) !! Elements(g) {
        if j != i { assert Elements(gs[j]) !! Elements(gs[i]); }
      }
      RunOwner(db, gs, table, key, follow, same, Elements(g), id);
      assert id in RowsIn(table(m), p);
    }
  }

  lemma StageInside(k: Kids, gs: seq<seq<int>>, cases: map<int, Case>, i: nat, n: nat)
    requires ValidGroups(cases, gs) && NonEmpty(gs) && i < |gs| && n < |Losers(k, gs[i])|
    ensures
      var ls, w := Losers(k, gs[i]), Winner(k, gs[i]);
      && w !in ls && Stage(RowsOfGroup(k, gs, i), ls, w, n) == Stage(k, ls, w, n)
      && Chained(RunRedirects(k, gs[..i]), Stage(k, ls, w, n))
  {
    var g, p, ls, w := gs[i], Part(Elements(gs[i]), true), Losers(k, gs[i]), Winner(k, gs[i]);
    assert w in Elements(g) && w !in Elements(ls);
    var part := ls[..n + 1];
    forall l | l in part ensures l in Elements(g) && l != w {
      assert l in ls && l in Elements(ls);
    }
    SlicesApart(cases, gs, i);
    hide Winner, Losers, RunRedirects, ValidGroups;
    GroupCanonInside(k.movements, MovementKey, part, w, p);
    GroupCanonInside(k.escritos, NaturalKey, part, w, p);
    GroupCanonAmong(k.movements, MovementKey, part, w, Elements(g));
    GroupCanonAmong(k.escritos, NaturalKey, part, w, Elements(g));
    RunRedirectsAmong(k, gs[..i]);
    MembersApart(gs[..i], Elements(g));
    AmongApart(RunRedirects(k, gs[..i]), Members(gs[..i]), GroupRedirects(k, part, w), Elements(g), k);
  }

  /** A row of group `i` is deleted by a run exactly when it repeats one of its group visited before it. */
  lemma RunGoneIff<D(!new), K>(db: Db, gs: seq<seq<int>>, i: nat, table: Kids -> Table<D>, key: D -> Option<K>,
                               follow: (Redirects, D) -> D, same: (Redirects, D, D) -> bool, id: int)
    requires Collapsing(table, key, follow, same) && ValidGroups(db.cases, gs) && AllAscending(gs) && i < |gs|
    requires NonEmpty(gs) && OfCases(table(db.kids), id, Elements(gs[i]))
    ensures id !in table(MergeGroups(db, gs).kids) <==>
      exists n: nat, e :: n < |Losers(db.kids, gs[i])| && RunRepeated(db.kids, table(db.kids), same, gs, i, n, e, id)
  {
    var k, g := db.kids, gs[i];
    var rows, w, ls := RowsOfGroup(k, gs, i), Winner(k, g), Losers(k, g);
    InGroup(db, gs, i, table, key, follow, same, id);
    hide MergeGroups, MergeAllKids, Winner, Losers, Stage, RowsOfGroup, ValidGroups;
    hide Collapsing;
    GoneIff(rows, ls, w, table, key, follow, same, id);
    if n: nat, e :| n < |ls| && Repeated(rows, table(rows), same, ls, w, n, e, id) {
      GroupRepeatIff(db, gs, i, table, key, follow, same, n, e, id);
    }
    if n: nat, e :| n < |ls| && RunRepeated(k, table(k), same, gs, i, n, e, id) {
      GroupRepeatIff(db, gs, i, table, key, follow, same, n, e, id);
    }
  }

  lemma GroupRepeatIff<D(!new), K>(db: Db, gs: seq<seq<int>>, i: nat, table: Kids -> Table<D>, key: D -> Option<K>,
                                   follow: (Redirects, D) -> D, same: (Redirects, D, D) -> bool, n: nat, e: int,
                                   id: int)
    requires Collapsing(table, key, follow, same) && ValidGroups(db.cases, gs) && NonEmpty(gs) && i < |gs|
    requires n < |Losers(db.kids, gs[i])| && Winner(db.kids, gs[i]) !in Losers(db.kids, gs[i])
    ensures
      var k, rows := db.kids, RowsOfGroup(db.kids, gs, i);
      Repeated(rows, table(rows), same, Losers(k, gs[i]), Winner(k, gs[i]), n, e, id)
      <==> RunRepeated(k, table(k), same, gs, i, n, e, id)
  {
    var k, rows, w, ls := db.kids, RowsOfGroup(db.kids, gs, i), Winner(db.kids, gs[i]), Losers(db.kids, gs[i]);
    var p, a, t := Part(Elements(gs[i]), true), RunRedirects(k, gs[..i]), table(k);
    assert w in Elements(gs[i]) && forall m :: 0 <= m < |ls| ==> ls[m] in Elements(ls);
    StageInside(k, gs, db.cases, i, n);
    assert table(rows) == Repointed(RowsIn(t, p), a, follow);
    hide Winner, Losers, Stage, RunRedirects, RowsOfGroup, ValidGroups, KidsIn;
    hide Collapsing;
    assert VisitedBefore(table(rows), ls, w, n, e, id) <==> VisitedBefore(t, ls, w, n, e, id);
    if e in t && id in t {
      SameAfterFirst(table, key, follow, same, a, Stage(k, ls, w, n), t[e].data, t[id].data);
    }
  }

  lemma NoGroupRow<D(!new), K>(db: Db, gs: seq<seq<int>>, table: Kids -> Table<D>, key: D -> Option<K>,
                               follow: (Redirects, D) -> D, same: (Redirects, D, D) -> bool, id: int)
    requires Collapsing(table, key, follow, same) && ValidGroups(db.cases, gs)
    requires id in table(db.kids) && !OfCases(table(db.kids), id, Members(gs))
    ensures NonEmpty(gs)
    ensures
      var m := table(MergeGroups(db, gs).kids);
      id in m && m[id] == Row(table(db.kids)[id].caseId, follow(RunRedirects(db.kids, gs), table(db.kids)[id].data))
  {
    var p, k, m := Part(Members(gs), false), db.kids, MergeGroups(db, gs).kids;
    MembersAreBeyond(gs);
    hide Beyond, Members;
    GroupsOutside(db, gs, p);
    var r := RunRedirects(k, gs);
    assert table(KidsIn(m, p)) == RowsIn(table(m), p);
    assert table(Redirected(KidsIn(k, p), r)) == Repointed(RowsIn(table(k), p), r, follow);
    hide Collapsing, MergeGroups, RunRedirects, Redirected, KidsIn;
    assert id in RowsIn(table(k), p);
    assert RowsIn(table(m), p)[id] == table(m)[id];
  }

  lemma RepeatedInGroup<D>(k: Kids, t: Table<D>, same: (Redirects, D, D) -> bool, gs: seq<seq<int>>, i: nat, n: nat,
                           e: int, id: int)
    requires NonEmpty(gs) && i < |gs| && n < |Losers(k, gs[i])| && RunRepeated(k, t, same, gs, i, n, e, id)
    ensures OfCases(t, id, Elements(gs[i])) && OfCases(t, id, Members(gs))
  {
    var ls := Losers(k, gs[i]);
    assert ls[n] in Elements(ls) && ls[n] in gs[i];
  }

  lemma GroupOfRow(gs: seq<seq<int>>, c: int) returns (i: nat)
    requires c in Members(gs)
    ensures i < |gs| && c in Elements(gs[i])
  {
    i :| i < |gs| && c in gs[i];
  }

  /** A run deletes a row exactly when it repeats one of its group visited before it. */
  lemma RunGoneExactly<D(!new), K>(db: Db, gs: seq<seq<int>>, table: Kids -> Table<D>, key: D -> Option<K>,
                                   follow: (Redirects, D) -> D, same: (Redirects, D, D) -> bool, id: int)
    requires Collapsing(table, key, follow, same) && ValidGroups(db.cases, gs) && AllAscending(gs)
    requires id in table(db.kids)
    ensures NonEmpty(gs)
    ensures id !in table(MergeGroups(db, gs).kids) <==> RunGone(db.kids, table(db.kids), same, gs, id)
  {
    var k, t := db.kids, table(db.kids);
    hide Collapsing, MergeGroups, RunRepeated, Members, Losers, AllAscending;
    ValidNonEmpty(db.cases, gs);
    if OfCases(t, id, Members(gs)) {
      var i := GroupOfRow(gs, t[id].caseId.value);
      RunGoneIff(db, gs, i, table, key, follow, same, id);
      if j: nat, n: nat, e :| j < |gs| && n < |Losers(k, gs[j])| && RunRepeated(k, t, same, gs, j, n, e, id) {
        RepeatedInGroup(k, t, same, gs, j, n, e, id);
        OneGroup(db.cases, gs, i, j, t[id].caseId.value);
      }
    } else {
      NoGroupRow(db, gs, table, key, follow, same, id);
      if j: nat, n: nat, e :| j < |gs| && n < |Losers(k, gs[j])| && RunRepeated(k, t, same, gs, j, n, e, id) {
        RepeatedInGroup(k, t, same, gs, j, n, e, id);
      }
    }
  }

  lemma OneGroup(cases: map<int, Case>, gs: seq<seq<int>>, i: nat, j: nat, c: int)
    requires ValidGroups(cases, gs) && i < |gs| && j < |gs| && c in Elements(gs[i]) && c in Elements(gs[j])
    ensures i == j
  {
    GroupsOnce(cases, gs, c);
  }

  lemma GroupsOnce(cases: map<int, Case>, gs: seq<seq<int>>, c: int)
    requires ValidGroups(cases, gs)
    ensures forall i, j :: 0 <= i < j < |gs| ==> !(c in Elements(gs[i]) && c in Elements(gs[j]))
  {
    forall i, j | 0 <= i < j < |gs| ensures !(c in Elements(gs[i]) && c in Elements(gs[j])) {
      assert Elements(gs[i]) !! Elements(gs[j]);
    }
  }

  /** Where the rows of case `c` are after a run: with the winner of its group. */
  ghost predicate GoesTo(k: Kids, gs: seq<seq<int>>, c: Option<int>, after: Option<int>)
    requires NonEmpty(gs)
  {
    && (forall i :: 0 <= i < |gs| && c.Some? && c.value in gs[i] ==> after == Some(Winner(k, gs[i])))
    && (!(c.Some? && c.value in Members(gs)) ==> after == c)
  }

  /** A row that stays keeps its columns, all references followed, and is with the winner of its group. */
  lemma RunStayingRow<D(!new), K>(db: Db, gs: seq<seq<int>>, table: Kids -> Table<D>, key: D -> Option<K>,
                                  follow: (Redirects, D) -> D, same: (Redirects, D, D) -> bool, id: int)
    requires Collapsing(table, key, follow, same) && ValidGroups(db.cases, gs) && AllAscending(gs)
    requires id in table(db.kids) && id in table(MergeGroups(db, gs).kids)
    ensures NonEmpty(gs)
    ensures
      var m := table(MergeGroups(db, gs).kids)[id];
      && m.data == follow(RunRedirects(db.kids, gs), table(db.kids)[id].data)
      && GoesTo(db.kids, gs, table(db.kids)[id].caseId, m.caseId)
  {
    var k, t := db.kids, table(db.kids);
    ValidNonEmpty(db.cases, gs);
    hide Collapsing, MergeGroups, RunRedirects, GoesTo, Members, Winner, ValidGroups;
    if OfCases(t, id, Members(gs)) {
      var i := GroupOfRow(gs, t[id].caseId.value);
      GroupStayingRow(db, gs, i, table, key, follow, same, id);
      GoesToWinner(k, db.cases, gs, i, t[id].caseId.value);
    } else {
      NoGroupRow(db, gs, table, key, follow, same, id);
      GoesNowhere(k, gs, t[id].caseId);
    }
  }

  lemma GoesToWinner(k: Kids, cases: map<int, Case>, gs: seq<seq<int>>, i: nat, c: int)
    requires ValidGroups(cases, gs) && NonEmpty(gs) && i < |gs| && c in Elements(gs[i])
    ensures GoesTo(k, gs, Some(c), Some(Winner(k, gs[i])))
  {
    hide Winner, ValidGroups;
    forall j | 0 <= j < |gs| && c in gs[j] ensures j == i {
      OneGroup(cases, gs, i, j, c);
    }
    assert c in Members(gs);
  }

  lemma MemberOf(gs: seq<seq<int>>, j: nat, c: int)
    requires j < |gs| && c in gs[j]
    ensures c in Members(gs)
  {}

  lemma GoesNowhere(k: Kids, gs: seq<seq<int>>, c: Option<int>)
    requires NonEmpty(gs) && !(c.Some? && c.value in Members(gs))
    ensures GoesTo(k, gs, c, c)
  {
    hide Winner;
    if j :| 0 <= j < |gs| && c.Some? && c.value in gs[j] {
      MemberOf(gs, j, c.value);
    }
  }

  lemma GroupStayingRow<D(!new), K>(db: Db, gs: seq<seq<int>>, i: nat, table: Kids -> Table<D>, key: D -> Option<K>,
                                    follow: (Redirects, D) -> D, same: (Redirects, D, D) -> bool, id: int)
    requires Collapsing(table, key, follow, same) && ValidGroups(db.cases, gs) && AllAscending(gs) && i < |gs|
    requires NonEmpty(gs) && OfCases(table(db.kids), id, Elements(gs[i])) && id in table(MergeGroups(db, gs).kids)
    ensures table(MergeGroups(db, gs).kids)[id]
         == Row(Some(Winner(db.kids, gs[i])), follow(RunRedirects(db.kids, gs), table(db.kids)[id].data))
  {
    var k, g, t := db.kids, gs[i], table(db.kids);
    var rows, w, ls := RowsOfGroup(k, gs, i), Winner(k, g), Losers(k, g);
    var a, own, b := RunRedirects(k, gs[..i]), RedirectsOf(k, g), RunRedirects(k, gs[i + 1..]);
    AroundRedirects(k, db.cases, gs, i);
    OwnRedirects(k, g, a);
    assert w in Elements(g) && Elements(ls) == Elements(g) - {w} && forall c :: c in ls <==> c in Elements(ls);
    InGroup(db, gs, i, table, key, follow, same, id);
    var d := t[id].data;
    assert follow(own, follow(a, d)) == follow(Joined(a, own), d) by { ChainedParts(a, own, b); }
    assert follow(b, follow(Joined(a, own), d)) == follow(Joined(Joined(a, own), b), d) by { ChainedParts(a, own, b); }
    ChainedParts(a, own, b);
    hide Collapsing, MergeGroups, MergeAllKids, Winner, Losers, RunRedirects, RedirectsOf, RowsOfGroup, ValidGroups;
    StayingRow(rows, ls, w, table, key, follow, same, id);
  }

  lemma ChainedParts(a: Redirects, own: Redirects, b: Redirects)
    requires Chained(own, b) && Chained(a, Joined(own, b))
    ensures Chained(a, own) && Chained(Joined(a, own), b) && Joined(Joined(a, own), b) == Joined(a, Joined(own, b))
  {
    JoinedAssociative(a, own, b);
    PartsChain(a.movements, own.movements, b.movements);
    PartsChain(a.escritos, own.escritos, b.escritos);
  }

  lemma PartsChain(a: map<int, int>, own: map<int, int>, b: map<int, int>)
    requires Chain(own, b) && Chain(a, own + b)
    ensures Chain(a, own) && Chain(a + own, b)
  {
    var both := a + own;
    forall y | y in both ensures both[y] !in b {
      assert if y in own then both[y] == own[y] && own[y] in own.Values else both[y] == a[y] && a[y] in a.Values;
    }
    forall y | y in a ensures y !in own && a[y] !in own {
      assert a[y] in a.Values;
    }
  }

  /** A row a run deletes is stood for by one of its winner with the same columns, all references followed. */
  lemma RunStandIn<D(!new), K>(db: Db, gs: seq<seq<int>>, table: Kids -> Table<D>, key: D -> Option<K>,
                               follow: (Redirects, D) -> D, same: (Redirects, D, D) -> bool, id: int) returns (c: int)
    requires Collapsing(table, key, follow, same) && ValidGroups(db.cases, gs) && AllAscending(gs)
    requires id in table(db.kids) && id !in table(MergeGroups(db, gs).kids)
    ensures NonEmpty(gs)
    ensures
      var m := table(MergeGroups(db, gs).kids);
      && c in m && c in table(db.kids)
      && table(db.kids)[id].caseId.Some? && table(db.kids)[id].caseId.value in Members(gs)
      && GoesTo(db.kids, gs, table(db.kids)[id].caseId, m[c].caseId)
      && same(RunRedirects(db.kids, gs), table(db.kids)[c].data, table(db.kids)[id].data)
  {
    var k, t := db.kids, table(db.kids);
    ValidNonEmpty(db.cases, gs);
    if !OfCases(t, id, Members(gs)) {
      NoGroupRow(db, gs, table, key, follow, same, id);
    }
    var i := GroupOfRow(gs, t[id].caseId.value);
    hide Members, Winner, GoesTo, ValidGroups;
    c := GroupStandIn(db, gs, i, table, key, follow, same, id);
    GoesToWinner(k, db.cases, gs, i, t[id].caseId.value);
  }

  lemma GroupStandIn<D(!new), K>(db: Db, gs: seq<seq<int>>, i: nat, table: Kids -> Table<D>, key: D -> Option<K>,
                                 follow: (Redirects, D) -> D, same: (Redirects, D, D) -> bool, id: int) returns (c: int)
    requires Collapsing(table, key, follow, same) && ValidGroups(db.cases, gs) && AllAscending(gs) && i < |gs|
    requires NonEmpty(gs) && OfCases(table(db.kids), id, Elements(gs[i])) && id !in table(MergeGroups(db, gs).kids)
    ensures
      var m := table(MergeGroups(db, gs).kids);
      && c in m && m[c].caseId == Some(Winner(db.kids, gs[i])) && c in table(db.kids)
      && same(RunRedirects(db.kids, gs), table(db.kids)[c].data, table(db.kids)[id].data)
  {
    var k, g, t := db.kids, gs[i], table(db.kids);
    var rows, w, ls := RowsOfGroup(k, gs, i), Winner(k, g), Losers(k, g);
    var a, own, b := RunRedirects(k, gs[..i]), RedirectsOf(k, g), RunRedirects(k, gs[i + 1..]);
    AroundRedirects(k, db.cases, gs, i);
    OwnRedirects(k, g, a);
    ChainedParts(a, own, b);
    InGroup(db, gs, i, table, key, follow, same, id);
    var p := Part(Elements(g), true);
    assert table(rows) == Repointed(RowsIn(t, p), a, follow);
    hide MergeGroups, MergeAllKids, Winner, Losers, RunRedirects, RedirectsOf, RowsOfGroup, ValidGroups, KidsIn;
    hide Collapsing;
    c := StandIn(rows, ls, w, table, key, follow, same, id);
    assert c in RowsIn(t, p);
    SameAfterFirst(table, key, follow, same, a, own, t[c].data, t[id].data);
    SameLater(table, key, follow, same, Joined(a, own), b, t[c].data, t[id].data);
    InGroup(db, gs, i, table, key, follow, same, c);
  }
}
