/**
 * When the order of two groups shows: a merge and the references followed for
 * other groups commute exactly when no row is collapsed only because those
 * references were followed first.
 */
module CaseMergeSteady {
  import opened Options
  import opened ChildTable
  import opened CaseTables
  import opened CaseMergeLinks

  // ----- one table

  /** A collision stays one when references are followed. */
  lemma DroppedGrows<D(!new), K, C>(t: Table<D>, key: D -> Option<K>, loser: int, winner: int, c: C,
                                    follow: (C, D) -> D)
    requires Respects(key, c, follow)
    ensures forall id :: Dropped(t, key, loser, winner, id) ==> Dropped(Repointed(t, c, follow), key, loser, winner, id)
  {
    var u := Repointed(t, c, follow);
    forall id | Dropped(t, key, loser, winner, id) ensures Dropped(u, key, loser, winner, id) {
      var j :| Precedes(t, key, loser, winner, j, id);
      assert Precedes(u, key, loser, winner, j, id);
    }
  }

  /** No row of the loser first collides once the references `c` are followed. */
  ghost predicate SteadyTable<D, K, C>(t: Table<D>, key: D -> Option<K>, loser: int, winner: int, c: C,
                                       follow: (C, D) -> D) {
    forall id :: Dropped(Repointed(t, c, follow), key, loser, winner, id) ==> Dropped(t, key, loser, winner, id)
  }

  /** The rows of a merged table are those not collapsed. */
  lemma MergedRows<D, K>(t: Table<D>, key: D -> Option<K>, loser: int, winner: int)
    ensures Merged(t, key, loser, winner).Keys == t.Keys - DroppedIds(t, key, loser, winner)
    ensures DroppedIds(t, key, loser, winner) <= t.Keys
    ensures forall id :: id in Merged(t, key, loser, winner) ==>
      Merged(t, key, loser, winner)[id] == Row(if Owned(t, loser, id) then Some(winner) else t[id].caseId, t[id].data)
  {
    assert DroppedIds(t, key, loser, winner) * t.Keys == DroppedIds(t, key, loser, winner);
  }

  lemma MergedRepointedRows<D, K, C>(t: Table<D>, key: D -> Option<K>, loser: int, winner: int, c: C,
                                     follow: (C, D) -> D)
    ensures
      var u := Repointed(t, c, follow);
      var a, b := Merged(u, key, loser, winner), Repointed(Merged(t, key, loser, winner), c, follow);
      && a.Keys == t.Keys - DroppedIds(u, key, loser, winner) && b.Keys == t.Keys - DroppedIds(t, key, loser, winner)
      && DroppedIds(u, key, loser, winner) <= t.Keys && forall id :: id in a && id in b ==> a[id] == b[id]
  {
    MergedRows(t, key, loser, winner);
    MergedRows(Repointed(t, c, follow), key, loser, winner);
    hide Merged, DroppedIds;
  }

  lemma EqualIffSameRows<D>(a: Table<D>, b: Table<D>, all: set<int>, da: set<int>, db: set<int>)
    requires a.Keys == all - da && b.Keys == all - db && db <= da <= all
    requires forall id :: id in a && id in b ==> a[id] == b[id]
    ensures a == b <==> da <= db
  {
    if a == b {
      forall id | id in da ensures id in db {
        assert id !in a.Keys && id in all;
      }
    }
    if da <= db {
      assert a.Keys == b.Keys;
      forall id | id in a.Keys ensures id in b && a[id] == b[id] {}
    }
  }

  /** Merging and following commute exactly when no row first collides once the references are followed. */
  lemma MergedRepointedIff<D(!new), K, C>(t: Table<D>, key: D -> Option<K>, loser: int, winner: int, c: C,
                                          follow: (C, D) -> D)
    requires Respects(key, c, follow)
    ensures Merged(Repointed(t, c, follow), key, loser, winner) == Repointed(Merged(t, key, loser, winner), c, follow)
       <==> SteadyTable(t, key, loser, winner, c, follow)
  {
    var u := Repointed(t, c, follow);
    DroppedGrows(t, key, loser, winner, c, follow);
    MergedRepointedRows(t, key, loser, winner, c, follow);
    hide Respects, Merged, Repointed;
    var before, after := DroppedIds(t, key, loser, winner), DroppedIds(u, key, loser, winner);
    assert forall id :: id in before <==> Dropped(t, key, loser, winner, id);
    assert forall id :: id in after <==> Dropped(u, key, loser, winner, id);
    hide Dropped, DroppedIds;
    EqualIffSameRows(Merged(u, key, loser, winner), Repointed(Merged(t, key, loser, winner), c, follow), t.Keys,
      after, before);
  }

  /** Where the identity holds no reference, following never makes a row collide. */
  lemma PlainIsSteady<D(!new), K, C>(t: Table<D>, key: D -> Option<K>, loser: int, winner: int, c: C,
                                     follow: (C, D) -> D)
    requires forall d :: key(follow(c, d)) == key(d)
    ensures SteadyTable(t, key, loser, winner, c, follow)
  {
    var u := Repointed(t, c, follow);
    forall id | Dropped(u, key, loser, winner, id) ensures Dropped(t, key, loser, winner, id) {
      var j :| Precedes(u, key, loser, winner, j, id);
      assert Precedes(t, key, loser, winner, j, id);
    }
  }

  // ----- all tables of one merge

  /** None of the rows redirected or redirected to is a row of `k`. */
  predicate Foreign(r: Redirects, k: Kids) {
    && r.movements.Keys !! k.movements.Keys && r.movements.Values !! k.movements.Keys
    && r.escritos.Keys !! k.escritos.Keys && r.escritos.Values !! k.escritos.Keys
  }

  lemma CanonForeign<D, K>(t: Table<D>, key: D -> Option<K>, loser: int, winner: int, m: map<int, int>)
    requires loser != winner && m.Keys !! t.Keys && m.Values !! t.Keys
    ensures
      var canon := Canon(t, key, loser, winner);
      Chain(m, canon) && Chain(canon, m) && m + canon == canon + m
  {
    var canon := Canon(t, key, loser, winner);
    forall id | id in canon ensures id in t && canon[id] in t {
      CanonOwners(t, key, loser, winner, id);
    }
    SwapMaps(m, canon);
  }

  /** A merge and foreign redirections do not meet. */
  lemma PairForeign(k: Kids, loser: int, winner: int, r: Redirects)
    requires loser != winner && Foreign(r, k)
    ensures
      var own := PairRedirects(k, loser, winner);
      Chained(r, own) && Chained(own, r) && Joined(r, own) == Joined(own, r)
  {
    CanonForeign(k.movements, MovementKey, loser, winner, r.movements);
    CanonForeign(k.escritos, NaturalKey, loser, winner, r.escritos);
  }

  lemma RedirectedSwap(k: Kids, a: Redirects, b: Redirects)
    requires Chained(a, b) && Chained(b, a) && Joined(a, b) == Joined(b, a)
    ensures Redirected(Redirected(k, a), b) == Redirected(Redirected(k, b), a)
  {
    RedirectedTwice(k, a, b);
    RedirectedTwice(k, b, a);
  }

  lemma SettledRedirected(k: Kids, loser: int, winner: int, r: Redirects)
    requires loser != winner && Foreign(r, k)
    ensures Settled(Redirected(k, r), loser, winner) == Redirected(Settled(k, loser, winner), r)
  {
    PairForeign(k, loser, winner, r);
    SettledIs(k, loser, winner);
    SettledIs(Redirected(k, r), loser, winner);
    hide Settled, Canon, Merged, Foreign, Repointed, Chained;
    RedirectedSwap(k, r, PairRedirects(k, loser, winner));
  }

  /** No document and no alert of the settled rows `s` first collides once `r` is followed. */
  ghost predicate SteadyPair(s: Kids, loser: int, winner: int, r: Redirects) {
    && SteadyTable(s.documents, DocumentKey, loser, winner, r, DocumentLinks)
    && SteadyTable(s.alerts, AlertKey, loser, winner, r.movements, AlertMovement)
  }

  /** Deadline and hito references never matter: no identity holds them. */
  lemma UnkeyedLinks(s: Kids, loser: int, winner: int, r: Redirects)
    ensures Merged(Repointed(s.deadlines, r.movements, DeadlineMovements), DeadlineKey, loser, winner)
         == Repointed(Merged(s.deadlines, DeadlineKey, loser, winner), r.movements, DeadlineMovements)
    ensures Merged(Repointed(s.hitos, r.movements, HitoMovement), NoKey, loser, winner)
         == Repointed(Merged(s.hitos, NoKey, loser, winner), r.movements, HitoMovement)
  {
    hide Follow, Repointed, Merged, SteadyTable;
    PlainIsSteady(s.deadlines, DeadlineKey, loser, winner, r.movements, DeadlineMovements);
    MergedRepointedIff(s.deadlines, DeadlineKey, loser, winner, r.movements, DeadlineMovements);
    PlainIsSteady(s.hitos, NoKey, loser, winner, r.movements, HitoMovement);
    MergedRepointedIff(s.hitos, NoKey, loser, winner, r.movements, HitoMovement);
  }

  /** One merge commutes with following foreign references exactly when no document or alert is unsteady. */
  lemma MergeKidsRedirectedIff(k: Kids, loser: int, winner: int, r: Redirects)
    requires loser != winner && Foreign(r, k)
    ensures MergeKids(Redirected(k, r), loser, winner) == Redirected(MergeKids(k, loser, winner), r)
       <==> SteadyPair(Settled(k, loser, winner), loser, winner, r)
  {
    var s := Settled(k, loser, winner);
    SettledRedirected(k, loser, winner, r);
    LinksRespectKeys(r);
    UnkeyedLinks(s, loser, winner, r);
    hide Settled, Merged, Repointed, Respects, SteadyTable, Foreign;
    MergedRepointedIff(s.documents, DocumentKey, loser, winner, r, DocumentLinks);
    MergedRepointedIff(s.alerts, AlertKey, loser, winner, r.movements, AlertMovement);
  }

  // ----- a group

  /**
   * At no merge of the group does a document or alert of the loser first
   * collide with an earlier one of the group once the references `r` of other
   * groups are followed.
   */
  ghost predicate Steady(k: Kids, losers: seq<int>, winner: int, r: Redirects)
    requires winner !in losers
    decreases |losers|
  {
    losers == [] || (
      && SteadyPair(Settled(k, losers[0], winner), losers[0], winner, r)
      && Steady(MergeKids(k, losers[0], winner), losers[1..], winner, r))
  }

  lemma ForeignStays(k: Kids, loser: int, winner: int, r: Redirects)
    requires loser != winner && Foreign(r, k)
    ensures Foreign(r, MergeKids(k, loser, winner)) && Foreign(r, Redirected(k, r))
  {
    MergedSubset(k.movements, MovementKey, loser, winner);
    MergedSubset(k.escritos, NaturalKey, loser, winner);
    hide Merged;
  }

  lemma {:induction false} WinnersStay(k: Kids, losers: seq<int>, winner: int)
    requires winner !in losers
    ensures
      var m := MergeAllKids(k, losers, winner);
      && (forall id :: Owned(k.documents, winner, id) ==> id in m.documents)
      && (forall id :: Owned(k.alerts, winner, id) ==> id in m.alerts)
      && m.documents.Keys <= k.documents.Keys && m.alerts.Keys <= k.alerts.Keys
    decreases |losers|
  {
    if losers != [] {
      var s := Settled(k, losers[0], winner);
      RowsOfWinner(s.documents, DocumentKey, losers[0], winner);
      RowsOfWinner(s.alerts, AlertKey, losers[0], winner);
      SettledIs(k, losers[0], winner);
      hide Merged, Settled;
      WinnersStay(MergeKids(k, losers[0], winner), losers[1..], winner);
    }
  }

  lemma RowsOfWinner<D, K>(t: Table<D>, key: D -> Option<K>, loser: int, winner: int)
    requires loser != winner
    ensures Merged(t, key, loser, winner).Keys <= t.Keys
    ensures forall id :: Owned(t, winner, id) ==> Owned(Merged(t, key, loser, winner), winner, id)
    ensures forall id :: Owned(t, loser, id) && !Dropped(t, key, loser, winner, id) ==>
      Owned(Merged(t, key, loser, winner), winner, id)
  {
    forall id | id in t
      ensures Owned(t, winner, id) ==> Owned(Merged(t, key, loser, winner), winner, id)
      ensures Owned(t, loser, id) && !Dropped(t, key, loser, winner, id) ==>
        Owned(Merged(t, key, loser, winner), winner, id)
    {
      MergedRow(t, key, loser, winner, id);
    }
  }

  /** A row collapsed in one order only is missing from that order's result and stays in the other's. */
  lemma UnsteadyRow<D, K, C>(t: Table<D>, key: D -> Option<K>, loser: int, winner: int, c: C, follow: (C, D) -> D)
    returns (id: int)
    requires loser != winner && !SteadyTable(t, key, loser, winner, c, follow)
    ensures Owned(Merged(t, key, loser, winner), winner, id)
    ensures id !in Merged(Repointed(t, c, follow), key, loser, winner)
  {
    var u := Repointed(t, c, follow);
    id :| Dropped(u, key, loser, winner, id) && !Dropped(t, key, loser, winner, id);
    MergedRow(t, key, loser, winner, id);
    MergedRow(u, key, loser, winner, id);
  }

  lemma UnsteadyPairShows(k: Kids, losers: seq<int>, winner: int, r: Redirects)
    requires winner !in losers && losers != [] && Foreign(r, k)
    requires !SteadyPair(Settled(k, losers[0], winner), losers[0], winner, r)
    ensures MergeAllKids(Redirected(k, r), losers, winner) != Redirected(MergeAllKids(k, losers, winner), r)
  {
    var s := Settled(k, losers[0], winner);
    var k1, k2 := MergeKids(k, losers[0], winner), MergeKids(Redirected(k, r), losers[0], winner);
    SettledRedirected(k, losers[0], winner, r);
    WinnersStay(k1, losers[1..], winner);
    WinnersStay(k2, losers[1..], winner);
    hide Settled, Merged, Foreign, SteadyTable;
    if !SteadyTable(s.documents, DocumentKey, losers[0], winner, r, DocumentLinks) {
      var id := UnsteadyRow(s.documents, DocumentKey, losers[0], winner, r, DocumentLinks);
      assert id in MergeAllKids(k, losers, winner).documents;
      assert id !in MergeAllKids(Redirected(k, r), losers, winner).documents;
    } else {
      var id := UnsteadyRow(s.alerts, AlertKey, losers[0], winner, r.movements, AlertMovement);
      assert id in MergeAllKids(k, losers, winner).alerts;
      assert id !in MergeAllKids(Redirected(k, r), losers, winner).alerts;
    }
  }

  /** Merging a group commutes with following foreign references exactly when the group is steady. */
  lemma {:induction false} SteadyIff(k: Kids, losers: seq<int>, winner: int, r: Redirects)
    requires winner !in losers && Foreign(r, k)
    ensures MergeAllKids(Redirected(k, r), losers, winner) == Redirected(MergeAllKids(k, losers, winner), r)
       <==> Steady(k, losers, winner, r)
    decreases |losers|
  {
    hide MergeKids, Settled, Redirected, Foreign, SteadyPair;
    if losers != [] {
      if SteadyPair(Settled(k, losers[0], winner), losers[0], winner, r) {
        MergeKidsRedirectedIff(k, losers[0], winner, r);
        ForeignStays(k, losers[0], winner, r);
        SteadyIff(MergeKids(k, losers[0], winner), losers[1..], winner, r);
      } else {
        UnsteadyPairShows(k, losers, winner, r);
      }
    }
  }

  // ----- part of the references

  lemma SteadyTableLess<D(!new), K, C>(t: Table<D>, key: D -> Option<K>, loser: int, winner: int, a: C, b: C, both: C,
                                       follow: (C, D) -> D)
    requires Respects(key, a, follow) && Respects(key, b, follow)
    requires Repointed(Repointed(t, a, follow), b, follow) == Repointed(t, both, follow)
    requires SteadyTable(t, key, loser, winner, both, follow)
    ensures SteadyTable(t, key, loser, winner, a, follow)
    ensures SteadyTable(Repointed(t, a, follow), key, loser, winner, b, follow)
  {
    DroppedGrows(t, key, loser, winner, a, follow);
    DroppedGrows(Repointed(t, a, follow), key, loser, winner, b, follow);
    hide Dropped, Repointed, Respects;
  }

  lemma SteadyPairLess(s: Kids, loser: int, winner: int, a: Redirects, b: Redirects)
    requires Chained(a, b) && SteadyPair(s, loser, winner, Joined(a, b))
    ensures SteadyPair(s, loser, winner, a) && SteadyPair(Redirected(s, a), loser, winner, b)
  {
    RedirectedTwice(s, a, b);
    LinksRespectKeys(a);
    LinksRespectKeys(b);
    hide SteadyTable, Repointed, Respects, Chained;
    SteadyTableLess(s.documents, DocumentKey, loser, winner, a, b, Joined(a, b), DocumentLinks);
    SteadyTableLess(s.alerts, AlertKey, loser, winner, a.movements, b.movements, Joined(a, b).movements, AlertMovement);
  }

  /** Steady under all references is steady under the first of them, and afterwards under the others. */
  lemma {:induction false} SteadyLess(k: Kids, losers: seq<int>, winner: int, a: Redirects, b: Redirects)
    requires winner !in losers && Foreign(a, k) && Foreign(b, k) && Chained(a, b)
    requires Steady(k, losers, winner, Joined(a, b))
    ensures Steady(k, losers, winner, a) && Steady(Redirected(k, a), losers, winner, b)
    decreases |losers|
  {
    hide MergeKids, Settled, Redirected, Foreign, SteadyPair, Chained, Joined;
    if losers != [] {
      var k1 := MergeKids(k, losers[0], winner);
      SteadyPairLess(Settled(k, losers[0], winner), losers[0], winner, a, b);
      SettledRedirected(k, losers[0], winner, a);
      MergeKidsRedirectedIff(k, losers[0], winner, a);
      ForeignStays(k, losers[0], winner, a);
      ForeignStays(k, losers[0], winner, b);
      SteadyLess(k1, losers[1..], winner, a, b);
    }
  }

  // ----- references that do not cross

  /** No document and no alert of `k` refers to a row that `r` redirects. */
  ghost predicate Uncrossed(k: Kids, r: Redirects) {
    && (forall id :: id in k.documents ==> DocumentLinks(r, k.documents[id].data) == k.documents[id].data)
    && (forall id :: id in k.alerts ==> AlertMovement(r.movements, k.alerts[id].data) == k.alerts[id].data)
  }

  lemma UnmovedIsSteady<D, K, C>(t: Table<D>, key: D -> Option<K>, loser: int, winner: int, c: C, follow: (C, D) -> D)
    requires forall id :: id in t ==> follow(c, t[id].data) == t[id].data
    ensures SteadyTable(t, key, loser, winner, c, follow)
  {
    UnmovedIff(t, c, follow);
  }

  lemma UncrossedIff(k: Kids, r: Redirects)
    ensures Uncrossed(k, r) <==> Redirected(k, r).documents == k.documents && Redirected(k, r).alerts == k.alerts
  {
    UnmovedIff(k.documents, r, DocumentLinks);
    UnmovedIff(k.alerts, r.movements, AlertMovement);
  }

  lemma UnmovedIff<D, C>(t: Table<D>, c: C, follow: (C, D) -> D)
    ensures Repointed(t, c, follow) == t <==> forall id :: id in t ==> follow(c, t[id].data) == t[id].data
  {
    var u := Repointed(t, c, follow);
    if forall id :: id in t ==> follow(c, t[id].data) == t[id].data {
      forall id | id in t ensures u[id] == t[id] {}
    }
    if u == t {
      forall id | id in t ensures follow(c, t[id].data) == t[id].data {
        assert u[id] == t[id];
      }
    }
  }

  lemma SettledUncrossed(k: Kids, loser: int, winner: int, r: Redirects)
    requires loser != winner && Foreign(r, k) && Uncrossed(k, r)
    ensures Uncrossed(Settled(k, loser, winner), r)
  {
    SettledIs(k, loser, winner);
    SettledIs(Redirected(k, r), loser, winner);
    SettledRedirected(k, loser, winner, r);
    UncrossedIff(k, r);
    UncrossedIff(Settled(k, loser, winner), r);
    hide Uncrossed, Settled, Merged, Canon, Repointed, Foreign;
  }

  /** A group whose documents and alerts refer to no collapsed row of another group is steady. */
  lemma {:induction false} UncrossedIsSteady(k: Kids, losers: seq<int>, winner: int, r: Redirects)
    requires winner !in losers && Foreign(r, k) && Uncrossed(k, r)
    ensures Steady(k, losers, winner, r)
    decreases |losers|
  {
    if losers != [] {
      var k1 := MergeKids(k, losers[0], winner);
      hide Foreign, Uncrossed, MergeKids, Settled, SteadyPair;
      UncrossedPair(k, losers[0], winner, r);
      ForeignStays(k, losers[0], winner, r);
      UncrossedIsSteady(k1, losers[1..], winner, r);
    }
  }

  lemma UncrossedPair(k: Kids, loser: int, winner: int, r: Redirects)
    requires loser != winner && Foreign(r, k) && Uncrossed(k, r)
    ensures SteadyPair(Settled(k, loser, winner), loser, winner, r) && Uncrossed(MergeKids(k, loser, winner), r)
  {
    var s := Settled(k, loser, winner);
    SettledUncrossed(k, loser, winner, r);
    UnmovedIsSteady(s.documents, DocumentKey, loser, winner, r, DocumentLinks);
    UnmovedIsSteady(s.alerts, AlertKey, loser, winner, r.movements, AlertMovement);
    MergedSubset(s.documents, DocumentKey, loser, winner);
    MergedSubset(s.alerts, AlertKey, loser, winner);
    hide Settled, Merged, SteadyTable, Repointed, Foreign;
  }
}
