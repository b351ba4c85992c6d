/**
 * Nothing lost: the identities the winner of a group holds after the merge are
 * exactly those the group held before it.
 */
module CaseMergeContents {
  import opened Options
  import opened Ordering
  import opened ChildTable
  import opened CaseTables
  import opened CaseMergeLinks
  import opened CaseMerge

  /** The identities held by the cases of `cs`. */
  ghost function KeysIn<D, K>(t: Table<D>, key: D -> Option<K>, cs: set<int>): set<K> {
    set id | id in t && t[id].caseId.Some? && t[id].caseId.value in cs && key(t[id].data).Some? :: key(t[id].data).value
  }

  lemma KeysInRow<D, K>(t: Table<D>, key: D -> Option<K>, cs: set<int>, id: int)
    requires id in t && t[id].caseId.Some? && t[id].caseId.value in cs && key(t[id].data).Some?
    ensures key(t[id].data).value in KeysIn(t, key, cs)
  {}

  lemma MergedKeysIn<D, K>(t: Table<D>, key: D -> Option<K>, loser: int, winner: int, cs: set<int>)
    requires loser != winner && winner in cs && loser !in cs
    ensures KeysIn(Merged(t, key, loser, winner), key, cs) == KeysIn(t, key, cs + {loser})
  {
    var u := Merged(t, key, loser, winner);
    forall k | k in KeysIn(t, key, cs + {loser}) ensures k in KeysIn(u, key, cs) {
      var id :| id in t && t[id].caseId.Some? && t[id].caseId.value in cs + {loser} && key(t[id].data) == Some(k);
      MergedRow(t, key, loser, winner, id);
      if Dropped(t, key, loser, winner, id) {
        var c := CanonicalExists(t, key, loser, winner, id);
        CanonicalSurvives(t, key, loser, winner, id, c);
        KeysInRow(u, key, cs, c);
      } else {
        KeysInRow(u, key, cs, id);
      }
    }
    forall k | k in KeysIn(u, key, cs) ensures k in KeysIn(t, key, cs + {loser}) {
      var id :| id in u && u[id].caseId.Some? && u[id].caseId.value in cs && key(u[id].data) == Some(k);
      MergedRow(t, key, loser, winner, id);
      KeysInRow(t, key, cs + {loser}, id);
    }
  }

  lemma {:induction false} MergeLosersKids(db: Db, losers: seq<int>, winner: int)
    requires winner !in losers
    ensures MergeLosers(db, losers, winner).kids == MergeAllKids(db.kids, losers, winner)
    decreases |losers|
  {
    if losers != [] {
      MergeLosersKids(MergePair(db, losers[0], winner), losers[1..], winner);
    }
  }

  /** References followed through a group name live rows with the identity of the row they named. */
  lemma {:induction false} FollowedRowsLive(k: Kids, losers: seq<int>, winner: int, movement: Option<int>,
                                            escrito: Option<int>)
    requires winner !in losers && Live(movement, k.movements) && Live(escrito, k.escritos)
    ensures
      var m, r := MergeAllKids(k, losers, winner), GroupRedirects(k, losers, winner);
      var movement', escrito' := Follow(r.movements, movement), Follow(r.escritos, escrito);
      && Live(movement', m.movements) && Live(escrito', m.escritos)
      && (movement.Some? ==> movement'.Some? && m.movements[movement'.value].data == k.movements[movement.value].data)
      && (escrito.Some? ==> escrito'.Some? && m.escritos[escrito'.value].data == k.escritos[escrito.value].data)
    decreases |losers|
  {
    if losers != [] {
      var l := losers[0];
      var k1, first := MergeKids(k, l, winner), PairRedirects(k, l, winner);
      var rest := GroupRedirects(k1, losers[1..], winner);
      GroupRedirectsCons(k, losers, winner);
      FollowTwice(first.movements, rest.movements);
      FollowTwice(first.escritos, rest.escritos);
      FollowSurvives(k.movements, MovementKey, l, winner, movement);
      FollowSurvives(k.escritos, NaturalKey, l, winner, escrito);
      MergedSubset(k.movements, MovementKey, l, winner);
      MergedSubset(k.escritos, NaturalKey, l, winner);
      FollowedRowsLive(k1, losers[1..], winner, Follow(first.movements, movement), Follow(first.escritos, escrito));
    }
  }

  // ----- the tables whose identity holds no reference

  /**
   * The winner ends with exactly the identities of the group, table by table.
   * `cs` is the winner and the losers not merged yet.
   */
  lemma {:induction false} GroupKeysKept(k: Kids, losers: seq<int>, winner: int)
    requires winner !in losers && forall i, j :: 0 <= i < j < |losers| ==> losers[i] != losers[j]
    ensures
      var m, cs := MergeAllKids(k, losers, winner), {winner} + Elements(losers);
      && KeysIn(m.movements, MovementKey, {winner}) == KeysIn(k.movements, MovementKey, cs)
      && KeysIn(m.litigantes, NaturalKey, {winner}) == KeysIn(k.litigantes, NaturalKey, cs)
      && KeysIn(m.notificaciones, NaturalKey, {winner}) == KeysIn(k.notificaciones, NaturalKey, cs)
      && KeysIn(m.escritos, NaturalKey, {winner}) == KeysIn(k.escritos, NaturalKey, cs)
      && KeysIn(m.exhortos, NaturalKey, {winner}) == KeysIn(k.exhortos, NaturalKey, cs)
      && KeysIn(m.snapshots, NaturalKey, {winner}) == KeysIn(k.snapshots, NaturalKey, cs)
      && KeysIn(m.deadlines, DeadlineKey, {winner}) == KeysIn(k.deadlines, DeadlineKey, cs)
    decreases |losers|
  {
    if losers == [] {
      assert {winner} + Elements(losers) == {winner};
    } else {
      var l, rest := losers[0], {winner} + Elements(losers[1..]);
      assert losers == [l] + losers[1..];
      ElementsCons(l, losers[1..]);
      assert {winner} + Elements(losers) == rest + {l} && l !in rest;
      GroupKeysKept(MergeKids(k, l, winner), losers[1..], winner);
      MergedKeysIn(k.movements, MovementKey, l, winner, rest);
      MergedKeysIn(k.litigantes, NaturalKey, l, winner, rest);
      MergedKeysIn(k.notificaciones, NaturalKey, l, winner, rest);
      MergedKeysIn(k.escritos, NaturalKey, l, winner, rest);
      MergedKeysIn(k.exhortos, NaturalKey, l, winner, rest);
      MergedKeysIn(k.snapshots, NaturalKey, l, winner, rest);
      MergedKeysIn(Settled(k, l, winner).deadlines, DeadlineKey, l, winner, rest);
      RepointKeepsDeadlineKeys(k.deadlines, MovementCanon(k, l, winner), rest + {l});
    }
  }

  lemma RepointKeepsDeadlineKeys(t: Table<Deadline>, canon: map<int, int>, cs: set<int>)
    ensures KeysIn(Repointed(t, canon, DeadlineMovements), DeadlineKey, cs) == KeysIn(t, DeadlineKey, cs)
  {
    var u := Repointed(t, canon, DeadlineMovements);
    forall id | id in t ensures u[id].caseId == t[id].caseId && DeadlineKey(u[id].data) == DeadlineKey(t[id].data) {}
  }

  // ----- documents and alerts: identities taken after the references are followed

  /** A row is collapsed into one whose identity is the same, and stays so once `c` is followed. */
  lemma MergedKeyFollowed<D(!new), K, C>(t: Table<D>, key: D -> Option<K>, loser: int, winner: int, cs: set<int>,
                                         c: C, follow: (C, D) -> D, id: int)
    requires loser != winner && winner in cs && loser !in cs && Respects(key, c, follow)
    requires id in t && t[id].caseId.Some? && t[id].caseId.value in cs + {loser} && key(follow(c, t[id].data)).Some?
    ensures key(follow(c, t[id].data)).value in KeysIn(Repointed(Merged(t, key, loser, winner), c, follow), key, cs)
  {
    var m := Merged(t, key, loser, winner);
    var u := Repointed(m, c, follow);
    MergedRow(t, key, loser, winner, id);
    if Dropped(t, key, loser, winner, id) {
      var kept := CanonicalExists(t, key, loser, winner, id);
      CanonicalSurvives(t, key, loser, winner, id, kept);
      hide Merged, Dropped;
      assert key(m[kept].data) == key(t[id].data);
      assert u[kept].data == follow(c, m[kept].data);
      KeysInRow(u, key, cs, kept);
    } else {
      KeysInRow(u, key, cs, id);
    }
  }

  lemma MergedKeysFollowed<D(!new), K, C>(t: Table<D>, key: D -> Option<K>, loser: int, winner: int, cs: set<int>,
                                          c: C, follow: (C, D) -> D)
    requires loser != winner && winner in cs && loser !in cs && Respects(key, c, follow)
    ensures KeysIn(Repointed(Merged(t, key, loser, winner), c, follow), key, cs)
         == KeysIn(Repointed(t, c, follow), key, cs + {loser})
  {
    var u, v := Repointed(Merged(t, key, loser, winner), c, follow), Repointed(t, c, follow);
    forall k | k in KeysIn(v, key, cs + {loser}) ensures k in KeysIn(u, key, cs) {
      var id :| id in v && v[id].caseId.Some? && v[id].caseId.value in cs + {loser} && key(v[id].data) == Some(k);
      hide Respects, Merged;
      assert v[id].data == follow(c, t[id].data);
      MergedKeyFollowed(t, key, loser, winner, cs, c, follow, id);
    }
    forall k | k in KeysIn(u, key, cs) ensures k in KeysIn(v, key, cs + {loser}) {
      var id :| id in u && u[id].caseId.Some? && u[id].caseId.value in cs && key(u[id].data) == Some(k);
      MergedRow(t, key, loser, winner, id);
      hide Respects, Merged;
      KeysInRow(v, key, cs + {loser}, id);
    }
  }

  /** One merge: the documents and alerts it collapses have the identities of others, whatever `later` redirects. */
  lemma PairLinkedKeysKept(k: Kids, loser: int, winner: int, later: Redirects, cs: set<int>)
    requires loser != winner && winner in cs && loser !in cs && Chained(PairRedirects(k, loser, winner), later)
    ensures
      var m, f := Redirected(MergeKids(k, loser, winner), later),
        Redirected(k, Joined(PairRedirects(k, loser, winner), later));
      && KeysIn(m.documents, DocumentKey, cs) == KeysIn(f.documents, DocumentKey, cs + {loser})
      && KeysIn(m.alerts, AlertKey, cs) == KeysIn(f.alerts, AlertKey, cs + {loser})
  {
    var s := Settled(k, loser, winner);
    SettledIs(k, loser, winner);
    LinksRespectKeys(later);
    RedirectedTwice(k, PairRedirects(k, loser, winner), later);
    hide Respects, Settled, PairRedirects, KeysIn, Merged, Follow, Chained;
    MergedKeysFollowed(s.documents, DocumentKey, loser, winner, cs, later, DocumentLinks);
    MergedKeysFollowed(s.alerts, AlertKey, loser, winner, cs, later.movements, AlertMovement);
  }

  /**
   * The winner's document and alert identities are exactly those of the group,
   * references followed through the group and through all that `later` redirects.
   */
  lemma {:induction false} GroupLinkedKeysKept(k: Kids, losers: seq<int>, winner: int, later: Redirects)
    requires winner !in losers && forall i, j :: 0 <= i < j < |losers| ==> losers[i] != losers[j]
    requires Chained(GroupRedirects(k, losers, winner), later)
    ensures
      var m, cs := Redirected(MergeAllKids(k, losers, winner), later), {winner} + Elements(losers);
      var f := Redirected(k, Joined(GroupRedirects(k, losers, winner), later));
      && KeysIn(m.documents, DocumentKey, {winner}) == KeysIn(f.documents, DocumentKey, cs)
      && KeysIn(m.alerts, AlertKey, {winner}) == KeysIn(f.alerts, AlertKey, cs)
    decreases |losers|
  {
    hide KeysIn, Redirected, MergeKids, PairRedirects, Chained, Joined;
    if losers == [] {
      assert {winner} + Elements(losers) == {winner};
      JoinedNone(later);
    } else {
      var l, cs := losers[0], {winner} + Elements(losers[1..]);
      var k1, first := MergeKids(k, l, winner), PairRedirects(k, l, winner);
      var rest := GroupRedirects(k1, losers[1..], winner);
      assert losers == [l] + losers[1..];
      ElementsCons(l, losers[1..]);
      assert {winner} + Elements(losers) == cs + {l} && l !in cs;
      GroupRedirectsCons(k, losers, winner);
      JoinedChain(first, rest, later);
      GroupLinkedKeysKept(k1, losers[1..], winner, later);
      PairLinkedKeysKept(k, l, winner, Joined(rest, later), cs);
    }
  }

  /** A document with a token hash, or with neither link, is never deleted, and keeps its hash and links. */
  lemma {:induction false} UnidentifiedDocumentsStay(k: Kids, losers: seq<int>, winner: int, id: int)
    requires winner !in losers && id in k.documents && DocumentKey(k.documents[id].data) == None
    ensures
      var m := MergeAllKids(k, losers, winner);
      && id in m.documents
      && m.documents[id].data == DocumentLinks(GroupRedirects(k, losers, winner), k.documents[id].data)
    decreases |losers|
  {
    if losers != [] {
      var s, k1, first := Settled(k, losers[0], winner), MergeKids(k, losers[0], winner),
        PairRedirects(k, losers[0], winner);
      var rest := GroupRedirects(k1, losers[1..], winner);
      SettledIs(k, losers[0], winner);
      LinksRespectKeys(first);
      MergedRow(s.documents, DocumentKey, losers[0], winner, id);
      GroupRedirectsCons(k, losers, winner);
      FollowTwice(first.movements, rest.movements);
      FollowTwice(first.escritos, rest.escritos);
      hide Settled, PairRedirects, GroupRedirects, Merged, Chained, Respects;
      UnidentifiedDocumentsStay(k1, losers[1..], winner, id);
    }
  }

  lemma PlainTableStays<D>(t: Table<D>, loser: int, winner: int)
    ensures Merged(t, NoKey, loser, winner).Keys == t.Keys
  {
    forall id ensures id in Merged(t, NoKey, loser, winner) <==> id in t {
      if id in t {
        MergedRow(t, NoKey, loser, winner, id);
      }
    }
  }

  /** Tables with no per-case identity lose no row. */
  lemma {:induction false} PlainRowsStay(k: Kids, losers: seq<int>, winner: int)
    requires winner !in losers
    ensures
      var m := MergeAllKids(k, losers, winner);
      m.hitos.Keys == k.hitos.Keys && m.liberaciones.Keys == k.liberaciones.Keys && m.generados.Keys == k.generados.Keys
    decreases |losers|
  {
    if losers != [] {
      var k1 := MergeKids(k, losers[0], winner);
      PlainTableStays(Settled(k, losers[0], winner).hitos, losers[0], winner);
      PlainTableStays(k.liberaciones, losers[0], winner);
      PlainTableStays(k.generados, losers[0], winner);
      PlainRowsStay(k1, losers[1..], winner);
    }
  }

  // ----- lawyer sources

  /** Lawyer `l` is recorded as a source of some case of `cs`. */
  ghost predicate SourceAmong(sources: set<(int, int)>, cs: set<int>, l: int) {
    exists c :: c in cs && (c, l) in sources
  }

  lemma MergedSourceIff(s: set<(int, int)>, loser: int, winner: int, c: int, l: int)
    requires loser != winner
    ensures (c, l) in MergeSources(s, loser, winner) <==>
      if c == loser then false else (c, l) in s || (c == winner && (loser, l) in s)
  {
    var m := MergeSources(s, loser, winner);
    if (c, l) in s && c != loser {
      assert (c, l) in m;
    }
    if (loser, l) in s {
      assert (winner, l) in m;
    }
  }

  lemma SourceAmongStep(s: set<(int, int)>, loser: int, winner: int, rest: set<int>, l: int)
    requires loser != winner && loser !in rest && winner in rest
    ensures SourceAmong(MergeSources(s, loser, winner), rest, l) <==> SourceAmong(s, rest + {loser}, l)
  {
    if c :| c in rest && (c, l) in MergeSources(s, loser, winner) {
      MergedSourceIff(s, loser, winner, c, l);
    }
    if c :| c in rest + {loser} && (c, l) in s {
      MergedSourceIff(s, loser, winner, if c == loser then winner else c, l);
    }
  }

  lemma {:induction false} LosersSourcesKept(db: Db, losers: seq<int>, winner: int, l: int)
    requires winner !in losers && forall i, j :: 0 <= i < j < |losers| ==> losers[i] != losers[j]
    ensures SourceAmong(MergeLosers(db, losers, winner).sources, {winner}, l)
       <==> SourceAmong(db.sources, {winner} + Elements(losers), l)
    decreases |losers|
  {
    hide MergeKids, RepointAudit, SourceAmong, MergeSources;
    if losers == [] {
      assert {winner} + Elements(losers) == {winner};
    } else {
      var x, rest := losers[0], {winner} + Elements(losers[1..]);
      assert losers == [x] + losers[1..];
      ElementsCons(x, losers[1..]);
      assert {winner} + Elements(losers) == rest + {x} && x !in rest;
      LosersSourcesKept(MergePair(db, x, winner), losers[1..], winner, l);
      SourceAmongStep(db.sources, x, winner, rest, l);
    }
  }

  /** Lawyer `l` owns some case of `cs`. */
  ghost predicate OwnerAmong(cases: map<int, Case>, cs: set<int>, l: int) {
    exists o :: o in cs && o in cases && cases[o].lawyerId == l
  }

  lemma OwnerFound(cases: map<int, Case>, cs: set<int>, o: int)
    requires o in cs && o in cases
    ensures OwnerAmong(cases, cs, cases[o].lawyerId)
  {}

  lemma BackfilledIff(db: Db, g: seq<int>, winner: int, c: int, l: int)
    requires Elements(g) <= db.cases.Keys
    ensures (c, l) in BackfillSources(db, g, winner) <==>
      (c, l) in db.sources || (c == winner && OwnerAmong(db.cases, Elements(g), l))
  {
    var b := BackfillSources(db, g, winner);
    if c == winner && OwnerAmong(db.cases, Elements(g), l) {
      var o :| o in Elements(g) && o in db.cases && db.cases[o].lawyerId == l;
      var i :| 0 <= i < |g| && g[i] == o;
      assert SourceOf(db.cases, g, winner, i) in b;
    }
    if (c, l) in b && (c, l) !in db.sources {
      var i :| 0 <= i < |g| && (c, l) == SourceOf(db.cases, g, winner, i);
      OwnerFound(db.cases, Elements(g), g[i]);
    }
  }

  /** The winner's sources are exactly the sources and the owners of the cases of its group. */
  lemma GroupSourcesKept(db: Db, g: seq<int>, l: int)
    requires ValidGroup(db.cases, g) && Ascending(g, IntLess)
    ensures (Winner(db.kids, g), l) in MergeGroup(db, g).sources <==>
      SourceAmong(db.sources, Elements(g), l) || OwnerAmong(db.cases, Elements(g), l)
  {
    var w, ls := Winner(db.kids, g), Losers(db.kids, g);
    assert w in Elements(g) && w !in Elements(ls);
    AscendingDistinct(ls, IntLess);
    LosersSourcesKept(Prepared(db, g), ls, w, l);
    assert {w} + Elements(ls) == Elements(g);
    forall c ensures (c, l) in Prepared(db, g).sources <==>
      (c, l) in db.sources || (c == w && OwnerAmong(db.cases, Elements(g), l))
    {
      BackfilledIff(db, g, w, c, l);
    }
  }
}
