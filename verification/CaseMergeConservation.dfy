/**
 * Nothing lost over whole runs: what the winner of every merged identity holds
 * after a full run, or any history of batches, is what its group held before.
 */
module CaseMergeConservation {
  import opened Options
  import opened Ordering
  import opened ChildTable
  import opened CaseTables
  import opened CaseMergeLinks
  import opened CaseMerge
  import opened CaseMergeSafety
  import opened CaseMergeRun
  import opened CaseMergeBatches
  import opened CaseMergeContents

  /** In the seven tables whose identity holds no reference, `ca` holds in `a` what `cb` holds in `b`. */
  ghost predicate SameKeys(a: Kids, ca: set<int>, b: Kids, cb: set<int>) {
    && KeysIn(a.movements, MovementKey, ca) == KeysIn(b.movements, MovementKey, cb)
    && KeysIn(a.litigantes, NaturalKey, ca) == KeysIn(b.litigantes, NaturalKey, cb)
    && KeysIn(a.notificaciones, NaturalKey, ca) == KeysIn(b.notificaciones, NaturalKey, cb)
    && KeysIn(a.escritos, NaturalKey, ca) == KeysIn(b.escritos, NaturalKey, cb)
    && KeysIn(a.exhortos, NaturalKey, ca) == KeysIn(b.exhortos, NaturalKey, cb)
    && KeysIn(a.snapshots, NaturalKey, ca) == KeysIn(b.snapshots, NaturalKey, cb)
    && KeysIn(a.deadlines, DeadlineKey, ca) == KeysIn(b.deadlines, DeadlineKey, cb)
  }

  // ----- other cases

  lemma MergedKeysElsewhere<D, K>(t: Table<D>, key: D -> Option<K>, loser: int, winner: int, cs: set<int>)
    requires loser !in cs && winner !in cs
    ensures KeysIn(Merged(t, key, loser, winner), key, cs) == KeysIn(t, key, cs)
  {
    var u := Merged(t, key, loser, winner);
    forall id | id in t
      ensures (id in u && u[id].caseId.Some? && u[id].caseId.value in cs) <==>
        (t[id].caseId.Some? && t[id].caseId.value in cs)
      ensures id in u ==> u[id].data == t[id].data
    {
      MergedRow(t, key, loser, winner, id);
    }
    forall k | k in KeysIn(t, key, cs) ensures k in KeysIn(u, key, cs) {
      var id :| id in t && t[id].caseId.Some? && t[id].caseId.value in cs && key(t[id].data) == Some(k);
      KeysInRow(u, key, cs, id);
    }
  }

  lemma PairKeysElsewhere(k: Kids, loser: int, winner: int, cs: set<int>)
    requires loser != winner && loser !in cs && winner !in cs
    ensures SameKeys(MergeKids(k, loser, winner), cs, k, cs)
  {
    MergedKeysElsewhere(k.movements, MovementKey, loser, winner, cs);
    MergedKeysElsewhere(k.litigantes, NaturalKey, loser, winner, cs);
    MergedKeysElsewhere(k.notificaciones, NaturalKey, loser, winner, cs);
    MergedKeysElsewhere(k.escritos, NaturalKey, loser, winner, cs);
    MergedKeysElsewhere(k.exhortos, NaturalKey, loser, winner, cs);
    MergedKeysElsewhere(k.snapshots, NaturalKey, loser, winner, cs);
    MergedKeysElsewhere(Settled(k, loser, winner).deadlines, DeadlineKey, loser, winner, cs);
    RepointKeepsDeadlineKeys(k.deadlines, MovementCanon(k, loser, winner), cs);
  }

  lemma {:induction false} LosersKeysElsewhere(k: Kids, losers: seq<int>, winner: int, cs: set<int>)
    requires winner !in losers && winner !in cs && forall l :: l in losers ==> l !in cs
    ensures SameKeys(MergeAllKids(k, losers, winner), cs, k, cs)
    decreases |losers|
  {
    hide SameKeys, MergeKids;
    if losers == [] {
      SameKeysReflexive(k, cs);
    } else {
      var k1 := MergeKids(k, losers[0], winner);
      PairKeysElsewhere(k, losers[0], winner, cs);
      LosersKeysElsewhere(k1, losers[1..], winner, cs);
      SameKeysTransitive(MergeAllKids(k, losers, winner), cs, k1, cs, k, cs);
    }
  }

  lemma SameKeysReflexive(k: Kids, cs: set<int>)
    ensures SameKeys(k, cs, k, cs)
  {}

  lemma SameKeysTransitive(a: Kids, ca: set<int>, b: Kids, cb: set<int>, c: Kids, cc: set<int>)
    requires SameKeys(a, ca, b, cb) && SameKeys(b, cb, c, cc)
    ensures SameKeys(a, ca, c, cc)
  {}

  lemma GroupMerge(db: Db, g: seq<int>)
    requires ValidGroup(db.cases, g)
    ensures
      var w, ls := Winner(db.kids, g), Losers(db.kids, g);
      && w !in ls && MergeGroup(db, g).kids == MergeAllKids(db.kids, ls, w)
      && w in Elements(g) && Elements(ls) <= Elements(g) && {w} + Elements(ls) == Elements(g)
  {
    var w, ls := Winner(db.kids, g), Losers(db.kids, g);
    assert w !in Elements(ls) && w in Elements(g);
    MergeLosersKids(Prepared(db, g), ls, w);
  }

  lemma GroupKeysElsewhere(db: Db, g: seq<int>, cs: set<int>)
    requires ValidGroup(db.cases, g) && Elements(g) !! cs
    ensures SameKeys(MergeGroup(db, g).kids, cs, db.kids, cs)
  {
    hide SameKeys, MergeGroup, Winner, Losers;
    GroupMerge(db, g);
    var w, ls := Winner(db.kids, g), Losers(db.kids, g);
    forall l | l in ls ensures l !in cs {
      assert l in Elements(ls);
    }
    LosersKeysElsewhere(db.kids, ls, w, cs);
  }

  /** No group has a case of `cs`. */
  ghost predicate AllApart(gs: seq<seq<int>>, cs: set<int>) {
    forall i :: 0 <= i < |gs| ==> Elements(gs[i]) !! cs
  }

  lemma {:induction false} GroupsKeysElsewhere(db: Db, gs: seq<seq<int>>, cs: set<int>)
    requires ValidGroups(db.cases, gs) && AllApart(gs, cs)
    ensures SameKeys(MergeGroups(db, gs).kids, cs, db.kids, cs)
    decreases |gs|
  {
    hide SameKeys, MergeGroup;
    if gs == [] {
      SameKeysReflexive(db.kids, cs);
    } else {
      var next := FirstGroup(db, gs);
      GroupKeysElsewhere(db, gs[0], cs);
      GroupsKeysElsewhere(next, gs[1..], cs);
      SameKeysTransitive(MergeGroups(db, gs).kids, cs, next.kids, cs, db.kids, cs);
    }
  }

  // ----- every merged group

  lemma GroupKeys(db: Db, g: seq<int>)
    requires ValidGroup(db.cases, g) && Ascending(g, IntLess)
    ensures SameKeys(MergeGroup(db, g).kids, {Winner(db.kids, g)}, db.kids, Elements(g))
  {
    var w, ls := Winner(db.kids, g), Losers(db.kids, g);
    AscendingDistinct(ls, IntLess);
    hide MergeGroup, Winner, Losers;
    GroupMerge(db, g);
    GroupKeysKept(db.kids, ls, w);
  }

  /** The groups before and after group `i`. */
  lemma AroundGroup(db: Db, gs: seq<seq<int>>, i: nat) returns (before: Db, after: Db)
    requires ValidGroups(db.cases, gs) && i < |gs|
    ensures ValidGroups(db.cases, gs[..i]) && before == MergeGroups(db, gs[..i])
    ensures ValidGroup(before.cases, gs[i]) && after == MergeGroup(before, gs[i])
    ensures ValidGroups(after.cases, gs[i + 1..]) && MergeGroups(db, gs) == MergeGroups(after, gs[i + 1..])
    ensures AllApart(gs[..i], Elements(gs[i])) && AllApart(gs[i + 1..], Elements(gs[i]))
  {
    hide MergeGroup;
    MergeGroupsSplit(db, gs, i);
    before := MergeGroups(db, gs[..i]);
    assert gs[i..][0] == gs[i] && gs[i..][1..] == gs[i + 1..];
    after := FirstGroup(before, gs[i..]);
  }

  /** After all groups are merged, the winner of each holds exactly what its group held before the first merge. */
  lemma RunKeys(db: Db, gs: seq<seq<int>>, i: nat)
    requires ValidGroups(db.cases, gs) && i < |gs| && Ascending(gs[i], IntLess)
    ensures gs[i] != [] && SameKeys(MergeGroups(db, gs).kids, {Winner(db.kids, gs[i])}, db.kids, Elements(gs[i]))
  {
    hide SameKeys, MergeGroup, MergeGroups, Winner;
    var g := gs[i];
    var w := Winner(db.kids, g);
    var before, after := AroundGroup(db, gs, i);
    MergeGroupsElsewhere(db, gs[..i], g);
    GroupsKeysElsewhere(db, gs[..i], Elements(g));
    GroupKeys(before, g);
    assert w in Elements(g);
    GroupsKeysElsewhere(after, gs[i + 1..], {w});
    SameKeysTransitive(after.kids, {w}, before.kids, Elements(g), db.kids, Elements(g));
    SameKeysTransitive(MergeGroups(db, gs).kids, {w}, after.kids, {w}, db.kids, Elements(g));
  }

  /** The position of a duplicate identity in the full run. */
  lemma GroupOfIdentity(db: Db, id: Identity) returns (i: nat)
    requires id in DuplicateIdentities(db.cases)
    ensures
      var all := SortedIdentities(DuplicateIdentities(db.cases));
      var gs := GroupsOf(db.cases, all);
      && ValidGroups(db.cases, gs) && i < |gs| && all[i] == id
      && gs[i] == GroupIds(db.cases, id) && gs[i] != [] && Winner(db.kids, gs[i]) == WinnerOf(db, id)
  {
    var all := SortedIdentities(DuplicateIdentities(db.cases));
    GroupsAreValid(db.cases, all);
    assert id in Elements(all);
    i :| 0 <= i < |all| && all[i] == id;
    assert ValidGroup(db.cases, GroupsOf(db.cases, all)[i]);
    assert GroupIds(db.cases, id)[0] in Elements(GroupIds(db.cases, id));
  }

  /** What is said of the seven tables of a database and of the one it is compared with. */
  ghost predicate Conserved(db: Db, k: Kids, id: Identity) {
    SameKeys(k, {WinnerOf(db, id)}, db.kids, Group(db.cases, id))
  }

  /** With all groups merged the winner of every duplicate identity holds what its whole group held. */
  lemma AllConserves(db: Db, firm: int, id: Identity)
    requires id in DuplicateIdentities(db.cases)
    ensures Conserved(db, AllMerged(db, firm).kids, id)
  {
    var i := GroupOfIdentity(db, id);
    RunKeys(db, GroupsOf(db.cases, SortedIdentities(DuplicateIdentities(db.cases))), i);
  }

  /**
   * After a full run the winner of every duplicate identity holds, in each of
   * the seven tables, exactly the identities its whole group held before.
   */
  lemma FullConserves(db: Db, firm: int, id: Identity)
    requires WellFormed(db) && NonCivilApart(db.cases) && id in DuplicateIdentities(db.cases)
    ensures Conserved(db, Full(db, firm).kids, id)
  {
    hide Conserved, Full, AllMerged, WellFormed, NonCivilApart, DuplicateIdentities;
    FullIsAll(db, firm);
    AllConserves(db, firm, id);
  }

  /** And so it does after any history of batches that merges everything. */
  lemma HistoryConserves(db: Db, firm: int, steps: seq<Step>, id: Identity)
    requires WellFormed(db) && id in DuplicateIdentities(db.cases)
    requires DuplicateIdentities(History(db, firm, steps).cases) == {}
    ensures Conserved(db, History(db, firm, steps).kids, id)
  {
    hide Conserved, AllMerged, WellFormed, DuplicateIdentities;
    HistoryMergesAll(db, firm, steps);
    AllConserves(db, firm, id);
  }

  /** A case outside every duplicate identity holds what it held. */
  lemma FullLeavesOthers(db: Db, firm: int, c: int)
    requires WellFormed(db) && NonCivilApart(db.cases) && !Duplicated(db.cases, c)
    ensures SameKeys(Full(db, firm).kids, {c}, db.kids, {c})
  {
    hide WellFormed, NonCivilApart, SameKeys;
    FullOutcome(db, firm);
    var all := SortedIdentities(DuplicateIdentities(db.cases));
    var gs := GroupsOf(db.cases, all);
    forall i | 0 <= i < |gs| ensures Elements(gs[i]) !! {c} {
      assert all[i] in Elements(all);
    }
    GroupsKeysElsewhere(db, gs, {c});
  }

  // ----- lawyer sources and unidentified documents

  lemma {:induction false} LosersSourcesElsewhere(db: Db, losers: seq<int>, winner: int, c: int, l: int)
    requires winner !in losers && c != winner && c !in losers
    ensures (c, l) in MergeLosers(db, losers, winner).sources <==> (c, l) in db.sources
    decreases |losers|
  {
    hide MergeKids, RepointAudit, MergeSources;
    if losers != [] {
      MergedSourceIff(db.sources, losers[0], winner, c, l);
      LosersSourcesElsewhere(MergePair(db, losers[0], winner), losers[1..], winner, c, l);
    }
  }

  lemma GroupSourcesElsewhere(db: Db, g: seq<int>, c: int, l: int)
    requires ValidGroup(db.cases, g) && c !in g
    ensures (c, l) in MergeGroup(db, g).sources <==> (c, l) in db.sources
  {
    var w, ls := Winner(db.kids, g), Losers(db.kids, g);
    assert w in Elements(g) && w !in Elements(ls) && c !in Elements(ls);
    BackfilledIff(db, g, w, c, l);
    hide MergeLosers, BackfillSources, Winner, Losers;
    LosersSourcesElsewhere(Prepared(db, g), ls, w, c, l);
  }

  lemma {:induction false} GroupsSourcesElsewhere(db: Db, gs: seq<seq<int>>, c: int, l: int)
    requires ValidGroups(db.cases, gs) && AllApart(gs, {c})
    ensures (c, l) in MergeGroups(db, gs).sources <==> (c, l) in db.sources
    decreases |gs|
  {
    hide MergeGroup;
    if gs != [] {
      assert c !in Elements(gs[0]);
      var next := FirstGroup(db, gs);
      GroupSourcesElsewhere(db, gs[0], c, l);
      GroupsSourcesElsewhere(next, gs[1..], c, l);
    }
  }

  /** After all groups are merged, the sources of each winner are the sources and owners of its group at the start. */
  lemma RunSources(db: Db, gs: seq<seq<int>>, i: nat, l: int)
    requires ValidGroups(db.cases, gs) && i < |gs| && Ascending(gs[i], IntLess)
    ensures gs[i] != [] && ((Winner(db.kids, gs[i]), l) in MergeGroups(db, gs).sources <==>
      SourceAmong(db.sources, Elements(gs[i]), l) || OwnerAmong(db.cases, Elements(gs[i]), l))
  {
    hide MergeGroup, MergeGroups, Winner, SourceAmong, OwnerAmong;
    var g := gs[i];
    var w := Winner(db.kids, g);
    var before, after := AroundGroup(db, gs, i);
    MergeGroupsElsewhere(db, gs[..i], g);
    GroupSourcesKept(before, g, l);
    assert w in Elements(g);
    SourcesBefore(db, gs[..i], Elements(g), l);
    GroupsSourcesElsewhere(after, gs[i + 1..], w, l);
  }

  lemma SourcesBefore(db: Db, gs: seq<seq<int>>, cs: set<int>, l: int)
    requires ValidGroups(db.cases, gs) && AllApart(gs, cs)
    ensures SourceAmong(MergeGroups(db, gs).sources, cs, l) <==> SourceAmong(db.sources, cs, l)
  {
    forall c | c in cs ensures (c, l) in MergeGroups(db, gs).sources <==> (c, l) in db.sources {
      GroupsSourcesElsewhere(db, gs, c, l);
    }
  }

  /** After a full run every lawyer who saw or owned a case of a duplicate identity is a source of its
    * winner, and no other. */
  lemma FullConservesSources(db: Db, firm: int, id: Identity, l: int)
    requires WellFormed(db) && NonCivilApart(db.cases) && id in DuplicateIdentities(db.cases)
    ensures (WinnerOf(db, id), l) in Full(db, firm).sources <==>
      SourceAmong(db.sources, Group(db.cases, id), l) || OwnerAmong(db.cases, Group(db.cases, id), l)
  {
    FullOutcome(db, firm);
    var i := GroupOfIdentity(db, id);
    RunSources(db, GroupsOf(db.cases, SortedIdentities(DuplicateIdentities(db.cases))), i, l);
  }

  predicate Unidentified(k: Kids, id: int) { id in k.documents && DocumentKey(k.documents[id].data) == None }

  lemma GroupKeepsUnidentified(db: Db, g: seq<int>, id: int)
    requires ValidGroup(db.cases, g) && Unidentified(db.kids, id)
    ensures Unidentified(MergeGroup(db, g).kids, id)
  {
    hide MergeGroup, Winner, Losers;
    GroupMerge(db, g);
    var w, ls := Winner(db.kids, g), Losers(db.kids, g);
    UnidentifiedDocumentsStay(db.kids, ls, w, id);
    LinksRespectKeys(GroupRedirects(db.kids, ls, w));
  }

  lemma {:induction false} GroupsKeepUnidentified(db: Db, gs: seq<seq<int>>, id: int)
    requires ValidGroups(db.cases, gs) && Unidentified(db.kids, id)
    ensures Unidentified(MergeGroups(db, gs).kids, id)
    decreases |gs|
  {
    hide MergeGroup, Unidentified;
    if gs != [] {
      var next := FirstGroup(db, gs);
      GroupKeepsUnidentified(db, gs[0], id);
      GroupsKeepUnidentified(next, gs[1..], id);
    }
  }

  /** No run ever deletes a document with a token hash, or with neither link. */
  lemma RunKeepsUnidentified(db: Db, firm: int, limit: Option<int>, only: Option<set<Identity>>, id: int)
    requires WellFormed(db) && Unidentified(db.kids, id) && Run(db, firm, limit, only).Ok?
    ensures Unidentified(Run(db, firm, limit, only).value.0.kids, id)
  {
    hide Unidentified, MergeGroups;
    RunOutcome(db, firm, limit, only);
    GroupsKeepUnidentified(db, GroupsOf(db.cases, BatchIdentities(db.cases, limit, only)), id);
  }
}
