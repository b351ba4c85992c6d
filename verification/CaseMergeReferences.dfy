/**
 * Nothing lost among the rows whose identity holds references: documents and
 * alerts over whole runs, their references followed through all groups.
 */
module CaseMergeReferences {
  import opened Options
  import opened Ordering
  import opened ChildTable
  import opened CaseTables
  import opened CaseMergeLinks
  import opened CaseMerge
  import opened CaseMergeSafety
  import opened CaseMergeRun
  import opened CaseMergeBatches
  import opened CaseMergeContents
  import opened CaseMergeConservation
  import opened CaseMergeParts
  import opened CaseMergeOrder

  /** `ca` holds in `a` the document and alert identities that `cb` holds in `b`. */
  ghost predicate SameLinkedKeys(a: Kids, ca: set<int>, b: Kids, cb: set<int>) {
    && KeysIn(a.documents, DocumentKey, ca) == KeysIn(b.documents, DocumentKey, cb)
    && KeysIn(a.alerts, AlertKey, ca) == KeysIn(b.alerts, AlertKey, cb)
  }

  lemma KeysInPart<D, K>(t: Table<D>, key: D -> Option<K>, cs: set<int>, p: Part)
    requires p.inside && cs <= p.cs
    ensures KeysIn(RowsIn(t, p), key, cs) == KeysIn(t, key, cs)
  {
    forall k | k in KeysIn(t, key, cs) ensures k in KeysIn(RowsIn(t, p), key, cs) {
      var id :| id in t && t[id].caseId.Some? && t[id].caseId.value in cs && key(t[id].data) == Some(k);
      KeysInRow(RowsIn(t, p), key, cs, id);
    }
    forall k | k in KeysIn(RowsIn(t, p), key, cs) ensures k in KeysIn(t, key, cs) {
      var id :| id in RowsIn(t, p) && t[id].caseId.Some? && t[id].caseId.value in cs && key(t[id].data) == Some(k);
      KeysInRow(t, key, cs, id);
    }
  }

  /** A part holds the identities of its cases. */
  lemma LinkedKeysInPart(k: Kids, cs: set<int>, p: Part)
    requires p.inside && cs <= p.cs
    ensures SameLinkedKeys(KidsIn(k, p), cs, k, cs)
  {
    hide RowsIn, KeysIn;
    KeysInPart(k.documents, DocumentKey, cs, p);
    KeysInPart(k.alerts, AlertKey, cs, p);
  }

  /** The redirections of group `g`, read from its own rows with other references followed. */
  lemma OwnRedirects(k: Kids, g: seq<int>, r: Redirects)
    requires g != []
    ensures
      var w, ls := Winner(k, g), Losers(k, g);
      && w !in ls
      && GroupRedirects(Redirected(KidsIn(k, Part(Elements(g), true)), r), ls, w) == RedirectsOf(k, g)
  {
    var w, ls, p := Winner(k, g), Losers(k, g), Part(Elements(g), true);
    assert w in Elements(g) && w !in Elements(ls);
    assert forall l :: l in ls ==> l in Elements(ls);
    hide Winner, RowsIn, Repointed;
    GroupCanonInside(k.movements, MovementKey, ls, w, p);
    GroupCanonInside(k.escritos, NaturalKey, ls, w, p);
  }

  lemma AroundRedirects(k: Kids, cases: map<int, Case>, gs: seq<seq<int>>, i: nat)
    requires ValidGroups(cases, gs) && i < |gs|
    ensures NonEmpty(gs) && NonEmpty(gs[..i]) && NonEmpty(gs[i + 1..])
    ensures
      var a, own, b := RunRedirects(k, gs[..i]), RedirectsOf(k, gs[i]), RunRedirects(k, gs[i + 1..]);
      && Chained(own, b) && Chained(a, Joined(own, b)) && RunRedirects(k, gs) == Joined(a, Joined(own, b))
  {
    hide RunRedirects, RedirectsOf, Chained, Joined, Elements;
    ValidNonEmpty(cases, gs);
    var before, tail := gs[..i], gs[i..];
    assert gs == before + tail && tail[0] == gs[i] && tail[1..] == gs[i + 1..];
    forall j | 0 <= j < |tail[1..]| ensures Elements(tail[1..][j]) !! Elements(tail[0]) {
      assert Elements(gs[i]) !! Elements(gs[i + 1 + j]);
    }
    RunRedirectsCons(k, tail);
    RunRedirectsSplit(k, before, tail);
    forall j | 0 <= j < |tail| ensures AllApart(before, Elements(tail[j])) {
      forall h | 0 <= h < |before| ensures Elements(before[h]) !! Elements(tail[j]) {
        assert Elements(gs[h]) !! Elements(gs[i + j]);
      }
    }
    RunsChained(cases, k, before, tail);
    TailRedirects(k, tail);
  }

  lemma TailRedirects(k: Kids, tail: seq<seq<int>>)
    requires NonEmpty(tail) && tail != [] && NonEmpty(tail[1..])
    ensures RunRedirects(k, tail) == Joined(RedirectsOf(k, tail[0]), RunRedirects(k, tail[1..]))
  {}

  /** After all groups are merged, the winner of each holds its group's identities, all references followed. */
  lemma RunLinkedKeys(db: Db, gs: seq<seq<int>>, i: nat)
    requires ValidGroups(db.cases, gs) && i < |gs| && Ascending(gs[i], IntLess)
    ensures NonEmpty(gs)
    ensures SameLinkedKeys(MergeGroups(db, gs).kids, {Winner(db.kids, gs[i])},
                           Redirected(db.kids, RunRedirects(db.kids, gs)), Elements(gs[i]))
  {
    hide MergeGroups, KidsIn, Winner, Redirected, RunRedirects, RedirectsOf, Joined, Chained, ValidGroups;
    var g, k, m := gs[i], db.kids, MergeGroups(db, gs).kids;
    AroundRedirects(k, db.cases, gs, i);
    GroupsInside(db, gs, i);
    var p, w, ls := Part(Elements(g), true), Winner(k, g), Losers(k, g);
    var a, own, b := RunRedirects(k, gs[..i]), RedirectsOf(k, g), RunRedirects(k, gs[i + 1..]);
    assert w in Elements(g);
    OwnRedirects(k, g, a);
    AscendingDistinct(ls, IntLess);
    var rows := Redirected(KidsIn(k, p), a);
    GroupLinkedKeysKept(rows, ls, w, b);
    assert {w} + Elements(ls) == Elements(g);
    RedirectedTwice(KidsIn(k, p), a, Joined(own, b));
    RedirectedInside(k, RunRedirects(k, gs), p);
    LinkedKeysInPart(m, {w}, p);
    LinkedKeysInPart(Redirected(k, RunRedirects(k, gs)), Elements(g), p);
  }

  /**
   * The winner of a duplicate identity holds in `k` exactly the document and
   * alert identities its group held in `db`, with the references followed
   * through all groups.
   */
  ghost predicate LinkedConserved(db: Db, k: Kids, id: Identity) {
    && NonEmpty(AllGroups(db))
    && SameLinkedKeys(k, {WinnerOf(db, id)},
                      Redirected(db.kids, RunRedirects(db.kids, AllGroups(db))), Group(db.cases, id))
  }

  /** Merging all groups loses no document or alert identity of a group, and invents none. */
  lemma AllConservesLinked(db: Db, firm: int, id: Identity)
    requires id in DuplicateIdentities(db.cases)
    ensures LinkedConserved(db, AllMerged(db, firm).kids, id)
  {
    hide MergeGroups, RunRedirects, SameLinkedKeys, Winner;
    var i := GroupOfIdentity(db, id);
    RunLinkedKeys(db, AllGroups(db), i);
  }

  /** Nor does a full run. */
  lemma FullConservesLinked(db: Db, firm: int, id: Identity)
    requires WellFormed(db) && NonCivilApart(db.cases) && id in DuplicateIdentities(db.cases)
    ensures LinkedConserved(db, Full(db, firm).kids, id)
  {
    hide LinkedConserved, Full, AllMerged, WellFormed, NonCivilApart, DuplicateIdentities;
    FullIsAll(db, firm);
    AllConservesLinked(db, firm, id);
  }

  /** Nor does any history of batches that merges everything. */
  lemma HistoryConservesLinked(db: Db, firm: int, steps: seq<Step>, id: Identity)
    requires WellFormed(db) && id in DuplicateIdentities(db.cases)
    requires DuplicateIdentities(History(db, firm, steps).cases) == {}
    ensures LinkedConserved(db, History(db, firm, steps).kids, id)
  {
    hide LinkedConserved, AllMerged, WellFormed, DuplicateIdentities;
    HistoryMergesAll(db, firm, steps);
    AllConservesLinked(db, firm, id);
  }

  /** Of the rows of cases that were not duplicated a full run changes only the references to collapsed rows. */
  lemma FullOutside(db: Db, firm: int)
    requires WellFormed(db) && NonCivilApart(db.cases)
    ensures NonEmpty(AllGroups(db))
    ensures
      var p := Part(Members(AllGroups(db)), false);
      KidsIn(Full(db, firm).kids, p) == Redirected(KidsIn(db.kids, p), RunRedirects(db.kids, AllGroups(db)))
  {
    hide WellFormed, NonCivilApart, MergeGroups, RunRedirects, KidsIn, Redirected;
    FullOutcome(db, firm);
    MembersAreBeyond(AllGroups(db));
    GroupsOutside(db, AllGroups(db), Part(Members(AllGroups(db)), false));
  }
}
