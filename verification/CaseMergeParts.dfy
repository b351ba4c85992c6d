/**
 * Locality of a merge: the rows of the merged cases are merged as if they were
 * alone, and every other row keeps all but the references that name them.
 */
module CaseMergeParts {
  import opened Options
  import opened Ordering
  import opened ChildTable
  import opened CaseTables
  import opened CaseMergeLinks
  import opened CaseMerge
  import opened CaseMergeSafety
  import opened CaseMergeBatches
  import opened CaseMergeConservation

  /** The rows of the cases of `cs`, or all the other rows. */
  datatype Part = Part(cs: set<int>, inside: bool)

  predicate InPart(p: Part, owner: Option<int>) {
    (owner.Some? && owner.value in p.cs) == p.inside
  }

  function RowsIn<D>(t: Table<D>, p: Part): Table<D> {
    map id | id in t && InPart(p, t[id].caseId) :: t[id]
  }

  function KidsIn(k: Kids, p: Part): Kids {
    Kids(RowsIn(k.movements, p), RowsIn(k.documents, p), RowsIn(k.litigantes, p), RowsIn(k.notificaciones, p),
         RowsIn(k.escritos, p), RowsIn(k.exhortos, p), RowsIn(k.deadlines, p), RowsIn(k.alerts, p),
         RowsIn(k.snapshots, p), RowsIn(k.hitos, p), RowsIn(k.liberaciones, p), RowsIn(k.generados, p))
  }

  // ----- one table, when the merged cases are in the part

  lemma DroppedInside<D, K>(t: Table<D>, key: D -> Option<K>, loser: int, winner: int, p: Part, id: int)
    requires InPart(p, Some(loser)) && InPart(p, Some(winner))
    ensures Dropped(RowsIn(t, p), key, loser, winner, id) <==> Dropped(t, key, loser, winner, id)
  {
    var u := RowsIn(t, p);
    if Dropped(t, key, loser, winner, id) {
      var j :| Precedes(t, key, loser, winner, j, id);
      assert Precedes(u, key, loser, winner, j, id);
    }
    if Dropped(u, key, loser, winner, id) {
      var j :| Precedes(u, key, loser, winner, j, id);
      assert Precedes(t, key, loser, winner, j, id);
    }
  }

  lemma MergedInside<D, K>(t: Table<D>, key: D -> Option<K>, loser: int, winner: int, p: Part)
    requires InPart(p, Some(loser)) && InPart(p, Some(winner))
    ensures RowsIn(Merged(t, key, loser, winner), p) == Merged(RowsIn(t, p), key, loser, winner)
  {
    var a, b := RowsIn(Merged(t, key, loser, winner), p), Merged(RowsIn(t, p), key, loser, winner);
    forall id
      ensures id in a <==> id in b
      ensures id in a ==> a[id] == b[id]
    {
      DroppedInside(t, key, loser, winner, p, id);
      if id in t {
        MergedRow(t, key, loser, winner, id);
      }
      if id in RowsIn(t, p) {
        MergedRow(RowsIn(t, p), key, loser, winner, id);
      }
    }
  }

  lemma CanonInside<D, K>(t: Table<D>, key: D -> Option<K>, loser: int, winner: int, p: Part)
    requires loser != winner && InPart(p, Some(loser)) && InPart(p, Some(winner))
    ensures Canon(RowsIn(t, p), key, loser, winner) == Canon(t, key, loser, winner)
  {
    var u, canon := RowsIn(t, p), Canon(t, key, loser, winner);
    forall id ensures id in DroppedIds(u, key, loser, winner) <==> id in DroppedIds(t, key, loser, winner) {
      DroppedInside(t, key, loser, winner, p, id);
    }
    forall id | id in canon ensures IsCanonical(u, key, loser, winner, id, canon[id]) {
      assert IsCanonical(t, key, loser, winner, id, canon[id]);
      CanonicalInside(t, key, loser, winner, p, id, canon[id]);
    }
    CanonUnique(u, key, loser, winner, Canon(u, key, loser, winner), canon);
  }

  lemma CanonicalInside<D, K>(t: Table<D>, key: D -> Option<K>, loser: int, winner: int, p: Part, id: int, c: int)
    requires InPart(p, Some(loser)) && InPart(p, Some(winner))
    requires id in t && Owned(t, loser, id) && IsCanonical(t, key, loser, winner, id, c)
    ensures id in RowsIn(t, p) && IsCanonical(RowsIn(t, p), key, loser, winner, id, c)
  {
    var u := RowsIn(t, p);
    forall j ensures Precedes(u, key, loser, winner, j, id) <==> Precedes(t, key, loser, winner, j, id) {}
  }

  lemma RepointedInside<D, C>(t: Table<D>, canon: C, follow: (C, D) -> D, p: Part)
    ensures RowsIn(Repointed(t, canon, follow), p) == Repointed(RowsIn(t, p), canon, follow)
  {}

  // ----- one table, when they are not

  lemma MergedOutside<D, K>(t: Table<D>, key: D -> Option<K>, loser: int, winner: int, p: Part)
    requires !InPart(p, Some(loser)) && !InPart(p, Some(winner))
    ensures RowsIn(Merged(t, key, loser, winner), p) == RowsIn(t, p)
  {
    var a, b := RowsIn(Merged(t, key, loser, winner), p), RowsIn(t, p);
    forall id
      ensures id in a <==> id in b
      ensures id in a ==> a[id] == b[id]
    {
      if id in t {
        MergedRow(t, key, loser, winner, id);
      }
    }
  }

  // ----- all tables of a part that holds both cases

  lemma RedirectedInside(k: Kids, r: Redirects, p: Part)
    ensures KidsIn(Redirected(k, r), p) == Redirected(KidsIn(k, p), r)
  {
    RepointedInside(k.documents, r, DocumentLinks, p);
    RepointedInside(k.deadlines, r.movements, DeadlineMovements, p);
    RepointedInside(k.alerts, r.movements, AlertMovement, p);
    RepointedInside(k.hitos, r.movements, HitoMovement, p);
  }

  lemma SettledInside(k: Kids, loser: int, winner: int, p: Part)
    requires loser != winner && InPart(p, Some(loser)) && InPart(p, Some(winner))
    ensures KidsIn(Settled(k, loser, winner), p) == Settled(KidsIn(k, p), loser, winner)
  {
    CanonInside(k.movements, MovementKey, loser, winner, p);
    CanonInside(k.escritos, NaturalKey, loser, winner, p);
    MergedInside(k.movements, MovementKey, loser, winner, p);
    MergedInside(k.escritos, NaturalKey, loser, winner, p);
    SettledIs(k, loser, winner);
    SettledIs(KidsIn(k, p), loser, winner);
    RedirectedInside(k, PairRedirects(k, loser, winner), p);
    hide Settled, Canon, Merged, InPart, RowsIn, Repointed;
  }

  /** The rows of the merged cases are merged as if they were alone. */
  lemma MergeKidsInside(k: Kids, loser: int, winner: int, p: Part)
    requires loser != winner && InPart(p, Some(loser)) && InPart(p, Some(winner))
    ensures KidsIn(MergeKids(k, loser, winner), p) == MergeKids(KidsIn(k, p), loser, winner)
  {
    var s := Settled(k, loser, winner);
    SettledInside(k, loser, winner, p);
    MergedInside(s.documents, DocumentKey, loser, winner, p);
    MergedInside(k.litigantes, NaturalKey, loser, winner, p);
    MergedInside(k.notificaciones, NaturalKey, loser, winner, p);
    MergedInside(k.exhortos, NaturalKey, loser, winner, p);
    MergedInside(s.deadlines, DeadlineKey, loser, winner, p);
    MergedInside(s.alerts, AlertKey, loser, winner, p);
    MergedInside(k.snapshots, NaturalKey, loser, winner, p);
    MergedInside(s.hitos, NoKey, loser, winner, p);
    MergedInside(k.liberaciones, NoKey, loser, winner, p);
    MergedInside(k.generados, NoKey, loser, winner, p);
    hide Settled, Merged, RowsIn, InPart;
  }

  lemma {:induction false} LosersInside(k: Kids, losers: seq<int>, winner: int, p: Part)
    requires winner !in losers && InPart(p, Some(winner)) && forall l :: l in losers ==> InPart(p, Some(l))
    ensures KidsIn(MergeAllKids(k, losers, winner), p) == MergeAllKids(KidsIn(k, p), losers, winner)
    decreases |losers|
  {
    hide KidsIn, MergeKids, InPart;
    if losers != [] {
      MergeKidsInside(k, losers[0], winner, p);
      LosersInside(MergeKids(k, losers[0], winner), losers[1..], winner, p);
    }
  }

  // ----- all tables of a part that holds neither

  lemma SettledOutside(k: Kids, loser: int, winner: int, p: Part)
    requires loser != winner && !InPart(p, Some(loser)) && !InPart(p, Some(winner))
    ensures KidsIn(Settled(k, loser, winner), p) == Redirected(KidsIn(k, p), PairRedirects(k, loser, winner))
  {
    MergedOutside(k.movements, MovementKey, loser, winner, p);
    MergedOutside(k.escritos, NaturalKey, loser, winner, p);
    SettledIs(k, loser, winner);
    RedirectedInside(k, PairRedirects(k, loser, winner), p);
    hide Settled, Canon, Merged, InPart, RowsIn, Repointed;
  }

  /** Of every row of the other cases only the references change: those to a collapsed row follow it. */
  lemma MergeKidsOutside(k: Kids, loser: int, winner: int, p: Part)
    requires loser != winner && !InPart(p, Some(loser)) && !InPart(p, Some(winner))
    ensures KidsIn(MergeKids(k, loser, winner), p) == Redirected(KidsIn(k, p), PairRedirects(k, loser, winner))
  {
    var s := Settled(k, loser, winner);
    SettledOutside(k, loser, winner, p);
    MergedOutside(s.documents, DocumentKey, loser, winner, p);
    MergedOutside(k.litigantes, NaturalKey, loser, winner, p);
    MergedOutside(k.notificaciones, NaturalKey, loser, winner, p);
    MergedOutside(k.exhortos, NaturalKey, loser, winner, p);
    MergedOutside(s.deadlines, DeadlineKey, loser, winner, p);
    MergedOutside(s.alerts, AlertKey, loser, winner, p);
    MergedOutside(k.snapshots, NaturalKey, loser, winner, p);
    MergedOutside(s.hitos, NoKey, loser, winner, p);
    MergedOutside(k.liberaciones, NoKey, loser, winner, p);
    MergedOutside(k.generados, NoKey, loser, winner, p);
    hide Settled, Merged, RowsIn, InPart, PairRedirects, Repointed;
  }

  lemma {:induction false} LosersOutside(k: Kids, losers: seq<int>, winner: int, p: Part)
    requires winner !in losers && !InPart(p, Some(winner)) && forall l :: l in losers ==> !InPart(p, Some(l))
    ensures KidsIn(MergeAllKids(k, losers, winner), p) == Redirected(KidsIn(k, p), GroupRedirects(k, losers, winner))
    decreases |losers|
  {
    hide MergeKids, KidsIn, Redirected, PairRedirects, Chained, Joined, InPart;
    if losers == [] {
      RedirectedNever(KidsIn(k, p));
    } else {
      var k1 := MergeKids(k, losers[0], winner);
      MergeKidsOutside(k, losers[0], winner, p);
      LosersOutside(k1, losers[1..], winner, p);
      GroupRedirectsCons(k, losers, winner);
      RedirectedTwice(KidsIn(k, p), PairRedirects(k, losers[0], winner), GroupRedirects(k1, losers[1..], winner));
    }
  }

  // ----- the redirections of a group come from its own rows

  lemma {:induction false} GroupCanonInside<D, K>(t: Table<D>, key: D -> Option<K>, losers: seq<int>, winner: int,
                                                  p: Part)
    requires winner !in losers && InPart(p, Some(winner)) && forall l :: l in losers ==> InPart(p, Some(l))
    ensures GroupCanon(RowsIn(t, p), key, losers, winner) == GroupCanon(t, key, losers, winner)
    decreases |losers|
  {
    hide RowsIn, Merged, Canon, InPart;
    if losers != [] {
      CanonInside(t, key, losers[0], winner, p);
      MergedInside(t, key, losers[0], winner, p);
      GroupCanonInside(Merged(t, key, losers[0], winner), key, losers[1..], winner, p);
    }
  }

  /** Row `id` belongs to a case of `cs`. */
  predicate OfCases<D>(t: Table<D>, id: int, cs: set<int>) {
    id in t && t[id].caseId.Some? && t[id].caseId.value in cs
  }

  /** All rows redirected, and those they are redirected to, belong to cases of `cs`. */
  predicate Among<D>(m: map<int, int>, t: Table<D>, cs: set<int>) {
    forall id :: id in m ==> OfCases(t, id, cs) && OfCases(t, m[id], cs)
  }

  predicate RedirectsAmong(r: Redirects, k: Kids, cs: set<int>) {
    Among(r.movements, k.movements, cs) && Among(r.escritos, k.escritos, cs)
  }

  lemma AmongApart(a: Redirects, ca: set<int>, b: Redirects, cb: set<int>, k: Kids)
    requires RedirectsAmong(a, k, ca) && RedirectsAmong(b, k, cb) && ca !! cb
    ensures Chained(a, b) && Joined(a, b) == Joined(b, a)
  {
    MapsApart(a.movements, ca, b.movements, cb, k.movements);
    MapsApart(a.escritos, ca, b.escritos, cb, k.escritos);
  }

  lemma MapsApart<D>(a: map<int, int>, ca: set<int>, b: map<int, int>, cb: set<int>, t: Table<D>)
    requires Among(a, t, ca) && Among(b, t, cb) && ca !! cb
    ensures Chain(a, b) && a + b == b + a
  {
    forall id | id in a ensures id !in b && a[id] !in b {
      assert OfCases(t, id, ca) && OfCases(t, a[id], ca);
    }
    SwapMaps(a, b);
  }

  lemma GroupCanonAmong<D, K>(t: Table<D>, key: D -> Option<K>, losers: seq<int>, winner: int, cs: set<int>)
    requires winner !in losers && winner in cs && Elements(losers) <= cs
    ensures Among(GroupCanon(t, key, losers, winner), t, cs)
  {
    forall id | id in GroupCanon(t, key, losers, winner)
      ensures OfCases(t, id, cs) && OfCases(t, GroupCanon(t, key, losers, winner)[id], cs)
    {
      GroupCanonOwners(t, key, losers, winner, id);
      assert forall l :: l in losers ==> l in Elements(losers);
    }
  }

  // ----- groups

  /** The redirections of group `g`. */
  ghost function RedirectsOf(k: Kids, g: seq<int>): Redirects
    requires g != []
  {
    assert Winner(k, g) !in Elements(Losers(k, g));
    GroupRedirects(k, Losers(k, g), Winner(k, g))
  }

  lemma RedirectsOfAmong(k: Kids, g: seq<int>)
    requires g != []
    ensures RedirectsAmong(RedirectsOf(k, g), k, Elements(g))
  {
    var w, ls := Winner(k, g), Losers(k, g);
    assert w in Elements(g) && w !in Elements(ls);
    hide Winner, Losers;
    GroupCanonAmong(k.movements, MovementKey, ls, w, Elements(g));
    GroupCanonAmong(k.escritos, NaturalKey, ls, w, Elements(g));
  }

  lemma RedirectsOfSame(a: Kids, b: Kids, g: seq<int>)
    requires g != [] && Winner(a, g) == Winner(b, g)
    requires
      var p := Part(Elements(g), true);
      RowsIn(a.movements, p) == RowsIn(b.movements, p) && RowsIn(a.escritos, p) == RowsIn(b.escritos, p)
    ensures RedirectsOf(a, g) == RedirectsOf(b, g)
  {
    var w, ls, p := Winner(a, g), Losers(a, g), Part(Elements(g), true);
    assert w in Elements(g) && w !in Elements(ls);
    assert forall l :: l in ls ==> l in Elements(ls);
    hide Winner, RowsIn;
    GroupCanonInside(a.movements, MovementKey, ls, w, p);
    GroupCanonInside(b.movements, MovementKey, ls, w, p);
    GroupCanonInside(a.escritos, NaturalKey, ls, w, p);
    GroupCanonInside(b.escritos, NaturalKey, ls, w, p);
  }

  lemma GroupInside(db: Db, g: seq<int>, p: Part)
    requires ValidGroup(db.cases, g) && p == Part(Elements(g), true)
    ensures
      var w, ls := Winner(db.kids, g), Losers(db.kids, g);
      w !in ls && KidsIn(MergeGroup(db, g).kids, p) == MergeAllKids(KidsIn(db.kids, p), ls, w)
  {
    GroupMerge(db, g);
    var w, ls := Winner(db.kids, g), Losers(db.kids, g);
    hide MergeGroup, Winner, Losers, KidsIn;
    forall l | l in ls ensures InPart(p, Some(l)) {
      assert l in Elements(ls);
    }
    LosersInside(db.kids, ls, w, p);
  }

  /** The part holds no row of the cases of `cs`. */
  predicate Beyond(p: Part, cs: set<int>) {
    if p.inside then p.cs !! cs else cs <= p.cs
  }

  lemma GroupOutside(db: Db, g: seq<int>, p: Part)
    requires ValidGroup(db.cases, g) && Beyond(p, Elements(g))
    ensures KidsIn(MergeGroup(db, g).kids, p) == Redirected(KidsIn(db.kids, p), RedirectsOf(db.kids, g))
  {
    GroupMerge(db, g);
    var w, ls := Winner(db.kids, g), Losers(db.kids, g);
    hide MergeGroup, Winner, Losers, KidsIn;
    forall l | l in ls ensures !InPart(p, Some(l)) {
      assert l in Elements(ls);
    }
    LosersOutside(db.kids, ls, w, p);
  }

  predicate NonEmpty(gs: seq<seq<int>>) { forall i :: 0 <= i < |gs| ==> gs[i] != [] }

  /** The redirections of all groups. */
  ghost function RunRedirects(k: Kids, gs: seq<seq<int>>): Redirects
    requires NonEmpty(gs)
    decreases |gs|
  {
    if gs == [] then NO_REDIRECTS else Joined(RedirectsOf(k, gs[0]), RunRedirects(k, gs[1..]))
  }

  lemma {:induction false} RunRedirectsAmong(k: Kids, gs: seq<seq<int>>)
    requires NonEmpty(gs)
    ensures RedirectsAmong(RunRedirects(k, gs), k, Members(gs))
    decreases |gs|
  {
    hide RedirectsOf, RedirectsAmong, Joined, Members;
    if gs == [] {
      NoneAmong(k, Members(gs));
    } else {
      RedirectsOfAmong(k, gs[0]);
      RunRedirectsAmong(k, gs[1..]);
      MembersCons(gs);
      AmongWider(RedirectsOf(k, gs[0]), k, Elements(gs[0]), Members(gs));
      AmongWider(RunRedirects(k, gs[1..]), k, Members(gs[1..]), Members(gs));
      JoinedAmong(RedirectsOf(k, gs[0]), RunRedirects(k, gs[1..]), k, Members(gs));
    }
  }

  lemma NoneAmong(k: Kids, cs: set<int>)
    ensures RedirectsAmong(NO_REDIRECTS, k, cs)
  {}

  lemma JoinedAmong(a: Redirects, b: Redirects, k: Kids, cs: set<int>)
    requires RedirectsAmong(a, k, cs) && RedirectsAmong(b, k, cs)
    ensures RedirectsAmong(Joined(a, b), k, cs)
  {}

  lemma AmongWider(r: Redirects, k: Kids, cs: set<int>, ds: set<int>)
    requires RedirectsAmong(r, k, cs) && cs <= ds
    ensures RedirectsAmong(r, k, ds)
  {}

  /** No group has a case of `cs`, so none of its members is one. */
  lemma MembersApart(gs: seq<seq<int>>, cs: set<int>)
    requires AllApart(gs, cs)
    ensures Members(gs) !! cs
  {
    forall c | c in Members(gs) ensures c !in cs {
      var i :| 0 <= i < |gs| && c in gs[i];
      assert c in Elements(gs[i]);
    }
  }

  lemma ValidTail(cases: map<int, Case>, gs: seq<seq<int>>)
    requires ValidGroups(cases, gs)
    ensures NonEmpty(gs)
    ensures gs != [] ==> NonEmpty(gs[1..]) && AllApart(gs[1..], Elements(gs[0]))
  {
    if gs != [] {
      forall i | 0 <= i < |gs[1..]| ensures Elements(gs[1..][i]) !! Elements(gs[0]) {
        assert Elements(gs[0]) !! Elements(gs[i + 1]);
      }
    }
  }

  /** Merging one group changes none of the redirections of groups apart from it. */
  lemma RedirectsKept(db: Db, g: seq<int>, other: seq<int>)
    requires ValidGroup(db.cases, g) && other != [] && Elements(g) !! Elements(other)
    ensures RedirectsOf(MergeGroup(db, g).kids, other) == RedirectsOf(db.kids, other)
  {
    hide MergeGroup, Winner, RowsIn, RedirectsOf;
    MergeGroupElsewhere(db, g, other);
    var p := Part(Elements(other), true);
    GroupOutside(db, g, p);
    var m := MergeGroup(db, g).kids;
    assert KidsIn(m, p).movements == KidsIn(db.kids, p).movements;
    assert KidsIn(m, p).escritos == KidsIn(db.kids, p).escritos;
    RedirectsOfSame(m, db.kids, other);
  }

  lemma {:induction false} RunRedirectsKept(db: Db, g: seq<int>, gs: seq<seq<int>>)
    requires ValidGroup(db.cases, g) && NonEmpty(gs) && AllApart(gs, Elements(g))
    ensures RunRedirects(MergeGroup(db, g).kids, gs) == RunRedirects(db.kids, gs)
    decreases |gs|
  {
    hide MergeGroup, RedirectsOf;
    if gs != [] {
      RedirectsKept(db, g, gs[0]);
      forall i | 0 <= i < |gs[1..]| ensures Elements(gs[1..][i]) !! Elements(g) {
        assert Elements(gs[i + 1]) !! Elements(g);
      }
      RunRedirectsKept(db, g, gs[1..]);
    }
  }

  /** A group's redirections, then those of the groups apart from it. */
  lemma RunRedirectsCons(k: Kids, gs: seq<seq<int>>)
    requires NonEmpty(gs) && gs != [] && AllApart(gs[1..], Elements(gs[0]))
    ensures NonEmpty(gs[1..])
    ensures Chained(RedirectsOf(k, gs[0]), RunRedirects(k, gs[1..]))
    ensures Joined(RedirectsOf(k, gs[0]), RunRedirects(k, gs[1..]))
         == Joined(RunRedirects(k, gs[1..]), RedirectsOf(k, gs[0]))
  {
    hide RedirectsOf, RunRedirects;
    RedirectsOfAmong(k, gs[0]);
    RunRedirectsAmong(k, gs[1..]);
    MembersApart(gs[1..], Elements(gs[0]));
    AmongApart(RedirectsOf(k, gs[0]), Elements(gs[0]), RunRedirects(k, gs[1..]), Members(gs[1..]), k);
  }

  /** Of the rows beyond all groups only the references change. */
  lemma {:induction false} GroupsOutside(db: Db, gs: seq<seq<int>>, p: Part)
    requires ValidGroups(db.cases, gs)
    requires forall i :: 0 <= i < |gs| ==> Beyond(p, Elements(gs[i]))
    ensures NonEmpty(gs)
    ensures KidsIn(MergeGroups(db, gs).kids, p) == Redirected(KidsIn(db.kids, p), RunRedirects(db.kids, gs))
    decreases |gs|
  {
    hide MergeGroup, KidsIn, Beyond, Redirected, RedirectsOf;
    ValidTail(db.cases, gs);
    if gs == [] {
      RedirectedNever(KidsIn(db.kids, p));
    } else {
      var next := FirstGroup(db, gs);
      GroupOutside(db, gs[0], p);
      GroupsOutside(next, gs[1..], p);
      RunRedirectsKept(db, gs[0], gs[1..]);
      RunRedirectsCons(db.kids, gs);
      RedirectedTwice(KidsIn(db.kids, p), RedirectsOf(db.kids, gs[0]), RunRedirects(db.kids, gs[1..]));
    }
  }

  lemma ApartIsBeyond(gs: seq<seq<int>>, cs: set<int>)
    requires AllApart(gs, cs)
    ensures forall i :: 0 <= i < |gs| ==> Beyond(Part(cs, true), Elements(gs[i]))
  {}

  /** Merging groups changes none of the redirections of groups apart from them. */
  lemma {:induction false} LaterRedirectsKept(db: Db, gs: seq<seq<int>>, later: seq<seq<int>>)
    requires ValidGroups(db.cases, gs) && NonEmpty(later)
    requires forall i :: 0 <= i < |gs| ==> AllApart(later, Elements(gs[i]))
    ensures RunRedirects(MergeGroups(db, gs).kids, later) == RunRedirects(db.kids, later)
    decreases |gs|
  {
    hide MergeGroup, AllApart, RunRedirects;
    if gs != [] {
      var next := FirstGroup(db, gs);
      RunRedirectsKept(db, gs[0], later);
      forall i | 0 <= i < |gs[1..]| ensures AllApart(later, Elements(gs[1..][i])) {
        assert AllApart(later, Elements(gs[i + 1]));
      }
      LaterRedirectsKept(next, gs[1..], later);
    }
  }

  lemma SlicesApart(cases: map<int, Case>, gs: seq<seq<int>>, i: nat)
    requires ValidGroups(cases, gs) && i < |gs|
    ensures NonEmpty(gs) && NonEmpty(gs[..i]) && NonEmpty(gs[i + 1..])
    ensures AllApart(gs[..i], Elements(gs[i])) && AllApart(gs[i + 1..], Elements(gs[i]))
    ensures forall h :: 0 <= h < i ==> AllApart(gs[i + 1..], Elements(gs[..i][h]))
  {
    var before, later := gs[..i], gs[i + 1..];
    forall h | 0 <= h < i ensures AllApart(later, Elements(before[h])) {
      forall j | 0 <= j < |later| ensures Elements(later[j]) !! Elements(before[h]) {
        assert Elements(gs[h]) !! Elements(gs[i + 1 + j]);
      }
    }
  }

  /**
   * After all groups are merged, the rows of each are those that merging it
   * alone leaves, once the references to the groups before it are followed,
   * with the references to the groups after it followed in the end.
   */
  lemma GroupsInside(db: Db, gs: seq<seq<int>>, i: nat)
    requires ValidGroups(db.cases, gs) && i < |gs|
    ensures NonEmpty(gs) && NonEmpty(gs[..i]) && NonEmpty(gs[i + 1..])
    ensures
      var g, p := gs[i], Part(Elements(gs[i]), true);
      var w, ls := Winner(db.kids, g), Losers(db.kids, g);
      && w !in ls
      && KidsIn(MergeGroups(db, gs).kids, p)
         == Redirected(MergeAllKids(Redirected(KidsIn(db.kids, p), RunRedirects(db.kids, gs[..i])), ls, w),
                       RunRedirects(db.kids, gs[i + 1..]))
  {
    hide MergeGroup, MergeGroups, KidsIn, Winner, Redirected, RunRedirects, Beyond, AllApart;
    var g := gs[i];
    var p := Part(Elements(g), true);
    SlicesApart(db.cases, gs, i);
    var before, after := AroundGroup(db, gs, i);
    ApartIsBeyond(gs[..i], Elements(g));
    ApartIsBeyond(gs[i + 1..], Elements(g));
    GroupsOutside(db, gs[..i], p);
    WinnerKept(db, gs[..i], g);
    GroupInside(before, g, p);
    GroupsOutside(after, gs[i + 1..], p);
    LaterRedirectsKept(db, gs[..i], gs[i + 1..]);
    RunRedirectsKept(before, g, gs[i + 1..]);
  }

  lemma WinnerKept(db: Db, gs: seq<seq<int>>, g: seq<int>)
    requires ValidGroups(db.cases, gs) && g != [] && AllApart(gs, Elements(g))
    ensures Winner(MergeGroups(db, gs).kids, g) == Winner(db.kids, g)
  {
    MergeGroupsElsewhere(db, gs, g);
  }

  /** All groups of a full run. */
  ghost function AllGroups(db: Db): seq<seq<int>> {
    GroupsOf(db.cases, SortedIdentities(DuplicateIdentities(db.cases)))
  }
}
