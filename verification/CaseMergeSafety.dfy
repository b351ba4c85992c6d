/**
 * Safety of one merge run: referential integrity, the verification gate,
 * the identity constraint and the independence of the groups.
 */
module CaseMergeSafety {
  import opened Ordering
  import opened ChildTable
  import opened CaseTables
  import opened CaseMerge

  // ----- well-formed databases

  /** Every child, source and audit row names a case of `cs`. */
  ghost predicate OwnersOk(db: Db, cs: set<int>) {
    && KidsOwnersIn(db.kids, cs)
    && (forall p :: p in db.sources ==> p.0 in cs)
    && (forall i :: 0 <= i < |db.audit| ==> db.audit[i].winner in cs)
  }

  /** Foreign keys and UNIQUE constraints hold; primary keys are positive. */
  ghost predicate WellFormed(db: Db) {
    && OwnersOk(db, db.cases.Keys) && LinksOk(db.kids) && KidsUnique(db.kids)
    && UniqueCases(db.cases) && (forall c :: c in db.cases ==> c > 0)
  }

  /** A non-civil case shares its identity with no other case. */
  ghost predicate NonCivilApart(cases: map<int, Case>) {
    forall i, j :: i in cases && j in cases && i != j && IdentityOf(cases[i]) == IdentityOf(cases[j]) ==>
      Civil(cases[i])
  }

  // ----- owners, references and constraints through the merge of the groups

  ghost predicate StillOk(db: Db, cs: set<int>) {
    OwnersOk(db, cs) && LinksOk(db.kids) && KidsUnique(db.kids)
  }

  lemma MergePairOk(db: Db, loser: int, winner: int, cs: set<int>)
    requires loser != winner && winner in cs && StillOk(db, cs)
    ensures StillOk(MergePair(db, loser, winner), cs - {loser})
  {
    MergeKidsOwners(db.kids, loser, winner, cs);
    MergeKidsLinks(db.kids, loser, winner);
    MergeKidsUnique(db.kids, loser, winner, {});
  }

  lemma {:induction false} MergeLosersOk(db: Db, losers: seq<int>, winner: int, cs: set<int>)
    requires winner !in losers && winner in cs && StillOk(db, cs)
    ensures StillOk(MergeLosers(db, losers, winner), cs - Elements(losers))
    decreases |losers|
  {
    hide MergePair, StillOk;
    if losers == [] {
      assert cs - Elements(losers) == cs;
    } else {
      MergePairOk(db, losers[0], winner, cs);
      MergeLosersOk(MergePair(db, losers[0], winner), losers[1..], winner, cs - {losers[0]});
      ElementsCons(losers[0], losers[1..]);
      assert losers == [losers[0]] + losers[1..];
      assert cs - Elements(losers) == cs - {losers[0]} - Elements(losers[1..]);
    }
  }

  lemma PreparedOk(db: Db, g: seq<int>, cs: set<int>)
    requires ValidGroup(db.cases, g) && Elements(g) <= cs && StillOk(db, cs)
    ensures StillOk(Prepared(db, g), cs)
  {
    assert Winner(db.kids, g) in Elements(g);
  }

  lemma MergeGroupOk(db: Db, g: seq<int>, cs: set<int>)
    requires ValidGroup(db.cases, g) && Elements(g) <= cs && StillOk(db, cs)
    ensures StillOk(MergeGroup(db, g), cs - Elements(Losers(db.kids, g)))
  {
    PreparedOk(db, g, cs);
    assert Winner(db.kids, g) in Elements(g) && Winner(db.kids, g) !in Elements(Losers(db.kids, g));
    MergeLosersOk(Prepared(db, g), Losers(db.kids, g), Winner(db.kids, g), cs);
  }

  // ----- independence: a merge leaves the rows of other cases alone

  /** Case `c` has the same movements, documents and litigantes, and its movement rows are the same. */
  ghost predicate SameRows(a: Kids, b: Kids, c: int) {
    && Ids(a.movements, c) == Ids(b.movements, c) && Ids(a.documents, c) == Ids(b.documents, c)
    && Ids(a.litigantes, c) == Ids(b.litigantes, c)
    && forall id :: id in Ids(a.movements, c) ==> a.movements[id] == b.movements[id]
  }

  lemma MergeKidsElsewhere(k: Kids, loser: int, winner: int, c: int)
    requires loser != winner && c != loser && c != winner
    ensures SameRows(k, MergeKids(k, loser, winner), c)
  {
    var s := Settled(k, loser, winner);
    MergedElsewhere(k.movements, MovementKey, loser, winner, c);
    MergedElsewhere(k.litigantes, NaturalKey, loser, winner, c);
    MergedElsewhere(s.documents, DocumentKey, loser, winner, c);
    assert Ids(s.documents, c) == Ids(k.documents, c);
  }

  lemma {:induction false} MergeLosersElsewhere(db: Db, losers: seq<int>, winner: int, c: int)
    requires winner !in losers && c !in losers && c != winner
    ensures SameRows(db.kids, MergeLosers(db, losers, winner).kids, c)
    decreases |losers|
  {
    if losers != [] {
      MergeKidsElsewhere(db.kids, losers[0], winner, c);
      MergeLosersElsewhere(MergePair(db, losers[0], winner), losers[1..], winner, c);
    }
  }

  /** Merging one group cannot change who wins in a disjoint one. */
  lemma MergeGroupElsewhere(db: Db, g: seq<int>, other: seq<int>)
    requires ValidGroup(db.cases, g) && other != [] && Elements(g) !! Elements(other)
    ensures forall c :: c in Elements(other) ==> SameRows(db.kids, MergeGroup(db, g).kids, c)
    ensures Winner(MergeGroup(db, g).kids, other) == Winner(db.kids, other)
  {
    var k' := MergeGroup(db, g).kids;
    assert Winner(db.kids, g) in Elements(g);
    forall c | c in Elements(other) ensures SameRows(db.kids, k', c) {
      assert c !in Elements(Losers(db.kids, g));
      MergeLosersElsewhere(Prepared(db, g), Losers(db.kids, g), Winner(db.kids, g), c);
    }
    SameWinner(db.kids, k', other);
  }

  lemma SameWinner(a: Kids, b: Kids, g: seq<int>)
    requires g != [] && forall c :: c in Elements(g) ==> SameRows(a, b, c)
    ensures Winner(a, g) == Winner(b, g)
  {
    var v, w := Winner(a, g), Winner(b, g);
    assert v in Elements(g) && w in Elements(g);
  }

  /** Winners and losers chosen up front are those chosen while the merge advances. */
  lemma LosersUpFront(db: Db, gs: seq<seq<int>>)
    requires ValidGroups(db.cases, gs) && gs != []
    ensures forall i :: 1 <= i < |gs| ==> Winner(MergeGroup(db, gs[0]).kids, gs[i]) == Winner(db.kids, gs[i])
    ensures AllLosers(db.kids, gs) == Elements(Losers(db.kids, gs[0])) + AllLosers(MergeGroup(db, gs[0]).kids, gs[1..])
    ensures AllWinners(db.kids, gs) == {Winner(db.kids, gs[0])} + AllWinners(MergeGroup(db, gs[0]).kids, gs[1..])
  {
    var k' := MergeGroup(db, gs[0]).kids;
    forall i | 1 <= i < |gs| ensures Winner(k', gs[i]) == Winner(db.kids, gs[i]) {
      MergeGroupElsewhere(db, gs[0], gs[i]);
    }
    var rest := gs[1..];
    forall i | 0 <= i < |rest| ensures Winner(k', rest[i]) == Winner(db.kids, gs[i + 1]) {}
    forall c | c in AllLosers(db.kids, gs) ensures c in Elements(Losers(db.kids, gs[0])) + AllLosers(k', rest) {
      var i :| 0 <= i < |gs| && c in Losers(db.kids, gs[i]);
      if i > 0 {
        assert rest[i - 1] == gs[i] && Losers(k', rest[i - 1]) == Losers(db.kids, gs[i]);
      }
    }
    forall c | c in AllLosers(k', rest) ensures c in AllLosers(db.kids, gs) {
      var i :| 0 <= i < |rest| && c in Losers(k', rest[i]);
      assert c in Losers(db.kids, gs[i + 1]);
    }
    forall c | c in AllWinners(db.kids, gs) ensures c in {Winner(db.kids, gs[0])} + AllWinners(k', rest) {
      var i :| 0 <= i < |gs| && c == Winner(db.kids, gs[i]);
      if i > 0 {
        assert c == Winner(k', rest[i - 1]);
      }
    }
    forall c | c in AllWinners(k', rest) ensures c in AllWinners(db.kids, gs) {
      var i :| 0 <= i < |rest| && c == Winner(k', rest[i]);
      assert c == Winner(db.kids, gs[i + 1]);
    }
  }

  /** One step of the fold over the groups. */
  lemma FirstGroup(db: Db, gs: seq<seq<int>>) returns (next: Db)
    requires ValidGroups(db.cases, gs) && gs != []
    ensures next == MergeGroup(db, gs[0]) && next.cases == db.cases
    ensures ValidGroups(next.cases, gs[1..])
    ensures MergeGroups(db, gs) == MergeGroups(next, gs[1..])
  {
    next := MergeGroup(db, gs[0]);
    MergeLosersCases(Prepared(db, gs[0]), Losers(db.kids, gs[0]), Winner(db.kids, gs[0]));
  }

  lemma LaterGroupsIn(k: Kids, cases: map<int, Case>, gs: seq<seq<int>>, cs: set<int>)
    requires ValidGroups(cases, gs) && gs != []
    requires forall i :: 0 <= i < |gs| ==> Elements(gs[i]) <= cs
    ensures forall i :: 0 <= i < |gs[1..]| ==> Elements(gs[1..][i]) <= cs - Elements(Losers(k, gs[0]))
  {
    forall i | 0 <= i < |gs[1..]| ensures Elements(gs[1..][i]) <= cs - Elements(Losers(k, gs[0])) {
      assert Elements(gs[0]) !! Elements(gs[i + 1]);
    }
  }

  /** After merging the groups, no row of any kind names a loser and every reference is live. */
  lemma {:induction false} MergeGroupsOk(db: Db, gs: seq<seq<int>>, cs: set<int>)
    requires ValidGroups(db.cases, gs) && StillOk(db, cs)
    requires forall i :: 0 <= i < |gs| ==> Elements(gs[i]) <= cs
    ensures StillOk(MergeGroups(db, gs), cs - AllLosers(db.kids, gs))
    decreases |gs|
  {
    hide MergeGroup, StillOk, Losers;
    if gs == [] {
      assert cs - AllLosers(db.kids, gs) == cs;
    } else {
      MergeGroupOk(db, gs[0], cs);
      LosersUpFront(db, gs);
      LaterGroupsIn(db.kids, db.cases, gs, cs);
      var cs' := cs - Elements(Losers(db.kids, gs[0]));
      var next := FirstGroup(db, gs);
      MergeGroupsOk(next, gs[1..], cs');
      assert cs - AllLosers(db.kids, gs) == cs' - AllLosers(next.kids, gs[1..]);
    }
  }
}
