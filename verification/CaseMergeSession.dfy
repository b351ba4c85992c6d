/**
 * The merge as the program runs it: a session whose tables are reassigned row
 * by row, each step proved against the functions of CaseTables and CaseMerge.
 */
module CaseMergeSession {
  import opened Options
  import opened Ordering
  import opened ChildTable
  import opened CaseTables
  import opened CaseMergeLinks
  import opened CaseMerge
  import opened CaseMergeSafety
  import opened CaseMergeReverse
  import opened CaseMergeBatches

  /** The (case, lawyer) pairs of a case_lawyer_source table. */
  function Pairs(t: Table<int>): set<(int, int)> {
    set id | id in t && t[id].caseId.Some? :: (t[id].caseId.value, t[id].data)
  }

  lemma PairsOfMerged(t: Table<int>, loser: int, winner: int)
    requires loser != winner
    ensures Pairs(Merged(t, SourceKey, loser, winner)) == MergeSources(Pairs(t), loser, winner)
  {
    var u := Merged(t, SourceKey, loser, winner);
    forall p | p in MergeSources(Pairs(t), loser, winner) ensures p in Pairs(u) {
      var q :| q in Pairs(t) && p == (if q.0 == loser then winner else q.0, q.1);
      var id :| id in t && t[id].caseId.Some? && q == (t[id].caseId.value, t[id].data);
      MergedRow(t, SourceKey, loser, winner, id);
      if Dropped(t, SourceKey, loser, winner, id) {
        var c := CanonicalExists(t, SourceKey, loser, winner, id);
        CanonicalSurvives(t, SourceKey, loser, winner, id, c);
        assert p == (u[c].caseId.value, u[c].data);
      } else {
        assert p == (u[id].caseId.value, u[id].data);
      }
    }
    forall p | p in Pairs(u) ensures p in MergeSources(Pairs(t), loser, winner) {
      var id :| id in u && u[id].caseId.Some? && p == (u[id].caseId.value, u[id].data);
      MergedRow(t, SourceKey, loser, winner, id);
      assert (t[id].caseId.value, t[id].data) in Pairs(t);
    }
  }

  lemma BackfillStep(db: Db, g: seq<int>, i: nat, winner: int)
    requires Elements(g) <= db.cases.Keys && i < |g|
    ensures Elements(g[..i]) <= db.cases.Keys && Elements(g[..i + 1]) <= db.cases.Keys && g[i] in db.cases
    ensures BackfillSources(db, g[..i + 1], winner) ==
      BackfillSources(db, g[..i], winner) + {(winner, db.cases[g[i]].lawyerId)}
  {
    TakeElements(g, i);
    assert g[i] in Elements(g);
    assert forall c :: c in Elements(g[..i]) ==> c in g && c in Elements(g);
    var small, big := BackfillSources(db, g[..i], winner), BackfillSources(db, g[..i + 1], winner);
    assert forall j :: 0 <= j < i ==>
      SourceOf(db.cases, g[..i], winner, j) == SourceOf(db.cases, g[..i + 1], winner, j);
    assert SourceOf(db.cases, g[..i + 1], winner, i) in big;
    forall q | q in big && q != SourceOf(db.cases, g[..i + 1], winner, i) ensures q in small {
      if q !in db.sources {
        var j :| 0 <= j < |g[..i + 1]| && q == SourceOf(db.cases, g[..i + 1], winner, j);
        assert q == SourceOf(db.cases, g[..i], winner, j);
      }
    }
    forall q | q in small ensures q in big {
      if q !in db.sources {
        var j :| 0 <= j < |g[..i]| && q == SourceOf(db.cases, g[..i], winner, j);
        assert q == SourceOf(db.cases, g[..i + 1], winner, j);
      }
    }
    assert big == small + {SourceOf(db.cases, g[..i + 1], winner, i)};
  }

  lemma SourcesFreeIff(t: Table<int>, losers: set<int>)
    ensures NoneOf(t, losers) <==> forall p :: p in Pairs(t) ==> p.0 !in losers
  {
    forall id | id in t && t[id].caseId.Some? ensures (t[id].caseId.value, t[id].data) in Pairs(t) {}
  }

  lemma PairsOfNew(t: Table<int>, id: int, c: int, lawyer: int)
    requires id !in t && (c, lawyer) !in Pairs(t) && UniqueKeys(t, SourceKey)
    ensures Pairs(t[id := Row(Some(c), lawyer)]) == Pairs(t) + {(c, lawyer)}
    ensures UniqueKeys(t[id := Row(Some(c), lawyer)], SourceKey)
  {
    var u := t[id := Row(Some(c), lawyer)];
    forall p | p in Pairs(t) ensures p in Pairs(u) {
      var i :| i in t && t[i].caseId.Some? && p == (t[i].caseId.value, t[i].data);
      assert i in u;
    }
    assert id in u && u[id].caseId == Some(c);
    forall i | i in t && t[i].caseId == Some(c) ensures t[i].data != lawyer {
      assert (t[i].caseId.value, t[i].data) in Pairs(t);
    }
    forall i, j | i in u && j in u && Same(u, SourceKey, i, j) ensures i == j {
      if i != id && j != id {
        assert Same(t, SourceKey, i, j);
      }
    }
  }

  // ----- re-pointing one row at a time

  /** Following one more collapsed row after the others is following all of them. */
  ghost predicate Composes<D(!new)>(follow: (map<int, int>, D) -> D, canon: map<int, int>, id: int, c: int) {
    forall d :: follow(map[id := c], follow(canon, d)) == follow(canon[id := c], d)
  }

  lemma AllCompose(canon: map<int, int>, id: int, c: int)
    requires id !in canon && id !in canon.Values
    ensures Composes(DocumentMovement, canon, id, c) && Composes(DocumentEscrito, canon, id, c)
    ensures Composes(DeadlineMovements, canon, id, c) && Composes(AlertMovement, canon, id, c)
    ensures Composes(HitoMovement, canon, id, c)
  {
    FollowTwice(canon, map[id := c]);
    assert canon + map[id := c] == canon[id := c];
    hide Follow;
  }

  lemma NoMovementCollapsed(k: Kids)
    ensures RepointMovementLinks(k, map[]) == k
  {
    RepointedNever(k.documents, map[], DocumentMovement);
    RepointedNever(k.deadlines, map[], DeadlineMovements);
    RepointedNever(k.alerts, map[], AlertMovement);
    RepointedNever(k.hitos, map[], HitoMovement);
  }

  /** One more movement collapsed, whatever the movements table has become. */
  lemma CollapseMovement(k: Kids, canon: map<int, int>, moved: Table<Movement>, id: int, c: int)
    requires id !in canon && id !in canon.Values
    ensures RepointMovementLinks(RepointMovementLinks(k, canon).(movements := moved), map[id := c])
         == RepointMovementLinks(k, canon[id := c]).(movements := moved)
  {
    hide Repointed, Follow;
    AllCompose(canon, id, c);
    RepointedTwice(k.documents, canon, map[id := c], canon[id := c], DocumentMovement);
    RepointedTwice(k.deadlines, canon, map[id := c], canon[id := c], DeadlineMovements);
    RepointedTwice(k.alerts, canon, map[id := c], canon[id := c], AlertMovement);
    RepointedTwice(k.hitos, canon, map[id := c], canon[id := c], HitoMovement);
  }

  lemma CollapseEscrito(t: Table<Document>, canon: map<int, int>, id: int, c: int)
    requires id !in canon && id !in canon.Values
    ensures Repointed(Repointed(t, canon, DocumentEscrito), map[id := c], DocumentEscrito)
         == Repointed(t, canon[id := c], DocumentEscrito)
  {
    AllCompose(canon, id, c);
    RepointedTwice(t, canon, map[id := c], canon[id := c], DocumentEscrito);
  }

  lemma NoEscritoCollapsed(t: Table<Document>)
    ensures Repointed(t, map[], DocumentEscrito) == t
  {
    RepointedNever(t, map[], DocumentEscrito);
  }

  // ----- the visit of the loser's rows, one iteration after another

  datatype Visit<D, K> = Visit(moved: Table<D>, seen: map<K, int>, toDelete: set<int>, canon: map<int, int>)

  ghost predicate Visits<D, K>(t: Table<D>, key: D -> Option<K>, loser: int, winner: int, ids: seq<int>,
                              seen: map<K, int>) {
    && loser != winner && Ascending(ids, IntLess) && Elements(ids) == Ids(t, loser)
    && (forall j :: 0 <= j < |ids| ==> Owned(t, loser, ids[j]) && key(t[ids[j]].data).Some?)
    && seen.Keys == Keys(t, key, winner) && (forall k :: k in seen ==> FirstOf(t, key, winner, k, seen[k]))
  }

  ghost function VisitAt<D, K>(t: Table<D>, key: D -> Option<K>, loser: int, winner: int, ids: seq<int>,
                              seen: map<K, int>, i: nat): Visit<D, K>
    requires i <= |ids| && Visits(t, key, loser, winner, ids, seen)
    decreases i
  {
    if i == 0 then Visit(t, seen, {}, map[]) else
      var v := VisitAt(t, key, loser, winner, ids, seen, i - 1);
      var id := ids[i - 1];
      var k := key(t[id].data).value;
      if k in v.seen then v.(toDelete := v.toDelete + {id}, canon := v.canon[id := v.seen[k]])
      else v.(moved := v.moved[id := Row(Some(winner), t[id].data)], seen := v.seen[k := id])
  }

  /** What one visit does. */
  lemma VisitNext<D, K>(t: Table<D>, key: D -> Option<K>, loser: int, winner: int, ids: seq<int>, seen: map<K, int>,
                        i: nat)
    requires i < |ids| && Visits(t, key, loser, winner, ids, seen)
    ensures ids[i] in t && key(t[ids[i]].data).Some?
    ensures
      var v, id, k := VisitAt(t, key, loser, winner, ids, seen, i), ids[i], key(t[ids[i]].data).value;
      VisitAt(t, key, loser, winner, ids, seen, i + 1) ==
        if k in v.seen then v.(toDelete := v.toDelete + {id}, canon := v.canon[id := v.seen[k]])
        else v.(moved := v.moved[id := Row(Some(winner), t[id].data)], seen := v.seen[k := id])
  {}

  lemma FirstVisit<D, K>(t: Table<D>, key: D -> Option<K>, loser: int, winner: int, ids: seq<int>, seen: map<K, int>)
    requires Visits(t, key, loser, winner, ids, seen)
    ensures VisitAt(t, key, loser, winner, ids, seen, 0) == Visit(t, seen, {}, map[])
  {}

  lemma SeenStep<D, K>(t: Table<D>, key: D -> Option<K>, loser: int, winner: int, known: set<K>, seen: map<K, int>,
                       k: K, id: int)
    requires SeenRows(t, key, loser, winner, known, seen) && (k !in seen ==> Holder(t, key, loser, winner, k, id))
    ensures SeenRows(t, key, loser, winner, known + {k}, if k in seen then seen else seen[k := id])
  {}

  lemma FirstSeen<D, K>(t: Table<D>, key: D -> Option<K>, loser: int, winner: int, ids: seq<int>, seen: map<K, int>)
    requires Visits(t, key, loser, winner, ids, seen)
    ensures SeenRows(t, key, loser, winner, SeenAt(t, key, winner, ids, 0), seen)
  {
    hide RowsAt, Merged;
    LoopBounds(t, key, loser, winner, ids);
  }

  lemma {:induction false} VisitSeen<D, K>(t: Table<D>, key: D -> Option<K>, loser: int, winner: int, ids: seq<int>,
                                           seen: map<K, int>, i: nat)
    requires Visits(t, key, loser, winner, ids, seen) && i <= |ids|
    ensures SeenRows(t, key, loser, winner, SeenAt(t, key, winner, ids, i),
      VisitAt(t, key, loser, winner, ids, seen, i).seen)
    decreases i
  {
    hide SeenAt, Holder, FirstOf, Keys, Ids;
    if i == 0 {
      FirstSeen(t, key, loser, winner, ids, seen);
    } else {
      var v := VisitAt(t, key, loser, winner, ids, seen, i - 1);
      var k := key(t[ids[i - 1]].data).value;
      VisitSeen(t, key, loser, winner, ids, seen, i - 1);
      SeenAtStep(t, key, winner, ids, i - 1);
      if k !in v.seen {
        NewHolder(t, key, loser, winner, ids, i - 1);
      }
      SeenStep(t, key, loser, winner, SeenAt(t, key, winner, ids, i - 1), v.seen, k, ids[i - 1]);
    }
  }

  /** The identity of `ids[i]` is known exactly when the row is to be dropped. */
  lemma VisitDrops<D, K>(t: Table<D>, key: D -> Option<K>, loser: int, winner: int, ids: seq<int>, seen: map<K, int>,
                         i: nat)
    requires Visits(t, key, loser, winner, ids, seen) && i < |ids|
    ensures
      var k, v := key(t[ids[i]].data).value, VisitAt(t, key, loser, winner, ids, seen, i);
      && (k in v.seen <==> Dropped(t, key, loser, winner, ids[i]))
      && (k in v.seen ==> IsCanonical(t, key, loser, winner, ids[i], v.seen[k]))
  {
    VisitSeen(t, key, loser, winner, ids, seen, i);
    LoopStep(t, key, loser, winner, ids, i);
    var k, v := key(t[ids[i]].data).value, VisitAt(t, key, loser, winner, ids, seen, i);
    if k in v.seen {
      HolderIsCanonical(t, key, loser, winner, ids[i], v.seen[k]);
    }
  }

  /** Row `id` after `i` visits. */
  lemma {:induction false} VisitRow<D, K>(t: Table<D>, key: D -> Option<K>, loser: int, winner: int, ids: seq<int>,
                                          seen: map<K, int>, i: nat, id: int)
    requires Visits(t, key, loser, winner, ids, seen) && i <= |ids|
    ensures
      var v := VisitAt(t, key, loser, winner, ids, seen, i);
      && (id in v.moved <==> id in t)
      && (id in v.toDelete <==> id in ids[..i] && Dropped(t, key, loser, winner, id))
      && (id in v.toDelete <==> id in v.canon)
      && (id in t ==>
          v.moved[id] == if id in ids[..i] && id !in v.toDelete then Row(Some(winner), t[id].data) else t[id])
    decreases i
  {
    if i > 0 {
      VisitRow(t, key, loser, winner, ids, seen, i - 1, id);
      VisitDrops(t, key, loser, winner, ids, seen, i - 1);
      assert ids[..i] == ids[..i - 1] + [ids[i - 1]];
    }
  }

  lemma {:induction false} VisitCanon<D, K>(t: Table<D>, key: D -> Option<K>, loser: int, winner: int, ids: seq<int>,
                                            seen: map<K, int>, i: nat, id: int)
    requires Visits(t, key, loser, winner, ids, seen) && i <= |ids|
    requires id in VisitAt(t, key, loser, winner, ids, seen, i).canon
    ensures Dropped(t, key, loser, winner, id)
    ensures IsCanonical(t, key, loser, winner, id, VisitAt(t, key, loser, winner, ids, seen, i).canon[id])
    decreases i
  {
    VisitDrops(t, key, loser, winner, ids, seen, i - 1);
    var v := VisitAt(t, key, loser, winner, ids, seen, i - 1);
    if key(t[ids[i - 1]].data).value !in v.seen || id != ids[i - 1] {
      VisitCanon(t, key, loser, winner, ids, seen, i - 1, id);
    }
  }

  /** A colliding row was not collapsed before and nothing was collapsed into it. */
  lemma VisitFresh<D, K>(t: Table<D>, key: D -> Option<K>, loser: int, winner: int, ids: seq<int>, seen: map<K, int>,
                         i: nat)
    requires Visits(t, key, loser, winner, ids, seen) && i < |ids|
    ensures
      var v := VisitAt(t, key, loser, winner, ids, seen, i);
      key(t[ids[i]].data).value in v.seen ==> ids[i] !in v.canon && ids[i] !in v.canon.Values
  {
    var v := VisitAt(t, key, loser, winner, ids, seen, i);
    VisitDrops(t, key, loser, winner, ids, seen, i);
    VisitRow(t, key, loser, winner, ids, seen, i, ids[i]);
    assert ids[i] !in ids[..i];
    if Dropped(t, key, loser, winner, ids[i]) {
      forall d | d in v.canon ensures v.canon[d] != ids[i] {
        VisitCanon(t, key, loser, winner, ids, seen, i, d);
        CanonicalSurvives(t, key, loser, winner, d, v.canon[d]);
        MergedRow(t, key, loser, winner, v.canon[d]);
      }
    }
  }

  lemma VisitEnds<D, K>(t: Table<D>, key: D -> Option<K>, loser: int, winner: int, ids: seq<int>, seen: map<K, int>)
    requires Visits(t, key, loser, winner, ids, seen)
    ensures
      var v := VisitAt(t, key, loser, winner, ids, seen, |ids|);
      v.moved - v.toDelete == Merged(t, key, loser, winner) && v.canon == Canon(t, key, loser, winner)
  {
    var v := VisitAt(t, key, loser, winner, ids, seen, |ids|);
    assert ids[..|ids|] == ids;
    forall id
      ensures id in v.moved - v.toDelete <==> id in Merged(t, key, loser, winner)
      ensures id in v.canon <==> Dropped(t, key, loser, winner, id)
      ensures id in Merged(t, key, loser, winner) ==> v.moved[id] == Merged(t, key, loser, winner)[id]
    {
      VisitRow(t, key, loser, winner, ids, seen, |ids|, id);
      assert id in ids <==> id in Ids(t, loser) by { assert id in ids <==> id in Elements(ids); }
      if id in t { MergedRow(t, key, loser, winner, id); }
    }
    forall id | id in v.canon ensures IsCanonical(t, key, loser, winner, id, v.canon[id]) {
      VisitCanon(t, key, loser, winner, ids, seen, |ids|, id);
    }
    CanonUnique(t, key, loser, winner, v.canon, Canon(t, key, loser, winner));
  }

  /** What a transaction can restore. */
  datatype Tables = Tables(cases: map<int, Case>, kids: Kids, sources: Table<int>, audit: seq<Audit>)

  class Session {
    var cases: map<int, Case>
    var kids: Kids
    var sources: Table<int>
    var audit: seq<Audit>
    var nextId: int

    /** Ids issued next are new; a lawyer is a source of a case at most once. */
    ghost predicate Valid()
      reads this
    {
      && UniqueKeys(sources, SourceKey)
      && (forall id :: id in sources ==> id < nextId && sources[id].caseId.Some?)
      && IdsBelow(cases, audit, nextId)
    }

    function View(): Db
      reads this
    {
      Db(cases, kids, Pairs(sources), audit)
    }

    /** Richest case first, ties to the lowest id. */
    method SelectWinner(g: seq<int>) returns (w: int)
      requires g != []
      ensures w == Winner(kids, g)
    {
      w := g[0];
      var score := Richness(kids, w);
      for i := 1 to |g|
        invariant w in g[..i] && score == Richness(kids, w)
        invariant forall c :: c in g[..i] ==> c == w || Beats(kids, w, c)
      {
        var s := Richness(kids, g[i]);
        assert g[..i + 1] == g[..i] + [g[i]];
        if s > score || (s == score && g[i] < w) {
          w, score := g[i], s;
        }
      }
      assert g[..|g|] == g;
    }

    /** Every lawyer of the group becomes a source of the winner. */
    method Backfill(g: seq<int>, winner: int)
      requires Valid() && Elements(g) <= cases.Keys
      modifies this`sources, this`nextId
      ensures Valid()
      ensures Pairs(sources) == BackfillSources(old(View()), g, winner) && nextId >= old(nextId)
    {
      for i := 0 to |g|
        invariant Valid() && nextId >= old(nextId)
        invariant Pairs(sources) == BackfillSources(old(View()), g[..i], winner)
      {
        TakeElements(g, i);
        assert g[i] in Elements(g);
        var lawyer := cases[g[i]].lawyerId;
        BackfillStep(old(View()), g, i, winner);
        if (winner, lawyer) !in Pairs(sources) {
          PairsOfNew(sources, nextId, winner, lawyer);
          sources := sources[nextId := Row(Some(winner), lawyer)];
          nextId := nextId + 1;
        }
      }
      assert g[..|g|] == g;
    }

    /**
     * Movements collapse on (folio, description); every reference to a collapsed
     * movement is re-pointed before the rows are deleted.
     */
    method MergeMovements(loser: int, winner: int)
      requires loser != winner
      modifies this`kids
      ensures kids == MergedMovements(old(kids), loser, winner)
    {
      ghost var k0 := kids;
      var rows := kids.movements;
      var seen := FirstRows(rows, MovementKey, winner);
      var ids := RowsOf(rows, loser);
      var toDelete: set<int> := {};
      ghost var first := seen;
      assert Visits(rows, MovementKey, loser, winner, ids, first);
      hide RepointMovementLinks, Merged, Canon, Visits, VisitAt;
      FirstVisit(rows, MovementKey, loser, winner, ids, first);
      ghost var v := VisitAt(rows, MovementKey, loser, winner, ids, first, 0);
      NoMovementCollapsed(k0);
      for i := 0 to |ids|
        invariant v == VisitAt(rows, MovementKey, loser, winner, ids, first, i)
        invariant seen == v.seen && toDelete == v.toDelete
        invariant kids == RepointMovementLinks(k0, v.canon).(movements := v.moved)
      {
        VisitNext(rows, MovementKey, loser, winner, ids, first, i);
        VisitFresh(rows, MovementKey, loser, winner, ids, first, i);
        var id := ids[i];
        var key := rows[id].data;
        if key in seen {
          CollapseMovement(k0, v.canon, v.moved, id, seen[key]);
          kids := RepointMovementLinks(kids, map[id := seen[key]]);
          toDelete := toDelete + {id};
        } else {
          kids := kids.(movements := kids.movements[id := Row(Some(winner), key)]);
          seen := seen[key := id];
        }
        v := VisitAt(rows, MovementKey, loser, winner, ids, first, i + 1);
      }
      VisitEnds(rows, MovementKey, loser, winner, ids, first);
      kids := kids.(movements := kids.movements - toDelete);
    }

    /** Escritos collapse on their natural key; documents follow the row that stays. */
    method MergeEscritos(loser: int, winner: int)
      requires loser != winner
      modifies this`kids
      ensures kids == MergedEscritos(old(kids), loser, winner)
    {
      ghost var k0 := kids;
      var rows := kids.escritos;
      var seen := FirstRows(rows, NaturalKey, winner);
      var ids := RowsOf(rows, loser);
      var toDelete: set<int> := {};
      ghost var first := seen;
      assert Visits(rows, NaturalKey, loser, winner, ids, first);
      hide Repointed, Composes, Merged, Canon, Visits, VisitAt;
      FirstVisit(rows, NaturalKey, loser, winner, ids, first);
      ghost var v := VisitAt(rows, NaturalKey, loser, winner, ids, first, 0);
      NoEscritoCollapsed(k0.documents);
      for i := 0 to |ids|
        invariant v == VisitAt(rows, NaturalKey, loser, winner, ids, first, i)
        invariant seen == v.seen && toDelete == v.toDelete
        invariant kids == k0.(documents := Repointed(k0.documents, v.canon, DocumentEscrito), escritos := v.moved)
      {
        VisitNext(rows, NaturalKey, loser, winner, ids, first, i);
        VisitFresh(rows, NaturalKey, loser, winner, ids, first, i);
        var id := ids[i];
        var key := rows[id].data;
        if key in seen {
          CollapseEscrito(k0.documents, v.canon, id, seen[key]);
          kids := kids.(documents := Repointed(kids.documents, map[id := seen[key]], DocumentEscrito));
          toDelete := toDelete + {id};
        } else {
          kids := kids.(escritos := kids.escritos[id := Row(Some(winner), key)]);
          seen := seen[key := id];
        }
        v := VisitAt(rows, NaturalKey, loser, winner, ids, first, i + 1);
      }
      VisitEnds(rows, NaturalKey, loser, winner, ids, first);
      kids := kids.(escritos := kids.escritos - toDelete);
    }

    /** Every child table of the loser, movements and escritos before the rows that reference them. */
    method MergeChildren(loser: int, winner: int)
      requires loser != winner
      modifies this`kids, this`sources
      ensures kids == MergeKids(old(kids), loser, winner)
      ensures sources == Merged(old(sources), SourceKey, loser, winner)
    {
      MergeMovements(loser, winner);
      var litigantes := MergeRows(kids.litigantes, NaturalKey, loser, winner);
      var notificaciones := MergeRows(kids.notificaciones, NaturalKey, loser, winner);
      MergeEscritos(loser, winner);
      ghost var s := kids;
      var exhortos := MergeRows(kids.exhortos, NaturalKey, loser, winner);
      var deadlines := MergeRows(kids.deadlines, DeadlineKey, loser, winner);
      var documents := MergeRows(kids.documents, DocumentKey, loser, winner);
      var alerts := MergeRows(kids.alerts, AlertKey, loser, winner);
      sources := MergeRows(sources, SourceKey, loser, winner);
      var snapshots := MergeRows(kids.snapshots, NaturalKey, loser, winner);
      var hitos := MergeRows(kids.hitos, NoKey, loser, winner);
      var liberaciones := MergeRows(kids.liberaciones, NoKey, loser, winner);
      var generados := MergeRows(kids.generados, NoKey, loser, winner);
      kids := Kids(kids.movements, documents, litigantes, notificaciones, kids.escritos, exhortos, deadlines, alerts,
                   snapshots, hitos, liberaciones, generados);
    }

    method MergeLoser(loser: int, winner: int)
      requires Valid() && loser != winner && winner in cases
      modifies this`kids, this`sources, this`audit
      ensures Valid() && View() == MergePair(old(View()), loser, winner)
    {
      PairsOfMerged(sources, loser, winner);
      AppliedUnique(sources, SourceKey, loser, winner, sources.Keys);
      MergeChildren(loser, winner);
      audit := RepointAudit(audit, loser, winner);
    }

    /** One group: sources, audit rows, then every loser into the winner. */
    method MergeOneGroup(g: seq<int>) returns (winner: int, losers: seq<int>)
      requires Valid() && ValidGroup(cases, g)
      modifies this`kids, this`sources, this`audit, this`nextId
      ensures Valid() && View() == MergeGroup(old(View()), g)
      ensures winner == Winner(old(kids), g) && losers == Losers(old(kids), g) && nextId >= old(nextId)
    {
      winner := SelectWinner(g);
      losers := Without(g, winner);
      assert winner !in Elements(losers);
      Backfill(g, winner);
      audit := audit + AuditRows(cases, losers, winner);
      assert winner in Elements(g);
      MergeEachLoser(losers, winner);
    }

    method MergeEachLoser(losers: seq<int>, winner: int)
      requires Valid() && winner !in losers && winner in cases
      modifies this`kids, this`sources, this`audit
      ensures Valid() && View() == MergeLosers(old(View()), losers, winner)
    {
      assert losers[0..] == losers;
      for i := 0 to |losers|
        invariant Valid() && winner in cases
        invariant MergeLosers(old(View()), losers, winner) == MergeLosers(View(), losers[i..], winner)
      {
        assert losers[i..][0] == losers[i] && losers[i..][1..] == losers[i + 1..];
        MergeLoser(losers[i], winner);
      }
      assert losers[|losers|..] == [];
    }

    /** The verification gate, on the tables as they stand. */
    method VerifyInvariants(losers: set<int>, scope: Option<set<Identity>>) returns (ok: bool)
      requires Valid()
      ensures ok <==> GateOk(View(), losers, scope)
    {
      var childrenOk := KidsFree(kids, losers);
      var sourcesOk := NoneOf(sources, losers);
      SourcesFreeIff(sources, losers);
      var auditOk := forall i :: 0 <= i < |audit| ==> audit[i].winner !in OrZero(losers);
      var left := DuplicateIdentities(cases - OrZero(losers));
      var identitiesOk := if scope.Some? then left !! scope.value else left == {};
      ok := childrenOk && sourcesOk && auditOk && identitiesOk;
    }

    /** Identities of the batch: all duplicates in order, filtered, then cut. */
    method SelectBatchIdentities(limit: Option<int>, only: Option<set<Identity>>) returns (ids: seq<Identity>)
      ensures ids == BatchIdentities(cases, limit, only)
    {
      hide DuplicateIdentities, Keep;
      ids := SortedIdentities(DuplicateIdentities(cases));
      if only.Some? {
        KeepSortedIdentities(DuplicateIdentities(cases), only.value);
        ids := Keep(ids, only.value);
      }
      if limit.Some? {
        var n := if limit.value < 0 then 0 else limit.value;
        if n < |ids| {
          ids := ids[..n];
        }
      }
    }

    /**
     * One transaction of the merge. The session does not commit: on an error the
     * caller rolls back and none of the tables' values matter.
     */
    method RunCaseMerge(firm: int, limit: Option<int>, only: Option<set<Identity>>)
      returns (r: Result<Summary, MergeError>)
      requires Valid()
      modifies this
      ensures nextId >= old(nextId)
      ensures
        match Run(old(View()), firm, limit, only)
        case Ok(done) => r == Ok(done.1) && View() == done.0 && Valid()
        case Err(e) => r == Err(e)
    {
      hide MergeGroups, GateOk, UniqueCases, DuplicateIdentities;
      var ids := SelectBatchIdentities(limit, only);
      BatchIsSelection(cases, limit, only);
      GroupsAreValid(cases, ids);
      var losers, winners, auditRows := MergeAllGroups(GroupsOf(cases, ids));
      r := VerifyDeleteReown(firm, ids, losers, winners, auditRows, limit.Some? || only.Some?);
    }

    method VerifyDeleteReown(firm: int, ids: seq<Identity>, losers: set<int>, winners: set<int>, auditRows: nat,
                             batched: bool)
      returns (r: Result<Summary, MergeError>)
      requires Valid() && auditRows == |losers|
      modifies this`cases
      ensures
        match Conclude(old(View()), firm, ids, losers, winners, batched)
        case Ok(done) => r == Ok(done.1) && View() == done.0 && Valid()
        case Err(e) => r == Err(e)
    {
      var verified := VerifyInvariants(losers, if batched then Some(Elements(ids)) else None);
      if !verified {
        return Err(VerificationFailed);
      }
      cases := cases - losers;
      var scope := ReownScope(cases, winners, batched);
      var reowned := |ReownedIds(cases, scope, firm)|;
      cases := Reown(cases, scope, firm);
      if !UniqueCases(cases) {
        return Err(UniqueViolation);
      }
      r := Ok(Summary(|ids|, |losers|, auditRows, reowned, |DuplicateIdentities(cases)|, ids));
    }

    /** Every group in turn; collects the losers to delete and the winners to re-own. */
    method MergeAllGroups(groups: seq<seq<int>>) returns (losers: set<int>, winners: set<int>, auditRows: nat)
      requires Valid() && ValidGroups(cases, groups) && forall i :: 0 <= i < |groups| ==> Ascending(groups[i], IntLess)
      modifies this`kids, this`sources, this`audit, this`nextId
      ensures Valid() && View() == MergeGroups(old(View()), groups)
      ensures losers == AllLosers(old(kids), groups) && winners == AllWinners(old(kids), groups)
      ensures auditRows == |losers| && nextId >= old(nextId)
    {
      hide MergeGroup, Ascending;
      losers, winners, auditRows := {}, {}, 0;
      for i := 0 to |groups|
        invariant Valid() && ValidGroups(old(cases), groups[..i]) && nextId >= old(nextId)
        invariant View() == MergeGroups(old(View()), groups[..i])
        invariant losers == AllLosers(old(kids), groups[..i]) && winners == AllWinners(old(kids), groups[..i])
        invariant auditRows == |losers|
      {
        NextGroup(old(View()), groups, i);
        NextLosers(old(kids), old(cases), groups, i);
        var winner, ls := MergeOneGroup(groups[i]);
        winners := winners + {winner};
        losers := losers + Elements(ls);
        auditRows := auditRows + |ls|;
      }
      assert groups[..|groups|] == groups;
    }

    function Snapshot(): Tables
      reads this
    {
      Tables(cases, kids, sources, audit)
    }

    /** Restores the tables; ids already issued are not issued again. */
    method Rollback(saved: Tables)
      requires UniqueKeys(saved.sources, SourceKey) && IdsBelow(saved.cases, saved.audit, nextId)
      requires forall id :: id in saved.sources ==> id < nextId && saved.sources[id].caseId.Some?
      modifies this`cases, this`kids, this`sources, this`audit
      ensures Valid() && Snapshot() == saved
    {
      cases, kids, sources, audit := saved.cases, saved.kids, saved.sources, saved.audit;
    }

    /** One skeleton case per audit row whose loser has no equivalent. */
    method ReverseCaseMerge() returns (recreated: nat)
      requires Valid()
      modifies this`cases, this`nextId
      ensures (cases, recreated) == Reverse(old(cases), audit, old(nextId))
      ensures Valid()
    {
      recreated := 0;
      assert audit[0..] == audit;
      for i := 0 to |audit|
        invariant Valid()
        invariant Reverse(old(cases), audit, old(nextId)) ==
          (Reverse(cases, audit[i..], nextId).0, recreated + Reverse(cases, audit[i..], nextId).1)
      {
        assert audit[i..][0] == audit[i] && audit[i..][1..] == audit[i + 1..];
        var a := audit[i];
        if a.winner in cases && !Recreated(cases, a, cases[a.winner]) {
          cases := cases[nextId := Skeleton(a, cases[a.winner])];
          nextId := nextId + 1;
          recreated := recreated + 1;
        }
      }
    }
  }

  /** Merging one more group, with the winner it had at the start. */
  lemma NextGroup(db: Db, gs: seq<seq<int>>, i: nat)
    requires ValidGroups(db.cases, gs) && i < |gs|
    ensures ValidGroups(db.cases, gs[..i]) && ValidGroups(db.cases, gs[..i + 1]) && ValidGroup(db.cases, gs[i])
    ensures MergeGroups(db, gs[..i + 1]) == MergeGroup(MergeGroups(db, gs[..i]), gs[i])
    ensures Winner(MergeGroups(db, gs[..i]).kids, gs[i]) == Winner(db.kids, gs[i])
  {
    NextGroupSplits(db, gs, i);
    OneGroup(MergeGroups(db, gs[..i]), gs[i]);
    MergeGroupsElsewhere(db, gs[..i], gs[i]);
  }

  lemma NextGroupValid(cases: map<int, Case>, gs: seq<seq<int>>, i: nat)
    requires ValidGroups(cases, gs) && i < |gs|
    ensures ValidGroups(cases, gs[..i]) && ValidGroups(cases, gs[..i + 1]) && ValidGroups(cases, [gs[i]])
    ensures gs[..i + 1][..i] == gs[..i] && gs[..i + 1][i..] == [gs[i]]
  {}

  lemma NextGroupSplits(db: Db, gs: seq<seq<int>>, i: nat)
    requires ValidGroups(db.cases, gs) && i < |gs|
    ensures ValidGroups(db.cases, gs[..i]) && ValidGroups(db.cases, gs[..i + 1]) && ValidGroups(db.cases, [gs[i]])
    ensures MergeGroups(db, gs[..i + 1]) == MergeGroups(MergeGroups(db, gs[..i]), [gs[i]])
  {
    hide MergeGroups, ValidGroups;
    NextGroupValid(db.cases, gs, i);
    MergeGroupsSplit(db, gs[..i + 1], i);
  }

  lemma OneGroup(db: Db, g: seq<int>)
    requires ValidGroups(db.cases, [g])
    ensures ValidGroup(db.cases, g) && MergeGroups(db, [g]) == MergeGroup(db, g)
  {
    assert [g][0] == g;
    var next := FirstGroup(db, [g]);
    assert [g][1..] == [];
  }

  lemma NextLoserMember(k: Kids, gs: seq<seq<int>>, i: nat, c: int)
    requires i < |gs| && forall j :: 0 <= j < |gs| ==> gs[j] != []
    ensures c in AllLosers(k, gs[..i + 1]) <==> c in AllLosers(k, gs[..i]) || c in Losers(k, gs[i])
  {
    hide Losers;
    var now, before := gs[..i + 1], gs[..i];
    if j :| 0 <= j < |now| && c in Losers(k, now[j]) {
      assert j < i ==> c in Losers(k, before[j]);
    }
    if j :| 0 <= j < |before| && c in Losers(k, before[j]) {
      assert c in Losers(k, now[j]);
    }
    if c in Losers(k, gs[i]) {
      assert c in Losers(k, now[i]);
    }
  }

  lemma NextWinnerMember(k: Kids, gs: seq<seq<int>>, i: nat, c: int)
    requires i < |gs| && forall j :: 0 <= j < |gs| ==> gs[j] != []
    ensures c in AllWinners(k, gs[..i + 1]) <==> c in AllWinners(k, gs[..i]) || c == Winner(k, gs[i])
  {
    hide Winner;
    var now, before := gs[..i + 1], gs[..i];
    if j :| 0 <= j < |now| && c == Winner(k, now[j]) {
      assert j < i ==> c == Winner(k, before[j]);
    }
    if j :| 0 <= j < |before| && c == Winner(k, before[j]) {
      assert c == Winner(k, now[j]);
    }
    if c == Winner(k, gs[i]) {
      assert c == Winner(k, now[i]);
    }
  }

  lemma NextUnion(k: Kids, gs: seq<seq<int>>, i: nat)
    requires i < |gs| && forall j :: 0 <= j < |gs| ==> gs[j] != []
    ensures AllLosers(k, gs[..i + 1]) == AllLosers(k, gs[..i]) + Elements(Losers(k, gs[i]))
    ensures AllWinners(k, gs[..i + 1]) == AllWinners(k, gs[..i]) + {Winner(k, gs[i])}
  {
    forall c
      ensures c in AllLosers(k, gs[..i + 1]) <==> c in AllLosers(k, gs[..i]) || c in Elements(Losers(k, gs[i]))
      ensures c in AllWinners(k, gs[..i + 1]) <==> c in AllWinners(k, gs[..i]) || c == Winner(k, gs[i])
    {
      NextLoserMember(k, gs, i, c);
      NextWinnerMember(k, gs, i, c);
    }
  }

  lemma NextLosers(k: Kids, cases: map<int, Case>, gs: seq<seq<int>>, i: nat)
    requires ValidGroups(cases, gs) && i < |gs| && Ascending(gs[i], IntLess)
    ensures AllLosers(k, gs[..i + 1]) == AllLosers(k, gs[..i]) + Elements(Losers(k, gs[i]))
    ensures AllWinners(k, gs[..i + 1]) == AllWinners(k, gs[..i]) + {Winner(k, gs[i])}
    ensures |AllLosers(k, gs[..i + 1])| == |AllLosers(k, gs[..i])| + |Losers(k, gs[i])|
  {
    NextUnion(k, gs, i);
    EarlierLosersApart(k, cases, gs, i);
    AscendingSize(Losers(k, gs[i]), IntLess);
    UnionSize(AllLosers(k, gs[..i]), Elements(Losers(k, gs[i])));
  }

  lemma EarlierLosersApart(k: Kids, cases: map<int, Case>, gs: seq<seq<int>>, i: nat)
    requires ValidGroups(cases, gs) && i < |gs|
    ensures AllLosers(k, gs[..i]) !! Elements(Losers(k, gs[i]))
  {
    forall c | c in AllLosers(k, gs[..i]) ensures c !in Elements(Losers(k, gs[i])) {
      var j :| 0 <= j < |gs[..i]| && c in Losers(k, gs[..i][j]);
      assert c in Elements(Losers(k, gs[j])) && Elements(gs[j]) !! Elements(gs[i]);
    }
  }

  lemma KeepSortedIdentities(s: set<Identity>, only: set<Identity>)
    ensures Keep(SortedIdentities(s), only) == SortedIdentities(s * only)
  {
    IdentityOrder();
    KeepSorted(s, only, IdentityLess);
  }
}
