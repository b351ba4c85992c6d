/**
 * The child tables column by column: which rows one merge, a group, a full run
 * and a history of batches delete, and what becomes of the others.
 */
module CaseMergeRows {
  import opened Options
  import opened Ordering
  import opened ChildTable
  import opened CaseTables
  import opened CaseMergeLinks
  import opened CaseMerge
  import opened CaseMergeSafety
  import opened CaseMergeBatches
  import opened CaseMergeParts
  import opened CaseMergeOrder
  import opened CaseMergeColumns

  // ----- when two rows of one case say the same, once the references `r` are followed

  predicate SameMovement(r: Redirects, a: Movement, b: Movement) {
    a.folio == b.folio && a.description == b.description
  }

  predicate SameText(r: Redirects, a: string, b: string) { a == b }

  predicate SameDeadline(r: Redirects, a: Deadline, b: Deadline) {
    a.deadlineType == b.deadlineType && a.triggeredAt == b.triggeredAt
  }

  /** Hash-less documents with a link, both links alike. */
  predicate SameDocument(r: Redirects, a: Document, b: Document) {
    && a.tokenHash == None && b.tokenHash == None && (a.movementId.Some? || a.escritoId.Some?)
    && Led(r.movements, a.movementId) == Led(r.movements, b.movementId)
    && Led(r.escritos, a.escritoId) == Led(r.escritos, b.escritoId)
  }

  predicate SameAlert(r: Redirects, a: Alert, b: Alert) {
    && a.lawyerId == b.lawyerId && a.kind == b.kind && a.message == b.message
    && Led(r.movements, a.movementId) == Led(r.movements, b.movementId)
  }

  /** Rows without an identity never say the same. */
  predicate NeverSame<D>(r: Redirects, a: D, b: D) { false }

  function NoLinks<D>(r: Redirects, d: D): D { d }

  /** Where a reference leads: to the row that replaces a collapsed one. */
  function Led(canon: map<int, int>, link: Option<int>): Option<int> {
    match link
    case None => None
    case Some(id) => Some(if id in canon then canon[id] else id)
  }

  function DocumentRefs(r: Redirects, d: Document): Document {
    Document(Led(r.movements, d.movementId), Led(r.escritos, d.escritoId), d.tokenHash)
  }

  function DeadlineLinks(r: Redirects, d: Deadline): Deadline {
    Deadline(d.deadlineType, d.triggeredAt, Led(r.movements, d.sourceMovementId), Led(r.movements, d.verdictMovementId))
  }

  function AlertLinks(r: Redirects, a: Alert): Alert {
    Alert(a.lawyerId, Led(r.movements, a.movementId), a.kind, a.message, a.entityId)
  }

  function HitoLinks(r: Redirects, h: Hito): Hito { Hito(Led(r.movements, h.movementId), h.estado) }

  // ----- each table collapses exactly such rows

  lemma ChainedLinks(a: Redirects, b: Redirects)
    requires Chained(a, b)
    ensures forall link :: Follow(b.movements, Follow(a.movements, link)) == Follow(Joined(a, b).movements, link)
    ensures forall link :: Follow(b.escritos, Follow(a.escritos, link)) == Follow(Joined(a, b).escritos, link)
  {
    FollowTwice(a.movements, b.movements);
    FollowTwice(a.escritos, b.escritos);
  }

  lemma UnlinkedIsSame<D>(t: Table<D>, r: Redirects)
    ensures Repointed(t, r, NoLinks) == t
  {
    RepointedNever(t, r, NoLinks);
  }

  lemma RepointedAlike<D, A, B>(t: Table<D>, a: A, f: (A, D) -> D, b: B, g: (B, D) -> D)
    requires forall d :: f(a, d) == g(b, d)
    ensures Repointed(t, a, f) == Repointed(t, b, g)
  {
    forall id | id in t ensures Repointed(t, a, f)[id] == Repointed(t, b, g)[id] {}
  }

  /** A table without references. */
  lemma UnlinkedCollapse<D(!new), K>(table: Kids -> Table<D>, key: D -> Option<K>, same: (Redirects, D, D) -> bool)
    requires forall k, l, w | l != w :: table(MergeKids(k, l, w)) == Merged(table(k), key, l, w)
    requires forall k, r :: table(Redirected(k, r)) == table(k)
    requires forall k, p :: table(KidsIn(k, p)) == RowsIn(table(k), p)
    requires forall r, a, b :: same(r, a, b) <==> key(a).Some? && key(a) == key(b)
    ensures Collapsing(table, key, NoLinks, same)
  {
    forall t: Table<D>, r: Redirects ensures Repointed(t, r, NoLinks) == t { UnlinkedIsSame(t, r); }
    hide Repointed, Merged, RowsIn, MergeKids, Redirected, KidsIn;
  }

  lemma MovementsCollapse()
    ensures Collapsing((k: Kids) => k.movements, MovementKey, NoLinks, SameMovement)
  {
    hide Repointed, Merged, RowsIn, Collapsing;
    UnlinkedCollapse((k: Kids) => k.movements, MovementKey, SameMovement);
  }

  lemma DeadlinesCollapse()
    ensures Collapsing((k: Kids) => k.deadlines, DeadlineKey, DeadlineLinks, SameDeadline)
  {
    forall a, b | Chained(a, b)
      ensures forall link :: Follow(b.movements, Follow(a.movements, link)) == Follow(Joined(a, b).movements, link) {
      ChainedLinks(a, b);
    }
    forall k, l, w | l != w ensures MergeKids(k, l, w).deadlines
      == Merged(Repointed(k.deadlines, PairRedirects(k, l, w), DeadlineLinks), DeadlineKey, l, w) {
      SettledIs(k, l, w);
      var r := PairRedirects(k, l, w);
      RepointedAlike(k.deadlines, r.movements, DeadlineMovements, r, DeadlineLinks);
    }
    forall k: Kids, r: Redirects ensures Redirected(k, r).deadlines == Repointed(k.deadlines, r, DeadlineLinks) {
      RepointedAlike(k.deadlines, r.movements, DeadlineMovements, r, DeadlineLinks);
    }
    hide Repointed, Merged, RowsIn, MergeKids, PairRedirects, Chained;
  }

  lemma DocumentsMerge(k: Kids, l: int, w: int)
    requires l != w
    ensures MergeKids(k, l, w).documents
      == Merged(Repointed(k.documents, PairRedirects(k, l, w), DocumentRefs), DocumentKey, l, w)
  {
    hide Repointed, Merged, DocumentKey, MovementKey, PairRedirects;
    SettledIs(k, l, w);
    DocumentsRedirected(k.documents, PairRedirects(k, l, w));
  }

  lemma DocumentsRedirected(t: Table<Document>, r: Redirects)
    ensures Repointed(t, r, DocumentLinks) == Repointed(t, r, DocumentRefs)
  {
    RepointedAlike(t, r, DocumentLinks, r, DocumentRefs);
  }

  lemma DocumentsFollow(a: Redirects, b: Redirects, d: Document)
    requires Chained(a, b)
    ensures DocumentRefs(b, DocumentRefs(a, d)) == DocumentRefs(Joined(a, b), d)
  {
    ChainedLinks(a, b);
    forall canon, link ensures Led(canon, link) == Follow(canon, link) {}
    hide Led, Follow, Joined, Chained;
  }

  lemma DocumentsSame(r: Redirects, a: Document, b: Document)
    ensures SameDocument(r, a, b) <==>
      DocumentKey(DocumentRefs(r, a)).Some? && DocumentKey(DocumentRefs(r, a)) == DocumentKey(DocumentRefs(r, b))
  {}

  lemma DocumentsRespect(r: Redirects)
    ensures Respects(DocumentKey, r, DocumentRefs)
  {}

  lemma DocumentsCollapse()
    ensures Collapsing((k: Kids) => k.documents, DocumentKey, DocumentRefs, SameDocument)
  {
    forall a, b, d | Chained(a, b) ensures DocumentRefs(b, DocumentRefs(a, d)) == DocumentRefs(Joined(a, b), d) {
      DocumentsFollow(a, b, d);
    }
    forall k, l, w | l != w ensures MergeKids(k, l, w).documents
      == Merged(Repointed(k.documents, PairRedirects(k, l, w), DocumentRefs), DocumentKey, l, w) {
      DocumentsMerge(k, l, w);
    }
    forall k: Kids, r: Redirects ensures Redirected(k, r).documents == Repointed(k.documents, r, DocumentRefs) {
      DocumentsRedirected(k.documents, r);
    }
    forall r, a, b ensures SameDocument(r, a, b) <==>
      DocumentKey(DocumentRefs(r, a)).Some? && DocumentKey(DocumentRefs(r, a)) == DocumentKey(DocumentRefs(r, b)) {
      DocumentsSame(r, a, b);
    }
    forall r ensures Respects(DocumentKey, r, DocumentRefs) {
      DocumentsRespect(r);
    }
    hide Repointed, Merged, RowsIn, MergeKids, PairRedirects, Chained, SameDocument, Respects, Joined, DocumentKey;
  }

  lemma AlertsCollapse()
    ensures Collapsing((k: Kids) => k.alerts, AlertKey, AlertLinks, SameAlert)
  {
    forall a, b | Chained(a, b)
      ensures forall link :: Follow(b.movements, Follow(a.movements, link)) == Follow(Joined(a, b).movements, link)
      ensures forall link :: Follow(b.escritos, Follow(a.escritos, link)) == Follow(Joined(a, b).escritos, link)
    {
      ChainedLinks(a, b);
    }
    forall k, l, w | l != w ensures MergeKids(k, l, w).alerts
      == Merged(Repointed(k.alerts, PairRedirects(k, l, w), AlertLinks), AlertKey, l, w) {
      SettledIs(k, l, w);
      RepointedAlike(k.alerts, PairRedirects(k, l, w).movements, AlertMovement, PairRedirects(k, l, w), AlertLinks);
    }
    forall k: Kids, r: Redirects ensures Redirected(k, r).alerts == Repointed(k.alerts, r, AlertLinks) {
      RepointedAlike(k.alerts, r.movements, AlertMovement, r, AlertLinks);
    }
    hide Repointed, Merged, RowsIn, MergeKids, PairRedirects, Chained;
  }

  lemma HitosCollapse()
    ensures Collapsing((k: Kids) => k.hitos, NoKey, HitoLinks, NeverSame)
  {
    forall a, b | Chained(a, b)
      ensures forall link :: Follow(b.movements, Follow(a.movements, link)) == Follow(Joined(a, b).movements, link)
      ensures forall link :: Follow(b.escritos, Follow(a.escritos, link)) == Follow(Joined(a, b).escritos, link)
    {
      ChainedLinks(a, b);
    }
    forall k, l, w | l != w ensures MergeKids(k, l, w).hitos
      == Merged(Repointed(k.hitos, PairRedirects(k, l, w), HitoLinks), NoKey, l, w) {
      SettledIs(k, l, w);
      RepointedAlike(k.hitos, PairRedirects(k, l, w).movements, HitoMovement, PairRedirects(k, l, w), HitoLinks);
    }
    forall k: Kids, r: Redirects ensures Redirected(k, r).hitos == Repointed(k.hitos, r, HitoLinks) {
      RepointedAlike(k.hitos, r.movements, HitoMovement, r, HitoLinks);
    }
    hide Repointed, Merged, RowsIn, MergeKids, PairRedirects, Chained;
  }

  lemma TextsCollapse()
    ensures Collapsing((k: Kids) => k.litigantes, NaturalKey, NoLinks, SameText)
    ensures Collapsing((k: Kids) => k.notificaciones, NaturalKey, NoLinks, SameText)
    ensures Collapsing((k: Kids) => k.escritos, NaturalKey, NoLinks, SameText)
    ensures Collapsing((k: Kids) => k.exhortos, NaturalKey, NoLinks, SameText)
    ensures Collapsing((k: Kids) => k.snapshots, NaturalKey, NoLinks, SameText)
  {
    hide Collapsing;
    LitigantesCollapse();
    NotificacionesCollapse();
    EscritosCollapse();
    ExhortosCollapse();
    SnapshotsCollapse();
  }

  lemma LitigantesCollapse()
    ensures Collapsing((k: Kids) => k.litigantes, NaturalKey, NoLinks, SameText)
  {
    hide Repointed, Merged, RowsIn, Collapsing;
    UnlinkedCollapse((k: Kids) => k.litigantes, NaturalKey, SameText);
  }

  lemma NotificacionesCollapse()
    ensures Collapsing((k: Kids) => k.notificaciones, NaturalKey, NoLinks, SameText)
  {
    hide Repointed, Merged, RowsIn, Collapsing;
    UnlinkedCollapse((k: Kids) => k.notificaciones, NaturalKey, SameText);
  }

  lemma EscritosCollapse()
    ensures Collapsing((k: Kids) => k.escritos, NaturalKey, NoLinks, SameText)
  {
    hide Repointed, Merged, RowsIn, Collapsing;
    UnlinkedCollapse((k: Kids) => k.escritos, NaturalKey, SameText);
  }

  lemma ExhortosCollapse()
    ensures Collapsing((k: Kids) => k.exhortos, NaturalKey, NoLinks, SameText)
  {
    hide Repointed, Merged, RowsIn, Collapsing;
    UnlinkedCollapse((k: Kids) => k.exhortos, NaturalKey, SameText);
  }

  lemma SnapshotsCollapse()
    ensures Collapsing((k: Kids) => k.snapshots, NaturalKey, NoLinks, SameText)
  {
    hide Repointed, Merged, RowsIn, Collapsing;
    UnlinkedCollapse((k: Kids) => k.snapshots, NaturalKey, SameText);
  }

  lemma PlainsCollapse()
    ensures Collapsing((k: Kids) => k.liberaciones, NoKey, NoLinks, NeverSame)
    ensures Collapsing((k: Kids) => k.generados, NoKey, NoLinks, NeverSame)
  {
    hide Repointed, Merged, RowsIn, Collapsing;
    UnlinkedCollapse((k: Kids) => k.liberaciones, NoKey, NeverSame);
    UnlinkedCollapse((k: Kids) => k.generados, NoKey, NeverSame);
  }

  // ----- one merge

  /** Row `e` repeats in table `t` what a loser's row `id` says, and is visited before it. */
  ghost predicate Repeats<D>(t: Table<D>, same: (Redirects, D, D) -> bool, r: Redirects, l: int, w: int, e: int,
                              id: int) {
    && e in t && id in t && t[id].caseId == Some(l) && (t[e].caseId == Some(w) || (t[e].caseId == Some(l) && e < id))
    && same(r, t[e].data, t[id].data)
  }

  /** A merge deletes exactly the loser's rows that repeat one visited before, and moves the others. */
  ghost predicate PairAccounted<D>(before: Table<D>, after: Table<D>, same: (Redirects, D, D) -> bool,
                                   follow: (Redirects, D) -> D, r: Redirects, l: int, w: int) {
    && after.Keys <= before.Keys
    && forall id :: id in before ==>
      && (id !in after <==> exists e :: Repeats(before, same, r, l, w, e, id))
      && (id in after ==>
          after[id] == Row(if before[id].caseId == Some(l) then Some(w) else before[id].caseId,
                           follow(r, before[id].data)))
  }

  lemma RepeatsIff<D>(t: Table<D>, same: (Redirects, D, D) -> bool, r: Redirects, l: int, w: int, id: int)
    requires id in t
    ensures (exists e :: Repeats(t, same, r, l, w, e, id)) <==>
      exists e :: VisitedBefore(t, [l], w, 0, e, id) && same(r, t[e].data, t[id].data)
  {
    if e :| Repeats(t, same, r, l, w, e, id) {
      assert VisitedBefore(t, [l], w, 0, e, id) && same(r, t[e].data, t[id].data);
    }
    if e :| VisitedBefore(t, [l], w, 0, e, id) && same(r, t[e].data, t[id].data) {
      assert Repeats(t, same, r, l, w, e, id);
    }
  }

  lemma PairRows<D(!new), K>(k: Kids, l: int, w: int, table: Kids -> Table<D>, key: D -> Option<K>,
                             follow: (Redirects, D) -> D, same: (Redirects, D, D) -> bool)
    requires Collapsing(table, key, follow, same) && l != w
    ensures PairAccounted(table(k), table(MergeKids(k, l, w)), same, follow, PairRedirects(k, l, w), l, w)
  {
    var t, m, r := table(k), table(MergeKids(k, l, w)), PairRedirects(k, l, w);
    hide Collapsing, MergeKids, PairRedirects, VisitedBefore, Repeats;
    KeysShrink(k, l, w, table, key, follow, same);
    forall id | id in t
      ensures id !in m <==> exists e :: Repeats(t, same, r, l, w, e, id)
      ensures id in m ==> m[id] == Row(if t[id].caseId == Some(l) then Some(w) else t[id].caseId, follow(r, t[id].data))
    {
      PairGone(k, l, w, table, key, follow, same, id);
      RepeatsIff(t, same, r, l, w, id);
    }
  }

  /** All tables but the lawyer sources, through one merge, column by column. */
  lemma MergeRows(k: Kids, l: int, w: int)
    requires l != w
    ensures
      var m, r := MergeKids(k, l, w), PairRedirects(k, l, w);
      && PairAccounted(k.movements, m.movements, SameMovement, NoLinks, r, l, w)
      && PairAccounted(k.documents, m.documents, SameDocument, DocumentRefs, r, l, w)
      && PairAccounted(k.litigantes, m.litigantes, SameText, NoLinks, r, l, w)
      && PairAccounted(k.notificaciones, m.notificaciones, SameText, NoLinks, r, l, w)
      && PairAccounted(k.escritos, m.escritos, SameText, NoLinks, r, l, w)
      && PairAccounted(k.exhortos, m.exhortos, SameText, NoLinks, r, l, w)
      && PairAccounted(k.deadlines, m.deadlines, SameDeadline, DeadlineLinks, r, l, w)
      && PairAccounted(k.alerts, m.alerts, SameAlert, AlertLinks, r, l, w)
      && PairAccounted(k.snapshots, m.snapshots, SameText, NoLinks, r, l, w)
      && PairAccounted(k.hitos, m.hitos, NeverSame, HitoLinks, r, l, w)
      && PairAccounted(k.liberaciones, m.liberaciones, NeverSame, NoLinks, r, l, w)
      && PairAccounted(k.generados, m.generados, NeverSame, NoLinks, r, l, w)
  {
    MovementsCollapse();
    DocumentsCollapse();
    TextsCollapse();
    DeadlinesCollapse();
    AlertsCollapse();
    HitosCollapse();
    PlainsCollapse();
    hide Collapsing, MergeKids, PairRedirects, PairAccounted;
    PairRows(k, l, w, (k: Kids) => k.movements, MovementKey, NoLinks, SameMovement);
    PairRows(k, l, w, (k: Kids) => k.documents, DocumentKey, DocumentRefs, SameDocument);
    PairRows(k, l, w, (k: Kids) => k.litigantes, NaturalKey, NoLinks, SameText);
    PairRows(k, l, w, (k: Kids) => k.notificaciones, NaturalKey, NoLinks, SameText);
    PairRows(k, l, w, (k: Kids) => k.escritos, NaturalKey, NoLinks, SameText);
    PairRows(k, l, w, (k: Kids) => k.exhortos, NaturalKey, NoLinks, SameText);
    PairRows(k, l, w, (k: Kids) => k.deadlines, DeadlineKey, DeadlineLinks, SameDeadline);
    PairRows(k, l, w, (k: Kids) => k.alerts, AlertKey, AlertLinks, SameAlert);
    PairRows(k, l, w, (k: Kids) => k.snapshots, NaturalKey, NoLinks, SameText);
    PairRows(k, l, w, (k: Kids) => k.hitos, NoKey, HitoLinks, NeverSame);
    PairRows(k, l, w, (k: Kids) => k.liberaciones, NoKey, NoLinks, NeverSame);
    PairRows(k, l, w, (k: Kids) => k.generados, NoKey, NoLinks, NeverSame);
  }

  // ----- a group

  /**
   * A group deletes exactly the rows of losers that repeat one visited before
   * them once the references are followed as far as then; the others go to the
   * winner; and every deleted row is stood for by one of the winner that says
   * the same.
   */
  ghost predicate GroupAccounted<D>(k: Kids, before: Table<D>, after: Table<D>, same: (Redirects, D, D) -> bool,
                                    follow: (Redirects, D) -> D, losers: seq<int>, winner: int)
    requires winner !in losers
  {
    var r := GroupRedirects(k, losers, winner);
    && after.Keys <= before.Keys
    && forall id :: id in before ==>
      && (id !in after <==>
          exists n: nat, e :: n < |losers| && Repeated(k, before, same, losers, winner, n, e, id))
      && (id in after ==>
          after[id] == Row(if before[id].caseId.Some? && before[id].caseId.value in losers then Some(winner)
                           else before[id].caseId, follow(r, before[id].data)))
      && (id !in after ==> exists c :: StandsFor(before, after, same, r, winner, c, id))
  }

  ghost predicate StandsFor<D>(before: Table<D>, after: Table<D>, same: (Redirects, D, D) -> bool, r: Redirects,
                               winner: int, c: int, id: int)
    requires id in before
  {
    c in before && c in after && after[c].caseId == Some(winner) && same(r, before[c].data, before[id].data)
  }

  lemma {:induction false} KeysStayIn<D(!new), K>(k: Kids, losers: seq<int>, winner: int, table: Kids -> Table<D>,
                                                  key: D -> Option<K>, follow: (Redirects, D) -> D,
                                                  same: (Redirects, D, D) -> bool)
    requires Collapsing(table, key, follow, same) && winner !in losers
    ensures table(MergeAllKids(k, losers, winner)).Keys <= table(k).Keys
  {
    hide Collapsing, MergeAllKids;
    forall id | id in table(MergeAllKids(k, losers, winner)) ensures id in table(k) {
      if id !in table(k) {
        StaysGone(k, losers, winner, table, key, follow, same, id);
      }
    }
  }

  lemma GroupRows<D(!new), K>(k: Kids, losers: seq<int>, winner: int, table: Kids -> Table<D>, key: D -> Option<K>,
                              follow: (Redirects, D) -> D, same: (Redirects, D, D) -> bool)
    requires Collapsing(table, key, follow, same) && winner !in losers && Distinct(losers)
    ensures GroupAccounted(k, table(k), table(MergeAllKids(k, losers, winner)), same, follow, losers, winner)
  {
    var t, m, r := table(k), table(MergeAllKids(k, losers, winner)), GroupRedirects(k, losers, winner);
    hide Collapsing, MergeAllKids, GroupRedirects, Repeated;
    KeysStayIn(k, losers, winner, table, key, follow, same);
    forall id | id in t
      ensures id !in m <==> exists n: nat, e :: n < |losers| && Repeated(k, t, same, losers, winner, n, e, id)
      ensures id in m ==>
        m[id] == Row(if t[id].caseId.Some? && t[id].caseId.value in losers then Some(winner) else t[id].caseId,
                     follow(r, t[id].data))
      ensures id !in m ==> exists c :: StandsFor(t, m, same, r, winner, c, id)
    {
      GoneIff(k, losers, winner, table, key, follow, same, id);
      if id in m {
        StayingRow(k, losers, winner, table, key, follow, same, id);
      } else {
        var c := StandIn(k, losers, winner, table, key, follow, same, id);
        assert StandsFor(t, m, same, r, winner, c, id);
      }
    }
  }

  /** All tables but the lawyer sources, through a group, column by column. */
  lemma MergeGroupRows(k: Kids, losers: seq<int>, winner: int)
    requires winner !in losers && Distinct(losers)
    ensures
      var m := MergeAllKids(k, losers, winner);
      && GroupAccounted(k, k.movements, m.movements, SameMovement, NoLinks, losers, winner)
      && GroupAccounted(k, k.documents, m.documents, SameDocument, DocumentRefs, losers, winner)
      && GroupAccounted(k, k.litigantes, m.litigantes, SameText, NoLinks, losers, winner)
      && GroupAccounted(k, k.notificaciones, m.notificaciones, SameText, NoLinks, losers, winner)
      && GroupAccounted(k, k.escritos, m.escritos, SameText, NoLinks, losers, winner)
      && GroupAccounted(k, k.exhortos, m.exhortos, SameText, NoLinks, losers, winner)
      && GroupAccounted(k, k.deadlines, m.deadlines, SameDeadline, DeadlineLinks, losers, winner)
      && GroupAccounted(k, k.alerts, m.alerts, SameAlert, AlertLinks, losers, winner)
      && GroupAccounted(k, k.snapshots, m.snapshots, SameText, NoLinks, losers, winner)
      && GroupAccounted(k, k.hitos, m.hitos, NeverSame, HitoLinks, losers, winner)
      && GroupAccounted(k, k.liberaciones, m.liberaciones, NeverSame, NoLinks, losers, winner)
      && GroupAccounted(k, k.generados, m.generados, NeverSame, NoLinks, losers, winner)
  {
    MovementsCollapse();
    DocumentsCollapse();
    TextsCollapse();
    DeadlinesCollapse();
    AlertsCollapse();
    HitosCollapse();
    PlainsCollapse();
    hide Collapsing, MergeAllKids, GroupAccounted;
    GroupRows(k, losers, winner, (k: Kids) => k.movements, MovementKey, NoLinks, SameMovement);
    GroupRows(k, losers, winner, (k: Kids) => k.documents, DocumentKey, DocumentRefs, SameDocument);
    GroupRows(k, losers, winner, (k: Kids) => k.litigantes, NaturalKey, NoLinks, SameText);
    GroupRows(k, losers, winner, (k: Kids) => k.notificaciones, NaturalKey, NoLinks, SameText);
    GroupRows(k, losers, winner, (k: Kids) => k.escritos, NaturalKey, NoLinks, SameText);
    GroupRows(k, losers, winner, (k: Kids) => k.exhortos, NaturalKey, NoLinks, SameText);
    GroupRows(k, losers, winner, (k: Kids) => k.deadlines, DeadlineKey, DeadlineLinks, SameDeadline);
    GroupRows(k, losers, winner, (k: Kids) => k.alerts, AlertKey, AlertLinks, SameAlert);
    GroupRows(k, losers, winner, (k: Kids) => k.snapshots, NaturalKey, NoLinks, SameText);
    GroupRows(k, losers, winner, (k: Kids) => k.hitos, NoKey, HitoLinks, NeverSame);
    GroupRows(k, losers, winner, (k: Kids) => k.liberaciones, NoKey, NoLinks, NeverSame);
    GroupRows(k, losers, winner, (k: Kids) => k.generados, NoKey, NoLinks, NeverSame);
  }

  // ----- whole runs

  /**
   * With the groups of `db` merged: a row is deleted exactly when it repeats
   * one of its group visited before it, once the references to earlier groups
   * and to the losers so far are followed; any other row keeps its columns,
   * references followed, and is with the winner of its group; and a deleted row
   * is stood for by one there that says the same.
   */
  ghost predicate RunAccounted<D>(db: Db, before: Table<D>, after: Table<D>, same: (Redirects, D, D) -> bool,
                                  follow: (Redirects, D) -> D)
    requires NonEmpty(AllGroups(db))
  {
    && after.Keys <= before.Keys
    && forall id :: id in before ==> RowAccounted(db, before, after, same, follow, id)
  }

  ghost predicate RowAccounted<D>(db: Db, before: Table<D>, after: Table<D>, same: (Redirects, D, D) -> bool,
                                  follow: (Redirects, D) -> D, id: int)
    requires NonEmpty(AllGroups(db)) && id in before
  {
    var gs := AllGroups(db);
    var r := RunRedirects(db.kids, gs);
    && (id !in after <==> RunGone(db.kids, before, same, gs, id))
    && (id in after ==>
        after[id].data == follow(r, before[id].data) && GoesTo(db.kids, gs, before[id].caseId, after[id].caseId))
    && (id !in after ==> exists c :: RunStandsFor(db.kids, gs, before, after, same, r, c, id))
  }

  ghost predicate RunStandsFor<D>(k: Kids, gs: seq<seq<int>>, before: Table<D>, after: Table<D>,
                                  same: (Redirects, D, D) -> bool, r: Redirects, c: int, id: int)
    requires NonEmpty(gs) && id in before
  {
    && c in before && c in after && GoesTo(k, gs, before[id].caseId, after[c].caseId)
    && same(r, before[c].data, before[id].data)
  }

  lemma RunRows<D(!new), K>(db: Db, table: Kids -> Table<D>, key: D -> Option<K>, follow: (Redirects, D) -> D,
                            same: (Redirects, D, D) -> bool)
    requires Collapsing(table, key, follow, same) && ValidGroups(db.cases, AllGroups(db)) && AllAscending(AllGroups(db))
    ensures NonEmpty(AllGroups(db))
    ensures RunAccounted(db, table(db.kids), table(MergeGroups(db, AllGroups(db)).kids), same, follow)
  {
    var gs := AllGroups(db);
    ValidNonEmpty(db.cases, gs);
    var t, m := table(db.kids), table(MergeGroups(db, gs).kids);
    hide Collapsing, MergeGroups, AllGroups, RowAccounted, ValidGroups, AllAscending;
    forall id | id in m ensures id in t {
      EmptyApart(gs);
      RunOwner(db, gs, table, key, follow, same, {}, id);
    }
    forall id | id in t ensures RowAccounted(db, t, m, same, follow, id) {
      RunRow(db, table, key, follow, same, id);
    }
  }

  lemma RunRow<D(!new), K>(db: Db, table: Kids -> Table<D>, key: D -> Option<K>, follow: (Redirects, D) -> D,
                           same: (Redirects, D, D) -> bool, id: int)
    requires Collapsing(table, key, follow, same) && ValidGroups(db.cases, AllGroups(db)) && AllAscending(AllGroups(db))
    requires id in table(db.kids) && NonEmpty(AllGroups(db))
    ensures RowAccounted(db, table(db.kids), table(MergeGroups(db, AllGroups(db)).kids), same, follow, id)
  {
    var gs := AllGroups(db);
    var t, m, r := table(db.kids), table(MergeGroups(db, gs).kids), RunRedirects(db.kids, gs);
    hide Collapsing, MergeGroups, AllGroups, RunRedirects, RunGone, GoesTo, Members, ValidGroups, AllAscending;
    RunGoneExactly(db, gs, table, key, follow, same, id);
    if id in m {
      RunStayingRow(db, gs, table, key, follow, same, id);
    } else {
      var c := RunStandIn(db, gs, table, key, follow, same, id);
      assert RunStandsFor(db.kids, gs, t, m, same, r, c, id);
    }
  }

  lemma EmptyApart(gs: seq<seq<int>>)
    ensures forall i :: 0 <= i < |gs| ==> Elements(gs[i]) <= {} || Elements(gs[i]) !! {}
  {}

  /** All tables but the lawyer sources, column by column, against those of `db`. */
  ghost predicate AllRowsAccounted(db: Db, m: Kids) {
    && NonEmpty(AllGroups(db))
    && RunAccounted(db, db.kids.movements, m.movements, SameMovement, NoLinks)
    && RunAccounted(db, db.kids.documents, m.documents, SameDocument, DocumentRefs)
    && RunAccounted(db, db.kids.litigantes, m.litigantes, SameText, NoLinks)
    && RunAccounted(db, db.kids.notificaciones, m.notificaciones, SameText, NoLinks)
    && RunAccounted(db, db.kids.escritos, m.escritos, SameText, NoLinks)
    && RunAccounted(db, db.kids.exhortos, m.exhortos, SameText, NoLinks)
    && RunAccounted(db, db.kids.deadlines, m.deadlines, SameDeadline, DeadlineLinks)
    && RunAccounted(db, db.kids.alerts, m.alerts, SameAlert, AlertLinks)
    && RunAccounted(db, db.kids.snapshots, m.snapshots, SameText, NoLinks)
    && RunAccounted(db, db.kids.hitos, m.hitos, NeverSame, HitoLinks)
    && RunAccounted(db, db.kids.liberaciones, m.liberaciones, NeverSame, NoLinks)
    && RunAccounted(db, db.kids.generados, m.generados, NeverSame, NoLinks)
  }

  lemma AllMergedRows(db: Db, firm: int)
    ensures AllRowsAccounted(db, AllMerged(db, firm).kids)
  {
    var gs := AllGroups(db);
    GroupsAreValid(db.cases, SortedIdentities(DuplicateIdentities(db.cases)));
    assert AllMerged(db, firm).kids == MergeGroups(db, gs).kids;
    assert AllAscending(gs);
    MovementsCollapse();
    DocumentsCollapse();
    TextsCollapse();
    DeadlinesCollapse();
    AlertsCollapse();
    HitosCollapse();
    PlainsCollapse();
    hide Collapsing, MergeGroups, AllGroups, RunAccounted, AllMerged, ValidGroups, AllAscending;
    RunRows(db, (k: Kids) => k.movements, MovementKey, NoLinks, SameMovement);
    RunRows(db, (k: Kids) => k.documents, DocumentKey, DocumentRefs, SameDocument);
    RunRows(db, (k: Kids) => k.litigantes, NaturalKey, NoLinks, SameText);
    RunRows(db, (k: Kids) => k.notificaciones, NaturalKey, NoLinks, SameText);
    RunRows(db, (k: Kids) => k.escritos, NaturalKey, NoLinks, SameText);
    RunRows(db, (k: Kids) => k.exhortos, NaturalKey, NoLinks, SameText);
    RunRows(db, (k: Kids) => k.deadlines, DeadlineKey, DeadlineLinks, SameDeadline);
    RunRows(db, (k: Kids) => k.alerts, AlertKey, AlertLinks, SameAlert);
    RunRows(db, (k: Kids) => k.snapshots, NaturalKey, NoLinks, SameText);
    RunRows(db, (k: Kids) => k.hitos, NoKey, HitoLinks, NeverSame);
    RunRows(db, (k: Kids) => k.liberaciones, NoKey, NoLinks, NeverSame);
    RunRows(db, (k: Kids) => k.generados, NoKey, NoLinks, NeverSame);
  }

  /** What a full run deletes, moves and keeps of the child rows. */
  lemma FullRows(db: Db, firm: int)
    requires WellFormed(db) && NonCivilApart(db.cases)
    ensures AllRowsAccounted(db, Full(db, firm).kids)
  {
    hide AllRowsAccounted, AllMerged, Full, WellFormed, NonCivilApart;
    FullIsAll(db, firm);
    AllMergedRows(db, firm);
  }

  /** And any history of batches that merges everything. */
  lemma HistoryRows(db: Db, firm: int, steps: seq<Step>)
    requires WellFormed(db) && DuplicateIdentities(History(db, firm, steps).cases) == {}
    ensures AllRowsAccounted(db, History(db, firm, steps).kids)
  {
    hide AllRowsAccounted, AllMerged, WellFormed, DuplicateIdentities, History;
    HistoryMergesAll(db, firm, steps);
    AllMergedRows(db, firm);
  }
}
