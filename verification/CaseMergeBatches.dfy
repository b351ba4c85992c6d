/**
 * Batched, resumed and rolled-back runs against one unbatched run: whatever
 * the history of batches, a final full run leaves the same database.
 */
module CaseMergeBatches {
  import opened Options
  import opened Ordering
  import opened CaseTables
  import opened CaseMerge
  import opened CaseMergeSafety
  import opened CaseMergeRun

  // ----- the fold over the groups splits, and reads only the cases of its groups

  lemma {:induction false} MergeGroupsSplit(db: Db, gs: seq<seq<int>>, n: nat)
    requires ValidGroups(db.cases, gs) && n <= |gs|
    ensures ValidGroups(db.cases, gs[..n]) && ValidGroups(db.cases, gs[n..])
    ensures MergeGroups(db, gs) == MergeGroups(MergeGroups(db, gs[..n]), gs[n..])
    decreases n
  {
    hide MergeGroup;
    if n == 0 {
      assert gs[0..] == gs;
    } else {
      var next := FirstGroup(db, gs);
      MergeGroupsSplit(next, gs[1..], n - 1);
      assert gs[1..][..n - 1] == gs[..n][1..] && gs[1..][n - 1..] == gs[n..];
      var also := FirstGroup(db, gs[..n]);
    }
  }

  /** Equal up to the `cases` table, which agrees on the cases of `cs`. */
  ghost predicate SameBut(a: Db, b: Db, cs: set<int>) {
    && a.kids == b.kids && a.sources == b.sources && a.audit == b.audit
    && cs <= a.cases.Keys && cs <= b.cases.Keys
    && forall c :: c in cs ==> a.cases[c] == b.cases[c]
  }

  lemma {:induction false} MergeLosersSame(a: Db, b: Db, losers: seq<int>, winner: int)
    requires winner !in losers && SameBut(a, b, {})
    ensures SameBut(MergeLosers(a, losers, winner), MergeLosers(b, losers, winner), {})
    decreases |losers|
  {
    if losers != [] {
      MergeLosersSame(MergePair(a, losers[0], winner), MergePair(b, losers[0], winner), losers[1..], winner);
    }
  }

  lemma MergeGroupSame(a: Db, b: Db, g: seq<int>)
    requires ValidGroup(a.cases, g) && ValidGroup(b.cases, g) && SameBut(a, b, Elements(g))
    ensures SameBut(MergeGroup(a, g), MergeGroup(b, g), {})
  {
    var w, ls := Winner(a.kids, g), Losers(a.kids, g);
    assert BackfillSources(a, g, w) == BackfillSources(b, g, w) by {
      forall i | 0 <= i < |g| ensures SourceOf(a.cases, g, w, i) == SourceOf(b.cases, g, w, i) {
        assert g[i] in Elements(g);
      }
    }
    forall i | 0 <= i < |ls| ensures ls[i] in a.cases && ls[i] in b.cases && a.cases[ls[i]] == b.cases[ls[i]] {
      assert ls[i] in Elements(ls);
    }
    assert AuditRows(a.cases, ls, w) == AuditRows(b.cases, ls, w);
    assert w !in Elements(ls);
    MergeLosersSame(Prepared(a, g), Prepared(b, g), ls, w);
  }

  ghost function Members(gs: seq<seq<int>>): set<int> {
    set i, c | 0 <= i < |gs| && c in gs[i] :: c
  }

  lemma MembersCons(gs: seq<seq<int>>)
    requires gs != []
    ensures Elements(gs[0]) <= Members(gs) && Members(gs[1..]) <= Members(gs)
  {
    forall c | c in Elements(gs[0]) ensures c in Members(gs) {
      assert 0 <= 0 < |gs| && c in gs[0];
    }
    forall c | c in Members(gs[1..]) ensures c in Members(gs) {
      var i :| 0 <= i < |gs[1..]| && c in gs[1..][i];
      assert c in gs[i + 1];
    }
  }

  lemma {:induction false} MergeGroupsSame(a: Db, b: Db, gs: seq<seq<int>>)
    requires ValidGroups(a.cases, gs) && ValidGroups(b.cases, gs) && SameBut(a, b, Members(gs))
    ensures SameBut(MergeGroups(a, gs), MergeGroups(b, gs), {})
    decreases |gs|
  {
    if gs != [] {
      MembersCons(gs);
      MergeGroupSame(a, b, gs[0]);
      var a' := FirstGroup(a, gs);
      var b' := FirstGroup(b, gs);
      MergeGroupsSame(a', b', gs[1..]);
    }
  }

  /** Merging groups cannot change who wins in a group disjoint from them. */
  lemma {:induction false} MergeGroupsElsewhere(db: Db, gs: seq<seq<int>>, other: seq<int>)
    requires ValidGroups(db.cases, gs) && other != []
    requires forall i :: 0 <= i < |gs| ==> Elements(gs[i]) !! Elements(other)
    ensures Winner(MergeGroups(db, gs).kids, other) == Winner(db.kids, other)
    ensures forall c :: c in Elements(other) ==> SameRows(db.kids, MergeGroups(db, gs).kids, c)
    decreases |gs|
  {
    if gs != [] {
      MergeGroupElsewhere(db, gs[0], other);
      var next := FirstGroup(db, gs);
      MergeGroupsElsewhere(next, gs[1..], other);
    }
  }

  // ----- one batch, then a full run

  /** The database after a successful run over `ids`. */
  ghost function After(db: Db, firm: int, ids: seq<Identity>, batched: bool): Db
    requires ValidGroups(db.cases, GroupsOf(db.cases, ids))
  {
    MergeGroups(db, GroupsOf(db.cases, ids)).(cases := CasesAfter(db, firm, Elements(ids), batched))
  }

  lemma PrefixSelection(cases: map<int, Case>, n: nat)
    requires n <= |SortedIdentities(DuplicateIdentities(cases))|
    ensures
      var all := SortedIdentities(DuplicateIdentities(cases));
      && DuplicateSelection(cases, all) && DuplicateSelection(cases, all[..n]) && DuplicateSelection(cases, all[n..])
      && Elements(all[..n]) + Elements(all[n..]) == DuplicateIdentities(cases)
      && Elements(all[..n]) !! Elements(all[n..])
      && all[n..] == SortedIdentities(DuplicateIdentities(cases) - Elements(all[..n]))
  {
    IdentityOrder();
    SortedSplit(DuplicateIdentities(cases), n, IdentityLess);
  }

  /** The groups left to the next run are the ones it would have had anyway, with the same winners. */
  lemma LaterGroupsKept(db: Db, firm: int, n: nat)
    requires n <= |SortedIdentities(DuplicateIdentities(db.cases))|
    requires DuplicateSelection(db.cases, SortedIdentities(DuplicateIdentities(db.cases))[..n])
    requires ValidGroups(db.cases, GroupsOf(db.cases, SortedIdentities(DuplicateIdentities(db.cases))[..n]))
    ensures
      var all := SortedIdentities(DuplicateIdentities(db.cases));
      var db1 := After(db, firm, all[..n], true);
      && DuplicateIdentities(db1.cases) == Elements(all[n..])
      && SortedIdentities(DuplicateIdentities(db1.cases)) == all[n..]
      && (forall id :: id in Elements(all[n..]) ==>
          Group(db1.cases, id) == Group(db.cases, id) && WinnerOf(db1, id) == WinnerOf(db, id))
  {
    var all := SortedIdentities(DuplicateIdentities(db.cases));
    var done := Elements(all[..n]);
    PrefixSelection(db.cases, n);
    DuplicatesAfterDelete(db, done);
    ReownGroups(Survivors(db, done), Scope(db, done, true), firm);
    forall id | id in Elements(all[n..])
      ensures
        var db1 := After(db, firm, all[..n], true);
        Group(db1.cases, id) == Group(db.cases, id) && WinnerOf(db1, id) == WinnerOf(db, id)
    {
      LaterGroupKept(db, firm, all[..n], id);
    }
  }

  lemma LaterGroupKept(db: Db, firm: int, ids: seq<Identity>, id: Identity)
    requires DuplicateSelection(db.cases, ids) && ValidGroups(db.cases, GroupsOf(db.cases, ids))
    requires id !in Elements(ids)
    ensures Group(After(db, firm, ids, true).cases, id) == Group(db.cases, id)
    ensures WinnerOf(After(db, firm, ids, true), id) == WinnerOf(db, id)
  {
    GroupAfterDelete(db, Elements(ids), id);
    ReownGroup(Survivors(db, Elements(ids)), Scope(db, Elements(ids), true), firm, id);
    if Group(db.cases, id) != {} {
      var c := SomeElement(Group(db.cases, id));
      assert GroupIds(db.cases, id) != [] by { assert c in Elements(GroupIds(db.cases, id)); }
      MergeGroupsElsewhere(db, GroupsOf(db.cases, ids), GroupIds(db.cases, id));
    }
  }

  lemma GroupsAgree(a: map<int, Case>, b: map<int, Case>, ids: seq<Identity>)
    requires forall id :: id in Elements(ids) ==> Group(a, id) == Group(b, id)
    ensures GroupsOf(a, ids) == GroupsOf(b, ids)
  {
    forall i | 0 <= i < |ids| ensures GroupIds(a, ids[i]) == GroupIds(b, ids[i]) {
      assert ids[i] in Elements(ids);
    }
  }

  lemma GroupsOfSlice(cases: map<int, Case>, ids: seq<Identity>, n: nat)
    requires n <= |ids|
    ensures GroupsOf(cases, ids)[..n] == GroupsOf(cases, ids[..n])
      && GroupsOf(cases, ids)[n..] == GroupsOf(cases, ids[n..])
  {}

  /** Case by case, two stages keep what one stage keeps. */
  lemma CasesInTwoStages(db: Db, db1: Db, firm: int, done: set<Identity>, rest: set<Identity>)
    requires db1.cases == CasesAfter(db, firm, done, true) && done !! rest
    requires forall id :: id in rest ==> WinnerOf(db1, id) == WinnerOf(db, id)
    ensures CasesAfter(db1, firm, rest, false) == CasesAfter(db, firm, done + rest, false)
  {
    var two, one := CasesAfter(db1, firm, rest, false), CasesAfter(db, firm, done + rest, false);
    forall c ensures c in two <==> c in one {
      assert c in db1.cases <==> Kept(db, done, c);
      assert c in two <==> Kept(db1, rest, c);
      assert c in one <==> Kept(db, done + rest, c);
    }
    forall c | c in two ensures two[c] == one[c] {
      assert Kept(db1, rest, c) && Kept(db, done + rest, c);
    }
  }

  lemma MembersCases(db: Db, ids: seq<Identity>, c: int)
    requires c in Members(GroupsOf(db.cases, ids))
    ensures c in db.cases && Civil(db.cases[c]) && IdentityOf(db.cases[c]) in Elements(ids)
  {
    var i :| 0 <= i < |ids| && c in GroupsOf(db.cases, ids)[i];
    assert c in Elements(GroupIds(db.cases, ids[i]));
    assert ids[i] in Elements(ids);
  }

  /** Merging in two transactions equals merging in one. */
  lemma KidsInTwoStages(db: Db, db1: Db, gs: seq<seq<int>>, n: nat)
    requires ValidGroups(db.cases, gs) && n <= |gs| && ValidGroups(db.cases, gs[..n]) && ValidGroups(db1.cases, gs[n..])
    requires SameBut(db1, MergeGroups(db, gs[..n]), Members(gs[n..]))
    ensures SameBut(MergeGroups(db1, gs[n..]), MergeGroups(db, gs), {})
  {
    MergeGroupsSplit(db, gs, n);
    MergeGroupsSame(db1, MergeGroups(db, gs[..n]), gs[n..]);
  }

  /** What is left of a batch is, for the groups still to come, the merge without delete and re-own. */
  lemma LaterCasesKept(db: Db, firm: int, ids: seq<Identity>, later: seq<Identity>)
    requires ValidGroups(db.cases, GroupsOf(db.cases, ids))
    requires Elements(ids) <= DuplicateIdentities(db.cases) && Elements(ids) !! Elements(later)
    ensures SameBut(After(db, firm, ids, true), MergeGroups(db, GroupsOf(db.cases, ids)),
      Members(GroupsOf(db.cases, later)))
  {
    var cases := CasesAfter(db, firm, Elements(ids), true);
    forall c | c in Members(GroupsOf(db.cases, later)) ensures c in db.cases && c in cases && cases[c] == db.cases[c] {
      MembersCases(db, later, c);
      NotInScope(db, Elements(ids), c);
    }
  }

  lemma NotInScope(db: Db, sel: set<Identity>, c: int)
    requires sel <= DuplicateIdentities(db.cases) && c in db.cases && IdentityOf(db.cases[c]) !in sel
    ensures c !in Scope(db, sel, true)
  {
    if c in Scope(db, sel, true) {
      var id :| id in sel && c == WinnerOf(db, id);
      DuplicateIff(db.cases, id);
      assert Group(db.cases, id) != {};
      WinnerInGroup(db, id);
    }
  }

  /** A successful batch followed by a full run leaves exactly what the full run alone leaves. */
  lemma BatchThenFull(db: Db, firm: int, n: nat)
    requires n <= |SortedIdentities(DuplicateIdentities(db.cases))|
    ensures
      var all := SortedIdentities(DuplicateIdentities(db.cases));
      && ValidGroups(db.cases, GroupsOf(db.cases, all)) && ValidGroups(db.cases, GroupsOf(db.cases, all[..n]))
      && var db1 := After(db, firm, all[..n], true);
      && SortedIdentities(DuplicateIdentities(db1.cases)) == all[n..]
      && ValidGroups(db1.cases, GroupsOf(db1.cases, all[n..]))
      && After(db1, firm, all[n..], false) == After(db, firm, all, false)
  {
    var all := SortedIdentities(DuplicateIdentities(db.cases));
    PrefixSelection(db.cases, n);
    GroupsAreValid(db.cases, all);
    GroupsAreValid(db.cases, all[..n]);
    LaterGroupsKept(db, firm, n);
    var db1 := After(db, firm, all[..n], true);
    GroupsAgree(db1.cases, db.cases, all[n..]);
    GroupsAreValid(db1.cases, all[n..]);
    GroupsOfSlice(db.cases, all, n);
    LaterCasesKept(db, firm, all[..n], all[n..]);
    KidsInTwoStages(db, db1, GroupsOf(db.cases, all), n);
    CasesInTwoStages(db, db1, firm, Elements(all[..n]), Elements(all[n..]));
  }

  // ----- histories

  /** A transaction of the history: a batch, or one that failed and was rolled back. */
  datatype Step = Batch(limit: int) | RolledBack

  /** Commit on success, restore on any error. */
  ghost function Transact(db: Db, firm: int, step: Step): Db {
    match step
    case RolledBack => db
    case Batch(limit) =>
      match Run(db, firm, Some(limit), None)
      case Ok(r) => r.0
      case Err(_) => db
  }

  ghost function History(db: Db, firm: int, steps: seq<Step>): Db
    decreases |steps|
  {
    if steps == [] then db else History(Transact(db, firm, steps[0]), firm, steps[1..])
  }

  function Cut(limit: int, size: nat): nat {
    if limit < 0 then 0 else if limit > size then size else limit
  }

  lemma BatchIsPrefix(cases: map<int, Case>, limit: int)
    ensures
      var all := SortedIdentities(DuplicateIdentities(cases));
      BatchIdentities(cases, Some(limit), None) == all[..Cut(limit, |all|)]
  {
    var all := SortedIdentities(DuplicateIdentities(cases));
    assert all[..|all|] == all;
  }

  lemma ApartHasNoTwin(db: Db, firm: int, sel: set<Identity>)
    requires NonCivilApart(db.cases) && sel <= DuplicateIdentities(db.cases)
    ensures forall c :: !FirmTwin(db, firm, sel, c)
  {
    if c :| FirmTwin(db, firm, sel, c) {
      var id := IdentityOf(db.cases[c]);
      DuplicateIff(db.cases, id);
      var d := SomeElement(Group(db.cases, id));
      assert false;
    }
  }

  lemma ApartKept(db: Db, firm: int, sel: set<Identity>)
    requires NonCivilApart(db.cases)
    ensures NonCivilApart(CasesAfter(db, firm, sel, true))
  {
    var cases := CasesAfter(db, firm, sel, true);
    forall i, j | i in cases && j in cases && i != j && IdentityOf(cases[i]) == IdentityOf(cases[j])
      ensures Civil(cases[i]) {
      assert IdentityOf(db.cases[i]) == IdentityOf(db.cases[j]);
    }
  }

  /**
   * A batch of any size takes the first groups in identity order. It succeeds
   * if and only if the firm owns no non-civil case with one of their
   * identities, and otherwise changes nothing.
   */
  lemma BatchOutcome(db: Db, firm: int, limit: int)
    requires WellFormed(db)
    ensures
      var all := SortedIdentities(DuplicateIdentities(db.cases));
      var ids := all[..Cut(limit, |all|)];
      && ValidGroups(db.cases, GroupsOf(db.cases, ids))
      && (Run(db, firm, Some(limit), None).Ok? <==> forall c :: !FirmTwin(db, firm, Elements(ids), c))
      && Transact(db, firm, Batch(limit))
         == (if Run(db, firm, Some(limit), None).Ok? then After(db, firm, ids, true) else db)
      && WellFormed(Transact(db, firm, Batch(limit)))
  {
    hide WellFormed, MergeGroups, GroupsOf, CasesAfter, ValidGroups, FirmTwin, DuplicateIdentities, UniqueCases;
    var all := SortedIdentities(DuplicateIdentities(db.cases));
    var ids := all[..Cut(limit, |all|)];
    BatchIsPrefix(db.cases, limit);
    RunOutcome(db, firm, Some(limit), None);
    SelectionOutcome(db, firm, ids);
  }

  lemma SelectionOutcome(db: Db, firm: int, ids: seq<Identity>)
    requires WellFormed(db) && DuplicateSelection(db.cases, ids) && ValidGroups(db.cases, GroupsOf(db.cases, ids))
    ensures UniqueCases(CasesAfter(db, firm, Elements(ids), true)) <==>
      forall c :: !FirmTwin(db, firm, Elements(ids), c)
    ensures UniqueCases(CasesAfter(db, firm, Elements(ids), true)) ==> WellFormed(After(db, firm, ids, true))
  {
    hide WellFormed, MergeGroups, GroupsOf, CasesAfter, ValidGroups, FirmTwin, DuplicateIdentities, UniqueCases;
    BatchUniqueIff(db, firm, Elements(ids));
    if UniqueCases(CasesAfter(db, firm, Elements(ids), true)) {
      AfterIsWellFormed(db, firm, ids, true);
    }
  }

  /** Every group merged, its losers deleted and every survivor the firm's. */
  ghost function AllMerged(db: Db, firm: int): Db {
    var all := SortedIdentities(DuplicateIdentities(db.cases));
    GroupsAreValid(db.cases, all);
    After(db, firm, all, false)
  }

  /** A transaction, committed or not, changes nothing of what merging all that is left leads to. */
  lemma TransactThenAll(db: Db, firm: int, step: Step)
    requires WellFormed(db)
    ensures
      var db1 := Transact(db, firm, step);
      WellFormed(db1) && AllMerged(db1, firm) == AllMerged(db, firm)
  {
    hide WellFormed, Run, Transact, After, DuplicateIdentities, SortedIdentities, FirmTwin;
    match step
    case RolledBack => RolledBackStays(db, firm);
    case Batch(limit) =>
      BatchOutcome(db, firm, limit);
      BatchThenFull(db, firm, Cut(limit, |SortedIdentities(DuplicateIdentities(db.cases))|));
  }

  lemma RolledBackStays(db: Db, firm: int)
    ensures Transact(db, firm, RolledBack) == db
  {}

  /** Whatever the history of batches, what merging all that is left leads to is the same. */
  lemma {:induction false} HistoryThenAll(db: Db, firm: int, steps: seq<Step>)
    requires WellFormed(db)
    ensures
      var h := History(db, firm, steps);
      WellFormed(h) && AllMerged(h, firm) == AllMerged(db, firm)
    decreases |steps|
  {
    hide WellFormed, AllMerged, Transact;
    if steps != [] {
      TransactThenAll(db, firm, steps[0]);
      HistoryThenAll(Transact(db, firm, steps[0]), firm, steps[1..]);
    }
  }

  /** What one unbatched run leaves. */
  ghost function Full(db: Db, firm: int): Db {
    match Run(db, firm, None, None)
    case Ok(r) => r.0
    case Err(_) => db
  }

  lemma FullOutcome(db: Db, firm: int)
    requires WellFormed(db) && NonCivilApart(db.cases)
    ensures
      var all := SortedIdentities(DuplicateIdentities(db.cases));
      && ValidGroups(db.cases, GroupsOf(db.cases, all)) && Run(db, firm, None, None).Ok?
      && Full(db, firm) == After(db, firm, all, false) == AllMerged(db, firm)
  {
    RunOutcome(db, firm, None, None);
    FullUniqueIff(db, firm);
  }

  lemma TransactKeepsApart(db: Db, firm: int, step: Step)
    requires WellFormed(db) && NonCivilApart(db.cases)
    ensures NonCivilApart(Transact(db, firm, step).cases)
  {
    hide WellFormed, NonCivilApart, Run, Transact, MergeGroups, DuplicateIdentities, SortedIdentities, FirmTwin;
    match step
    case RolledBack => RolledBackStays(db, firm);
    case Batch(limit) =>
      BatchOutcome(db, firm, limit);
      var all := SortedIdentities(DuplicateIdentities(db.cases));
      ApartKept(db, firm, Elements(all[..Cut(limit, |all|)]));
  }

  /** A transaction changes nothing of what a full run will leave. */
  lemma TransactThenFull(db: Db, firm: int, step: Step)
    requires WellFormed(db) && NonCivilApart(db.cases)
    ensures
      var db1 := Transact(db, firm, step);
      WellFormed(db1) && NonCivilApart(db1.cases) && Full(db1, firm) == Full(db, firm)
  {
    hide WellFormed, NonCivilApart, Full, Transact, AllMerged;
    TransactThenAll(db, firm, step);
    TransactKeepsApart(db, firm, step);
    FullIsAll(db, firm);
    FullIsAll(Transact(db, firm, step), firm);
  }

  lemma FullIsAll(db: Db, firm: int)
    requires WellFormed(db) && NonCivilApart(db.cases)
    ensures Full(db, firm) == AllMerged(db, firm)
  {
    FullOutcome(db, firm);
  }

  /** Whatever the batches, their sizes, failures and restarts, a final full run leaves what one full run leaves. */
  lemma {:induction false} HistoryThenFull(db: Db, firm: int, steps: seq<Step>)
    requires WellFormed(db) && NonCivilApart(db.cases)
    ensures
      var h := History(db, firm, steps);
      WellFormed(h) && NonCivilApart(h.cases) && Full(h, firm) == Full(db, firm)
    decreases |steps|
  {
    hide WellFormed, NonCivilApart, Full, Transact;
    if steps != [] {
      TransactThenFull(db, firm, steps[0]);
      HistoryThenFull(Transact(db, firm, steps[0]), firm, steps[1..]);
    }
  }

  // ----- a history that merged everything

  /** Case `c` belongs to a causa with more than one row. */
  ghost predicate Duplicated(cases: map<int, Case>, c: int) {
    c in cases && Civil(cases[c]) && IdentityOf(cases[c]) in DuplicateIdentities(cases)
  }

  /** Rows only lose their owner, and only when their causa is settled, to the firm. */
  ghost predicate OwnersAccounted(before: map<int, Case>, after: map<int, Case>, firm: int) {
    forall c :: c in after ==>
      && c in before
      && after[c] == before[c].(lawyerId := after[c].lawyerId)
      && (!Duplicated(before, c) ==> after[c] == before[c])
      && (Duplicated(before, c) && !Duplicated(after, c) ==> after[c].lawyerId == firm)
  }

  /** One transaction: owners are accounted for, and no case becomes duplicated. */
  ghost predicate OwnersStep(before: map<int, Case>, after: map<int, Case>, firm: int) {
    OwnersAccounted(before, after, firm) && forall c :: Duplicated(after, c) ==> Duplicated(before, c)
  }

  lemma NonCivilNotInScope(db: Db, sel: set<Identity>, c: int)
    requires sel <= DuplicateIdentities(db.cases) && c in db.cases && !Civil(db.cases[c])
    ensures c !in Scope(db, sel, true)
  {
    if c in Scope(db, sel, true) {
      var id :| id in sel && c == WinnerOf(db, id);
      DuplicateIff(db.cases, id);
      assert Group(db.cases, id) != {};
      WinnerInGroup(db, id);
      assert false;
    }
  }

  lemma AfterOwners(db: Db, firm: int, ids: seq<Identity>)
    requires DuplicateSelection(db.cases, ids)
    ensures OwnersStep(db.cases, CasesAfter(db, firm, Elements(ids), true), firm)
  {
    var sel := Elements(ids);
    var cases := CasesAfter(db, firm, sel, true);
    DuplicatesAfterDelete(db, sel);
    ReownGroups(Survivors(db, sel), Scope(db, sel, true), firm);
    forall c | c in cases && IdentityOf(db.cases[c]) !in sel ensures cases[c] == db.cases[c] {
      NotInScope(db, sel, c);
    }
    forall c | c in cases && !Civil(cases[c]) ensures cases[c] == db.cases[c] {
      NonCivilNotInScope(db, sel, c);
    }
  }

  lemma TransactOwners(db: Db, firm: int, step: Step)
    requires WellFormed(db)
    ensures OwnersStep(db.cases, Transact(db, firm, step).cases, firm)
  {
    hide WellFormed, Run, Transact, CasesAfter, OwnersStep, DuplicateIdentities, DuplicateSelection, MergeGroups,
      FirmTwin;
    SameOwners(db.cases, firm);
    match step
    case RolledBack => RolledBackStays(db, firm);
    case Batch(limit) =>
      var all := SortedIdentities(DuplicateIdentities(db.cases));
      BatchOutcome(db, firm, limit);
      PrefixSelection(db.cases, Cut(limit, |all|));
      AfterOwners(db, firm, all[..Cut(limit, |all|)]);
  }

  lemma SameOwners(cases: map<int, Case>, firm: int)
    ensures OwnersStep(cases, cases, firm)
  {}

  lemma OwnersInTwoSteps(a: map<int, Case>, b: map<int, Case>, c: map<int, Case>, firm: int)
    requires OwnersStep(a, b, firm) && OwnersStep(b, c, firm)
    ensures OwnersStep(a, c, firm)
  {}

  lemma {:induction false} HistoryOwners(db: Db, firm: int, steps: seq<Step>)
    requires WellFormed(db)
    ensures OwnersStep(db.cases, History(db, firm, steps).cases, firm)
    decreases |steps|
  {
    if steps == [] {
      SameOwners(db.cases, firm);
    } else {
      hide WellFormed, Transact, OwnersStep, AllMerged;
      var db1 := Transact(db, firm, steps[0]);
      TransactThenAll(db, firm, steps[0]);
      HistoryOwners(db1, firm, steps[1..]);
      TransactOwners(db, firm, steps[0]);
      OwnersInTwoSteps(db.cases, db1.cases, History(db, firm, steps).cases, firm);
    }
  }

  /** With no duplicate left, merging all is re-owning all. */
  lemma AllOfSettled(h: Db, firm: int)
    requires DuplicateIdentities(h.cases) == {}
    ensures AllMerged(h, firm) == h.(cases := Reown(h.cases, h.cases.Keys, firm))
  {
    assert SortedIdentities({}) == [];
    assert Survivors(h, {}) == h.cases;
    assert GroupsOf(h.cases, []) == [];
  }

  lemma FullOfSettled(h: Db, firm: int)
    requires WellFormed(h) && NonCivilApart(h.cases) && DuplicateIdentities(h.cases) == {}
    ensures Full(h, firm) == h.(cases := Reown(h.cases, h.cases.Keys, firm))
  {
    hide AllMerged, Full, WellFormed, NonCivilApart;
    FullIsAll(h, firm);
    AllOfSettled(h, firm);
  }

  /**
   * `h` has the surviving cases, child rows, references, sources and audit of
   * `f`, in which every case is the firm's; the owner differs only of cases
   * that never were duplicated.
   */
  ghost predicate SameButOwners(db: Db, h: Db, f: Db, firm: int) {
    && h.kids == f.kids && h.sources == f.sources && h.audit == f.audit && h.cases.Keys == f.cases.Keys
    && forall c :: c in h.cases ==>
      && c in db.cases && f.cases[c].lawyerId == firm
      && h.cases[c] == if Duplicated(db.cases, c) then f.cases[c] else db.cases[c]
  }

  lemma SettledOwners(db: Db, h: Db, f: Db, firm: int)
    requires OwnersStep(db.cases, h.cases, firm) && DuplicateIdentities(h.cases) == {}
    requires f == h.(cases := Reown(h.cases, h.cases.Keys, firm))
    ensures SameButOwners(db, h, f, firm)
  {}

  /**
   * Any history of batches that leaves no duplicate has merged every group:
   * same surviving cases, child rows, references, sources and audit. No
   * condition on non-civil cases: a batch they made fail was rolled back.
   */
  lemma HistoryMergesAll(db: Db, firm: int, steps: seq<Step>)
    requires WellFormed(db) && DuplicateIdentities(History(db, firm, steps).cases) == {}
    ensures SameButOwners(db, History(db, firm, steps), AllMerged(db, firm), firm)
  {
    hide WellFormed, History, AllMerged, OwnersStep, SameButOwners, DuplicateIdentities, Reown;
    var h := History(db, firm, steps);
    HistoryThenAll(db, firm, steps);
    AllOfSettled(h, firm);
    HistoryOwners(db, firm, steps);
    SettledOwners(db, h, AllMerged(db, firm), firm);
  }

  /**
   * Any history of batches that leaves no duplicate has the same surviving cases,
   * child rows, references, sources and audit as one unbatched run; only the
   * owner of cases that never were duplicated differs.
   */
  lemma HistoryEqualsFull(db: Db, firm: int, steps: seq<Step>)
    requires WellFormed(db) && NonCivilApart(db.cases)
    requires DuplicateIdentities(History(db, firm, steps).cases) == {}
    ensures SameButOwners(db, History(db, firm, steps), Full(db, firm), firm)
  {
    hide WellFormed, NonCivilApart, History, AllMerged, Full, SameButOwners, DuplicateIdentities;
    HistoryMergesAll(db, firm, steps);
    FullIsAll(db, firm);
  }

  // ----- what makes batches fail stays

  lemma AfterTwins(db: Db, firm: int, ids: seq<Identity>, sel: set<Identity>, c: int)
    requires Elements(ids) <= DuplicateIdentities(db.cases)
    ensures
      var cases := CasesAfter(db, firm, Elements(ids), true);
      FirmTwin(db.(cases := cases), firm, sel, c) <==> FirmTwin(db, firm, sel, c)
  {
    if c in db.cases && !Civil(db.cases[c]) {
      NonCivilNotInScope(db, Elements(ids), c);
    }
  }

  lemma TwinsOfCases(a: Db, b: Db, firm: int, sel: set<Identity>, c: int)
    requires a.cases == b.cases
    ensures FirmTwin(a, firm, sel, c) <==> FirmTwin(b, firm, sel, c)
  {}

  /** No transaction deletes or re-owns a non-civil case. */
  lemma TransactTwins(db: Db, firm: int, step: Step, sel: set<Identity>, c: int)
    requires WellFormed(db)
    ensures FirmTwin(Transact(db, firm, step), firm, sel, c) <==> FirmTwin(db, firm, sel, c)
  {
    hide WellFormed, Run, Transact, CasesAfter, DuplicateIdentities, DuplicateSelection, MergeGroups, FirmTwin;
    match step
    case RolledBack => RolledBackStays(db, firm);
    case Batch(limit) =>
      var all := SortedIdentities(DuplicateIdentities(db.cases));
      var ids := all[..Cut(limit, |all|)];
      BatchOutcome(db, firm, limit);
      PrefixSelection(db.cases, Cut(limit, |all|));
      SelectedDuplicated(db.cases, ids);
      AfterTwins(db, firm, ids, sel, c);
      TwinsOfCases(After(db, firm, ids, true), db.(cases := CasesAfter(db, firm, Elements(ids), true)), firm, sel, c);
  }

  lemma SelectedDuplicated(cases: map<int, Case>, ids: seq<Identity>)
    requires DuplicateSelection(cases, ids)
    ensures Elements(ids) <= DuplicateIdentities(cases)
  {}

  /** A committed batch settles its groups, a failed one none. */
  lemma TransactSettles(db: Db, firm: int, limit: int)
    requires WellFormed(db)
    ensures
      var all := SortedIdentities(DuplicateIdentities(db.cases));
      var n := if Run(db, firm, Some(limit), None).Ok? then Cut(limit, |all|) else 0;
      && SortedIdentities(DuplicateIdentities(Transact(db, firm, Batch(limit)).cases)) == all[n..]
      && DuplicateIdentities(Transact(db, firm, Batch(limit)).cases) == Elements(all[n..])
  {
    hide WellFormed, Run, Transact, After, DuplicateIdentities, MergeGroups, FirmTwin;
    var all := SortedIdentities(DuplicateIdentities(db.cases));
    BatchOutcome(db, firm, limit);
    if Run(db, firm, Some(limit), None).Ok? {
      PrefixSelection(db.cases, Cut(limit, |all|));
      LaterGroupsKept(db, firm, Cut(limit, |all|));
    } else {
      assert all[0..] == all;
    }
  }

  /** An identity a firm-owned non-civil case holds is never settled by a batch, and no batch makes another. */
  lemma TransactBlocked(db: Db, firm: int, step: Step)
    requires WellFormed(db)
    ensures
      var db1 := Transact(db, firm, step);
      && DuplicateIdentities(db1.cases) <= DuplicateIdentities(db.cases)
      && forall c :: FirmTwin(db1, firm, DuplicateIdentities(db1.cases), c) <==>
        FirmTwin(db, firm, DuplicateIdentities(db.cases), c)
  {
    hide WellFormed, Run, Transact, DuplicateIdentities;
    var db1 := Transact(db, firm, step);
    match step
    case RolledBack => RolledBackStays(db, firm);
    case Batch(limit) =>
      var all := SortedIdentities(DuplicateIdentities(db.cases));
      var ids := all[..Cut(limit, |all|)];
      BatchOutcome(db, firm, limit);
      TransactSettles(db, firm, limit);
      SplitElements(all, Cut(limit, |all|));
      assert all[0..] == all;
      forall c ensures FirmTwin(db1, firm, DuplicateIdentities(db1.cases), c) <==>
        FirmTwin(db, firm, DuplicateIdentities(db.cases), c)
      {
        TransactTwins(db, firm, step, DuplicateIdentities(db1.cases), c);
        if FirmTwin(db, firm, DuplicateIdentities(db.cases), c) && Run(db, firm, Some(limit), None).Ok? {
          assert !FirmTwin(db, firm, Elements(ids), c);
        }
      }
  }

  lemma SplitElements<T>(s: seq<T>, n: nat)
    requires n <= |s|
    ensures Elements(s) == Elements(s[..n]) + Elements(s[n..])
  {
    assert s == s[..n] + s[n..];
    forall x ensures x in Elements(s) <==> x in Elements(s[..n]) + Elements(s[n..]) {}
  }

  /** The same over any history: the identities no batch can settle are those of the start. */
  lemma {:induction false} HistoryBlocked(db: Db, firm: int, steps: seq<Step>)
    requires WellFormed(db)
    ensures
      var h := History(db, firm, steps);
      && DuplicateIdentities(h.cases) <= DuplicateIdentities(db.cases)
      && forall c :: FirmTwin(h, firm, DuplicateIdentities(h.cases), c) <==>
        FirmTwin(db, firm, DuplicateIdentities(db.cases), c)
    decreases |steps|
  {
    hide WellFormed, Transact, DuplicateIdentities, FirmTwin, AllMerged;
    if steps != [] {
      TransactThenAll(db, firm, steps[0]);
      TransactBlocked(db, firm, steps[0]);
      HistoryBlocked(Transact(db, firm, steps[0]), firm, steps[1..]);
    }
  }
}
