/**
 * What the verification gate looks at, what a run reports and where the child
 * rows go, said in the columns of the tables.
 */
module CaseMergeAccount {
  import opened Options
  import opened Ordering
  import opened ChildTable
  import opened CaseTables
  import opened CaseMerge
  import opened CaseMergeRun
  import opened CaseMergeBatches
  import opened CaseMergeAudit
  import opened CaseMergeParts
  import opened CaseMergeColumns
  import opened CaseMergePrediction
  import opened CaseMergeCausas

  // ----- the gate

  /** Some row of the table names a case of `losers`. */
  ghost predicate Names<D>(t: Table<D>, losers: set<int>) {
    exists id :: id in t && t[id].caseId.Some? && t[id].caseId.value in losers
  }

  lemma NamesIff<D>(t: Table<D>, losers: set<int>)
    ensures Names(t, losers) <==> !NoneOf(t, losers)
  {}

  ghost predicate SomeTableNames(k: Kids, losers: set<int>) {
    || Names(k.movements, losers) || Names(k.documents, losers) || Names(k.litigantes, losers)
    || Names(k.notificaciones, losers) || Names(k.escritos, losers) || Names(k.exhortos, losers)
    || Names(k.deadlines, losers) || Names(k.alerts, losers) || Names(k.snapshots, losers)
    || Names(k.hitos, losers) || Names(k.liberaciones, losers) || Names(k.generados, losers)
  }

  lemma SomeTableIff(k: Kids, losers: set<int>)
    ensures SomeTableNames(k, losers) <==> !KidsFree(k, losers)
  {
    NamesIff(k.movements, losers);
    NamesIff(k.documents, losers);
    NamesIff(k.litigantes, losers);
    NamesIff(k.notificaciones, losers);
    NamesIff(k.escritos, losers);
    NamesIff(k.exhortos, losers);
    NamesIff(k.deadlines, losers);
    NamesIff(k.alerts, losers);
    NamesIff(k.snapshots, losers);
    NamesIff(k.hitos, losers);
    NamesIff(k.liberaciones, losers);
    NamesIff(k.generados, losers);
    hide Names, NoneOf;
  }

  /** Two civil cases outside `gone` are rows of one causa in scope. */
  ghost predicate StillDuplicated(cases: map<int, Case>, gone: set<int>, scope: Option<set<Identity>>) {
    exists id, c, d :: (scope.Some? ==> id in scope.value) && TwinRows(cases, gone, id, c, d)
  }

  predicate TwinRows(cases: map<int, Case>, gone: set<int>, id: Identity, c: int, d: int) {
    c != d && c !in gone && d !in gone && CivilRow(cases, c, id) && CivilRow(cases, d, id)
  }

  lemma DuplicatedLeft(cases: map<int, Case>, gone: set<int>, id: Identity)
    ensures id in DuplicateIdentities(cases - gone) <==> exists c, d :: TwinRows(cases, gone, id, c, d)
  {
    DuplicatedIff(cases - gone, id);
    hide DuplicateIdentities;
    if c, d :| c != d && CivilRow(cases - gone, c, id) && CivilRow(cases - gone, d, id) {
      assert TwinRows(cases, gone, id, c, d);
    }
    if c, d :| TwinRows(cases, gone, id, c, d) {
      assert CivilRow(cases - gone, c, id) && CivilRow(cases - gone, d, id);
    }
  }

  lemma StillDuplicatedIff(cases: map<int, Case>, gone: set<int>, scope: Option<set<Identity>>)
    ensures StillDuplicated(cases, gone, scope) <==>
      !(forall id :: id in DuplicateIdentities(cases - gone) ==> scope.Some? && id !in scope.value)
  {
    hide DuplicateIdentities, TwinRows;
    if id :| id in DuplicateIdentities(cases - gone) && (scope.Some? ==> id in scope.value) {
      DuplicatedLeft(cases, gone, id);
      var c, d :| TwinRows(cases, gone, id, c, d);
      assert StillDuplicated(cases, gone, scope);
    }
    if id, c, d :| (scope.Some? ==> id in scope.value) && TwinRows(cases, gone, id, c, d) {
      DuplicatedLeft(cases, gone, id);
      assert id in DuplicateIdentities(cases - gone);
    }
  }

  /**
   * The gate refuses exactly when a row of one of the twelve tables, a source
   * or an audit row names a loser, or two civil cases left are rows of one
   * causa in scope; without losers the list of ids is that of case 0.
   */
  lemma GateIs(db: Db, losers: set<int>, scope: Option<set<Identity>>)
    ensures
      var listed := if |losers| == 0 then {0} else losers;
      !GateOk(db, losers, scope) <==>
        || SomeTableNames(db.kids, losers)
        || (exists p :: p in db.sources && p.0 in losers)
        || (exists i :: 0 <= i < |db.audit| && db.audit[i].winner in listed)
        || StillDuplicated(db.cases, listed, scope)
  {
    var listed := if |losers| == 0 then {0} else losers;
    assert listed == OrZero(losers);
    SomeTableIff(db.kids, losers);
    StillDuplicatedIff(db.cases, listed, scope);
    hide SomeTableNames, KidsFree, DuplicateIdentities, StillDuplicated;
  }

  // ----- the summary

  /** The cases whose owner a run changed. */
  ghost function OwnerChanged(before: map<int, Case>, after: map<int, Case>): set<int> {
    set c | c in before && c in after && before[c].lawyerId != after[c].lawyerId
  }

  lemma ReownedAreChanged(before: map<int, Case>, left: map<int, Case>, scope: set<int>, firm: int)
    requires forall c :: c in left ==> c in before && left[c] == before[c]
    ensures ReownedIds(left, scope, firm) == OwnerChanged(before, Reown(left, scope, firm))
  {
    var after := Reown(left, scope, firm);
    forall c ensures c in ReownedIds(left, scope, firm) <==> c in OwnerChanged(before, after) {}
  }

  lemma ConcludeReports(m: Db, firm: int, ids: seq<Identity>, losers: set<int>, winners: set<int>, batched: bool)
    requires losers <= m.cases.Keys && Conclude(m, firm, ids, losers, winners, batched).Ok?
    ensures
      var (after, sum) := Conclude(m, firm, ids, losers, winners, batched).value;
      && sum.keys == ids && sum.merged == |ids| && sum.auditRows == sum.losersDeleted == |losers|
      && |losers| == |m.cases| - |after.cases| && after.audit == m.audit
      && sum.reowned == |OwnerChanged(m.cases, after.cases)| && sum.remaining == |DuplicateIdentities(after.cases)|
  {
    var left := m.cases - losers;
    var scope := ReownScope(left, winners, batched);
    DeletedSize(m.cases, losers);
    ReownedAreChanged(m.cases, left, scope, firm);
    KeysSize(Reown(left, scope, firm), left);
    hide GateOk, DuplicateIdentities, UniqueCases, ReownedIds, OwnerChanged, ReownScope, Reown;
  }

  /**
   * The summary of a run that succeeds is what it did: as many merged groups as
   * causas selected, as many losers as cases are gone, as many audit rows as
   * were added, as many re-owned as changed owner, and the duplicates left.
   */
  lemma SummaryIs(db: Db, firm: int, limit: Option<int>, only: Option<set<Identity>>)
    requires Run(db, firm, limit, only).Ok?
    ensures
      var (after, sum) := Run(db, firm, limit, only).value;
      && sum.keys == BatchIdentities(db.cases, limit, only) && sum.merged == |sum.keys|
      && sum.losersDeleted == |db.cases| - |after.cases| && sum.auditRows == |after.audit| - |db.audit|
      && sum.reowned == |OwnerChanged(db.cases, after.cases)|
      && sum.remaining == |DuplicateIdentities(after.cases)|
  {
    var ids := BatchIdentities(db.cases, limit, only);
    BatchIsSelection(db.cases, limit, only);
    DeletionLeaves(db, ids);
    var gs := GroupsOf(db.cases, ids);
    var losers, winners := AllLosers(db.kids, gs), AllWinners(db.kids, gs);
    LoserTotal(db, gs);
    MergeGroupsAudit(db, gs);
    hide MergeGroups, BatchIdentities, DuplicateIdentities, AllLosers, AllWinners, GroupsOf, OwnerChanged, Conclude;
    hide Survivors, DuplicateSelection, ValidGroups;
    ConcludeReports(MergeGroups(db, gs), firm, ids, losers, winners, limit.Some? || only.Some?);
  }

  // ----- where the rows of a case go

  /** `w` is the civil case of the causa of `c` that no other goes before. */
  ghost predicate TakesOver(db: Db, c: int, w: int) {
    && c in db.cases && w in db.cases && db.cases[w].competencia == Some("civil")
    && SameCausa(db.cases[c], db.cases[w]) && !Outdone(db, w)
  }

  /**
   * In a full run the rows of a case that another of its causa goes before go
   * to the one that none goes before; those of any other case stay.
   */
  lemma GoesToIs(db: Db, c: int, after: Option<int>)
    requires c in db.cases && ValidGroups(db.cases, AllGroups(db)) && NonEmpty(AllGroups(db))
    ensures GoesTo(db.kids, AllGroups(db), Some(c), after) <==>
      if Outdone(db, c) then after.Some? && TakesOver(db, c, after.value) else after == Some(c)
  {
    var ids := SortedIdentities(DuplicateIdentities(db.cases));
    var gs, id := AllGroups(db), IdentityOf(db.cases[c]);
    if db.cases[c].competencia == Some("civil") && id in DuplicateIdentities(db.cases) {
      var i := GroupAt(db, c);
      WinnerIs(db, c);
      OneTakesOver(db, c, WinnerOf(db, id), after);
      GoesToWinner(db.kids, db.cases, gs, i, c);
      hide Outdone, TakesOver, WinnerOf, Winner, AllGroups;
      assert c in gs[i];
    } else {
      NoGroup(db, c);
      if Outdone(db, c) {
        OutdoneIsDuplicated(db, c);
      }
    }
  }

  lemma GroupAt(db: Db, c: int) returns (i: nat)
    requires c in db.cases && db.cases[c].competencia == Some("civil")
    requires IdentityOf(db.cases[c]) in DuplicateIdentities(db.cases) && NonEmpty(AllGroups(db))
    ensures i < |AllGroups(db)| && c in Elements(AllGroups(db)[i])
    ensures Winner(db.kids, AllGroups(db)[i]) == WinnerOf(db, IdentityOf(db.cases[c]))
  {
    var ids, id := SortedIdentities(DuplicateIdentities(db.cases)), IdentityOf(db.cases[c]);
    assert id in Elements(ids);
    i :| 0 <= i < |ids| && ids[i] == id;
    assert AllGroups(db)[i] == GroupIds(db.cases, id) && c in Group(db.cases, id);
  }

  lemma NoGroup(db: Db, c: int)
    requires c in db.cases
    requires db.cases[c].competencia != Some("civil") || IdentityOf(db.cases[c]) !in DuplicateIdentities(db.cases)
    ensures c !in Members(AllGroups(db))
  {
    var ids, gs := SortedIdentities(DuplicateIdentities(db.cases)), AllGroups(db);
    forall i | 0 <= i < |gs| ensures c !in gs[i] {
      assert gs[i] == GroupIds(db.cases, ids[i]) && ids[i] in Elements(ids) && c !in Group(db.cases, ids[i]);
      assert c in gs[i] <==> c in Elements(gs[i]);
    }
  }

  lemma OneTakesOver(db: Db, c: int, w: int, after: Option<int>)
    requires c in db.cases && db.cases[c].competencia == Some("civil") && w == WinnerOf(db, IdentityOf(db.cases[c]))
    ensures after == Some(w) <==> after.Some? && TakesOver(db, c, after.value)
    ensures Outdone(db, c) <==> w != c
  {
    WinnerIs(db, c);
    if after.Some? && TakesOver(db, c, after.value) {
      IdentityIsCausa(db.cases[c], db.cases[after.value]);
      WinnerIs(db, after.value);
    }
  }
}
