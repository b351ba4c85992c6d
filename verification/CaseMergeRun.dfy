/**
 * One whole run: the gate always passes, the run succeeds exactly when the
 * re-own meets no non-civil twin, and what it leaves is well-formed.
 */
module CaseMergeRun {
  import opened Options
  import opened Ordering
  import opened CaseTables
  import opened CaseMerge
  import opened CaseMergeSafety

  // ----- who survives the deletion

  lemma SomeElement<T>(s: set<T>) returns (x: T)
    requires s != {}
    ensures x in s
  {
    x :| x in s;
  }

  lemma DuplicateIff(cases: map<int, Case>, id: Identity)
    ensures id in DuplicateIdentities(cases) <==> |Group(cases, id)| > 1
  {
    if |Group(cases, id)| > 1 {
      var c := SomeElement(Group(cases, id));
    }
  }

  /** The winner of an identity. */
  function WinnerOf(db: Db, id: Identity): int {
    if Group(db.cases, id) == {} then 0 else Winner(db.kids, GroupIds(db.cases, id))
  }

  /** Case `c` survives a run over the identities of `sel`. */
  ghost predicate Kept(db: Db, sel: set<Identity>, c: int) {
    && c in db.cases
    && (Civil(db.cases[c]) && IdentityOf(db.cases[c]) in sel ==> c == WinnerOf(db, IdentityOf(db.cases[c])))
  }

  ghost function Survivors(db: Db, sel: set<Identity>): map<int, Case> {
    map c | c in db.cases && Kept(db, sel, c) :: db.cases[c]
  }

  lemma WinnerInGroup(db: Db, id: Identity)
    requires Group(db.cases, id) != {}
    ensures WinnerOf(db, id) in Group(db.cases, id)
  {
    assert WinnerOf(db, id) in Elements(GroupIds(db.cases, id));
  }

  lemma GroupLoserIff(db: Db, id: Identity, c: int)
    requires Group(db.cases, id) != {}
    ensures c in Losers(db.kids, GroupIds(db.cases, id)) <==> c in Group(db.cases, id) && c != WinnerOf(db, id)
  {
    assert c in Losers(db.kids, GroupIds(db.cases, id)) <==> c in Elements(Losers(db.kids, GroupIds(db.cases, id)));
  }

  /** The deletion leaves exactly the kept cases. */
  lemma DeletionLeaves(db: Db, ids: seq<Identity>)
    requires DuplicateSelection(db.cases, ids)
    ensures ValidGroups(db.cases, GroupsOf(db.cases, ids))
    ensures AllLosers(db.kids, GroupsOf(db.cases, ids)) <= db.cases.Keys
    ensures db.cases - AllLosers(db.kids, GroupsOf(db.cases, ids)) == Survivors(db, Elements(ids))
  {
    GroupsAreValid(db.cases, ids);
    forall c ensures c in AllLosers(db.kids, GroupsOf(db.cases, ids)) <==>
      c in db.cases && !Kept(db, Elements(ids), c) {
      LoserIff(db, ids, c);
    }
  }

  lemma LoserIff(db: Db, ids: seq<Identity>, c: int)
    requires ValidGroups(db.cases, GroupsOf(db.cases, ids))
    ensures c in AllLosers(db.kids, GroupsOf(db.cases, ids)) <==> c in db.cases && !Kept(db, Elements(ids), c)
  {
    var gs := GroupsOf(db.cases, ids);
    if c in AllLosers(db.kids, gs) {
      var i :| 0 <= i < |gs| && c in Losers(db.kids, gs[i]);
      LoserIsNotKept(db, ids, i, c);
    }
    if c in db.cases && !Kept(db, Elements(ids), c) {
      var i :| 0 <= i < |ids| && ids[i] == IdentityOf(db.cases[c]);
      assert c in Group(db.cases, ids[i]);
      GroupLoserIff(db, ids[i], c);
      assert c in Losers(db.kids, gs[i]);
    }
  }

  lemma LoserIsNotKept(db: Db, ids: seq<Identity>, i: nat, c: int)
    requires i < |ids| && GroupIds(db.cases, ids[i]) != [] && c in Losers(db.kids, GroupIds(db.cases, ids[i]))
    ensures c in db.cases && !Kept(db, Elements(ids), c)
  {
    assert Group(db.cases, ids[i]) != {} by {
      assert GroupIds(db.cases, ids[i])[0] in Elements(GroupIds(db.cases, ids[i]));
    }
    GroupLoserIff(db, ids[i], c);
    assert ids[i] in Elements(ids);
  }

  /** The winners of the batch. */
  lemma WinnersAre(db: Db, ids: seq<Identity>)
    requires DuplicateSelection(db.cases, ids)
    ensures ValidGroups(db.cases, GroupsOf(db.cases, ids))
    ensures AllWinners(db.kids, GroupsOf(db.cases, ids)) == set id | id in Elements(ids) :: WinnerOf(db, id)
  {
    GroupsAreValid(db.cases, ids);
    var gs := GroupsOf(db.cases, ids);
    forall i | 0 <= i < |ids|
      ensures gs[i] != [] && Winner(db.kids, gs[i]) == WinnerOf(db, ids[i]) && ids[i] in Elements(ids) {
      assert gs[i][0] in Elements(gs[i]);
    }
    hide ValidGroups, GroupsOf, Winner, WinnerOf, DuplicateSelection;
    var named := set id | id in Elements(ids) :: WinnerOf(db, id);
    forall c | c in named ensures c in AllWinners(db.kids, gs) {
      var id :| id in Elements(ids) && c == WinnerOf(db, id);
      var i :| 0 <= i < |ids| && ids[i] == id;
      assert c == Winner(db.kids, gs[i]);
    }
  }

  /** A selected identity keeps exactly its winner; any other keeps all its rows. */
  lemma GroupAfterDelete(db: Db, sel: set<Identity>, id: Identity)
    ensures id in sel && Group(db.cases, id) != {} ==> Group(Survivors(db, sel), id) == {WinnerOf(db, id)}
    ensures id !in sel ==> Group(Survivors(db, sel), id) == Group(db.cases, id)
  {
    var left := Survivors(db, sel);
    if id in sel && Group(db.cases, id) != {} {
      WinnerInGroup(db, id);
      forall c ensures c in Group(left, id) <==> c == WinnerOf(db, id) {}
    } else if id !in sel {
      forall c ensures c in Group(left, id) <==> c in Group(db.cases, id) {}
    }
  }

  lemma DuplicatesAfterDelete(db: Db, sel: set<Identity>)
    requires sel <= DuplicateIdentities(db.cases)
    ensures DuplicateIdentities(Survivors(db, sel)) == DuplicateIdentities(db.cases) - sel
  {
    forall id ensures id in DuplicateIdentities(Survivors(db, sel)) <==> id in DuplicateIdentities(db.cases) - sel {
      GroupAfterDelete(db, sel, id);
      DuplicateIff(Survivors(db, sel), id);
      DuplicateIff(db.cases, id);
    }
  }

  // ----- the gate

  lemma OutsideIsFree(k: Kids, cs: set<int>, losers: set<int>)
    requires KidsOwnersIn(k, cs - losers)
    ensures KidsFree(k, losers)
  {}

  lemma GateFromOwners(m: Db, losers: set<int>, scope: Option<set<Identity>>)
    requires OwnersOk(m, m.cases.Keys - losers) && 0 !in m.cases && losers <= m.cases.Keys
    requires forall id :: id in DuplicateIdentities(m.cases - losers) ==> scope.Some? && id !in scope.value
    ensures GateOk(m, losers, scope)
  {
    OutsideIsFree(m.kids, m.cases.Keys, losers);
    assert m.cases - OrZero(losers) == m.cases - losers;
  }

  /** Before any delete no row names a loser, every reference is live and the gate passes. */
  lemma GatePasses(db: Db, ids: seq<Identity>, scope: Option<set<Identity>>)
    requires WellFormed(db) && DuplicateSelection(db.cases, ids)
    requires if scope.Some? then scope.value == Elements(ids) else Elements(ids) == DuplicateIdentities(db.cases)
    ensures ValidGroups(db.cases, GroupsOf(db.cases, ids))
    ensures
      var gs := GroupsOf(db.cases, ids);
      var losers := AllLosers(db.kids, gs);
      && StillOk(MergeGroups(db, gs), db.cases.Keys - losers)
      && GateOk(MergeGroups(db, gs), losers, scope)
  {
    DeletionLeaves(db, ids);
    DuplicatesAfterDelete(db, Elements(ids));
    MergeGroupsOk(db, GroupsOf(db.cases, ids), db.cases.Keys);
    GateFromOwners(MergeGroups(db, GroupsOf(db.cases, ids)), AllLosers(db.kids, GroupsOf(db.cases, ids)), scope);
  }

  // ----- the outcome of a run

  ghost function Scope(db: Db, sel: set<Identity>, batched: bool): set<int> {
    if batched then set id | id in sel :: WinnerOf(db, id) else Survivors(db, sel).Keys
  }

  /** The `cases` table a run leaves. */
  ghost function CasesAfter(db: Db, firm: int, sel: set<Identity>, batched: bool): map<int, Case> {
    Reown(Survivors(db, sel), Scope(db, sel, batched), firm)
  }

  /** What `Run` does on a well-formed database: it can only fail on the identity constraint. */
  lemma RunOutcome(db: Db, firm: int, limit: Option<int>, only: Option<set<Identity>>)
    requires WellFormed(db)
    ensures
      var batched := limit.Some? || only.Some?;
      var ids := BatchIdentities(db.cases, limit, only);
      var cases := CasesAfter(db, firm, Elements(ids), batched);
      && DuplicateSelection(db.cases, ids) && ValidGroups(db.cases, GroupsOf(db.cases, ids))
      && (Run(db, firm, limit, only) == Err(UniqueViolation) || Run(db, firm, limit, only).Ok?)
      && (Run(db, firm, limit, only).Ok? <==> UniqueCases(cases))
      && (Run(db, firm, limit, only).Ok? ==>
          Run(db, firm, limit, only).value.0 == MergeGroups(db, GroupsOf(db.cases, ids)).(cases := cases))
  {
    var batched := limit.Some? || only.Some?;
    var ids := BatchIdentities(db.cases, limit, only);
    BatchIsSelection(db.cases, limit, only);
    GatePasses(db, ids, if batched then Some(Elements(ids)) else None);
    DeletionLeaves(db, ids);
    WinnersAre(db, ids);
    var left := Survivors(db, Elements(ids));
    ReownScopes(left, Scope(db, Elements(ids), batched), firm);
  }

  lemma ReownScopes(left: map<int, Case>, scope: set<int>, firm: int)
    requires 0 !in left
    ensures Reown(left, scope - {0}, firm) == Reown(left, scope, firm)
  {}

  // ----- the re-own

  lemma ReownGroups(cases: map<int, Case>, ids: set<int>, firm: int)
    ensures DuplicateIdentities(Reown(cases, ids, firm)) == DuplicateIdentities(cases)
  {
    var r := Reown(cases, ids, firm);
    forall id ensures id in DuplicateIdentities(r) <==> id in DuplicateIdentities(cases) {
      DuplicateIff(r, id);
      DuplicateIff(cases, id);
      ReownGroup(cases, ids, firm, id);
    }
  }

  lemma ReownGroup(cases: map<int, Case>, ids: set<int>, firm: int, id: Identity)
    ensures Group(Reown(cases, ids, firm), id) == Group(cases, id)
  {
    forall c ensures c in Group(Reown(cases, ids, firm), id) <==> c in Group(cases, id) {}
  }

  /** Row by row: if the re-owned table has no twins, neither has any table on the way. */
  lemma ReownStepwise(cases: map<int, Case>, ids: set<int>, firm: int, done: set<int>)
    requires UniqueCases(cases) && UniqueCases(Reown(cases, ids, firm)) && done <= ids
    ensures UniqueCases(Reown(cases, done, firm))
  {
    var r, part := Reown(cases, ids, firm), Reown(cases, done, firm);
    forall i, j | i in part && j in part && Twins(part, i, j) ensures i == j {
      if i in done || j in done {
        assert i in r && j in r && Twins(r, i, j);
      } else {
        assert Twins(cases, i, j);
      }
    }
  }

  lemma SubsetSize<T>(a: set<T>, b: set<T>)
    requires a <= b
    ensures |a| <= |b|
  {
    assert b == a + (b - a);
  }

  lemma SurvivorOf(db: Db, sel: set<Identity>, c: int) returns (s: int)
    requires c in db.cases
    ensures s in Survivors(db, sel) && IdentityOf(db.cases[s]) == IdentityOf(db.cases[c])
    ensures if Civil(db.cases[c]) then Civil(db.cases[s]) else s == c
  {
    s := c;
    if !Kept(db, sel, c) {
      var id := IdentityOf(db.cases[c]);
      assert c in Group(db.cases, id);
      WinnerInGroup(db, id);
      s := WinnerOf(db, id);
    }
  }

  lemma OneCivilSurvivor(db: Db, sel: set<Identity>, i: int, j: int)
    requires sel == DuplicateIdentities(db.cases)
    requires i in Survivors(db, sel) && j in Survivors(db, sel) && Civil(db.cases[i]) && Civil(db.cases[j])
    requires IdentityOf(db.cases[i]) == IdentityOf(db.cases[j])
    ensures i == j
  {
    var id := IdentityOf(db.cases[i]);
    DuplicateIff(db.cases, id);
    if i != j {
      SubsetSize({i, j}, Group(db.cases, id));
    }
  }

  lemma FullUniqueIff(db: Db, firm: int)
    requires WellFormed(db)
    ensures UniqueCases(CasesAfter(db, firm, DuplicateIdentities(db.cases), false)) <==> NonCivilApart(db.cases)
  {
    var sel := DuplicateIdentities(db.cases);
    var cases := CasesAfter(db, firm, sel, false);
    if NonCivilApart(db.cases) {
      forall i, j | i in cases && j in cases && Twins(cases, i, j) ensures i == j {
        if i != j {
          OneCivilSurvivor(db, sel, i, j);
        }
      }
    }
    if UniqueCases(cases) {
      forall i, j | i in db.cases && j in db.cases && i != j && IdentityOf(db.cases[i]) == IdentityOf(db.cases[j])
        ensures Civil(db.cases[i])
      {
        if !Civil(db.cases[i]) {
          var s := SurvivorOf(db, sel, i);
          var t := SurvivorOf(db, sel, j);
          assert Twins(cases, s, t);
        }
      }
    }
  }

  /**
   * The full-table run fails exactly when some non-civil case shares its
   * identity with another case: the re-own has no competencia filter.
   */
  lemma FullRunSucceedsIff(db: Db, firm: int)
    requires WellFormed(db)
    ensures Run(db, firm, None, None).Ok? <==> NonCivilApart(db.cases)
  {
    RunOutcome(db, firm, None, None);
    FullUniqueIff(db, firm);
  }

  /** A non-civil case owned by the firm holds a selected identity. */
  ghost predicate FirmTwin(db: Db, firm: int, sel: set<Identity>, c: int) {
    c in db.cases && !Civil(db.cases[c]) && db.cases[c].lawyerId == firm && IdentityOf(db.cases[c]) in sel
  }

  lemma BatchUniqueIff(db: Db, firm: int, sel: set<Identity>)
    requires WellFormed(db) && sel <= DuplicateIdentities(db.cases)
    ensures UniqueCases(CasesAfter(db, firm, sel, true)) <==> forall c :: !FirmTwin(db, firm, sel, c)
  {
    var cases := CasesAfter(db, firm, sel, true);
    if c :| FirmTwin(db, firm, sel, c) {
      var id := IdentityOf(db.cases[c]);
      DuplicateIff(db.cases, id);
      assert Group(db.cases, id) != {};
      WinnerInGroup(db, id);
      assert Kept(db, sel, WinnerOf(db, id)) && Kept(db, sel, c);
      assert Twins(cases, c, WinnerOf(db, id));
    } else {
      forall i, j | i in cases && j in cases && Twins(cases, i, j) ensures i == j {
        BatchTwins(db, firm, sel, i, j);
      }
    }
  }

  /** A batched run fails exactly when a firm-owned non-civil case holds an identity of the batch. */
  lemma BatchSucceedsIff(db: Db, firm: int, limit: Option<int>, only: Option<set<Identity>>)
    requires WellFormed(db) && (limit.Some? || only.Some?)
    ensures Run(db, firm, limit, only).Ok? <==>
      forall c :: !FirmTwin(db, firm, Elements(BatchIdentities(db.cases, limit, only)), c)
  {
    RunOutcome(db, firm, limit, only);
    BatchUniqueIff(db, firm, Elements(BatchIdentities(db.cases, limit, only)));
  }

  lemma BatchTwins(db: Db, firm: int, sel: set<Identity>, i: int, j: int)
    requires sel <= DuplicateIdentities(db.cases) && UniqueCases(db.cases)
    requires forall c :: !FirmTwin(db, firm, sel, c)
    requires i in CasesAfter(db, firm, sel, true) && j in CasesAfter(db, firm, sel, true)
    requires Twins(CasesAfter(db, firm, sel, true), i, j)
    ensures i == j
  {
    var scope := Scope(db, sel, true);
    if i in scope {
      WinnerAlone(db, firm, sel, i, j);
    } else if j in scope {
      WinnerAlone(db, firm, sel, j, i);
    } else {
      assert Twins(db.cases, i, j);
    }
  }

  lemma WinnerAlone(db: Db, firm: int, sel: set<Identity>, w: int, j: int)
    requires sel <= DuplicateIdentities(db.cases) && (forall c :: !FirmTwin(db, firm, sel, c))
    requires w in Scope(db, sel, true) && w in db.cases && Kept(db, sel, j)
    requires IdentityOf(db.cases[w]) == IdentityOf(db.cases[j])
    requires j in Scope(db, sel, true) || db.cases[j].lawyerId == firm
    ensures w == j
  {
    var id :| id in sel && w == WinnerOf(db, id);
    DuplicateIff(db.cases, id);
    assert Group(db.cases, id) != {};
    WinnerInGroup(db, id);
    assert !FirmTwin(db, firm, sel, j);
    if j in Scope(db, sel, true) {
      var jd :| jd in sel && j == WinnerOf(db, jd);
      DuplicateIff(db.cases, jd);
      assert Group(db.cases, jd) != {};
      WinnerInGroup(db, jd);
    }
  }

  lemma AfterIsWellFormed(db: Db, firm: int, ids: seq<Identity>, batched: bool)
    requires WellFormed(db) && DuplicateSelection(db.cases, ids) && ValidGroups(db.cases, GroupsOf(db.cases, ids))
    requires UniqueCases(CasesAfter(db, firm, Elements(ids), batched))
    ensures WellFormed(MergeGroups(db, GroupsOf(db.cases, ids)).(cases := CasesAfter(db, firm, Elements(ids), batched)))
  {
    MergeGroupsOk(db, GroupsOf(db.cases, ids), db.cases.Keys);
    DeletionLeaves(db, ids);
    assert CasesAfter(db, firm, Elements(ids), batched).Keys ==
      db.cases.Keys - AllLosers(db.kids, GroupsOf(db.cases, ids));
  }

  /** A successful run leaves a well-formed database in which the selected identities are settled. */
  lemma RunKeepsWellFormed(db: Db, firm: int, limit: Option<int>, only: Option<set<Identity>>)
    requires WellFormed(db) && Run(db, firm, limit, only).Ok?
    ensures
      var db' := Run(db, firm, limit, only).value.0;
      var sel := Elements(BatchIdentities(db.cases, limit, only));
      && WellFormed(db')
      && db'.cases.Keys == Survivors(db, sel).Keys
      && DuplicateIdentities(db'.cases) == DuplicateIdentities(db.cases) - sel
  {
    hide WellFormed, UniqueCases, Run, MergeGroups, BatchIdentities, ValidGroups;
    var ids := BatchIdentities(db.cases, limit, only);
    var batched := limit.Some? || only.Some?;
    RunOutcome(db, firm, limit, only);
    AfterIsWellFormed(db, firm, ids, batched);
    DuplicatesAfterDelete(db, Elements(ids));
    ReownGroups(Survivors(db, Elements(ids)), Scope(db, Elements(ids), batched), firm);
  }

  // ----- databases on which the run fails

  const NO_ROWS := Kids(map[], map[], map[], map[], map[], map[], map[], map[], map[], map[], map[], map[])

  function Bare(cases: map<int, Case>): Db { Db(cases, NO_ROWS, {}, []) }

  function Copy(lawyer: int, competencia: string): Case {
    Case(lawyer, "C-1-2024", 1, None, Some(competencia))
  }

  lemma BareIsWellFormed(cases: map<int, Case>)
    requires UniqueCases(cases) && forall c :: c in cases ==> c > 0
    ensures WellFormed(Bare(cases))
  {}

  /** A civil case and a labour case of one rol, court and cuaderno: the full run fails on `uq_cases_identity`. */
  lemma FullRunCanFail()
    ensures
      var db := Bare(map[1 := Copy(7, "civil"), 2 := Copy(8, "laboral")]);
      WellFormed(db) && Run(db, 7, None, None) == Err(UniqueViolation)
  {
    var cases := map[1 := Copy(7, "civil"), 2 := Copy(8, "laboral")];
    BareIsWellFormed(cases);
    assert IdentityOf(cases[2]) == IdentityOf(cases[1]) && !Civil(cases[2]);
    FullRunSucceedsIff(Bare(cases), 7);
    RunOutcome(Bare(cases), 7, None, None);
  }

  /** Two civil copies and a labour case the firm owns: so does the batch of their identity. */
  lemma BatchCanFail()
    ensures
      var db := Bare(map[1 := Copy(7, "civil"), 2 := Copy(9, "civil"), 3 := Copy(8, "laboral")]);
      WellFormed(db) && Run(db, 8, Some(1), None) == Err(UniqueViolation)
  {
    var cases := map[1 := Copy(7, "civil"), 2 := Copy(9, "civil"), 3 := Copy(8, "laboral")];
    var db, id := Bare(cases), IdentityOf(Copy(7, "civil"));
    BareIsWellFormed(cases);
    assert Group(cases, id) == {1, 2};
    OnlyDuplicate(cases, id);
    var ids := BatchIdentities(cases, Some(1), None);
    assert id in Elements(ids);
    assert FirmTwin(db, 8, Elements(ids), 3);
    BatchSucceedsIff(db, 8, Some(1), None);
    RunOutcome(db, 8, Some(1), None);
  }

  lemma OnlyDuplicate(cases: map<int, Case>, id: Identity)
    requires |Group(cases, id)| > 1 && forall c :: c in cases ==> IdentityOf(cases[c]) == id
    ensures BatchIdentities(cases, Some(1), None) == [id]
  {
    DuplicateIff(cases, id);
    var found := DuplicateIdentities(cases);
    assert found == {id};
    var ids := SortedIdentities(found);
    assert |ids| == 1 && ids[0] in Elements(ids);
    assert ids == [id] && ids[..1] == ids;
  }
}
