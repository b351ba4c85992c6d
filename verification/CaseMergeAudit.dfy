/**
 * The audit trail: every deleted case is recorded once against the case that
 * inherited its rows, and the trail always ends at a live case.
 */
module CaseMergeAudit {
  import opened Options
  import opened Ordering
  import opened CaseTables
  import opened CaseMerge
  import opened CaseMergeSafety
  import opened CaseMergeRun
  import opened CaseMergeBatches

  // ----- what the fold does to the audit rows

  lemma {:induction false} MergeLosersAudit(db: Db, losers: seq<int>, winner: int)
    requires winner !in losers
    ensures
      var a := MergeLosers(db, losers, winner).audit;
      && |a| == |db.audit|
      && forall i :: 0 <= i < |a| ==>
          a[i] == if db.audit[i].winner in losers then db.audit[i].(winner := winner) else db.audit[i]
    decreases |losers|
  {
    if losers != [] {
      MergeLosersAudit(MergePair(db, losers[0], winner), losers[1..], winner);
      assert losers == [losers[0]] + losers[1..];
    }
  }

  /** The case that holds the rows of `c` once the groups are merged. */
  ghost function Heir(k: Kids, gs: seq<seq<int>>, c: int): int
    requires forall i :: 0 <= i < |gs| ==> gs[i] != []
    decreases |gs|
  {
    if gs == [] then c else if c in Losers(k, gs[0]) then Winner(k, gs[0]) else Heir(k, gs[1..], c)
  }

  lemma {:induction false} HeirOutside(k: Kids, gs: seq<seq<int>>, c: int)
    requires forall i :: 0 <= i < |gs| ==> gs[i] != [] && c !in gs[i]
    ensures Heir(k, gs, c) == c
    decreases |gs|
  {
    if gs != [] {
      assert c !in Elements(Losers(k, gs[0]));
      HeirOutside(k, gs[1..], c);
    }
  }

  lemma {:induction false} HeirSame(a: Kids, b: Kids, gs: seq<seq<int>>, c: int)
    requires forall i :: 0 <= i < |gs| ==> gs[i] != [] && Winner(a, gs[i]) == Winner(b, gs[i])
    ensures Heir(a, gs, c) == Heir(b, gs, c)
    decreases |gs|
  {
    if gs != [] {
      HeirSame(a, b, gs[1..], c);
    }
  }

  /** Old rows follow their winner to its heir; the new rows record the losers in order, one row each. */
  ghost predicate AuditAccounted(k: Kids, cases: map<int, Case>, gs: seq<seq<int>>, before: seq<Audit>,
                                 after: seq<Audit>)
    requires forall i :: 0 <= i < |gs| ==> gs[i] != []
  {
    && |after| == |before| + LoserCount(k, gs)
    && (forall i :: 0 <= i < |before| ==> after[i] == before[i].(winner := Heir(k, gs, before[i].winner)))
    && (forall i :: |before| <= i < |after| ==> NewRow(k, cases, gs, after[i]))
    && (forall i :: 0 <= i < LoserCount(k, gs) ==> after[|before| + i].loser == LosersInOrder(k, gs)[i])
  }

  /** The losers of all groups, in the order they are recorded. */
  ghost function LosersInOrder(k: Kids, gs: seq<seq<int>>): (ls: seq<int>)
    requires forall i :: 0 <= i < |gs| ==> gs[i] != []
    ensures |ls| == LoserCount(k, gs)
    decreases |gs|
  {
    if gs == [] then [] else Losers(k, gs[0]) + LosersInOrder(k, gs[1..])
  }

  ghost predicate NewRow(k: Kids, cases: map<int, Case>, gs: seq<seq<int>>, a: Audit)
    requires forall i :: 0 <= i < |gs| ==> gs[i] != []
  {
    && a.loser in AllLosers(k, gs) && a.loser in cases
    && a == Audit(a.loser, Heir(k, gs, a.loser), cases[a.loser].lawyerId, cases[a.loser].rol)
  }

  ghost function LoserCount(k: Kids, gs: seq<seq<int>>): nat
    requires forall i :: 0 <= i < |gs| ==> gs[i] != []
    decreases |gs|
  {
    if gs == [] then 0 else |Losers(k, gs[0])| + LoserCount(k, gs[1..])
  }

  lemma FirstGroupAudit(db: Db, gs: seq<seq<int>>, i: nat)
    requires ValidGroups(db.cases, gs) && gs != []
    ensures
      var ls, w := Losers(db.kids, gs[0]), Winner(db.kids, gs[0]);
      var a := MergeGroup(db, gs[0]).audit;
      && |a| == |db.audit| + |ls|
      && (i < |db.audit| ==> a[i] == if db.audit[i].winner in ls then db.audit[i].(winner := w) else db.audit[i])
      && (|db.audit| <= i < |a| ==>
         ls[i - |db.audit|] in Elements(ls) && a[i] == AuditRows(db.cases, ls, w)[i - |db.audit|])
  {
    assert Winner(db.kids, gs[0]) !in Elements(Losers(db.kids, gs[0]));
    hide MergeLosers, BackfillSources, Winner, Losers, ValidGroups;
    MergeLosersAudit(Prepared(db, gs[0]), Losers(db.kids, gs[0]), Winner(db.kids, gs[0]));
  }

  /** The winner of the first group keeps what it holds through the other groups. */
  lemma FirstWinnerStays(db: Db, gs: seq<seq<int>>, c: int)
    requires ValidGroups(db.cases, gs) && gs != []
    ensures
      var w := Winner(db.kids, gs[0]);
      var k1 := MergeGroup(db, gs[0]).kids;
      && Heir(k1, gs[1..], w) == w
      && Heir(k1, gs[1..], c) == Heir(db.kids, gs[1..], c)
      && LoserCount(k1, gs[1..]) == LoserCount(db.kids, gs[1..])
      && LosersInOrder(k1, gs[1..]) == LosersInOrder(db.kids, gs[1..])
  {
    LosersUpFront(db, gs);
    var k1 := MergeGroup(db, gs[0]).kids;
    var w := Winner(db.kids, gs[0]);
    assert w in Elements(gs[0]);
    forall i | 0 <= i < |gs[1..]| ensures w !in gs[1..][i] {
      assert Elements(gs[0]) !! Elements(gs[i + 1]);
      assert w !in Elements(gs[i + 1]);
    }
    HeirOutside(k1, gs[1..], w);
    HeirSame(k1, db.kids, gs[1..], c);
    LoserCountSame(k1, db.kids, gs[1..]);
  }

  lemma {:induction false} LoserCountSame(a: Kids, b: Kids, gs: seq<seq<int>>)
    requires forall i :: 0 <= i < |gs| ==> gs[i] != [] && Winner(a, gs[i]) == Winner(b, gs[i])
    ensures LoserCount(a, gs) == LoserCount(b, gs) && LosersInOrder(a, gs) == LosersInOrder(b, gs)
    decreases |gs|
  {
    if gs != [] {
      LoserCountSame(a, b, gs[1..]);
    }
  }

  lemma LoserOfOneGroup(db: Db, gs: seq<seq<int>>, c: int)
    requires ValidGroups(db.cases, gs) && gs != [] && c in AllLosers(MergeGroup(db, gs[0]).kids, gs[1..])
    ensures c !in Losers(db.kids, gs[0])
  {
    var k1 := MergeGroup(db, gs[0]).kids;
    var i :| 0 <= i < |gs[1..]| && c in Losers(k1, gs[1..][i]);
    assert c in Elements(Losers(k1, gs[1..][i]));
    assert Elements(gs[0]) !! Elements(gs[i + 1]);
    assert c !in Elements(Losers(db.kids, gs[0]));
  }

  /** The audit after merging the groups. */
  lemma {:induction false} MergeGroupsAudit(db: Db, gs: seq<seq<int>>)
    requires ValidGroups(db.cases, gs)
    ensures AuditAccounted(db.kids, db.cases, gs, db.audit, MergeGroups(db, gs).audit)
    decreases |gs|
  {
    if gs != [] {
      var next := FirstGroup(db, gs);
      MergeGroupsAudit(next, gs[1..]);
      LosersUpFront(db, gs);
      FirstWinnerStays(db, gs, 0);
      FirstGroupAudit(db, gs, 0);
      var after := MergeGroups(db, gs).audit;
      forall i | 0 <= i < |db.audit| ensures after[i] == db.audit[i].(winner := Heir(db.kids, gs, db.audit[i].winner)) {
        FirstGroupAudit(db, gs, i);
        FirstWinnerStays(db, gs, db.audit[i].winner);
      }
      forall i | |db.audit| <= i < |after| ensures NewRow(db.kids, db.cases, gs, after[i]) {
        NewRowStep(db, gs, next.audit, after, i);
      }
      forall i | 0 <= i < LoserCount(db.kids, gs) ensures after[|db.audit| + i].loser == LosersInOrder(db.kids, gs)[i] {
        LoserInOrder(db, gs, next.audit, after, i);
      }
    }
  }

  lemma LoserInOrder(db: Db, gs: seq<seq<int>>, mid: seq<Audit>, after: seq<Audit>, i: nat)
    requires ValidGroups(db.cases, gs) && gs != [] && mid == MergeGroup(db, gs[0]).audit
    requires forall j :: 0 <= j < |gs[1..]| ==> gs[1..][j] != []
    requires AuditAccounted(MergeGroup(db, gs[0]).kids, db.cases, gs[1..], mid, after)
    requires i < LoserCount(db.kids, gs) && |after| == |db.audit| + LoserCount(db.kids, gs)
    ensures after[|db.audit| + i].loser == LosersInOrder(db.kids, gs)[i]
  {
    hide MergeGroup, NewRow, Heir, AuditRows, Losers;
    var ls, rest := Losers(db.kids, gs[0]), LosersInOrder(db.kids, gs[1..]);
    FirstWinnerStays(db, gs, 0);
    FirstGroupLosers(db, gs);
    JoinLosers(ls, rest, |db.audit|, mid, after, i);
  }

  lemma FirstGroupLosers(db: Db, gs: seq<seq<int>>)
    requires ValidGroups(db.cases, gs) && gs != []
    ensures
      var ls, mid := Losers(db.kids, gs[0]), MergeGroup(db, gs[0]).audit;
      |mid| == |db.audit| + |ls| && forall j :: 0 <= j < |ls| ==> mid[|db.audit| + j].loser == ls[j]
  {
    hide MergeGroup;
    FirstGroupAudit(db, gs, 0);
    forall j | 0 <= j < |Losers(db.kids, gs[0])|
      ensures MergeGroup(db, gs[0]).audit[|db.audit| + j].loser == Losers(db.kids, gs[0])[j]
    {
      FirstGroupAudit(db, gs, |db.audit| + j);
    }
  }

  lemma JoinLosers(ls: seq<int>, rest: seq<int>, n: nat, mid: seq<Audit>, after: seq<Audit>, i: nat)
    requires |mid| == n + |ls| && |after| == |mid| + |rest| && i < |ls| + |rest|
    requires forall j :: 0 <= j < |ls| ==> mid[n + j].loser == ls[j]
    requires forall j :: 0 <= j < |mid| ==> after[j].loser == mid[j].loser
    requires forall j :: 0 <= j < |rest| ==> after[|mid| + j].loser == rest[j]
    ensures after[n + i].loser == (ls + rest)[i]
  {
    if i < |ls| {
      assert mid[n + i].loser == ls[i];
    } else {
      assert after[|mid| + (i - |ls|)].loser == rest[i - |ls|];
    }
  }

  /** Each loser of a run is recorded exactly once. */
  lemma OneRowPerLoser(db: Db, gs: seq<seq<int>>, i: nat, j: nat)
    requires ValidGroups(db.cases, gs) && forall g :: 0 <= g < |gs| ==> Ascending(gs[g], IntLess)
    requires |db.audit| <= i < j < |MergeGroups(db, gs).audit|
    ensures MergeGroups(db, gs).audit[i].loser != MergeGroups(db, gs).audit[j].loser
  {
    hide MergeGroups, ValidGroup;
    RecordedInOrder(db, gs, i);
    RecordedInOrder(db, gs, j);
    DistinctLosers(db.kids, gs, i - |db.audit|, j - |db.audit|);
  }

  lemma RecordedInOrder(db: Db, gs: seq<seq<int>>, i: nat)
    requires ValidGroups(db.cases, gs) && |db.audit| <= i < |MergeGroups(db, gs).audit|
    ensures forall g :: 0 <= g < |gs| ==> gs[g] != []
    ensures |MergeGroups(db, gs).audit| == |db.audit| + LoserCount(db.kids, gs)
    ensures MergeGroups(db, gs).audit[i].loser == LosersInOrder(db.kids, gs)[i - |db.audit|]
  {
    hide MergeGroups, NewRow, Heir;
    MergeGroupsAudit(db, gs);
    assert MergeGroups(db, gs).audit[|db.audit| + (i - |db.audit|)].loser == LosersInOrder(db.kids, gs)[i - |db.audit|];
  }

  lemma RecordedLoser(k: Kids, gs: seq<seq<int>>, i: nat)
    requires forall g :: 0 <= g < |gs| ==> gs[g] != []
    requires i < LoserCount(k, gs)
    ensures exists g :: 0 <= g < |gs| && LosersInOrder(k, gs)[i] in Elements(gs[g])
    decreases |gs|
  {
    var ls := Losers(k, gs[0]);
    if i < |ls| {
      assert ls[i] in Elements(ls);
      assert ls[i] in Elements(gs[0]);
    } else {
      RecordedLoser(k, gs[1..], i - |ls|);
      var g :| 0 <= g < |gs[1..]| && LosersInOrder(k, gs[1..])[i - |ls|] in Elements(gs[1..][g]);
      assert LosersInOrder(k, gs)[i] in Elements(gs[g + 1]);
    }
  }

  lemma {:induction false} DistinctLosers(k: Kids, gs: seq<seq<int>>, i: nat, j: nat)
    requires forall g :: 0 <= g < |gs| ==> gs[g] != [] && Ascending(gs[g], IntLess)
    requires forall g, h :: 0 <= g < h < |gs| ==> Elements(gs[g]) !! Elements(gs[h])
    requires i < j < LoserCount(k, gs)
    ensures LosersInOrder(k, gs)[i] != LosersInOrder(k, gs)[j]
    decreases |gs|
  {
    var ls := Losers(k, gs[0]);
    if j < |ls| {
      assert IntLess(ls[i], ls[j]);
    } else if i < |ls| {
      assert ls[i] in Elements(ls) && ls[i] in Elements(gs[0]);
      RecordedLoser(k, gs[1..], j - |ls|);
      var g :| 0 <= g < |gs[1..]| && LosersInOrder(k, gs[1..])[j - |ls|] in Elements(gs[1..][g]);
      assert Elements(gs[0]) !! Elements(gs[g + 1]);
    } else {
      forall g, h | 0 <= g < h < |gs[1..]| ensures Elements(gs[1..][g]) !! Elements(gs[1..][h]) {
        assert Elements(gs[g + 1]) !! Elements(gs[h + 1]);
      }
      DistinctLosers(k, gs[1..], i - |ls|, j - |ls|);
    }
  }

  lemma FirstGroupNewRow(db: Db, gs: seq<seq<int>>, i: nat)
    requires ValidGroups(db.cases, gs) && gs != []
    ensures |db.audit| <= i < |MergeGroup(db, gs[0]).audit| ==>
      var a := MergeGroup(db, gs[0]).audit[i];
      && a.loser in Losers(db.kids, gs[0]) && a.loser in db.cases
      && a == Audit(a.loser, Winner(db.kids, gs[0]), db.cases[a.loser].lawyerId, db.cases[a.loser].rol)
  {
    hide MergeGroup;
    FirstGroupAudit(db, gs, i);
  }

  lemma NewRowStep(db: Db, gs: seq<seq<int>>, mid: seq<Audit>, after: seq<Audit>, i: nat)
    requires ValidGroups(db.cases, gs) && gs != [] && mid == MergeGroup(db, gs[0]).audit
    requires forall j :: 0 <= j < |gs[1..]| ==> gs[1..][j] != []
    requires AuditAccounted(MergeGroup(db, gs[0]).kids, db.cases, gs[1..], mid, after)
    requires |db.audit| <= i < |after|
    ensures NewRow(db.kids, db.cases, gs, after[i])
  {
    if i < |mid| {
      FirstGroupNewRow(db, gs, i);
      NewRowOfFirst(db, gs, mid[i]);
    } else {
      NewRowOfLater(db, gs, after[i]);
    }
  }

  lemma NewRowOfFirst(db: Db, gs: seq<seq<int>>, a: Audit)
    requires ValidGroups(db.cases, gs) && gs != []
    requires a.loser in Losers(db.kids, gs[0]) && a.loser in db.cases
    requires a == Audit(a.loser, Winner(db.kids, gs[0]), db.cases[a.loser].lawyerId, db.cases[a.loser].rol)
    ensures NewRow(db.kids, db.cases, gs, a.(winner := Heir(MergeGroup(db, gs[0]).kids, gs[1..], a.winner)))
  {
    FirstWinnerStays(db, gs, a.loser);
  }

  lemma NewRowOfLater(db: Db, gs: seq<seq<int>>, a: Audit)
    requires ValidGroups(db.cases, gs) && gs != []
    requires (forall i :: 0 <= i < |gs[1..]| ==> gs[1..][i] != [])
      && NewRow(MergeGroup(db, gs[0]).kids, db.cases, gs[1..], a)
    ensures NewRow(db.kids, db.cases, gs, a)
  {
    FirstWinnerStays(db, gs, a.loser);
    LosersUpFront(db, gs);
    LoserOfOneGroup(db, gs, a.loser);
  }

  // ----- the chain over whole histories

  /** Every audit row names a live winner and a loser that is gone. */
  ghost predicate ChainOk(db: Db) {
    forall i :: 0 <= i < |db.audit| ==> db.audit[i].winner in db.cases && db.audit[i].loser !in db.cases
  }

  /** A successful run keeps the audit chain. */
  lemma RunKeepsChain(db: Db, firm: int, limit: Option<int>, only: Option<set<Identity>>)
    requires WellFormed(db) && ChainOk(db) && Run(db, firm, limit, only).Ok?
    ensures ChainOk(Run(db, firm, limit, only).value.0)
  {
    var ids := BatchIdentities(db.cases, limit, only);
    RunOutcome(db, firm, limit, only);
    RunKeepsWellFormed(db, firm, limit, only);
    DeletionLeaves(db, ids);
    MergeGroupsAudit(db, GroupsOf(db.cases, ids));
    AuditLosersGone(db, GroupsOf(db.cases, ids), Survivors(db, Elements(ids)));
  }

  /** The arguments of one call. */
  datatype Arguments = Arguments(limit: Option<int>, only: Option<set<Identity>>)

  /** Calls one after another, each committed if it succeeds and rolled back if not. */
  ghost function AfterRuns(db: Db, firm: int, calls: seq<Arguments>): Db {
    if calls == [] then db else
      var before := AfterRuns(db, firm, calls[..|calls| - 1]);
      var last := calls[|calls| - 1];
      match Run(before, firm, last.limit, last.only)
      case Ok(r) => r.0
      case Err(_) => before
  }

  /** After any sequence of merges every audit row names a live winner and a loser that is gone. */
  lemma {:induction false} RunsKeepChain(db: Db, firm: int, calls: seq<Arguments>)
    requires WellFormed(db) && ChainOk(db)
    ensures WellFormed(AfterRuns(db, firm, calls)) && ChainOk(AfterRuns(db, firm, calls))
  {
    hide Run, WellFormed, ChainOk;
    if calls != [] {
      var before, last := AfterRuns(db, firm, calls[..|calls| - 1]), calls[|calls| - 1];
      RunsKeepChain(db, firm, calls[..|calls| - 1]);
      if Run(before, firm, last.limit, last.only).Ok? {
        RunKeepsChain(before, firm, last.limit, last.only);
        RunKeepsWellFormed(before, firm, last.limit, last.only);
      }
    }
  }

  lemma AuditLosersGone(db: Db, gs: seq<seq<int>>, left: map<int, Case>)
    requires ValidGroups(db.cases, gs) && ChainOk(db) && left == db.cases - AllLosers(db.kids, gs)
    requires AuditAccounted(db.kids, db.cases, gs, db.audit, MergeGroups(db, gs).audit)
    ensures forall i :: 0 <= i < |MergeGroups(db, gs).audit| ==> MergeGroups(db, gs).audit[i].loser !in left
  {
    var after := MergeGroups(db, gs).audit;
    forall i | 0 <= i < |after| ensures after[i].loser !in left {
      if i >= |db.audit| {
        assert NewRow(db.kids, db.cases, gs, after[i]);
      }
    }
  }

  // ----- idempotence

  const NOTHING := Summary(0, 0, 0, 0, 0, [])

  /** With no duplicates left, a batched run changes nothing and reports zeros. */
  lemma BatchedRerunIsNoop(db: Db, firm: int, limit: Option<int>, only: Option<set<Identity>>)
    requires WellFormed(db) && DuplicateIdentities(db.cases) == {} && (limit.Some? || only.Some?)
    ensures Run(db, firm, limit, only) == Ok((db, NOTHING))
  {
    NothingSelected(db, limit, only);
    RunOutcome(db, firm, limit, only);
    assert Scope(db, {}, true) == {};
    assert CasesAfter(db, firm, {}, true) == db.cases;
    SummaryOfNothing(db, firm, limit, only);
  }

  lemma NothingSelected(db: Db, limit: Option<int>, only: Option<set<Identity>>)
    requires DuplicateIdentities(db.cases) == {}
    ensures BatchIdentities(db.cases, limit, only) == []
    ensures GroupsOf(db.cases, []) == []
    ensures Survivors(db, {}) == db.cases
  {
    assert only.Some? ==> {} * only.value == {};
    assert SortedIdentities({}) == [];
  }

  lemma SummaryOfNothing(db: Db, firm: int, limit: Option<int>, only: Option<set<Identity>>)
    requires WellFormed(db) && DuplicateIdentities(db.cases) == {}
    requires limit.Some? || only.Some? || forall c :: c in db.cases ==> db.cases[c].lawyerId == firm
    requires BatchIdentities(db.cases, limit, only) == [] && Run(db, firm, limit, only).Ok?
    requires Run(db, firm, limit, only).value.0 == db
    ensures Run(db, firm, limit, only).value.1 == Summary(0, 0, 0, 0, 0, [])
  {
    var gs: seq<seq<int>> := GroupsOf(db.cases, []);
    assert AllLosers(db.kids, gs) == {} && AllWinners(db.kids, gs) == {};
    var left := db.cases - {};
    assert left == db.cases;
    assert ReownedIds(left, ReownScope(left, {}, limit.Some? || only.Some?), firm) == {};
  }

  /**
   * A full run over a database without duplicates changes nothing, and reports
   * no merge, deletion or re-own, exactly when the firm owns every case.
   */
  lemma FullRerunIsNoopIff(db: Db, firm: int)
    requires WellFormed(db) && NonCivilApart(db.cases) && DuplicateIdentities(db.cases) == {}
    ensures Full(db, firm) == db <==> forall c :: c in db.cases ==> db.cases[c].lawyerId == firm
    ensures Run(db, firm, None, None) == Ok((db, NOTHING)) <==>
      forall c :: c in db.cases ==> db.cases[c].lawyerId == firm
  {
    FullOfSettled(db, firm);
    if Full(db, firm) == db {
      forall c | c in db.cases ensures db.cases[c].lawyerId == firm {
        assert db.cases[c] == Reown(db.cases, db.cases.Keys, firm)[c];
      }
    }
    if forall c :: c in db.cases ==> db.cases[c].lawyerId == firm {
      assert Reown(db.cases, db.cases.Keys, firm) == db.cases;
      OwnedRerunReports(db, firm);
    }
  }

  lemma OwnedRerunReports(db: Db, firm: int)
    requires WellFormed(db) && NonCivilApart(db.cases) && DuplicateIdentities(db.cases) == {} && Full(db, firm) == db
    requires forall c :: c in db.cases ==> db.cases[c].lawyerId == firm
    ensures Run(db, firm, None, None) == Ok((db, NOTHING))
  {
    FullRunSucceedsIff(db, firm);
    NothingSelected(db, None, None);
    SummaryOfNothing(db, firm, None, None);
  }

  /** Merging twice is merging once, and the second time reports nothing. */
  lemma FullRunIdempotent(db: Db, firm: int)
    requires WellFormed(db) && NonCivilApart(db.cases)
    ensures Full(Full(db, firm), firm) == Full(db, firm)
    ensures Run(Full(db, firm), firm, None, None) == Ok((Full(db, firm), NOTHING))
  {
    FullOutcome(db, firm);
    FullUniqueIff(db, firm);
    var all := SortedIdentities(DuplicateIdentities(db.cases));
    FullSettles(db, firm, all);
    FullRerunIsNoopIff(After(db, firm, all, false), firm);
  }

  lemma FullSettles(db: Db, firm: int, all: seq<Identity>)
    requires WellFormed(db) && NonCivilApart(db.cases)
    requires DuplicateSelection(db.cases, all) && Elements(all) == DuplicateIdentities(db.cases)
    requires ValidGroups(db.cases, GroupsOf(db.cases, all)) && UniqueCases(CasesAfter(db, firm, Elements(all), false))
    ensures
      var f := After(db, firm, all, false);
      && WellFormed(f) && NonCivilApart(f.cases) && DuplicateIdentities(f.cases) == {}
      && forall c :: c in f.cases ==> f.cases[c].lawyerId == firm
  {
    AfterIsWellFormed(db, firm, all, false);
    DuplicatesAfterDelete(db, Elements(all));
    ReownGroups(Survivors(db, Elements(all)), Scope(db, Elements(all), false), firm);
    FullApart(db, firm);
  }

  lemma FullApart(db: Db, firm: int)
    requires NonCivilApart(db.cases)
    ensures NonCivilApart(CasesAfter(db, firm, DuplicateIdentities(db.cases), false))
  {
    var cases := CasesAfter(db, firm, DuplicateIdentities(db.cases), false);
    forall i, j | i in cases && j in cases && i != j && IdentityOf(cases[i]) == IdentityOf(cases[j])
      ensures Civil(cases[i]) {
      assert IdentityOf(db.cases[i]) == IdentityOf(db.cases[j]);
    }
  }
}
