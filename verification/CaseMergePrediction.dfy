/**
 * The totals of the report against the effect of the merge, unbatched and over
 * any history of batches.
 */
module CaseMergePrediction {
  import opened Options
  import opened Ordering
  import opened ChildTable
  import opened CaseTables
  import opened CaseMerge
  import opened CaseMergeSafety
  import opened CaseMergeRun
  import opened CaseMergeBatches
  import opened CaseMergeReport
  import opened CaseMergeAudit

  datatype Counts = Counts(groups: nat, contained: nat, unioned: nat, surplus: nat, changesOwner: nat)

  function Plus(a: Counts, b: Counts): Counts {
    Counts(a.groups + b.groups, a.contained + b.contained, a.unioned + b.unioned, a.surplus + b.surplus,
           a.changesOwner + b.changesOwner)
  }

  /** What the report says of one group, read on the untouched database. */
  ghost function GroupCounts(db: Db, firm: int, id: Identity): Counts {
    var g := GroupIds(db.cases, id);
    if g == [] then Counts(1, 0, 0, 0, 0) else
      var w, ls := Winner(db.kids, g), Losers(db.kids, g);
      assert w in Elements(g);
      Counts(1, Contained(db.kids.movements, ls, w), Unioned(db.kids.movements, ls, w), |ls|,
             if db.cases[w].lawyerId != firm then 1 else 0)
  }

  ghost function CountsOf(db: Db, firm: int): Identity -> Counts {
    id => GroupCounts(db, firm, id)
  }

  /** Totals over a list of groups. */
  ghost function Total(ids: seq<Identity>, f: Identity -> Counts): Counts {
    if ids == [] then Counts(0, 0, 0, 0, 0) else Plus(f(ids[0]), Total(ids[1..], f))
  }

  lemma {:induction false} TotalAppend(a: seq<Identity>, b: seq<Identity>, f: Identity -> Counts)
    ensures Total(a + b, f) == Plus(Total(a, f), Total(b, f))
  {
    if a == [] {
      assert a + b == b;
    } else {
      assert (a + b)[1..] == a[1..] + b;
      TotalAppend(a[1..], b, f);
    }
  }

  lemma TotalOne(id: Identity, f: Identity -> Counts)
    ensures Total([id], f) == f(id)
  {
    assert [id][1..] == [];
  }

  lemma TotalTake(ids: seq<Identity>, i: nat, f: Identity -> Counts)
    requires i < |ids|
    ensures Total(ids[..i + 1], f) == Plus(Total(ids[..i], f), f(ids[i]))
  {
    assert ids[..i + 1] == ids[..i] + [ids[i]];
    TotalAppend(ids[..i], [ids[i]], f);
    TotalOne(ids[i], f);
  }

  lemma DropFirst(a: seq<Identity>, b: seq<Identity>, i: nat)
    requires a != [] && multiset(a) == multiset(b) && i < |b| && b[i] == a[0]
    ensures multiset(a[1..]) == multiset(b[..i] + b[i + 1..])
  {
    assert a == [a[0]] + a[1..];
    assert b == b[..i] + [b[i]] + b[i + 1..];
    assert multiset(a) == multiset{a[0]} + multiset(a[1..]);
    assert multiset(b) == multiset(b[..i]) + multiset{b[i]} + multiset(b[i + 1..]);
    assert multiset(b[..i] + b[i + 1..]) == multiset(b[..i]) + multiset(b[i + 1..]);
    assert multiset(a[1..]) == multiset(a) - multiset{a[0]};
  }

  /** The totals do not depend on the order in which the report lists the groups. */
  lemma {:induction false} TotalAnyOrder(a: seq<Identity>, b: seq<Identity>, f: Identity -> Counts)
    requires multiset(a) == multiset(b)
    ensures Total(a, f) == Total(b, f)
  {
    if a == [] {
      assert |multiset(b)| == 0;
    } else {
      assert a[0] in multiset(b);
      var i :| 0 <= i < |b| && b[i] == a[0];
      DropFirst(a, b, i);
      TotalAnyOrder(a[1..], b[..i] + b[i + 1..], f);
      assert b == b[..i] + ([b[i]] + b[i + 1..]);
      TotalAppend(b[..i], [b[i]] + b[i + 1..], f);
      TotalAppend([b[i]], b[i + 1..], f);
      TotalAppend(b[..i], b[i + 1..], f);
      TotalOne(b[i], f);
    }
  }

  /** One group of the report. */
  method ReportGroup(db: Db, firm: int, id: Identity) returns (counts: Counts, winner: int)
    requires id in DuplicateIdentities(db.cases)
    ensures counts == CountsOf(db, firm)(id) && winner == WinnerOf(db, id)
  {
    DuplicateIff(db.cases, id);
    var g := GroupIds(db.cases, id);
    winner := Winner(db.kids, g);
    assert winner in Elements(g);
    var losers := Without(g, winner);
    assert winner !in Elements(losers);
    AscendingDistinct(losers, IntLess);
    var contained, unioned := PredictGroup(db.kids, losers, winner);
    counts := Counts(1, contained, unioned, |losers|, if db.cases[winner].lawyerId != firm then 1 else 0);
  }

  /** The report's totals: every duplicate group once, in any order. */
  method BuildReport(db: Db, firm: int, order: seq<Identity>) returns (totals: Counts)
    requires forall i :: 0 <= i < |order| ==> order[i] in DuplicateIdentities(db.cases)
    ensures totals == Total(order, CountsOf(db, firm))
  {
    totals := Counts(0, 0, 0, 0, 0);
    for i := 0 to |order|
      invariant totals == Total(order[..i], CountsOf(db, firm))
    {
      var counts, winner := ReportGroup(db, firm, order[i]);
      totals := Plus(totals, counts);
      TotalTake(order, i, CountsOf(db, firm));
    }
    assert order[..|order|] == order;
  }

  // ----- the movements table through all the groups

  ghost function SumContained(k: Kids, gs: seq<seq<int>>): nat
    requires forall i :: 0 <= i < |gs| ==> gs[i] != []
    decreases |gs|
  {
    if gs == [] then 0 else Contained(k.movements, Losers(k, gs[0]), Winner(k, gs[0])) + SumContained(k, gs[1..])
  }

  ghost function SumUnioned(k: Kids, gs: seq<seq<int>>): nat
    requires forall i :: 0 <= i < |gs| ==> gs[i] != []
    decreases |gs|
  {
    if gs == [] then 0 else Unioned(k.movements, Losers(k, gs[0]), Winner(k, gs[0])) + SumUnioned(k, gs[1..])
  }

  lemma {:induction false} MergeLosersMovements(db: Db, losers: seq<int>, winner: int)
    requires winner !in losers
    ensures MergeLosers(db, losers, winner).kids.movements == MergeMovementRows(db.kids.movements, losers, winner)
    decreases |losers|
  {
    if losers != [] {
      MergeLosersMovements(MergePair(db, losers[0], winner), losers[1..], winner);
    }
  }

  lemma MergeGroupMovements(db: Db, g: seq<int>)
    requires ValidGroup(db.cases, g)
    ensures Winner(db.kids, g) !in Losers(db.kids, g)
    ensures MergeGroup(db, g).kids.movements ==
      MergeMovementRows(db.kids.movements, Losers(db.kids, g), Winner(db.kids, g))
  {
    assert Winner(db.kids, g) !in Elements(Losers(db.kids, g));
    MergeLosersMovements(Prepared(db, g), Losers(db.kids, g), Winner(db.kids, g));
  }

  ghost predicate SortedGroups(gs: seq<seq<int>>) {
    forall i :: 0 <= i < |gs| ==> Ascending(gs[i], IntLess)
  }

  lemma GroupCountsStay(db: Db, g: seq<int>, other: seq<int>)
    requires ValidGroup(db.cases, g) && other != [] && Elements(g) !! Elements(other) && Ascending(other, IntLess)
    ensures
      var k := MergeGroup(db, g).kids;
      && Winner(k, other) == Winner(db.kids, other)
      && Contained(k.movements, Losers(k, other), Winner(k, other)) ==
         Contained(db.kids.movements, Losers(db.kids, other), Winner(db.kids, other))
      && Unioned(k.movements, Losers(k, other), Winner(k, other)) ==
         Unioned(db.kids.movements, Losers(db.kids, other), Winner(db.kids, other))
  {
    var k := MergeGroup(db, g).kids;
    MergeGroupElsewhere(db, g, other);
    var w, ls := Winner(db.kids, other), Losers(db.kids, other);
    assert w in Elements(other) && w !in Elements(ls);
    AscendingDistinct(ls, IntLess);
    forall c | c in Elements(other) ensures SameMovements(k.movements, db.kids.movements, c) {
      assert SameRows(db.kids, k, c);
    }
    forall l | l in ls ensures SameMovements(k.movements, db.kids.movements, l) {
      assert l in Elements(ls);
    }
    CountsSame(k.movements, db.kids.movements, ls, w);
  }

  lemma {:induction false} SumsStay(db: Db, g: seq<int>, gs: seq<seq<int>>)
    requires ValidGroup(db.cases, g) && SortedGroups(gs)
    requires forall i :: 0 <= i < |gs| ==> gs[i] != [] && Elements(g) !! Elements(gs[i])
    ensures SumContained(MergeGroup(db, g).kids, gs) == SumContained(db.kids, gs)
    ensures SumUnioned(MergeGroup(db, g).kids, gs) == SumUnioned(db.kids, gs)
    decreases |gs|
  {
    if gs != [] {
      GroupCountsStay(db, g, gs[0]);
      SumsStay(db, g, gs[1..]);
    }
  }

  lemma {:induction false} OnlyOldMovements(db: Db, gs: seq<seq<int>>)
    requires ValidGroups(db.cases, gs)
    ensures MergeGroups(db, gs).kids.movements.Keys <= db.kids.movements.Keys
    decreases |gs|
  {
    if gs != [] {
      MergeGroupMovements(db, gs[0]);
      OnlyOldRows(db.kids.movements, Losers(db.kids, gs[0]), Winner(db.kids, gs[0]));
      var next := FirstGroup(db, gs);
      OnlyOldMovements(next, gs[1..]);
    }
  }

  /** Rows merged into a winner are out of reach of the other groups. */
  lemma WinnerRowsStay(db: Db, gs: seq<seq<int>>, w: int)
    requires ValidGroups(db.cases, gs) && forall i :: 0 <= i < |gs| ==> w !in gs[i]
    ensures
      var t, end := db.kids.movements, MergeGroups(db, gs).kids.movements;
      forall id :: id in t && t[id].caseId == Some(w) ==> id in end && end[id].caseId == t[id].caseId
  {
    MergeGroupsElsewhere(db, gs, [w]);
    assert w in Elements([w]);
    var t, end := db.kids.movements, MergeGroups(db, gs).kids.movements;
    assert SameRows(db.kids, MergeGroups(db, gs).kids, w);
    forall id | id in t && t[id].caseId == Some(w) ensures id in end && end[id].caseId == t[id].caseId {
      assert id in Ids(t, w);
    }
  }

  lemma MovedToWinner(t: Table<Movement>, losers: seq<int>, winner: int, id: int)
    requires winner !in losers && id in MovedIds(t, MergeMovementRows(t, losers, winner))
    ensures MergeMovementRows(t, losers, winner)[id].caseId == Some(winner)
    decreases |losers|
  {
    var t1 := Merged(t, MovementKey, losers[0], winner);
    OnlyOldRows(t1, losers[1..], winner);
    MergedRow(t, MovementKey, losers[0], winner, id);
    if t1[id].caseId != t[id].caseId {
      OtherRowsStay(t1, losers[1..], winner, id);
    } else {
      MovedToWinner(t1, losers[1..], winner, id);
    }
  }

  lemma FirstGroupEffect(db: Db, gs: seq<seq<int>>)
    requires ValidGroups(db.cases, gs) && gs != []
    ensures
      var t, t1, end := db.kids.movements, MergeGroup(db, gs[0]).kids.movements, MergeGroups(db, gs).kids.movements;
      var w, ls := Winner(db.kids, gs[0]), Losers(db.kids, gs[0]);
      && |t1| == |t| - Contained(t, ls, w)
      && |MovedIds(t, end)| == Unioned(t, ls, w) + |MovedIds(t1, end)|
  {
    var t, w, ls := db.kids.movements, Winner(db.kids, gs[0]), Losers(db.kids, gs[0]);
    MergeGroupMovements(db, gs[0]);
    var next := FirstGroup(db, gs);
    GroupEffect(t, ls, w);
    OnlyOldRows(t, ls, w);
    OnlyOldMovements(next, gs[1..]);
    forall id | id in MovedIds(t, next.kids.movements) ensures next.kids.movements[id].caseId == Some(w) {
      MovedToWinner(t, ls, w, id);
    }
    assert w in Elements(gs[0]);
    forall i | 0 <= i < |gs[1..]| ensures w !in gs[1..][i] {
      assert w !in Elements(gs[i + 1]);
    }
    WinnerRowsStay(next, gs[1..], w);
    MovedInStages(t, next.kids.movements, MergeGroups(db, gs).kids.movements, {w});
  }

  /** Movements deleted and movements moved are the sums of what each group shows at the start. */
  lemma {:induction false} MovementsEffect(db: Db, gs: seq<seq<int>>)
    requires ValidGroups(db.cases, gs) && SortedGroups(gs)
    ensures |MergeGroups(db, gs).kids.movements| == |db.kids.movements| - SumContained(db.kids, gs)
    ensures |MovedIds(db.kids.movements, MergeGroups(db, gs).kids.movements)| == SumUnioned(db.kids, gs)
    decreases |gs|
  {
    if gs == [] {
      assert MovedIds(db.kids.movements, db.kids.movements) == {};
    } else {
      FirstGroupEffect(db, gs);
      var next := FirstGroup(db, gs);
      MovementsEffect(next, gs[1..]);
      forall i | 0 <= i < |gs[1..]| ensures Elements(gs[0]) !! Elements(gs[1..][i]) {
        assert Elements(gs[0]) !! Elements(gs[i + 1]);
      }
      SumsStay(db, gs[0], gs[1..]);
    }
  }

  // ----- the totals of the report against one run

  lemma {:induction false} TotalIsSums(db: Db, firm: int, ids: seq<Identity>)
    requires forall id :: id in ids ==> Group(db.cases, id) != {}
    ensures forall i :: 0 <= i < |ids| ==> GroupsOf(db.cases, ids)[i] != []
    ensures
      var gs, total := GroupsOf(db.cases, ids), Total(ids, CountsOf(db, firm));
      && total.contained == SumContained(db.kids, gs) && total.unioned == SumUnioned(db.kids, gs)
      && total.surplus == LoserCount(db.kids, gs) && total.groups == |ids|
  {
    forall i | 0 <= i < |ids| ensures GroupsOf(db.cases, ids)[i] != [] {
      var c := SomeElement(Group(db.cases, ids[i]));
      assert c in Elements(GroupIds(db.cases, ids[i]));
    }
    if ids != [] {
      assert GroupsOf(db.cases, ids)[1..] == GroupsOf(db.cases, ids[1..]);
      TotalIsSums(db, firm, ids[1..]);
    }
  }

  lemma LosersSize(k: Kids, g: seq<int>)
    requires g != [] && Ascending(g, IntLess)
    ensures |Elements(Losers(k, g))| == |Losers(k, g)|
  {
    AscendingSize(Losers(k, g), IntLess);
  }

  lemma {:induction false} LoserTotal(db: Db, gs: seq<seq<int>>)
    requires ValidGroups(db.cases, gs) && SortedGroups(gs)
    ensures |AllLosers(db.kids, gs)| == LoserCount(db.kids, gs)
    decreases |gs|
  {
    hide MergeGroup, MergeGroups, Losers, Winner;
    if gs == [] {
      assert AllLosers(db.kids, gs) == {};
    } else {
      LosersUpFront(db, gs);
      var next := FirstGroup(db, gs);
      LoserTotal(next, gs[1..]);
      FirstWinnerStays(db, gs, 0);
      LosersSize(db.kids, gs[0]);
      FirstLosersApart(db, gs);
      UnionSize(Elements(Losers(db.kids, gs[0])), AllLosers(next.kids, gs[1..]));
    }
  }

  lemma FirstLosersApart(db: Db, gs: seq<seq<int>>)
    requires ValidGroups(db.cases, gs) && gs != []
    ensures Elements(Losers(db.kids, gs[0])) !! AllLosers(MergeGroup(db, gs[0]).kids, gs[1..])
  {
    forall c | c in AllLosers(MergeGroup(db, gs[0]).kids, gs[1..]) ensures c !in Elements(Losers(db.kids, gs[0])) {
      LoserOfOneGroup(db, gs, c);
    }
  }

  lemma SelectedGroupsNotEmpty(db: Db, ids: seq<Identity>)
    requires DuplicateSelection(db.cases, ids)
    ensures forall id :: id in ids ==> Group(db.cases, id) != {}
  {
    forall id | id in ids ensures Group(db.cases, id) != {} {
      assert id in Elements(ids);
      DuplicateIff(db.cases, id);
    }
  }

  /** The effect of merging the groups of `ids`, read off the totals at the start. */
  lemma SelectionEffect(db: Db, firm: int, ids: seq<Identity>)
    requires DuplicateSelection(db.cases, ids)
    ensures ValidGroups(db.cases, GroupsOf(db.cases, ids))
    ensures
      var total, gs := Total(ids, CountsOf(db, firm)), GroupsOf(db.cases, ids);
      var m := MergeGroups(db, gs);
      && |m.kids.movements| == |db.kids.movements| - total.contained
      && |MovedIds(db.kids.movements, m.kids.movements)| == total.unioned
      && |m.audit| == |db.audit| + total.surplus
      && |AllLosers(db.kids, gs)| == total.surplus
  {
    GroupsAreValid(db.cases, ids);
    SelectedGroupsNotEmpty(db, ids);
    TotalIsSums(db, firm, ids);
    MovementsEffect(db, GroupsOf(db.cases, ids));
    MergeGroupsAudit(db, GroupsOf(db.cases, ids));
    LoserTotal(db, GroupsOf(db.cases, ids));
  }

  // ----- owners changed

  /** Winners of `ids` that the firm does not own yet. */
  ghost function Changing(db: Db, firm: int, ids: seq<Identity>): set<int>
    decreases |ids|
  {
    if ids == [] then {} else
      (if WinnerOf(db, ids[0]) in db.cases && db.cases[WinnerOf(db, ids[0])].lawyerId != firm
        then {WinnerOf(db, ids[0])} else {})
      + Changing(db, firm, ids[1..])
  }

  lemma {:induction false} ChangingMember(db: Db, firm: int, ids: seq<Identity>, c: int)
    ensures c in Changing(db, firm, ids) <==>
      c in db.cases && db.cases[c].lawyerId != firm && exists i :: 0 <= i < |ids| && c == WinnerOf(db, ids[i])
    decreases |ids|
  {
    if ids != [] {
      ChangingMember(db, firm, ids[1..], c);
      if i :| 0 <= i < |ids| && c == WinnerOf(db, ids[i]) {
        assert i > 0 ==> c == WinnerOf(db, ids[1..][i - 1]);
      }
      if i :| 0 <= i < |ids[1..]| && c == WinnerOf(db, ids[1..][i]) {
        assert c == WinnerOf(db, ids[i + 1]);
      }
    }
  }

  lemma ChangingIdentity(db: Db, firm: int, ids: seq<Identity>, c: int)
    requires forall id :: id in ids ==> Group(db.cases, id) != {}
    ensures c in Changing(db, firm, ids) <==>
      c in db.cases && db.cases[c].lawyerId != firm && IdentityOf(db.cases[c]) in ids
        && c == WinnerOf(db, IdentityOf(db.cases[c]))
  {
    ChangingMember(db, firm, ids, c);
    if i :| 0 <= i < |ids| && c == WinnerOf(db, ids[i]) {
      WinnerInGroup(db, ids[i]);
    }
  }

  lemma {:induction false} ChangingCount(db: Db, firm: int, ids: seq<Identity>)
    requires forall id :: id in ids ==> Group(db.cases, id) != {}
    requires forall i, j :: 0 <= i < j < |ids| ==> ids[i] != ids[j]
    ensures |Changing(db, firm, ids)| == Total(ids, CountsOf(db, firm)).changesOwner
    decreases |ids|
  {
    if ids != [] {
      WinnerInGroup(db, ids[0]);
      ChangingCount(db, firm, ids[1..]);
      ChangingIdentity(db, firm, ids[1..], WinnerOf(db, ids[0]));
      GroupNotEmpty(db, ids[0]);
    }
  }

  lemma GroupNotEmpty(db: Db, id: Identity)
    requires Group(db.cases, id) != {}
    ensures GroupIds(db.cases, id) != [] && Winner(db.kids, GroupIds(db.cases, id)) == WinnerOf(db, id)
  {
    var c := SomeElement(Group(db.cases, id));
    assert c in Elements(GroupIds(db.cases, id));
  }

  /** A batch re-owns exactly the winners the report marks as changing owner. */
  lemma ReownedAre(db: Db, firm: int, ids: seq<Identity>)
    requires DuplicateSelection(db.cases, ids) && 0 !in db.cases
    ensures ReownedIds(Survivors(db, Elements(ids)), Scope(db, Elements(ids), true) - {0}, firm) ==
      Changing(db, firm, ids)
  {
    SelectedGroupsNotEmpty(db, ids);
    var sel := Elements(ids);
    var reowned := ReownedIds(Survivors(db, sel), Scope(db, sel, true) - {0}, firm);
    forall c ensures c in reowned <==> c in Changing(db, firm, ids) {
      ChangingIdentity(db, firm, ids, c);
      if c in reowned {
        var id :| id in sel && c == WinnerOf(db, id);
        WinnerInGroup(db, id);
      }
      if c in Changing(db, firm, ids) {
        var id := IdentityOf(db.cases[c]);
        assert id in sel && Group(db.cases, id) != {};
        WinnerInGroup(db, id);
      }
    }
  }

  // ----- the report against the unbatched run

  /** A run leaves the merged rows and the surviving cases. */
  lemma AfterParts(db: Db, firm: int, ids: seq<Identity>)
    requires ValidGroups(db.cases, GroupsOf(db.cases, ids))
    ensures
      var f, m := After(db, firm, ids, false), MergeGroups(db, GroupsOf(db.cases, ids));
      f.kids == m.kids && f.audit == m.audit && f.cases.Keys == Survivors(db, Elements(ids)).Keys
  {
    hide MergeGroups, GroupsOf, ValidGroups, Kept;
  }

  lemma AfterEffect(db: Db, firm: int, ids: seq<Identity>)
    requires DuplicateSelection(db.cases, ids) && ValidGroups(db.cases, GroupsOf(db.cases, ids))
    ensures
      var total, f := Total(ids, CountsOf(db, firm)), After(db, firm, ids, false);
      && |db.kids.movements| - |f.kids.movements| == total.contained
      && |MovedIds(db.kids.movements, f.kids.movements)| == total.unioned
      && |db.cases| - |f.cases| == total.surplus && |f.audit| - |db.audit| == total.surplus
  {
    hide MergeGroups, DuplicateSelection, GroupsOf, After, Survivors, Total, CountsOf, MovedIds, AllLosers;
    SelectionEffect(db, firm, ids);
    AfterParts(db, firm, ids);
    DeletionLeaves(db, ids);
    DeletedSize(db.cases, AllLosers(db.kids, GroupsOf(db.cases, ids)));
    KeysSize(After(db, firm, ids, false).cases, Survivors(db, Elements(ids)));
  }

  lemma AscendingIdentitiesDistinct(ids: seq<Identity>)
    requires Ascending(ids, IdentityLess)
    ensures forall i, j :: 0 <= i < j < |ids| ==> ids[i] != ids[j]
  {
    IdentityOrder();
    AscendingDistinct(ids, IdentityLess);
  }

  lemma OrderIrrelevant(db: Db, firm: int, order: seq<Identity>)
    requires Elements(order) == DuplicateIdentities(db.cases)
      && forall i, j :: 0 <= i < j < |order| ==> order[i] != order[j]
    ensures Total(order, CountsOf(db, firm)) ==
      Total(SortedIdentities(DuplicateIdentities(db.cases)), CountsOf(db, firm))
  {
    var all := SortedIdentities(DuplicateIdentities(db.cases));
    AscendingIdentitiesDistinct(all);
    EnumerationMultiset(order, all);
    TotalAnyOrder(order, all, CountsOf(db, firm));
  }

  /**
   * The report, whatever order it lists the groups in, predicts the unbatched
   * run: movements deleted and moved, cases deleted and audit rows written.
   */
  lemma ReportPredictsRun(db: Db, firm: int, order: seq<Identity>)
    requires WellFormed(db) && NonCivilApart(db.cases)
    requires Elements(order) == DuplicateIdentities(db.cases)
      && forall i, j :: 0 <= i < j < |order| ==> order[i] != order[j]
    ensures
      var total, f := Total(order, CountsOf(db, firm)), Full(db, firm);
      && |db.kids.movements| - |f.kids.movements| == total.contained
      && |MovedIds(db.kids.movements, f.kids.movements)| == total.unioned
      && |db.cases| - |f.cases| == total.surplus && |f.audit| - |db.audit| == total.surplus
  {
    hide WellFormed, NonCivilApart, Full, AllMerged, Total, MovedIds;
    OrderIrrelevant(db, firm, order);
    FullIsAll(db, firm);
    AllMergedEffect(db, firm);
  }

  lemma DeletedSize(cases: map<int, Case>, losers: set<int>)
    requires losers <= cases.Keys
    ensures |cases - losers| == |cases| - |losers|
  {
    assert (cases - losers).Keys == cases.Keys - losers;
    assert |cases.Keys| == |cases| && |(cases - losers).Keys| == |cases - losers|;
  }

  lemma KeysSize(a: map<int, Case>, b: map<int, Case>)
    requires a.Keys == b.Keys
    ensures |a| == |b|
  {
    assert |a.Keys| == |a| && |b.Keys| == |b|;
  }

  // ----- the report against a history of batches

  /** Sums over the batches of a history, as the runner adds them up. */
  datatype Done = Done(merged: nat, deleted: nat, auditRows: nat, reowned: nat)

  function AddDone(a: Done, b: Done): Done {
    Done(a.merged + b.merged, a.deleted + b.deleted, a.auditRows + b.auditRows, a.reowned + b.reowned)
  }

  ghost function StepDone(db: Db, firm: int, step: Step): Done {
    match step
    case RolledBack => Done(0, 0, 0, 0)
    case Batch(limit) =>
      match Run(db, firm, Some(limit), None)
      case Ok(r) => Done(r.1.merged, r.1.losersDeleted, r.1.auditRows, r.1.reowned)
      case Err(_) => Done(0, 0, 0, 0)
  }

  ghost function HistoryDone(db: Db, firm: int, steps: seq<Step>): Done
    decreases |steps|
  {
    if steps == [] then Done(0, 0, 0, 0) else
      AddDone(StepDone(db, firm, steps[0]), HistoryDone(Transact(db, firm, steps[0]), firm, steps[1..]))
  }

  ghost function Promised(c: Counts): Done {
    Done(c.groups, c.surplus, c.surplus, c.changesOwner)
  }

  lemma ConcludeSummary(m: Db, firm: int, ids: seq<Identity>, losers: set<int>, winners: set<int>)
    requires Conclude(m, firm, ids, losers, winners, true).Ok?
    ensures
      var sum := Conclude(m, firm, ids, losers, winners, true).value.1;
      && sum.merged == |ids| && sum.losersDeleted == |losers| && sum.auditRows == |losers|
      && sum.reowned == |ReownedIds(m.cases - losers, winners - {0}, firm)|
  {}

  lemma RunIsConclude(db: Db, firm: int, limit: int, ids: seq<Identity>)
    requires ids == BatchIdentities(db.cases, Some(limit), None)
    ensures ValidGroups(db.cases, GroupsOf(db.cases, ids))
    ensures
      var gs := GroupsOf(db.cases, ids);
      Run(db, firm, Some(limit), None)
      == Conclude(MergeGroups(db, gs), firm, ids, AllLosers(db.kids, gs), AllWinners(db.kids, gs), true)
  {
    hide Conclude, MergeGroups;
    BatchIsSelection(db.cases, Some(limit), None);
    GroupsAreValid(db.cases, ids);
  }

  lemma StepDoneIs(db: Db, firm: int, limit: int)
    requires Run(db, firm, Some(limit), None).Ok?
    ensures
      var sum := Run(db, firm, Some(limit), None).value.1;
      StepDone(db, firm, Batch(limit)) == Done(sum.merged, sum.losersDeleted, sum.auditRows, sum.reowned)
  {
    hide Run;
  }

  lemma SelectionDone(db: Db, firm: int, limit: int, ids: seq<Identity>)
    requires Run(db, firm, Some(limit), None).Ok? && 0 !in db.cases
    requires ids == BatchIdentities(db.cases, Some(limit), None) && DuplicateSelection(db.cases, ids)
    ensures StepDone(db, firm, Batch(limit)) == Promised(Total(ids, CountsOf(db, firm)))
  {
    hide Run, StepDone, Conclude, MergeGroups, GroupsOf, AllLosers, AllWinners, BatchIdentities, DuplicateSelection,
      DuplicateIdentities, ReownedIds, Total, CountsOf;
    StepDoneIs(db, firm, limit);
    RunIsConclude(db, firm, limit, ids);
    BatchTotals(db, firm, ids);
    var gs := GroupsOf(db.cases, ids);
    ConcludeSummary(MergeGroups(db, gs), firm, ids, AllLosers(db.kids, gs), AllWinners(db.kids, gs));
  }

  /** What a batch reports is what the report says of its groups, and nothing if it fails. */
  lemma BatchDone(db: Db, firm: int, limit: int)
    requires WellFormed(db)
    ensures
      var all := SortedIdentities(DuplicateIdentities(db.cases));
      var ids := all[..Cut(limit, |all|)];
      StepDone(db, firm, Batch(limit)) ==
        if forall c :: !FirmTwin(db, firm, Elements(ids), c) then Promised(Total(ids, CountsOf(db, firm)))
        else Done(0, 0, 0, 0)
  {
    assert 0 !in db.cases;
    hide Run, WellFormed, FirmTwin, DuplicateSelection, DuplicateIdentities, After, Transact, Total, CountsOf;
    var all := SortedIdentities(DuplicateIdentities(db.cases));
    PrefixSelection(db.cases, Cut(limit, |all|));
    BatchOutcome(db, firm, limit);
    BatchIsPrefix(db.cases, limit);
    if Run(db, firm, Some(limit), None).Ok? {
      SelectionDone(db, firm, limit, all[..Cut(limit, |all|)]);
    }
  }

  lemma BatchTotals(db: Db, firm: int, ids: seq<Identity>)
    requires DuplicateSelection(db.cases, ids) && 0 !in db.cases
    ensures ValidGroups(db.cases, GroupsOf(db.cases, ids))
    ensures
      var gs, total := GroupsOf(db.cases, ids), Total(ids, CountsOf(db, firm));
      && total.groups == |ids| && total.surplus == |AllLosers(db.kids, gs)|
      && total.changesOwner == |ReownedIds(db.cases - AllLosers(db.kids, gs), AllWinners(db.kids, gs) - {0}, firm)|
  {
    SelectionEffect(db, firm, ids);
    SelectedGroupsNotEmpty(db, ids);
    TotalIsSums(db, firm, ids);
    DeletionLeaves(db, ids);
    WinnersAre(db, ids);
    ReownedAre(db, firm, ids);
    AscendingIdentitiesDistinct(ids);
    ChangingCount(db, firm, ids);
  }

  lemma {:induction false} TotalSame(ids: seq<Identity>, f: Identity -> Counts, g: Identity -> Counts)
    requires forall id :: id in ids ==> f(id) == g(id)
    ensures Total(ids, f) == Total(ids, g)
  {
    if ids != [] {
      assert ids == [ids[0]] + ids[1..];
      TotalSame(ids[1..], f, g);
    }
  }

  /** A batch does not change what the report says of the groups it leaves. */
  lemma LaterCountsKept(db: Db, firm: int, ids: seq<Identity>, id: Identity)
    requires DuplicateSelection(db.cases, ids) && ValidGroups(db.cases, GroupsOf(db.cases, ids)) && id !in Elements(ids)
    requires Group(db.cases, id) != {}
    ensures GroupCounts(After(db, firm, ids, true), firm, id) == GroupCounts(db, firm, id)
  {
    hide MergeGroups, Contained, Unioned;
    var db1 := After(db, firm, ids, true);
    LaterGroupKept(db, firm, ids, id);
    GroupNotEmpty(db, id);
    GroupNotEmpty(db1, id);
    var g := GroupIds(db.cases, id);
    MergeGroupsElsewhere(db, GroupsOf(db.cases, ids), g);
    var w, ls := Winner(db.kids, g), Losers(db.kids, g);
    assert w in Elements(g) && w !in Elements(ls);
    assert w in Group(db1.cases, id) && db1.cases[w] == db.cases[w] by {
      NotInScope(db, Elements(ids), w);
    }
    AscendingDistinct(ls, IntLess);
    forall l | l in ls || l == w ensures SameMovements(db1.kids.movements, db.kids.movements, l) {
      assert l in Elements(g) by { assert l in ls ==> l in Elements(ls); }
      assert SameRows(db.kids, db1.kids, l);
    }
    CountsSame(db1.kids.movements, db.kids.movements, ls, w);
  }

  /** What the report promises of a database. */
  ghost function Promise(db: Db, firm: int): Done {
    Promised(Total(SortedIdentities(DuplicateIdentities(db.cases)), CountsOf(db, firm)))
  }

  lemma RestOfBatch(db: Db, firm: int, all: seq<Identity>, n: nat)
    requires all == SortedIdentities(DuplicateIdentities(db.cases)) && n <= |all|
    ensures ValidGroups(db.cases, GroupsOf(db.cases, all[..n]))
    ensures SortedIdentities(DuplicateIdentities(After(db, firm, all[..n], true).cases)) == all[n..]
    ensures Total(all[n..], CountsOf(After(db, firm, all[..n], true), firm)) == Total(all[n..], CountsOf(db, firm))
  {
    PrefixSelection(db.cases, n);
    GroupsAreValid(db.cases, all[..n]);
    LaterGroupsKept(db, firm, n);
    LaterTotals(db, firm, all[..n], all[n..]);
  }

  lemma PromisedSplit(ids: seq<Identity>, n: nat, f: Identity -> Counts)
    requires n <= |ids|
    ensures Promised(Total(ids, f)) == AddDone(Promised(Total(ids[..n], f)), Promised(Total(ids[n..], f)))
  {
    hide Total;
    TotalSplit(ids, n, f);
  }

  lemma TotalSplit(ids: seq<Identity>, n: nat, f: Identity -> Counts)
    requires n <= |ids|
    ensures Total(ids, f) == Plus(Total(ids[..n], f), Total(ids[n..], f))
  {
    assert ids == ids[..n] + ids[n..];
    TotalAppend(ids[..n], ids[n..], f);
  }

  lemma LaterTotals(db: Db, firm: int, ids: seq<Identity>, later: seq<Identity>)
    requires DuplicateSelection(db.cases, ids) && ValidGroups(db.cases, GroupsOf(db.cases, ids))
    requires DuplicateSelection(db.cases, later) && Elements(ids) !! Elements(later)
    ensures Total(later, CountsOf(After(db, firm, ids, true), firm)) == Total(later, CountsOf(db, firm))
  {
    var f, g := CountsOf(After(db, firm, ids, true), firm), CountsOf(db, firm);
    SelectedGroupsNotEmpty(db, later);
    forall id | id in later ensures f(id) == g(id) {
      assert id in Elements(later);
      LaterCountsKept(db, firm, ids, id);
    }
    TotalSame(later, f, g);
  }

  /** What a transaction reports and what the report promises of the rest is what it promises of the whole. */
  lemma PromiseStep(db: Db, firm: int, step: Step)
    requires WellFormed(db)
    ensures Promise(db, firm) == AddDone(StepDone(db, firm, step), Promise(Transact(db, firm, step), firm))
  {
    hide WellFormed, Run, DuplicateIdentities, After, FirmTwin;
    match step
    case RolledBack =>
    case Batch(limit) =>
      BatchOutcome(db, firm, limit);
      BatchDone(db, firm, limit);
      var all := SortedIdentities(DuplicateIdentities(db.cases));
      var n := Cut(limit, |all|);
      RestOfBatch(db, firm, all, n);
      PromisedSplit(all, n, CountsOf(db, firm));
  }

  /** At any point of a history, what it has done and what the report promises of the rest make up the promise. */
  lemma {:induction false} HistoryPromise(db: Db, firm: int, steps: seq<Step>)
    requires WellFormed(db)
    ensures Promise(db, firm) == AddDone(HistoryDone(db, firm, steps), Promise(History(db, firm, steps), firm))
    decreases |steps|
  {
    hide WellFormed, Promise, StepDone, Transact, AllMerged;
    if steps != [] {
      TransactThenAll(db, firm, steps[0]);
      PromiseStep(db, firm, steps[0]);
      HistoryPromise(Transact(db, firm, steps[0]), firm, steps[1..]);
    }
  }

  lemma NothingPromised(db: Db, firm: int)
    requires DuplicateIdentities(db.cases) == {}
    ensures Promise(db, firm) == Done(0, 0, 0, 0)
  {
    assert SortedIdentities({}) == [];
  }

  /**
   * Over any history of batches that merges everything, groups merged, cases
   * deleted, audit rows and owners changed add up to the report's totals, and
   * so do the movements deleted and moved.
   */
  lemma ReportPredictsHistory(db: Db, firm: int, steps: seq<Step>, order: seq<Identity>)
    requires WellFormed(db)
    requires Elements(order) == DuplicateIdentities(db.cases)
      && forall i, j :: 0 <= i < j < |order| ==> order[i] != order[j]
    requires DuplicateIdentities(History(db, firm, steps).cases) == {}
    ensures HistoryDone(db, firm, steps) == Promised(Total(order, CountsOf(db, firm)))
    ensures
      var total, h := Total(order, CountsOf(db, firm)), History(db, firm, steps);
      && |db.kids.movements| - |h.kids.movements| == total.contained
      && |MovedIds(db.kids.movements, h.kids.movements)| == total.unioned
      && |db.cases| - |h.cases| == total.surplus && |h.audit| - |db.audit| == total.surplus
  {
    hide WellFormed, DuplicateIdentities, Run, MovedIds, AllMerged, History, HistoryDone, Total;
    OrderIrrelevant(db, firm, order);
    HistoryPromise(db, firm, steps);
    NothingPromised(History(db, firm, steps), firm);
    HistoryMergesAll(db, firm, steps);
    KeysSize(History(db, firm, steps).cases, AllMerged(db, firm).cases);
    AllMergedEffect(db, firm);
  }

  lemma AllMergedEffect(db: Db, firm: int)
    ensures
      var total, f := Total(SortedIdentities(DuplicateIdentities(db.cases)), CountsOf(db, firm)), AllMerged(db, firm);
      && |db.kids.movements| - |f.kids.movements| == total.contained
      && |MovedIds(db.kids.movements, f.kids.movements)| == total.unioned
      && |db.cases| - |f.cases| == total.surplus && |f.audit| - |db.audit| == total.surplus
  {
    var all := SortedIdentities(DuplicateIdentities(db.cases));
    GroupsAreValid(db.cases, all);
    AfterEffect(db, firm, all);
  }
}
