/**
 * Calls with any limits and any keys: every sequence that merges everything
 * ends like one unbatched run exactly when no causa's rows first collide once
 * the references to other causas are followed.
 */
module CaseMergeCalls {
  import opened Options
  import opened Ordering
  import opened ChildTable
  import opened CaseTables
  import opened CaseMergeLinks
  import opened CaseMerge
  import opened CaseMergeSafety
  import opened CaseMergeRun
  import opened CaseMergeBatches
  import opened CaseMergeAudit
  import opened CaseMergeConservation
  import opened CaseMergeParts
  import opened CaseMergeSteady
  import opened CaseMergeOrder

  // ----- any selection of batches

  /**
   * No document or alert of a duplicated causa first collides with another of
   * its own causa once the references to other causas are followed.
   */
  ghost predicate Independent(db: Db) { NonEmpty(AllGroups(db)) && OrderFree(db.kids, AllGroups(db)) }

  lemma SelectionAscending(cases: map<int, Case>, ids: seq<Identity>)
    ensures AllAscending(GroupsOf(cases, ids))
  {}

  /** A group steady under all others is steady under those left, once some are merged. */
  lemma SteadyAfter(db: Db, a: seq<seq<int>>, g: seq<int>, os: seq<seq<int>>)
    requires ValidGroups(db.cases, a) && NonEmpty(os) && NonEmpty(a) && g != []
    requires AllApart(a, Elements(g)) && AllApart(os, Elements(g))
    requires forall i :: 0 <= i < |a| ==> AllApart(os, Elements(a[i]))
    requires forall j :: 0 <= j < |os| ==> AllApart(a, Elements(os[j]))
    requires GroupSteady(db.kids, g, Joined(RunRedirects(db.kids, a), RunRedirects(db.kids, os)))
    ensures
      var m := MergeGroups(db, a).kids;
      GroupSteady(m, g, RunRedirects(m, os))
  {
    var p, k, m := Part(Elements(g), true), db.kids, MergeGroups(db, a).kids;
    hide MergeGroups, KidsIn, RunRedirects, Redirected, Joined, Chained, Foreign, Winner, Steady, Beyond;
    RunIsForeign(k, a, g);
    RunIsForeign(k, os, g);
    RunsChained(db.cases, k, a, os);
    ApartIsBeyond(a, Elements(g));
    GroupsOutside(db, a, p);
    WinnerKept(db, a, g);
    LaterRedirectsKept(db, a, os);
    assert Winner(k, g) !in Elements(Losers(k, g));
    SteadyLess(KidsIn(k, p), Losers(k, g), Winner(k, g), RunRedirects(k, a), RunRedirects(k, os));
  }

  lemma JoinedOthers(cases: map<int, Case>, a: seq<seq<int>>, b: seq<seq<int>>, j: nat)
    requires ValidGroups(cases, a + b) && j < |b|
    ensures Others(a + b, |a| + j) == a + Others(b, j) && (a + b)[|a| + j] == b[j]
    ensures AllApart(a, Elements(b[j])) && AllApart(Others(b, j), Elements(b[j]))
    ensures forall i :: 0 <= i < |a| ==> AllApart(Others(b, j), Elements(a[i]))
    ensures forall i :: 0 <= i < |Others(b, j)| ==> AllApart(a, Elements(Others(b, j)[i]))
  {
    var all, os := a + b, Others(b, j);
    hide Elements;
    forall i | 0 <= i < |os| ensures Elements(os[i]) !! Elements(b[j]) {
      var m := if i < j then i else i + 1;
      assert all[|a| + m] == b[m] && all[|a| + j] == b[j];
    }
    forall h, i | 0 <= h < |a| && 0 <= i < |b| ensures Elements(a[h]) !! Elements(b[i]) {
      assert all[h] == a[h] && all[|a| + i] == b[i];
    }
    forall i | 0 <= i < |os| ensures os[i] == b[if i < j then i else i + 1] {}
  }

  /** Once the groups `a` are merged, the order of the groups `b` does not show either. */
  lemma OrderFreeAfter(db: Db, a: seq<seq<int>>, b: seq<seq<int>>)
    requires ValidGroups(db.cases, a + b) && ValidGroups(db.cases, a) && NonEmpty(a + b) && NonEmpty(b)
    requires OrderFree(db.kids, a + b)
    ensures OrderFree(MergeGroups(db, a).kids, b)
  {
    hide MergeGroups, RunRedirects, GroupSteady, Joined, ValidGroup;
    var m := MergeGroups(db, a).kids;
    forall j | 0 <= j < |b| ensures NonEmpty(Others(b, j)) && GroupSteady(m, b[j], RunRedirects(m, Others(b, j))) {
      JoinedOthers(db.cases, a, b, j);
      assert NonEmpty(a) by { assert forall i :: 0 <= i < |a| ==> a[i] == (a + b)[i]; }
      assert GroupSteady(db.kids, (a + b)[|a| + j], RunRedirects(db.kids, Others(a + b, |a| + j)));
      RunRedirectsSplit(db.kids, a, Others(b, j));
      SteadyAfter(db, a, b[j], Others(b, j));
    }
  }

  /** The selected identities, then the others, list the same groups as all identities in order. */
  lemma SelectedThenOthers(cases: map<int, Case>, ids: seq<Identity>, rest: seq<Identity>, all: seq<Identity>)
    requires Elements(all) == Elements(ids) + Elements(rest)
    ensures GroupsOf(cases, ids + rest) == GroupsOf(cases, ids) + GroupsOf(cases, rest)
    ensures SameGroups(GroupsOf(cases, ids + rest), GroupsOf(cases, all))
  {
    hide GroupIds;
    var gs, hs := GroupsOf(cases, ids + rest), GroupsOf(cases, all);
    assert gs == GroupsOf(cases, ids) + GroupsOf(cases, rest);
    forall i | 0 <= i < |gs| ensures gs[i] in hs {
      var id := (ids + rest)[i];
      assert id in Elements(ids) || id in Elements(rest);
      assert id in Elements(all);
      var j :| 0 <= j < |all| && all[j] == id;
      assert hs[j] == gs[i];
    }
    forall j | 0 <= j < |hs| ensures hs[j] in gs {
      assert all[j] in Elements(all);
      assert all[j] in ids + rest;
      var i :| 0 <= i < |ids + rest| && (ids + rest)[i] == all[j];
      assert gs[i] == hs[j];
    }
  }

  ghost predicate ListsApart(a: seq<seq<int>>, b: seq<seq<int>>) {
    forall i, j :: 0 <= i < |a| && 0 <= j < |b| ==> Elements(a[i]) !! Elements(b[j])
  }

  lemma JoinValid(cases: map<int, Case>, a: seq<seq<int>>, b: seq<seq<int>>)
    requires ValidGroups(cases, a) && ValidGroups(cases, b) && ListsApart(a, b)
    ensures ValidGroups(cases, a + b)
  {
    hide ValidGroup, Elements;
    var c := a + b;
    forall i, j | 0 <= i < j < |c| ensures Elements(c[i]) !! Elements(c[j]) {
      if j < |a| {
        assert Elements(a[i]) !! Elements(a[j]);
      } else if i >= |a| {
        assert Elements(b[i - |a|]) !! Elements(b[j - |a|]);
      } else {
        assert Elements(a[i]) !! Elements(b[j - |a|]);
      }
    }
  }

  lemma SelectionsApart(cases: map<int, Case>, ids: seq<Identity>, rest: seq<Identity>)
    requires Elements(ids) !! Elements(rest)
    ensures ListsApart(GroupsOf(cases, ids), GroupsOf(cases, rest))
  {
    var a, b := GroupsOf(cases, ids), GroupsOf(cases, rest);
    forall i, j | 0 <= i < |a| && 0 <= j < |b| ensures Elements(a[i]) !! Elements(b[j]) {
      assert ids[i] in Elements(ids) && rest[j] in Elements(rest);
    }
  }

  lemma JoinedGroupsValid(cases: map<int, Case>, ids: seq<Identity>, rest: seq<Identity>)
    requires DuplicateSelection(cases, ids) && DuplicateSelection(cases, rest) && Elements(ids) !! Elements(rest)
    ensures ValidGroups(cases, GroupsOf(cases, ids + rest))
  {
    GroupsAreValid(cases, ids);
    GroupsAreValid(cases, rest);
    SelectionsApart(cases, ids, rest);
    SelectedThenOthers(cases, ids, rest, ids + rest) by {
      assert Elements(ids + rest) == Elements(ids) + Elements(rest);
    }
    hide ValidGroups, ListsApart, GroupsOf;
    JoinValid(cases, GroupsOf(cases, ids), GroupsOf(cases, rest));
  }

  /** Merging a selection and then the others is, up to the order of the audit rows, merging all in order. */
  lemma SelectionThenOthers(db: Db, ids: seq<Identity>, rest: seq<Identity>, all: seq<Identity>)
    requires WellFormed(db) && NonEmpty(GroupsOf(db.cases, all)) && OrderFree(db.kids, GroupsOf(db.cases, all))
    requires DuplicateSelection(db.cases, ids) && DuplicateSelection(db.cases, rest)
      && DuplicateSelection(db.cases, all)
    requires Elements(ids) !! Elements(rest) && Elements(all) == Elements(ids) + Elements(rest)
    ensures ValidGroups(db.cases, GroupsOf(db.cases, ids)) && ValidGroups(db.cases, GroupsOf(db.cases, rest))
    ensures ValidGroups(db.cases, GroupsOf(db.cases, all))
    ensures Alike(MergeGroups(MergeGroups(db, GroupsOf(db.cases, ids)), GroupsOf(db.cases, rest)),
                  MergeGroups(db, GroupsOf(db.cases, all)))
  {
    var a, b, joined, hs := GroupsOf(db.cases, ids), GroupsOf(db.cases, rest), GroupsOf(db.cases, ids + rest),
      GroupsOf(db.cases, all);
    GroupsAreValid(db.cases, ids);
    GroupsAreValid(db.cases, rest);
    GroupsAreValid(db.cases, all);
    JoinedGroupsValid(db.cases, ids, rest);
    SelectionAscending(db.cases, all);
    SelectedThenOthers(db.cases, ids, rest, all);
    hide MergeGroups, WellFormed, OrderFree, DuplicateSelection, ValidGroups, GroupsOf, Alike, AllAscending, SameGroups;
    AlikeBack(db, joined, hs);
    MergeGroupsSplit(db, joined, |a|);
    assert joined[..|a|] == a && joined[|a|..] == b;
  }

  lemma AlikeBack(db: Db, gs: seq<seq<int>>, hs: seq<seq<int>>)
    requires WellFormed(db) && ValidGroups(db.cases, gs) && ValidGroups(db.cases, hs) && SameGroups(gs, hs)
    requires AllAscending(hs) && NonEmpty(hs) && OrderFree(db.kids, hs)
    ensures Alike(MergeGroups(db, gs), MergeGroups(db, hs))
  {
    hide MergeGroups, WellFormed, ValidGroup, OrderFree, AllAscending;
    AnyOrder(db, hs, gs);
  }

  // ----- whole histories of calls

  /** What a history of calls assumes and keeps. */
  ghost predicate Tidy(db: Db) { WellFormed(db) && NonCivilApart(db.cases) && Independent(db) }

  /** A batch of any selection, then a full run: up to the order of the audit rows, the full run alone. */
  lemma SelectionThenFull(db: Db, firm: int, ids: seq<Identity>)
    requires Tidy(db) && DuplicateSelection(db.cases, ids)
    ensures ValidGroups(db.cases, GroupsOf(db.cases, ids))
    ensures
      var db1 := After(db, firm, ids, true);
      Tidy(db1) && Alike(Full(db1, firm), Full(db, firm))
  {
    GroupsAreValid(db.cases, ids);
    var db1 := After(db, firm, ids, true);
    var all, rest := SortedIdentities(DuplicateIdentities(db.cases)),
      SortedIdentities(DuplicateIdentities(db.cases) - Elements(ids));
    SelectionKeepsTidy(db, firm, ids);
    FullOutcome(db, firm);
    FullOutcome(db1, firm);
    assert SortedIdentities(DuplicateIdentities(db1.cases)) == rest;
    RestSelected(db.cases, ids, rest, all);
    SelectionThenRest(db, firm, ids, rest, all);
  }

  /** What a batch leaves is independent if the database was. */
  lemma IndependentKept(db: Db, firm: int, ids: seq<Identity>)
    requires DuplicateSelection(db.cases, ids) && ValidGroups(db.cases, GroupsOf(db.cases, ids)) && Independent(db)
    requires DuplicateIdentities(After(db, firm, ids, true).cases) == DuplicateIdentities(db.cases) - Elements(ids)
    ensures Independent(After(db, firm, ids, true))
  {
    var all, rest := SortedIdentities(DuplicateIdentities(db.cases)),
      SortedIdentities(DuplicateIdentities(db.cases) - Elements(ids));
    RestSelected(db.cases, ids, rest, all);
    OthersKept(db, firm, ids, rest);
    var a, b := GroupsOf(db.cases, ids), GroupsOf(db.cases, rest);
    GroupsAreValid(db.cases, all);
    GroupsAreValid(db.cases, rest);
    JoinedGroupsValid(db.cases, ids, rest);
    SelectedThenOthers(db.cases, ids, rest, all);
    hide MergeGroups, OrderFree, DuplicateSelection, ValidGroups, GroupsOf, CasesAfter, DuplicateIdentities;
    ValidNonEmpty(db.cases, a + b);
    ValidNonEmpty(db.cases, b);
    SameGroupsBack(a + b, AllGroups(db));
    OrderFreeSame(db.kids, db.cases, AllGroups(db), a + b);
    OrderFreeAfter(db, a, b);
  }

  lemma SameGroupsBack(gs: seq<seq<int>>, hs: seq<seq<int>>)
    requires SameGroups(gs, hs)
    ensures SameGroups(hs, gs)
  {}

  lemma SelectionKeepsTidy(db: Db, firm: int, ids: seq<Identity>)
    requires Tidy(db) && DuplicateSelection(db.cases, ids) && ValidGroups(db.cases, GroupsOf(db.cases, ids))
    ensures
      var db1 := After(db, firm, ids, true);
      Tidy(db1) && DuplicateIdentities(db1.cases) == DuplicateIdentities(db.cases) - Elements(ids)
  {
    hide MergeGroups, Independent, UniqueCases, ValidGroups;
    ApartHasNoTwin(db, firm, Elements(ids));
    BatchUniqueIff(db, firm, Elements(ids));
    AfterIsWellFormed(db, firm, ids, true);
    ApartKept(db, firm, Elements(ids));
    DuplicatesAfterDelete(db, Elements(ids));
    ReownGroups(Survivors(db, Elements(ids)), Scope(db, Elements(ids), true), firm);
    IndependentKept(db, firm, ids);
  }

  /** The others are the groups they were, with the winners they had. */
  lemma OthersKept(db: Db, firm: int, ids: seq<Identity>, rest: seq<Identity>)
    requires DuplicateSelection(db.cases, ids) && ValidGroups(db.cases, GroupsOf(db.cases, ids))
    requires Elements(ids) !! Elements(rest)
    ensures GroupsOf(After(db, firm, ids, true).cases, rest) == GroupsOf(db.cases, rest)
    ensures forall id :: id in Elements(rest) ==> WinnerOf(After(db, firm, ids, true), id) == WinnerOf(db, id)
  {
    hide After, DuplicateSelection, ValidGroups, Group, WinnerOf;
    var db1 := After(db, firm, ids, true);
    forall id | id in Elements(rest)
      ensures Group(db1.cases, id) == Group(db.cases, id) && WinnerOf(db1, id) == WinnerOf(db, id) {
      LaterGroupKept(db, firm, ids, id);
    }
    GroupsAgree(db1.cases, db.cases, rest);
  }

  /** Merging the others after the batch is merging them after the merge of the selection. */
  lemma OthersMerged(db: Db, firm: int, ids: seq<Identity>, rest: seq<Identity>)
    requires DuplicateSelection(db.cases, ids) && ValidGroups(db.cases, GroupsOf(db.cases, ids))
    requires Elements(ids) !! Elements(rest) && ValidGroups(db.cases, GroupsOf(db.cases, rest))
    requires ValidGroups(After(db, firm, ids, true).cases, GroupsOf(db.cases, rest))
    ensures SameBut(MergeGroups(After(db, firm, ids, true), GroupsOf(db.cases, rest)),
                    MergeGroups(MergeGroups(db, GroupsOf(db.cases, ids)), GroupsOf(db.cases, rest)), {})
  {
    LaterCasesKept(db, firm, ids, rest);
    hide After, MergeGroups, DuplicateSelection, ValidGroups, GroupsOf;
    MergeGroupsSame(After(db, firm, ids, true), MergeGroups(db, GroupsOf(db.cases, ids)), GroupsOf(db.cases, rest));
  }

  lemma AlikeByParts(a: Db, l: Db, m: Db, n: Db, b: Db)
    requires a.kids == l.kids && a.sources == l.sources && a.audit == l.audit && SameBut(l, m, {}) && Alike(m, n)
    requires b.kids == n.kids && b.sources == n.sources && b.audit == n.audit && a.cases == b.cases
    ensures Alike(a, b)
  {}

  lemma RestSelected(cases: map<int, Case>, ids: seq<Identity>, rest: seq<Identity>, all: seq<Identity>)
    requires DuplicateSelection(cases, ids) && all == SortedIdentities(DuplicateIdentities(cases))
    requires rest == SortedIdentities(DuplicateIdentities(cases) - Elements(ids))
    ensures DuplicateSelection(cases, rest) && DuplicateSelection(cases, all)
    ensures Elements(ids) !! Elements(rest) && Elements(all) == Elements(ids) + Elements(rest)
  {
    hide DuplicateIdentities;
  }

  lemma SelectionThenRest(db: Db, firm: int, ids: seq<Identity>, rest: seq<Identity>, all: seq<Identity>)
    requires WellFormed(db) && NonEmpty(GroupsOf(db.cases, all)) && OrderFree(db.kids, GroupsOf(db.cases, all))
    requires ValidGroups(db.cases, GroupsOf(db.cases, ids))
    requires DuplicateSelection(db.cases, ids) && DuplicateSelection(db.cases, rest)
      && DuplicateSelection(db.cases, all)
    requires Elements(ids) !! Elements(rest) && Elements(all) == Elements(ids) + Elements(rest)
    requires ValidGroups(After(db, firm, ids, true).cases, GroupsOf(After(db, firm, ids, true).cases, rest))
    requires ValidGroups(db.cases, GroupsOf(db.cases, all))
    ensures Alike(After(After(db, firm, ids, true), firm, rest, false), After(db, firm, all, false))
  {
    hide MergeGroups, WellFormed, OrderFree, CasesAfter, Scope, GroupsOf, DuplicateIdentities, ValidGroups,
      DuplicateSelection, WinnerOf, Alike, Elements, SameBut;
    var db1 := After(db, firm, ids, true);
    OthersKept(db, firm, ids, rest);
    SelectionThenOthers(db, ids, rest, all);
    var m := MergeGroups(MergeGroups(db, GroupsOf(db.cases, ids)), GroupsOf(db.cases, rest));
    var n := MergeGroups(db, GroupsOf(db.cases, all));
    OthersMerged(db, firm, ids, rest);
    CasesInTwoStages(db, db1, firm, Elements(ids), Elements(rest));
    AlikeByParts(After(db1, firm, rest, false), MergeGroups(db1, GroupsOf(db.cases, rest)), m, n,
      After(db, firm, all, false));
  }

  /** One call, committed or rolled back, changes nothing of what a full run will leave, but the order
    * of the audit rows. */
  lemma CallThenFull(db: Db, firm: int, call: Arguments)
    requires Tidy(db)
    ensures
      var db1 := AfterRuns(db, firm, [call]);
      Tidy(db1) && Alike(Full(db1, firm), Full(db, firm))
  {
    var db1 := AfterRuns(db, firm, [call]);
    OneRun(db, firm, call);
    if call.limit.None? && call.only.None? {
      FullRunIsTidy(db, firm);
    } else {
      var ids := BatchIdentities(db.cases, call.limit, call.only);
      RunOutcome(db, firm, call.limit, call.only);
      BatchUniqueOk(db, firm, ids);
      SelectionThenFull(db, firm, ids);
    }
  }

  lemma OneRun(db: Db, firm: int, call: Arguments)
    ensures AfterRuns(db, firm, [call]) ==
      match Run(db, firm, call.limit, call.only)
      case Ok(r) => r.0
      case Err(_) => db
  {
    assert [call][..0] == [];
    assert AfterRuns(db, firm, []) == db;
  }

  lemma BatchUniqueOk(db: Db, firm: int, ids: seq<Identity>)
    requires Tidy(db) && DuplicateSelection(db.cases, ids)
    ensures UniqueCases(CasesAfter(db, firm, Elements(ids), true))
  {
    ApartHasNoTwin(db, firm, Elements(ids));
    BatchUniqueIff(db, firm, Elements(ids));
  }

  lemma SettledIsIndependent(db: Db)
    requires DuplicateIdentities(db.cases) == {}
    ensures Independent(db)
  {
    assert SortedIdentities(DuplicateIdentities(db.cases)) == [];
    assert AllGroups(db) == [];
  }

  lemma FullRunIsTidy(db: Db, firm: int)
    requires Tidy(db)
    ensures Tidy(Full(db, firm)) && Alike(Full(Full(db, firm), firm), Full(db, firm))
    ensures Run(db, firm, None, None).Ok? && Run(db, firm, None, None).value.0 == Full(db, firm)
  {
    var all := SortedIdentities(DuplicateIdentities(db.cases));
    FullOutcome(db, firm);
    FullUniqueIff(db, firm);
    hide WellFormed, NonCivilApart, Independent, UniqueCases, Run;
    FullSettles(db, firm, all);
    FullRunIdempotent(db, firm);
    SettledIsIndependent(Full(db, firm));
  }

  lemma RunsSplit(db: Db, firm: int, calls: seq<Arguments>)
    requires calls != []
    ensures AfterRuns(db, firm, calls) ==
      AfterRuns(AfterRuns(db, firm, calls[..|calls| - 1]), firm, [calls[|calls| - 1]])
  {
    hide Run;
    OneRun(AfterRuns(db, firm, calls[..|calls| - 1]), firm, calls[|calls| - 1]);
  }

  /** After any sequence of calls, with any limits and any keys, a full run leaves what it would have left at once. */
  lemma {:induction false} RunsThenFull(db: Db, firm: int, calls: seq<Arguments>)
    requires Tidy(db)
    ensures
      var h := AfterRuns(db, firm, calls);
      Tidy(h) && Alike(Full(h, firm), Full(db, firm))
  {
    hide Tidy, Full, Run;
    if calls != [] {
      RunsThenFull(db, firm, calls[..|calls| - 1]);
      RunsSplit(db, firm, calls);
      CallThenFull(AfterRuns(db, firm, calls[..|calls| - 1]), firm, calls[|calls| - 1]);
    }
  }

  lemma SettledRun(h: Db, firm: int)
    requires Tidy(h) && DuplicateIdentities(h.cases) == {}
    ensures
      var f := Full(h, firm);
      && f.kids == h.kids && f.sources == h.sources && f.audit == h.audit && f.cases.Keys == h.cases.Keys
      && forall c :: c in h.cases ==> f.cases[c] == h.cases[c].(lawyerId := firm)
  {
    FullOfSettled(h, firm);
    hide Full, WellFormed, NonCivilApart;
    assert Full(h, firm).cases == Reown(h.cases, h.cases.Keys, firm);
  }

  /**
   * The child rows, references, sources and surviving cases of `f`, the same
   * audit rows up to their order, and owners that differ only where `f` is the
   * firm's.
   */
  ghost predicate EndsLike(h: Db, f: Db, firm: int) {
    && h.kids == f.kids && h.sources == f.sources && multiset(h.audit) == multiset(f.audit)
    && h.cases.Keys == f.cases.Keys && forall c :: c in h.cases ==> f.cases[c] == h.cases[c].(lawyerId := firm)
  }

  /**
   * On an independent database any sequence of calls that leaves no duplicate,
   * whichever groups each call selects and in whatever order, ends like one
   * unbatched run.
   */
  lemma RunsEqualFull(db: Db, firm: int, calls: seq<Arguments>)
    requires Tidy(db) && DuplicateIdentities(AfterRuns(db, firm, calls).cases) == {}
    ensures EndsLike(AfterRuns(db, firm, calls), Full(db, firm), firm)
  {
    hide Tidy, WellFormed, NonCivilApart, Independent, DuplicateIdentities, AfterRuns, Full;
    RunsThenFull(db, firm, calls);
    SettledRun(AfterRuns(db, firm, calls), firm);
  }

  // ----- and otherwise some sequence does not

  /** A call for some identities and then a full one. */
  function TwoCalls(ids: seq<Identity>): seq<Arguments> {
    [Arguments(None, Some(Elements(ids))), Arguments(None, None)]
  }

  lemma AfterTwo(db: Db, firm: int, calls: seq<Arguments>)
    requires |calls| == 2
    ensures AfterRuns(db, firm, calls) == AfterRuns(AfterRuns(db, firm, [calls[0]]), firm, [calls[1]])
  {
    assert calls[..1] == [calls[0]];
    RunsSplit(db, firm, calls);
  }

  lemma SelectedByKeys(cases: map<int, Case>, ids: seq<Identity>)
    requires DuplicateSelection(cases, ids)
    ensures BatchIdentities(cases, None, Some(Elements(ids))) == ids
  {
    assert DuplicateIdentities(cases) * Elements(ids) == Elements(ids);
    IdentityOrder();
    AscendingUnique(SortedIdentities(Elements(ids)), ids, IdentityLess);
  }

  lemma KeysCall(db: Db, firm: int, ids: seq<Identity>)
    requires WellFormed(db) && NonCivilApart(db.cases) && DuplicateSelection(db.cases, ids)
    ensures ValidGroups(db.cases, GroupsOf(db.cases, ids))
    ensures AfterRuns(db, firm, [Arguments(None, Some(Elements(ids)))]) == After(db, firm, ids, true)
    ensures
      var db1 := After(db, firm, ids, true);
      && WellFormed(db1) && NonCivilApart(db1.cases)
      && DuplicateIdentities(db1.cases) == DuplicateIdentities(db.cases) - Elements(ids)
  {
    SelectedByKeys(db.cases, ids);
    RunOutcome(db, firm, None, Some(Elements(ids)));
    OneRun(db, firm, Arguments(None, Some(Elements(ids))));
    hide MergeGroups, ValidGroups;
    ApartHasNoTwin(db, firm, Elements(ids));
    BatchUniqueIff(db, firm, Elements(ids));
    AfterIsWellFormed(db, firm, ids, true);
    ApartKept(db, firm, Elements(ids));
    DuplicatesAfterDelete(db, Elements(ids));
    ReownGroups(Survivors(db, Elements(ids)), Scope(db, Elements(ids), true), firm);
  }

  lemma FullCall(db: Db, firm: int)
    requires WellFormed(db) && NonCivilApart(db.cases)
    ensures AfterRuns(db, firm, [Arguments(None, None)]) == Full(db, firm)
    ensures DuplicateIdentities(Full(db, firm).cases) == {}
    ensures ValidGroups(db.cases, AllGroups(db)) && Full(db, firm).kids == MergeGroups(db, AllGroups(db)).kids
  {
    OneRun(db, firm, Arguments(None, None));
    FullOutcome(db, firm);
    FullUniqueIff(db, firm);
    FullSettles(db, firm, SortedIdentities(DuplicateIdentities(db.cases)));
  }

  /** A call for some identities and then a full one merge the selected groups first. */
  lemma TwoCallsMerge(db: Db, firm: int, ids: seq<Identity>, rest: seq<Identity>)
    requires WellFormed(db) && NonCivilApart(db.cases) && DuplicateSelection(db.cases, ids)
    requires rest == SortedIdentities(DuplicateIdentities(db.cases) - Elements(ids))
    ensures DuplicateIdentities(AfterRuns(db, firm, TwoCalls(ids)).cases) == {}
    ensures
      var gs := GroupsOf(db.cases, ids) + GroupsOf(db.cases, rest);
      ValidGroups(db.cases, gs) && AfterRuns(db, firm, TwoCalls(ids)).kids == MergeGroups(db, gs).kids
  {
    KeysCall(db, firm, ids);
    var db1 := After(db, firm, ids, true);
    FullCall(db1, firm);
    AfterTwo(db, firm, TwoCalls(ids));
    RestSelected(db.cases, ids, rest, SortedIdentities(DuplicateIdentities(db.cases)));
    OthersKept(db, firm, ids, rest);
    hide MergeGroups, WellFormed, NonCivilApart, CasesAfter, GroupsOf, DuplicateIdentities, ValidGroups,
      DuplicateSelection, AfterRuns, Full, Elements;
    assert AllGroups(db1) == GroupsOf(db.cases, rest);
    BatchThenOthers(db, firm, ids, rest);
  }

  lemma BatchThenOthers(db: Db, firm: int, ids: seq<Identity>, rest: seq<Identity>)
    requires DuplicateSelection(db.cases, ids) && ValidGroups(db.cases, GroupsOf(db.cases, ids))
    requires DuplicateSelection(db.cases, rest) && Elements(ids) !! Elements(rest)
    requires ValidGroups(After(db, firm, ids, true).cases, GroupsOf(db.cases, rest))
    ensures
      var gs := GroupsOf(db.cases, ids) + GroupsOf(db.cases, rest);
      && ValidGroups(db.cases, gs)
      && MergeGroups(After(db, firm, ids, true), GroupsOf(db.cases, rest)).kids == MergeGroups(db, gs).kids
  {
    hide After, MergeGroups, GroupsOf, ValidGroups, DuplicateSelection;
    JoinedSelections(db.cases, ids, rest);
    OthersMerged(db, firm, ids, rest);
    SplitAt(db, GroupsOf(db.cases, ids), GroupsOf(db.cases, rest));
  }

  lemma JoinedSelections(cases: map<int, Case>, ids: seq<Identity>, rest: seq<Identity>)
    requires DuplicateSelection(cases, ids) && DuplicateSelection(cases, rest) && Elements(ids) !! Elements(rest)
    ensures ValidGroups(cases, GroupsOf(cases, ids) + GroupsOf(cases, rest))
    ensures ValidGroups(cases, GroupsOf(cases, rest))
  {
    hide ValidGroups, GroupIds;
    GroupsAreValid(cases, rest);
    JoinedGroupsValid(cases, ids, rest);
    SelectedThenOthers(cases, ids, rest, ids + rest) by {
      assert Elements(ids + rest) == Elements(ids) + Elements(rest);
    }
  }

  lemma SplitAt(db: Db, a: seq<seq<int>>, b: seq<seq<int>>)
    requires ValidGroups(db.cases, a + b)
    ensures ValidGroups(db.cases, a) && ValidGroups(db.cases, b)
    ensures MergeGroups(db, a + b) == MergeGroups(MergeGroups(db, a), b)
  {
    hide MergeGroups, ValidGroups;
    MergeGroupsSplit(db, a + b, |a|);
    assert (a + b)[..|a|] == a && (a + b)[|a|..] == b;
  }

  lemma WithoutOne<T(!new)>(all: seq<T>, i: nat, less: (T, T) -> bool)
    requires StrictOrder(less) && Ascending(all, less) && i < |all|
    ensures
      var rest := all[..i] + all[i + 1..];
      Ascending(rest, less) && Elements(rest) == Elements(all) - {all[i]}
  {
    var rest := all[..i] + all[i + 1..];
    forall x ensures x in Elements(rest) <==> x in Elements(all) && x != all[i] {
      if x in Elements(all) && x != all[i] {
        var m :| 0 <= m < |all| && all[m] == x;
        assert rest[if m < i then m else m - 1] == x;
      }
      if x in Elements(rest) {
        var m :| 0 <= m < |rest| && rest[m] == x;
        assert rest[m] == all[if m < i then m else m + 1];
      }
    }
  }

  lemma OthersListed(cases: map<int, Case>, i: nat)
    requires i < |SortedIdentities(DuplicateIdentities(cases))|
    ensures
      var all := SortedIdentities(DuplicateIdentities(cases));
      var rest := SortedIdentities(DuplicateIdentities(cases) - {all[i]});
      && rest == all[..i] + all[i + 1..] && all[i] in DuplicateIdentities(cases)
      && DuplicateIdentities(cases) - Elements(rest) == {all[i]}
  {
    hide DuplicateIdentities;
    var found := DuplicateIdentities(cases);
    var all := SortedIdentities(found);
    var rest := all[..i] + all[i + 1..];
    assert all[i] in Elements(all);
    IdentityOrder();
    WithoutOne(all, i, IdentityLess);
    AscendingUnique(SortedIdentities(found - {all[i]}), rest, IdentityLess);
    assert found - Elements(rest) == {all[i]};
  }

  lemma OtherGroups(cases: map<int, Case>, all: seq<Identity>, i: nat)
    requires i < |all|
    ensures GroupsOf(cases, all[..i] + all[i + 1..]) == Others(GroupsOf(cases, all), i)
    ensures GroupsOf(cases, [all[i]]) == [GroupsOf(cases, all)[i]]
  {
    hide GroupIds;
  }

  lemma OneSelected(cases: map<int, Case>, id: Identity)
    requires id in DuplicateIdentities(cases)
    ensures DuplicateSelection(cases, [id]) && SortedIdentities({id}) == [id] && Elements([id]) == {id}
  {
    hide DuplicateIdentities;
    assert Elements([id]) == {id};
    IdentityOrder();
    AscendingUnique(SortedIdentities({id}), [id], IdentityLess);
  }

  /** Every sequence of calls that leaves no duplicate ends like one unbatched run. */
  ghost predicate AllEndLike(db: Db, firm: int) {
    forall calls :: DuplicateIdentities(AfterRuns(db, firm, calls).cases) == {} ==>
      EndsLike(AfterRuns(db, firm, calls), Full(db, firm), firm)
  }

  /**
   * Every sequence of calls that leaves no duplicate ends like one unbatched
   * run if and only if the database is independent.
   */
  lemma RunsEqualFullIff(db: Db, firm: int)
    requires WellFormed(db) && NonCivilApart(db.cases)
    ensures AllEndLike(db, firm) <==> Independent(db)
  {
    hide WellFormed, NonCivilApart, Independent, DuplicateIdentities, AfterRuns, Full, EndsLike;
    if Independent(db) {
      forall calls | DuplicateIdentities(AfterRuns(db, firm, calls).cases) == {}
        ensures EndsLike(AfterRuns(db, firm, calls), Full(db, firm), firm)
      {
        RunsEqualFull(db, firm, calls);
      }
    }
    if AllEndLike(db, firm) {
      AlikeIsIndependent(db, firm);
    }
  }

  lemma AlikeIsIndependent(db: Db, firm: int)
    requires WellFormed(db) && NonCivilApart(db.cases)
    requires AllEndLike(db, firm)
    ensures Independent(db)
  {
    hide WellFormed, NonCivilApart, AllGroups, AllEndLike, Full, MergeGroups, RunRedirects, GroupSteady, Others,
      ValidGroups, DuplicateIdentities;
    FullCall(db, firm);
    ValidNonEmpty(db.cases, AllGroups(db));
    var gs := AllGroups(db);
    forall i | 0 <= i < |gs|
      ensures NonEmpty(Others(gs, i)) && GroupSteady(db.kids, gs[i], RunRedirects(db.kids, Others(gs, i)))
    {
      SteadyAmongCalls(db, firm, i);
    }
  }

  lemma SteadyAmongCalls(db: Db, firm: int, i: nat)
    requires WellFormed(db) && NonCivilApart(db.cases) && ValidGroups(db.cases, AllGroups(db))
    requires NonEmpty(AllGroups(db)) && i < |AllGroups(db)| && AllEndLike(db, firm)
    ensures NonEmpty(Others(AllGroups(db), i))
    ensures GroupSteady(db.kids, AllGroups(db)[i], RunRedirects(db.kids, Others(AllGroups(db), i)))
  {
    OthersValid(db.cases, AllGroups(db), i);
    var kids := FirstAndLastCalls(db, firm, i);
    hide WellFormed, NonCivilApart, AllGroups, AllEndLike, MergeGroups, RunRedirects, GroupSteady, Others, ValidGroups;
    FirstLikeLast(db, Others(AllGroups(db), i), AllGroups(db)[i]);
  }

  /** The calls that merge group `i` before all others, and after all others. */
  lemma FirstAndLastCalls(db: Db, firm: int, i: nat) returns (kids: Kids)
    requires WellFormed(db) && NonCivilApart(db.cases) && i < |AllGroups(db)|
    requires AllEndLike(db, firm)
    ensures
      var g, os := AllGroups(db)[i], Others(AllGroups(db), i);
      && ValidGroups(db.cases, [g] + os) && ValidGroups(db.cases, os + [g])
      && MergeGroups(db, [g] + os).kids == kids && MergeGroups(db, os + [g]).kids == kids
  {
    var all := SortedIdentities(DuplicateIdentities(db.cases));
    var rest := SortedIdentities(DuplicateIdentities(db.cases) - {all[i]});
    OthersListed(db.cases, i);
    OtherGroups(db.cases, all, i);
    OneSelected(db.cases, all[i]);
    assert DuplicateSelection(db.cases, rest);
    hide WellFormed, NonCivilApart, DuplicateIdentities, DuplicateSelection, AfterRuns, Full, MergeGroups, Others,
      ValidGroups, GroupsOf, Elements;
    TwoCallsMerge(db, firm, [all[i]], rest);
    TwoCallsMerge(db, firm, rest, [all[i]]);
    kids := Full(db, firm).kids;
    assert EndsLike(AfterRuns(db, firm, TwoCalls([all[i]])), Full(db, firm), firm);
    assert EndsLike(AfterRuns(db, firm, TwoCalls(rest)), Full(db, firm), firm);
  }

  // ----- a database on which the order shows

  const NOTE := Movement(None, "resuelve")

  function About(movement: int): Alert { Alert(5, Some(movement), "new_movement", None, None) }

  /** Two copies each of two causas; the alerts of the second name the movements of the first. */
  function Crossing(): Kids {
    NO_ROWS.(movements := map[11 := Row(Some(1), NOTE), 12 := Row(Some(2), NOTE)],
             alerts := map[21 := Row(Some(3), About(11)), 22 := Row(Some(4), About(12))])
  }

  lemma CrossingCanon()
    ensures MovementCanon(Crossing(), 2, 1) == map[12 := 11]
  {
    var t := Crossing().movements;
    assert Precedes(t, MovementKey, 2, 1, 11, 12);
    var canon := MovementCanon(Crossing(), 2, 1);
    assert 12 in canon && IsCanonical(t, MovementKey, 2, 1, 12, canon[12]);
    assert 11 !in canon;
  }

  lemma AlertsAfterFirst()
    ensures MergeKids(Crossing(), 2, 1).alerts == map[21 := Row(Some(3), About(11)), 22 := Row(Some(4), About(11))]
  {
    CrossingCanon();
    hide Canon, Merged;
    var s := Settled(Crossing(), 2, 1);
    assert s.alerts == map[21 := Row(Some(3), About(11)), 22 := Row(Some(4), About(11))];
    NotTheirs(s.alerts, AlertKey, 2, 1);
  }

  lemma MovementsAfterFirst()
    ensures forall id :: id in MergeKids(Crossing(), 2, 1).movements ==>
      MergeKids(Crossing(), 2, 1).movements[id].caseId != Some(4)
  {
    var t := Crossing().movements;
    forall id | id in Merged(t, MovementKey, 2, 1) ensures Merged(t, MovementKey, 2, 1)[id].caseId != Some(4) {
      MergedRow(t, MovementKey, 2, 1, id);
    }
  }

  lemma FirstCausaFirst()
    ensures 22 !in MergeKids(MergeKids(Crossing(), 2, 1), 4, 3).alerts
  {
    AlertsAfterFirst();
    MovementsAfterFirst();
    var k1 := MergeKids(Crossing(), 2, 1);
    SecondCollapses(k1);
  }

  lemma SecondCollapses(k: Kids)
    requires k.alerts == map[21 := Row(Some(3), About(11)), 22 := Row(Some(4), About(11))]
    requires forall id :: id in k.movements ==> k.movements[id].caseId != Some(4)
    ensures 22 !in MergeKids(k, 4, 3).alerts
  {
    NotTheirs(k.movements, MovementKey, 4, 3);
    var s := Settled(k, 4, 3);
    assert s.alerts[21] == k.alerts[21] && s.alerts[22] == k.alerts[22];
    assert Precedes(s.alerts, AlertKey, 4, 3, 21, 22);
    MergedRow(s.alerts, AlertKey, 4, 3, 22);
  }

  lemma AlertsAfterSecond()
    ensures MergeKids(Crossing(), 4, 3).alerts == map[21 := Row(Some(3), About(11)), 22 := Row(Some(3), About(12))]
  {
    var k := Crossing();
    NotTheirs(k.movements, MovementKey, 4, 3);
    var s := Settled(k, 4, 3);
    hide Canon, Merged;
    assert s.alerts == k.alerts;
    AlertsApart(s.alerts);
  }

  lemma AlertsApart(t: Table<Alert>)
    requires t == map[21 := Row(Some(3), About(11)), 22 := Row(Some(4), About(12))]
    ensures Merged(t, AlertKey, 4, 3) == map[21 := Row(Some(3), About(11)), 22 := Row(Some(3), About(12))]
  {
    assert forall j :: j in t && j != 22 ==> AlertKey(t[j].data) != AlertKey(t[22].data);
    MergedRow(t, AlertKey, 4, 3, 21);
    MergedRow(t, AlertKey, 4, 3, 22);
  }

  lemma SecondCausaFirst()
    ensures 22 in MergeKids(MergeKids(Crossing(), 4, 3), 2, 1).alerts
  {
    var k1 := MergeKids(Crossing(), 4, 3);
    AlertsAfterSecond();
    hide MergeKids, Merged, Canon;
    KeptByOthers(k1, 22);
  }

  /** A merge of other cases deletes no alert. */
  lemma KeptByOthers(k: Kids, id: int)
    requires id in k.alerts && k.alerts[id].caseId == Some(3)
    ensures id in MergeKids(k, 2, 1).alerts
  {
    var t := Settled(k, 2, 1).alerts;
    assert id in t && t[id].caseId == Some(3);
    MergedRow(t, AlertKey, 2, 1, id);
  }

  /** A loser without rows collapses none. */
  lemma NotTheirs<D, K>(t: Table<D>, key: D -> Option<K>, loser: int, winner: int)
    requires loser != winner && forall id :: id in t ==> t[id].caseId != Some(loser)
    ensures Merged(t, key, loser, winner) == t && Canon(t, key, loser, winner) == map[]
  {
    forall id | id in t ensures id in Merged(t, key, loser, winner) && Merged(t, key, loser, winner)[id] == t[id] {
      MergedRow(t, key, loser, winner, id);
    }
    assert DroppedIds(t, key, loser, winner) == {};
    assert Canon(t, key, loser, winner).Keys == {};
  }

  const FIRST := Identity("A", 1, "")
  const SECOND := Identity("B", 1, "")

  function CopyOf(rol: string, lawyer: int): Case { Case(lawyer, rol, 1, None, Some("civil")) }

  function CrossedDb(): Db {
    Db(map[1 := CopyOf("A", 7), 2 := CopyOf("A", 8), 3 := CopyOf("B", 7), 4 := CopyOf("B", 8)], Crossing(), {}, [])
  }

  lemma CrossedRowsOk(cases: map<int, Case>)
    requires cases.Keys == {1, 2, 3, 4}
    ensures
      var k := Crossing();
      KidsOwnersIn(k, cases.Keys) && LinksOk(k) && KidsUnique(k)
  {}

  lemma CrossedIsWellFormed()
    ensures WellFormed(CrossedDb()) && NonCivilApart(CrossedDb().cases)
  {
    CrossedRowsOk(CrossedDb().cases);
    hide KidsOwnersIn, LinksOk, KidsUnique;
  }

  lemma CrossedGroups()
    ensures GroupIds(CrossedDb().cases, FIRST) == [1, 2] && GroupIds(CrossedDb().cases, SECOND) == [3, 4]
    ensures DuplicateIdentities(CrossedDb().cases) == {FIRST, SECOND}
    ensures SortedIdentities({FIRST, SECOND}) == [FIRST, SECOND]
  {
    var cases := CrossedDb().cases;
    CrossedDuplicates();
    TwoSorted(1, 2, {1, 2}, IntLess, GroupIds(cases, FIRST));
    TwoSorted(3, 4, {3, 4}, IntLess, GroupIds(cases, SECOND));
    hide Group, DuplicateIdentities;
    IdentityOrder();
    assert StrLess("A", "B");
    TwoSorted(FIRST, SECOND, {FIRST, SECOND}, IdentityLess, SortedIdentities({FIRST, SECOND}));
  }

  lemma CrossedDuplicates()
    ensures Group(CrossedDb().cases, FIRST) == {1, 2} && Group(CrossedDb().cases, SECOND) == {3, 4}
    ensures DuplicateIdentities(CrossedDb().cases) == {FIRST, SECOND}
  {
    var cases := CrossedDb().cases;
    assert Group(cases, FIRST) == {1, 2} && Group(cases, SECOND) == {3, 4};
    assert IdentityOf(cases[1]) == FIRST && IdentityOf(cases[3]) == SECOND;
    assert |{1, 2}| == 2 && |{3, 4}| == 2;
  }

  lemma TwoSorted<T(!new)>(a: T, b: T, s: set<T>, less: (T, T) -> bool, r: seq<T>)
    requires StrictOrder(less) && less(a, b) && s == {a, b} && Ascending(r, less) && Elements(r) == s
    ensures r == [a, b]
  {
    assert Elements([a, b]) == {a, b};
    AscendingUnique(r, [a, b], less);
  }

  lemma CrossedWinners()
    ensures Winner(Crossing(), [1, 2]) == 1 && Losers(Crossing(), [1, 2]) == [2]
    ensures Winner(Crossing(), [3, 4]) == 3 && Losers(Crossing(), [3, 4]) == [4]
  {
    var k := Crossing();
    assert Ids(k.movements, 1) == {11} && Ids(k.movements, 2) == {12};
    assert Richness(k, 1) == 1 && Richness(k, 2) == 1 && Richness(k, 3) == 0 && Richness(k, 4) == 0;
    assert Winner(k, [1, 2]) in [1, 2] && Winner(k, [3, 4]) in [3, 4];
    assert Without([1, 2], 1) == [2] && Without([3, 4], 3) == [4];
  }

  /** Two groups of two cases each are merged by two merges. */
  lemma TwoPairs(db: Db, g: seq<int>, h: seq<int>, l1: int, w1: int, l2: int, w2: int)
    requires ValidGroups(db.cases, [g, h]) && g != [] && h != []
    requires Winner(db.kids, g) == w1 && Losers(db.kids, g) == [l1]
    requires Winner(db.kids, h) == w2 && Losers(db.kids, h) == [l2]
    ensures l1 != w1 && l2 != w2
    ensures MergeGroups(db, [g, h]).kids == MergeKids(MergeKids(db.kids, l1, w1), l2, w2)
  {
    assert w1 !in Elements(Losers(db.kids, g)) && w2 !in Elements(Losers(db.kids, h));
    assert [g, h][0] == g && [g, h][1] == h && [g, h][1..] == [h];
    assert Elements(g) !! Elements(h);
    MergeGroupElsewhere(db, g, h);
    var next := FirstGroup(db, [g, h]);
    GroupMerge(db, g);
    GroupMerge(next, h);
    assert ValidGroups(next.cases, [h]);
    OnePair(db.kids, l1, w1);
    OnePair(next.kids, l2, w2);
    hide MergeGroup, MergeKids, Winner;
    var last := FirstGroup(next, [h]);
    assert [h][1..] == [];
  }

  lemma OnePair(k: Kids, loser: int, winner: int)
    requires loser != winner
    ensures MergeAllKids(k, [loser], winner) == MergeKids(k, loser, winner)
  {}

  lemma SecondThenFirst()
    ensures WellFormed(CrossedDb()) && NonCivilApart(CrossedDb().cases)
    ensures TwoCalls([SECOND]) == [Arguments(None, Some({SECOND})), Arguments(None, None)]
    ensures
      var a := AfterRuns(CrossedDb(), 7, TwoCalls([SECOND]));
      DuplicateIdentities(a.cases) == {} && a.kids == MergeKids(MergeKids(Crossing(), 4, 3), 2, 1)
  {
    hide WellFormed, NonCivilApart, AfterRuns, MergeGroups, MergeKids, Winner, Losers, GroupIds, DuplicateIdentities;
    var db := CrossedDb();
    CrossedIsWellFormed();
    CrossedGroups();
    CrossedWinners();
    OneSelected(db.cases, SECOND);
    OneSelected(db.cases, FIRST);
    assert {FIRST, SECOND} - {SECOND} == {FIRST};
    TwoCallsMerge(db, 7, [SECOND], [FIRST]);
    assert GroupsOf(db.cases, [SECOND]) + GroupsOf(db.cases, [FIRST]) == [[3, 4], [1, 2]];
    TwoPairs(db, [3, 4], [1, 2], 4, 3, 2, 1);
  }

  lemma FirstThenSecond()
    ensures WellFormed(CrossedDb()) && NonCivilApart(CrossedDb().cases)
    ensures Full(CrossedDb(), 7).kids == MergeKids(MergeKids(Crossing(), 2, 1), 4, 3)
  {
    hide WellFormed, NonCivilApart, Full, MergeGroups, MergeKids, Winner, Losers, GroupIds, DuplicateIdentities;
    var db := CrossedDb();
    CrossedIsWellFormed();
    CrossedGroups();
    CrossedWinners();
    FullCall(db, 7);
    assert AllGroups(db) == [[1, 2], [3, 4]];
    TwoPairs(db, [1, 2], [3, 4], 2, 1, 4, 3);
  }

  /**
   * On this well-formed database a call for the second causa and then a full
   * one leave an alert that one full run collapses.
   */
  lemma CrossingOrderMatters()
    ensures
      var db, calls := CrossedDb(), [Arguments(None, Some({SECOND})), Arguments(None, None)];
      && WellFormed(db) && NonCivilApart(db.cases) && DuplicateIdentities(AfterRuns(db, 7, calls).cases) == {}
      && AfterRuns(db, 7, calls).kids.alerts != Full(db, 7).kids.alerts
      && !Independent(db)
  {
    hide WellFormed, NonCivilApart, AfterRuns, Full, MergeKids, Independent;
    var db := CrossedDb();
    CrossedIsWellFormed();
    SecondThenFirst();
    FirstThenSecond();
    FirstCausaFirst();
    SecondCausaFirst();
    assert AfterRuns(db, 7, TwoCalls([SECOND])).kids.alerts != Full(db, 7).kids.alerts;
    RunsEqualFullIff(db, 7);
  }
}
