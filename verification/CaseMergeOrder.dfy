/**
 * The order of the groups: merging them in any order leaves one and the same
 * database exactly when every group is steady under the others' redirections.
 */
module CaseMergeOrder {
  import opened Options
  import opened Ordering
  import opened ChildTable
  import opened CaseTables
  import opened CaseMergeLinks
  import opened CaseMerge
  import opened CaseMergeSafety
  import opened CaseMergeBatches
  import opened CaseMergeAudit
  import opened CaseMergeConservation
  import opened CaseMergeParts
  import opened CaseMergeSteady

  // ----- child rows

  /** The tables agree on the rows of every group and on the rows of no group. */
  ghost predicate TablesAgree<D>(a: Table<D>, b: Table<D>, gs: seq<seq<int>>) {
    && (forall i :: 0 <= i < |gs| ==> RowsIn(a, Part(Elements(gs[i]), true)) == RowsIn(b, Part(Elements(gs[i]), true)))
    && RowsIn(a, Part(Members(gs), false)) == RowsIn(b, Part(Members(gs), false))
  }

  lemma RowAgrees<D>(a: Table<D>, b: Table<D>, gs: seq<seq<int>>, id: int)
    requires TablesAgree(a, b, gs) && id in a
    ensures id in b && b[id] == a[id]
  {
    var owner := a[id].caseId;
    if owner.Some? && owner.value in Members(gs) {
      var i :| 0 <= i < |gs| && owner.value in gs[i];
      assert id in RowsIn(a, Part(Elements(gs[i]), true));
    } else {
      assert id in RowsIn(a, Part(Members(gs), false));
    }
  }

  lemma AgreeingTablesEqual<D>(a: Table<D>, b: Table<D>, gs: seq<seq<int>>)
    requires TablesAgree(a, b, gs)
    ensures a == b
  {
    forall id | id in a ensures id in b && b[id] == a[id] {
      RowAgrees(a, b, gs, id);
    }
    forall id | id in b ensures id in a {
      RowAgrees(b, a, gs, id);
    }
  }

  ghost predicate KidsAgree(a: Kids, b: Kids, gs: seq<seq<int>>) {
    && (forall i :: 0 <= i < |gs| ==> KidsIn(a, Part(Elements(gs[i]), true)) == KidsIn(b, Part(Elements(gs[i]), true)))
    && KidsIn(a, Part(Members(gs), false)) == KidsIn(b, Part(Members(gs), false))
  }

  lemma TableEqual<D>(a: Kids, b: Kids, gs: seq<seq<int>>, table: Kids -> Table<D>)
    requires KidsAgree(a, b, gs) && forall k, p :: table(KidsIn(k, p)) == RowsIn(table(k), p)
    ensures table(a) == table(b)
  {
    hide KidsIn, RowsIn;
    forall i | 0 <= i < |gs|
      ensures RowsIn(table(a), Part(Elements(gs[i]), true)) == RowsIn(table(b), Part(Elements(gs[i]), true))
    {
      assert table(KidsIn(a, Part(Elements(gs[i]), true))) == table(KidsIn(b, Part(Elements(gs[i]), true)));
    }
    assert table(KidsIn(a, Part(Members(gs), false))) == table(KidsIn(b, Part(Members(gs), false)));
    AgreeingTablesEqual(table(a), table(b), gs);
  }

  lemma LinkedTablesEqual(a: Kids, b: Kids, gs: seq<seq<int>>)
    requires KidsAgree(a, b, gs)
    ensures a.movements == b.movements && a.documents == b.documents && a.escritos == b.escritos
      && a.deadlines == b.deadlines
  {
    hide KidsAgree, RowsIn;
    TableEqual(a, b, gs, (k: Kids) => k.movements);
    TableEqual(a, b, gs, (k: Kids) => k.documents);
    TableEqual(a, b, gs, (k: Kids) => k.escritos);
    TableEqual(a, b, gs, (k: Kids) => k.deadlines);
  }

  lemma PartyTablesEqual(a: Kids, b: Kids, gs: seq<seq<int>>)
    requires KidsAgree(a, b, gs)
    ensures a.alerts == b.alerts && a.hitos == b.hitos && a.litigantes == b.litigantes
      && a.notificaciones == b.notificaciones
  {
    hide KidsAgree, RowsIn;
    TableEqual(a, b, gs, (k: Kids) => k.alerts);
    TableEqual(a, b, gs, (k: Kids) => k.hitos);
    TableEqual(a, b, gs, (k: Kids) => k.litigantes);
    TableEqual(a, b, gs, (k: Kids) => k.notificaciones);
  }

  lemma OtherTablesEqual(a: Kids, b: Kids, gs: seq<seq<int>>)
    requires KidsAgree(a, b, gs)
    ensures a.exhortos == b.exhortos && a.snapshots == b.snapshots && a.liberaciones == b.liberaciones
      && a.generados == b.generados
  {
    hide KidsAgree, RowsIn;
    TableEqual(a, b, gs, (k: Kids) => k.exhortos);
    TableEqual(a, b, gs, (k: Kids) => k.snapshots);
    TableEqual(a, b, gs, (k: Kids) => k.liberaciones);
    TableEqual(a, b, gs, (k: Kids) => k.generados);
  }

  lemma AgreeingKidsEqual(a: Kids, b: Kids, gs: seq<seq<int>>)
    requires KidsAgree(a, b, gs)
    ensures a == b
  {
    hide KidsAgree;
    LinkedTablesEqual(a, b, gs);
    PartyTablesEqual(a, b, gs);
    OtherTablesEqual(a, b, gs);
  }

  /** Two listings of the same groups. */
  ghost predicate SameGroups(gs: seq<seq<int>>, hs: seq<seq<int>>) {
    (forall g :: g in gs <==> g in hs)
  }

  lemma SameMembers(gs: seq<seq<int>>, hs: seq<seq<int>>)
    requires SameGroups(gs, hs)
    ensures Members(gs) == Members(hs)
  {
    forall c | c in Members(gs) ensures c in Members(hs) {
      var i :| 0 <= i < |gs| && c in gs[i];
      assert gs[i] in hs;
      var j :| 0 <= j < |hs| && hs[j] == gs[i];
    }
    forall c | c in Members(hs) ensures c in Members(gs) {
      var i :| 0 <= i < |hs| && c in hs[i];
      assert hs[i] in gs;
      var j :| 0 <= j < |gs| && gs[j] == hs[i];
    }
  }

  lemma MembersAreBeyond(gs: seq<seq<int>>)
    ensures forall i :: 0 <= i < |gs| ==> Beyond(Part(Members(gs), false), Elements(gs[i]))
  {
    forall i | 0 <= i < |gs| ensures Elements(gs[i]) <= Members(gs) {
      forall c | c in Elements(gs[i]) ensures c in Members(gs) {
        assert c in gs[i];
      }
    }
  }

  // ----- the groups other than one

  function Others(gs: seq<seq<int>>, i: nat): seq<seq<int>>
    requires i < |gs|
  {
    gs[..i] + gs[i + 1..]
  }

  ghost predicate GroupsApart(gs: seq<seq<int>>) {
    forall i, j :: 0 <= i < j < |gs| ==> Elements(gs[i]) !! Elements(gs[j])
  }

  lemma {:induction false} RunRedirectsSplit(k: Kids, a: seq<seq<int>>, b: seq<seq<int>>)
    requires NonEmpty(a) && NonEmpty(b)
    ensures NonEmpty(a + b) && RunRedirects(k, a + b) == Joined(RunRedirects(k, a), RunRedirects(k, b))
    decreases |a|
  {
    hide RedirectsOf, Joined;
    if a == [] {
      assert a + b == b;
      JoinedNone(RunRedirects(k, b));
    } else {
      assert (a + b)[0] == a[0] && (a + b)[1..] == a[1..] + b;
      RunRedirectsSplit(k, a[1..], b);
      JoinedAssociative(RedirectsOf(k, a[0]), RunRedirects(k, a[1..]), RunRedirects(k, b));
    }
  }

  lemma TailApart(gs: seq<seq<int>>)
    requires NonEmpty(gs) && GroupsApart(gs) && gs != []
    ensures NonEmpty(gs[1..]) && GroupsApart(gs[1..]) && AllApart(gs[1..], Elements(gs[0]))
  {
    var rest := gs[1..];
    forall i, j | 0 <= i < j < |rest| ensures Elements(rest[i]) !! Elements(rest[j]) {
      assert Elements(gs[i + 1]) !! Elements(gs[j + 1]);
    }
    forall i | 0 <= i < |rest| ensures Elements(rest[i]) !! Elements(gs[0]) {
      assert Elements(gs[0]) !! Elements(gs[i + 1]);
    }
  }

  /** `a` redirects what it redirects as `b` does. */
  predicate PartOf(a: Redirects, b: Redirects) {
    && (forall id :: id in a.movements ==> id in b.movements && b.movements[id] == a.movements[id])
    && (forall id :: id in a.escritos ==> id in b.escritos && b.escritos[id] == a.escritos[id])
  }

  lemma PartOfJoined(a: Redirects, b: Redirects)
    requires Chained(a, b)
    ensures PartOf(a, Joined(a, b)) && PartOf(b, Joined(a, b))
  {}

  lemma PartOfTransitive(a: Redirects, b: Redirects, c: Redirects)
    requires PartOf(a, b) && PartOf(b, c)
    ensures PartOf(a, c)
  {}

  lemma {:induction false} GroupPartOfRun(k: Kids, gs: seq<seq<int>>, i: nat)
    requires NonEmpty(gs) && GroupsApart(gs) && i < |gs|
    ensures PartOf(RedirectsOf(k, gs[i]), RunRedirects(k, gs))
    decreases |gs|
  {
    hide RedirectsOf, PartOf, Chained, Joined;
    TailApart(gs);
    RunRedirectsCons(k, gs);
    PartOfJoined(RedirectsOf(k, gs[0]), RunRedirects(k, gs[1..]));
    if i > 0 {
      GroupPartOfRun(k, gs[1..], i - 1);
      PartOfTransitive(RedirectsOf(k, gs[i]), RunRedirects(k, gs[1..]), RunRedirects(k, gs));
    }
  }

  /** What all groups redirect, each does. */
  lemma {:induction false} RunWithin(k: Kids, gs: seq<seq<int>>, all: Redirects)
    requires NonEmpty(gs) && forall i :: 0 <= i < |gs| ==> PartOf(RedirectsOf(k, gs[i]), all)
    ensures PartOf(RunRedirects(k, gs), all)
    decreases |gs|
  {
    hide RedirectsOf, PartOf, Joined;
    if gs == [] {
      PartOfNone(all);
    } else {
      assert PartOf(RedirectsOf(k, gs[0]), all);
      forall i | 0 <= i < |gs[1..]| ensures PartOf(RedirectsOf(k, gs[1..][i]), all) {
        assert PartOf(RedirectsOf(k, gs[i + 1]), all);
      }
      RunWithin(k, gs[1..], all);
      JoinedWithin(RedirectsOf(k, gs[0]), RunRedirects(k, gs[1..]), all);
    }
  }

  lemma PartOfNone(all: Redirects)
    ensures PartOf(NO_REDIRECTS, all)
  {}

  lemma JoinedWithin(a: Redirects, b: Redirects, all: Redirects)
    requires PartOf(a, all) && PartOf(b, all)
    ensures PartOf(Joined(a, b), all)
  {}

  lemma PartOfBoth(a: Redirects, b: Redirects)
    requires PartOf(a, b) && PartOf(b, a)
    ensures a == b
  {
    SameMaps(a.movements, b.movements);
    SameMaps(a.escritos, b.escritos);
  }

  lemma SameMaps(a: map<int, int>, b: map<int, int>)
    requires (forall id :: id in a ==> id in b && b[id] == a[id]) && forall id :: id in b ==> id in a
    ensures a == b
  {
    forall id ensures id in a.Keys <==> id in b.Keys {}
    assert a.Keys == b.Keys;
    forall id | id in a.Keys ensures a[id] == b[id] {}
  }

  lemma RunWithinRun(k: Kids, gs: seq<seq<int>>, hs: seq<seq<int>>)
    requires NonEmpty(gs) && NonEmpty(hs) && GroupsApart(hs) && SameGroups(gs, hs)
    ensures PartOf(RunRedirects(k, gs), RunRedirects(k, hs))
  {
    hide RedirectsOf, RunRedirects, PartOf, Elements;
    forall i | 0 <= i < |gs| ensures PartOf(RedirectsOf(k, gs[i]), RunRedirects(k, hs)) {
      assert gs[i] in hs;
      var j :| 0 <= j < |hs| && hs[j] == gs[i];
      GroupPartOfRun(k, hs, j);
    }
    RunWithin(k, gs, RunRedirects(k, hs));
  }

  /** The redirections of all groups do not depend on their order. */
  lemma RunRedirectsSame(k: Kids, gs: seq<seq<int>>, hs: seq<seq<int>>)
    requires NonEmpty(gs) && NonEmpty(hs) && GroupsApart(gs) && GroupsApart(hs) && SameGroups(gs, hs)
    ensures RunRedirects(k, gs) == RunRedirects(k, hs)
  {
    hide RunRedirects, PartOf, GroupsApart;
    RunWithinRun(k, gs, hs);
    RunWithinRun(k, hs, gs);
    PartOfBoth(RunRedirects(k, gs), RunRedirects(k, hs));
  }

  lemma OtherAt(gs: seq<seq<int>>, i: nat, j: nat)
    requires i < |gs| && j < |Others(gs, i)|
    ensures
      var m := if j < i then j else j + 1;
      m != i && m < |gs| && Others(gs, i)[j] == gs[m]
  {}

  lemma InOthers(gs: seq<seq<int>>, i: nat, m: nat)
    requires i < |gs| && m < |gs| && m != i
    ensures gs[m] in Others(gs, i)
  {
    assert Others(gs, i)[if m < i then m else m - 1] == gs[m];
  }

  lemma OthersValid(cases: map<int, Case>, gs: seq<seq<int>>, i: nat)
    requires ValidGroups(cases, gs) && i < |gs|
    ensures ValidGroups(cases, Others(gs, i)) && NonEmpty(Others(gs, i)) && GroupsApart(Others(gs, i))
    ensures AllApart(Others(gs, i), Elements(gs[i])) && gs[i] !in Others(gs, i)
  {
    var os := Others(gs, i);
    hide Others;
    forall j | 0 <= j < |os| ensures ValidGroup(cases, os[j]) && Elements(os[j]) !! Elements(gs[i]) && os[j] != gs[i] {
      OtherAt(gs, i, j);
      var m := if j < i then j else j + 1;
      assert Elements(gs[m]) !! Elements(gs[i]);
      assert gs[m][0] in Elements(gs[m]);
    }
    forall h, j | 0 <= h < j < |os| ensures Elements(os[h]) !! Elements(os[j]) {
      OtherAt(gs, i, h);
      OtherAt(gs, i, j);
    }
  }

  lemma OtherStays(cases: map<int, Case>, gs: seq<seq<int>>, hs: seq<seq<int>>, i: nat, j: nat, g: seq<int>)
    requires ValidGroups(cases, gs) && SameGroups(gs, hs) && i < |gs| && j < |hs| && gs[i] == hs[j]
    requires g in Others(gs, i)
    ensures g in Others(hs, j)
  {
    OthersValid(cases, gs, i);
    var h :| 0 <= h < |Others(gs, i)| && Others(gs, i)[h] == g;
    OtherAt(gs, i, h);
    assert g in gs && g != gs[i] && g in hs;
    var m :| 0 <= m < |hs| && hs[m] == g;
    InOthers(hs, j, m);
  }

  lemma SameOthers(cases: map<int, Case>, gs: seq<seq<int>>, hs: seq<seq<int>>, i: nat, j: nat)
    requires ValidGroups(cases, gs) && ValidGroups(cases, hs) && SameGroups(gs, hs)
    requires i < |gs| && j < |hs| && gs[i] == hs[j]
    ensures SameGroups(Others(gs, i), Others(hs, j))
  {
    hide Others, ValidGroups;
    forall g ensures g in Others(gs, i) <==> g in Others(hs, j) {
      if g in Others(gs, i) { OtherStays(cases, gs, hs, i, j, g); }
      if g in Others(hs, j) { OtherStays(cases, hs, gs, j, i, g); }
    }
  }

  // ----- when the order does not show

  /** The group's own rows are steady under `r`. */
  ghost predicate GroupSteady(k: Kids, g: seq<int>, r: Redirects)
    requires g != []
  {
    assert Winner(k, g) !in Elements(Losers(k, g));
    Steady(KidsIn(k, Part(Elements(g), true)), Losers(k, g), Winner(k, g), r)
  }

  /**
   * No document or alert of a group first collides with an earlier one of its
   * own group once the references to the other groups are followed.
   */
  ghost predicate OrderFree(k: Kids, gs: seq<seq<int>>)
    requires NonEmpty(gs)
  {
    forall i :: 0 <= i < |gs| ==>
      NonEmpty(Others(gs, i)) && GroupSteady(k, gs[i], RunRedirects(k, Others(gs, i)))
  }

  lemma AmongOthersIsForeign(r: Redirects, k: Kids, cs: set<int>, ds: set<int>)
    requires RedirectsAmong(r, k, ds) && cs !! ds
    ensures Foreign(r, KidsIn(k, Part(cs, true)))
  {
    ForeignMap(r.movements, k.movements, cs, ds);
    ForeignMap(r.escritos, k.escritos, cs, ds);
  }

  lemma ForeignMap<D>(m: map<int, int>, t: Table<D>, cs: set<int>, ds: set<int>)
    requires Among(m, t, ds) && cs !! ds
    ensures m.Keys !! RowsIn(t, Part(cs, true)).Keys && m.Values !! RowsIn(t, Part(cs, true)).Keys
  {
    forall id | id in m ensures id !in RowsIn(t, Part(cs, true)) && m[id] !in RowsIn(t, Part(cs, true)) {
      assert OfCases(t, id, ds) && OfCases(t, m[id], ds);
    }
  }

  /** The redirections of groups apart from `g` are foreign to its rows. */
  lemma RunIsForeign(k: Kids, gs: seq<seq<int>>, g: seq<int>)
    requires NonEmpty(gs) && AllApart(gs, Elements(g))
    ensures Foreign(RunRedirects(k, gs), KidsIn(k, Part(Elements(g), true)))
  {
    hide RunRedirects, KidsIn;
    RunRedirectsAmong(k, gs);
    MembersApart(gs, Elements(g));
    AmongOthersIsForeign(RunRedirects(k, gs), k, Elements(g), Members(gs));
  }

  lemma RunsChained(cases: map<int, Case>, k: Kids, a: seq<seq<int>>, b: seq<seq<int>>)
    requires NonEmpty(a) && NonEmpty(b) && forall j :: 0 <= j < |b| ==> AllApart(a, Elements(b[j]))
    ensures Chained(RunRedirects(k, a), RunRedirects(k, b))
  {
    hide RunRedirects, RedirectsAmong, Chained;
    RunRedirectsAmong(k, a);
    RunRedirectsAmong(k, b);
    forall c | c in Members(b) ensures c !in Members(a) {
      var j :| 0 <= j < |b| && c in b[j];
      assert c in Elements(b[j]);
      MembersApart(a, Elements(b[j]));
    }
    AmongApart(RunRedirects(k, a), Members(a), RunRedirects(k, b), Members(b), k);
  }

  lemma SliceRedirects(k: Kids, cases: map<int, Case>, gs: seq<seq<int>>, i: nat)
    requires ValidGroups(cases, gs) && i < |gs|
    ensures NonEmpty(gs[..i]) && NonEmpty(gs[i + 1..]) && NonEmpty(Others(gs, i))
    ensures
      var a, b := RunRedirects(k, gs[..i]), RunRedirects(k, gs[i + 1..]);
      var rows := KidsIn(k, Part(Elements(gs[i]), true));
      && RunRedirects(k, Others(gs, i)) == Joined(a, b) && Chained(a, b) && Foreign(a, rows) && Foreign(b, rows)
  {
    hide RunRedirects, KidsIn, Chained, Foreign, Joined, ValidGroup;
    SlicesApart(cases, gs, i);
    var before, later := gs[..i], gs[i + 1..];
    forall j | 0 <= j < |later| ensures AllApart(before, Elements(later[j])) {
      forall h | 0 <= h < |before| ensures Elements(before[h]) !! Elements(later[j]) {
        assert Elements(gs[h]) !! Elements(gs[i + 1 + j]);
      }
    }
    RunRedirectsSplit(k, gs[..i], gs[i + 1..]);
    RunsChained(cases, k, gs[..i], gs[i + 1..]);
    RunIsForeign(k, gs[..i], gs[i]);
    RunIsForeign(k, gs[i + 1..], gs[i]);
  }

  /** What merging `g` alone leaves of its rows, with the references of `r` followed in the end. */
  ghost function MergedAlone(k: Kids, g: seq<int>, r: Redirects): Kids
    requires g != []
  {
    assert Winner(k, g) !in Elements(Losers(k, g));
    Redirected(MergeAllKids(KidsIn(k, Part(Elements(g), true)), Losers(k, g), Winner(k, g)), r)
  }

  /** A steady group ends as if merged alone, wherever it comes in the order. */
  lemma SteadyGroupAlone(db: Db, gs: seq<seq<int>>, i: nat)
    requires ValidGroups(db.cases, gs) && i < |gs| && NonEmpty(Others(gs, i)) && gs[i] != []
    requires GroupSteady(db.kids, gs[i], RunRedirects(db.kids, Others(gs, i)))
    ensures KidsIn(MergeGroups(db, gs).kids, Part(Elements(gs[i]), true))
         == MergedAlone(db.kids, gs[i], RunRedirects(db.kids, Others(gs, i)))
  {
    SliceRedirects(db.kids, db.cases, gs, i);
    GroupsInside(db, gs, i);
    hide MergeGroups, KidsIn, RunRedirects, Redirected, Joined, Chained, Foreign, Winner, Steady, MergeAllKids;
    var g, k := gs[i], db.kids;
    var a, b := RunRedirects(k, gs[..i]), RunRedirects(k, gs[i + 1..]);
    var rows, w, ls := KidsIn(k, Part(Elements(g), true)), Winner(k, g), Losers(k, g);
    SteadyLess(rows, ls, w, a, b);
    SteadyIff(rows, ls, w, a);
    RedirectedTwice(MergeAllKids(rows, ls, w), a, b);
  }

  lemma SameRedirects(k: Kids, cases: map<int, Case>, gs: seq<seq<int>>, hs: seq<seq<int>>, i: nat, j: nat)
    requires ValidGroups(cases, gs) && ValidGroups(cases, hs) && SameGroups(gs, hs)
    requires i < |gs| && j < |hs| && gs[i] == hs[j]
    ensures NonEmpty(Others(gs, i)) && NonEmpty(Others(hs, j))
    ensures RunRedirects(k, Others(gs, i)) == RunRedirects(k, Others(hs, j))
  {
    hide RunRedirects, ValidGroups, Others, GroupsApart;
    OthersValid(cases, gs, i);
    OthersValid(cases, hs, j);
    SameOthers(cases, gs, hs, i, j);
    RunRedirectsSame(k, Others(gs, i), Others(hs, j));
  }

  /** Whether the order shows does not depend on the listing of the groups. */
  lemma OrderFreeSame(k: Kids, cases: map<int, Case>, gs: seq<seq<int>>, hs: seq<seq<int>>)
    requires ValidGroups(cases, gs) && ValidGroups(cases, hs) && SameGroups(gs, hs) && NonEmpty(gs) && NonEmpty(hs)
    requires OrderFree(k, gs)
    ensures OrderFree(k, hs)
  {
    hide RunRedirects, ValidGroups, Others, GroupSteady;
    forall j | 0 <= j < |hs|
      ensures NonEmpty(Others(hs, j)) && GroupSteady(k, hs[j], RunRedirects(k, Others(hs, j)))
    {
      assert hs[j] in gs;
      var i :| 0 <= i < |gs| && gs[i] == hs[j];
      SameRedirects(k, cases, gs, hs, i, j);
    }
  }

  lemma ValidNonEmpty(cases: map<int, Case>, gs: seq<seq<int>>)
    requires ValidGroups(cases, gs)
    ensures NonEmpty(gs) && GroupsApart(gs)
  {}

  /** Child rows do not depend on the order of the groups. */
  lemma KidsAnyOrder(db: Db, gs: seq<seq<int>>, hs: seq<seq<int>>)
    requires ValidGroups(db.cases, gs) && ValidGroups(db.cases, hs) && SameGroups(gs, hs)
    requires NonEmpty(gs) && OrderFree(db.kids, gs)
    ensures MergeGroups(db, gs).kids == MergeGroups(db, hs).kids
  {
    hide MergeGroups, KidsIn, MergedAlone, RunRedirects, Others, GroupSteady, Redirected, ValidGroup;
    var a, b := MergeGroups(db, gs).kids, MergeGroups(db, hs).kids;
    ValidNonEmpty(db.cases, gs);
    ValidNonEmpty(db.cases, hs);
    forall i | 0 <= i < |gs| ensures KidsIn(a, Part(Elements(gs[i]), true)) == KidsIn(b, Part(Elements(gs[i]), true)) {
      assert gs[i] in hs;
      var j :| 0 <= j < |hs| && hs[j] == gs[i];
      SameRedirects(db.kids, db.cases, gs, hs, i, j);
      SteadyGroupAlone(db, gs, i);
      SteadyGroupAlone(db, hs, j);
    }
    SameMembers(gs, hs);
    MembersAreBeyond(gs);
    MembersAreBeyond(hs);
    GroupsOutside(db, gs, Part(Members(gs), false));
    GroupsOutside(db, hs, Part(Members(hs), false));
    RunRedirectsSame(db.kids, gs, hs);
    AgreeingKidsEqual(a, b, gs);
  }

  // ----- and when it does

  lemma FirstAndLast(cases: map<int, Case>, gs: seq<seq<int>>, i: nat)
    requires ValidGroups(cases, gs) && i < |gs|
    ensures
      var first, last := [gs[i]] + Others(gs, i), Others(gs, i) + [gs[i]];
      ValidGroups(cases, first) && ValidGroups(cases, last) && SameGroups(gs, first) && SameGroups(gs, last)
  {
    var g, os := gs[i], Others(gs, i);
    OthersValid(cases, gs, i);
    forall x ensures x in gs <==> x == g || x in os {
      if x in gs && x != g {
        var m :| 0 <= m < |gs| && gs[m] == x;
        InOthers(gs, i, m);
      }
    }
    hide Others, ValidGroup, Elements;
    forall j | 0 <= j < |os| ensures Elements(os[j]) !! Elements(g) {}
    assert ValidGroup(cases, g);
    OneMoreValid(cases, os, g);
  }

  lemma OneMoreValid(cases: map<int, Case>, os: seq<seq<int>>, g: seq<int>)
    requires ValidGroups(cases, os) && ValidGroup(cases, g) && AllApart(os, Elements(g))
    ensures ValidGroups(cases, [g] + os) && ValidGroups(cases, os + [g])
  {
    hide ValidGroup, Elements;
    var first, last := [g] + os, os + [g];
    forall h, j | 0 <= h < j < |first| ensures Elements(first[h]) !! Elements(first[j]) {
      assert first[j] == os[j - 1];
      assert h > 0 ==> first[h] == os[h - 1];
    }
    forall h, j | 0 <= h < j < |last| ensures Elements(last[h]) !! Elements(last[j]) {
      assert last[h] == os[h];
      assert j < |os| ==> last[j] == os[j];
    }
  }

  lemma FirstInside(db: Db, os: seq<seq<int>>, g: seq<int>)
    requires ValidGroups(db.cases, [g] + os) && g != [] && NonEmpty(os)
    ensures KidsIn(MergeGroups(db, [g] + os).kids, Part(Elements(g), true))
         == MergedAlone(db.kids, g, RunRedirects(db.kids, os))
  {
    var gs := [g] + os;
    assert gs[..0] == [] && gs[1..] == os && gs[0] == g;
    GroupsInside(db, gs, 0);
    RedirectedNever(KidsIn(db.kids, Part(Elements(g), true)));
    hide MergeGroups, KidsIn, Redirected, RedirectsOf, Winner;
  }

  lemma LastInside(db: Db, os: seq<seq<int>>, g: seq<int>)
    requires ValidGroups(db.cases, os + [g]) && g != [] && NonEmpty(os)
    ensures
      var p, w, ls := Part(Elements(g), true), Winner(db.kids, g), Losers(db.kids, g);
      && w !in ls
      && KidsIn(MergeGroups(db, os + [g]).kids, p)
         == MergeAllKids(Redirected(KidsIn(db.kids, p), RunRedirects(db.kids, os)), ls, w)
  {
    var gs, i := os + [g], |os|;
    assert gs[..i] == os && gs[i + 1..] == [] && gs[i] == g;
    GroupsInside(db, gs, i);
    var p, w, ls := Part(Elements(g), true), Winner(db.kids, g), Losers(db.kids, g);
    RedirectedNever(MergeAllKids(Redirected(KidsIn(db.kids, p), RunRedirects(db.kids, os)), ls, w));
    hide MergeGroups, KidsIn, Redirected, RedirectsOf, Winner;
  }

  /** A group whose rows end the same whether it is merged first or last is steady. */
  lemma FirstLikeLast(db: Db, os: seq<seq<int>>, g: seq<int>)
    requires ValidGroups(db.cases, [g] + os) && ValidGroups(db.cases, os + [g]) && g != [] && NonEmpty(os)
    requires AllApart(os, Elements(g))
    requires MergeGroups(db, [g] + os).kids == MergeGroups(db, os + [g]).kids
    ensures GroupSteady(db.kids, g, RunRedirects(db.kids, os))
  {
    FirstInside(db, os, g);
    LastInside(db, os, g);
    hide MergeGroups, KidsIn, Redirected, RunRedirects, Winner, Foreign, Steady;
    RunIsForeign(db.kids, os, g);
    SteadyIff(KidsIn(db.kids, Part(Elements(g), true)), Losers(db.kids, g), Winner(db.kids, g),
      RunRedirects(db.kids, os));
  }

  // ----- lawyer sources

  lemma SameLosers(k: Kids, gs: seq<seq<int>>, hs: seq<seq<int>>)
    requires SameGroups(gs, hs) && (forall i :: 0 <= i < |gs| ==> gs[i] != [])
      && forall i :: 0 <= i < |hs| ==> hs[i] != []
    ensures AllLosers(k, gs) <= AllLosers(k, hs)
  {
    hide Losers;
    forall c | c in AllLosers(k, gs) ensures c in AllLosers(k, hs) {
      var i :| 0 <= i < |gs| && c in Losers(k, gs[i]);
      assert gs[i] in hs;
      var j :| 0 <= j < |hs| && hs[j] == gs[i];
    }
  }

  lemma SourceIsNoLoser(db: Db, gs: seq<seq<int>>, c: int, l: int)
    requires WellFormed(db) && ValidGroups(db.cases, gs) && (c, l) in MergeGroups(db, gs).sources
    ensures c !in AllLosers(db.kids, gs)
  {
    MergeGroupsOk(db, gs, db.cases.Keys);
    hide MergeGroups, AllLosers;
    assert (c, l).0 in db.cases.Keys - AllLosers(db.kids, gs);
  }

  lemma SourceStays(db: Db, gs: seq<seq<int>>, hs: seq<seq<int>>, c: int, l: int)
    requires WellFormed(db) && ValidGroups(db.cases, gs) && ValidGroups(db.cases, hs) && SameGroups(gs, hs)
    requires forall i :: 0 <= i < |gs| ==> Ascending(gs[i], IntLess)
    requires (c, l) in MergeGroups(db, gs).sources
    ensures (c, l) in MergeGroups(db, hs).sources
  {
    SourceIsNoLoser(db, gs, c, l);
    SameMembers(gs, hs);
    hide MergeGroups, WellFormed, ValidGroups, StillOk;
    if c in Members(gs) {
      var i :| 0 <= i < |gs| && c in gs[i];
      assert gs[i] in hs;
      var j :| 0 <= j < |hs| && hs[j] == gs[i];
      RunSources(db, gs, i, l);
      RunSources(db, hs, j, l);
      assert c !in Losers(db.kids, gs[i]);
      assert c in Elements(gs[i]) && c !in Elements(Losers(db.kids, gs[i]));
    } else {
      NotAMember(gs, c);
      NotAMember(hs, c);
      GroupsSourcesElsewhere(db, gs, c, l);
      GroupsSourcesElsewhere(db, hs, c, l);
    }
  }

  lemma NotAMember(gs: seq<seq<int>>, c: int)
    requires c !in Members(gs)
    ensures AllApart(gs, {c})
  {
    forall i | 0 <= i < |gs| ensures Elements(gs[i]) !! {c} {
      assert c !in gs[i];
    }
  }

  lemma SourcesAnyOrder(db: Db, gs: seq<seq<int>>, hs: seq<seq<int>>)
    requires WellFormed(db) && ValidGroups(db.cases, gs) && ValidGroups(db.cases, hs) && SameGroups(gs, hs)
    requires (forall i :: 0 <= i < |gs| ==> Ascending(gs[i], IntLess))
      && forall i :: 0 <= i < |hs| ==> Ascending(hs[i], IntLess)
    ensures MergeGroups(db, gs).sources == MergeGroups(db, hs).sources
  {
    hide MergeGroups, WellFormed, ValidGroup, Ascending;
    var a, b := MergeGroups(db, gs).sources, MergeGroups(db, hs).sources;
    forall p | p in a ensures p in b {
      SourceStays(db, gs, hs, p.0, p.1);
    }
    forall p | p in b ensures p in a {
      SourceStays(db, hs, gs, p.0, p.1);
    }
  }

  // ----- the audit

  lemma {:induction false} HeirIs(k: Kids, gs: seq<seq<int>>, i: nat, c: int)
    requires forall j :: 0 <= j < |gs| ==> gs[j] != []
    requires forall h, j :: 0 <= h < j < |gs| ==> Elements(gs[h]) !! Elements(gs[j])
    requires i < |gs| && c in Losers(k, gs[i])
    ensures Heir(k, gs, c) == Winner(k, gs[i])
    decreases |gs|
  {
    assert c in Elements(Losers(k, gs[i])) && c in Elements(gs[i]);
    if i > 0 {
      assert Elements(gs[0]) !! Elements(gs[i]) && c !in Elements(gs[0]);
      assert c !in Elements(Losers(k, gs[0]));
      hide Losers, Winner;
      forall h, j | 0 <= h < j < |gs[1..]| ensures Elements(gs[1..][h]) !! Elements(gs[1..][j]) {
        assert Elements(gs[h + 1]) !! Elements(gs[j + 1]);
      }
      HeirIs(k, gs[1..], i - 1, c);
    }
  }

  lemma {:induction false} HeirIsSelf(k: Kids, gs: seq<seq<int>>, c: int)
    requires forall j :: 0 <= j < |gs| ==> gs[j] != [] && c !in Losers(k, gs[j])
    ensures Heir(k, gs, c) == c
    decreases |gs|
  {
    if gs != [] {
      HeirIsSelf(k, gs[1..], c);
    }
  }

  lemma HeirAnyOrder(db: Db, gs: seq<seq<int>>, hs: seq<seq<int>>, c: int)
    requires ValidGroups(db.cases, gs) && ValidGroups(db.cases, hs) && SameGroups(gs, hs)
    ensures Heir(db.kids, gs, c) == Heir(db.kids, hs, c)
  {
    hide Losers, Winner, Heir;
    if i :| 0 <= i < |gs| && c in Losers(db.kids, gs[i]) {
      assert gs[i] in hs;
      var j :| 0 <= j < |hs| && hs[j] == gs[i];
      HeirIs(db.kids, gs, i, c);
      HeirIs(db.kids, hs, j, c);
    } else {
      forall j | 0 <= j < |hs| ensures c !in Losers(db.kids, hs[j]) {
        assert hs[j] in gs;
      }
      HeirIsSelf(db.kids, gs, c);
      HeirIsSelf(db.kids, hs, c);
    }
  }

  lemma {:induction false} LoserIsRecorded(k: Kids, gs: seq<seq<int>>, c: int) returns (i: nat)
    requires (forall g :: 0 <= g < |gs| ==> gs[g] != []) && c in AllLosers(k, gs)
    ensures i < LoserCount(k, gs) && LosersInOrder(k, gs)[i] == c
    decreases |gs|
  {
    hide Losers;
    var ls := Losers(k, gs[0]);
    if c in ls {
      i :| 0 <= i < |ls| && ls[i] == c;
    } else {
      var g :| 0 <= g < |gs| && c in Losers(k, gs[g]);
      assert gs[1..][g - 1] == gs[g];
      i := LoserIsRecorded(k, gs[1..], c);
      i := |ls| + i;
    }
  }

  /** The rows a run adds. */
  ghost function AddedRows(db: Db, gs: seq<seq<int>>): seq<Audit>
    requires ValidGroups(db.cases, gs) && |db.audit| <= |MergeGroups(db, gs).audit|
  {
    MergeGroups(db, gs).audit[|db.audit|..]
  }

  lemma RowIsNew(db: Db, gs: seq<seq<int>>, i: nat)
    requires ValidGroups(db.cases, gs) && |db.audit| <= i < |MergeGroups(db, gs).audit|
    ensures (forall j :: 0 <= j < |gs| ==> gs[j] != []) && NewRow(db.kids, db.cases, gs, MergeGroups(db, gs).audit[i])
  {
    hide MergeGroups, NewRow, Heir, LosersInOrder;
    MergeGroupsAudit(db, gs);
  }

  lemma AddedRowIsNew(db: Db, gs: seq<seq<int>>, a: Audit)
    requires ValidGroups(db.cases, gs) && |db.audit| <= |MergeGroups(db, gs).audit| && a in AddedRows(db, gs)
    ensures (forall i :: 0 <= i < |gs| ==> gs[i] != []) && NewRow(db.kids, db.cases, gs, a)
  {
    hide MergeGroups, NewRow, ValidGroups;
    var i := IndexInTail(MergeGroups(db, gs).audit, |db.audit|, a);
    RowIsNew(db, gs, i);
  }

  lemma IndexInTail<T>(s: seq<T>, n: nat, x: T) returns (i: nat)
    requires n <= |s| && x in s[n..]
    ensures n <= i < |s| && s[i] == x
  {
    i :| 0 <= i < |s[n..]| && s[n..][i] == x;
    i := n + i;
  }

  lemma LoserIsAdded(db: Db, gs: seq<seq<int>>, l: int) returns (a: Audit)
    requires ValidGroups(db.cases, gs) && |db.audit| <= |MergeGroups(db, gs).audit|
    requires (forall i :: 0 <= i < |gs| ==> gs[i] != []) && l in AllLosers(db.kids, gs)
    ensures a in AddedRows(db, gs) && a.loser == l && NewRow(db.kids, db.cases, gs, a)
  {
    MergeGroupsAudit(db, gs);
    var i := LoserIsRecorded(db.kids, gs, l);
    hide MergeGroups, NewRow, LosersInOrder, LoserCount;
    var n, rows := |db.audit|, MergeGroups(db, gs).audit;
    a := rows[n + i];
    assert rows[n..][i] == a;
  }

  lemma AddedRowStays(db: Db, gs: seq<seq<int>>, hs: seq<seq<int>>, a: Audit)
    requires ValidGroups(db.cases, gs) && ValidGroups(db.cases, hs) && SameGroups(gs, hs)
    requires |db.audit| <= |MergeGroups(db, gs).audit| && |db.audit| <= |MergeGroups(db, hs).audit|
    requires a in AddedRows(db, gs)
    ensures a in AddedRows(db, hs)
  {
    hide AddedRows, MergeGroups, AllLosers, Heir;
    AddedRowIsNew(db, gs, a);
    SameLosers(db.kids, gs, hs);
    HeirAnyOrder(db, gs, hs, a.loser);
    var b := LoserIsAdded(db, hs, a.loser);
    assert a == b;
  }

  lemma AddedRowsDistinct(db: Db, gs: seq<seq<int>>)
    requires ValidGroups(db.cases, gs) && forall g :: 0 <= g < |gs| ==> Ascending(gs[g], IntLess)
    requires |db.audit| <= |MergeGroups(db, gs).audit|
    ensures Distinct(AddedRows(db, gs))
  {
    hide MergeGroups, ValidGroups, Ascending;
    var n, rows := |db.audit|, AddedRows(db, gs);
    forall i, j | 0 <= i < j < |rows| ensures rows[i] != rows[j] {
      OneRowPerLoser(db, gs, n + i, n + j);
    }
  }

  lemma OldRowFollows(db: Db, gs: seq<seq<int>>, i: nat)
    requires ValidGroups(db.cases, gs)
    ensures |db.audit| <= |MergeGroups(db, gs).audit| && forall j :: 0 <= j < |gs| ==> gs[j] != []
    ensures i < |db.audit| ==>
      MergeGroups(db, gs).audit[i] == db.audit[i].(winner := Heir(db.kids, gs, db.audit[i].winner))
  {
    hide MergeGroups, Heir, NewRow, LosersInOrder;
    MergeGroupsAudit(db, gs);
  }

  lemma OldRowsStay(db: Db, gs: seq<seq<int>>, hs: seq<seq<int>>)
    requires ValidGroups(db.cases, gs) && ValidGroups(db.cases, hs) && SameGroups(gs, hs)
    ensures |db.audit| <= |MergeGroups(db, gs).audit| && |db.audit| <= |MergeGroups(db, hs).audit|
    ensures MergeGroups(db, gs).audit[..|db.audit|] == MergeGroups(db, hs).audit[..|db.audit|]
  {
    hide MergeGroups, Heir, ValidGroups;
    OldRowFollows(db, gs, 0);
    OldRowFollows(db, hs, 0);
    forall i | 0 <= i < |db.audit| ensures MergeGroups(db, gs).audit[i] == MergeGroups(db, hs).audit[i] {
      OldRowFollows(db, gs, i);
      OldRowFollows(db, hs, i);
      HeirAnyOrder(db, gs, hs, db.audit[i].winner);
    }
  }

  /** Old audit rows are the same, and the new ones are the same up to order. */
  lemma AuditAnyOrder(db: Db, gs: seq<seq<int>>, hs: seq<seq<int>>)
    requires ValidGroups(db.cases, gs) && ValidGroups(db.cases, hs) && SameGroups(gs, hs)
    requires (forall i :: 0 <= i < |gs| ==> Ascending(gs[i], IntLess))
      && forall i :: 0 <= i < |hs| ==> Ascending(hs[i], IntLess)
    ensures multiset(MergeGroups(db, gs).audit) == multiset(MergeGroups(db, hs).audit)
  {
    hide MergeGroups, ValidGroup, Ascending, Distinct;
    OldRowsStay(db, gs, hs);
    var a, b := AddedRows(db, gs), AddedRows(db, hs);
    forall x ensures x in Elements(a) <==> x in Elements(b) {
      if x in a { AddedRowStays(db, gs, hs, x); }
      if x in b { AddedRowStays(db, hs, gs, x); }
    }
    AddedRowsDistinct(db, gs);
    AddedRowsDistinct(db, hs);
    EnumerationMultiset(a, b);
    var n, one, two := |db.audit|, MergeGroups(db, gs).audit, MergeGroups(db, hs).audit;
    assert one == one[..n] + one[n..] && two == two[..n] + two[n..];
  }

  // ----- any order

  /** The same database, up to the order of the audit rows. */
  ghost predicate Alike(a: Db, b: Db) {
    a.cases == b.cases && a.kids == b.kids && a.sources == b.sources && multiset(a.audit) == multiset(b.audit)
  }

  ghost predicate AllAscending(gs: seq<seq<int>>) { forall i :: 0 <= i < |gs| ==> Ascending(gs[i], IntLess) }

  lemma SameAscending(gs: seq<seq<int>>, hs: seq<seq<int>>)
    requires SameGroups(gs, hs) && AllAscending(gs)
    ensures AllAscending(hs)
  {
    hide Ascending;
    forall j | 0 <= j < |hs| ensures Ascending(hs[j], IntLess) {
      assert hs[j] in gs;
    }
  }

  /** Steady groups may be merged in any order. */
  lemma AnyOrder(db: Db, gs: seq<seq<int>>, hs: seq<seq<int>>)
    requires WellFormed(db) && ValidGroups(db.cases, gs) && ValidGroups(db.cases, hs) && SameGroups(gs, hs)
    requires AllAscending(gs) && NonEmpty(gs) && OrderFree(db.kids, gs)
    ensures Alike(MergeGroups(db, gs), MergeGroups(db, hs))
  {
    hide WellFormed, ValidGroup, Ascending, OrderFree, SameGroups;
    SameAscending(gs, hs);
    KidsAnyOrder(db, gs, hs);
    SourcesAnyOrder(db, gs, hs);
    AuditAnyOrder(db, gs, hs);
  }

  /** `hs` lists the groups `gs` in some order. */
  ghost predicate Listing(cases: map<int, Case>, gs: seq<seq<int>>, hs: seq<seq<int>>) {
    ValidGroups(cases, hs) && SameGroups(gs, hs)
  }

  /**
   * The order in which the groups are merged does not show, but in the order of
   * the audit rows, if and only if no document or alert of a group first
   * collides with an earlier one of its own group once the references to the
   * other groups are followed.
   */
  lemma AnyOrderIff(db: Db, gs: seq<seq<int>>)
    requires WellFormed(db) && ValidGroups(db.cases, gs) && AllAscending(gs)
    ensures NonEmpty(gs)
    ensures (forall hs :: Listing(db.cases, gs, hs) ==> Alike(MergeGroups(db, gs), MergeGroups(db, hs)))
       <==> OrderFree(db.kids, gs)
  {
    ValidNonEmpty(db.cases, gs);
    hide WellFormed, ValidGroups, AllAscending, MergeGroups, OrderFree, Alike;
    if OrderFree(db.kids, gs) {
      forall hs | Listing(db.cases, gs, hs) ensures Alike(MergeGroups(db, gs), MergeGroups(db, hs)) {
        AnyOrder(db, gs, hs);
      }
    }
    if forall hs :: Listing(db.cases, gs, hs) ==> Alike(MergeGroups(db, gs), MergeGroups(db, hs)) {
      hide SameGroups;
      AlikeIsOrderFree(db, gs);
    }
  }

  lemma AlikeIsOrderFree(db: Db, gs: seq<seq<int>>)
    requires ValidGroups(db.cases, gs) && NonEmpty(gs)
    requires forall hs :: Listing(db.cases, gs, hs) ==> Alike(MergeGroups(db, gs), MergeGroups(db, hs))
    ensures OrderFree(db.kids, gs)
  {
    hide ValidGroups, MergeGroups, RunRedirects, GroupSteady, Others;
    forall i | 0 <= i < |gs|
      ensures NonEmpty(Others(gs, i)) && GroupSteady(db.kids, gs[i], RunRedirects(db.kids, Others(gs, i)))
    {
      OthersValid(db.cases, gs, i);
      FirstAndLast(db.cases, gs, i);
      assert Listing(db.cases, gs, [gs[i]] + Others(gs, i)) && Listing(db.cases, gs, Others(gs, i) + [gs[i]]);
      FirstLikeLast(db, Others(gs, i), gs[i]);
    }
  }

  // ----- in particular when no reference crosses

  predicate Names<D>(link: Option<int>, t: Table<D>, cs: set<int>) { link.Some? && OfCases(t, link.value, cs) }

  /** No document or alert of a case of `cs` refers to a movement or an escrito of a case of `others`. */
  ghost predicate NoneCross(k: Kids, cs: set<int>, others: set<int>) {
    && (forall id :: OfCases(k.documents, id, cs) ==>
          !Names(k.documents[id].data.movementId, k.movements, others)
          && !Names(k.documents[id].data.escritoId, k.escritos, others))
    && (forall id :: OfCases(k.alerts, id, cs) ==> !Names(k.alerts[id].data.movementId, k.movements, others))
  }

  lemma NotNamedStays<D>(link: Option<int>, t: Table<D>, cs: set<int>, m: map<int, int>)
    requires Among(m, t, cs) && !Names(link, t, cs)
    ensures Follow(m, link) == link
  {}

  lemma NoneCrossUncrossed(k: Kids, cs: set<int>, others: set<int>, r: Redirects)
    requires NoneCross(k, cs, others) && RedirectsAmong(r, k, others)
    ensures Uncrossed(KidsIn(k, Part(cs, true)), r)
  {
    var rows := KidsIn(k, Part(cs, true));
    forall id | id in rows.documents ensures DocumentLinks(r, rows.documents[id].data) == rows.documents[id].data {
      assert OfCases(k.documents, id, cs);
      NotNamedStays(k.documents[id].data.movementId, k.movements, others, r.movements);
      NotNamedStays(k.documents[id].data.escritoId, k.escritos, others, r.escritos);
    }
    forall id | id in rows.alerts ensures AlertMovement(r.movements, rows.alerts[id].data) == rows.alerts[id].data {
      assert OfCases(k.alerts, id, cs);
      NotNamedStays(k.alerts[id].data.movementId, k.movements, others, r.movements);
    }
  }

  /** No document or alert of one group refers to another: whatever deadlines and hitos refer to, any order will do. */
  lemma NoCrossingIsOrderFree(cases: map<int, Case>, k: Kids, gs: seq<seq<int>>)
    requires ValidGroups(cases, gs)
    requires forall i :: 0 <= i < |gs| ==> NoneCross(k, Elements(gs[i]), Members(Others(gs, i)))
    ensures NonEmpty(gs) && OrderFree(k, gs)
  {
    ValidNonEmpty(cases, gs);
    hide ValidGroups, Others, NoneCross, RunRedirects, KidsIn, Winner, Foreign, Uncrossed, Steady, Members;
    forall i | 0 <= i < |gs|
      ensures NonEmpty(Others(gs, i)) && GroupSteady(k, gs[i], RunRedirects(k, Others(gs, i)))
    {
      var g, os := gs[i], Others(gs, i);
      OthersValid(cases, gs, i);
      RunRedirectsAmong(k, os);
      RunIsForeign(k, os, g);
      assert Winner(k, g) !in Elements(Losers(k, g));
      NoneCrossUncrossed(k, Elements(g), Members(os), RunRedirects(k, os));
      UncrossedIsSteady(KidsIn(k, Part(Elements(g), true)), Losers(k, g), Winner(k, g), RunRedirects(k, os));
    }
  }
}
