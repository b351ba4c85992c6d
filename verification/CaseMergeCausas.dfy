/**
 * What a run does to the `cases` table, said in the columns of the table: which
 * cases are duplicates, which are deleted, who takes their place, and who owns
 * what is left.
 */
module CaseMergeCausas {
  import opened Options
  import opened Ordering
  import opened CaseTables
  import opened CaseMerge
  import opened CaseMergeSafety
  import opened CaseMergeRun
  import opened CaseMergeBatches
  import opened CaseMergeAudit
  import opened CaseMergeOrder
  import opened CaseMergeReverse

  // ----- one causa

  function Cuaderno(procedure: Option<string>): string {
    match procedure case None => "" case Some(p) => p
  }

  /** Two rows of one causa: same rol, same court, same cuaderno, a missing one being the empty one. */
  predicate SameCausa(a: Case, b: Case) {
    a.rol == b.rol && a.courtId == b.courtId && Cuaderno(a.procedure) == Cuaderno(b.procedure)
  }

  lemma IdentityIsCausa(a: Case, b: Case)
    ensures IdentityOf(a) == IdentityOf(b) <==> SameCausa(a, b)
  {}

  /** Case `c` is a row of the causa `id` in a civil court. */
  predicate CivilRow(cases: map<int, Case>, c: int, id: Identity) {
    && c in cases && cases[c].competencia == Some("civil")
    && cases[c].rol == id.rol && cases[c].courtId == id.courtId && Cuaderno(cases[c].procedure) == id.procedure
  }

  lemma TwoMembers(s: set<int>, c: int, d: int)
    requires c in s && d in s && c != d
    ensures |s| > 1
  {
    SubsetSize({c, d}, s);
  }

  lemma OtherMember(s: set<int>, c: int) returns (d: int)
    requires |s| > 1
    ensures d in s && d != c
  {
    if c in s {
      assert |s - {c}| == |s| - 1;
      d := SomeElement(s - {c});
    } else {
      d := SomeElement(s);
    }
  }

  lemma GroupIsRows(cases: map<int, Case>, id: Identity)
    ensures forall c :: c in Group(cases, id) <==> CivilRow(cases, c, id)
  {}

  /** A causa is selected exactly when two civil rows have its rol, court and cuaderno. */
  lemma DuplicatedIff(cases: map<int, Case>, id: Identity)
    ensures id in DuplicateIdentities(cases) <==>
      exists c, d :: c != d && CivilRow(cases, c, id) && CivilRow(cases, d, id)
  {
    GroupIsRows(cases, id);
    DuplicateIff(cases, id);
    if c, d :| c != d && CivilRow(cases, c, id) && CivilRow(cases, d, id) {
      TwoMembers(Group(cases, id), c, d);
    }
    if |Group(cases, id)| > 1 {
      var c := SomeElement(Group(cases, id));
      var d := OtherMember(Group(cases, id), c);
      assert CivilRow(cases, c, id) && CivilRow(cases, d, id);
    }
  }

  // ----- the order of the batches

  /** At place `n` the texts first differ: `a` ends there, or has the lower code point. */
  predicate DiffersAt(a: string, b: string, n: nat) {
    n <= |a| && n < |b| && a[..n] == b[..n] && (n == |a| || a[n] < b[n])
  }

  /** `a` comes before `b` as text. */
  ghost predicate TextBefore(a: string, b: string) { exists n: nat :: DiffersAt(a, b, n) }

  lemma {:induction false} FirstDifference(a: string, b: string) returns (n: nat)
    requires StrLess(a, b)
    ensures DiffersAt(a, b, n)
  {
    if a == [] || a[0] != b[0] {
      n := 0;
    } else {
      n := FirstDifference(a[1..], b[1..]);
      assert a[..n + 1] == [a[0]] + a[1..][..n] && b[..n + 1] == [b[0]] + b[1..][..n];
      n := n + 1;
    }
  }

  lemma {:induction false} DifferenceOrders(a: string, b: string, n: nat)
    requires DiffersAt(a, b, n)
    ensures StrLess(a, b)
    decreases n
  {
    if n > 0 {
      assert a[0] == a[..n][0] && b[0] == b[..n][0];
      assert a[1..][..n - 1] == a[..n][1..] && b[1..][..n - 1] == b[..n][1..];
      DifferenceOrders(a[1..], b[1..], n - 1);
    }
  }

  lemma StrLessIsTextBefore(a: string, b: string)
    ensures StrLess(a, b) <==> TextBefore(a, b)
  {
    if StrLess(a, b) {
      var n := FirstDifference(a, b);
    }
    if n: nat :| DiffersAt(a, b, n) {
      DifferenceOrders(a, b, n);
    }
  }

  /** By court, then rol, then cuaderno. */
  ghost predicate CausaBefore(a: Identity, b: Identity) {
    || a.courtId < b.courtId
    || (a.courtId == b.courtId && TextBefore(a.rol, b.rol))
    || (a.courtId == b.courtId && a.rol == b.rol && TextBefore(a.procedure, b.procedure))
  }

  lemma IdentityOrderIs(a: Identity, b: Identity)
    ensures IdentityLess(a, b) <==> CausaBefore(a, b)
  {
    StrLessIsTextBefore(a.rol, b.rol);
    StrLessIsTextBefore(a.procedure, b.procedure);
    if a.rol == b.rol {
      StrLessTotal(a.rol, b.rol);
      StrLessAsymmetric(a.rol, b.rol);
    }
  }

  /** Wanted: duplicated, and among the keys if any are given. */
  ghost predicate Wanted(cases: map<int, Case>, only: Option<set<Identity>>, id: Identity) {
    && (exists c, d :: c != d && CivilRow(cases, c, id) && CivilRow(cases, d, id))
    && (only.Some? ==> id in only.value)
  }

  /**
   * The groups of a call: in the order of court, rol and cuaderno, the first
   * `limit` of those wanted, or all of them, none for a negative limit.
   */
  lemma SelectionIs(cases: map<int, Case>, limit: Option<int>, only: Option<set<Identity>>)
    ensures
      var ids := BatchIdentities(cases, limit, only);
      && (forall i, j :: 0 <= i < j < |ids| ==> CausaBefore(ids[i], ids[j]))
      && (forall i :: 0 <= i < |ids| ==> Wanted(cases, only, ids[i]))
      && (limit.Some? ==> |ids| <= (if limit.value < 0 then 0 else limit.value))
      && (limit == None || |ids| < limit.value ==> forall id :: Wanted(cases, only, id) ==> id in ids)
      && (forall i, id :: 0 <= i < |ids| && Wanted(cases, only, id) && id !in ids ==> CausaBefore(ids[i], id))
  {
    hide DuplicateIdentities, Wanted, CausaBefore, IdentityLess;
    var all := WantedInOrder(cases, only);
    var ids := BatchIdentities(cases, limit, only);
    assert ids == all[..|ids|];
    forall i, id | 0 <= i < |ids| && Wanted(cases, only, id) && id !in ids ensures CausaBefore(ids[i], id) {
      var n := |ids|;
      assert all == ids + all[n..];
      var m :| 0 <= m < |all[n..]| && all[n..][m] == id;
      assert all[n + m] == id && all[i] == ids[i];
    }
  }

  lemma WantedInOrder(cases: map<int, Case>, only: Option<set<Identity>>) returns (all: seq<Identity>)
    ensures
      var found := DuplicateIdentities(cases);
      all == SortedIdentities(if only.Some? then found * only.value else found)
    ensures forall i, j :: 0 <= i < j < |all| ==> CausaBefore(all[i], all[j])
    ensures forall id :: Wanted(cases, only, id) <==> id in all
  {
    var found := DuplicateIdentities(cases);
    all := SortedIdentities(if only.Some? then found * only.value else found);
    forall id ensures id in found <==> exists c, d :: c != d && CivilRow(cases, c, id) && CivilRow(cases, d, id) {
      DuplicatedIff(cases, id);
    }
    hide DuplicateIdentities, CivilRow;
    assert forall id :: id in all <==> id in Elements(all);
    forall i, j | 0 <= i < j < |all| ensures CausaBefore(all[i], all[j]) {
      IdentityOrderIs(all[i], all[j]);
    }
  }

  // ----- what a run deletes

  /** Movements, documents and litigantes of the case. */
  ghost function RowCount(k: Kids, c: int): nat {
    |set id | id in k.movements && k.movements[id].caseId == Some(c)|
    + |set id | id in k.documents && k.documents[id].caseId == Some(c)|
    + |set id | id in k.litigantes && k.litigantes[id].caseId == Some(c)|
  }

  /** `d` goes before `c`: it has more rows, or as many and the lower id. */
  ghost predicate Richer(k: Kids, d: int, c: int) {
    RowCount(k, d) > RowCount(k, c) || (RowCount(k, d) == RowCount(k, c) && d < c)
  }

  lemma RicherBeats(k: Kids, d: int, c: int)
    ensures Richer(k, d, c) <==> Beats(k, d, c)
  {}

  /** Another civil row of its causa goes before `c`. */
  ghost predicate Outdone(db: Db, c: int) {
    && c in db.cases && db.cases[c].competencia == Some("civil")
    && exists d :: OutdoneBy(db, c, d)
  }

  ghost predicate OutdoneBy(db: Db, c: int, d: int)
    requires c in db.cases
  {
    && d in db.cases && db.cases[d].competencia == Some("civil") && SameCausa(db.cases[c], db.cases[d])
    && Richer(db.kids, d, c)
  }

  lemma WinnerIs(db: Db, c: int)
    requires c in db.cases && db.cases[c].competencia == Some("civil")
    ensures
      var w := WinnerOf(db, IdentityOf(db.cases[c]));
      && w in db.cases && db.cases[w].competencia == Some("civil") && SameCausa(db.cases[c], db.cases[w])
      && (c == w || OutdoneBy(db, c, w)) && !Outdone(db, w)
      && (c == w <==> !Outdone(db, c))
  {
    var id := IdentityOf(db.cases[c]);
    var g, w := GroupIds(db.cases, id), WinnerOf(db, id);
    assert c in Group(db.cases, id) && c in Elements(g);
    WinnerInGroup(db, id);
    forall d | d in db.cases && db.cases[d].competencia == Some("civil") && SameCausa(db.cases[c], db.cases[d])
      ensures d == w || (Richer(db.kids, w, d) && !Richer(db.kids, d, w))
    {
      IdentityIsCausa(db.cases[c], db.cases[d]);
      assert d in Group(db.cases, id) && d in Elements(g) && d in g;
      RicherBeats(db.kids, w, d);
      RicherBeats(db.kids, d, w);
    }
  }

  lemma OutdoneIsDuplicated(db: Db, c: int)
    requires Outdone(db, c)
    ensures IdentityOf(db.cases[c]) in DuplicateIdentities(db.cases)
  {
    var d :| OutdoneBy(db, c, d);
    var id := IdentityOf(db.cases[c]);
    IdentityIsCausa(db.cases[c], db.cases[d]);
    DuplicatedIff(db.cases, id);
    assert c != d && CivilRow(db.cases, c, id) && CivilRow(db.cases, d, id);
  }

  /** Case `c` is of one of the causas `ids`. */
  predicate Selected(cases: map<int, Case>, ids: seq<Identity>, c: int) {
    && c in cases
    && exists i :: 0 <= i < |ids| && cases[c].rol == ids[i].rol && cases[c].courtId == ids[i].courtId
                   && Cuaderno(cases[c].procedure) == ids[i].procedure
  }

  lemma SelectedIs(cases: map<int, Case>, ids: seq<Identity>, c: int)
    requires c in cases
    ensures Selected(cases, ids, c) <==> IdentityOf(cases[c]) in Elements(ids)
  {
    if IdentityOf(cases[c]) in Elements(ids) {
      var i :| 0 <= i < |ids| && ids[i] == IdentityOf(cases[c]);
    }
  }

  lemma KeptIs(db: Db, ids: seq<Identity>, c: int)
    requires c in db.cases
    ensures !Kept(db, Elements(ids), c) <==> Selected(db.cases, ids, c) && Outdone(db, c)
  {
    SelectedIs(db.cases, ids, c);
    if db.cases[c].competencia == Some("civil") {
      WinnerIs(db, c);
    }
    hide Selected, Outdone, SameCausa, OutdoneBy;
  }

  lemma ScopeIs(db: Db, ids: seq<Identity>, c: int)
    requires DuplicateSelection(db.cases, ids) && c in db.cases && Kept(db, Elements(ids), c)
    ensures c in Scope(db, Elements(ids), true) <==>
      Selected(db.cases, ids, c) && db.cases[c].competencia == Some("civil")
  {
    SelectedIs(db.cases, ids, c);
    if c in Scope(db, Elements(ids), true) {
      var id :| id in Elements(ids) && c == WinnerOf(db, id);
      DuplicateIff(db.cases, id);
      assert Group(db.cases, id) != {};
      WinnerInGroup(db, id);
    }
  }

  /**
   * A run deletes exactly the civil rows of its causas that another civil row
   * of the same rol, court and cuaderno goes before. What is left keeps all its
   * columns but the owner: the firm owns the rows its causas are left with, or
   * every row if the call has no limit and no keys.
   */
  lemma RunCases(db: Db, firm: int, limit: Option<int>, only: Option<set<Identity>>, c: int)
    requires WellFormed(db) && Run(db, firm, limit, only).Ok? && c in db.cases
    ensures
      var ids, after := BatchIdentities(db.cases, limit, only), Run(db, firm, limit, only).value.0.cases;
      && (c !in after <==> Selected(db.cases, ids, c) && Outdone(db, c))
      && (c in after ==>
          after[c] == if (limit == None && only == None)
                         || (Selected(db.cases, ids, c) && db.cases[c].competencia == Some("civil"))
                      then db.cases[c].(lawyerId := firm) else db.cases[c])
      && after.Keys <= db.cases.Keys
  {
    var ids := BatchIdentities(db.cases, limit, only);
    RunOutcome(db, firm, limit, only);
    KeptIs(db, ids, c);
    hide Selected, Outdone, Run, MergeGroups, BatchIdentities;
    if Kept(db, Elements(ids), c) {
      ScopeIs(db, ids, c);
    }
  }

  /** A full run deletes exactly the civil rows that another of their causa goes before, and no two are left. */
  lemma FullCases(db: Db, firm: int)
    requires WellFormed(db) && NonCivilApart(db.cases)
    ensures
      var after := Full(db, firm).cases;
      && after.Keys <= db.cases.Keys
      && (forall c :: c in db.cases ==> (c !in after <==> Outdone(db, c)))
      && (forall c :: c in after ==> after[c] == db.cases[c].(lawyerId := firm))
      && (forall c, d | c in after && d in after && c != d && SameCausa(after[c], after[d]) ::
            after[c].competencia != Some("civil") || after[d].competencia != Some("civil"))
  {
    FullOutcome(db, firm);
    var after, ids := Full(db, firm).cases, BatchIdentities(db.cases, None, None);
    assert Full(db, firm) == Run(db, firm, None, None).value.0;
    hide Outdone, SameCausa, WellFormed, NonCivilApart, Run, Selected, Full, DuplicateIdentities;
    forall c | c in db.cases
      ensures c !in after <==> Outdone(db, c)
      ensures c in after ==> after[c] == db.cases[c].(lawyerId := firm)
    {
      RunCases(db, firm, None, None, c);
      if Outdone(db, c) {
        OutdoneIsDuplicated(db, c);
        SelectedIs(db.cases, ids, c);
      }
    }
    forall c, d | c in after && d in after && c != d && SameCausa(after[c], after[d])
      ensures after[c].competencia != Some("civil") || after[d].competencia != Some("civil")
    {
      OneLeft(db, firm, c, d);
    }
  }

  lemma OneLeft(db: Db, firm: int, c: int, d: int)
    requires c in db.cases && d in db.cases && c != d && !Outdone(db, c) && !Outdone(db, d)
    requires SameCausa(db.cases[c], db.cases[d])
    ensures db.cases[c].competencia != Some("civil") || db.cases[d].competencia != Some("civil")
  {
    if db.cases[c].competencia == Some("civil") && db.cases[d].competencia == Some("civil") {
      IdentityIsCausa(db.cases[c], db.cases[d]);
      WinnerIs(db, c);
      WinnerIs(db, d);
    }
  }

  // ----- when a run succeeds

  /** A full run fails exactly when a non-civil row has a twin of any kind. */
  lemma FullSucceedsOnColumns(db: Db, firm: int)
    requires WellFormed(db)
    ensures Run(db, firm, None, None).Ok? <==>
      forall c, d | c in db.cases && d in db.cases && c != d && SameCausa(db.cases[c], db.cases[d]) ::
        db.cases[c].competencia == Some("civil")
  {
    FullRunSucceedsIff(db, firm);
    hide WellFormed, Run;
    forall c, d | c in db.cases && d in db.cases
      ensures SameCausa(db.cases[c], db.cases[d]) <==> IdentityOf(db.cases[c]) == IdentityOf(db.cases[d])
    {
      IdentityIsCausa(db.cases[c], db.cases[d]);
    }
  }

  /** A batch fails exactly when the firm owns a non-civil row of one of its causas. */
  lemma BatchSucceedsOnColumns(db: Db, firm: int, limit: Option<int>, only: Option<set<Identity>>)
    requires WellFormed(db) && (limit.Some? || only.Some?)
    ensures Run(db, firm, limit, only).Ok? <==>
      forall c | Selected(db.cases, BatchIdentities(db.cases, limit, only), c) ::
        db.cases[c].lawyerId == firm ==> db.cases[c].competencia == Some("civil")
  {
    hide WellFormed, Run, BatchIdentities, FirmTwin;
    var ids := BatchIdentities(db.cases, limit, only);
    BatchSucceedsIff(db, firm, limit, only);
    forall c ensures FirmTwin(db, firm, Elements(ids), c) <==>
      c in db.cases && Selected(db.cases, ids, c) && db.cases[c].lawyerId == firm
      && db.cases[c].competencia != Some("civil")
    {
      TwinIs(db, firm, ids, c);
    }
  }

  lemma TwinIs(db: Db, firm: int, ids: seq<Identity>, c: int)
    ensures FirmTwin(db, firm, Elements(ids), c) <==>
      c in db.cases && Selected(db.cases, ids, c) && db.cases[c].lawyerId == firm
      && db.cases[c].competencia != Some("civil")
  {
    if c in db.cases {
      SelectedIs(db.cases, ids, c);
    }
  }

  // ----- the audit of a run

  /** Audit row `a` says that `c` went into a civil row of its causa that is left, with its owner and rol. */
  predicate Records(db: Db, after: map<int, Case>, c: int, a: Audit) {
    && c in db.cases && a.loser == c && a.loserLawyer == db.cases[c].lawyerId && a.rol == db.cases[c].rol
    && a.winner in after && a.winner in db.cases && db.cases[a.winner].competencia == Some("civil")
    && SameCausa(db.cases[c], db.cases[a.winner])
  }

  /** Every case a run deletes has a new audit row that names the case of its causa that is left. */
  lemma RunRecords(db: Db, firm: int, limit: Option<int>, only: Option<set<Identity>>, c: int) returns (i: nat)
    requires WellFormed(db) && Run(db, firm, limit, only).Ok? && c in db.cases
    requires c !in Run(db, firm, limit, only).value.0.cases
    ensures
      var after := Run(db, firm, limit, only).value.0;
      |db.audit| <= i < |after.audit| && Records(db, after.cases, c, after.audit[i])
  {
    var ids := BatchIdentities(db.cases, limit, only);
    RunOutcome(db, firm, limit, only);
    var after := Run(db, firm, limit, only).value.0;
    KeptIs(db, ids, c);
    hide Run, MergeGroups, BatchIdentities, WellFormed, UniqueCases;
    i := SelectionRecords(db, ids, c);
    WinnerIs(db, c);
    KeptIs(db, ids, WinnerOf(db, IdentityOf(db.cases[c])));
  }

  lemma SelectionRecords(db: Db, ids: seq<Identity>, c: int) returns (i: nat)
    requires DuplicateSelection(db.cases, ids) && ValidGroups(db.cases, GroupsOf(db.cases, ids))
    requires c in db.cases && !Kept(db, Elements(ids), c)
    ensures
      var rows := MergeGroups(db, GroupsOf(db.cases, ids)).audit;
      && |db.audit| <= i < |rows|
      && rows[i] == Audit(c, WinnerOf(db, IdentityOf(db.cases[c])), db.cases[c].lawyerId, db.cases[c].rol)
  {
    var gs := GroupsOf(db.cases, ids);
    LoserIff(db, ids, c);
    var j :| 0 <= j < |gs| && c in Losers(db.kids, gs[j]);
    LoserGroup(db, ids, j, c);
    HeirIs(db.kids, gs, j, c);
    hide MergeGroups, Losers, Winner, WinnerOf, Heir, GroupsOf, AllLosers, Kept, ValidGroups;
    OldRowFollows(db, gs, 0);
    var a := LoserIsAdded(db, gs, c);
    i := IndexInTail(MergeGroups(db, gs).audit, |db.audit|, a);
  }

  lemma LoserGroup(db: Db, ids: seq<Identity>, j: nat, c: int)
    requires j < |ids| && GroupsOf(db.cases, ids)[j] != [] && c in Losers(db.kids, GroupsOf(db.cases, ids)[j])
    ensures c in db.cases && Winner(db.kids, GroupsOf(db.cases, ids)[j]) == WinnerOf(db, IdentityOf(db.cases[c]))
  {
    var g := GroupsOf(db.cases, ids)[j];
    assert g == GroupIds(db.cases, ids[j]) && c in Elements(Losers(db.kids, g)) && c in Elements(g);
    assert c in Group(db.cases, ids[j]);
  }

  // ----- the downgrade

  /** Case `x` is what the downgrade makes of audit row `a`, whose winner is `w`. */
  predicate IsSkeleton(x: Case, a: Audit, w: Case) {
    && x.lawyerId == a.loserLawyer && x.rol == a.rol && x.courtId == w.courtId && x.procedure == w.procedure
    && x.competencia == w.competencia
  }

  /** The lawyer of audit row `a` has a case of that rol in the court and cuaderno of its winner. */
  ghost predicate HasBack(cases: map<int, Case>, a: Audit, w: Case) {
    exists c :: c in cases && cases[c].lawyerId == a.loserLawyer && cases[c].rol == a.rol
                && cases[c].courtId == w.courtId && Cuaderno(cases[c].procedure) == Cuaderno(w.procedure)
  }

  lemma HasBackIs(cases: map<int, Case>, a: Audit, w: Case)
    ensures HasBack(cases, a, w) <==> Recreated(cases, a, w)
  {}

  /** New case `x` is a skeleton of audit row `i`, of which there was no case. */
  ghost predicate AddedFor(cases: map<int, Case>, audit: seq<Audit>, x: Case, i: nat) {
    && i < |audit| && audit[i].winner in cases && !HasBack(cases, audit[i], cases[audit[i].winner])
    && IsSkeleton(x, audit[i], cases[audit[i].winner])
  }

  /** The downgrade adds only skeletons of audit rows whose winner is live, where there was no such case. */
  lemma {:induction false} ReverseAdds(cases: map<int, Case>, audit: seq<Audit>, next: int, c: int) returns (i: nat)
    requires IdsBelow(cases, audit, next) && c in Reverse(cases, audit, next).0 && c !in cases
    ensures AddedFor(cases, audit, Reverse(cases, audit, next).0[c], i)
    decreases |audit|
  {
    var a := audit[0];
    if a.winner in cases && !Recreated(cases, a, cases[a.winner]) {
      var w := cases[a.winner];
      var more := cases[next := Skeleton(a, w)];
      if c in more {
        ReverseExtends(more, audit[1..], next + 1);
        HasBackIs(cases, a, w);
        i := 0;
      } else {
        i := ReverseAdds(more, audit[1..], next + 1, c);
        AddedForMore(cases, more, audit[1..], Reverse(cases, audit, next).0[c], i, next);
        assert audit[1..][i] == audit[i + 1];
        i := i + 1;
      }
    } else {
      i := ReverseAdds(cases, audit[1..], next, c);
      i := i + 1;
    }
  }

  lemma AddedForMore(cases: map<int, Case>, more: map<int, Case>, audit: seq<Audit>, x: Case, i: nat, next: int)
    requires AddedFor(more, audit, x, i) && audit[i].winner < next
    requires forall c :: c in cases ==> c in more && more[c] == cases[c]
    requires forall c :: c in more && c < next ==> c in cases
    ensures AddedFor(cases, audit, x, i)
  {
    var a := audit[i];
    HasBackStays(cases, more, a, cases[a.winner]);
  }

  lemma HasBackStays(cases: map<int, Case>, more: map<int, Case>, a: Audit, w: Case)
    requires forall c :: c in cases ==> c in more && more[c] == cases[c]
    ensures HasBack(cases, a, w) ==> HasBack(more, a, w)
  {}

  /** Afterwards every audit row with a live winner has its case back. */
  lemma ReverseGivesBack(cases: map<int, Case>, audit: seq<Audit>, next: int, i: nat)
    requires IdsBelow(cases, audit, next) && i < |audit| && audit[i].winner in cases
    ensures HasBack(Reverse(cases, audit, next).0, audit[i], cases[audit[i].winner])
  {
    ReverseRecreates(cases, audit, next, i);
    HasBackIs(Reverse(cases, audit, next).0, audit[i], cases[audit[i].winner]);
  }
}
