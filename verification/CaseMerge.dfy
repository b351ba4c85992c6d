/**
 * The duplicate-case merge as a function of the database: grouping by
 * identity, choice of the winner, merge of every group, verification, deletion
 * of the losers and re-owning of the survivors.
 */
module CaseMerge {
  import opened Options
  import opened Ordering
  import opened ChildTable
  import opened CaseTables

  /** `sources` holds the (case, lawyer) pairs of case_lawyer_source. */
  datatype Db = Db(cases: map<int, Case>, kids: Kids, sources: set<(int, int)>, audit: seq<Audit>)

  // ----- identities and groups

  /** What identifies a causa; a NULL procedure is the same cuaderno as ''. */
  datatype Identity = Identity(rol: string, courtId: int, procedure: string)

  function IdentityOf(c: Case): Identity {
    Identity(c.rol, c.courtId, if c.procedure.Some? then c.procedure.value else "")
  }

  predicate Civil(c: Case) { c.competencia == Some("civil") }

  /** Order of the batches: court, rol, procedure. */
  predicate IdentityLess(a: Identity, b: Identity) {
    if a.courtId != b.courtId then a.courtId < b.courtId
    else if a.rol != b.rol then StrLess(a.rol, b.rol)
    else StrLess(a.procedure, b.procedure)
  }

  lemma IdentityOrder()
    ensures StrictOrder(IdentityLess)
  {
    forall a, b ensures !(IdentityLess(a, b) && IdentityLess(b, a)) {
      StrLessAsymmetric(a.rol, b.rol);
      StrLessAsymmetric(a.procedure, b.procedure);
    }
    forall a, b, c | IdentityLess(a, b) && IdentityLess(b, c) ensures IdentityLess(a, c) {
      IdentityLessTransitive(a, b, c);
    }
    forall a, b ensures a == b || IdentityLess(a, b) || IdentityLess(b, a) {
      StrLessTotal(a.rol, b.rol);
      StrLessTotal(a.procedure, b.procedure);
    }
  }

  lemma IdentityLessTransitive(a: Identity, b: Identity, c: Identity)
    requires IdentityLess(a, b) && IdentityLess(b, c)
    ensures IdentityLess(a, c)
  {
    if a.courtId == b.courtId == c.courtId {
      if a.rol != b.rol && b.rol != c.rol {
        StrLessAsymmetric(a.rol, b.rol);
        StrLessTransitive(a.rol, b.rol, c.rol);
      }
      if a.rol == b.rol == c.rol {
        StrLessTransitive(a.procedure, b.procedure, c.procedure);
      }
    }
  }

  function Group(cases: map<int, Case>, identity: Identity): set<int> {
    set c | c in cases && Civil(cases[c]) && IdentityOf(cases[c]) == identity
  }

  function DuplicateIdentities(cases: map<int, Case>): set<Identity> {
    set c | c in cases && Civil(cases[c]) && |Group(cases, IdentityOf(cases[c]))| > 1 :: IdentityOf(cases[c])
  }

  function SortedIdentities(ids: set<Identity>): (r: seq<Identity>)
    ensures Ascending(r, IdentityLess) && Elements(r) == ids && |r| == |ids|
  {
    IdentityOrder();
    SortedEnumerates(ids, IdentityLess);
    Sorted(ids, IdentityLess)
  }

  /** The cases of one identity, in id order. */
  function GroupIds(cases: map<int, Case>, identity: Identity): (g: seq<int>)
    ensures Ascending(g, IntLess) && Elements(g) == Group(cases, identity) && |g| == |Group(cases, identity)|
  {
    SortedEnumerates(Group(cases, identity), IntLess);
    Sorted(Group(cases, identity), IntLess)
  }

  function GroupsOf(cases: map<int, Case>, ids: seq<Identity>): (gs: seq<seq<int>>)
    ensures |gs| == |ids|
  {
    seq(|ids|, i requires 0 <= i < |ids| => GroupIds(cases, ids[i]))
  }

  /** The duplicate identities of one run: restricted to `only`, then cut to the first `limit`. */
  function BatchIdentities(cases: map<int, Case>, limit: Option<int>, only: Option<set<Identity>>): seq<Identity> {
    var found := DuplicateIdentities(cases);
    var ids := SortedIdentities(if only.Some? then found * only.value else found);
    if limit == None || limit.value >= |ids| then ids
    else if limit.value < 0 then []
    else ids[..limit.value]
  }

  // ----- the winner

  function Richness(k: Kids, c: int): nat {
    |Ids(k.movements, c)| + |Ids(k.documents, c)| + |Ids(k.litigantes, c)|
  }

  /** `a` is preferred to `b`: richer, or as rich with a lower id. */
  predicate Beats(k: Kids, a: int, b: int) {
    Richness(k, a) > Richness(k, b) || (Richness(k, a) == Richness(k, b) && a < b)
  }

  function Winner(k: Kids, g: seq<int>): (w: int)
    requires g != []
    ensures w in g
    ensures forall c :: c in g ==> c == w || Beats(k, w, c)
  {
    if |g| == 1 then g[0] else
      var rest := Winner(k, g[1..]);
      assert g == [g[0]] + g[1..];
      if Beats(k, rest, g[0]) then rest else g[0]
  }

  function Losers(k: Kids, g: seq<int>): (ls: seq<int>)
    requires g != []
    ensures Elements(ls) == Elements(g) - {Winner(k, g)}
  {
    Without(g, Winner(k, g))
  }

  function Without(g: seq<int>, w: int): (r: seq<int>)
    ensures Elements(r) == Elements(g) - {w}
    ensures Ascending(g, IntLess) ==> Ascending(r, IntLess)
  {
    if g == [] then []
    else
      var rest := Without(g[1..], w);
      WithoutElements(g, w, rest);
      WithoutAscending(g, w, rest);
      if g[0] == w then rest else [g[0]] + rest
  }

  lemma WithoutElements(g: seq<int>, w: int, rest: seq<int>)
    requires g != [] && Elements(rest) == Elements(g[1..]) - {w}
    ensures Elements(if g[0] == w then rest else [g[0]] + rest) == Elements(g) - {w}
  {
    ElementsCons(g[0], g[1..]);
    ElementsCons(g[0], rest);
    assert g == [g[0]] + g[1..];
  }

  lemma WithoutAscending(g: seq<int>, w: int, rest: seq<int>)
    requires g != [] && Elements(rest) <= Elements(g[1..]) && (Ascending(g[1..], IntLess) ==> Ascending(rest, IntLess))
    ensures Ascending(g, IntLess) ==> Ascending(if g[0] == w then rest else [g[0]] + rest, IntLess)
  {
    forall x | Ascending(g, IntLess) && x in rest ensures IntLess(g[0], x) {
      assert x in Elements(rest) && x in Elements(g[1..]);
    }
  }

  // ----- the merge of one group

  function MergeSources(s: set<(int, int)>, loser: int, winner: int): set<(int, int)> {
    set p | p in s :: (if p.0 == loser then winner else p.0, p.1)
  }

  /** Older audit rows that named the loser as their winner follow it. */
  function RepointAudit(a: seq<Audit>, loser: int, winner: int): seq<Audit> {
    seq(|a|, i requires 0 <= i < |a| => if a[i].winner == loser then a[i].(winner := winner) else a[i])
  }

  ghost function MergePair(db: Db, loser: int, winner: int): Db
    requires loser != winner
  {
    db.(kids := MergeKids(db.kids, loser, winner),
        sources := MergeSources(db.sources, loser, winner),
        audit := RepointAudit(db.audit, loser, winner))
  }

  ghost function MergeLosers(db: Db, losers: seq<int>, winner: int): Db
    requires winner !in losers
    decreases |losers|
  {
    if losers == [] then db else MergeLosers(MergePair(db, losers[0], winner), losers[1..], winner)
  }

  function SourceOf(cases: map<int, Case>, g: seq<int>, winner: int, i: int): (int, int)
    requires Elements(g) <= cases.Keys && 0 <= i < |g|
  {
    assert g[i] in Elements(g);
    (winner, cases[g[i]].lawyerId)
  }

  /** Every lawyer of the group becomes a source of the winner. */
  function BackfillSources(db: Db, g: seq<int>, winner: int): set<(int, int)>
    requires Elements(g) <= db.cases.Keys
  {
    db.sources + set i | 0 <= i < |g| :: SourceOf(db.cases, g, winner, i)
  }

  function AuditRows(cases: map<int, Case>, losers: seq<int>, winner: int): seq<Audit>
    requires Elements(losers) <= cases.Keys
  {
    seq(|losers|, i requires 0 <= i < |losers| =>
      assert losers[i] in Elements(losers);
      Audit(losers[i], winner, cases[losers[i]].lawyerId, cases[losers[i]].rol))
  }

  ghost predicate ValidGroup(cases: map<int, Case>, g: seq<int>) {
    g != [] && Elements(g) <= cases.Keys
  }

  ghost function Prepared(db: Db, g: seq<int>): Db
    requires ValidGroup(db.cases, g)
  {
    var w := Winner(db.kids, g);
    db.(sources := BackfillSources(db, g, w), audit := db.audit + AuditRows(db.cases, Losers(db.kids, g), w))
  }

  ghost function MergeGroup(db: Db, g: seq<int>): Db
    requires ValidGroup(db.cases, g)
  {
    assert Winner(db.kids, g) !in Elements(Losers(db.kids, g));
    MergeLosers(Prepared(db, g), Losers(db.kids, g), Winner(db.kids, g))
  }

  ghost predicate ValidGroups(cases: map<int, Case>, gs: seq<seq<int>>) {
    && (forall i :: 0 <= i < |gs| ==> ValidGroup(cases, gs[i]))
    && (forall i, j :: 0 <= i < j < |gs| ==> Elements(gs[i]) !! Elements(gs[j]))
  }

  lemma MergeLosersCases(db: Db, losers: seq<int>, winner: int)
    requires winner !in losers
    ensures MergeLosers(db, losers, winner).cases == db.cases
    decreases |losers|
  {
    if losers != [] {
      MergeLosersCases(MergePair(db, losers[0], winner), losers[1..], winner);
    }
  }

  ghost function MergeGroups(db: Db, gs: seq<seq<int>>): (r: Db)
    requires ValidGroups(db.cases, gs)
    ensures r.cases == db.cases
    decreases |gs|
  {
    if gs == [] then db else
      MergeLosersCases(Prepared(db, gs[0]), Losers(db.kids, gs[0]), Winner(db.kids, gs[0]));
      assert ValidGroups(db.cases, gs[1..]);
      MergeGroups(MergeGroup(db, gs[0]), gs[1..])
  }

  // ----- delete, re-own and the whole run

  function AllLosers(k: Kids, gs: seq<seq<int>>): set<int>
    requires forall i :: 0 <= i < |gs| ==> gs[i] != []
  {
    set i, c | 0 <= i < |gs| && c in Losers(k, gs[i]) :: c
  }

  function AllWinners(k: Kids, gs: seq<seq<int>>): set<int>
    requires forall i :: 0 <= i < |gs| ==> gs[i] != []
  {
    set i | 0 <= i < |gs| :: Winner(k, gs[i])
  }

  /** `lawyer_id` of the cases in `ids` set to the firm. No filter on competencia. */
  function Reown(cases: map<int, Case>, ids: set<int>, firm: int): map<int, Case> {
    map c | c in cases :: if c in ids then cases[c].(lawyerId := firm) else cases[c]
  }

  predicate Twins(cases: map<int, Case>, i: int, j: int)
    requires i in cases && j in cases
  {
    cases[i].lawyerId == cases[j].lawyerId && IdentityOf(cases[i]) == IdentityOf(cases[j])
  }

  /** `uq_cases_identity`: one row per lawyer and identity, whatever its competencia. */
  predicate UniqueCases(cases: map<int, Case>) {
    forall i, j :: i in cases && j in cases && Twins(cases, i, j) ==> i == j
  }

  /** `x or [0]`: the id list the queries fall back to. */
  function OrZero(ids: set<int>): set<int> { if ids == {} then {0} else ids }

  /**
   * The verification gate: no child, source or audit row names a loser, and no
   * identity in scope is still duplicated among the survivors.
   */
  ghost predicate GateOk(db: Db, losers: set<int>, scope: Option<set<Identity>>) {
    && KidsFree(db.kids, losers)
    && (forall p :: p in db.sources ==> p.0 !in losers)
    && (forall i :: 0 <= i < |db.audit| ==> db.audit[i].winner !in OrZero(losers))
    && (forall id :: id in DuplicateIdentities(db.cases - OrZero(losers)) ==> scope.Some? && id !in scope.value)
  }

  datatype MergeError = VerificationFailed | UniqueViolation

  datatype Summary = Summary(merged: nat, losersDeleted: nat, auditRows: nat, reowned: nat, remaining: nat,
                             keys: seq<Identity>)

  /** Cases a run re-owns: every case, or the winners of the batch. */
  function ReownScope(cases: map<int, Case>, winners: set<int>, batched: bool): set<int> {
    (if batched then winners else cases.Keys) - {0}
  }

  function ReownedIds(cases: map<int, Case>, ids: set<int>, firm: int): set<int> {
    set c | c in cases && c in ids && cases[c].lawyerId != firm
  }

  /** After the groups are merged: verify, delete the losers, re-own. */
  ghost function Conclude(m: Db, firm: int, ids: seq<Identity>, losers: set<int>, winners: set<int>,
                          batched: bool): Result<(Db, Summary), MergeError> {
    if !GateOk(m, losers, if batched then Some(Elements(ids)) else None) then Err(VerificationFailed) else
      var left := m.cases - losers;
      var scope := ReownScope(left, winners, batched);
      var cases := Reown(left, scope, firm);
      if !UniqueCases(cases) then Err(UniqueViolation) else
        Ok((m.(cases := cases),
            Summary(|ids|, |losers|, |losers|, |ReownedIds(left, scope, firm)|, |DuplicateIdentities(cases)|, ids)))
  }

  /** One transaction: merge the selected groups and conclude. */
  ghost function Run(db: Db, firm: int, limit: Option<int>, only: Option<set<Identity>>)
    : Result<(Db, Summary), MergeError>
  {
    var ids := BatchIdentities(db.cases, limit, only);
    BatchIsSelection(db.cases, limit, only);
    GroupsAreValid(db.cases, ids);
    var gs := GroupsOf(db.cases, ids);
    Conclude(MergeGroups(db, gs), firm, ids, AllLosers(db.kids, gs), AllWinners(db.kids, gs), limit.Some? || only.Some?)
  }

  // ----- the selected groups are valid

  ghost predicate DuplicateSelection(cases: map<int, Case>, ids: seq<Identity>) {
    Ascending(ids, IdentityLess) && Elements(ids) <= DuplicateIdentities(cases)
  }

  lemma BatchIsSelection(cases: map<int, Case>, limit: Option<int>, only: Option<set<Identity>>)
    ensures DuplicateSelection(cases, BatchIdentities(cases, limit, only))
  {}

  lemma GroupsAreValid(cases: map<int, Case>, ids: seq<Identity>)
    requires DuplicateSelection(cases, ids)
    ensures ValidGroups(cases, GroupsOf(cases, ids))
  {
    var gs := GroupsOf(cases, ids);
    forall i | 0 <= i < |gs| ensures ValidGroup(cases, gs[i]) {
      assert ids[i] in Elements(ids);
    }
    forall i, j | 0 <= i < j < |gs| ensures Elements(gs[i]) !! Elements(gs[j]) {
      IdentityOrder();
      assert IdentityLess(ids[i], ids[j]);
    }
  }
}
