/**
 * Automatic assignment of the unassigned cases: the least loaded lawyer of a
 * required level takes each case.
 */
module Asignacion {
  import opened Options
  import opened Ordering

  datatype Lawyer = Lawyer(id: int, nivel: string)

  datatype Case = Case(lawyerId: int, matriz: Option<string>, origen: Option<string>, archived: bool,
                       assignedTo: Option<int>, motivo: Option<string>)

  datatype Motive = YaAsignada | SinRegla | Provisoria | SinAbogado

  const MOTIVO_AUTOMATICO := "asignación automática por nivel"
  const ORIGEN_PROVISORIO := "sin_detalle"

  /** Levels that may work each matriz, in order of preference; none for a matriz without a rule. */
  function NivelesRequeridos(matriz: Option<string>): seq<string> {
    if matriz == Some("M1 Baja") then ["junior"]
    else if matriz == Some("M1 Alta") then ["pleno", "senior"]
    else if matriz == Some("M2") then ["pleno", "senior"]
    else if matriz == Some("M3") then ["senior"]
    else []
  }

  function OfNivel(lawyers: seq<Lawyer>, nivel: string): seq<int> {
    if lawyers == [] then []
    else (if lawyers[0].nivel == nivel then [lawyers[0].id] else []) + OfNivel(lawyers[1..], nivel)
  }

  function OfNiveles(lawyers: seq<Lawyer>, niveles: seq<string>): seq<int> {
    if niveles == [] then [] else OfNivel(lawyers, niveles[0]) + OfNiveles(lawyers, niveles[1..])
  }

  /** The lawyers who may take a case. */
  function Candidates(lawyers: seq<Lawyer>, c: Case): seq<int> {
    OfNiveles(lawyers, NivelesRequeridos(c.matriz))
  }

  lemma {:induction false} OfNivelIff(lawyers: seq<Lawyer>, nivel: string, id: int)
    ensures id in OfNivel(lawyers, nivel) <==> Lawyer(id, nivel) in lawyers
  {
    if lawyers != [] {
      OfNivelIff(lawyers[1..], nivel, id);
      assert lawyers == [lawyers[0]] + lawyers[1..];
    }
  }

  lemma {:induction false} OfNivelesIff(lawyers: seq<Lawyer>, niveles: seq<string>, id: int)
    ensures id in OfNiveles(lawyers, niveles) <==> exists nivel :: nivel in niveles && Lawyer(id, nivel) in lawyers
  {
    if niveles != [] {
      OfNivelIff(lawyers, niveles[0], id);
      OfNivelesIff(lawyers, niveles[1..], id);
      assert niveles == [niveles[0]] + niveles[1..];
    }
  }

  /** A lawyer may take a case exactly when one of his levels is required by its matriz. */
  lemma CandidatesIff(lawyers: seq<Lawyer>, c: Case, id: int)
    ensures id in Candidates(lawyers, c) <==>
            exists nivel :: nivel in NivelesRequeridos(c.matriz) && Lawyer(id, nivel) in lawyers
  {
    OfNivelesIff(lawyers, NivelesRequeridos(c.matriz), id);
  }

  // ----- loads

  function Load(carga: map<int, nat>, x: int): nat {
    if x in carga then carga[x] else 0
  }

  /** `a` is chosen before `b`: less loaded, or as loaded with a lower id. */
  predicate Before(carga: map<int, nat>, a: int, b: int) {
    Load(carga, a) < Load(carga, b) || (Load(carga, a) == Load(carga, b) && a < b)
  }

  function LeastLoaded(carga: map<int, nat>, xs: seq<int>): (x: int)
    requires xs != []
    ensures x in xs && forall y :: y in xs ==> y == x || Before(carga, x, y)
  {
    if |xs| == 1 then xs[0] else
      var rest := LeastLoaded(carga, xs[1..]);
      assert xs == [xs[0]] + xs[1..];
      if Before(carga, rest, xs[0]) then rest else xs[0]
  }

  // ----- the plan

  datatype Setup = Setup(lawyers: seq<Lawyer>, provisional: bool, limit: Option<int>, carga: map<int, nat>,
                         yaAsignadas: nat)

  /** A case waiting for a lawyer. */
  datatype Pending = Pending(id: int, data: Case)

  datatype Assignment = Assignment(pending: Pending, lawyer: int)

  datatype Plan = Plan(detalle: seq<Assignment>, omitted: multiset<Motive>, carga: map<int, nat>)

  /** Why a visited case is skipped, if it is. */
  function Skipped(s: Setup, c: Case): Option<Motive> {
    if NivelesRequeridos(c.matriz) == [] then Some(SinRegla)
    else if !s.provisional && c.origen == Some(ORIGEN_PROVISORIO) then Some(Provisoria)
    else if Candidates(s.lawyers, c) == [] then Some(SinAbogado)
    else None
  }

  /** The limit is reached: the loop breaks. */
  predicate Stopped(s: Setup, p: Plan) { s.limit.Some? && |p.detalle| >= s.limit.value }

  /** One turn of the loop. */
  function Visit(s: Setup, p: Plan, x: Pending): Plan {
    if Stopped(s, p) then p
    else if Skipped(s, x.data).Some? then p.(omitted := p.omitted + multiset{Skipped(s, x.data).value})
    else
      var lawyer := LeastLoaded(p.carga, Candidates(s.lawyers, x.data));
      p.(detalle := p.detalle + [Assignment(x, lawyer)], carga := p.carga[lawyer := Load(p.carga, lawyer) + 1])
  }

  /** The plan before the first visit: it already counts the cases that have a lawyer. */
  function Opening(s: Setup): Plan {
    Plan([], multiset{}[YaAsignada := s.yaAsignadas], s.carga)
  }

  /** The plan after the first `n` visits. */
  function PlanAt(s: Setup, queue: seq<Pending>, n: nat): Plan
    requires n <= |queue|
  {
    if n == 0 then Opening(s) else Visit(s, PlanAt(s, queue, n - 1), queue[n - 1])
  }

  function PlanFor(s: Setup, queue: seq<Pending>): Plan {
    PlanAt(s, queue, |queue|)
  }

  // ----- conservation

  /**
   * What one visit does: nothing once the limit is reached, and otherwise it
   * either counts one omission or gives the case to one lawyer, whose load
   * alone grows by one.
   */
  lemma VisitStep(s: Setup, p: Plan, x: Pending, y: int)
    ensures
      var q := Visit(s, p, x);
      || (q == p && Stopped(s, p))
      || (q.detalle == p.detalle && q.carga == p.carga && |q.omitted| == |p.omitted| + 1)
      || (&& |q.detalle| == |p.detalle| + 1 && q.detalle[..|p.detalle|] == p.detalle && q.omitted == p.omitted
          && (s.limit.Some? ==> |q.detalle| <= s.limit.value)
          && q.detalle[|p.detalle|].pending == x && q.detalle[|p.detalle|].lawyer in Candidates(s.lawyers, x.data)
          && Load(q.carga, y) == Load(p.carga, y) + (if q.detalle[|p.detalle|].lawyer == y then 1 else 0))
  {}

  /** How many of the first `n` cases are looked at before the loop breaks. */
  function Seen(s: Setup, queue: seq<Pending>, n: nat): nat
    requires n <= |queue|
  {
    if n == 0 then 0 else if Stopped(s, PlanAt(s, queue, n - 1)) then Seen(s, queue, n - 1) else n
  }

  lemma PlanNext(s: Setup, queue: seq<Pending>, n: nat)
    requires 0 < n <= |queue|
    ensures PlanAt(s, queue, n) == Visit(s, PlanAt(s, queue, n - 1), queue[n - 1])
    ensures Seen(s, queue, n) == if Stopped(s, PlanAt(s, queue, n - 1)) then Seen(s, queue, n - 1) else n
  {}

  /** All cases are seen unless the limit is reached, and then none after that. */
  lemma {:induction false} SeenIs(s: Setup, queue: seq<Pending>, n: nat)
    requires n <= |queue|
    ensures
      var m := Seen(s, queue, n);
      && m <= n && PlanAt(s, queue, m) == PlanAt(s, queue, n) && (m < n ==> Stopped(s, PlanAt(s, queue, n)))
      && forall i :: 0 <= i < m ==> !Stopped(s, PlanAt(s, queue, i))
  {
    hide Visit, Opening;
    if n > 0 {
      SeenIs(s, queue, n - 1);
      if Stopped(s, PlanAt(s, queue, n - 1)) {
        BreakKeepsPlan(s, queue, n);
      }
    }
  }

  lemma BreakKeepsPlan(s: Setup, queue: seq<Pending>, n: nat)
    requires 0 < n <= |queue| && Stopped(s, PlanAt(s, queue, n - 1))
    ensures PlanAt(s, queue, n) == PlanAt(s, queue, n - 1)
  {}

  /**
   * Each case seen is assigned or counted in exactly one omission reason, and
   * the limit is respected; whatever the limit, the cases seen are those before
   * the break.
   */
  lemma {:induction false} EveryCaseAccounted(s: Setup, queue: seq<Pending>, n: nat)
    requires n <= |queue|
    ensures
      var p, m := PlanAt(s, queue, n), Seen(s, queue, n);
      && m <= n && PlanAt(s, queue, m) == p && (m < n ==> Stopped(s, p))
      && (forall i :: 0 <= i < m ==> !Stopped(s, PlanAt(s, queue, i)))
      && |p.detalle| + |p.omitted| == m + s.yaAsignadas
      && (s.limit.Some? ==> |p.detalle| <= (if s.limit.value > 0 then s.limit.value else 0))
  {
    hide Visit, PlanAt, Seen, Stopped;
    SeenIs(s, queue, n);
    if n == 0 {
      PlanFirst(s, queue);
    } else {
      EveryCaseAccounted(s, queue, n - 1);
      CountedNext(s, queue, n);
    }
  }

  lemma CountedNext(s: Setup, queue: seq<Pending>, n: nat)
    requires 0 < n <= |queue|
    ensures
      var p, q := PlanAt(s, queue, n - 1), PlanAt(s, queue, n);
      && |q.detalle| + |q.omitted| - Seen(s, queue, n) == |p.detalle| + |p.omitted| - Seen(s, queue, n - 1)
      && (s.limit.Some? && |q.detalle| > |p.detalle| ==> |q.detalle| <= s.limit.value)
  {
    hide Visit, PlanAt, Seen, Stopped;
    SeenAtMost(s, queue, n - 1);
    PlanNext(s, queue, n);
    VisitCounts(s, PlanAt(s, queue, n - 1), queue[n - 1]);
  }

  lemma VisitCounts(s: Setup, p: Plan, x: Pending)
    ensures
      var q := Visit(s, p, x);
      && |q.detalle| + |q.omitted| == |p.detalle| + |p.omitted| + (if Stopped(s, p) then 0 else 1)
      && (s.limit.Some? && |q.detalle| > |p.detalle| ==> |q.detalle| <= s.limit.value)
  {
    VisitStep(s, p, x, 0);
  }

  /** The visited cases skipped for motive `m`. */
  ghost function SkippedFor(s: Setup, queue: seq<Pending>, n: nat, m: Motive): set<nat>
    requires n <= |queue|
  {
    set i | 0 <= i < n && Skipped(s, queue[i].data) == Some(m)
  }

  lemma OmittedStep(s: Setup, p: Plan, x: Pending, m: Motive)
    requires !Stopped(s, p)
    ensures Visit(s, p, x).omitted[m] == p.omitted[m] + (if Skipped(s, x.data) == Some(m) then 1 else 0)
  {}

  lemma SkippedStep(s: Setup, queue: seq<Pending>, n: nat, m: Motive)
    requires n < |queue|
    ensures |SkippedFor(s, queue, n + 1, m)| ==
      |SkippedFor(s, queue, n, m)| + (if Skipped(s, queue[n].data) == Some(m) then 1 else 0)
  {
    hide Skipped;
    var before, now := SkippedFor(s, queue, n, m), SkippedFor(s, queue, n + 1, m);
    if Skipped(s, queue[n].data) == Some(m) {
      assert now == before + {n};
    } else {
      assert now == before;
    }
  }

  /** What the counter of motive `m` should say after the first `n` cases. */
  ghost function CountFor(s: Setup, queue: seq<Pending>, n: nat, m: Motive): nat
    requires n <= |queue|
  {
    if m == YaAsignada then s.yaAsignadas else |SkippedFor(s, queue, n, m)|
  }

  lemma CountNone(s: Setup, queue: seq<Pending>, m: Motive)
    ensures CountFor(s, queue, 0, m) == Opening(s).omitted[m]
  {
    assert SkippedFor(s, queue, 0, m) == {};
  }

  lemma CountStep(s: Setup, queue: seq<Pending>, n: nat, m: Motive)
    requires n < |queue|
    ensures CountFor(s, queue, n + 1, m) ==
      CountFor(s, queue, n, m) + (if Skipped(s, queue[n].data) == Some(m) then 1 else 0)
  {
    NeverYaAsignada(s, queue[n].data);
    hide Skipped;
    SkippedStep(s, queue, n, m);
  }

  lemma NeverYaAsignada(s: Setup, c: Case)
    ensures Skipped(s, c) != Some(YaAsignada)
  {}

  /** Each counter is the number of the cases seen that are skipped for its motive. */
  lemma {:induction false} CountersAreExact(s: Setup, queue: seq<Pending>, n: nat, m: Motive)
    requires n <= |queue|
    ensures Seen(s, queue, n) <= n && PlanAt(s, queue, n).omitted[m] == CountFor(s, queue, Seen(s, queue, n), m)
  {
    hide Visit, PlanAt, Seen, CountFor, Skipped, Stopped;
    SeenAtMost(s, queue, n);
    if n == 0 {
      CountNone(s, queue, m);
      PlanFirst(s, queue);
    } else {
      CountersAreExact(s, queue, n - 1, m);
      CounterNext(s, queue, n, m);
    }
  }

  lemma SeenAtMost(s: Setup, queue: seq<Pending>, n: nat)
    requires n <= |queue|
    ensures Seen(s, queue, n) <= n && (Seen(s, queue, n) < n ==> Stopped(s, PlanAt(s, queue, n)))
  {
    SeenIs(s, queue, n);
  }

  lemma PlanFirst(s: Setup, queue: seq<Pending>)
    ensures PlanAt(s, queue, 0) == Opening(s) && Seen(s, queue, 0) == 0
  {}

  lemma CounterNext(s: Setup, queue: seq<Pending>, n: nat, m: Motive)
    requires 0 < n <= |queue| && Seen(s, queue, n - 1) <= n - 1 && Seen(s, queue, n) <= n
    requires PlanAt(s, queue, n - 1).omitted[m] == CountFor(s, queue, Seen(s, queue, n - 1), m)
    ensures PlanAt(s, queue, n).omitted[m] == CountFor(s, queue, Seen(s, queue, n), m)
  {
    hide Visit, PlanAt, Seen, CountFor, Skipped, Stopped;
    SeenAtMost(s, queue, n - 1);
    PlanNext(s, queue, n);
    if Stopped(s, PlanAt(s, queue, n - 1)) {
      BreakKeepsPlan(s, queue, n);
    } else {
      OmittedStep(s, PlanAt(s, queue, n - 1), queue[n - 1], m);
      CountStep(s, queue, n - 1, m);
    }
  }

  ghost function TimesGiven(detalle: seq<Assignment>, x: int): nat {
    if detalle == [] then 0
    else TimesGiven(detalle[..|detalle| - 1], x) + (if detalle[|detalle| - 1].lawyer == x then 1 else 0)
  }

  /** Every lawyer ends with the initial load plus what the plan gives him. */
  lemma {:induction false} LoadsAddUp(s: Setup, queue: seq<Pending>, n: nat, x: int)
    requires n <= |queue|
    ensures Load(PlanAt(s, queue, n).carga, x) == Load(s.carga, x) + TimesGiven(PlanAt(s, queue, n).detalle, x)
  {
    if n > 0 {
      LoadsAddUp(s, queue, n - 1, x);
      GivenStep(s, PlanAt(s, queue, n - 1), queue[n - 1], x);
    }
  }

  lemma GivenStep(s: Setup, p: Plan, y: Pending, x: int)
    ensures
      var q := Visit(s, p, y);
      Load(q.carga, x) - TimesGiven(q.detalle, x) == Load(p.carga, x) - TimesGiven(p.detalle, x)
  {
    VisitStep(s, p, y, x);
    if Visit(s, p, y).detalle != p.detalle {
      assert Visit(s, p, y).detalle[..|Visit(s, p, y).detalle| - 1] == p.detalle;
    }
  }

  // ----- balance

  /** Assignment `i` is the last one given to its lawyer. */
  ghost predicate LastOf(detalle: seq<Assignment>, i: nat) {
    i < |detalle| && forall j :: i < j < |detalle| ==> detalle[j].lawyer != detalle[i].lawyer
  }

  /**
   * Balance: whoever received a case ends at most one above every lawyer who
   * could have taken his last one, a case he himself could take.
   */
  lemma {:induction false} GreedyBalance(s: Setup, queue: seq<Pending>, n: nat, i: nat, y: int)
    requires n <= |queue| && LastOf(PlanAt(s, queue, n).detalle, i)
    requires y in Candidates(s.lawyers, PlanAt(s, queue, n).detalle[i].pending.data)
    ensures
      var p := PlanAt(s, queue, n);
      var x := p.detalle[i].lawyer;
      x in Candidates(s.lawyers, p.detalle[i].pending.data) && Load(p.carga, x) <= Load(p.carga, y) + 1
  {
    hide Candidates;
    var before, p := PlanAt(s, queue, n - 1), PlanAt(s, queue, n);
    if i < |before.detalle| {
      BalanceStep(s, before, queue[n - 1], i, y);
      GreedyBalance(s, queue, n - 1, i, y);
    }
  }

  /** A later visit keeps assignment `i`, its lawyer's load and never lowers another's. */
  lemma BalanceStep(s: Setup, before: Plan, x: Pending, i: nat, y: int)
    requires i < |before.detalle| && LastOf(Visit(s, before, x).detalle, i)
    ensures LastOf(before.detalle, i) && Visit(s, before, x).detalle[i] == before.detalle[i]
    ensures Load(Visit(s, before, x).carga, before.detalle[i].lawyer) == Load(before.carga, before.detalle[i].lawyer)
    ensures Load(Visit(s, before, x).carga, y) >= Load(before.carga, y)
  {
    var after := Visit(s, before, x);
    assert forall j :: 0 <= j < |before.detalle| ==> before.detalle[j] == after.detalle[j];
    if after.detalle != before.detalle {
      assert after.detalle[|before.detalle|].lawyer != after.detalle[i].lawyer;
    }
  }

  // ----- the limit

  /** How many of `len` assignments a limit lets through. */
  function Capped(limit: int, len: nat): nat {
    if limit <= 0 then 0 else if limit < len then limit else len
  }

  /** `p` is what the limit leaves of the unlimited plan `q`. */
  ghost predicate CutShort(limit: int, p: Plan, q: Plan) {
    p.detalle == q.detalle[..Capped(limit, |q.detalle|)] && (|q.detalle| < limit ==> p == q)
  }

  lemma BelowTheLimit(s: Setup, p: Plan, x: Pending)
    requires s.limit.Some? && |p.detalle| < s.limit.value
    ensures Visit(s, p, x) == Visit(s.(limit := None), p, x)
  {
    assert Skipped(s, x.data) == Skipped(s.(limit := None), x.data);
  }

  lemma CutShortExtends(limit: int, p: Plan, q: Plan, q': Plan)
    requires CutShort(limit, p, q) && |q.detalle| >= limit && q.detalle <= q'.detalle
    ensures CutShort(limit, p, q')
  {
    var c := Capped(limit, |q.detalle|);
    assert q'.detalle[..c] == q.detalle[..c];
  }

  lemma CutShortStep(s: Setup, p: Plan, q: Plan, x: Pending)
    requires s.limit.Some? && CutShort(s.limit.value, p, q)
    ensures CutShort(s.limit.value, Visit(s, p, x), Visit(s.(limit := None), q, x))
  {
    if |q.detalle| < s.limit.value {
      BelowTheLimit(s, p, x);
      VisitStep(s, p, x, 0);
    } else {
      VisitStep(s.(limit := None), q, x, 0);
      CutShortExtends(s.limit.value, p, q, Visit(s.(limit := None), q, x));
    }
  }

  /** The plan with a limit is a prefix of the plan without it: its first `limit` assignments. */
  lemma {:induction false} LimitIsPrefix(s: Setup, queue: seq<Pending>, n: nat)
    requires n <= |queue| && s.limit.Some?
    ensures CutShort(s.limit.value, PlanAt(s, queue, n), PlanAt(s.(limit := None), queue, n))
  {
    if n > 0 {
      LimitIsPrefix(s, queue, n - 1);
      CutShortStep(s, PlanAt(s, queue, n - 1), PlanAt(s.(limit := None), queue, n - 1), queue[n - 1]);
    }
  }

  // ----- applying the plan

  function Marked(c: Case, lawyer: int): Case {
    c.(assignedTo := Some(lawyer), motivo := Some(MOTIVO_AUTOMATICO))
  }

  /** The cases after the first `n` assignments are written. */
  function Written(cases: map<int, Case>, detalle: seq<Assignment>, n: nat): map<int, Case>
    requires n <= |detalle|
  {
    if n == 0 then cases else
      var before, id := Written(cases, detalle, n - 1), detalle[n - 1].pending.id;
      if id in before then before[id := Marked(before[id], detalle[n - 1].lawyer)] else before
  }

  ghost predicate DistinctCases(detalle: seq<Assignment>) {
    forall i, j :: 0 <= i < j < |detalle| ==> detalle[i].pending.id != detalle[j].pending.id
  }

  /** Only the assignment is written, only on the cases of the plan, and each gets its planned lawyer. */
  lemma {:induction false} WritesThePlan(cases: map<int, Case>, detalle: seq<Assignment>, n: nat, c: int)
    requires n <= |detalle| && c in cases && DistinctCases(detalle)
    ensures c in Written(cases, detalle, n)
    ensures (forall i :: 0 <= i < n ==> detalle[i].pending.id != c) ==> Written(cases, detalle, n)[c] == cases[c]
    ensures forall i :: 0 <= i < n && detalle[i].pending.id == c ==>
      Written(cases, detalle, n)[c] == Marked(cases[c], detalle[i].lawyer)
  {
    if n > 0 {
      WritesThePlan(cases, detalle, n - 1, c);
    }
  }

  lemma {:induction false} WritesNothingElse(cases: map<int, Case>, detalle: seq<Assignment>, n: nat)
    requires n <= |detalle|
    ensures Written(cases, detalle, n).Keys == cases.Keys
  {
    if n > 0 {
      WritesNothingElse(cases, detalle, n - 1);
    }
  }

  predicate Unassigned(c: Case) { c.assignedTo == None && !c.archived }

  function ActiveCases(cases: map<int, Case>): set<int> { set id | id in cases && !cases[id].archived }

  function UnassignedCases(cases: map<int, Case>): set<int> { set id | id in cases && Unassigned(cases[id]) }

  function AssignedCases(cases: map<int, Case>): set<int> {
    set id | id in cases && cases[id].assignedTo.Some? && !cases[id].archived
  }

  function QueueOf(cases: map<int, Case>, ids: seq<int>): (q: seq<Pending>)
    requires forall i :: 0 <= i < |ids| ==> ids[i] in cases
    ensures |q| == |ids| && forall i :: 0 <= i < |q| ==> q[i] == Pending(ids[i], cases[ids[i]])
  {
    seq(|ids|, i requires 0 <= i < |ids| => Pending(ids[i], cases[ids[i]]))
  }

  lemma SortedMembers(ids: set<int>)
    ensures Ascending(Sorted(ids, IntLess), IntLess)
    ensures forall i :: 0 <= i < |ids| ==> Sorted(ids, IntLess)[i] in ids
  {
    SortedEnumerates(ids, IntLess);
    var sorted := Sorted(ids, IntLess);
    forall i | 0 <= i < |ids| ensures sorted[i] in ids {
      assert sorted[i] in Elements(sorted);
    }
  }

  /** The cases the engine visits, by id. */
  function Queue(cases: map<int, Case>): (q: seq<Pending>)
    ensures forall i :: 0 <= i < |q| ==> q[i].id in cases && q[i].data == cases[q[i].id] && Unassigned(q[i].data)
    ensures forall i, j :: 0 <= i < j < |q| ==> q[i].id < q[j].id
    ensures |q| == |UnassignedCases(cases)|
  {
    SortedMembers(UnassignedCases(cases));
    QueueOf(cases, Sorted(UnassignedCases(cases), IntLess))
  }

  ghost predicate FromQueue(queue: seq<Pending>, n: nat, x: Pending)
    requires n <= |queue|
  {
    exists m :: 0 <= m < n && queue[m] == x
  }

  /** Planned cases come from the visited part of the queue. */
  lemma {:induction false} PlannedFromQueue(s: Setup, queue: seq<Pending>, n: nat, i: nat)
    requires n <= |queue| && i < |PlanAt(s, queue, n).detalle|
    ensures FromQueue(queue, n, PlanAt(s, queue, n).detalle[i].pending)
  {
    var before, x := PlanAt(s, queue, n - 1), queue[n - 1];
    VisitStep(s, before, x, 0);
    if i < |before.detalle| {
      PlannedFromQueue(s, queue, n - 1, i);
      assert Visit(s, before, x).detalle[i] == before.detalle[i];
      var m :| 0 <= m < n - 1 && queue[m] == before.detalle[i].pending;
      assert queue[m] == PlanAt(s, queue, n).detalle[i].pending;
    }
  }

  /** The plan keeps the order of the queue, so no case is planned twice. */
  lemma {:induction false} PlannedInOrder(s: Setup, queue: seq<Pending>, n: nat, i: nat, j: nat)
    requires n <= |queue| && forall i, j :: 0 <= i < j < |queue| ==> queue[i].id < queue[j].id
    requires i < j < |PlanAt(s, queue, n).detalle|
    ensures PlanAt(s, queue, n).detalle[i].pending.id < PlanAt(s, queue, n).detalle[j].pending.id
  {
    hide Visit;
    var before, x := PlanAt(s, queue, n - 1), queue[n - 1];
    VisitStep(s, before, x, 0);
    assert forall k :: 0 <= k < |before.detalle| ==> Visit(s, before, x).detalle[k] == before.detalle[k];
    if j < |before.detalle| {
      PlannedInOrder(s, queue, n - 1, i, j);
    } else {
      PlannedFromQueue(s, queue, n - 1, i);
    }
  }

  function SetupOf(cases: map<int, Case>, lawyers: seq<Lawyer>, provisional: bool, limit: Option<int>,
                   carga: map<int, nat>): Setup {
    Setup(lawyers, provisional, limit, carga, |AssignedCases(cases)|)
  }

  class Cartera {
    var cases: map<int, Case>

    /** Builds the plan and, unless it is a dry run, writes it. */
    method AsignarAutomatico(lawyers: seq<Lawyer>, provisional: bool, limit: Option<int>, carga: map<int, nat>,
                             dryRun: bool)
      returns (plan: Plan)
      modifies this
      ensures plan == PlanFor(SetupOf(old(cases), lawyers, provisional, limit, carga), Queue(old(cases)))
      ensures cases == if dryRun then old(cases) else Written(old(cases), plan.detalle, |plan.detalle|)
    {
      hide Visit, Marked;
      var s := SetupOf(cases, lawyers, provisional, limit, carga);
      var queue := Queue(cases);
      plan := Opening(s);
      for i := 0 to |queue|
        invariant plan == PlanAt(s, queue, i)
      {
        plan := Visit(s, plan, queue[i]);
      }
      if !dryRun {
        for i := 0 to |plan.detalle|
          invariant cases == Written(old(cases), plan.detalle, i)
        {
          var a := plan.detalle[i];
          if a.pending.id in cases {
            cases := cases[a.pending.id := Marked(cases[a.pending.id], a.lawyer)];
          }
        }
      }
    }
  }

  /** Without a limit the report explains the whole portfolio: each active case is assigned or omitted once. */
  lemma ReportExplainsPortfolio(cases: map<int, Case>, lawyers: seq<Lawyer>, provisional: bool, carga: map<int, nat>)
    ensures
      var p := PlanFor(SetupOf(cases, lawyers, provisional, None, carga), Queue(cases));
      |p.detalle| + |p.omitted| == |ActiveCases(cases)|
  {
    EveryCaseAccounted(SetupOf(cases, lawyers, provisional, None, carga), Queue(cases), |Queue(cases)|);
    forall id ensures id in ActiveCases(cases) <==> id in UnassignedCases(cases) + AssignedCases(cases) {}
    assert ActiveCases(cases) == UnassignedCases(cases) + AssignedCases(cases);
    assert UnassignedCases(cases) !! AssignedCases(cases);
  }

  /** After applying a plan every planned case has its lawyer, `lawyerId` included all else is as before. */
  lemma ApplyingAssigns(s: Setup, cases: map<int, Case>, i: nat, c: int)
    requires c in cases
    ensures
      var d := PlanFor(s, Queue(cases)).detalle;
      var after := Written(cases, d, |d|);
      && after.Keys == cases.Keys && after[c].lawyerId == cases[c].lawyerId
      && (cases[c].assignedTo.Some? || cases[c].archived ==> after[c] == cases[c])
      && (i < |d| ==> d[i].pending.id in cases && after[d[i].pending.id] == Marked(cases[d[i].pending.id], d[i].lawyer))
  {
    var queue := Queue(cases);
    var d := PlanFor(s, queue).detalle;
    forall i, j | 0 <= i < j < |d| ensures d[i].pending.id != d[j].pending.id {
      PlannedInOrder(s, queue, |queue|, i, j);
    }
    WritesNothingElse(cases, d, |d|);
    WritesThePlan(cases, d, |d|, c);
    forall j | 0 <= j < |d| && d[j].pending.id == c ensures Unassigned(cases[c]) {
      PlannedFromQueue(s, queue, |queue|, j);
    }
    if i < |d| {
      PlannedFromQueue(s, queue, |queue|, i);
      WritesThePlan(cases, d, |d|, d[i].pending.id);
    }
  }

  // ----- the rule and the plan, in the columns

  predicate HasRule(matriz: Option<string>) {
    matriz in {Some("M1 Baja"), Some("M1 Alta"), Some("M2"), Some("M3")}
  }

  /** Who may work what. */
  predicate MayWork(nivel: string, matriz: Option<string>) {
    || (matriz == Some("M1 Baja") && nivel == "junior")
    || (matriz in {Some("M1 Alta"), Some("M2")} && nivel in {"pleno", "senior"})
    || (matriz == Some("M3") && nivel == "senior")
  }

  /** Some row of the firm's lawyers has this id and a level that may work the case. */
  ghost predicate MayTake(lawyers: seq<Lawyer>, c: Case, id: int) {
    exists i :: 0 <= i < |lawyers| && lawyers[i].id == id && MayWork(lawyers[i].nivel, c.matriz)
  }

  lemma TakersAre(lawyers: seq<Lawyer>, c: Case, id: int)
    ensures id in Candidates(lawyers, c) <==> MayTake(lawyers, c, id)
    ensures NivelesRequeridos(c.matriz) == [] <==> !HasRule(c.matriz)
  {
    CandidatesIff(lawyers, c, id);
    var required := NivelesRequeridos(c.matriz);
    forall nivel ensures nivel in required <==> MayWork(nivel, c.matriz) {}
    hide NivelesRequeridos, MayWork;
    if id in Candidates(lawyers, c) {
      var nivel :| nivel in required && Lawyer(id, nivel) in lawyers;
      var i :| 0 <= i < |lawyers| && lawyers[i] == Lawyer(id, nivel);
      assert MayWork(lawyers[i].nivel, c.matriz);
    }
    forall i | 0 <= i < |lawyers| && lawyers[i].id == id && MayWork(lawyers[i].nivel, c.matriz)
      ensures id in Candidates(lawyers, c)
    {
      assert lawyers[i].nivel in required && Lawyer(id, lawyers[i].nivel) in lawyers;
    }
  }

  /** May take the case, and nobody else who may is less loaded, or as loaded with a lower id. */
  ghost predicate Takes(s: Setup, carga: map<int, nat>, c: Case, id: int) {
    && MayTake(s.lawyers, c, id)
    && forall other :: MayTake(s.lawyers, c, other) ==>
         Load(carga, id) < Load(carga, other) || (Load(carga, id) == Load(carga, other) && id <= other)
  }

  predicate Sure(s: Setup, c: Case) { s.provisional || c.origen != Some("sin_detalle") }

  /** The plan after giving the case to `id`. */
  ghost predicate Gives(p: Plan, q: Plan, x: Pending, id: int) {
    && q.detalle == p.detalle + [Assignment(x, id)] && q.omitted == p.omitted
    && forall y :: Load(q.carga, y) == Load(p.carga, y) + if y == id then 1 else 0
  }

  predicate Omits(p: Plan, q: Plan, m: Motive) {
    q.detalle == p.detalle && q.omitted == p.omitted + multiset{m} && q.carga == p.carga
  }

  /**
   * One visit, in the columns of the case and of the lawyers: nothing at the
   * limit; an omission for a matriz without a rule, then for a provisional
   * classification, then when nobody has the level; otherwise the case goes to
   * the least loaded of those who may work it.
   */
  lemma VisitIs(s: Setup, p: Plan, x: Pending)
    ensures
      var q, c := Visit(s, p, x), x.data;
      if s.limit.Some? && |p.detalle| >= s.limit.value then q == p
      else if !HasRule(c.matriz) then Omits(p, q, SinRegla)
      else if !Sure(s, c) then Omits(p, q, Provisoria)
      else if forall id :: !MayTake(s.lawyers, c, id) then Omits(p, q, SinAbogado)
      else exists id :: Takes(s, p.carga, c, id) && Gives(p, q, x, id)
  {
    var q, c := Visit(s, p, x), x.data;
    var takers := Candidates(s.lawyers, c);
    forall id ensures id in takers <==> MayTake(s.lawyers, c, id)
      ensures NivelesRequeridos(c.matriz) == [] <==> !HasRule(c.matriz)
    {
      TakersAre(s.lawyers, c, id);
    }
    TakersAre(s.lawyers, c, 0);
    hide Candidates, NivelesRequeridos, HasRule, MayTake;
    if takers != [] {
      assert takers[0] in takers;
    }
    if !Stopped(s, p) && Skipped(s, c) == None {
      var id := LeastLoaded(p.carga, takers);
      assert Takes(s, p.carga, c, id);
      assert Gives(p, q, x, id);
    }
  }

  /** Over any run, every planned case has a rule, a classification to rely on and a lawyer who may work it. */
  lemma {:induction false} PlannedAreSound(s: Setup, queue: seq<Pending>, n: nat, i: nat)
    requires n <= |queue| && i < |PlanAt(s, queue, n).detalle|
    ensures
      var a := PlanAt(s, queue, n).detalle[i];
      && HasRule(a.pending.data.matriz) && Sure(s, a.pending.data)
      && MayTake(s.lawyers, a.pending.data, a.lawyer)
  {
    hide Visit, MayTake, HasRule, Sure, Takes;
    if n > 0 {
      var before := PlanAt(s, queue, n - 1);
      VisitIs(s, before, queue[n - 1]);
      if i < |before.detalle| {
        PlannedAreSound(s, queue, n - 1, i);
        assert PlanAt(s, queue, n).detalle[i] == before.detalle[i];
      } else {
        var id :| Takes(s, before.carga, queue[n - 1].data, id)
          && Gives(before, PlanAt(s, queue, n), queue[n - 1], id);
        TakerMayTake(s, before.carga, queue[n - 1].data, id);
      }
    }
  }

  lemma TakerMayTake(s: Setup, carga: map<int, nat>, c: Case, id: int)
    requires Takes(s, carga, c, id)
    ensures MayTake(s.lawyers, c, id)
  {}

  /** The columns of a planned case once the plan is applied. */
  lemma AppliedColumns(s: Setup, cases: map<int, Case>, i: nat)
    requires i < |PlanFor(s, Queue(cases)).detalle|
    ensures
      var d := PlanFor(s, Queue(cases)).detalle;
      var id, after := d[i].pending.id, Written(cases, d, |d|);
      && id in cases && id in after
      && cases[id].assignedTo == None && !cases[id].archived && d[i].pending.data == cases[id]
      && after[id].assignedTo == Some(d[i].lawyer) && after[id].motivo == Some("asignación automática por nivel")
      && after[id].lawyerId == cases[id].lawyerId && after[id].matriz == cases[id].matriz
      && after[id].origen == cases[id].origen && after[id].archived == cases[id].archived
  {
    var queue := Queue(cases);
    PlannedFromQueue(s, queue, |queue|, i);
    ApplyingAssigns(s, cases, i, PlanFor(s, queue).detalle[i].pending.id);
  }
}
