/**
 * Was the obligation of a plazo met, and on time? The text matchers of the
 * program are flags on the rows.
 */
module Verdict {
  import opened Options

  datatype DeadlineType = Excepciones | Poder | Other

  datatype Movement = Movement(id: int, day: int, excepciones: bool, compliance: bool, extendedCompliance: bool,
                               extendedTrigger: bool, previo: bool)

  /** `matches`: a dated escrito in which the debtor opposes the execution. */
  datatype Escrito = Escrito(day: int, matches: bool)

  datatype Verdict = Cumplido | FueraDePlazo | RegistroTardio | NoCumplido | PresentadoSinAncla

  datatype VerdictResult = VerdictResult(verdict: Option<Verdict>, movementId: Option<int>, actedOn: Option<int>)

  const UNDETERMINED := VerdictResult(None, None, None)

  datatype Config = Config(publicationMargin: int, poderAllowance: int)

  function Max(a: int, b: int): int { if a >= b then a else b }

  function DefaultMargin(c: Config, t: DeadlineType): int {
    c.publicationMargin + (if t == Poder then Max(c.poderAllowance, 0) else 0)
  }

  function Margin(c: Config, t: DeadlineType, given: Option<int>): int {
    Max(if given.Some? then given.value else DefaultMargin(c, t), 0)
  }

  function Rank(v: Option<Verdict>): int {
    match v
    case None => -1
    case Some(NoCumplido) => 0
    case Some(PresentadoSinAncla) => 1
    case Some(FueraDePlazo) => 2
    case Some(RegistroTardio) => 3
    case Some(Cumplido) => 4
  }

  // ----- the acts

  /** "Cumple lo ordenado" counts only after an extended trigger of that day with no previo a proveer. */
  predicate AcceptsCumple(ms: seq<Movement>, triggered: int) {
    && (exists m :: m in ms && m.day == triggered && m.extendedTrigger)
    && !(exists m :: m in ms && m.day == triggered && m.previo)
  }

  /** `m` fulfils the plazo, given whether "Cumple lo ordenado" is accepted. */
  predicate Fulfils(t: DeadlineType, triggered: Option<int>, accepts: bool, m: Movement) {
    match t
    case Excepciones => m.excepciones
    case Poder => triggered.Some? && (m.compliance || (accepts && m.extendedCompliance)) && m.day > triggered.value
    case Other => false
  }

  predicate Accepts(t: DeadlineType, triggered: Option<int>, ms: seq<Movement>) {
    t == Poder && triggered.Some? && AcceptsCumple(ms, triggered.value)
  }

  predicate IsAct(t: DeadlineType, triggered: Option<int>, ms: seq<Movement>, m: Movement) {
    m in ms && Fulfils(t, triggered, Accepts(t, triggered, ms), m)
  }

  /** The first of the earliest fulfilling movements, as `min` returns it. */
  function Earliest(t: DeadlineType, triggered: Option<int>, accepts: bool, ms: seq<Movement>): (r: Option<Movement>)
    ensures r.Some? ==> r.value in ms && Fulfils(t, triggered, accepts, r.value)
    ensures forall m :: m in ms && Fulfils(t, triggered, accepts, m) ==> r.Some? && r.value.day <= m.day
  {
    if ms == [] then None else
      var rest := Earliest(t, triggered, accepts, ms[1..]);
      assert ms == [ms[0]] + ms[1..];
      if !Fulfils(t, triggered, accepts, ms[0]) then rest
      else if rest.Some? && rest.value.day < ms[0].day then rest
      else Some(ms[0])
  }

  function EarliestEscrito(triggered: Option<int>, es: seq<Escrito>): (r: Option<int>)
    ensures r.Some? ==> exists e :: IsFiling(triggered, es, e) && e.day == r.value
    ensures forall e :: IsFiling(triggered, es, e) ==> r.Some? && r.value <= e.day
  {
    if es == [] then None else
      var rest := EarliestEscrito(triggered, es[1..]);
      assert es == [es[0]] + es[1..];
      assert forall e :: IsFiling(triggered, es[1..], e) ==> IsFiling(triggered, es, e);
      if !(es[0].matches && (triggered == None || es[0].day >= triggered.value)) then rest
      else
        assert IsFiling(triggered, es, es[0]);
        if rest.Some? && rest.value < es[0].day then rest else Some(es[0].day)
  }

  predicate IsFiling(triggered: Option<int>, es: seq<Escrito>, e: Escrito) {
    e in es && e.matches && (triggered == None || e.day >= triggered.value)
  }

  // ----- the evaluation

  function EvaluateMovements(t: DeadlineType, due: Option<int>, ms: seq<Movement>, today: int, margin: int,
                             triggered: Option<int>): VerdictResult {
    if t == Other || (t == Poder && triggered == None) then UNDETERMINED else
      match Earliest(t, triggered, Accepts(t, triggered, ms), ms)
      case None =>
        if due.Some? && due.value + (if t == Poder then margin else 0) < today then
          VerdictResult(Some(NoCumplido), None, None)
        else
          UNDETERMINED
      case Some(act) =>
        var v :=
          if due == None then PresentadoSinAncla
          else if act.day <= due.value then Cumplido
          else if act.day <= due.value + margin then RegistroTardio
          else FueraDePlazo;
        VerdictResult(Some(v), Some(act.id), Some(act.day))
  }

  function EvaluateEscritos(t: DeadlineType, due: Option<int>, es: seq<Escrito>,
                            triggered: Option<int>): Option<VerdictResult> {
    if t != Excepciones then None else
      match EarliestEscrito(triggered, es)
      case None => None
      case Some(day) =>
        var v :=
          if due == None then PresentadoSinAncla
          else if day <= due.value then Cumplido
          else FueraDePlazo;
        Some(VerdictResult(Some(v), None, Some(day)))
  }

  function Evaluate(t: DeadlineType, due: Option<int>, ms: seq<Movement>, today: int, margin: int,
                    triggered: Option<int>, es: seq<Escrito>): VerdictResult {
    var fromMovements := EvaluateMovements(t, due, ms, today, margin, triggered);
    var fromEscritos := EvaluateEscritos(t, due, es, triggered);
    if fromEscritos.Some? && Rank(fromEscritos.value.verdict) > Rank(fromMovements.verdict) then fromEscritos.value
    else fromMovements
  }

  // ----- what the verdict means

  predicate Filed(t: DeadlineType, triggered: Option<int>, es: seq<Escrito>, e: Escrito) {
    t == Excepciones && IsFiling(triggered, es, e)
  }

  /** Some act, movement or escrito, is dated on or before `day`. */
  ghost predicate ActedBy(t: DeadlineType, triggered: Option<int>, ms: seq<Movement>, es: seq<Escrito>, day: int) {
    (exists m :: IsAct(t, triggered, ms, m) && m.day <= day) || (exists e :: Filed(t, triggered, es, e) && e.day <= day)
  }

  ghost predicate SomeMovement(t: DeadlineType, triggered: Option<int>, ms: seq<Movement>, day: int) {
    exists m :: IsAct(t, triggered, ms, m) && m.day <= day
  }

  ghost predicate NoAct(t: DeadlineType, triggered: Option<int>, ms: seq<Movement>, es: seq<Escrito>) {
    (forall m :: !IsAct(t, triggered, ms, m)) && (forall e :: !Filed(t, triggered, es, e))
  }

  lemma EarliestIs(t: DeadlineType, triggered: Option<int>, ms: seq<Movement>)
    ensures
      var act := Earliest(t, triggered, Accepts(t, triggered, ms), ms);
      && (act == None <==> forall m :: !IsAct(t, triggered, ms, m))
      && (act.Some? ==>
          IsAct(t, triggered, ms, act.value)
          && forall m :: IsAct(t, triggered, ms, m) ==> act.value.day <= m.day)
  {
    var act := Earliest(t, triggered, Accepts(t, triggered, ms), ms);
    if act.Some? {
      assert IsAct(t, triggered, ms, act.value);
    }
  }

  lemma EarliestFilingIs(t: DeadlineType, triggered: Option<int>, es: seq<Escrito>)
    ensures
      var day := EarliestEscrito(triggered, es);
      && (day.None? || t != Excepciones ==> forall e :: !Filed(t, triggered, es, e))
      && (day.Some? && t == Excepciones ==> exists e :: Filed(t, triggered, es, e) && e.day == day.value)
      && (day.Some? ==> forall e :: Filed(t, triggered, es, e) ==> day.value <= e.day)
  {
    var day := EarliestEscrito(triggered, es);
    if day.Some? && t == Excepciones {
      var e :| IsFiling(triggered, es, e) && e.day == day.value;
      assert Filed(t, triggered, es, e);
    }
  }

  /** With a due date, "cumplido" says exactly that some act is dated in time, whatever the margin. */
  lemma CumplidoIff(t: DeadlineType, due: int, ms: seq<Movement>, today: int, margin: nat, triggered: Option<int>,
                    es: seq<Escrito>)
    ensures Evaluate(t, Some(due), ms, today, margin, triggered, es).verdict == Some(Cumplido) <==>
      ActedBy(t, triggered, ms, es, due)
  {
    EarliestIs(t, triggered, ms);
    EarliestFilingIs(t, triggered, es);
  }

  /**
   * With a due date, late is said exactly when there is an act, none is in time
   * and no movement lies within the margin.
   */
  lemma LateIff(t: DeadlineType, due: int, ms: seq<Movement>, today: int, margin: nat, triggered: Option<int>,
                es: seq<Escrito>)
    ensures
      var v := Evaluate(t, Some(due), ms, today, margin, triggered, es).verdict;
      && (v == Some(FueraDePlazo) <==>
         !NoAct(t, triggered, ms, es) && !ActedBy(t, triggered, ms, es, due)
         && !SomeMovement(t, triggered, ms, due + margin))
      && (v == Some(RegistroTardio) <==>
         !ActedBy(t, triggered, ms, es, due) && SomeMovement(t, triggered, ms, due + margin))
  {
    EarliestIs(t, triggered, ms);
    EarliestFilingIs(t, triggered, es);
  }

  /** An act filed in time and published at most `margin` days later is never called late. */
  lemma NeverAccusesOnTime(t: DeadlineType, due: int, ms: seq<Movement>, today: int, margin: nat,
                           triggered: Option<int>, es: seq<Escrito>, act: Movement, filedOn: int)
    requires IsAct(t, triggered, ms, act) && filedOn <= due && act.day <= filedOn + margin
    ensures Evaluate(t, Some(due), ms, today, margin, triggered, es).verdict in {Some(Cumplido), Some(RegistroTardio)}
  {
    LateIff(t, due, ms, today, margin, triggered, es);
    CumplidoIff(t, due, ms, today, margin, triggered, es);
    assert SomeMovement(t, triggered, ms, due + margin);
  }

  /** A miss is said exactly when nothing was found and the window, with its margin for poder, has gone by. */
  lemma MissIff(t: DeadlineType, due: Option<int>, ms: seq<Movement>, today: int, margin: nat, triggered: Option<int>,
                es: seq<Escrito>)
    ensures Evaluate(t, due, ms, today, margin, triggered, es).verdict == Some(NoCumplido) <==>
      && NoAct(t, triggered, ms, es) && due.Some? && t != Other && (t == Poder ==> triggered.Some?)
      && due.value + (if t == Poder then margin else 0) < today
  {
    EarliestIs(t, triggered, ms);
    EarliestFilingIs(t, triggered, es);
  }

  /** Without a due date an act is only ever "presented", and only acts are. */
  lemma NoAnchorIff(t: DeadlineType, ms: seq<Movement>, today: int, margin: nat, triggered: Option<int>,
                    es: seq<Escrito>)
    ensures
      var v := Evaluate(t, None, ms, today, margin, triggered, es).verdict;
      v == if NoAct(t, triggered, ms, es) then None else Some(PresentadoSinAncla)
  {
    EarliestIs(t, triggered, ms);
    EarliestFilingIs(t, triggered, es);
  }

  /** The evidence named is an act dated as said, and no act of its kind is earlier. */
  lemma EvidenceIsReal(t: DeadlineType, due: Option<int>, ms: seq<Movement>, today: int, margin: nat,
                       triggered: Option<int>, es: seq<Escrito>)
    ensures
      var r := Evaluate(t, due, ms, today, margin, triggered, es);
      && (r.movementId.Some? ==>
          r.actedOn.Some?
          && exists m :: IsAct(t, triggered, ms, m) && m.id == r.movementId.value && m.day == r.actedOn.value)
      && (r.movementId == None && r.actedOn.Some? ==>
          exists e :: Filed(t, triggered, es, e) && e.day == r.actedOn.value)
      && (r.movementId.Some? ==> forall m :: IsAct(t, triggered, ms, m) ==> r.actedOn.value <= m.day)
      && (r.movementId == None && r.actedOn.Some? ==>
         forall e :: Filed(t, triggered, es, e) ==> r.actedOn.value <= e.day)
      && (r.verdict == None <==> r == UNDETERMINED)
  {
    EarliestIs(t, triggered, ms);
    EarliestFilingIs(t, triggered, es);
  }

  /** With fixed evidence the passing of days can only turn undetermined into a miss. */
  lemma TimeOnlyReveals(t: DeadlineType, due: Option<int>, ms: seq<Movement>, margin: nat, triggered: Option<int>,
                        es: seq<Escrito>, today: int, later: int)
    requires today <= later
    ensures
      var r, r' := Evaluate(t, due, ms, today, margin, triggered, es),
        Evaluate(t, due, ms, later, margin, triggered, es);
      r' == r || (r == UNDETERMINED && r'.verdict == Some(NoCumplido))
  {}

  // ----- more evidence

  ghost predicate Contains<T>(small: seq<T>, big: seq<T>) {
    forall x :: x in small ==> x in big
  }

  /** Every act stays an act. */
  ghost predicate ActsKept(t: DeadlineType, triggered: Option<int>, ms: seq<Movement>, more: seq<Movement>) {
    Contains(ms, more) && (Accepts(t, triggered, ms) ==> Accepts(t, triggered, more))
  }

  lemma MoreMovements(t: DeadlineType, due: Option<int>, ms: seq<Movement>, more: seq<Movement>, today: int,
                      margin: nat, triggered: Option<int>)
    requires ActsKept(t, triggered, ms, more)
    ensures Rank(EvaluateMovements(t, due, ms, today, margin, triggered).verdict)
         <= Rank(EvaluateMovements(t, due, more, today, margin, triggered).verdict)
  {
    EarliestIs(t, triggered, ms);
    EarliestIs(t, triggered, more);
    forall m | IsAct(t, triggered, ms, m) ensures IsAct(t, triggered, more, m) {}
  }

  lemma MoreEscritos(t: DeadlineType, due: Option<int>, es: seq<Escrito>, more: seq<Escrito>, triggered: Option<int>)
    requires Contains(es, more)
    ensures
      var a, b := EvaluateEscritos(t, due, es, triggered), EvaluateEscritos(t, due, more, triggered);
      a.Some? ==> b.Some? && Rank(a.value.verdict) <= Rank(b.value.verdict)
  {
    forall e | IsFiling(triggered, es, e) ensures IsFiling(triggered, more, e) {}
  }

  lemma MoreEvidence(t: DeadlineType, due: Option<int>, ms: seq<Movement>, more: seq<Movement>, es: seq<Escrito>,
                     moreEs: seq<Escrito>, today: int, margin: nat, triggered: Option<int>)
    requires ActsKept(t, triggered, ms, more) && Contains(es, moreEs)
    ensures Rank(Evaluate(t, due, ms, today, margin, triggered, es).verdict) <=
      Rank(Evaluate(t, due, more, today, margin, triggered, moreEs).verdict)
  {
    hide EvaluateMovements, EvaluateEscritos, ActsKept;
    MoreMovements(t, due, ms, more, today, margin, triggered);
    MoreEscritos(t, due, es, moreEs, triggered);
  }

  /** For excepciones, adding movements or escritos never lowers the verdict. */
  lemma ExcepcionesMonotone(due: Option<int>, ms: seq<Movement>, more: seq<Movement>, es: seq<Escrito>,
                            moreEs: seq<Escrito>, today: int, margin: nat, triggered: Option<int>)
    requires Contains(ms, more) && Contains(es, moreEs)
    ensures Rank(Evaluate(Excepciones, due, ms, today, margin, triggered, es).verdict)
         <= Rank(Evaluate(Excepciones, due, more, today, margin, triggered, moreEs).verdict)
  {
    MoreEvidence(Excepciones, due, ms, more, es, moreEs, today, margin, triggered);
  }

  /** For poder, adding movements never lowers the verdict when none of them is a
    * previo a proveer of the trigger day. */
  lemma PoderMonotone(due: Option<int>, ms: seq<Movement>, added: seq<Movement>, today: int, margin: nat,
                      triggered: int, es: seq<Escrito>)
    requires forall m :: m in added && m.day == triggered ==> !m.previo
    ensures Rank(Evaluate(Poder, due, ms, today, margin, Some(triggered), es).verdict)
         <= Rank(Evaluate(Poder, due, ms + added, today, margin, Some(triggered), es).verdict)
  {
    if AcceptsCumple(ms, triggered) {
      var m :| m in ms && m.day == triggered && m.extendedTrigger;
      assert m in ms + added;
    }
    MoreEvidence(Poder, due, ms, ms + added, es, es, today, margin, Some(triggered));
  }

  /** The verdict a fulfilling movement of that day gives. */
  function ActVerdict(due: Option<int>, margin: int, day: int): Verdict {
    if due == None then PresentadoSinAncla
    else if day <= due.value then Cumplido
    else if day <= due.value + margin then RegistroTardio
    else FueraDePlazo
  }

  lemma EarlierActsRankHigher(due: Option<int>, margin: nat, a: int, b: int)
    requires a <= b
    ensures Rank(Some(ActVerdict(due, margin, a))) >= Rank(Some(ActVerdict(due, margin, b))) > 0
    ensures Rank(Some(ActVerdict(due, margin, a))) == Rank(Some(ActVerdict(due, margin, b)))
       <==> ActVerdict(due, margin, a) == ActVerdict(due, margin, b)
  {}

  /** The verdict on a poder plazo is that of some act, the best of them; without acts it is a miss or open. */
  lemma PoderVerdict(due: Option<int>, ms: seq<Movement>, today: int, margin: nat, triggered: int, es: seq<Escrito>)
    ensures
      var v := Evaluate(Poder, due, ms, today, margin, Some(triggered), es).verdict;
      && ((forall m :: !IsAct(Poder, Some(triggered), ms, m)) ==> Rank(v) <= 0)
      && (forall m :: IsAct(Poder, Some(triggered), ms, m) ==> Rank(v) >= Rank(Some(ActVerdict(due, margin, m.day))))
      && (Rank(v) > 0 ==> exists m :: IsAct(Poder, Some(triggered), ms, m) && v == Some(ActVerdict(due, margin, m.day)))
  {
    EarliestIs(Poder, Some(triggered), ms);
    var act := Earliest(Poder, Some(triggered), Accepts(Poder, Some(triggered), ms), ms);
    if act.Some? {
      forall m | IsAct(Poder, Some(triggered), ms, m)
        ensures Rank(Some(ActVerdict(due, margin, act.value.day))) >= Rank(Some(ActVerdict(due, margin, m.day)))
      {
        EarlierActsRankHigher(due, margin, act.value.day, m.day);
      }
    }
  }

  /** Some added movement is a previo a proveer of the trigger day. */
  ghost predicate Spoils(added: seq<Movement>, triggered: int) {
    exists m :: m in added && m.day == triggered && m.previo
  }

  predicate Rescuer(due: Option<int>, margin: int, triggered: int, m: Movement) {
    m.compliance && m.day > triggered && ActVerdict(due, margin, m.day) == ActVerdict(due, margin, triggered + 1)
  }

  /** Some added movement complies as well as anything can: like an act of the day after the trigger. */
  ghost predicate Rescues(due: Option<int>, added: seq<Movement>, margin: int, triggered: int) {
    exists m :: m in added && Rescuer(due, margin, triggered, m)
  }

  ghost predicate NeverLowers(due: Option<int>, added: seq<Movement>, today: int, margin: nat, triggered: int,
                              es: seq<Escrito>) {
    forall ms: seq<Movement> :: Rank(Evaluate(Poder, due, ms, today, margin, Some(triggered), es).verdict)
                             <= Rank(Evaluate(Poder, due, ms + added, today, margin, Some(triggered), es).verdict)
  }

  /** The case that a previo a proveer of the trigger day spoils: the only act is a "Cumple lo ordenado". */
  function Spoiled(triggered: int): seq<Movement> {
    [Movement(1, triggered, false, false, false, true, false),
      Movement(2, triggered + 1, false, false, true, false, false)]
  }

  lemma PrevioLowers(due: Option<int>, added: seq<Movement>, today: int, margin: nat, triggered: int, es: seq<Escrito>)
    requires (forall m :: m in added ==> m.day == triggered) && exists m :: m in added && m.previo
    ensures Rank(Evaluate(Poder, due, Spoiled(triggered) + added, today, margin, Some(triggered), es).verdict)
          < Rank(Evaluate(Poder, due, Spoiled(triggered), today, margin, Some(triggered), es).verdict)
  {
    hide Evaluate;
    SpoiledLowers(due, added, today, margin, triggered, es);
  }

  lemma RescuedNeverLowers(due: Option<int>, ms: seq<Movement>, added: seq<Movement>, today: int, margin: nat,
                           triggered: int, es: seq<Escrito>)
    requires Rescues(due, added, margin, triggered)
    ensures Rank(Evaluate(Poder, due, ms, today, margin, Some(triggered), es).verdict)
         <= Rank(Evaluate(Poder, due, ms + added, today, margin, Some(triggered), es).verdict)
  {
    hide Evaluate, ActVerdict;
    PoderVerdict(due, ms, today, margin, triggered, es);
    PoderVerdict(due, ms + added, today, margin, triggered, es);
    var a :| a in added && Rescuer(due, margin, triggered, a);
    assert IsAct(Poder, Some(triggered), ms + added, a);
    EarlierActsRankHigher(due, margin, triggered + 1, a.day);
    var before := Evaluate(Poder, due, ms, today, margin, Some(triggered), es).verdict;
    if Rank(before) > 0 {
      var m :| IsAct(Poder, Some(triggered), ms, m) && before == Some(ActVerdict(due, margin, m.day));
      EarlierActsRankHigher(due, margin, triggered + 1, m.day);
    }
  }

  lemma SpoiledLowers(due: Option<int>, added: seq<Movement>, today: int, margin: nat, triggered: int, es: seq<Escrito>)
    requires Spoils(added, triggered) && !Rescues(due, added, margin, triggered)
    ensures Rank(Evaluate(Poder, due, Spoiled(triggered) + added, today, margin, Some(triggered), es).verdict)
          < Rank(Evaluate(Poder, due, Spoiled(triggered), today, margin, Some(triggered), es).verdict)
  {
    hide Evaluate, ActVerdict;
    var ms := Spoiled(triggered);
    PoderVerdict(due, ms, today, margin, triggered, es);
    PoderVerdict(due, ms + added, today, margin, triggered, es);
    assert ms[0] in ms && ms[1] in ms;
    assert AcceptsCumple(ms, triggered);
    assert IsAct(Poder, Some(triggered), ms, ms[1]);
    EarlierActsRankHigher(due, margin, triggered + 1, triggered + 1);
    var p :| p in added && p.day == triggered && p.previo;
    assert p in ms + added;
    assert !AcceptsCumple(ms + added, triggered);
    var after := Evaluate(Poder, due, ms + added, today, margin, Some(triggered), es).verdict;
    if Rank(after) > 0 {
      var m :| IsAct(Poder, Some(triggered), ms + added, m) && after == Some(ActVerdict(due, margin, m.day));
      assert m in added && !Rescuer(due, margin, triggered, m);
      EarlierActsRankHigher(due, margin, triggered + 1, m.day);
    }
  }

  /**
   * Adding movements never lowers a poder verdict, whatever the evidence so
   * far, if and only if none of them is a previo a proveer of the trigger day,
   * or one of them complies with the same verdict as an act of the next day.
   */
  lemma NeverLowersIff(due: Option<int>, added: seq<Movement>, today: int, margin: nat, triggered: int,
                       es: seq<Escrito>)
    ensures NeverLowers(due, added, today, margin, triggered, es)
       <==> !Spoils(added, triggered) || Rescues(due, added, margin, triggered)
  {
    hide Evaluate;
    if !Spoils(added, triggered) || Rescues(due, added, margin, triggered) {
      forall ms: seq<Movement>
        ensures Rank(Evaluate(Poder, due, ms, today, margin, Some(triggered), es).verdict)
             <= Rank(Evaluate(Poder, due, ms + added, today, margin, Some(triggered), es).verdict)
      {
        if Rescues(due, added, margin, triggered) {
          RescuedNeverLowers(due, ms, added, today, margin, triggered, es);
        } else {
          PoderMonotone(due, ms, added, today, margin, triggered, es);
        }
      }
    } else {
      SpoiledLowers(due, added, today, margin, triggered, es);
      var ms := Spoiled(triggered);
      assert Rank(Evaluate(Poder, due, ms, today, margin, Some(triggered), es).verdict)
           > Rank(Evaluate(Poder, due, ms + added, today, margin, Some(triggered), es).verdict);
    }
  }

  /** Of movements dated on the trigger day, exactly the previos a proveer can lower a verdict. */
  lemma TriggerDayLowersIff(due: Option<int>, added: seq<Movement>, today: int, margin: nat, triggered: int,
                            es: seq<Escrito>)
    requires forall m :: m in added ==> m.day == triggered
    ensures NeverLowers(due, added, today, margin, triggered, es) <==> forall m :: m in added ==> !m.previo
  {
    hide Evaluate;
    NeverLowersIff(due, added, today, margin, triggered, es);
  }

  // ----- the configured margin

  function EvaluateDeadline(c: Config, t: DeadlineType, due: Option<int>, ms: seq<Movement>, today: int,
                            given: Option<int>, triggered: Option<int>, es: seq<Escrito>): VerdictResult {
    Evaluate(t, due, ms, today, Margin(c, t, given), triggered, es)
  }

  /** A wider margin never accuses: what it calls late or missed, a narrower one calls the same. */
  lemma WiderMarginIsKinder(t: DeadlineType, due: Option<int>, ms: seq<Movement>, today: int, narrow: nat, wide: nat,
                            triggered: Option<int>, es: seq<Escrito>)
    requires narrow <= wide
    ensures
      var v := Evaluate(t, due, ms, today, wide, triggered, es).verdict;
      v in {Some(FueraDePlazo), Some(NoCumplido)} ==> Evaluate(t, due, ms, today, narrow, triggered, es).verdict == v
  {}

  /**
   * With the settings' own margin a miss is said exactly when there is no act
   * and the window is over, which for poder includes the publication margin and
   * the allowance for the notification, neither of them shortening it.
   */
  lemma DefaultMissIff(c: Config, t: DeadlineType, due: Option<int>, ms: seq<Movement>, today: int,
                       triggered: Option<int>, es: seq<Escrito>)
    ensures EvaluateDeadline(c, t, due, ms, today, None, triggered, es).verdict == Some(NoCumplido) <==>
      && NoAct(t, triggered, ms, es) && due.Some? && t != Other && (t == Poder ==> triggered.Some?)
      && due.value < today
      && (t == Poder ==> due.value + c.publicationMargin + Max(c.poderAllowance, 0) < today)
  {
    hide Evaluate, NoAct;
    MissIff(t, due, ms, today, Margin(c, t, None), triggered, es);
  }

  // ----- the verdict of a plazo, read off the rows and the settings

  /**
   * Movement `m` fulfils the plazo: a filing of excepciones; for poder, a
   * compliance dated after the trigger, of which "cumple lo ordenado" is one
   * only when the trigger day has an extended trigger and no previo a proveer.
   */
  ghost predicate Counts(t: DeadlineType, triggered: Option<int>, ms: seq<Movement>, m: Movement) {
    && m in ms
    && match t
       case Excepciones => m.excepciones
       case Other => false
       case Poder =>
         && triggered.Some? && m.day > triggered.value
         && (m.compliance
             || (m.extendedCompliance
                 && (exists x :: x in ms && x.day == triggered.value && x.extendedTrigger)
                 && (forall x :: x in ms && x.day == triggered.value ==> !x.previo)))
  }

  lemma ActCounts(t: DeadlineType, triggered: Option<int>, ms: seq<Movement>, m: Movement)
    ensures IsAct(t, triggered, ms, m) <==> Counts(t, triggered, ms, m)
  {}

  /** Some fulfilling movement is dated by `day`. */
  ghost predicate CountedBy(t: DeadlineType, triggered: Option<int>, ms: seq<Movement>, day: int) {
    exists m :: Counts(t, triggered, ms, m) && m.day <= day
  }

  /** Some escrito opposing the execution was filed from the trigger on and by `day`. */
  ghost predicate FiledBy(t: DeadlineType, triggered: Option<int>, es: seq<Escrito>, day: int) {
    t == Excepciones
    && exists e :: e in es && e.matches && (triggered.Some? ==> triggered.value <= e.day) && e.day <= day
  }

  ghost predicate NothingCounts(t: DeadlineType, triggered: Option<int>, ms: seq<Movement>, es: seq<Escrito>) {
    && (forall m :: !Counts(t, triggered, ms, m))
    && forall day :: !FiledBy(t, triggered, es, day)
  }

  /**
   * The days of tolerance: those given, none for a negative number; else those
   * of the settings, to which poder adds its allowance.
   */
  ghost predicate Tolerated(c: Config, t: DeadlineType, given: Option<int>, days: int) {
    match given
    case Some(d) => days == 0 || days <= d
    case None =>
      days == 0 || days <= c.publicationMargin + (if t == Poder && c.poderAllowance > 0 then c.poderAllowance else 0)
  }

  lemma MarginIs(c: Config, t: DeadlineType, given: Option<int>, days: int)
    requires days >= 0
    ensures days <= Margin(c, t, given) <==> Tolerated(c, t, given, days)
  {}

  /** A fulfilling movement comes after the due date by no more than is tolerated. */
  ghost predicate CountedWithin(c: Config, t: DeadlineType, given: Option<int>, triggered: Option<int>,
                                ms: seq<Movement>, due: int) {
    exists m :: Counts(t, triggered, ms, m) && (m.day <= due || Tolerated(c, t, given, m.day - due))
  }

  /** The window of an absent act is over: for poder, and what is tolerated with it. */
  ghost predicate WindowOver(c: Config, t: DeadlineType, given: Option<int>, due: int, today: int) {
    due < today && (t == Poder ==> !Tolerated(c, t, given, today - due))
  }

  lemma CountsBridge(c: Config, t: DeadlineType, due: int, ms: seq<Movement>, given: Option<int>,
                     triggered: Option<int>, es: seq<Escrito>)
    ensures NoAct(t, triggered, ms, es) <==> NothingCounts(t, triggered, ms, es)
    ensures ActedBy(t, triggered, ms, es, due) <==>
      CountedBy(t, triggered, ms, due) || FiledBy(t, triggered, es, due)
    ensures SomeMovement(t, triggered, ms, due + Margin(c, t, given)) <==>
      CountedWithin(c, t, given, triggered, ms, due)
  {
    forall m ensures IsAct(t, triggered, ms, m) <==> Counts(t, triggered, ms, m) {
      ActCounts(t, triggered, ms, m);
    }
    forall m: Movement ensures m.day <= due + Margin(c, t, given) <==>
      m.day <= due || Tolerated(c, t, given, m.day - due)
    {
      if m.day > due {
        MarginIs(c, t, given, m.day - due);
      }
    }
    hide Counts, Tolerated, Margin, IsAct;
    forall e ensures Filed(t, triggered, es, e) <==>
      t == Excepciones && e in es && e.matches && (triggered.Some? ==> triggered.value <= e.day) {}
    if e :| Filed(t, triggered, es, e) {
      assert FiledBy(t, triggered, es, e.day);
    }
  }

  /**
   * Every verdict of a plazo with a due date, and exactly when it is given,
   * from the rows, the settings and the margin the caller may pass.
   */
  lemma VerdictWithDue(c: Config, t: DeadlineType, due: int, ms: seq<Movement>, today: int, given: Option<int>,
                       triggered: Option<int>, es: seq<Escrito>)
    ensures
      var v := EvaluateDeadline(c, t, Some(due), ms, today, given, triggered, es).verdict;
      var inTime := CountedBy(t, triggered, ms, due) || FiledBy(t, triggered, es, due);
      var none := NothingCounts(t, triggered, ms, es);
      && (v == Some(Cumplido) <==> inTime)
      && (v == Some(RegistroTardio) <==> (!inTime && CountedWithin(c, t, given, triggered, ms, due)))
      && (v == Some(FueraDePlazo) <==> (!inTime && !none && !CountedWithin(c, t, given, triggered, ms, due)))
      && (v == Some(NoCumplido) <==>
          (none && t != Other && (t == Poder ==> triggered.Some?) && WindowOver(c, t, given, due, today)))
      && v != Some(PresentadoSinAncla)
  {
    CountsBridge(c, t, due, ms, given, triggered, es);
    var margin := Margin(c, t, given);
    CumplidoIff(t, due, ms, today, margin, triggered, es);
    LateIff(t, due, ms, today, margin, triggered, es);
    MissIff(t, Some(due), ms, today, margin, triggered, es);
    if today - due >= 0 {
      MarginIs(c, t, given, today - due);
    }
    hide Counts, Tolerated, Margin, IsAct, CountedBy, CountedWithin, FiledBy, NoAct, ActedBy, SomeMovement;
    hide NothingCounts;
    assert EvaluateDeadline(c, t, Some(due), ms, today, given, triggered, es)
        == Evaluate(t, Some(due), ms, today, margin, triggered, es);
  }

  /**
   * What was filed in time and published no later than is tolerated is never
   * called out of time or missed, for every type that has a detector.
   */
  lemma FiledInTimeIsNeverLate(c: Config, t: DeadlineType, due: int, ms: seq<Movement>, today: int,
                               given: Option<int>, triggered: Option<int>, es: seq<Escrito>, m: Movement,
                               filedOn: int)
    requires Counts(t, triggered, ms, m)
    requires filedOn <= due && filedOn <= m.day
    requires
      match given
      case None =>
        || m.day == filedOn
        || m.day - filedOn <= c.publicationMargin + (if t == Poder && c.poderAllowance > 0 then c.poderAllowance else 0)
      case Some(days) => m.day == filedOn || m.day - filedOn <= days
    ensures EvaluateDeadline(c, t, Some(due), ms, today, given, triggered, es).verdict
      in {Some(Cumplido), Some(RegistroTardio)}
  {
    assert CountedWithin(c, t, given, triggered, ms, due);
    VerdictWithDue(c, t, due, ms, today, given, triggered, es);
  }

  /** Without a due date a plazo is presented when anything was filed, and otherwise nothing is said. */
  lemma VerdictWithoutDue(c: Config, t: DeadlineType, ms: seq<Movement>, today: int, given: Option<int>,
                          triggered: Option<int>, es: seq<Escrito>)
    ensures
      var v := EvaluateDeadline(c, t, None, ms, today, given, triggered, es).verdict;
      v == if NothingCounts(t, triggered, ms, es) then None else Some(PresentadoSinAncla)
  {
    CountsBridge(c, t, 0, ms, given, triggered, es);
    NoAnchorIff(t, ms, today, Margin(c, t, given), triggered, es);
  }
}
