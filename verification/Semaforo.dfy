/**
 * The traffic light of a plazo: scales of levels by business day, one or two
 * readings of the term, and what a run of days can show.
 */
module Semaforo {
  import opened Options
  import opened BusinessDays

  datatype Level = Verde | Amarillo | Rojo

  function Urgency(l: Level): nat {
    match l
    case Verde => 0
    case Amarillo => 1
    case Rojo => 2
  }

  datatype Scale = Scale(termDays: nat, verde: (int, int), amarillo: (int, int), rojo: (int, int))

  const EXCEPCIONES_4D := Scale(4, (1, 2), (3, 3), (4, 4))
  const EXCEPCIONES_8D := Scale(8, (1, 5), (6, 7), (8, 8))
  const PODER_3D := Scale(3, (1, 1), (2, 2), (3, 3))
  const APELACION_5D := Scale(10, (1, 5), (6, 9), (10, 10))

  function LevelForDay(s: Scale, day: int): Option<Level> {
    if s.verde.0 <= day <= s.verde.1 then Some(Verde)
    else if s.amarillo.0 <= day <= s.amarillo.1 then Some(Amarillo)
    else if s.rojo.0 <= day <= s.rojo.1 then Some(Rojo)
    else None
  }

  datatype Reading = Reading(termDays: nat, dueDate: int, level: Option<Level>)

  datatype DeadlineType = Excepciones | Poder | Apelacion | Other

  /** Slots of the dedupe key: a known term, or the live terms of an unknown one. */
  datatype Slot = Confirmed(term: nat) | Unconfirmed(live: seq<nat>)

  datatype Assessment = Assessment(day: int, confirmed: bool, readings: seq<Reading>, level: Option<Level>, slot: Slot)

  datatype Assessed = NoSemaforo | InvalidTerm | Assessed(value: Assessment)

  // ----- assessing one day

  ghost function DayOf(cal: Calendar, triggered: int, today: int): int {
    if Count(cal, triggered, today) < 1 then 1 else Count(cal, triggered, today)
  }

  ghost function ReadingOf(cal: Calendar, k: nat, s: Scale, triggered: int, today: int): Reading
    requires Dense(cal, k)
  {
    var due := Due(cal, k, triggered, s.termDays);
    Reading(s.termDays, due, if today > due then None else LevelForDay(s, DayOf(cal, triggered, today)))
  }

  function Worst(a: Option<Level>, b: Option<Level>): Option<Level> {
    if a == None then b else if b == None then a
    else if Urgency(a.value) >= Urgency(b.value) then a else b
  }

  ghost function Single(cal: Calendar, k: nat, s: Scale, triggered: int, today: int, slot: nat): Assessment
    requires Dense(cal, k)
  {
    var r := ReadingOf(cal, k, s, triggered, today);
    Assessment(DayOf(cal, triggered, today), true, [r], r.level, Confirmed(slot))
  }

  /** Both readings of an unconfirmed excepciones plazo. */
  ghost function Both(cal: Calendar, k: nat, triggered: int, today: int): Assessment
    requires Dense(cal, k)
  {
    var r4, r8 := ReadingOf(cal, k, EXCEPCIONES_4D, triggered, today),
      ReadingOf(cal, k, EXCEPCIONES_8D, triggered, today);
    Assessment(DayOf(cal, triggered, today), false, [r4, r8], Worst(r4.level, r8.level),
               Unconfirmed((if r4.level.Some? then [4] else []) + (if r8.level.Some? then [8] else [])))
  }

  ghost function Assess(cal: Calendar, k: nat, t: DeadlineType, triggered: int, today: int,
                        confirmedTerm: Option<int>): Assessed
    requires Dense(cal, k)
  {
    match t
    case Poder => Assessed(Single(cal, k, PODER_3D, triggered, today, 3))
    case Apelacion => Assessed(Single(cal, k, APELACION_5D, triggered, today, 5))
    case Other => NoSemaforo
    case Excepciones =>
      if confirmedTerm == None then Assessed(Both(cal, k, triggered, today))
      else if confirmedTerm.value == 4 then Assessed(Single(cal, k, EXCEPCIONES_4D, triggered, today, 4))
      else if confirmedTerm.value == 8 then Assessed(Single(cal, k, EXCEPCIONES_8D, triggered, today, 8))
      else InvalidTerm
  }

  // ----- one scale over time

  ghost predicate IsScale(s: Scale) {
    s in {EXCEPCIONES_4D, EXCEPCIONES_8D, PODER_3D, APELACION_5D}
  }

  /** The business day reached says on which side of a due date today is. */
  lemma DayAgainstDue(cal: Calendar, k: nat, triggered: int, n: nat, today: int)
    requires Dense(cal, k) && n > 0
    ensures today >= Due(cal, k, triggered, n) <==> Count(cal, triggered, today) >= n
    ensures Count(cal, triggered, today) > n ==> today > Due(cal, k, triggered, n)
  {
    if today >= triggered {
      AddThenElapsed(cal, k, triggered, n, today);
    }
    if Count(cal, triggered, today) > n {
      AddThenElapsed(cal, k, triggered, n, Due(cal, k, triggered, n));
    }
  }

  /**
   * A reading is live exactly until its due date and red exactly on it; while it
   * is live its urgency never goes down.
   */
  lemma ReadingOverTime(cal: Calendar, k: nat, s: Scale, triggered: int, today: int, later: int)
    requires Dense(cal, k) && IsScale(s)
    ensures
      var r, r' := ReadingOf(cal, k, s, triggered, today), ReadingOf(cal, k, s, triggered, later);
      && (r.level.Some? <==> today <= r.dueDate)
      && (r.level == Some(Rojo) <==> today == r.dueDate)
      && (today <= later && r'.level.Some? ==> r.level.Some? && Urgency(r.level.value) <= Urgency(r'.level.value))
  {
    DayAgainstDue(cal, k, triggered, s.termDays, today);
    DayAgainstDue(cal, k, triggered, s.termDays, later);
    if today <= later {
      CountMonotone(cal, triggered, today, later);
    }
  }

  // ----- an unconfirmed plazo over time

  /** Business days gone by, cut at nine once the eight-day reading is over. */
  ghost function Phase(cal: Calendar, k: nat, triggered: int, today: int): int
    requires Dense(cal, k)
  {
    var d4, d8 := Due(cal, k, triggered, 4), Due(cal, k, triggered, 8);
    var day := DayOf(cal, triggered, today);
    if today <= d4 then (if day <= 2 then 0 else if day == 3 then 1 else 2)
    else if today <= d8 then (if day <= 5 then 3 else if day <= 7 then 4 else 5)
    else 6
  }

  /** What a phase shows. */
  function Shown(phase: int): (Slot, Option<Level>) {
    if phase == 0 then (Unconfirmed([4, 8]), Some(Verde))
    else if phase == 1 then (Unconfirmed([4, 8]), Some(Amarillo))
    else if phase == 2 then (Unconfirmed([4, 8]), Some(Rojo))
    else if phase == 3 then (Unconfirmed([8]), Some(Verde))
    else if phase == 4 then (Unconfirmed([8]), Some(Amarillo))
    else if phase == 5 then (Unconfirmed([8]), Some(Rojo))
    else (Unconfirmed([]), None)
  }

  lemma PhaseShows(cal: Calendar, k: nat, triggered: int, today: int)
    requires Dense(cal, k)
    ensures
      var a := Both(cal, k, triggered, today);
      0 <= Phase(cal, k, triggered, today) <= 6 && (a.slot, a.level) == Shown(Phase(cal, k, triggered, today))
  {
    var none: seq<nat> := [];
    assert [4] + [8] == [4, 8] && none + [8] == [8] && none + none == none;
    DayAgainstDue(cal, k, triggered, 4, today);
    DayAgainstDue(cal, k, triggered, 8, today);
    DueOrder(cal, k, triggered);
  }

  lemma DueOrder(cal: Calendar, k: nat, triggered: int)
    requires Dense(cal, k)
    ensures Due(cal, k, triggered, 4) < Due(cal, k, triggered, 8)
  {
    AddThenElapsed(cal, k, triggered, 8, Due(cal, k, triggered, 4));
    AddThenElapsed(cal, k, triggered, 4, Due(cal, k, triggered, 4));
  }

  lemma PhaseMonotone(cal: Calendar, k: nat, triggered: int, today: int, later: int)
    requires Dense(cal, k) && today <= later
    ensures Phase(cal, k, triggered, today) <= Phase(cal, k, triggered, later)
  {
    CountMonotone(cal, triggered, today, later);
    DayAgainstDue(cal, k, triggered, 4, today);
    DayAgainstDue(cal, k, triggered, 8, later);
    DueOrder(cal, k, triggered);
  }

  /**
   * Each (slot, level) pair holds for one contiguous stretch of days, and the
   * pairs come in one fixed order: the dedupe key never comes back, although
   * the level falls from red to green when the four-day reading ends.
   */
  lemma PairsNeverRecur(cal: Calendar, k: nat, triggered: int, a: int, b: int, c: int)
    requires Dense(cal, k) && a <= b <= c
    ensures
      var x, y, z := Both(cal, k, triggered, a), Both(cal, k, triggered, b), Both(cal, k, triggered, c);
      (x.slot, x.level) == (z.slot, z.level) ==> (y.slot, y.level) == (x.slot, x.level)
  {
    PhaseShows(cal, k, triggered, a);
    PhaseShows(cal, k, triggered, b);
    PhaseShows(cal, k, triggered, c);
    PhaseMonotone(cal, k, triggered, a, b);
    PhaseMonotone(cal, k, triggered, b, c);
  }

  /** The alarm is never later than the earliest possible deadline, and an expired plazo is silent. */
  lemma UnconfirmedAlarm(cal: Calendar, k: nat, triggered: int, today: int)
    requires Dense(cal, k)
    ensures
      var a := Both(cal, k, triggered, today);
      var d4, d8 := Due(cal, k, triggered, 4), Due(cal, k, triggered, 8);
      && (a.level == Some(Rojo) <==> today == d4 || today == d8)
      && (a.level == None <==> today > d8)
      && (today == d4 + 1 && today != d8 ==> a.level == Some(Verde) && a.slot == Unconfirmed([8]))
  {
    PhaseShows(cal, k, triggered, today);
    DayAgainstDue(cal, k, triggered, 4, today);
    DayAgainstDue(cal, k, triggered, 8, today);
    DueOrder(cal, k, triggered);
    AddThenElapsed(cal, k, triggered, 4, Due(cal, k, triggered, 4));
    if today == Due(cal, k, triggered, 4) + 1 {
      assert Count(cal, triggered, today) <= 5;
    }
  }

  /** A confirmed plazo shows the same slot throughout and its level never goes down while it is live. */
  lemma ConfirmedNeverDrops(cal: Calendar, k: nat, t: DeadlineType, triggered: int, term: Option<int>, today: int,
                            later: int)
    requires Dense(cal, k) && today <= later
    requires t in {Poder, Apelacion} || (t == Excepciones && term in {Some(4), Some(8)})
    ensures
      var a, b := Assess(cal, k, t, triggered, today, term), Assess(cal, k, t, triggered, later, term);
      && a.Assessed? && b.Assessed? && a.value.slot == b.value.slot
      && (b.value.level.Some? ==> a.value.level.Some? && Urgency(a.value.level.value) <= Urgency(b.value.level.value))
  {
    var s := if t == Poder then PODER_3D else if t == Apelacion then APELACION_5D
             else if term == Some(4) then EXCEPCIONES_4D else EXCEPCIONES_8D;
    ReadingOverTime(cal, k, s, triggered, today, later);
  }

  // ----- the scales

  /**
   * What is known of a term: `n` business days, amarillo from day `yellow`, and
   * the number its dedupe slot carries.
   */
  ghost predicate TermIs(t: DeadlineType, term: Option<int>, n: nat, yellow: nat, slot: nat) {
    match t
    case Poder => n == 3 && yellow == 2 && slot == 3
    case Apelacion => n == 10 && yellow == 6 && slot == 5
    case Excepciones =>
      (term == Some(4) && n == 4 && yellow == 3 && slot == 4) || (term == Some(8) && n == 8 && yellow == 6 && slot == 8)
    case Other => false
  }

  /**
   * A reading of `n` days: due on the `n`th business day; until then rojo on
   * that day, amarillo from business day `yellow` on and verde before it.
   */
  ghost predicate ReadingIs(cal: Calendar, triggered: int, today: int, n: nat, yellow: nat, r: Reading) {
    && r.termDays == n && FallsOn(cal, triggered, n, r.dueDate)
    && r.level ==
       if today > r.dueDate then None
       else if today == r.dueDate then Some(Rojo)
       else if |DaysOf(cal, triggered, today)| >= yellow then Some(Amarillo)
       else Some(Verde)
  }

  lemma ReadingShows(cal: Calendar, k: nat, s: Scale, triggered: int, today: int)
    requires Dense(cal, k) && IsScale(s)
    ensures
      var yellow := if s == PODER_3D then 2 else if s == EXCEPCIONES_4D then 3 else 6;
      var n := if s == PODER_3D then 3 else if s == EXCEPCIONES_4D then 4 else if s == EXCEPCIONES_8D then 8 else 10;
      ReadingIs(cal, triggered, today, n, yellow, ReadingOf(cal, k, s, triggered, today))
  {
    DueIs(cal, k, triggered, s.termDays, Due(cal, k, triggered, s.termDays));
    CountIs(cal, triggered, today);
    DayAgainstDue(cal, k, triggered, s.termDays, today);
    hide DaysOf, Count;
  }

  /** A plazo with one known term shows the reading of that term. */
  lemma KnownTermShows(cal: Calendar, k: nat, t: DeadlineType, triggered: int, today: int, term: Option<int>, n: nat,
                       yellow: nat, slot: nat)
    requires Dense(cal, k) && TermIs(t, term, n, yellow, slot)
    ensures
      match Assess(cal, k, t, triggered, today, term)
      case Assessed(a) =>
        && |a.readings| == 1 && ReadingIs(cal, triggered, today, n, yellow, a.readings[0])
        && a.level == a.readings[0].level && a.confirmed && a.slot == Confirmed(slot)
        && a.day == if |DaysOf(cal, triggered, today)| < 1 then 1 else |DaysOf(cal, triggered, today)|
      case _ => false
  {
    ReadingShows(cal, k, PODER_3D, triggered, today);
    ReadingShows(cal, k, APELACION_5D, triggered, today);
    ReadingShows(cal, k, EXCEPCIONES_4D, triggered, today);
    ReadingShows(cal, k, EXCEPCIONES_8D, triggered, today);
    CountIs(cal, triggered, today);
    hide ReadingIs, ReadingOf, DaysOf, Count;
  }

  /**
   * Without a confirmed term, excepciones show the readings of four and of
   * eight days, the most urgent of their levels, and the terms still alive.
   */
  lemma UnknownTermShows(cal: Calendar, k: nat, triggered: int, today: int)
    requires Dense(cal, k)
    ensures
      match Assess(cal, k, Excepciones, triggered, today, None)
      case Assessed(a) =>
        && |a.readings| == 2 && !a.confirmed
        && ReadingIs(cal, triggered, today, 4, 3, a.readings[0])
        && ReadingIs(cal, triggered, today, 8, 6, a.readings[1])
        && a.level == (if a.readings[0].level.Some? then a.readings[0].level else a.readings[1].level)
        && a.slot == Unconfirmed(if a.readings[0].level.Some? then [4, 8]
                                 else if a.readings[1].level.Some? then [8] else [])
        && a.day == if |DaysOf(cal, triggered, today)| < 1 then 1 else |DaysOf(cal, triggered, today)|
      case _ => false
  {
    var none: seq<nat> := [];
    assert [4] + [8] == [4, 8] && none + [8] == [8] && none + none == none;
    ReadingShows(cal, k, EXCEPCIONES_4D, triggered, today);
    ReadingShows(cal, k, EXCEPCIONES_8D, triggered, today);
    CountIs(cal, triggered, today);
    DueOrder(cal, k, triggered);
    DayAgainstDue(cal, k, triggered, 4, today);
    DayAgainstDue(cal, k, triggered, 8, today);
    hide DaysOf, Count;
  }

  /** No other term is accepted for excepciones, and no other type has a semaforo. */
  lemma NothingElseShows(cal: Calendar, k: nat, t: DeadlineType, triggered: int, today: int, term: Option<int>)
    requires Dense(cal, k)
    ensures Assess(cal, k, t, triggered, today, term) == InvalidTerm <==>
      (t == Excepciones && term.Some? && term.value != 4 && term.value != 8)
    ensures Assess(cal, k, t, triggered, today, term) == NoSemaforo <==> t == Other
  {}
}
