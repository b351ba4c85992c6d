/**
 * Chilean business days. A date is its proleptic ordinal, so Sunday is a
 * multiple of 7 and Saturday the day before; the holiday table is a parameter.
 */
module BusinessDays {
  import opened Options

  datatype Calendar = Calendar(feriado: int -> bool)

  predicate Sunday(d: int) { d % 7 == 0 }

  predicate Saturday(d: int) { d % 7 == 6 }

  /** Saturday is a business day; only Sundays and feriados are not. */
  predicate Habil(cal: Calendar, d: int) {
    !Sunday(d) && !cal.feriado(d)
  }

  // ----- the assumption on the holiday table

  ghost predicate HasNext(cal: Calendar, k: nat, d: int) {
    exists i :: d < i <= d + k && Habil(cal, i)
  }

  ghost predicate HasPrevious(cal: Calendar, k: nat, d: int) {
    exists i :: d - k <= i < d && Habil(cal, i) && !Saturday(i)
  }

  /** The `k` days after any date hold a business day, and the `k` days before it one that is no Saturday. */
  ghost predicate Dense(cal: Calendar, k: nat) {
    forall d :: HasNext(cal, k, d) && HasPrevious(cal, k, d)
  }

  // ----- specification

  /** Business days in `(start, end]`. */
  function Count(cal: Calendar, start: int, end: int): nat
    decreases end - start
  {
    if end <= start then 0 else Count(cal, start, end - 1) + (if Habil(cal, end) then 1 else 0)
  }

  /** `d` is the day on which the `n`th business day after `start` falls. */
  ghost predicate IsDue(cal: Calendar, start: int, n: nat, d: int) {
    if n == 0 then d == start else d > start && Habil(cal, d) && Count(cal, start, d) == n
  }

  /** The dates of `(start, end]` that are neither a Sunday nor a feriado. */
  ghost function DaysOf(cal: Calendar, start: int, end: int): set<int> {
    set d | start < d <= end && d % 7 != 0 && !cal.feriado(d)
  }

  /** Counting day by day counts those dates, Saturdays among them. */
  lemma {:induction false} CountIs(cal: Calendar, start: int, end: int)
    ensures Count(cal, start, end) == |DaysOf(cal, start, end)|
    decreases end - start
  {
    if end <= start {
      assert DaysOf(cal, start, end) == {};
    } else {
      CountIs(cal, start, end - 1);
      if end % 7 != 0 && !cal.feriado(end) {
        assert DaysOf(cal, start, end) == DaysOf(cal, start, end - 1) + {end};
      } else {
        assert DaysOf(cal, start, end) == DaysOf(cal, start, end - 1);
      }
    }
  }

  /** `d` is the `n`th of the dates after `start` that are neither a Sunday nor a feriado. */
  ghost predicate FallsOn(cal: Calendar, start: int, n: nat, d: int) {
    d > start && d % 7 != 0 && !cal.feriado(d) && |DaysOf(cal, start, d)| == n
  }

  lemma {:induction false} CountSplit(cal: Calendar, a: int, b: int, c: int)
    requires a <= b <= c
    ensures Count(cal, a, c) == Count(cal, a, b) + Count(cal, b, c)
    decreases c - b
  {
    if b < c {
      CountSplit(cal, a, b, c - 1);
    }
  }

  lemma CountMonotone(cal: Calendar, start: int, a: int, b: int)
    requires a <= b
    ensures Count(cal, start, a) <= Count(cal, start, b)
  {
    if start <= a {
      CountSplit(cal, start, a, b);
    }
  }

  /** The due day is the least date by which `n` business days have gone by. */
  lemma DueIsLeast(cal: Calendar, start: int, n: nat, due: int, d: int)
    requires IsDue(cal, start, n, due) && d >= start
    ensures Count(cal, start, d) >= n <==> d >= due
  {
    if d >= due {
      CountMonotone(cal, start, due, d);
    } else {
      CountMonotone(cal, start, d, due - 1);
    }
  }

  lemma DueUnique(cal: Calendar, start: int, n: nat, a: int, b: int)
    requires IsDue(cal, start, n, a) && IsDue(cal, start, n, b)
    ensures a == b
  {
    DueIsLeast(cal, start, n, a, b);
    DueIsLeast(cal, start, n, b, a);
  }

  lemma NextHabil(cal: Calendar, k: nat, d: int) returns (next: int)
    requires Dense(cal, k)
    ensures IsDue(cal, d, 1, next) && next <= d + k
  {
    assert HasNext(cal, k, d);
    var i :| d < i <= d + k && Habil(cal, i);
    next := d + 1;
    while !Habil(cal, next)
      invariant d < next <= i && Count(cal, d, next - 1) == 0
      decreases i - next
    {
      next := next + 1;
    }
  }

  lemma DueAdd(cal: Calendar, start: int, m: nat, mid: int, n: nat, end: int)
    requires IsDue(cal, start, m, mid) && IsDue(cal, mid, n, end)
    ensures IsDue(cal, start, m + n, end)
  {
    if n > 0 && m > 0 {
      CountSplit(cal, start, mid, end);
    }
  }

  lemma {:induction false} DueExists(cal: Calendar, k: nat, start: int, n: nat) returns (due: int)
    requires Dense(cal, k)
    ensures IsDue(cal, start, n, due)
  {
    if n == 0 {
      due := start;
    } else {
      var before := DueExists(cal, k, start, n - 1);
      due := NextHabil(cal, k, before);
      DueAdd(cal, start, n - 1, before, 1, due);
    }
  }

  /** The date `n` business days after `start`. */
  ghost function Due(cal: Calendar, k: nat, start: int, n: nat): (due: int)
    requires Dense(cal, k)
    ensures IsDue(cal, start, n, due)
  {
    assert exists d :: IsDue(cal, start, n, d) by {
      var d := DueExists(cal, k, start, n);
    }
    var d :| IsDue(cal, start, n, d);
    d
  }

  lemma DueIs(cal: Calendar, k: nat, start: int, n: nat, d: int)
    requires Dense(cal, k) && n > 0
    ensures d == Due(cal, k, start, n) <==> FallsOn(cal, start, n, d)
  {
    CountIs(cal, start, d);
    if FallsOn(cal, start, n, d) {
      DueUnique(cal, start, n, d, Due(cal, k, start, n));
    }
  }

  // ----- the operations

  /** Raises for `n <= 0`; otherwise walks forward until `n` business days are counted. */
  method AddBusinessDays(cal: Calendar, ghost k: nat, start: int, n: int) returns (r: Option<int>)
    requires Dense(cal, k)
    ensures r.None? <==> n <= 0
    ensures r.Some? ==> r.value == Due(cal, k, start, n) && FallsOn(cal, start, n, r.value)
  {
    if n <= 0 {
      return None;
    }
    var current, counted := start, 0;
    while counted < n
      invariant 0 <= counted <= n && current >= start && Count(cal, start, current) == counted
      invariant counted > 0 && counted == n ==> Habil(cal, current)
      invariant counted == n ==> IsDue(cal, start, n, current)
      invariant counted < n ==> current < Due(cal, k, start, n)
      decreases Due(cal, k, start, n) - current
    {
      current := current + 1;
      if Habil(cal, current) {
        counted := counted + 1;
      }
      DueIsLeast(cal, start, n, Due(cal, k, start, n), current);
    }
    DueUnique(cal, start, n, current, Due(cal, k, start, n));
    DueIs(cal, k, start, n, current);
    r := Some(current);
  }

  /** The last published business day strictly before `d`. */
  ghost predicate IsPrevious(cal: Calendar, d: int, includeSaturday: bool, p: int) {
    && p < d && Published(cal, includeSaturday, p)
    && forall i :: p < i < d ==> !Published(cal, includeSaturday, i)
  }

  predicate Published(cal: Calendar, includeSaturday: bool, d: int) {
    Habil(cal, d) && (includeSaturday || !Saturday(d))
  }

  method PreviousBusinessDay(cal: Calendar, ghost k: nat, d: int, includeSaturday: bool) returns (p: int)
    requires Dense(cal, k)
    ensures IsPrevious(cal, d, includeSaturday, p)
    ensures p < d && p % 7 != 0 && !cal.feriado(p) && (includeSaturday || p % 7 != 6)
    ensures forall i :: p < i < d ==> i % 7 == 0 || cal.feriado(i) || (!includeSaturday && i % 7 == 6)
  {
    assert HasPrevious(cal, k, d);
    ghost var i :| d - k <= i < d && Habil(cal, i) && !Saturday(i);
    p := d - 1;
    while !Habil(cal, p) || (!includeSaturday && Saturday(p))
      invariant i <= p < d
      invariant forall j :: p < j < d ==> !Published(cal, includeSaturday, j)
      decreases p - i
    {
      assert !Published(cal, includeSaturday, p);
      p := p - 1;
    }
    forall j | p < j < d ensures j % 7 == 0 || cal.feriado(j) || (!includeSaturday && j % 7 == 6) {
      assert !Published(cal, includeSaturday, j);
    }
  }

  /** The published business days of `(after, upto]`, ascending. */
  method BusinessDaysAfter(cal: Calendar, after: int, upto: int, includeSaturday: bool) returns (days: seq<int>)
    ensures forall i, j :: 0 <= i < j < |days| ==> days[i] < days[j]
    ensures forall d :: d in days <==> after < d <= upto && Published(cal, includeSaturday, d)
    ensures forall d :: d in days <==>
              (after < d <= upto && d % 7 != 0 && !cal.feriado(d) && (includeSaturday || d % 7 != 6))
    ensures includeSaturday ==> |days| == Count(cal, after, upto)
  {
    days := [];
    var current := after + 1;
    while current <= upto
      invariant after < current && (if after < upto then current <= upto + 1 else current == after + 1)
      invariant forall d :: d in days <==> after < d < current && Published(cal, includeSaturday, d)
      invariant forall i, j :: 0 <= i < j < |days| ==> days[i] < days[j]
      invariant includeSaturday ==> |days| == Count(cal, after, current - 1)
    {
      assert forall i :: 0 <= i < |days| ==> days[i] in days;
      if Habil(cal, current) && (includeSaturday || !Saturday(current)) {
        days := days + [current];
      }
      current := current + 1;
    }
  }

  /** The loop both counting functions run. */
  method BusinessDaysElapsed(cal: Calendar, start: int, end: int) returns (count: nat)
    ensures count == Count(cal, start, end) == |DaysOf(cal, start, end)|
  {
    CountIs(cal, start, end);
    count := 0;
    var current := start;
    while current < end
      invariant start <= current && (if start <= end then current <= end else current == start)
      invariant count == Count(cal, start, current)
    {
      current := current + 1;
      if Habil(cal, current) {
        count := count + 1;
      }
    }
  }

  function Remaining(cal: Calendar, due: int, today: int): int {
    if due >= today then Count(cal, today, due) else 0 - Count(cal, due, today)
  }

  method CountBusinessDaysRemaining(cal: Calendar, due: int, today: int) returns (r: int)
    ensures r == Remaining(cal, due, today)
    ensures r == if due >= today then |DaysOf(cal, today, due)| else -|DaysOf(cal, due, today)|
  {
    CountIs(cal, today, due);
    CountIs(cal, due, today);
    if due == today {
      return 0;
    }
    if due > today {
      var count := BusinessDaysElapsed(cal, today, due);
      return count;
    }
    var count: int := BusinessDaysElapsed(cal, due, today);
    return -count;
  }

  // ----- the algebra

  /** Adding and counting are inverse, and the due day is the least with that count. */
  lemma AddThenElapsed(cal: Calendar, k: nat, start: int, n: nat, d: int)
    requires Dense(cal, k)
    ensures Count(cal, start, Due(cal, k, start, n)) == n
    ensures d >= start ==> (Count(cal, start, d) >= n <==> d >= Due(cal, k, start, n))
  {
    if d >= start {
      DueIsLeast(cal, start, n, Due(cal, k, start, n), d);
    }
  }

  /** Terms add up. */
  lemma AddInStages(cal: Calendar, k: nat, start: int, m: nat, n: nat)
    requires Dense(cal, k)
    ensures Due(cal, k, Due(cal, k, start, m), n) == Due(cal, k, start, m + n)
  {
    var mid := Due(cal, k, start, m);
    var end := Due(cal, k, mid, n);
    DueAdd(cal, start, m, mid, n, end);
    DueUnique(cal, start, m + n, end, Due(cal, k, start, m + n));
  }

  /** A later start is never due earlier; a longer term is due strictly later. */
  lemma AddMonotone(cal: Calendar, k: nat, a: int, b: int, n: nat)
    requires Dense(cal, k) && a <= b
    ensures Due(cal, k, a, n) <= Due(cal, k, b, n)
    ensures Due(cal, k, a, n) < Due(cal, k, a, n + 1)
  {
    var db := Due(cal, k, b, n);
    CountSplit(cal, a, b, db);
    DueIsLeast(cal, a, n, Due(cal, k, a, n), db);
    AddThenElapsed(cal, k, a, n + 1, Due(cal, k, a, n));
  }

  /** Remaining days are antisymmetric, and add up along any three dates. */
  lemma RemainingAntisymmetric(cal: Calendar, a: int, b: int, c: int)
    ensures Remaining(cal, a, b) == -Remaining(cal, b, a)
    ensures Remaining(cal, a, b) + Remaining(cal, b, c) == Remaining(cal, a, c)
  {
    var lo := if a <= b then if a <= c then a else c else if b <= c then b else c;
    forall x, y | lo <= x <= y && (x == a || x == b || x == c) && (y == a || y == b || y == c)
      ensures Count(cal, x, y) == Count(cal, lo, y) - Count(cal, lo, x)
    {
      CountSplit(cal, lo, x, y);
    }
  }
}
