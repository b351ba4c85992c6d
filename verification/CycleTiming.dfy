/**
 * Exclusive time accounting of a worker cycle: a stack of buckets of which
 * only the top one is charged.
 */
module CycleTiming {
  import opened Options

  type Duration = d: real | d >= 0.0 witness 0.0

  const BUCKET_ORDER := ["listing", "login", "detail", "documents", "email", "waits", "maintenance"]
  const OTHER := "other"

  datatype Timer = Timer(startedAt: real, totals: map<string, real>, stack: seq<string>, mark: real)

  function Get(m: map<string, real>, bucket: string): real {
    if bucket in m then m[bucket] else 0.0
  }

  function Top(stack: seq<string>): Option<string> {
    if stack == [] then None else Some(stack[|stack| - 1])
  }

  // ----- the timer's operations

  function Charged(t: Timer, now: real): Timer {
    match Top(t.stack)
    case None => t.(mark := now)
    case Some(bucket) => t.(totals := t.totals[bucket := Get(t.totals, bucket) + (now - t.mark)], mark := now)
  }

  function Pushed(t: Timer, bucket: string, now: real): Timer {
    var c := Charged(t, now);
    c.(stack := c.stack + [bucket])
  }

  function Popped(t: Timer, now: real): Timer {
    var c := Charged(t, now);
    if c.stack == [] then c else c.(stack := c.stack[..|c.stack| - 1])
  }

  function Positive(seconds: real): Duration { if seconds > 0.0 then seconds else 0.0 }

  function Added(t: Timer, bucket: string, seconds: real): Timer {
    t.(totals := t.totals[bucket := Get(t.totals, bucket) + Positive(seconds)])
  }

  // ----- what a worker does

  /** Instrumented work. `Timed` is a `with timed(...)` block, left normally or by an exception. */
  datatype Work =
    | Idle
    | Spend(seconds: Duration)
    | Raise
    | Credit(bucket: string, measured: real)
    | Then(first: Work, second: Work)
    | Timed(bucket: string, body: Work)
    | Try(body: Work, handler: Work)

  datatype Outcome = Outcome(timer: Timer, now: real, raised: bool)

  /** Doing the work on a timer. */
  function Perform(w: Work, t: Timer, now: real): Outcome {
    match w
    case Idle => Outcome(t, now, false)
    case Spend(seconds) => Outcome(t, now + seconds, false)
    case Raise => Outcome(t, now, true)
    case Credit(bucket, seconds) => Outcome(Added(t, bucket, seconds), now, false)
    case Then(first, second) =>
      var o := Perform(first, t, now);
      if o.raised then o else Perform(second, o.timer, o.now)
    case Timed(bucket, body) =>
      var o := Perform(body, Pushed(t, bucket, now), now);
      o.(timer := Popped(o.timer, o.now))
    case Try(body, handler) =>
      var o := Perform(body, t, now);
      if o.raised then Perform(handler, o.timer, o.now) else o
  }

  // ----- the reference: who owns each stretch of time

  /** A stretch of time with the innermost enclosing bucket, or time credited from elsewhere. */
  datatype Entry = Spent(owner: Option<string>, seconds: Duration) | Credited(bucket: string, seconds: Duration)

  datatype Timeline = Timeline(entries: seq<Entry>, raised: bool)

  /** The time line of the work inside bucket `owner`, read off the nesting of the blocks. */
  function TimelineOf(w: Work, owner: Option<string>): Timeline {
    match w
    case Idle => Timeline([], false)
    case Spend(seconds) => Timeline([Spent(owner, seconds)], false)
    case Raise => Timeline([], true)
    case Credit(bucket, seconds) => Timeline([Credited(bucket, Positive(seconds))], false)
    case Then(first, second) =>
      var a := TimelineOf(first, owner);
      if a.raised then a else
        var b := TimelineOf(second, owner);
        Timeline(a.entries + b.entries, b.raised)
    case Timed(bucket, body) => TimelineOf(body, Some(bucket))
    case Try(body, handler) =>
      var a := TimelineOf(body, owner);
      if !a.raised then a else
        var b := TimelineOf(handler, owner);
        Timeline(a.entries + b.entries, b.raised)
  }

  /** Time owned by `owner`. */
  function OwnedBy(entries: seq<Entry>, owner: Option<string>): Duration {
    if entries == [] then 0.0 else
      OwnedBy(entries[..|entries| - 1], owner) + OwnedByEntry(entries[|entries| - 1], owner)
  }

  function OwnedByEntry(e: Entry, owner: Option<string>): Duration {
    if e.Spent? && e.owner == owner then e.seconds else 0.0
  }

  function CreditedTo(entries: seq<Entry>, bucket: string): Duration {
    if entries == [] then 0.0 else
      var e := entries[|entries| - 1];
      CreditedTo(entries[..|entries| - 1], bucket) + (if e.Credited? && e.bucket == bucket then e.seconds else 0.0)
  }

  /** All the time that passed, and all the time credited. */
  function Passed(entries: seq<Entry>): Duration {
    if entries == [] then 0.0 else
      var e := entries[|entries| - 1];
      Passed(entries[..|entries| - 1]) + (if e.Spent? then e.seconds else 0.0)
  }

  function CreditedInAll(entries: seq<Entry>): Duration {
    if entries == [] then 0.0 else
      var e := entries[|entries| - 1];
      CreditedInAll(entries[..|entries| - 1]) + (if e.Credited? then e.seconds else 0.0)
  }

  lemma {:induction false} EntriesAdd(a: seq<Entry>, b: seq<Entry>, owner: Option<string>, bucket: string)
    ensures OwnedBy(a + b, owner) == OwnedBy(a, owner) + OwnedBy(b, owner)
    ensures CreditedTo(a + b, bucket) == CreditedTo(a, bucket) + CreditedTo(b, bucket)
    ensures Passed(a + b) == Passed(a) + Passed(b)
    ensures CreditedInAll(a + b) == CreditedInAll(a) + CreditedInAll(b)
  {
    if b == [] {
      assert a + b == a;
    } else {
      var n := |b| - 1;
      EntriesAdd(a, b[..n], owner, bucket);
      assert (a + b)[..|a + b| - 1] == a + b[..n] && (a + b)[|a + b| - 1] == b[n];
    }
  }

  // ----- exclusive accounting

  /** What `bucket` has been charged, the stretch still running included. */
  function Accrued(t: Timer, now: real, bucket: string): real {
    Get(t.totals, bucket) + (if Top(t.stack) == Some(bucket) then now - t.mark else 0.0)
  }

  /** A push or a pop moves no time between buckets. */
  lemma SwitchesKeepAccrued(t: Timer, b: string, now: real, bucket: string)
    ensures Accrued(Pushed(t, b, now), now, bucket) == Accrued(t, now, bucket)
    ensures Accrued(Popped(t, now), now, bucket) == Accrued(t, now, bucket)
  {}

  /**
   * From `(t, now)` to outcome `o`: the stack is restored, the clock advances
   * by the time of the line, and `bucket` is charged exactly the time it owned
   * on the line, plus its credits.
   */
  ghost predicate AccountsFor(t: Timer, now: real, o: Outcome, line: Timeline, bucket: string) {
    && o.timer.stack == t.stack && o.timer.startedAt == t.startedAt && o.raised == line.raised
    && o.now == now + Passed(line.entries)
    && Accrued(o.timer, o.now, bucket)
       == Accrued(t, now, bucket) + OwnedBy(line.entries, Some(bucket)) + CreditedTo(line.entries, bucket)
  }

  lemma OneEntry(e: Entry, bucket: string)
    ensures Passed([e]) == (if e.Spent? then e.seconds else 0.0)
    ensures OwnedBy([e], Some(bucket)) == OwnedByEntry(e, Some(bucket))
    ensures CreditedTo([e], bucket) == (if e.Credited? && e.bucket == bucket then e.seconds else 0.0)
  {
    assert [e][..0] == [];
  }

  lemma SpendAccounts(t: Timer, now: real, seconds: Duration, bucket: string)
    ensures AccountsFor(t, now, Outcome(t, now + seconds, false), Timeline([Spent(Top(t.stack), seconds)], false),
      bucket)
  {
    OneEntry(Spent(Top(t.stack), seconds), bucket);
  }

  lemma CreditAccounts(t: Timer, now: real, b: string, measured: real, bucket: string)
    ensures AccountsFor(t, now, Outcome(Added(t, b, measured), now, false),
      Timeline([Credited(b, Positive(measured))], false), bucket)
  {
    OneEntry(Credited(b, Positive(measured)), bucket);
  }

  lemma InTurnAccounts(t: Timer, now: real, o: Outcome, a: Timeline, p: Outcome, b: Timeline, bucket: string)
    requires AccountsFor(t, now, o, a, bucket) && AccountsFor(o.timer, o.now, p, b, bucket)
    ensures AccountsFor(t, now, p, Timeline(a.entries + b.entries, b.raised), bucket)
  {
    EntriesAdd(a.entries, b.entries, Some(bucket), bucket);
  }

  lemma TimedAccounts(t: Timer, now: real, b: string, o: Outcome, line: Timeline, bucket: string)
    requires AccountsFor(Pushed(t, b, now), now, o, line, bucket)
    ensures AccountsFor(t, now, o.(timer := Popped(o.timer, o.now)), line, bucket)
  {
    SwitchesKeepAccrued(t, b, now, bucket);
    SwitchesKeepAccrued(o.timer, b, o.now, bucket);
    assert (t.stack + [b])[..|t.stack|] == t.stack;
  }

  /**
   * Exclusive accounting: whatever the work, and however it ends, each bucket
   * is charged exactly the time it was the innermost one.
   */
  lemma {:induction false} ExclusiveAccounting(w: Work, t: Timer, now: real, bucket: string)
    ensures AccountsFor(t, now, Perform(w, t, now), TimelineOf(w, Top(t.stack)), bucket)
    decreases w
  {
    match w
    case Idle =>
    case Spend(seconds) => SpendAccounts(t, now, seconds, bucket);
    case Raise =>
    case Credit(b, measured) => CreditAccounts(t, now, b, measured, bucket);
    case Then(first, second) =>
      var o := Perform(first, t, now);
      ExclusiveAccounting(first, t, now, bucket);
      ExclusiveAccounting(second, o.timer, o.now, bucket);
      InTurnAccounts(t, now, o, TimelineOf(first, Top(t.stack)), Perform(second, o.timer, o.now),
        TimelineOf(second, Top(t.stack)), bucket);
    case Timed(b, body) =>
      var inner := Pushed(t, b, now);
      ExclusiveAccounting(body, inner, now, bucket);
      TimedAccounts(t, now, b, Perform(body, inner, now), TimelineOf(body, Some(b)), bucket);
    case Try(body, handler) =>
      var o := Perform(body, t, now);
      ExclusiveAccounting(body, t, now, bucket);
      ExclusiveAccounting(handler, o.timer, o.now, bucket);
      InTurnAccounts(t, now, o, TimelineOf(body, Top(t.stack)), Perform(handler, o.timer, o.now),
        TimelineOf(handler, Top(t.stack)), bucket);
  }

  // ----- sums over buckets

  ghost function Pick(m: map<string, real>): (bucket: string)
    requires m != map[]
    ensures bucket in m
  {
    assert exists b :: b in m;
    var b :| b in m;
    b
  }

  ghost function Sum(m: map<string, real>): real
    decreases |m|
  {
    if m == map[] then 0.0 else var b := Pick(m); m[b] + Sum(m - {b})
  }

  /** The sum does not depend on the order the buckets are taken in. */
  lemma {:induction false} SumWithout(m: map<string, real>, bucket: string)
    requires bucket in m
    ensures Sum(m) == m[bucket] + Sum(m - {bucket})
    decreases |m|
  {
    var b := Pick(m);
    if b != bucket {
      SumWithout(m - {b}, bucket);
      SumWithout(m - {bucket}, b);
      assert m - {b} - {bucket} == m - {bucket} - {b};
    }
  }

  lemma SumUpdated(m: map<string, real>, bucket: string, x: real)
    ensures Sum(m[bucket := x]) == Sum(m) - Get(m, bucket) + x
  {
    SumWithout(m[bucket := x], bucket);
    if bucket in m {
      SumWithout(m, bucket);
      assert m[bucket := x] - {bucket} == m - {bucket};
    } else {
      assert m[bucket := x] - {bucket} == m;
    }
  }

  /** Everything charged so far, the stretch still running included. */
  ghost function Measured(t: Timer, now: real): real {
    Sum(t.totals) + (if t.stack == [] then 0.0 else now - t.mark)
  }

  lemma SwitchesKeepMeasured(t: Timer, bucket: string, now: real)
    ensures Measured(Pushed(t, bucket, now), now) == Measured(t, now)
    ensures Measured(Popped(t, now), now) == Measured(t, now)
  {
    if t.stack != [] {
      var b := t.stack[|t.stack| - 1];
      SumUpdated(t.totals, b, Get(t.totals, b) + (now - t.mark));
    }
  }

  /** The time some bucket was open, plus all the credits. */
  function ChargesOf(entries: seq<Entry>): real {
    Passed(entries) - OwnedBy(entries, None) + CreditedInAll(entries)
  }

  lemma ChargesOfOne(e: Entry)
    ensures ChargesOf([e]) == if e.Spent? && e.owner == None then 0.0 else e.seconds
  {
    assert [e][..0] == [];
    assert Passed([e][..0]) == 0.0 && OwnedBy([e][..0], None) == 0.0 && CreditedInAll([e][..0]) == 0.0;
  }

  lemma ChargesAdd(a: seq<Entry>, b: seq<Entry>)
    ensures ChargesOf(a + b) == ChargesOf(a) + ChargesOf(b)
  {
    EntriesAdd(a, b, None, OTHER);
  }

  lemma StackRestored(w: Work, t: Timer, now: real)
    ensures Perform(w, t, now).timer.stack == t.stack && Perform(w, t, now).raised == TimelineOf(w, Top(t.stack)).raised
  {
    ExclusiveAccounting(w, t, now, OTHER);
  }

  /** All buckets together are charged the time some bucket was open, plus all the credits. */
  lemma {:induction false} MeasuredInAll(w: Work, t: Timer, now: real)
    ensures
      var o := Perform(w, t, now);
      Measured(o.timer, o.now) == Measured(t, now) + ChargesOf(TimelineOf(w, Top(t.stack)).entries)
    decreases w
  {
    match w
    case Idle =>
    case Spend(seconds) => ChargesOfOne(Spent(Top(t.stack), seconds));
    case Raise =>
    case Credit(b, seconds) =>
      ChargesOfOne(Credited(b, Positive(seconds)));
      SumUpdated(t.totals, b, Get(t.totals, b) + Positive(seconds));
    case Then(first, second) =>
      var o := Perform(first, t, now);
      StackRestored(first, t, now);
      MeasuredInAll(first, t, now);
      MeasuredInAll(second, o.timer, o.now);
      ChargesAdd(TimelineOf(first, Top(t.stack)).entries, TimelineOf(second, Top(t.stack)).entries);
    case Timed(b, body) =>
      var inner := Pushed(t, b, now);
      var o := Perform(body, inner, now);
      SwitchesKeepMeasured(t, b, now);
      MeasuredInAll(body, inner, now);
      SwitchesKeepMeasured(o.timer, b, o.now);
    case Try(body, handler) =>
      var o := Perform(body, t, now);
      StackRestored(body, t, now);
      MeasuredInAll(body, t, now);
      MeasuredInAll(handler, o.timer, o.now);
      ChargesAdd(TimelineOf(body, Top(t.stack)).entries, TimelineOf(handler, Top(t.stack)).entries);
  }

  // ----- the breakdown

  function Order(): set<string> { set i | 0 <= i < |BUCKET_ORDER| :: BUCKET_ORDER[i] }

  /** Every known or charged bucket with its total. */
  function Listed(totals: map<string, real>): map<string, real> {
    map b | b in Order() + totals.Keys :: Get(totals, b)
  }

  ghost function BreakdownOf(t: Timer, now: real): map<string, real> {
    Listed(t.totals)[OTHER := Positive(now - t.startedAt - Sum(Listed(t.totals)))]
  }

  /** Buckets that were never charged add nothing. */
  lemma {:induction false} SumPadded(big: map<string, real>, small: map<string, real>)
    requires small.Keys <= big.Keys && forall b :: b in big ==> big[b] == Get(small, b)
    ensures Sum(big) == Sum(small)
    decreases |big|
  {
    if b :| b in big && b !in small {
      SumWithout(big, b);
      SumPadded(big - {b}, small);
    } else {
      assert big == small;
    }
  }

  /**
   * The breakdown adds up to the elapsed time exactly when no more was
   * measured than elapsed and nothing was charged to a bucket called "other",
   * whose total the remainder replaces; or when too much was measured by
   * exactly what was charged to it.
   */
  lemma BreakdownAddsUpIff(t: Timer, now: real)
    ensures
      var elapsed, measured, other := now - t.startedAt, Sum(t.totals), Get(t.totals, OTHER);
      Sum(BreakdownOf(t, now)) == elapsed <==> if measured <= elapsed then other == 0.0 else measured - other == elapsed
  {
    var listed := Listed(t.totals);
    SumPadded(listed, t.totals);
    SumUpdated(listed, OTHER, Positive(now - t.startedAt - Sum(listed)));
  }

  function Fresh(now: real): Timer { Timer(now, map[], [], now) }

  /**
   * A whole cycle: every bucket's total is the time it was the innermost one
   * plus its credits, and as long as no more is credited than the time spent
   * outside every bucket, the breakdown adds up to the elapsed time exactly
   * when the bucket "other" got nothing.
   */
  lemma CycleAccounting(w: Work, start: real, bucket: string)
    ensures
      var o, line := Perform(w, Fresh(start), start), TimelineOf(w, None).entries;
      && o.timer.startedAt == start && o.now - start == Passed(line)
      && Get(o.timer.totals, bucket) == OwnedBy(line, Some(bucket)) + CreditedTo(line, bucket)
      && (CreditedInAll(line) <= OwnedBy(line, None) ==>
            (Sum(BreakdownOf(o.timer, o.now)) == Passed(line)
             <==> OwnedBy(line, Some(OTHER)) == 0.0 && CreditedTo(line, OTHER) == 0.0))
  {
    ExclusiveAccounting(w, Fresh(start), start, bucket);
    ExclusiveAccounting(w, Fresh(start), start, OTHER);
    MeasuredInAll(w, Fresh(start), start);
    var o := Perform(w, Fresh(start), start);
    BreakdownAddsUpIff(o.timer, o.now);
  }

  /**
   * The breakdown of a cycle, bucket by bucket: the seven printed ones are
   * always there, every bucket but "other" shows the time it was the innermost
   * one plus its credits, and "other" the time outside every bucket less what
   * was credited, never below zero.
   */
  lemma CycleBreakdown(w: Work, start: real, bucket: string)
    ensures
      var o, line := Perform(w, Fresh(start), start), TimelineOf(w, None).entries;
      var shown := BreakdownOf(o.timer, o.now);
      var idle := OwnedBy(line, None) - CreditedInAll(line);
      && (bucket in {"listing", "login", "detail", "documents", "email", "waits", "maintenance", "other"} ==>
            bucket in shown)
      && (bucket != "other" ==>
            (if bucket in shown then shown[bucket] else 0.0) == OwnedBy(line, Some(bucket)) + CreditedTo(line, bucket))
      && shown["other"] == if idle > 0.0 then idle else 0.0
  {
    var o := Perform(w, Fresh(start), start);
    CycleAccounting(w, start, bucket);
    MeasuredInAll(w, Fresh(start), start);
    StackRestored(w, Fresh(start), start);
    SumPadded(Listed(o.timer.totals), o.timer.totals);
    hide Perform, TimelineOf, OwnedBy, CreditedTo, CreditedInAll, Passed, Sum;
    assert BUCKET_ORDER[0] == "listing" && BUCKET_ORDER[1] == "login" && BUCKET_ORDER[2] == "detail"
      && BUCKET_ORDER[3] == "documents" && BUCKET_ORDER[4] == "email" && BUCKET_ORDER[5] == "waits"
      && BUCKET_ORDER[6] == "maintenance";
  }

  /** A credit gives its bucket the seconds measured elsewhere, a negative number counting as none. */
  lemma CreditAdds(b: string, measured: real, t: Timer, now: real, bucket: string)
    ensures
      var o := Perform(Credit(b, measured), t, now);
      var added := if bucket == b && measured > 0.0 then measured else 0.0;
      && Get(o.timer.totals, bucket) == Get(t.totals, bucket) + added && o.timer.stack == t.stack && o.now == now
      && CreditedTo(TimelineOf(Credit(b, measured), Top(t.stack)).entries, bucket) == added
  {
    assert [Credited(b, Positive(measured))][..0] == [];
  }

  predicate CreditsNothing(w: Work) {
    match w
    case Idle => true
    case Spend(_) => true
    case Raise => true
    case Credit(_, _) => false
    case Then(first, second) => CreditsNothing(first) && CreditsNothing(second)
    case Timed(_, body) => CreditsNothing(body)
    case Try(body, handler) => CreditsNothing(body) && CreditsNothing(handler)
  }

  lemma {:induction false} NoCredits(w: Work, owner: Option<string>, bucket: string)
    requires CreditsNothing(w)
    ensures CreditedInAll(TimelineOf(w, owner).entries) == 0.0
      && CreditedTo(TimelineOf(w, owner).entries, bucket) == 0.0
  {
    match w
    case Idle =>
    case Spend(seconds) => assert [Spent(owner, seconds)][..0] == [];
    case Raise =>
    case Then(first, second) =>
      NoCredits(first, owner, bucket);
      NoCredits(second, owner, bucket);
      EntriesAdd(TimelineOf(first, owner).entries, TimelineOf(second, owner).entries, None, bucket);
    case Timed(b, body) => NoCredits(body, Some(b), bucket);
    case Try(body, handler) =>
      NoCredits(body, owner, bucket);
      NoCredits(handler, owner, bucket);
      EntriesAdd(TimelineOf(body, owner).entries, TimelineOf(handler, owner).entries, None, bucket);
  }

  /** A cycle of timed blocks alone accounts for all its time. */
  lemma TimedCycleAddsUp(w: Work, start: real)
    requires CreditsNothing(w)
    ensures
      var o := Perform(w, Fresh(start), start);
      Sum(BreakdownOf(o.timer, o.now)) == o.now - start <==> OwnedBy(TimelineOf(w, None).entries, Some(OTHER)) == 0.0
  {
    CycleAccounting(w, start, OTHER);
    NoCredits(w, None, OTHER);
  }

  class CycleTimer {
    const startedAt: real
    var totals: map<string, real>
    var stack: seq<string>
    var mark: real

    function View(): Timer
      reads this
    {
      Timer(startedAt, totals, stack, mark)
    }

    constructor (now: real)
      ensures View() == Fresh(now)
    {
      startedAt := now;
      totals, stack, mark := map[], [], now;
    }

    method Charge(now: real)
      modifies this
      ensures View() == Charged(old(View()), now)
    {
      if stack != [] {
        var bucket := stack[|stack| - 1];
        totals := totals[bucket := Get(totals, bucket) + (now - mark)];
      }
      mark := now;
    }

    method Push(bucket: string, now: real)
      modifies this
      ensures View() == Pushed(old(View()), bucket, now)
    {
      Charge(now);
      stack := stack + [bucket];
    }

    method Pop(now: real)
      modifies this
      ensures View() == Popped(old(View()), now)
    {
      Charge(now);
      if stack != [] {
        stack := stack[..|stack| - 1];
      }
    }

    method Add(bucket: string, seconds: real)
      modifies this
      ensures View() == Added(old(View()), bucket, seconds)
    {
      totals := totals[bucket := Get(totals, bucket) + (if seconds > 0.0 then seconds else 0.0)];
    }

    /** Does the work, with every timed block pushed on entry and popped however it is left. */
    method Run(w: Work, start: real) returns (now: real, raised: bool)
      modifies this
      ensures Outcome(View(), now, raised) == Perform(w, old(View()), start)
      decreases w
    {
      now, raised := start, false;
      match w
      case Idle =>
      case Spend(seconds) => now := start + seconds;
      case Raise => raised := true;
      case Credit(bucket, measured) => Add(bucket, measured);
      case Then(first, second) =>
        now, raised := Run(first, start);
        if !raised {
          now, raised := Run(second, now);
        }
      case Timed(bucket, body) =>
        Push(bucket, start);
        now, raised := Run(body, start);
        Pop(now);
      case Try(body, handler) =>
        now, raised := Run(body, start);
        if raised {
          now, raised := Run(handler, now);
        }
    }

    /** Seconds per bucket, and in "other" the elapsed time nothing was charged for. */
    method Breakdown(now: real) returns (result: map<string, real>)
      ensures result == BreakdownOf(View(), now)
    {
      result := ListBuckets(totals);
      var sum := SumOf(result);
      result := result[OTHER := Positive(now - startedAt - sum)];
    }
  }

  /** The printed buckets first, then whatever else was charged. */
  method ListBuckets(totals: map<string, real>) returns (result: map<string, real>)
    ensures result == Listed(totals)
  {
    result := map[];
    for i := 0 to |BUCKET_ORDER|
      invariant result.Keys == set j | 0 <= j < i :: BUCKET_ORDER[j]
      invariant forall b :: b in result ==> result[b] == Get(totals, b)
    {
      result := result[BUCKET_ORDER[i] := Get(totals, BUCKET_ORDER[i])];
    }
    result := Completed(totals, result);
  }

  method Completed(totals: map<string, real>, listed: map<string, real>) returns (result: map<string, real>)
    requires forall b :: b in listed ==> listed[b] == Get(totals, b)
    ensures result == map b | b in listed.Keys + totals.Keys :: Get(totals, b)
  {
    result := listed;
    var names := totals.Keys;
    while names != {}
      invariant names <= totals.Keys && result.Keys == listed.Keys + (totals.Keys - names)
      invariant forall b :: b in result ==> result[b] == Get(totals, b)
      decreases names
    {
      var name :| name in names;
      if name !in result {
        result := result[name := totals[name]];
      }
      names := names - {name};
    }
  }

  method SumOf(m: map<string, real>) returns (sum: real)
    ensures sum == Sum(m)
  {
    var left := m;
    sum := 0.0;
    while left.Keys != {}
      invariant sum + Sum(left) == Sum(m)
      decreases |left|
    {
      var name :| name in left;
      SumWithout(left, name);
      sum := sum + left[name];
      left := left - {name};
    }
  }
}
