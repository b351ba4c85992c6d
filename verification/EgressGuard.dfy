/**
 * The egress guard: a cached permission to scrape, and the alerts of a worker
 * that exits through a forbidden network.
 */
module EgressGuard {
  import opened Options

  const CACHE_SECONDS := 300.0
  const ALERT_REPEAT_SECONDS := 3600.0

  // ----- the alerts

  /** The outcome of a fresh check, as the alerts see it. */
  datatype Check = Check(allowed: bool, ip: Option<string>, at: real)

  datatype Notice = Stopped(ip: Option<string>, at: real) | Back(ip: Option<string>, at: real)

  datatype Throttle = Throttle(blocked: bool, lastAlertAt: Option<real>)

  const QUIET := Throttle(false, None)

  predicate Due(t: Throttle, now: real) {
    t.lastAlertAt == None || now - t.lastAlertAt.value >= ALERT_REPEAT_SECONDS
  }

  function Tracked(t: Throttle, c: Check): Throttle {
    if c.allowed then (if t.blocked then QUIET else t)
    else Throttle(true, if Due(t, c.at) then Some(c.at) else t.lastAlertAt)
  }

  function NoticesOf(t: Throttle, c: Check): seq<Notice> {
    if c.allowed then (if t.blocked then [Back(c.ip, c.at)] else [])
    else if Due(t, c.at) then [Stopped(c.ip, c.at)] else []
  }

  function ThrottleAfter(checks: seq<Check>): Throttle {
    if checks == [] then QUIET else Tracked(ThrottleAfter(checks[..|checks| - 1]), checks[|checks| - 1])
  }

  function NoticesAfter(checks: seq<Check>): seq<Notice> {
    if checks == [] then [] else
      NoticesAfter(checks[..|checks| - 1]) + NoticesOf(ThrottleAfter(checks[..|checks| - 1]), checks[|checks| - 1])
  }

  // ----- episodes, read off the checks alone

  predicate InOrder(checks: seq<Check>) {
    forall i, j :: 0 <= i < j < |checks| ==> checks[i].at <= checks[j].at
  }

  predicate EndsBlocked(checks: seq<Check>) { checks != [] && !checks[|checks| - 1].allowed }

  /** Times the worker went from allowed, or from the start, to blocked. */
  function Episodes(checks: seq<Check>): nat {
    if checks == [] then 0 else
      var before := checks[..|checks| - 1];
      Episodes(before) + (if EndsBlocked(checks) && !EndsBlocked(before) then 1 else 0)
  }

  /** Times it went back from blocked to allowed. */
  function Recoveries(checks: seq<Check>): nat {
    if checks == [] then 0 else
      var before := checks[..|checks| - 1];
      Recoveries(before) + (if EndsBlocked(before) && !EndsBlocked(checks) then 1 else 0)
  }

  /** Time between consecutive blocked checks. */
  function BlockedTime(checks: seq<Check>): real {
    if checks == [] then 0.0 else
      var n := |checks| - 1;
      BlockedTime(checks[..n]) +
      (if EndsBlocked(checks) && EndsBlocked(checks[..n]) then checks[n].at - checks[n - 1].at else 0.0)
  }

  function StoppedCount(notices: seq<Notice>): nat {
    if notices == [] then 0
    else StoppedCount(notices[..|notices| - 1]) + (if notices[|notices| - 1].Stopped? then 1 else 0)
  }

  function BackCount(notices: seq<Notice>): nat {
    if notices == [] then 0 else BackCount(notices[..|notices| - 1]) + (if notices[|notices| - 1].Back? then 1 else 0)
  }

  lemma CountsAppended(notices: seq<Notice>, more: seq<Notice>)
    requires |more| <= 1
    ensures StoppedCount(notices + more) == StoppedCount(notices) + (if more != [] && more[0].Stopped? then 1 else 0)
    ensures BackCount(notices + more) == BackCount(notices) + (if more != [] && more[0].Back? then 1 else 0)
  {
    if more == [] {
      assert notices + more == notices;
    } else {
      assert (notices + more)[..|notices|] == notices;
    }
  }

  /** The throttle is blocked exactly when the last check was, and then it was alerted less than an hour before. */
  lemma {:induction false} BlockedMeansAlerted(checks: seq<Check>)
    requires InOrder(checks)
    ensures
      var t := ThrottleAfter(checks);
      && (t.blocked <==> EndsBlocked(checks)) && (t.blocked <==> t.lastAlertAt.Some?)
      && (t.blocked ==> 0.0 <= checks[|checks| - 1].at - t.lastAlertAt.value < 3600.0)
  {
    if checks != [] {
      BlockedMeansAlerted(checks[..|checks| - 1]);
    }
  }

  function Since(t: Throttle, now: real): real {
    if t.blocked && t.lastAlertAt.Some? then now - t.lastAlertAt.value else 0.0
  }

  /** Time since the last alert of the running episode. */
  function SinceAlert(checks: seq<Check>): real {
    if checks == [] then 0.0 else Since(ThrottleAfter(checks), checks[|checks| - 1].at)
  }

  lemma NoticesAppended(checks: seq<Check>, c: Check)
    requires InOrder(checks + [c])
    ensures
      var t := ThrottleAfter(checks);
      && StoppedCount(NoticesAfter(checks + [c])) ==
         StoppedCount(NoticesAfter(checks)) + (if !c.allowed && Due(t, c.at) then 1 else 0)
      && BackCount(NoticesAfter(checks + [c])) ==
         BackCount(NoticesAfter(checks)) + (if c.allowed && t.blocked then 1 else 0)
  {
    assert (checks + [c])[..|checks|] == checks;
    CountsAppended(NoticesAfter(checks), NoticesOf(ThrottleAfter(checks), c));
  }

  /** Every repeat of an alert is paid for by an hour of blocked time. */
  lemma {:induction false} RepeatsArePaid(checks: seq<Check>)
    requires InOrder(checks)
    ensures
      var stopped := StoppedCount(NoticesAfter(checks));
      && stopped >= Episodes(checks)
      && ALERT_REPEAT_SECONDS * (stopped - Episodes(checks)) as real + SinceAlert(checks) <= BlockedTime(checks)
      && BackCount(NoticesAfter(checks)) == Recoveries(checks)
  {
    if checks != [] {
      var before, c := checks[..|checks| - 1], checks[|checks| - 1];
      RepeatsArePaid(before);
      BlockedMeansAlerted(before);
      assert before + [c] == checks;
      NoticesAppended(before, c);
    }
  }

  /**
   * Over any run, the alerts are at most one for each blocked episode and one
   * for each full hour blocked, and every recovery is announced exactly once.
   */
  lemma AlertsAreThrottled(checks: seq<Check>)
    requires InOrder(checks)
    ensures
      var stopped := StoppedCount(NoticesAfter(checks));
      && Episodes(checks) <= stopped <= Episodes(checks) + (BlockedTime(checks) / 3600.0).Floor
      && BackCount(NoticesAfter(checks)) == Recoveries(checks)
  {
    RepeatsArePaid(checks);
    BlockedMeansAlerted(checks);
    var repeats := StoppedCount(NoticesAfter(checks)) - Episodes(checks);
    assert repeats as real <= BlockedTime(checks) / ALERT_REPEAT_SECONDS;
  }

  predicate AllBlocked(checks: seq<Check>) { forall i :: 0 <= i < |checks| ==> !checks[i].allowed }

  lemma BlockedAppended(before: seq<Check>, checks: seq<Check>)
    requires AllBlocked(checks) && InOrder(before + checks)
    ensures EndsBlocked(before + checks) == if checks == [] then EndsBlocked(before) else true
    ensures checks != [] ==> before + checks == (before + checks[..|checks| - 1]) + [checks[|checks| - 1]]
    ensures checks != [] ==> InOrder(before + checks[..|checks| - 1]) && AllBlocked(checks[..|checks| - 1])
  {
    if checks != [] {
      var n := |checks| - 1;
      assert before + checks == (before + checks[..n]) + [checks[n]];
      assert forall i :: 0 <= i < |before + checks[..n]| ==> (before + checks[..n])[i] == (before + checks)[i];
    }
  }

  lemma ThrottleAppended(checks: seq<Check>, c: Check)
    ensures ThrottleAfter(checks + [c]) == Tracked(ThrottleAfter(checks), c)
  {
    assert (checks + [c])[..|checks|] == checks;
  }

  lemma InOrderPrefix(checks: seq<Check>, c: Check)
    requires InOrder(checks + [c])
    ensures InOrder(checks) && (checks != [] ==> checks[|checks| - 1].at <= c.at)
  {
    assert forall i :: 0 <= i < |checks| ==> (checks + [c])[i] == checks[i];
    assert (checks + [c])[|checks|] == c;
  }

  lemma SinceTracked(t: Throttle, lastAt: real, c: Check)
    requires !c.allowed && (t.blocked <==> t.lastAlertAt.Some?)
    ensures
      var since := Since(t, lastAt) + (c.at - lastAt);
      if t.blocked then Since(Tracked(t, c), c.at) == (if Due(t, c.at) then 0.0 else since)
                        && (Due(t, c.at) ==> since >= ALERT_REPEAT_SECONDS)
      else Due(t, c.at) && Since(Tracked(t, c), c.at) == 0.0
  {}

  /** One more blocked check: it is due when an hour has gone by since the last
    * alert, and at the start of an episode. */
  lemma BlockedCheck(earlier: seq<Check>, c: Check)
    requires InOrder(earlier + [c]) && !c.allowed
    ensures
      var due := Due(ThrottleAfter(earlier), c.at);
      && (!EndsBlocked(earlier) ==> due && SinceAlert(earlier + [c]) == 0.0)
      && (EndsBlocked(earlier) ==>
            var since := SinceAlert(earlier) + (c.at - earlier[|earlier| - 1].at);
            SinceAlert(earlier + [c]) == (if due then 0.0 else since) && (due ==> since >= ALERT_REPEAT_SECONDS))
  {
    InOrderPrefix(earlier, c);
    BlockedMeansAlerted(earlier);
    ThrottleAppended(earlier, c);
    assert (earlier + [c])[|earlier|] == c;
    hide InOrder, ThrottleAfter, Since, Tracked, Due;
    SinceTracked(ThrottleAfter(earlier), if earlier == [] then c.at else earlier[|earlier| - 1].at, c);
  }

  /** Every alert but the first is paid for by an hour. */
  predicate Paid(alerts: int, since: real, duration: real) {
    1 <= alerts && ALERT_REPEAT_SECONDS * (alerts - 1) as real + since <= duration
  }

  lemma PaidStep(alerts: int, since: real, duration: real, passed: real, due: bool)
    requires Paid(alerts, since, duration) && (due ==> since + passed >= ALERT_REPEAT_SECONDS)
    ensures if due then Paid(alerts + 1, 0.0, duration + passed) else Paid(alerts, since + passed, duration + passed)
  {
    assert (alerts + 1 - 1) as real == (alerts - 1) as real + 1.0;
  }

  lemma PaidBound(alerts: int, since: real, duration: real)
    requires Paid(alerts, since, duration) && since >= 0.0
    ensures 1 <= alerts <= 1 + (duration / ALERT_REPEAT_SECONDS).Floor
  {
    assert (alerts - 1) as real <= duration / ALERT_REPEAT_SECONDS;
  }

  lemma {:induction false} EpisodeRepeatsArePaid(before: seq<Check>, checks: seq<Check>)
    requires checks != [] && AllBlocked(checks) && !EndsBlocked(before) && InOrder(before + checks)
    ensures
      var first, last := NoticesAfter(before), NoticesAfter(before + checks);
      && BackCount(last) == BackCount(first)
      && Paid(StoppedCount(last) - StoppedCount(first), SinceAlert(before + checks),
         checks[|checks| - 1].at - checks[0].at)
    decreases |checks|
  {
    hide NoticesAfter, StoppedCount, BackCount, ThrottleAfter, SinceAlert, Due;
    var n := |checks| - 1;
    var earlier := before + checks[..n];
    BlockedAppended(before, checks);
    BlockedCheck(earlier, checks[n]);
    NoticesAppended(earlier, checks[n]);
    if n == 0 {
      assert earlier == before;
    } else {
      EpisodeRepeatsArePaid(before, checks[..n]);
      BlockedAppended(before, checks[..n]);
      assert earlier[|earlier| - 1] == checks[n - 1];
      PaidStep(StoppedCount(NoticesAfter(earlier)) - StoppedCount(NoticesAfter(before)), SinceAlert(earlier),
               checks[n - 1].at - checks[0].at, checks[n].at - checks[n - 1].at,
               Due(ThrottleAfter(earlier), checks[n].at));
    }
  }

  /** The first allowed check after a blocked one raises one notice and forgets the episode. */
  lemma RecoveryNotice(checks: seq<Check>, end: Check)
    requires EndsBlocked(checks) && end.allowed && InOrder(checks)
    ensures NoticesAfter(checks + [end]) == NoticesAfter(checks) + [Back(end.ip, end.at)]
    ensures ThrottleAfter(checks + [end]) == QUIET
  {
    BlockedMeansAlerted(checks);
    assert (checks + [end])[..|checks|] == checks;
  }

  lemma SinceAlertNotNegative(checks: seq<Check>)
    requires InOrder(checks)
    ensures SinceAlert(checks) >= 0.0
  {
    BlockedMeansAlerted(checks);
  }

  /**
   * Whatever went before, a blocked episode that lasts D seconds raises between
   * 1 and 1 + floor(D / 3600) alerts and announces no recovery, and its end
   * raises exactly one notice and forgets the episode.
   */
  lemma {:induction false} EpisodeAlerts(before: seq<Check>, checks: seq<Check>, end: Check)
    requires checks != [] && AllBlocked(checks) && !EndsBlocked(before)
    requires end.allowed && InOrder(before + checks + [end])
    ensures
      var first, last := NoticesAfter(before), NoticesAfter(before + checks);
      var duration := checks[|checks| - 1].at - checks[0].at;
      && 1 <= StoppedCount(last) - StoppedCount(first) <= 1 + (duration / 3600.0).Floor
      && BackCount(last) == BackCount(first)
      && NoticesAfter(before + checks + [end]) == last + [Back(end.ip, end.at)]
      && ThrottleAfter(before + checks + [end]) == QUIET
  {
    hide NoticesAfter, StoppedCount, BackCount, ThrottleAfter, SinceAlert, InOrder, EndsBlocked, AllBlocked;
    var all := before + checks;
    InOrderPrefix(all, end);
    BlockedAppended(before, checks);
    RecoveryNotice(all, end);
    SinceAlertNotNegative(all);
    EpisodeRepeatsArePaid(before, checks);
    PaidBound(StoppedCount(NoticesAfter(all)) - StoppedCount(NoticesAfter(before)), SinceAlert(all),
              checks[|checks| - 1].at - checks[0].at);
  }

  // ----- the permission

  datatype Answer = Failed | Text(text: string)

  datatype Reason = Off | Unknown | Forbidden | Allowed

  datatype Reply = Reply(allowed: bool, ip: Option<string>, reason: Reason)

  datatype Cached = Cached(at: real, reply: Reply)

  /** A fresh check as it was made: when, with which answer and against which addresses. */
  datatype Lookup = Lookup(at: real, ip: Option<string>, forbidden: set<string>)

  datatype Guard = Guard(cache: Option<Cached>, checks: seq<Check>, lookups: seq<Lookup>)

  /**
   * A call: the configured addresses, whether a recent result may be reused,
   * the answers of the echo services, and the clock when the cache is looked
   * at, when the result is stamped and when it is tracked.
   */
  datatype Call = Call(raw: set<string>, reuse: bool, answers: seq<Answer>, readAt: real, stampAt: real, trackAt: real)

  /** Normalisation of an address; `None` for text that is not one. */
  type Normalizer = string -> Option<string>

  /** The first valid address answered. */
  function FirstAddress(normalize: Normalizer, answers: seq<Answer>): Option<string> {
    if answers == [] then None
    else if answers[0].Text? && normalize(answers[0].text).Some? then normalize(answers[0].text)
    else FirstAddress(normalize, answers[1..])
  }

  function Canonical(normalize: Normalizer, x: string): string {
    if normalize(x).Some? then normalize(x).value else x
  }

  function ForbiddenAddresses(normalize: Normalizer, raw: set<string>): set<string> {
    set x | x in raw :: Canonical(normalize, x)
  }

  function Judge(ip: Option<string>, forbidden: set<string>): Reply {
    if ip == None then Reply(false, None, Unknown)
    else if ip.value in forbidden then Reply(false, ip, Forbidden)
    else Reply(true, ip, Allowed)
  }

  predicate Reusable(g: Guard, c: Call) {
    c.reuse && g.cache.Some? && c.readAt - g.cache.value.at < CACHE_SECONDS
  }

  function ReplyOf(normalize: Normalizer, g: Guard, c: Call): Reply {
    if c.raw == {} then Reply(true, None, Off)
    else if Reusable(g, c) then g.cache.value.reply
    else Judge(FirstAddress(normalize, c.answers), ForbiddenAddresses(normalize, c.raw))
  }

  function GuardAfter(normalize: Normalizer, g: Guard, c: Call): Guard {
    if c.raw == {} || Reusable(g, c) then g else
      var ip, forbidden := FirstAddress(normalize, c.answers), ForbiddenAddresses(normalize, c.raw);
      var reply := Judge(ip, forbidden);
      Guard(Some(Cached(c.stampAt, reply)), g.checks + [Check(reply.allowed, ip, c.trackAt)],
            g.lookups + [Lookup(c.stampAt, ip, forbidden)])
  }

  function GuardRun(normalize: Normalizer, calls: seq<Call>): Guard {
    if calls == [] then Guard(None, [], []) else
      GuardAfter(normalize, GuardRun(normalize, calls[..|calls| - 1]), calls[|calls| - 1])
  }

  /** The cache holds the judgement of the latest fresh check. */
  ghost predicate CacheIsLatest(g: Guard) {
    match g.cache
    case None => g.lookups == []
    case Some(c) =>
      g.lookups != [] && var f := g.lookups[|g.lookups| - 1]; c.at == f.at && c.reply == Judge(f.ip, f.forbidden)
  }

  lemma {:induction false} CacheStaysLatest(normalize: Normalizer, calls: seq<Call>)
    ensures CacheIsLatest(GuardRun(normalize, calls))
  {
    if calls != [] {
      CacheStaysLatest(normalize, calls[..|calls| - 1]);
    }
  }

  /**
   * Whatever happened before: with the guard on, a permission rests on a fresh
   * check that found an address outside the list of its time, made either by
   * this very call or less than 300 seconds before it.
   */
  lemma {:induction false} PermissionIsRecent(normalize: Normalizer, calls: seq<Call>, c: Call)
    requires c.raw != {} && ReplyOf(normalize, GuardRun(normalize, calls), c).allowed
    ensures
      var g := GuardRun(normalize, calls + [c]);
      var reply := ReplyOf(normalize, GuardRun(normalize, calls), c);
      && g.lookups != []
      && var f := g.lookups[|g.lookups| - 1];
      && f.ip == reply.ip && f.ip.Some? && f.ip.value !in f.forbidden
      && (c.readAt - f.at < 300.0 || (f.at == c.stampAt && f.forbidden == ForbiddenAddresses(normalize, c.raw)))
  {
    CacheStaysLatest(normalize, calls);
    assert (calls + [c])[..|calls|] == calls;
  }

  lemma {:induction false} NoAddress(normalize: Normalizer, answers: seq<Answer>)
    ensures FirstAddress(normalize, answers) == None <==>
            forall i :: 0 <= i < |answers| && answers[i].Text? ==> normalize(answers[i].text) == None
  {
    if answers != [] {
      NoAddress(normalize, answers[1..]);
      assert forall i :: 1 <= i < |answers| ==> answers[i] == answers[1..][i - 1];
    }
  }

  /** A fresh check fails closed: when no service answers an address it refuses, and it refuses every listed address. */
  lemma FailsClosed(normalize: Normalizer, g: Guard, c: Call)
    requires c.raw != {} && !Reusable(g, c)
    ensures ReplyOf(normalize, g, c).allowed ==>
              exists i :: 0 <= i < |c.answers| && c.answers[i].Text? && normalize(c.answers[i].text).Some?
    ensures forall x :: x in c.raw && FirstAddress(normalize, c.answers) == Some(Canonical(normalize, x)) ==>
              !ReplyOf(normalize, g, c).allowed
  {
    NoAddress(normalize, c.answers);
  }

  /** `ip` is what the first service with a valid answer said. */
  ghost predicate Answered(normalize: Normalizer, answers: seq<Answer>, ip: string) {
    exists i :: 0 <= i < |answers| && AnswersFirst(normalize, answers, i, ip)
  }

  ghost predicate AnswersFirst(normalize: Normalizer, answers: seq<Answer>, i: int, ip: string)
    requires 0 <= i < |answers|
  {
    && answers[i].Text? && normalize(answers[i].text) == Some(ip)
    && forall j :: 0 <= j < i && answers[j].Text? ==> normalize(answers[j].text) == None
  }

  /** Some configured entry is this address however it is spelled, or is no address and the same text. */
  ghost predicate Listed(normalize: Normalizer, raw: set<string>, ip: string) {
    exists x :: x in raw && (normalize(x) == Some(ip) || (normalize(x) == None && x == ip))
  }

  lemma {:induction false} FirstAnswered(normalize: Normalizer, answers: seq<Answer>)
    ensures
      match FirstAddress(normalize, answers)
      case Some(ip) => Answered(normalize, answers, ip)
      case None => forall ip :: !Answered(normalize, answers, ip)
  {
    NoAddress(normalize, answers);
    if answers != [] && !(answers[0].Text? && normalize(answers[0].text).Some?) {
      var rest := answers[1..];
      assert forall i :: 1 <= i < |answers| ==> answers[i] == rest[i - 1];
      FirstAnswered(normalize, rest);
      if FirstAddress(normalize, answers).Some? {
        var ip := FirstAddress(normalize, answers).value;
        var i :| 0 <= i < |rest| && AnswersFirst(normalize, rest, i, ip);
        assert AnswersFirst(normalize, answers, i + 1, ip);
      }
    } else if answers != [] {
      assert AnswersFirst(normalize, answers, 0, normalize(answers[0].text).value);
    }
  }

  lemma ListedIff(normalize: Normalizer, raw: set<string>, ip: string)
    ensures ip in ForbiddenAddresses(normalize, raw) <==> Listed(normalize, raw, ip)
  {
    if Listed(normalize, raw, ip) {
      var x :| x in raw && (normalize(x) == Some(ip) || (normalize(x) == None && x == ip));
      assert Canonical(normalize, x) == ip;
    }
  }

  /** The reply of a fresh check, from what was answered and what is configured. */
  ghost predicate Judged(normalize: Normalizer, c: Call, reply: Reply) {
    match reply.ip
    case None => (forall ip :: !Answered(normalize, c.answers, ip)) && reply.reason == Unknown && !reply.allowed
    case Some(ip) =>
      && Answered(normalize, c.answers, ip)
      && if Listed(normalize, c.raw, ip) then reply.reason == Forbidden && !reply.allowed
         else reply.reason == Allowed && reply.allowed
  }

  /**
   * Every call: with nothing configured it is allowed and leaves no trace; a
   * result younger than 300 seconds is given again when it may be; any other
   * call judges the first valid address answered, keeps the result and is
   * tracked for the alerts.
   */
  lemma CallIs(normalize: Normalizer, g: Guard, c: Call)
    ensures
      var reply, after := ReplyOf(normalize, g, c), GuardAfter(normalize, g, c);
      if |c.raw| == 0 then reply == Reply(true, None, Off) && after == g
      else if c.reuse && g.cache.Some? && c.readAt - g.cache.value.at < 300.0 then
        reply == g.cache.value.reply && after == g
      else
        && Judged(normalize, c, reply) && after.cache == Some(Cached(c.stampAt, reply))
        && after.checks == g.checks + [Check(reply.allowed, reply.ip, c.trackAt)]
  {
    FirstAnswered(normalize, c.answers);
    var ip := FirstAddress(normalize, c.answers);
    if ip.Some? {
      ListedIff(normalize, c.raw, ip.value);
    }
    assert |c.raw| == 0 <==> c.raw == {};
    hide Answered, Listed, FirstAddress, ForbiddenAddresses;
  }

  /** The calls made while some address was configured. */
  function Enforced(calls: seq<Call>): seq<Call> {
    if calls == [] then [] else
      Enforced(calls[..|calls| - 1]) + (if calls[|calls| - 1].raw == {} then [] else [calls[|calls| - 1]])
  }

  lemma OffCallKeeps(normalize: Normalizer, g: Guard, c: Call)
    requires c.raw == {}
    ensures GuardAfter(normalize, g, c) == g
  {}

  lemma OffIsTheAnswer(normalize: Normalizer, calls: seq<Call>, c: Call)
    ensures ReplyOf(normalize, GuardRun(normalize, calls), c).reason == Off <==> c.raw == {}
    ensures c.raw == {} ==> ReplyOf(normalize, GuardRun(normalize, calls), c).allowed
  {
    CacheStaysLatest(normalize, calls);
  }

  /**
   * Calls made with no address configured leave no trace: whenever they come,
   * the cache, the running episode and the alerts are those of the other calls
   * alone; and "off" is the answer to those calls and to no other.
   */
  lemma {:induction false} GuardOff(normalize: Normalizer, calls: seq<Call>, c: Call)
    ensures GuardRun(normalize, calls) == GuardRun(normalize, Enforced(calls))
    ensures ReplyOf(normalize, GuardRun(normalize, calls), c).reason == Off <==> c.raw == {}
    ensures c.raw == {} ==> ReplyOf(normalize, GuardRun(normalize, calls), c).allowed
  {
    OffIsTheAnswer(normalize, calls, c);
    hide GuardAfter, ReplyOf;
    if calls != [] {
      var before, last := calls[..|calls| - 1], calls[|calls| - 1];
      GuardOff(normalize, before, c);
      if last.raw == {} {
        OffCallKeeps(normalize, GuardRun(normalize, before), last);
        assert Enforced(calls) == Enforced(before);
      } else {
        assert Enforced(calls)[..|Enforced(before)|] == Enforced(before);
      }
    }
  }

  class EgressState {
    var cache: Option<Cached>
    var blocked: bool
    var lastAlertAt: Option<real>
    var notices: seq<Notice>
    ghost var checks: seq<Check>
    ghost var lookups: seq<Lookup>

    ghost function View(): Guard
      reads this
    {
      Guard(cache, checks, lookups)
    }

    /** The alert state is the one the fresh checks lead to, and so are the alerts sent. */
    ghost predicate Valid()
      reads this
    {
      Throttle(blocked, lastAlertAt) == ThrottleAfter(checks) && notices == NoticesAfter(checks)
    }

    constructor ()
      ensures Valid() && View() == Guard(None, [], [])
    {
      cache, blocked, lastAlertAt, notices := None, false, None, [];
      checks, lookups := [], [];
    }

    method Track(allowed: bool, ip: Option<string>, now: real)
      requires Valid()
      modifies this
      ensures Valid() && checks == old(checks) + [Check(allowed, ip, now)]
      ensures cache == old(cache) && lookups == old(lookups)
    {
      assert (checks + [Check(allowed, ip, now)])[..|checks|] == checks;
      checks := checks + [Check(allowed, ip, now)];
      if allowed {
        if blocked {
          blocked := false;
          lastAlertAt := None;
          notices := notices + [Back(ip, now)];
        }
        return;
      }
      var due := lastAlertAt == None || now - lastAlertAt.value >= 3600.0;
      blocked := true;
      if due {
        lastAlertAt := Some(now);
        notices := notices + [Stopped(ip, now)];
      }
    }

    method CurrentEgressIp(normalize: Normalizer, answers: seq<Answer>) returns (ip: Option<string>)
      ensures ip == FirstAddress(normalize, answers)
    {
      for i := 0 to |answers|
        invariant FirstAddress(normalize, answers) == FirstAddress(normalize, answers[i..])
      {
        if answers[i].Text? {
          ip := normalize(answers[i].text);
          if ip.Some? {
            return;
          }
        }
      }
      return None;
    }

    method EgressAllowed(normalize: Normalizer, c: Call) returns (reply: Reply)
      requires Valid() && !c.reuse
      modifies this
      ensures Valid() && reply == ReplyOf(normalize, old(View()), c) && View() == GuardAfter(normalize, old(View()), c)
    {
      var forbidden := set x | x in c.raw :: Canonical(normalize, x);
      if forbidden == {} {
        assert forall x :: x in c.raw ==> Canonical(normalize, x) in forbidden;
        return Reply(true, None, Off);
      }
      var ip := CurrentEgressIp(normalize, c.answers);
      if ip == None {
        reply := Reply(false, None, Unknown);
      } else if ip.value in forbidden {
        reply := Reply(false, ip, Forbidden);
      } else {
        reply := Reply(true, ip, Allowed);
      }
      cache := Some(Cached(c.stampAt, reply));
      lookups := lookups + [Lookup(c.stampAt, ip, forbidden)];
      Track(reply.allowed, ip, c.trackAt);
    }

    method EgressAllowedCached(normalize: Normalizer, c: Call) returns (reply: Reply)
      requires Valid() && c.reuse
      modifies this
      ensures Valid() && reply == ReplyOf(normalize, old(View()), c) && View() == GuardAfter(normalize, old(View()), c)
    {
      if c.raw == {} {
        return Reply(true, None, Off);
      }
      if cache.Some? && c.readAt - cache.value.at < 300.0 {
        return cache.value.reply;
      }
      reply := EgressAllowed(normalize, c.(reuse := false));
    }
  }
}
