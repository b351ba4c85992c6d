/**
 * The credential event log: rotations found by fingerprint, validations
 * recorded only when they say something new, and the health read back from
 * the log.
 */
module CredentialAudit {
  import opened Options

  datatype CredentialType = Pjud | ClaveUnica

  datatype Key = Key(lawyer: int, tipo: CredentialType)

  datatype Kind = ValidationOk | ValidationFailed | ValueChanged

  const VALIDATIONS := {ValidationOk, ValidationFailed}

  /** A row of the log; its id is its position. */
  datatype Event = Event(key: Key, kind: Kind, fingerprint: Option<string>, at: int)

  predicate Matches(e: Event, key: Key, kinds: set<Kind>) {
    e.key == key && e.kind in kinds
  }

  /** The most recent matching row: latest `at`, and the highest id among equals. */
  function Latest(log: seq<Event>, key: Key, kinds: set<Kind>): Option<Event> {
    if log == [] then None else
      var n := |log| - 1;
      var before := Latest(log[..n], key, kinds);
      if Matches(log[n], key, kinds) && (before == None || before.value.at <= log[n].at) then Some(log[n]) else before
  }

  /** Row `i` is the first of ORDER BY occurred_at DESC, id DESC. */
  ghost predicate ComesFirst(log: seq<Event>, key: Key, kinds: set<Kind>, i: nat) {
    && i < |log| && Matches(log[i], key, kinds)
    && forall j :: 0 <= j < |log| && Matches(log[j], key, kinds) ==>
         log[j].at < log[i].at || (log[j].at == log[i].at && j <= i)
  }

  lemma {:induction false} LatestComesFirst(log: seq<Event>, key: Key, kinds: set<Kind>)
    ensures
      match Latest(log, key, kinds)
      case None => forall j :: 0 <= j < |log| ==> !Matches(log[j], key, kinds)
      case Some(e) => exists i: nat :: ComesFirst(log, key, kinds, i) && log[i] == e
  {
    if log != [] {
      var n := |log| - 1;
      LatestComesFirst(log[..n], key, kinds);
      if Latest(log, key, kinds) == Some(log[n]) && Matches(log[n], key, kinds)
         && (Latest(log[..n], key, kinds) == None || Latest(log[..n], key, kinds).value.at <= log[n].at) {
        assert ComesFirst(log, key, kinds, n);
      } else if Latest(log[..n], key, kinds).Some? {
        var i: nat :| ComesFirst(log[..n], key, kinds, i) && log[..n][i] == Latest(log[..n], key, kinds).value;
        assert ComesFirst(log, key, kinds, i);
      }
    }
  }

  // ----- reading the log

  function LastChange(log: seq<Event>, key: Key): Option<Event> { Latest(log, key, {ValueChanged}) }

  /** The key changed at or after `at`; a tie counts as a later change. */
  predicate IsStale(at: int, change: Option<Event>) {
    change.Some? && change.value.at >= at
  }

  /** What the recorded validations say about the current key. */
  datatype Verdict = NoVerdict | Outdated | Current(ok: bool)

  function VerdictOf(log: seq<Event>, key: Key): Verdict {
    match Latest(log, key, VALIDATIONS)
    case None => NoVerdict
    case Some(e) => if IsStale(e.at, LastChange(log, key)) then Outdated else Current(e.kind == ValidationOk)
  }

  datatype Health = NeverValidated | PendingValidation | Valid | Failing

  /** `alertAt` is when the failure alert of the lawyer went out, if one is active. */
  function HealthOf(log: seq<Event>, key: Key, present: bool, alertAt: Option<int>): Health {
    var latest := Latest(log, key, VALIDATIONS);
    var change := LastChange(log, key);
    if !present then NeverValidated
    else if latest.Some? then
      if IsStale(latest.value.at, change) then PendingValidation
      else if latest.value.kind == ValidationOk then Valid else Failing
    else if alertAt.Some? then
      if IsStale(alertAt.value, change) then PendingValidation else Failing
    else NeverValidated
  }

  // ----- the operations, as steps of a run

  datatype State = State(blobs: map<Key, string>, active: set<int>, log: seq<Event>)

  datatype Step =
    | Store(key: Key, blob: string)
    | Drop(key: Key)
    | SetActive(lawyer: int, on: bool)
    | ScanOne(key: Key, at: int)
    | Validate(key: Key, ok: bool, at: int)

  /** The fingerprint of what is stored; an absent or empty blob has none. */
  function Fingerprint(hash: string -> string, blobs: map<Key, string>, key: Key): Option<string> {
    if key in blobs && blobs[key] != "" then Some(hash(blobs[key])) else None
  }

  function LastFingerprint(log: seq<Event>, key: Key): Option<string> {
    var last := LastChange(log, key);
    if last.Some? then last.value.fingerprint else None
  }

  /** The validation is a repeat of the outcome already known for the current key. */
  predicate Repeats(log: seq<Event>, key: Key, ok: bool) {
    var last := Latest(log, key, VALIDATIONS);
    last.Some? && last.value.kind == KindOf(ok) && !IsStale(last.value.at, LastChange(log, key))
  }

  function KindOf(ok: bool): Kind { if ok then ValidationOk else ValidationFailed }

  function Scanned(hash: string -> string, s: State, key: Key, at: int): seq<Event> {
    var current := Fingerprint(hash, s.blobs, key);
    if key.lawyer !in s.active || current == LastFingerprint(s.log, key) then s.log
    else s.log + [Event(key, ValueChanged, current, at)]
  }

  /** One step; with `dedup` off every validation is recorded. */
  function Do(hash: string -> string, dedup: bool, s: State, step: Step): State {
    match step
    case Store(key, blob) => s.(blobs := s.blobs[key := blob])
    case Drop(key) => s.(blobs := s.blobs - {key})
    case SetActive(lawyer, on) => s.(active := if on then s.active + {lawyer} else s.active - {lawyer})
    case ScanOne(key, at) => s.(log := Scanned(hash, s, key, at))
    case Validate(key, ok, at) =>
      if dedup && Repeats(s.log, key, ok) then s else s.(log := s.log + [Event(key, KindOf(ok), None, at)])
  }

  function Run(hash: string -> string, dedup: bool, s: State, steps: seq<Step>): State {
    if steps == [] then s else Do(hash, dedup, Run(hash, dedup, s, steps[..|steps| - 1]), steps[|steps| - 1])
  }

  function ClockOf(step: Step, otherwise: int): int {
    if step.ScanOne? || step.Validate? then step.at else otherwise
  }

  /** The clock after the steps. */
  function ClockAfter(clock: int, steps: seq<Step>): int {
    if steps == [] then clock else ClockOf(steps[|steps| - 1], ClockAfter(clock, steps[..|steps| - 1]))
  }

  /** No step is stamped before an earlier one. */
  predicate Timely(clock: int, steps: seq<Step>) {
    steps == [] ||
    (Timely(clock, steps[..|steps| - 1])
     && ClockAfter(clock, steps[..|steps| - 1]) <= ClockOf(steps[|steps| - 1], ClockAfter(clock, steps[..|steps| - 1])))
  }

  predicate NotAfter(log: seq<Event>, clock: int) {
    forall i :: 0 <= i < |log| ==> log[i].at <= clock
  }

  lemma {:induction false} LatestNotAfter(log: seq<Event>, key: Key, kinds: set<Kind>, clock: int)
    requires NotAfter(log, clock)
    ensures Latest(log, key, kinds).Some? ==> Latest(log, key, kinds).value.at <= clock
    ensures Latest(log, key, kinds).Some? ==> Matches(Latest(log, key, kinds).value, key, kinds)
  {
    if log != [] {
      LatestNotAfter(log[..|log| - 1], key, kinds, clock);
    }
  }

  /** An event stamped now is the most recent one of everything it matches, and of nothing else. */
  lemma LatestOfAppended(log: seq<Event>, e: Event, key: Key, kinds: set<Kind>)
    requires NotAfter(log, e.at)
    ensures Latest(log + [e], key, kinds) == if Matches(e, key, kinds) then Some(e) else Latest(log, key, kinds)
  {
    LatestNotAfter(log, key, kinds, e.at);
    assert (log + [e])[..|log|] == log;
  }

  lemma {:induction false} RunNotAfter(hash: string -> string, dedup: bool, s: State, steps: seq<Step>, clock: int)
    requires NotAfter(s.log, clock) && Timely(clock, steps)
    ensures NotAfter(Run(hash, dedup, s, steps).log, ClockAfter(clock, steps))
  {
    if steps != [] {
      RunNotAfter(hash, dedup, s, steps[..|steps| - 1], clock);
    }
  }

  // ----- deduplication is invisible

  /** The two logs say the same about `key`. */
  ghost predicate SayTheSame(d: seq<Event>, f: seq<Event>, key: Key) {
    VerdictOf(d, key) == VerdictOf(f, key) && LastChange(d, key) == LastChange(f, key)
  }

  lemma SameHealth(d: seq<Event>, f: seq<Event>, key: Key, present: bool, alertAt: Option<int>)
    requires SayTheSame(d, f, key)
    ensures HealthOf(d, key, present, alertAt) == HealthOf(f, key, present, alertAt)
  {
    LatestIsOfKind(d, key);
    LatestIsOfKind(f, key);
  }

  lemma {:induction false} LatestIsOfKind(log: seq<Event>, key: Key)
    ensures Latest(log, key, VALIDATIONS).Some? ==> Latest(log, key, VALIDATIONS).value.kind in VALIDATIONS
  {
    if log != [] {
      LatestIsOfKind(log[..|log| - 1], key);
    }
  }

  lemma RepeatsIff(log: seq<Event>, key: Key, ok: bool)
    ensures Repeats(log, key, ok) <==> VerdictOf(log, key) == Current(ok)
  {
    LatestIsOfKind(log, key);
  }

  /** A recorded validation is the verdict, unless the key changed at that very instant. */
  lemma RecordedVerdict(log: seq<Event>, key: Key, ok: bool, at: int)
    requires NotAfter(log, at)
    ensures
      var log' := log + [Event(key, KindOf(ok), None, at)];
      && LastChange(log', key) == LastChange(log, key)
      && VerdictOf(log', key) == if IsStale(at, LastChange(log, key)) then Outdated else Current(ok)
  {
    var e := Event(key, KindOf(ok), None, at);
    LatestOfAppended(log, e, key, {ValueChanged});
    LatestOfAppended(log, e, key, VALIDATIONS);
  }

  /** A key whose verdict is current did not change at this instant. */
  lemma CurrentIsNotStale(log: seq<Event>, key: Key, at: int)
    requires NotAfter(log, at) && VerdictOf(log, key).Current?
    ensures !IsStale(at, LastChange(log, key))
  {
    LatestNotAfter(log, key, VALIDATIONS, at);
  }

  /** Events of another key change nothing that is said about this one. */
  lemma OtherKeyAppended(log: seq<Event>, e: Event, key: Key)
    requires NotAfter(log, e.at) && e.key != key
    ensures VerdictOf(log + [e], key) == VerdictOf(log, key) && LastChange(log + [e], key) == LastChange(log, key)
  {
    LatestOfAppended(log, e, key, {ValueChanged});
    LatestOfAppended(log, e, key, VALIDATIONS);
  }

  /** A recorded change outdates whatever was known. */
  lemma ChangeAppended(log: seq<Event>, e: Event)
    requires NotAfter(log, e.at) && e.kind == ValueChanged
    ensures LastChange(log + [e], e.key) == Some(e)
    ensures VerdictOf(log + [e], e.key) == if VerdictOf(log, e.key) == NoVerdict then NoVerdict else Outdated
  {
    LatestOfAppended(log, e, e.key, {ValueChanged});
    LatestOfAppended(log, e, e.key, VALIDATIONS);
    LatestNotAfter(log, e.key, VALIDATIONS, e.at);
  }

  lemma ValidateAgrees(d: seq<Event>, f: seq<Event>, k: Key, ok: bool, at: int, key: Key)
    requires NotAfter(d, at) && NotAfter(f, at) && SayTheSame(d, f, k) && SayTheSame(d, f, key)
    ensures
      var e := Event(k, KindOf(ok), None, at);
      SayTheSame(if Repeats(d, k, ok) then d else d + [e], f + [e], key)
  {
    var e := Event(k, KindOf(ok), None, at);
    RepeatsIff(d, k, ok);
    if k != key {
      OtherKeyAppended(d, e, key);
      OtherKeyAppended(f, e, key);
    } else {
      RecordedVerdict(d, k, ok, at);
      RecordedVerdict(f, k, ok, at);
      if Repeats(d, k, ok) {
        CurrentIsNotStale(d, k, at);
      }
    }
  }

  lemma ScanAgrees(hash: string -> string, d: State, f: State, k: Key, at: int, key: Key)
    requires d.blobs == f.blobs && d.active == f.active
    requires NotAfter(d.log, at) && NotAfter(f.log, at) && SayTheSame(d.log, f.log, k) && SayTheSame(d.log, f.log, key)
    ensures SayTheSame(Scanned(hash, d, k, at), Scanned(hash, f, k, at), key)
  {
    var e := Event(k, ValueChanged, Fingerprint(hash, d.blobs, k), at);
    if k != key {
      OtherKeyAppended(d.log, e, key);
      OtherKeyAppended(f.log, e, key);
    } else {
      ChangeAppended(d.log, e);
      ChangeAppended(f.log, e);
    }
  }

  /**
   * Transparency: over any run with clocks that never go back, the
   * deduplicated log gives the same health and the same last change as the
   * log that records every validation.
   */
  lemma {:induction false} DedupIsTransparent(hash: string -> string, s: State, steps: seq<Step>, clock: int, key: Key)
    requires NotAfter(s.log, clock) && Timely(clock, steps)
    ensures
      var d, f := Run(hash, true, s, steps), Run(hash, false, s, steps);
      && d.blobs == f.blobs && d.active == f.active && SayTheSame(d.log, f.log, key)
      && forall present, alertAt ::
           HealthOf(d.log, key, present, alertAt) == HealthOf(f.log, key, present, alertAt)
    decreases |steps|
  {
    hide VerdictOf, LastChange, HealthOf, Repeats, Scanned, NotAfter;
    var d, f := Run(hash, true, s, steps), Run(hash, false, s, steps);
    if steps != [] {
      var before, step := steps[..|steps| - 1], steps[|steps| - 1];
      DedupIsTransparent(hash, s, before, clock, key);
      if step.ScanOne? || step.Validate? {
        DedupIsTransparent(hash, s, before, clock, step.key);
        StepAgrees(hash, Run(hash, true, s, before), Run(hash, false, s, before), step, key) by {
          RunNotAfter(hash, true, s, before, clock);
          RunNotAfter(hash, false, s, before, clock);
        }
      }
    }
    forall present, alertAt ensures HealthOf(d.log, key, present, alertAt) == HealthOf(f.log, key, present, alertAt) {
      SameHealth(d.log, f.log, key, present, alertAt);
    }
  }

  lemma StepAgrees(hash: string -> string, d: State, f: State, step: Step, key: Key)
    requires step.ScanOne? || step.Validate?
    requires d.blobs == f.blobs && d.active == f.active
    requires NotAfter(d.log, step.at) && NotAfter(f.log, step.at)
    requires SayTheSame(d.log, f.log, step.key) && SayTheSame(d.log, f.log, key)
    ensures SayTheSame(Do(hash, true, d, step).log, Do(hash, false, f, step).log, key)
  {
    match step
    case ScanOne(k, at) => ScanAgrees(hash, d, f, k, at, key);
    case Validate(k, ok, at) => ValidateAgrees(d.log, f.log, k, ok, at, key);
  }

  // ----- what deduplication does cost

  /** The latest validation is also the latest one of its own outcome. */
  lemma {:induction false} LatestOfItsKind(log: seq<Event>, key: Key, kind: Kind)
    requires kind in VALIDATIONS
    ensures
      var last := Latest(log, key, VALIDATIONS);
      last.Some? && last.value.kind == kind ==> Latest(log, key, {kind}) == last
  {
    if log != [] {
      LatestOfItsKind(log[..|log| - 1], key, kind);
      LatestIsAmong(log[..|log| - 1], key, kind);
    }
  }

  lemma {:induction false} LatestIsAmong(log: seq<Event>, key: Key, kind: Kind)
    requires kind in VALIDATIONS
    ensures
      var one, any := Latest(log, key, {kind}), Latest(log, key, VALIDATIONS);
      one.Some? ==> any.Some? && one.value.at <= any.value.at
  {
    if log != [] {
      LatestIsAmong(log[..|log| - 1], key, kind);
    }
  }

  /** The deduplicated log knows the same outcomes, but may date the last of each earlier. */
  ghost predicate NoNewer(d: seq<Event>, f: seq<Event>, key: Key, kind: Kind) {
    var a, b := Latest(d, key, {kind}), Latest(f, key, {kind});
    (a.Some? <==> b.Some?) && (a.Some? ==> a.value.at <= b.value.at)
  }

  lemma {:induction false} DedupDatesEarlier(hash: string -> string, s: State, steps: seq<Step>, clock: int, key: Key,
                                             kind: Kind)
    requires NotAfter(s.log, clock) && Timely(clock, steps) && kind in VALIDATIONS
    ensures NoNewer(Run(hash, true, s, steps).log, Run(hash, false, s, steps).log, key, kind)
  {
    if steps != [] {
      var before, step := steps[..|steps| - 1], steps[|steps| - 1];
      DedupDatesEarlier(hash, s, before, clock, key, kind);
      if step.ScanOne? || step.Validate? {
        RunNotAfter(hash, true, s, before, clock);
        RunNotAfter(hash, false, s, before, clock);
        DedupIsTransparent(hash, s, before, clock, step.key);
        DatesStep(hash, Run(hash, true, s, before), Run(hash, false, s, before), step, key, kind);
      }
    }
  }

  lemma RepeatsKnown(log: seq<Event>, key: Key, ok: bool)
    requires Repeats(log, key, ok)
    ensures Latest(log, key, {KindOf(ok)}).Some?
  {
    LatestOfItsKind(log, key, KindOf(ok));
  }

  /** A validation recorded in both logs, or only in the full one when the other knows its outcome. */
  lemma DatesValidation(d: seq<Event>, f: seq<Event>, e: Event, skip: bool, key: Key, kind: Kind)
    requires NotAfter(d, e.at) && NotAfter(f, e.at) && NoNewer(d, f, key, kind)
    requires skip ==> Latest(d, e.key, {e.kind}).Some?
    ensures NoNewer(if skip then d else d + [e], f + [e], key, kind)
  {
    LatestOfAppended(d, e, key, {kind});
    LatestOfAppended(f, e, key, {kind});
    LatestNotAfter(d, key, {kind}, e.at);
  }

  lemma DatesScan(d: seq<Event>, f: seq<Event>, e: Event, key: Key, kind: Kind)
    requires NotAfter(d, e.at) && NotAfter(f, e.at) && NoNewer(d, f, key, kind) && e.kind != kind
    ensures NoNewer(d + [e], f, key, kind) && NoNewer(d, f + [e], key, kind) && NoNewer(d + [e], f + [e], key, kind)
  {
    LatestOfAppended(d, e, key, {kind});
    LatestOfAppended(f, e, key, {kind});
  }

  lemma DatesStep(hash: string -> string, d: State, f: State, step: Step, key: Key, kind: Kind)
    requires step.ScanOne? || step.Validate?
    requires d.blobs == f.blobs && d.active == f.active
    requires NotAfter(d.log, step.at) && NotAfter(f.log, step.at) && kind in VALIDATIONS
    requires NoNewer(d.log, f.log, key, kind)
    ensures NoNewer(Do(hash, true, d, step).log, Do(hash, false, f, step).log, key, kind)
  {
    hide NoNewer, Repeats, NotAfter, Fingerprint, LastFingerprint, Latest;
    match step
    case ScanOne(k, at) =>
      DatesScan(d.log, f.log, Event(k, ValueChanged, Fingerprint(hash, d.blobs, k), at), key, kind);
    case Validate(k, ok, at) =>
      if Repeats(d.log, k, ok) {
        RepeatsKnown(d.log, k, ok);
      }
      DatesValidation(d.log, f.log, Event(k, KindOf(ok), None, at), Repeats(d.log, k, ok), key, kind);
  }

  ghost predicate DatesAgree(d: seq<Event>, f: seq<Event>, key: Key, kind: Kind) {
    var a, b := Latest(d, key, {kind}), Latest(f, key, {kind});
    (a.Some? <==> b.Some?) && (a.Some? ==> a.value.at == b.value.at)
  }

  /** What can be seen before a validation: its outcome is news about the current key, or is already dated now. */
  predicate KeepsDates(log: seq<Event>, key: Key, ok: bool, at: int) {
    || VerdictOf(log, key) != Current(ok)
    || (Latest(log, key, {KindOf(ok)}).Some? && Latest(log, key, {KindOf(ok)}).value.at == at)
  }

  /** After a validation the two logs date its outcome alike exactly when it was news or already dated now. */
  lemma ValidationDatesAgreeIff(d: seq<Event>, f: seq<Event>, key: Key, ok: bool, at: int)
    requires NotAfter(d, at) && NotAfter(f, at)
    ensures
      var e := Event(key, KindOf(ok), None, at);
      DatesAgree(if Repeats(d, key, ok) then d else d + [e], f + [e], key, KindOf(ok)) <==> KeepsDates(d, key, ok, at)
  {
    var e := Event(key, KindOf(ok), None, at);
    LatestOfAppended(d, e, key, {KindOf(ok)});
    LatestOfAppended(f, e, key, {KindOf(ok)});
    RepeatsIff(d, key, ok);
    if Repeats(d, key, ok) {
      RepeatsKnown(d, key, ok);
    }
  }

  /** An event of another key or kind leaves the dates alone. */
  lemma OtherEventKeepsDates(log: seq<Event>, e: Event, key: Key, kind: Kind)
    requires NotAfter(log, e.at) && !(e.key == key && e.kind == kind)
    ensures Latest(log + [e], key, {kind}) == Latest(log, key, {kind})
  {
    LatestOfAppended(log, e, key, {kind});
  }

  predicate Validates(step: Step, key: Key, ok: bool) {
    step.Validate? && step.key == key && step.ok == ok
  }

  /** Step `i` is the last validation of `key` with outcome `ok`. */
  predicate LastValidation(steps: seq<Step>, i: nat, key: Key, ok: bool) {
    i < |steps| && Validates(steps[i], key, ok) && forall j :: i < j < |steps| ==> !Validates(steps[j], key, ok)
  }

  lemma OtherStepKeepsDates(hash: string -> string, dedup: bool, s: State, step: Step, key: Key, ok: bool)
    requires (step.ScanOne? || step.Validate? ==> NotAfter(s.log, step.at)) && !Validates(step, key, ok)
    ensures Latest(Do(hash, dedup, s, step).log, key, {KindOf(ok)}) == Latest(s.log, key, {KindOf(ok)})
  {
    match step
    case Store(_, _) =>
    case Drop(_) =>
    case SetActive(_, _) =>
    case ScanOne(k, at) =>
      OtherEventKeepsDates(s.log, Event(k, ValueChanged, Fingerprint(hash, s.blobs, k), at), key, KindOf(ok));
    case Validate(k, o, at) =>
      OtherEventKeepsDates(s.log, Event(k, KindOf(o), None, at), key, KindOf(ok));
  }

  /** The condition of a run: its last validation of that outcome, if any, was news or already dated then. */
  ghost predicate LastKeepsDates(hash: string -> string, s: State, steps: seq<Step>, key: Key, ok: bool) {
    forall i: nat :: LastValidation(steps, i, key, ok) ==>
      KeepsDates(Run(hash, true, s, steps[..i]).log, key, ok, steps[i].at)
  }

  lemma LastKeepsDatesStep(hash: string -> string, s: State, steps: seq<Step>, key: Key, ok: bool)
    requires steps != []
    ensures
      var before, last := steps[..|steps| - 1], steps[|steps| - 1];
      LastKeepsDates(hash, s, steps, key, ok) <==>
        if Validates(last, key, ok) then KeepsDates(Run(hash, true, s, before).log, key, ok, last.at)
        else LastKeepsDates(hash, s, before, key, ok)
  {
    var n := |steps| - 1;
    var before, last := steps[..n], steps[n];
    if Validates(last, key, ok) {
      assert LastValidation(steps, n, key, ok);
      assert forall i: nat :: LastValidation(steps, i, key, ok) ==> i == n;
    } else {
      assert forall i: nat :: i < n ==> before[i] == steps[i] && before[..i] == steps[..i];
      forall i: nat ensures LastValidation(steps, i, key, ok) <==> LastValidation(before, i, key, ok) {
        assert i < n ==> before[i] == steps[i];
      }
    }
  }

  /**
   * After any run the two logs show the same date for an outcome exactly when
   * the last validation with that outcome was news about the key of its time,
   * or carried the date already known.
   */
  lemma {:induction false} DatesAgreeIff(hash: string -> string, s: State, steps: seq<Step>, clock: int, key: Key,
                                         ok: bool)
    requires NotAfter(s.log, clock) && Timely(clock, steps)
    ensures DatesAgree(Run(hash, true, s, steps).log, Run(hash, false, s, steps).log, key, KindOf(ok))
       <==> LastKeepsDates(hash, s, steps, key, ok)
  {
    hide DatesAgree, KeepsDates, LastKeepsDates;
    if steps == [] {
      NoStepsAgree(hash, s, key, ok);
    } else {
      var before, step := steps[..|steps| - 1], steps[|steps| - 1];
      var d, f := Run(hash, true, s, before), Run(hash, false, s, before);
      DatesAgreeIff(hash, s, before, clock, key, ok);
      RunNotAfter(hash, true, s, before, clock);
      RunNotAfter(hash, false, s, before, clock);
      LastKeepsDatesStep(hash, s, steps, key, ok);
      if Validates(step, key, ok) {
        ValidationDatesAgreeIff(d.log, f.log, key, ok, step.at);
      } else {
        OtherStepKeepsDates(hash, true, d, step, key, ok);
        OtherStepKeepsDates(hash, false, f, step, key, ok);
        SameDates(d.log, f.log, Run(hash, true, s, steps).log, Run(hash, false, s, steps).log, key, KindOf(ok));
      }
    }
  }

  lemma SameDates(d: seq<Event>, f: seq<Event>, d': seq<Event>, f': seq<Event>, key: Key, kind: Kind)
    requires Latest(d, key, {kind}) == Latest(d', key, {kind}) && Latest(f, key, {kind}) == Latest(f', key, {kind})
    ensures DatesAgree(d, f, key, kind) == DatesAgree(d', f', key, kind)
  {}

  lemma NoStepsAgree(hash: string -> string, s: State, key: Key, ok: bool)
    ensures DatesAgree(Run(hash, true, s, []).log, Run(hash, false, s, []).log, key, KindOf(ok))
    ensures LastKeepsDates(hash, s, [], key, ok)
  {}

  /** Two equal outcomes: health agrees, but the date of the last success is that of the first one. */
  lemma DatesMayDiffer(hash: string -> string, key: Key)
    ensures
      var s := State(map[], {}, []);
      var steps := [Validate(key, true, 1), Validate(key, true, 2)];
      && Latest(Run(hash, true, s, steps).log, key, {ValidationOk}) == Some(Event(key, ValidationOk, None, 1))
      && Latest(Run(hash, false, s, steps).log, key, {ValidationOk}) == Some(Event(key, ValidationOk, None, 2))
  {
    var s := State(map[], {}, []);
    var first, second := Validate(key, true, 1), Validate(key, true, 2);
    assert [first, second][..1] == [first] && [first][..0] == [];
    var e, e' := Event(key, ValidationOk, None, 1), Event(key, ValidationOk, None, 2);
    assert Run(hash, true, s, []) == s && Run(hash, false, s, []) == s;
    assert Run(hash, true, s, [first]) == s.(log := [] + [e]);
    assert Run(hash, false, s, [first]) == s.(log := [] + [e]);
    LatestOfAppended([], e, key, VALIDATIONS);
    LatestOfAppended([], e, key, {ValueChanged});
    LatestOfAppended([], e, key, {ValidationOk});
    LatestOfAppended([] + [e], e', key, {ValidationOk});
  }

  // ----- the scan

  /** The fingerprints of the recorded changes of a key, in order. */
  function ChangesOf(log: seq<Event>, key: Key): seq<Option<string>> {
    if log == [] then [] else
      ChangesOf(log[..|log| - 1], key) +
      (if Matches(log[|log| - 1], key, {ValueChanged}) then [log[|log| - 1].fingerprint] else [])
  }

  /** Every recorded change is one: it differs from the previous, and the first is not an absence. */
  ghost predicate RealChanges(log: seq<Event>, key: Key) {
    var c := ChangesOf(log, key);
    && (c != [] ==> c[0] != None)
    && (forall i :: 0 <= i < |c| - 1 ==> c[i] != c[i + 1])
    && LastFingerprint(log, key) == if c == [] then None else c[|c| - 1]
  }

  lemma RealChangesAppended(log: seq<Event>, e: Event, key: Key)
    requires RealChanges(log, key) && NotAfter(log, e.at)
    requires e.kind == ValueChanged ==> e.fingerprint != LastFingerprint(log, e.key)
    ensures RealChanges(log + [e], key)
  {
    LatestOfAppended(log, e, key, {ValueChanged});
    assert (log + [e])[..|log|] == log;
    assert ChangesOf(log + [e], key) ==
           ChangesOf(log, key) + (if Matches(e, key, {ValueChanged}) then [e.fingerprint] else []);
  }

  /** Over any run from an empty log, no two consecutive changes of a key carry the same fingerprint. */
  lemma {:induction false} OnlyRealChanges(hash: string -> string, dedup: bool, s: State, steps: seq<Step>, clock: int,
                                           key: Key)
    requires s.log == [] && Timely(clock, steps)
    ensures RealChanges(Run(hash, dedup, s, steps).log, key)
  {
    if steps != [] {
      var before, step := steps[..|steps| - 1], steps[|steps| - 1];
      OnlyRealChanges(hash, dedup, s, before, clock, key);
      RunNotAfter(hash, dedup, s, before, clock);
      var b := Run(hash, dedup, s, before);
      if step.ScanOne? && Scanned(hash, b, step.key, step.at) != b.log {
        RealChangesAppended(b.log, Event(step.key, ValueChanged, Fingerprint(hash, b.blobs, step.key), step.at), key);
      } else if step.Validate? && Do(hash, dedup, b, step) != b {
        RealChangesAppended(b.log, Event(step.key, KindOf(step.ok), None, step.at), key);
      }
    }
  }

  /** The steps of one scan: both credentials of every active lawyer, each stamped when it is recorded. */
  function ScanSteps(lawyers: seq<int>, clock: nat -> int): seq<Step> {
    seq(2 * |lawyers|, k requires 0 <= k < 2 * |lawyers| => ScanOne(ScanKey(lawyers, k), clock(k)))
  }

  function ScanKey(lawyers: seq<int>, k: nat): Key
    requires k < 2 * |lawyers|
  {
    Key(lawyers[k / 2], if k % 2 == 0 then Pjud else ClaveUnica)
  }

  /** The log knows what is stored now for `key`. */
  predicate UpToDate(hash: string -> string, s: State, key: Key) {
    key.lawyer in s.active ==> LastFingerprint(s.log, key) == Fingerprint(hash, s.blobs, key)
  }

  lemma ScanOneUpdates(hash: string -> string, s: State, k: Key, at: int, key: Key)
    requires NotAfter(s.log, at)
    ensures
      var s' := s.(log := Scanned(hash, s, k, at));
      UpToDate(hash, s', k) && (UpToDate(hash, s, key) ==> UpToDate(hash, s', key))
  {
    var e := Event(k, ValueChanged, Fingerprint(hash, s.blobs, k), at);
    LatestOfAppended(s.log, e, k, {ValueChanged});
    LatestOfAppended(s.log, e, key, {ValueChanged});
  }

  /** After the first `n` steps of a scan their keys are up to date. */
  lemma {:induction false} ScanUpdates(hash: string -> string, s: State, steps: seq<Step>, clock: int, n: nat, i: nat)
    requires n <= |steps| && i < n && NotAfter(s.log, clock) && Timely(clock, steps[..n])
    requires forall k :: 0 <= k < |steps| ==> steps[k].ScanOne?
    ensures
      var after := Run(hash, true, s, steps[..n]);
      UpToDate(hash, after, steps[i].key) && after.blobs == s.blobs && after.active == s.active
  {
    var before := Run(hash, true, s, steps[..n - 1]);
    assert steps[..n][..n - 1] == steps[..n - 1] && steps[..n][n - 1] == steps[n - 1];
    RunNotAfter(hash, true, s, steps[..n - 1], clock);
    if i < n - 1 {
      ScanUpdates(hash, s, steps, clock, n - 1, i);
    } else {
      ScansKeepKeys(hash, s, steps, n - 1);
    }
    ScanOneUpdates(hash, before, steps[n - 1].key, steps[n - 1].at, steps[i].key);
  }

  lemma {:induction false} ScansKeepKeys(hash: string -> string, s: State, steps: seq<Step>, n: nat)
    requires n <= |steps| && forall k :: 0 <= k < |steps| ==> steps[k].ScanOne?
    ensures Run(hash, true, s, steps[..n]).blobs == s.blobs && Run(hash, true, s, steps[..n]).active == s.active
  {
    if n > 0 {
      ScansKeepKeys(hash, s, steps, n - 1);
      assert steps[..n][..n - 1] == steps[..n - 1] && steps[..n][n - 1] == steps[n - 1];
    }
  }

  /** Scanning keys that are all up to date records nothing. */
  lemma {:induction false} NothingToScan(hash: string -> string, s: State, steps: seq<Step>, n: nat)
    requires n <= |steps|
    requires forall k :: 0 <= k < |steps| ==> steps[k].ScanOne? && UpToDate(hash, s, steps[k].key)
    ensures Run(hash, true, s, steps[..n]) == s
  {
    if n > 0 {
      NothingToScan(hash, s, steps, n - 1);
      assert steps[..n][..n - 1] == steps[..n - 1] && steps[..n][n - 1] == steps[n - 1];
    }
  }

  /** A second scan records nothing, whatever its clock reads. */
  lemma SecondScanIsQuiet(hash: string -> string, s: State, lawyers: seq<int>, clock: int, first: nat -> int,
                          second: nat -> int)
    requires NotAfter(s.log, clock) && Timely(clock, ScanSteps(lawyers, first))
    ensures
      var once := Run(hash, true, s, ScanSteps(lawyers, first));
      Run(hash, true, once, ScanSteps(lawyers, second)) == once
  {
    var a, b := ScanSteps(lawyers, first), ScanSteps(lawyers, second);
    var once := Run(hash, true, s, a);
    assert a[..|a|] == a && b[..|b|] == b;
    forall k | 0 <= k < |b| ensures UpToDate(hash, once, b[k].key) {
      ScanUpdates(hash, s, a, clock, |a|, k);
      assert b[k].key == a[k].key;
    }
    NothingToScan(hash, once, b, |b|);
  }

  /** A replaced key is noticed by the next look at it, if fingerprints tell
    * blobs apart: the old verdict is outdated. */
  lemma RotationIsNoticed(hash: string -> string, s: State, key: Key, blob: string, at: int)
    requires NotAfter(s.log, at) && key.lawyer in s.active && UpToDate(hash, s, key)
    requires blob != "" && key in s.blobs && blob != s.blobs[key]
    requires hash(blob) != hash(s.blobs[key])
    ensures
      var after := Do(hash, true, Do(hash, true, s, Store(key, blob)), ScanOne(key, at));
      && after.log == s.log + [Event(key, ValueChanged, Some(hash(blob)), at)]
      && !VerdictOf(after.log, key).Current?
  {
    ChangeAppended(s.log, Event(key, ValueChanged, Some(hash(blob)), at));
  }

  class Vault {
    var blobs: map<Key, string>
    var active: set<int>
    var log: seq<Event>

    function View(): State
      reads this
    {
      State(blobs, active, log)
    }

    /** Records a validation unless it repeats the outcome known for the current key. */
    method RecordValidation(hash: string -> string, key: Key, ok: bool, now: int) returns (recorded: bool)
      modifies this`log
      ensures View() == Do(hash, true, old(View()), Validate(key, ok, now))
      ensures recorded <==> VerdictOf(old(log), key) != Current(ok)
    {
      RepeatsIff(log, key, ok);
      var last := Latest(log, key, VALIDATIONS);
      if last.Some? && last.value.kind == KindOf(ok) {
        var change := Latest(log, key, {ValueChanged});
        if !IsStale(last.value.at, change) {
          return false;
        }
      }
      log := log + [Event(key, KindOf(ok), None, now)];
      return true;
    }

    /** Looks at both credentials of every active lawyer and returns how many changes it recorded. */
    method ScanCredentialChanges(hash: string -> string, lawyers: seq<int>, clock: nat -> int) returns (recorded: nat)
      requires forall k :: 0 <= k < |lawyers| ==> lawyers[k] in active
      modifies this`log
      ensures View() == Run(hash, true, old(View()), ScanSteps(lawyers, clock))
      ensures recorded == |log| - |old(log)|
    {
      recorded := 0;
      ghost var steps := ScanSteps(lawyers, clock);
      for k := 0 to 2 * |lawyers|
        invariant View() == Run(hash, true, old(View()), steps[..k])
        invariant blobs == old(blobs) && active == old(active) && recorded == |log| - |old(log)|
      {
        var key := ScanKey(lawyers, k);
        var current, last := Fingerprint(hash, blobs, key), LastFingerprint(log, key);
        assert steps[..k + 1][..k] == steps[..k] && steps[..k + 1][k] == steps[k];
        if current != last {
          log := log + [Event(key, ValueChanged, current, clock(k))];
          recorded := recorded + 1;
        }
      }
      assert steps[..|steps|] == steps;
    }
  }
}
