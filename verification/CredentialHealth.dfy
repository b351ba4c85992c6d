/** What the log of the credentials says, read off its rows. */
module CredentialHealth {
  import opened Options
  import opened CredentialAudit

  predicate IsValidation(e: Event, key: Key) {
    e.key == key && (e.kind == ValidationOk || e.kind == ValidationFailed)
  }

  predicate IsChange(e: Event, key: Key) {
    e.key == key && e.kind == ValueChanged
  }

  predicate NotLater(log: seq<Event>, j: nat, i: nat)
    requires i < |log| && j < |log|
  {
    log[j].at < log[i].at || (log[j].at == log[i].at && j <= i)
  }

  /** Row `i` is the validation of the key that comes first by date and id, descending. */
  ghost predicate FirstValidation(log: seq<Event>, key: Key, i: nat) {
    && i < |log| && IsValidation(log[i], key)
    && forall j: nat :: j < |log| && IsValidation(log[j], key) ==> NotLater(log, j, i)
  }

  ghost predicate FirstChange(log: seq<Event>, key: Key, i: nat) {
    && i < |log| && IsChange(log[i], key)
    && forall j: nat :: j < |log| && IsChange(log[j], key) ==> NotLater(log, j, i)
  }

  /** Every change of the key is dated strictly before `at`. */
  ghost predicate ChangesBefore(log: seq<Event>, key: Key, at: int) {
    forall j: nat :: j < |log| && IsChange(log[j], key) ==> log[j].at < at
  }

  ghost predicate NoValidation(log: seq<Event>, key: Key) {
    forall j: nat :: j < |log| ==> !IsValidation(log[j], key)
  }

  /** The first validation has the given outcome and the key has not changed since. */
  ghost predicate Stands(log: seq<Event>, key: Key, kind: Kind) {
    exists i: nat :: FirstValidation(log, key, i) && log[i].kind == kind && ChangesBefore(log, key, log[i].at)
  }

  ghost predicate Superseded(log: seq<Event>, key: Key) {
    exists i: nat :: FirstValidation(log, key, i) && !ChangesBefore(log, key, log[i].at)
  }

  // ----- the two queries

  lemma FirstIsUnique(log: seq<Event>, key: Key, i: nat, j: nat)
    ensures FirstValidation(log, key, i) && FirstValidation(log, key, j) ==> i == j
    ensures FirstChange(log, key, i) && FirstChange(log, key, j) ==> i == j
  {}

  lemma ValidationRow(log: seq<Event>, key: Key)
    ensures
      match Latest(log, key, VALIDATIONS)
      case None => NoValidation(log, key)
      case Some(e) => exists i: nat :: FirstValidation(log, key, i) && log[i] == e
  {
    LatestComesFirst(log, key, VALIDATIONS);
    assert forall e: Event :: Matches(e, key, VALIDATIONS) <==> IsValidation(e, key);
    if Latest(log, key, VALIDATIONS).Some? {
      var i: nat :| ComesFirst(log, key, VALIDATIONS, i) && log[i] == Latest(log, key, VALIDATIONS).value;
      assert FirstValidation(log, key, i);
    }
  }

  lemma ChangeRow(log: seq<Event>, key: Key)
    ensures
      match LastChange(log, key)
      case None => forall j: nat :: j < |log| ==> !IsChange(log[j], key)
      case Some(e) => exists i: nat :: FirstChange(log, key, i) && log[i] == e
    ensures forall at :: IsStale(at, LastChange(log, key)) <==> !ChangesBefore(log, key, at)
  {
    LatestComesFirst(log, key, {ValueChanged});
    assert forall e: Event :: Matches(e, key, {ValueChanged}) <==> IsChange(e, key);
    if LastChange(log, key).Some? {
      var i: nat :| ComesFirst(log, key, {ValueChanged}, i) && log[i] == LastChange(log, key).value;
      assert FirstChange(log, key, i);
    }
  }

  // ----- what is shown

  /**
   * What each health means, in the rows of the log: a key is valid (failing)
   * exactly when its first validation succeeded (failed) after every change,
   * or failing when, with no validation at all, an alert went out after every
   * change; it is pending when the key changed since; and never validated
   * when it is absent or nothing was ever said about it.
   */
  lemma HealthIs(log: seq<Event>, key: Key, present: bool, alertAt: Option<int>)
    ensures
      var h := HealthOf(log, key, present, alertAt);
      var alerted := NoValidation(log, key) && alertAt.Some?;
      && (h == Valid <==> (present && Stands(log, key, ValidationOk)))
      && (h == Failing <==>
          (present
           && (Stands(log, key, ValidationFailed) || (alerted && ChangesBefore(log, key, alertAt.value)))))
      && (h == PendingValidation <==>
          (present && (Superseded(log, key) || (alerted && !ChangesBefore(log, key, alertAt.value)))))
      && (h == NeverValidated <==> (!present || (NoValidation(log, key) && alertAt == None)))
  {
    ValidationRow(log, key);
    ChangeRow(log, key);
    hide ChangesBefore, LastChange, Latest, IsStale;
    if Latest(log, key, VALIDATIONS).Some? {
      var i: nat :| FirstValidation(log, key, i) && log[i] == Latest(log, key, VALIDATIONS).value;
      forall j: nat | FirstValidation(log, key, j) ensures j == i {
        FirstIsUnique(log, key, i, j);
      }
      assert !NoValidation(log, key);
    } else {
      assert forall i: nat :: !FirstValidation(log, key, i);
    }
  }

  // ----- what the operations write

  /**
   * A validation adds its own row, with its outcome and its date, unless
   * repeats are dropped and the first validation of the key has that outcome
   * and postdates every change.
   */
  lemma RecordedIff(hash: string -> string, dedup: bool, s: State, key: Key, ok: bool, at: int)
    ensures
      var kind := if ok then ValidationOk else ValidationFailed;
      Do(hash, dedup, s, Validate(key, ok, at)) ==
        if dedup && Stands(s.log, key, kind) then s else s.(log := s.log + [Event(key, kind, None, at)])
  {
    ValidationRow(s.log, key);
    ChangeRow(s.log, key);
    hide ChangesBefore, LastChange, Latest, IsStale;
    if Latest(s.log, key, VALIDATIONS).Some? {
      var i: nat :| FirstValidation(s.log, key, i) && s.log[i] == Latest(s.log, key, VALIDATIONS).value;
      forall j: nat | FirstValidation(s.log, key, j) ensures j == i {
        FirstIsUnique(s.log, key, i, j);
      }
    } else {
      assert forall i: nat :: !FirstValidation(s.log, key, i);
    }
  }

  /** The first change of the key, if any, carries this fingerprint; without one there is none. */
  ghost predicate Known(log: seq<Event>, key: Key, fingerprint: Option<string>) {
    if fingerprint.Some? then exists i: nat :: FirstChange(log, key, i) && log[i].fingerprint == fingerprint
    else forall i: nat :: FirstChange(log, key, i) ==> log[i].fingerprint == None
  }

  /**
   * A look at a key adds a change exactly when its lawyer is active and the
   * fingerprint of what is stored, none for nothing or an empty blob, is not
   * that of its first change.
   */
  lemma ScanIs(hash: string -> string, dedup: bool, s: State, key: Key, at: int)
    ensures
      var stored := if key in s.blobs && |s.blobs[key]| > 0 then Some(hash(s.blobs[key])) else None;
      Do(hash, dedup, s, ScanOne(key, at)) ==
        if key.lawyer !in s.active || Known(s.log, key, stored) then s
        else s.(log := s.log + [Event(key, ValueChanged, stored, at)])
  {
    ChangeRow(s.log, key);
    hide LastChange;
    if LastChange(s.log, key).Some? {
      var i: nat :| FirstChange(s.log, key, i) && s.log[i] == LastChange(s.log, key).value;
      forall j: nat | FirstChange(s.log, key, j) ensures j == i {
        FirstIsUnique(s.log, key, i, j);
      }
    } else {
      assert forall i: nat :: !FirstChange(s.log, key, i);
    }
  }

  /** A scan looks at the PJUD key and the ClaveUnica of every lawyer it is given, in that order. */
  lemma ScanCovers(lawyers: seq<int>, clock: nat -> int, k: nat)
    requires k < |lawyers|
    ensures
      var steps := ScanSteps(lawyers, clock);
      && |steps| == 2 * |lawyers|
      && steps[2 * k] == ScanOne(Key(lawyers[k], Pjud), clock(2 * k))
      && steps[2 * k + 1] == ScanOne(Key(lawyers[k], ClaveUnica), clock(2 * k + 1))
  {}

  // ----- what the next reading shows

  /** After a validation later than every change, the key shows the outcome, whether or not a row was added. */
  lemma ValidationShows(hash: string -> string, dedup: bool, s: State, key: Key, ok: bool, at: int,
                        alertAt: Option<int>)
    requires NotAfter(s.log, at) && ChangesBefore(s.log, key, at)
    ensures HealthOf(Do(hash, dedup, s, Validate(key, ok, at)).log, key, true, alertAt) ==
      if ok then Valid else Failing
  {
    var kind := if ok then ValidationOk else ValidationFailed;
    var after := Do(hash, dedup, s, Validate(key, ok, at)).log;
    RecordedIff(hash, dedup, s, key, ok, at);
    HealthIs(after, key, true, alertAt);
    hide HealthOf, Do;
    if after != s.log {
      assert FirstValidation(after, key, |s.log|);
      assert ChangesBefore(after, key, at);
    }
    assert Stands(after, key, kind);
  }

  /** After a recorded change, a key that is present and was already judged is pending. */
  lemma ChangeShows(hash: string -> string, dedup: bool, s: State, key: Key, at: int, alertAt: Option<int>)
    requires NotAfter(s.log, at) && key.lawyer in s.active
    requires key in s.blobs && |s.blobs[key]| > 0 && !Known(s.log, key, Some(hash(s.blobs[key])))
    requires !NoValidation(s.log, key) || (alertAt.Some? && alertAt.value <= at)
    ensures HealthOf(Do(hash, dedup, s, ScanOne(key, at)).log, key, true, alertAt) == PendingValidation
  {
    var e := Event(key, ValueChanged, Some(hash(s.blobs[key])), at);
    var after := s.log + [e];
    ScanIs(hash, dedup, s, key, at);
    HealthIs(after, key, true, alertAt);
    hide HealthOf, Do, Known;
    assert after[|s.log|] == e && IsChange(after[|s.log|], key);
    if NoValidation(s.log, key) {
      assert !ChangesBefore(after, key, alertAt.value);
    } else {
      ValidationRow(after, key);
      var v: nat :| v < |s.log| && IsValidation(s.log[v], key);
      assert IsValidation(after[v], key);
      var i: nat :| FirstValidation(after, key, i);
      assert after[i].at <= at;
      assert Superseded(after, key);
    }
  }
}
