/**
 * The queue of connection requests: concurrent workers select a row, commit
 * its claim or crash in between, while callers enqueue and write statuses.
 */
module ConnectionQueue {
  import opened Options

  const PENDING := "pending"
  const CONNECTING := "connecting"

  datatype Job = Job(lawyer: int, rut: string, authMethod: string, captcha: Option<string>)

  datatype Row = Row(job: Job, status: string, sessionId: Option<string>, casesSynced: Option<int>,
                     error: Option<string>, createdAt: int, pickedAt: Option<int>, updatedAt: int)

  datatype Handout = Handout(worker: int, id: string)

  /** `claims` maps a worker inside a dequeue to the row it selected; `handed` lists the committed dequeues. */
  datatype State = State(rows: map<string, Row>, claims: map<int, string>, handed: seq<Handout>)

  const EMPTY := State(map[], map[], [])

  function NewRow(job: Job, now: int): Row { Row(job, PENDING, None, None, None, now, None, now) }

  function Picked(row: Row, now: int): Row {
    row.(status := CONNECTING, pickedAt := Some(now), updatedAt := now)
  }

  /** The columns of a status write; `None` where the caller does not name one. */
  datatype Fields = Fields(status: Option<string>, sessionId: Option<Option<string>>,
                           casesSynced: Option<Option<int>>, error: Option<Option<string>>)

  function Named<T>(given: Option<T>, kept: T): T {
    match given case None => kept case Some(value) => value
  }

  function Updated(row: Row, f: Fields, now: int): Row {
    row.(status := Named(f.status, row.status), sessionId := Named(f.sessionId, row.sessionId),
         casesSynced := Named(f.casesSynced, row.casesSynced), error := Named(f.error, row.error), updatedAt := now)
  }

  predicate Waiting(s: State, id: string) { id in s.rows && s.rows[id].status == PENDING }

  /** Pending rows a select may return: with row locks, those no one holds. */
  predicate Free(locking: bool, s: State, id: string) {
    id in s.rows && s.rows[id].status == PENDING && (locking ==> id !in s.claims.Values)
  }

  /** A free row no other free row is older than; among equals the database may return any. */
  ghost predicate Oldest(locking: bool, s: State, id: string) {
    Free(locking, s, id) && forall other :: Free(locking, s, other) ==> s.rows[id].createdAt <= s.rows[other].createdAt
  }

  datatype Step =
    | Enqueue(id: string, job: Job, at: int)
    | Select(worker: int, id: string)
    | Commit(worker: int, at: int)
    | Crash(worker: int)
    | Write(id: string, fields: Fields, at: int)

  /** One step of some client; a step that is not possible, or waits for a lock, changes nothing. */
  ghost function Next(locking: bool, s: State, step: Step): State {
    match step
    case Enqueue(id, job, at) => if id in s.rows then s else s.(rows := s.rows[id := NewRow(job, at)])
    case Select(w, id) => if w !in s.claims && Oldest(locking, s, id) then s.(claims := s.claims[w := id]) else s
    case Commit(w, at) =>
      if w in s.claims && s.claims[w] in s.rows then
        var id := s.claims[w];
        State(s.rows[id := Picked(s.rows[id], at)], s.claims - {w}, s.handed + [Handout(w, id)])
      else s
    case Crash(w) => s.(claims := s.claims - {w})
    case Write(id, fields, at) =>
      if id in s.rows && (locking ==> id !in s.claims.Values) then
        s.(rows := s.rows[id := Updated(s.rows[id], fields, at)])
      else s
  }

  ghost function Run(locking: bool, s: State, steps: seq<Step>): State {
    if steps == [] then s else Next(locking, Run(locking, s, steps[..|steps| - 1]), steps[|steps| - 1])
  }

  /** No caller writes the status "pending". */
  predicate NoRequeue(steps: seq<Step>) {
    forall i :: 0 <= i < |steps| && steps[i].Write? ==> steps[i].fields.status != Some(PENDING)
  }

  ghost predicate WasHanded(s: State, id: string) { exists i :: 0 <= i < |s.handed| && s.handed[i].id == id }

  ghost predicate HandedOnce(s: State) {
    forall i, j :: 0 <= i < j < |s.handed| ==> s.handed[i].id != s.handed[j].id
  }

  lemma HandedGrows(s: State, t: State, h: Handout)
    requires t.handed == s.handed + [h]
    ensures forall id :: WasHanded(t, id) <==> WasHanded(s, id) || id == h.id
  {
    forall id ensures WasHanded(t, id) <==> WasHanded(s, id) || id == h.id {
      if WasHanded(s, id) {
        var i :| 0 <= i < |s.handed| && s.handed[i].id == id;
        assert t.handed[i].id == id;
      }
      assert t.handed[|s.handed|].id == h.id;
    }
  }

  // ----- the two hazards

  /** The step writes "pending" back on a row that was handed out, and is let through. */
  ghost predicate Requeues(locking: bool, s: State, step: Step) {
    && step.Write? && step.id in s.rows && (locking ==> step.id !in s.claims.Values)
    && step.fields.status == Some(PENDING) && WasHanded(s, step.id)
  }

  /** The step selects a row another worker holds; row locks rule it out. */
  ghost predicate SelectsHeld(locking: bool, s: State, step: Step) {
    step.Select? && step.worker !in s.claims && Oldest(locking, s, step.id) && step.id in s.claims.Values
  }

  ghost predicate Hazard(locking: bool, s: State, step: Step) {
    Requeues(locking, s, step) || SelectsHeld(locking, s, step)
  }

  /** No row was handed out twice or is about to be: every row is waiting, held by one worker, or handed out. */
  ghost predicate Apart(s: State) {
    && HandedOnce(s)
    && (forall id :: WasHanded(s, id) ==> id in s.rows && s.rows[id].status != PENDING)
    && (forall w :: w in s.claims ==> s.claims[w] in s.rows && !WasHanded(s, s.claims[w]))
    && (forall v, w :: v in s.claims && w in s.claims && v != w ==> s.claims[v] != s.claims[w])
  }

  lemma Claimant<K, V>(claims: map<K, V>, id: V) returns (v: K)
    requires id in claims.Values
    ensures v in claims && claims[v] == id
  {
    v :| v in claims && claims[v] == id;
  }

  lemma SameHanded(s: State, t: State)
    requires s.handed == t.handed
    ensures HandedOnce(s) == HandedOnce(t) && forall id :: WasHanded(s, id) <==> WasHanded(t, id)
  {
    forall id ensures WasHanded(s, id) <==> WasHanded(t, id) {}
  }

  lemma CommitStaysApart(locking: bool, s: State, w: int, at: int)
    requires Apart(s)
    ensures Apart(Next(locking, s, Commit(w, at)))
  {
    if w in s.claims {
      var id := s.claims[w];
      var t := Next(locking, s, Commit(w, at));
      HandedGrows(s, t, Handout(w, id));
      forall i, j | 0 <= i < j < |t.handed| ensures t.handed[i].id != t.handed[j].id {
        assert WasHanded(s, s.handed[i].id);
      }
    }
  }

  lemma SelectStaysApartIff(locking: bool, s: State, w: int, id: string)
    requires Apart(s)
    ensures Apart(Next(locking, s, Select(w, id))) <==> !SelectsHeld(locking, s, Select(w, id))
  {
    var t := Next(locking, s, Select(w, id));
    SameHanded(s, t);
    if w !in s.claims && Oldest(locking, s, id) {
      assert !WasHanded(s, id);
      assert t.claims[w] == id;
      if id in s.claims.Values {
        var v := Claimant(s.claims, id);
        assert v in t.claims && t.claims[v] == t.claims[w] && v != w;
      } else {
        assert forall v :: v in s.claims ==> s.claims[v] in s.claims.Values;
      }
    }
  }

  lemma WriteStaysApartIff(locking: bool, s: State, id: string, f: Fields, at: int)
    requires Apart(s)
    ensures Apart(Next(locking, s, Write(id, f, at))) <==> !Requeues(locking, s, Write(id, f, at))
  {
    var t := Next(locking, s, Write(id, f, at));
    SameHanded(s, t);
    if Requeues(locking, s, Write(id, f, at)) {
      assert WasHanded(t, id) && t.rows[id].status == PENDING;
    }
  }

  /** A step keeps the rows apart exactly when it is neither hazard. */
  lemma StaysApartIff(locking: bool, s: State, step: Step)
    requires Apart(s)
    ensures Apart(Next(locking, s, step)) <==> !Hazard(locking, s, step)
  {
    match step
    case Enqueue(id, job, at) => SameHanded(s, Next(locking, s, step));
    case Select(w, id) => SelectStaysApartIff(locking, s, w, id);
    case Commit(w, at) => CommitStaysApart(locking, s, w, at);
    case Crash(w) => SameHanded(s, Next(locking, s, step));
    case Write(id, fields, at) => WriteStaysApartIff(locking, s, id, fields, at);
  }

  /** With row locks only a requeue is a hazard. */
  lemma LocksPreventHeld(s: State, step: Step)
    ensures !SelectsHeld(true, s, step)
  {}

  // ----- each row is handed out at most once

  /** Every state of the run is apart. */
  ghost predicate ApartThroughout(locking: bool, steps: seq<Step>) {
    forall n :: 0 <= n <= |steps| ==> Apart(Run(locking, EMPTY, steps[..n]))
  }

  ghost predicate HazardAt(locking: bool, steps: seq<Step>, n: nat)
    requires n < |steps|
  {
    Hazard(locking, Run(locking, EMPTY, steps[..n]), steps[n])
  }

  lemma RunTake(locking: bool, s: State, steps: seq<Step>, n: nat)
    requires n < |steps|
    ensures Run(locking, s, steps[..n + 1]) == Next(locking, Run(locking, s, steps[..n]), steps[n])
  {
    assert steps[..n + 1][..n] == steps[..n];
  }

  lemma {:induction false} ApartUpTo(locking: bool, steps: seq<Step>, n: nat)
    requires n <= |steps| && forall i :: 0 <= i < n ==> !HazardAt(locking, steps, i)
    ensures Apart(Run(locking, EMPTY, steps[..n]))
  {
    if n > 0 {
      ApartUpTo(locking, steps, n - 1);
      RunTake(locking, EMPTY, steps, n - 1);
      StaysApartIff(locking, Run(locking, EMPTY, steps[..n - 1]), steps[n - 1]);
      assert !HazardAt(locking, steps, n - 1);
    }
  }

  /**
   * Over every interleaving, with row locks or without, the rows stay apart, so
   * each is handed out by at most one committed dequeue, if and only if no step
   * of the run is a hazard.
   */
  lemma ApartThroughoutIff(locking: bool, steps: seq<Step>)
    ensures ApartThroughout(locking, steps) <==> forall n :: 0 <= n < |steps| ==> !HazardAt(locking, steps, n)
  {
    if forall n :: 0 <= n < |steps| ==> !HazardAt(locking, steps, n) {
      forall n | 0 <= n <= |steps| ensures Apart(Run(locking, EMPTY, steps[..n])) {
        ApartUpTo(locking, steps, n);
      }
    }
    if ApartThroughout(locking, steps) {
      forall n | 0 <= n < |steps| ensures !HazardAt(locking, steps, n) {
        assert Apart(Run(locking, EMPTY, steps[..n])) && Apart(Run(locking, EMPTY, steps[..n + 1]));
        RunTake(locking, EMPTY, steps, n);
        StaysApartIff(locking, Run(locking, EMPTY, steps[..n]), steps[n]);
      }
    }
  }

  /** With row locks, and only there, every claimed row is waiting and held by one worker. */
  ghost predicate Held(s: State) {
    && (forall w :: w in s.claims ==> Waiting(s, s.claims[w]))
    && (forall v, w :: v in s.claims && w in s.claims && v != w ==> s.claims[v] != s.claims[w])
  }

  lemma LocksHoldStep(s: State, step: Step)
    requires Held(s)
    ensures Held(Next(true, s, step))
  {
    assert forall w :: w in s.claims ==> s.claims[w] in s.claims.Values;
  }

  /** Whatever the callers write, with row locks claimed rows stay waiting and are never shared. */
  lemma {:induction false} LocksHold(steps: seq<Step>)
    ensures Held(Run(true, EMPTY, steps))
  {
    if steps != [] {
      LocksHold(steps[..|steps| - 1]);
      LocksHoldStep(Run(true, EMPTY, steps[..|steps| - 1]), steps[|steps| - 1]);
    }
  }

  /**
   * With row locks each row is handed out by at most one committed dequeue, and
   * none that was handed out waits again, if and only if no status write puts
   * "pending" on a row handed out and not claimed.
   */
  lemma HandedOutAtMostOnce(steps: seq<Step>)
    ensures ApartThroughout(true, steps)
       <==> forall n :: 0 <= n < |steps| ==> !RequeueAt(steps, n)
  {
    ApartThroughoutIff(true, steps);
    forall n | 0 <= n < |steps| ensures HazardAt(true, steps, n) <==> RequeueAt(steps, n) {
      LocksPreventHeld(Run(true, EMPTY, steps[..n]), steps[n]);
    }
  }

  ghost predicate RequeueAt(steps: seq<Step>, n: nat)
    requires n < |steps|
  {
    Requeues(true, Run(true, EMPTY, steps[..n]), steps[n])
  }

  /** One worker needs no locks: only a requeue can make it hand out a row twice. */
  lemma OneWorkerNeedsNoLocks(steps: seq<Step>, w: int)
    requires forall i :: 0 <= i < |steps| && (steps[i].Select? || steps[i].Commit? || steps[i].Crash?) ==>
      steps[i].worker == w
    ensures ApartThroughout(false, steps)
       <==> forall n :: 0 <= n < |steps| ==> !Requeues(false, Run(false, EMPTY, steps[..n]), steps[n])
  {
    ApartThroughoutIff(false, steps);
    forall n | 0 <= n < |steps|
      ensures HazardAt(false, steps, n) <==> Requeues(false, Run(false, EMPTY, steps[..n]), steps[n])
    {
      var s := Run(false, EMPTY, steps[..n]);
      OnlyWorkerClaims(false, steps[..n], w);
      if SelectsHeld(false, s, steps[n]) {
        var v := Claimant(s.claims, steps[n].id);
      }
    }
  }

  lemma {:induction false} OnlyWorkerClaims(locking: bool, steps: seq<Step>, w: int)
    requires forall i :: 0 <= i < |steps| && (steps[i].Select? || steps[i].Commit? || steps[i].Crash?) ==>
      steps[i].worker == w
    ensures forall v :: v in Run(locking, EMPTY, steps).claims ==> v == w
  {
    if steps != [] {
      OnlyWorkerClaims(locking, steps[..|steps| - 1], w);
    }
  }

  // ----- what a caller can see

  /** A row shows whether it was handed out: `picked_at` is set. */
  lemma {:induction false} HandedIffPicked(locking: bool, steps: seq<Step>, id: string)
    ensures
      var s := Run(locking, EMPTY, steps);
      && (WasHanded(s, id) <==> id in s.rows && s.rows[id].pickedAt.Some?)
      && forall w :: w in s.claims ==> s.claims[w] in s.rows
  {
    if steps != [] {
      var before, step := Run(locking, EMPTY, steps[..|steps| - 1]), steps[|steps| - 1];
      HandedIffPicked(locking, steps[..|steps| - 1], id);
      if step.Commit? && step.worker in before.claims {
        HandedGrows(before, Run(locking, EMPTY, steps), Handout(step.worker, before.claims[step.worker]));
      } else {
        SameHanded(before, Run(locking, EMPTY, steps));
      }
    }
  }

  /** Row `id` was handed out and waits again. */
  ghost predicate WaitsAgain(locking: bool, steps: seq<Step>, n: nat, id: string)
    requires n <= |steps|
  {
    var s := Run(locking, EMPTY, steps[..n]);
    WasHanded(s, id) && Waiting(s, id)
  }

  /** Step `n` puts "pending" on row `id`, which was handed out. */
  ghost predicate RequeuesRow(locking: bool, steps: seq<Step>, n: nat, id: string)
    requires n < |steps|
  {
    Requeues(locking, Run(locking, EMPTY, steps[..n]), steps[n]) && steps[n].id == id
  }

  lemma WaitsAgainStep(locking: bool, steps: seq<Step>, n: nat, id: string)
    requires n < |steps| && !WaitsAgain(locking, steps, n, id)
    ensures WaitsAgain(locking, steps, n + 1, id) <==> RequeuesRow(locking, steps, n, id)
  {
    var s, t := Run(locking, EMPTY, steps[..n]), Run(locking, EMPTY, steps[..n + 1]);
    RunTake(locking, EMPTY, steps, n);
    HandedIffPicked(locking, steps[..n], id);
    HandedIffPicked(locking, steps[..n + 1], id);
  }

  lemma {:induction false} WaitsAgainUpTo(locking: bool, steps: seq<Step>, k: nat, id: string)
    requires k <= |steps| && forall n :: 0 <= n < k ==> !RequeuesRow(locking, steps, n, id)
    ensures !WaitsAgain(locking, steps, k, id)
  {
    if k > 0 {
      WaitsAgainUpTo(locking, steps, k - 1, id);
      WaitsAgainStep(locking, steps, k - 1, id);
      assert !RequeuesRow(locking, steps, k - 1, id);
    }
  }

  /**
   * A row handed out never waits again if and only if no write puts "pending"
   * back on it, whatever happens to the other rows, with row locks or without.
   */
  lemma NeverPendingAgain(locking: bool, steps: seq<Step>, id: string)
    ensures (forall n :: 0 <= n <= |steps| ==> !WaitsAgain(locking, steps, n, id))
       <==> forall n :: 0 <= n < |steps| ==> !RequeuesRow(locking, steps, n, id)
  {
    if forall n :: 0 <= n < |steps| ==> !RequeuesRow(locking, steps, n, id) {
      forall n | 0 <= n <= |steps| ensures !WaitsAgain(locking, steps, n, id) {
        WaitsAgainUpTo(locking, steps, n, id);
      }
    }
    if forall n :: 0 <= n <= |steps| ==> !WaitsAgain(locking, steps, n, id) {
      forall n | 0 <= n < |steps| ensures !RequeuesRow(locking, steps, n, id) {
        assert !WaitsAgain(locking, steps, n, id) && !WaitsAgain(locking, steps, n + 1, id);
        WaitsAgainStep(locking, steps, n, id);
      }
    }
  }

  /** A crash before the commit loses nothing: the row is free again. */
  lemma CrashFreesTheRow(s: State, w: int)
    requires Held(s) && w in s.claims
    ensures
      var t := Next(true, s, Crash(w));
      t.rows == s.rows && t.handed == s.handed && Free(true, t, s.claims[w])
  {
    var t := Next(true, s, Crash(w));
    assert forall v :: v in t.claims ==> v in s.claims && t.claims[v] == s.claims[v] && v != w;
  }

  // ----- each hazard can end in a double dispatch

  lemma {:induction false} RunAppend(locking: bool, s: State, a: seq<Step>, b: seq<Step>)
    ensures Run(locking, s, a + b) == Run(locking, Run(locking, s, a), b)
    decreases |b|
  {
    if b == [] {
      assert a + b == a;
    } else {
      var n := |b| - 1;
      RunAppend(locking, s, a, b[..n]);
      assert (a + b)[..|a + b| - 1] == a + b[..n] && (a + b)[|a + b| - 1] == b[n];
    }
  }

  lemma RunOne(locking: bool, s: State, step: Step)
    ensures Run(locking, s, [step]) == Next(locking, s, step)
  {
    assert [step][..0] == [];
    assert Run(locking, s, []) == s;
  }

  lemma RunTwo(locking: bool, s: State, a: Step, b: Step)
    ensures Run(locking, s, [a, b]) == Next(locking, Next(locking, s, a), b)
  {
    assert [a, b] == [a] + [b];
    RunAppend(locking, s, [a], [b]);
    RunOne(locking, s, a);
    RunOne(locking, Next(locking, s, a), b);
  }

  const DONE := Fields(Some(CONNECTING), None, None, None)

  function FreeRows(locking: bool, s: State): set<string> { set id | id in s.rows && Free(locking, s, id) }

  /** Status writes on the other free rows make a free row the oldest one. */
  lemma {:induction false} MakeOldest(locking: bool, s: State, id: string) returns (writes: seq<Step>)
    requires Free(locking, s, id)
    ensures
      var t := Run(locking, s, writes);
      t.claims == s.claims && t.handed == s.handed && Oldest(locking, t, id)
    decreases |FreeRows(locking, s)|
  {
    if other :| Free(locking, s, other) && other != id {
      var step := Write(other, DONE, 0);
      var t := Next(locking, s, step);
      assert FreeRows(locking, t) < FreeRows(locking, s) by {
        assert other in FreeRows(locking, s) && other !in FreeRows(locking, t);
      }
      SmallerSet(FreeRows(locking, t), FreeRows(locking, s));
      var rest := MakeOldest(locking, t, id);
      writes := [step] + rest;
      RunAppend(locking, s, [step], rest);
      RunOne(locking, s, step);
    } else {
      writes := [];
    }
  }

  lemma SmallerSet<T>(a: set<T>, b: set<T>)
    requires a < b
    ensures |a| < |b|
  {
    assert |b| == |a| + |b - a| by {
      assert b == a + (b - a);
    }
    assert b - a != {};
  }

  lemma IdleWorker(claims: map<int, string>) returns (w: int)
    ensures w !in claims
  {
    var all := claims.Keys;
    w := BeyondAll(all);
  }

  lemma {:induction false} BeyondAll(ids: set<int>) returns (w: int)
    ensures forall x :: x in ids ==> x < w
    decreases |ids|
  {
    if x :| x in ids {
      w := BeyondAll(ids - {x});
      w := if w <= x then x + 1 else w;
      assert forall y :: y in ids ==> y == x || y in ids - {x};
    } else {
      w := 0;
    }
  }

  /** A free row can be handed out next. */
  lemma FreeCanBeHanded(locking: bool, s: State, id: string) returns (more: seq<Step>)
    requires Free(locking, s, id)
    ensures Run(locking, s, more).handed != s.handed
    ensures exists w :: Run(locking, s, more).handed == s.handed + [Handout(w, id)]
  {
    var writes := MakeOldest(locking, s, id);
    var t := Run(locking, s, writes);
    var w := IdleWorker(t.claims);
    var pick, take := Select(w, id), Commit(w, 0);
    more := writes + [pick, take];
    RunAppend(locking, s, writes, [pick, take]);
    RunTwo(locking, t, pick, take);
    assert Run(locking, s, more).handed == s.handed + [Handout(w, id)];
  }

  /** A write of "pending" on an unclaimed row makes it free, whether or not it was handed out. */
  lemma WritingPendingRequeues(locking: bool, s: State, id: string, f: Fields, at: int)
    requires id in s.rows && (locking ==> id !in s.claims.Values) && f.status == Some(PENDING)
    ensures Free(locking, Next(locking, s, Write(id, f, at)), id)
  {}

  /** After a hazard some continuation hands one row out twice. */
  lemma HazardCanDispatchTwice(locking: bool, s: State, step: Step) returns (more: seq<Step>)
    requires Apart(s) && Hazard(locking, s, step)
    ensures !HandedOnce(Run(locking, Next(locking, s, step), more))
  {
    var t := Next(locking, s, step);
    if Requeues(locking, s, step) {
      WritingPendingRequeues(locking, s, step.id, step.fields, step.at);
      more := FreeCanBeHanded(locking, t, step.id);
      var end := Run(locking, t, more);
      var w :| end.handed == s.handed + [Handout(w, step.id)];
      var i :| 0 <= i < |s.handed| && s.handed[i].id == step.id;
      assert end.handed[i].id == end.handed[|s.handed|].id;
    } else {
      var v := Claimant(s.claims, step.id);
      var w := step.worker;
      more := [Commit(v, 0), Commit(w, 0)];
      RunTwo(locking, t, Commit(v, 0), Commit(w, 0));
      var end := Run(locking, t, more);
      assert end.handed == s.handed + [Handout(v, step.id)] + [Handout(w, step.id)];
      assert end.handed[|s.handed|].id == end.handed[|s.handed| + 1].id;
    }
  }

  /** Without row locks two workers can be handed the same row. */
  lemma DoubleDispatchWithoutLocks(job: Job)
    ensures
      var steps := [Enqueue("a", job, 0), Select(1, "a"), Select(2, "a"), Commit(1, 1), Commit(2, 1)];
      NoRequeue(steps) && Run(false, EMPTY, steps).handed == [Handout(1, "a"), Handout(2, "a")]
  {
    var e, s1, s2, c1, c2 := Enqueue("a", job, 0), Select(1, "a"), Select(2, "a"), Commit(1, 1), Commit(2, 1);
    var row := NewRow(job, 0);
    RunFive(false, EMPTY, e, s1, s2, c1, c2);
    var q0 := Next(false, EMPTY, e);
    assert Oldest(false, q0, "a");
    var q1 := Next(false, q0, s1);
    assert q1 == State(map["a" := row], map[1 := "a"], []);
    assert Oldest(false, q1, "a");
    var q2 := Next(false, q1, s2);
    assert q2 == State(map["a" := row], map[1 := "a", 2 := "a"], []);
    var q3 := Next(false, q2, c1);
    assert q3.handed == [Handout(1, "a")] && q3.claims[2] == "a" && "a" in q3.rows;
  }

  lemma RunFive(locking: bool, s: State, a: Step, b: Step, c: Step, d: Step, e: Step)
    ensures Run(locking, s, [a, b, c, d, e]) ==
            Next(locking, Next(locking, Next(locking, Next(locking, Next(locking, s, a), b), c), d), e)
  {
    assert [a, b, c, d, e] == [a, b] + [c, d] + [e];
    RunAppend(locking, s, [a, b] + [c, d], [e]);
    RunAppend(locking, s, [a, b], [c, d]);
    RunTwo(locking, s, a, b);
    RunTwo(locking, Next(locking, Next(locking, s, a), b), c, d);
    RunOne(locking, Run(locking, s, [a, b] + [c, d]), e);
  }

  // ----- order

  /** The only worker is `w`, and requests are stamped in order. */
  predicate OneWorker(steps: seq<Step>, w: int) {
    && (forall i :: 0 <= i < |steps| ==>
          (steps[i].Select? || steps[i].Commit? || steps[i].Crash?) ==> steps[i].worker == w)
    && (forall i, j :: 0 <= i < j < |steps| && steps[i].Enqueue? && steps[j].Enqueue? ==> steps[i].at <= steps[j].at)
  }

  function CreatedAt(s: State, id: string): int { if id in s.rows then s.rows[id].createdAt else 0 }

  /** Rows handed out are in order of arrival, none of them after a waiting row; and so is the row in hand. */
  ghost predicate InOrder(s: State, w: int) {
    && (w in s.claims ==> forall id :: Waiting(s, id) ==> CreatedAt(s, s.claims[w]) <= CreatedAt(s, id))
    && (forall i, id :: 0 <= i < |s.handed| && Waiting(s, id) ==> CreatedAt(s, s.handed[i].id) <= CreatedAt(s, id))
    && (forall i, j :: 0 <= i < j < |s.handed| ==> CreatedAt(s, s.handed[i].id) <= CreatedAt(s, s.handed[j].id))
  }

  /** The write puts back a row that arrived before the row in hand or one handed out. */
  ghost predicate PutsBackEarlier(s: State, w: int, step: Step) {
    && step.Write? && step.id in s.rows && step.id !in s.claims.Values && step.fields.status == Some(PENDING)
    && ((w in s.claims && CreatedAt(s, step.id) < CreatedAt(s, s.claims[w]))
        || exists i :: 0 <= i < |s.handed| && CreatedAt(s, step.id) < CreatedAt(s, s.handed[i].id))
  }

  /** Only `w` holds a row, a waiting one, and rows handed out are known. */
  ghost predicate Attended(s: State, w: int) {
    && Held(s) && (forall v :: v in s.claims ==> v == w)
    && forall i :: 0 <= i < |s.handed| ==> s.handed[i].id in s.rows
  }

  lemma {:induction false} StaysAttended(steps: seq<Step>, w: int)
    requires OneWorker(steps, w)
    ensures Attended(Run(true, EMPTY, steps), w)
  {
    if steps != [] {
      StaysAttended(steps[..|steps| - 1], w);
      LocksHoldStep(Run(true, EMPTY, steps[..|steps| - 1]), steps[|steps| - 1]);
    }
  }

  lemma {:induction false} DatedBy(steps: seq<Step>, clock: int, id: string)
    requires forall i :: 0 <= i < |steps| && steps[i].Enqueue? ==> steps[i].at <= clock
    requires id in Run(true, EMPTY, steps).rows
    ensures CreatedAt(Run(true, EMPTY, steps), id) <= clock
  {
    var before, step := Run(true, EMPTY, steps[..|steps| - 1]), steps[|steps| - 1];
    if id in before.rows {
      DatedBy(steps[..|steps| - 1], clock, id);
    }
  }

  lemma SelectInOrder(s: State, w: int, id: string)
    requires Attended(s, w) && InOrder(s, w)
    ensures InOrder(Next(true, s, Select(w, id)), w)
  {
    if w !in s.claims {
      assert forall v :: v in s.claims.Keys ==> v in s.claims && v == w;
      assert s.claims.Keys == {} && s.claims == map[];
      assert forall x :: Waiting(s, x) <==> Free(true, s, x);
    }
  }

  lemma CommitInOrder(s: State, w: int, at: int)
    requires Attended(s, w) && InOrder(s, w)
    ensures InOrder(Next(true, s, Commit(w, at)), w)
  {
    if w in s.claims {
      var t := Next(true, s, Commit(w, at));
      assert forall x :: CreatedAt(t, x) == CreatedAt(s, x);
      assert forall x :: Waiting(t, x) ==> Waiting(s, x);
      assert Waiting(s, s.claims[w]);
    }
  }

  lemma WriteInOrderIff(s: State, w: int, id: string, f: Fields, at: int)
    requires Attended(s, w) && InOrder(s, w)
    ensures InOrder(Next(true, s, Write(id, f, at)), w) <==> !PutsBackEarlier(s, w, Write(id, f, at))
  {
    var t := Next(true, s, Write(id, f, at));
    assert t.claims == s.claims && t.handed == s.handed && forall x :: CreatedAt(t, x) == CreatedAt(s, x);
    assert forall x :: x != id ==> (Waiting(t, x) <==> Waiting(s, x));
    if PutsBackEarlier(s, w, Write(id, f, at)) {
      assert Waiting(t, id);
    } else if id !in s.claims.Values && f.status == Some(PENDING) && id in s.rows {
      assert forall i :: 0 <= i < |s.handed| ==> CreatedAt(s, s.handed[i].id) <= CreatedAt(s, id);
    } else {
      assert Waiting(t, id) ==> Waiting(s, id);
    }
  }

  /** For one worker a step keeps the order of arrival exactly when it puts no earlier row back. */
  lemma StaysInOrderIff(s: State, w: int, step: Step)
    requires Attended(s, w) && InOrder(s, w)
    requires step.Select? || step.Commit? || step.Crash? ==> step.worker == w
    requires step.Enqueue? ==> forall id :: id in s.rows ==> CreatedAt(s, id) <= step.at
    ensures InOrder(Next(true, s, step), w) <==> !PutsBackEarlier(s, w, step)
  {
    var t := Next(true, s, step);
    match step
    case Enqueue(id, job, at) =>
      assert forall x :: x in s.rows ==> CreatedAt(t, x) == CreatedAt(s, x);
      assert forall x :: Waiting(t, x) ==> Waiting(s, x) || (x == id && x !in s.rows);
    case Select(v, id) => SelectInOrder(s, w, id);
    case Commit(v, at) => CommitInOrder(s, w, at);
    case Crash(v) => assert forall x :: CreatedAt(t, x) == CreatedAt(s, x);
    case Write(id, fields, at) => WriteInOrderIff(s, w, id, fields, at);
  }

  lemma InOrderStep(steps: seq<Step>, w: int, n: nat)
    requires OneWorker(steps, w) && n < |steps| && InOrder(Run(true, EMPTY, steps[..n]), w)
    ensures InOrder(Run(true, EMPTY, steps[..n + 1]), w) <==> !PutsBackAt(steps, w, n)
  {
    var s := Run(true, EMPTY, steps[..n]);
    StaysAttended(steps[..n], w);
    if steps[n].Enqueue? {
      forall id | id in s.rows ensures CreatedAt(s, id) <= steps[n].at {
        DatedBy(steps[..n], steps[n].at, id);
      }
    }
    RunTake(true, EMPTY, steps, n);
    StaysInOrderIff(s, w, steps[n]);
  }

  ghost predicate PutsBackAt(steps: seq<Step>, w: int, n: nat)
    requires n < |steps|
  {
    PutsBackEarlier(Run(true, EMPTY, steps[..n]), w, steps[n])
  }

  lemma {:induction false} InOrderUpTo(steps: seq<Step>, w: int, n: nat)
    requires OneWorker(steps, w) && n <= |steps|
    requires forall k :: 0 <= k < |steps| ==> !PutsBackAt(steps, w, k)
    ensures InOrder(Run(true, EMPTY, steps[..n]), w)
  {
    if n > 0 {
      InOrderUpTo(steps, w, n - 1);
      InOrderStep(steps, w, n - 1);
    }
  }

  /**
   * With one worker requests are handed out in order of arrival, crashes and
   * status writes included, if and only if no write puts a row back that
   * arrived before one already in hand or handed out.
   */
  lemma OneWorkerIsFair(steps: seq<Step>, w: int)
    requires OneWorker(steps, w)
    ensures (forall n :: 0 <= n <= |steps| ==> InOrder(Run(true, EMPTY, steps[..n]), w))
       <==> forall n :: 0 <= n < |steps| ==> !PutsBackAt(steps, w, n)
  {
    if forall n :: 0 <= n < |steps| ==> !PutsBackAt(steps, w, n) {
      forall n | 0 <= n <= |steps| ensures InOrder(Run(true, EMPTY, steps[..n]), w) {
        InOrderUpTo(steps, w, n);
      }
    }
    if forall n :: 0 <= n <= |steps| ==> InOrder(Run(true, EMPTY, steps[..n]), w) {
      forall n | 0 <= n < |steps| ensures !PutsBackAt(steps, w, n) {
        assert InOrder(Run(true, EMPTY, steps[..n]), w) && InOrder(Run(true, EMPTY, steps[..n + 1]), w);
        InOrderStep(steps, w, n);
      }
    }
  }

  // ----- the calls

  ghost predicate AnyFree(locking: bool, s: State) { exists id :: Free(locking, s, id) }

  lemma OldestExists(rows: map<string, Row>, ids: set<string>)
    requires ids != {} && ids <= rows.Keys
    ensures exists id :: id in ids && forall other :: other in ids ==> rows[id].createdAt <= rows[other].createdAt
  {
    var x :| x in ids;
    if ids == {x} {
      assert forall other :: other in ids ==> rows[x].createdAt <= rows[other].createdAt;
    } else {
      OldestExists(rows, ids - {x});
      var m :| m in ids - {x} && forall other :: other in ids - {x} ==> rows[m].createdAt <= rows[other].createdAt;
      var least := if rows[x].createdAt < rows[m].createdAt then x else m;
      assert forall other :: other in ids ==> other == x || other in ids - {x};
      assert least in ids && forall other :: other in ids ==> rows[least].createdAt <= rows[other].createdAt;
    }
  }

  // ----- the columns of a row

  /** A column keeps its value unless the write names it. */
  predicate Column<T(==)>(given: Option<T>, before: T, after: T) {
    match given
    case None => after == before
    case Some(value) => after == value
  }

  /** A write to a row it may touch: the four columns it can name, the date, and nothing else. */
  predicate WrittenBy(f: Fields, now: int, before: Row, after: Row) {
    && Column(f.status, before.status, after.status) && Column(f.sessionId, before.sessionId, after.sessionId)
    && Column(f.casesSynced, before.casesSynced, after.casesSynced) && Column(f.error, before.error, after.error)
    && after.updatedAt == now && after.job == before.job && after.createdAt == before.createdAt
    && after.pickedAt == before.pickedAt
  }

  /** What was there stays there, and only `id` may differ. */
  ghost predicate OnlyAt(before: map<string, Row>, after: map<string, Row>, id: string) {
    && (forall other :: other in before ==> other in after)
    && (forall other :: other in after && other != id ==> other in before && after[other] == before[other])
  }

  /** Every column of every row after a step. */
  lemma ColumnsAfter(locking: bool, s: State, step: Step)
    ensures
      var after := Next(locking, s, step).rows;
      match step
      case Enqueue(n, job, at) =>
        && OnlyAt(s.rows, after, n) && n in after
        && if n in s.rows then after[n] == s.rows[n] else
             && after[n].job == job && after[n].status == "pending" && after[n].createdAt == at
             && after[n].updatedAt == at && after[n].sessionId == None && after[n].casesSynced == None
             && after[n].error == None && after[n].pickedAt == None
      case Select(_, _) => after == s.rows
      case Crash(_) => after == s.rows
      case Commit(w, at) =>
        if w in s.claims && s.claims[w] in s.rows then
          var n := s.claims[w];
          && OnlyAt(s.rows, after, n) && n in after
          && after[n].status == "connecting" && after[n].pickedAt == Some(at) && after[n].updatedAt == at
          && after[n].job == s.rows[n].job && after[n].createdAt == s.rows[n].createdAt
          && after[n].sessionId == s.rows[n].sessionId && after[n].casesSynced == s.rows[n].casesSynced
          && after[n].error == s.rows[n].error
        else after == s.rows
      case Write(n, f, at) =>
        if n in s.rows && (locking ==> forall w :: w in s.claims ==> s.claims[w] != n) then
          OnlyAt(s.rows, after, n) && n in after && WrittenBy(f, at, s.rows[n], after[n])
        else after == s.rows
  {
    if step.Write? && step.id in s.claims.Values {
      var w := Claimant(s.claims, step.id);
    }
  }

  /** Over any continuation a row stays, with the job and the date it was queued with. */
  lemma {:induction false} JobsNeverChange(locking: bool, s: State, steps: seq<Step>, id: string)
    requires id in s.rows
    ensures
      var after := Run(locking, s, steps).rows;
      id in after && after[id].job == s.rows[id].job && after[id].createdAt == s.rows[id].createdAt
  {
    hide Next;
    if steps != [] {
      JobsNeverChange(locking, s, steps[..|steps| - 1], id);
      ColumnsAfter(locking, Run(locking, s, steps[..|steps| - 1]), steps[|steps| - 1]);
    }
  }

  class Queue {
    const locking: bool
    var rows: map<string, Row>
    var claims: map<int, string>
    ghost var handed: seq<Handout>

    ghost function View(): State
      reads this
    {
      State(rows, claims, handed)
    }

    /** `id` is the fresh identifier drawn for the request. */
    method EnqueueConnection(id: string, job: Job, now: int)
      requires id !in rows
      modifies this
      ensures View() == Next(locking, old(View()), Enqueue(id, job, now))
      ensures Waiting(View(), id) && rows[id].job == job && rows[id].createdAt == now && rows[id].error == None
      ensures rows[id].sessionId == None && rows[id].casesSynced == None && rows[id].pickedAt == None
    {
      rows := rows[id := Row(job, "pending", None, None, None, now, None, now)];
    }

    /** An undisturbed dequeue: claims the oldest free row, or reports that there is none. */
    method DequeueConnection(worker: int, now: int) returns (job: Option<(string, Job)>)
      requires worker !in claims
      modifies this
      ensures job.Some? <==> old(AnyFree(locking, View()))
      ensures job.None? ==> View() == old(View())
      ensures job.Some? ==>
        var id := job.value.0;
        && old(Oldest(locking, View(), id)) && job.value.1 == old(rows[id].job)
        && View() == Next(locking, Next(locking, old(View()), Select(worker, id)), Commit(worker, now))
    {
      ghost var start := View();
      var free := set id | id in rows && rows[id].status == "pending" && (locking ==> id !in claims.Values);
      assert forall id :: id in free <==> Free(locking, start, id);
      if free == {} {
        return None;
      }
      OldestExists(rows, free);
      var id :| id in free && forall other :: other in free ==> rows[id].createdAt <= rows[other].createdAt;
      assert Oldest(locking, start, id);
      var row := rows[id];
      row := row.(status := "connecting", pickedAt := Some(now), updatedAt := now);
      rows := rows[id := row];
      handed := handed + [Handout(worker, id)];
      assert claims[worker := id] - {worker} == claims;
      return Some((id, row.job));
    }

    /** Writes the named columns; an unknown identifier is ignored, a row held by a worker is waited for. */
    method SetStatus(id: string, f: Fields, now: int)
      requires locking ==> id !in claims.Values
      modifies this
      ensures View() == Next(locking, old(View()), Write(id, f, now))
      ensures id in old(rows) ==> id in rows && WrittenBy(f, now, old(rows)[id], rows[id])
      ensures OnlyAt(old(rows), rows, id)
    {
      if id !in rows {
        return;
      }
      var row := rows[id];
      if f.status.Some? { row := row.(status := f.status.value); }
      if f.sessionId.Some? { row := row.(sessionId := f.sessionId.value); }
      if f.casesSynced.Some? { row := row.(casesSynced := f.casesSynced.value); }
      if f.error.Some? { row := row.(error := f.error.value); }
      rows := rows[id := row.(updatedAt := now)];
    }
  }
}
