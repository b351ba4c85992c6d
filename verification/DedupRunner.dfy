/**
 * The batched runner: one transaction per batch, commit or roll back, stop
 * reasons, and an integrity check after the last committed batch.
 */
module DedupRunner {
  import opened Options
  import opened Ordering
  import opened ChildTable
  import opened CaseTables
  import opened CaseMerge
  import opened CaseMergeSafety
  import opened CaseMergeRun
  import opened CaseMergeBatches
  import opened CaseMergePrediction
  import opened CaseMergeSession

  /** What happens around the run, by batch number: none of it is under the runner's control. */
  datatype World = World(stopFile: nat -> bool, timeUp: nat -> bool, breaks: nat -> bool, unverifiable: nat -> bool)

  datatype Stop = Completed | MaxBatches | StopFile | TimeBudget | Error | NoProgress | IntegrityFailed

  datatype Check = Check(afterBatch: nat, ok: bool)

  datatype RunSummary = RunSummary(groupsBefore: nat, batchesDone: nat, done: Done, remaining: nat, stop: Option<Stop>,
                                   checks: seq<Check>)

  datatype Outcome =
    | BadArguments
    | Refused
    | Planned(groups: nat, batchesNeeded: int, firstBatch: seq<Identity>)
    | Ran(summary: RunSummary)

  /** `-(-groups // size)` */
  function BatchesNeeded(groups: int, size: int): int
    requires size > 0
  {
    -((-groups) / size)
  }

  /** `n` committed batches of `size` groups. */
  function Batches(n: nat, size: int): seq<Step> {
    seq(n, _ => Batch(size))
  }

  lemma {:induction false} HistoryAppend(db: Db, firm: int, steps: seq<Step>, step: Step)
    ensures History(db, firm, steps + [step]) == Transact(History(db, firm, steps), firm, step)
    decreases |steps|
  {
    if steps == [] {
      assert [] + [step] == [step] && [step][1..] == [];
    } else {
      assert (steps + [step])[1..] == steps[1..] + [step];
      HistoryAppend(Transact(db, firm, steps[0]), firm, steps[1..], step);
    }
  }

  lemma AddDoneLaws(a: Done, b: Done, c: Done)
    ensures AddDone(AddDone(a, b), c) == AddDone(a, AddDone(b, c))
    ensures AddDone(Done(0, 0, 0, 0), a) == a == AddDone(a, Done(0, 0, 0, 0))
  {}

  lemma {:induction false} DoneAppend(db: Db, firm: int, steps: seq<Step>, step: Step)
    ensures HistoryDone(db, firm, steps + [step])
         == AddDone(HistoryDone(db, firm, steps), StepDone(History(db, firm, steps), firm, step))
    decreases |steps|
  {
    hide Run, Transact, StepDone;
    var last := StepDone(History(db, firm, steps), firm, step);
    if steps == [] {
      assert [] + [step] == [step] && [step][1..] == [];
      AddDoneLaws(last, last, last);
    } else {
      assert (steps + [step])[1..] == steps[1..] + [step];
      DoneAppend(Transact(db, firm, steps[0]), firm, steps[1..], step);
      AddDoneLaws(StepDone(db, firm, steps[0]), HistoryDone(Transact(db, firm, steps[0]), firm, steps[1..]), last);
    }
  }

  /** Orphan check: no child row points at a missing case. */
  predicate IntegrityOk(cases: map<int, Case>, kids: Kids, sources: Table<int>) {
    KidsOwnersIn(kids, cases.Keys) && OwnersIn(sources, cases.Keys)
  }

  /** Some row of the table names a case that is not there. */
  ghost predicate Orphan<D>(t: Table<D>, cases: map<int, Case>) {
    exists id :: id in t && t[id].caseId.Some? && t[id].caseId.value !in cases
  }

  lemma OrphanIff<D>(t: Table<D>, cases: map<int, Case>)
    ensures Orphan(t, cases) <==> !OwnersIn(t, cases.Keys)
  {}

  /** The check fails exactly when one of the thirteen tables holds an orphan. */
  lemma IntegrityIs(cases: map<int, Case>, k: Kids, sources: Table<int>)
    ensures !IntegrityOk(cases, k, sources) <==>
      || Orphan(k.movements, cases) || Orphan(k.documents, cases) || Orphan(k.litigantes, cases)
      || Orphan(k.notificaciones, cases) || Orphan(k.escritos, cases) || Orphan(k.exhortos, cases)
      || Orphan(k.deadlines, cases) || Orphan(k.alerts, cases) || Orphan(k.snapshots, cases)
      || Orphan(k.hitos, cases) || Orphan(k.liberaciones, cases) || Orphan(k.generados, cases)
      || Orphan(sources, cases)
  {
    OrphanIff(k.movements, cases);
    OrphanIff(k.documents, cases);
    OrphanIff(k.litigantes, cases);
    OrphanIff(k.notificaciones, cases);
    OrphanIff(k.escritos, cases);
    OrphanIff(k.exhortos, cases);
    OrphanIff(k.deadlines, cases);
    OrphanIff(k.alerts, cases);
    OrphanIff(k.snapshots, cases);
    OrphanIff(k.hitos, cases);
    OrphanIff(k.liberaciones, cases);
    OrphanIff(k.generados, cases);
    OrphanIff(sources, cases);
    hide Orphan, OwnersIn;
  }

  lemma WellFormedIsIntact(s: Table<int>, cs: set<int>)
    requires forall p :: p in Pairs(s) ==> p.0 in cs
    ensures OwnersIn(s, cs)
  {
    forall id | id in s && s[id].caseId.Some? ensures s[id].caseId.value in cs {
      assert (s[id].caseId.value, s[id].data) in Pairs(s);
    }
  }

  /** One batch: merge, commit or roll back. */
  method RunBatch(db: Session, firm: int, size: int, breaks: bool) returns (r: Option<Summary>)
    requires db.Valid() && WellFormed(db.View())
    modifies db
    ensures db.Valid() && WellFormed(db.View())
    ensures r.None? ==> db.View() == old(db.View())
    ensures r.Some? ==> !breaks && Run(old(db.View()), firm, Some(size), None) == Ok((db.View(), r.value))
    ensures r.None? ==> breaks || Failing(db.View(), firm, size)
  {
    var saved := db.Snapshot();
    var result := db.RunCaseMerge(firm, Some(size), None);
    if result.Ok? && !breaks {
      RunKeepsWellFormed(old(db.View()), firm, Some(size), None);
      return Some(result.value);
    }
    db.Rollback(saved);
    r := None;
  }

  /** What a committed batch reports of the groups. */
  lemma BatchCounts(db: Db, firm: int, size: int)
    requires WellFormed(db) && size > 0 && Run(db, firm, Some(size), None).Ok?
    ensures
      var n, sum := |DuplicateIdentities(db.cases)|, Run(db, firm, Some(size), None).value.1;
      && sum.merged == (if size < n then size else n)
      && sum.remaining == n - sum.merged
      && sum.remaining == |DuplicateIdentities(Run(db, firm, Some(size), None).value.0.cases)|
  {
    hide WellFormed, MergeGroups, GroupsOf, AllLosers, AllWinners, GateOk, UniqueCases, DuplicateIdentities;
    var all := SortedIdentities(DuplicateIdentities(db.cases));
    var ids := BatchIdentities(db.cases, Some(size), None);
    BatchIsPrefix(db.cases, size);
    BatchIsSelection(db.cases, Some(size), None);
    RunKeepsWellFormed(db, firm, Some(size), None);
    IdentityOrder();
    AscendingSize(ids, IdentityLess);
    RemainingSize(DuplicateIdentities(db.cases), Elements(ids));
  }

  lemma RemainingSize(all: set<Identity>, done: set<Identity>)
    requires done <= all
    ensures |all - done| == |all| - |done|
  {
    assert all == (all - done) + done;
  }

  /** The orphan check after batch `n`; it can only fail by not being able to run. */
  method Verify(db: Session, world: World, n: nat) returns (c: Check)
    requires WellFormed(db.View())
    ensures c == Check(n, !world.unverifiable(n))
  {
    WellFormedIsIntact(db.sources, db.cases.Keys);
    c := Check(n, !world.unverifiable(n) && IntegrityOk(db.cases, db.kids, db.sources));
  }

  // ----- the counters

  /** `reach(n)` and `tally(n)`: the database and the sums after `n` committed batches. */
  ghost predicate IsHistory(reach: nat -> Db, tally: nat -> Done, firm: int, size: int) {
    forall n: nat :: FollowsAt(reach, tally, firm, size, n)
  }

  ghost predicate FollowsAt(reach: nat -> Db, tally: nat -> Done, firm: int, size: int, n: nat) {
    Run(reach(n), firm, Some(size), None).Ok? ==>
      var (after, sum) := Run(reach(n), firm, Some(size), None).value;
      reach(n + 1) == after
        && tally(n + 1) == AddDone(tally(n), Done(sum.merged, sum.losersDeleted, sum.auditRows, sum.reowned))
  }

  /** The counters describe the batches committed so far. */
  ghost predicate Account(reach: nat -> Db, tally: nat -> Done, now: Db, s: RunSummary) {
    && now == reach(s.batchesDone) && s.done == tally(s.batchesDone)
    && s.groupsBefore == s.done.merged + s.remaining && s.remaining == |DuplicateIdentities(now.cases)|
  }

  function Times(n: nat, size: int): int {
    if n == 0 then 0 else Times(n - 1, size) + size
  }

  /** Every batch but the last is full. */
  ghost predicate Pace(s: RunSummary, size: int) {
    && (s.remaining > 0 ==> s.done.merged == Times(s.batchesDone, size))
    && (s.remaining == 0 ==> s.groupsBefore <= Times(s.batchesDone, size))
    && (s.remaining == 0 && s.batchesDone > 0 ==> Times(s.batchesDone - 1, size) < s.groupsBefore)
  }

  ghost predicate ChecksOk(s: RunSummary, world: World) {
    forall i :: 0 <= i < |s.checks| ==>
      s.checks[i].ok == !world.unverifiable(s.checks[i].afterBatch) && s.checks[i].afterBatch <= s.batchesDone
  }

  /** The counters after one more committed batch. */
  function Advance(s: RunSummary, sum: Summary): RunSummary {
    s.(batchesDone := s.batchesDone + 1,
       done := AddDone(s.done, Done(sum.merged, sum.losersDeleted, sum.auditRows, sum.reowned)),
       remaining := sum.remaining)
  }

  lemma PaceStep(s: RunSummary, sum: Summary, size: int)
    requires size > 0 && Pace(s, size) && s.remaining > 0 && s.groupsBefore == s.done.merged + s.remaining
    requires sum.merged == (if size < s.remaining then size else s.remaining)
      && sum.remaining == s.remaining - sum.merged
    ensures Pace(Advance(s, sum), size)
  {
    assert Times(s.batchesDone + 1, size) == Times(s.batchesDone, size) + size;
  }

  lemma {:induction false} TimesIs(n: nat, size: int)
    ensures Times(n, size) == n * size
  {
    if n > 0 {
      TimesIs(n - 1, size);
    }
  }

  lemma TimesOrder(a: int, b: int, size: int)
    requires size > 0
    ensures a <= b ==> a * size <= b * size
  {}

  lemma CeilingIs(groups: int, size: int, n: int)
    requires size > 0 && (n - 1) * size < groups <= n * size
    ensures BatchesNeeded(groups, size) == n
  {
    var q := (-groups) / size;
    assert q * size <= -groups < (q + 1) * size;
    TimesOrder(q + 1, -n, size);
    TimesOrder(1 - n, q, size);
    assert (-n) * size == -(n * size) && (1 - n) * size == -((n - 1) * size);
  }

  /** A run that merged everything took the planned number of batches. */
  lemma PaceIsPlan(s: RunSummary, size: int)
    requires size > 0 && Pace(s, size) && s.remaining == 0
    ensures s.batchesDone == BatchesNeeded(s.groupsBefore, size)
  {
    TimesIs(s.batchesDone, size);
    if s.batchesDone > 0 {
      TimesIs(s.batchesDone - 1, size);
    }
    CeilingIs(s.groupsBefore, size, s.batchesDone);
  }

  // ----- the loop

  /** Nothing happens around the run. */
  ghost predicate Quiet(world: World) {
    forall n: nat :: !world.stopFile(n) && !world.timeUp(n) && !world.breaks(n) && !world.unverifiable(n)
  }

  /** A batch may start after `n`: no limit is reached, no stop asked for and the time is not up. */
  ghost predicate MayStart(maxBatches: Option<int>, world: World, n: nat) {
    (maxBatches.Some? ==> n < maxBatches.value) && !world.stopFile(n) && !world.timeUp(n)
  }

  /** Every batch committed was allowed to start, was not broken, and followed no failed check. */
  ghost predicate Heeded(done: nat, maxBatches: Option<int>, verifyEvery: int, world: World)
    requires verifyEvery > 0
  {
    forall n: nat :: n < done ==>
      && MayStart(maxBatches, world, n) && !world.breaks(n + 1)
      && (n > 0 && n % verifyEvery == 0 ==> !world.unverifiable(n))
  }

  /** Why the run stopped, after `s.batchesDone` batches: the first reason that applies. */
  ghost predicate Explained(s: RunSummary, failing: bool, maxBatches: Option<int>, world: World) {
    var n := s.batchesDone;
    match s.stop
    case None => false
    case Some(Completed) => s.remaining == 0
    case Some(MaxBatches) => s.remaining > 0 && maxBatches.Some? && n >= maxBatches.value
    case Some(StopFile) => s.remaining > 0 && (maxBatches.Some? ==> n < maxBatches.value) && world.stopFile(n)
    case Some(TimeBudget) =>
      s.remaining > 0 && (maxBatches.Some? ==> n < maxBatches.value) && !world.stopFile(n) && world.timeUp(n)
    case Some(Error) => s.remaining > 0 && MayStart(maxBatches, world, n) && (world.breaks(n + 1) || failing)
    case Some(NoProgress) => false
    case Some(IntegrityFailed) => n > 0 && world.unverifiable(n)
  }

  /** The last committed batch was checked. */
  ghost predicate LastChecked(s: RunSummary) {
    s.batchesDone > 0 ==> s.checks != [] && s.checks[|s.checks| - 1].afterBatch == s.batchesDone
  }

  /** The checks made while the batches run: after each multiple of `every`. */
  ghost function RegularChecks(n: nat, every: int, world: World): seq<Check>
    requires every > 0
  {
    if n == 0 then []
    else RegularChecks(n - 1, every, world) + (if n % every == 0 then [Check(n, !world.unverifiable(n))] else [])
  }

  /** And with the last batch, if it was not one of them. */
  ghost function AllChecks(n: nat, every: int, world: World): seq<Check>
    requires every > 0
  {
    RegularChecks(n, every, world) + (if n % every == 0 then [] else [Check(n, !world.unverifiable(n))])
  }

  /** Batch `m` is checked exactly when it is a multiple of `every` or the last one. */
  lemma {:induction false} CheckedIff(n: nat, every: int, world: World, m: int)
    requires every > 0
    ensures (exists i :: 0 <= i < |AllChecks(n, every, world)| && AllChecks(n, every, world)[i].afterBatch == m)
       <==> 0 < m <= n && (m % every == 0 || m == n)
  {
    RegularIff(n, every, world, m);
    hide RegularChecks;
    var regular, all := RegularChecks(n, every, world), AllChecks(n, every, world);
    AllChecksIs(n, every, world);
    if i :| 0 <= i < |regular| && regular[i].afterBatch == m {
      assert all[i].afterBatch == m;
    }
    if n % every != 0 {
      assert all[|regular|].afterBatch == n;
    }
    if i :| 0 <= i < |all| && all[i].afterBatch == m {
      if i < |regular| {
        assert regular[i].afterBatch == m;
        assert 0 < m <= n && m % every == 0;
      } else {
        assert n % every != 0 && m == n;
      }
    }
  }

  lemma AllChecksIs(n: nat, every: int, world: World)
    requires every > 0
    ensures AllChecks(n, every, world) ==
      if n % every == 0 then RegularChecks(n, every, world)
      else RegularChecks(n, every, world) + [Check(n, !world.unverifiable(n))]
    ensures n % every != 0 ==> n > 0
  {
    assert 0 % every == 0;
  }

  lemma RegularNext(n: nat, every: int, world: World)
    requires every > 0 && n > 0
    ensures RegularChecks(n, every, world) ==
      RegularChecks(n - 1, every, world) + if n % every == 0 then [Check(n, !world.unverifiable(n))] else []
  {}

  lemma {:induction false} RegularIff(n: nat, every: int, world: World, m: int)
    requires every > 0
    ensures (exists i :: 0 <= i < |RegularChecks(n, every, world)| && RegularChecks(n, every, world)[i].afterBatch == m)
       <==> 0 < m <= n && m % every == 0
  {
    if n > 0 {
      RegularIff(n - 1, every, world, m);
      var before, now := RegularChecks(n - 1, every, world), RegularChecks(n, every, world);
      RegularNext(n, every, world);
      if i :| 0 <= i < |before| && before[i].afterBatch == m {
        assert now[i].afterBatch == m;
      }
      hide RegularChecks;
      if n % every == 0 {
        assert now[|before|].afterBatch == n;
      }
      if i :| 0 <= i < |now| && now[i].afterBatch == m {
        if i < |before| {
          assert before[i].afterBatch == m;
        } else {
          assert m == n && n % every == 0;
        }
      }
    }
  }

  lemma {:induction false} RegularAreOk(n: nat, every: int, world: World)
    requires every > 0
    ensures forall i :: 0 <= i < |RegularChecks(n, every, world)| ==>
      var c := RegularChecks(n, every, world)[i];
      c.ok == !world.unverifiable(c.afterBatch) && c.afterBatch <= n
    ensures n > 0 && n % every == 0 ==>
      RegularChecks(n, every, world) != []
      && RegularChecks(n, every, world)[|RegularChecks(n, every, world)| - 1].afterBatch == n
  {
    if n > 0 {
      RegularAreOk(n - 1, every, world);
    }
  }

  lemma AllChecksAreOk(s: RunSummary, every: int, world: World)
    requires every > 0 && s.checks == AllChecks(s.batchesDone, every, world)
    ensures LastChecked(s) && ChecksOk(s, world)
  {
    RegularAreOk(s.batchesDone, every, world);
  }

  /** Invariant of the loop; `lastChecked` is the last batch with an integrity check, 0 for none. */
  ghost predicate Running(failing: bool, maxBatches: Option<int>, verifyEvery: int, world: World, s: RunSummary,
                          lastChecked: int)
    requires verifyEvery > 0
  {
    var n := s.batchesDone;
    && s.checks == RegularChecks(n, verifyEvery, world) && lastChecked == n - n % verifyEvery
    && Heeded(s.batchesDone, maxBatches, verifyEvery, world)
    && (s.stop.Some? ==> Explained(s, failing, maxBatches, world))
    && (s.stop == Some(IntegrityFailed) <==> n > 0 && n % verifyEvery == 0 && world.unverifiable(n))
  }

  /** The loop after one more batch committed, before its check. */
  lemma OneMoreBatch(maxBatches: Option<int>, every: int, world: World, s: RunSummary, lastChecked: int,
                     next: RunSummary)
    requires every > 0 && Running(false, maxBatches, every, world, s, lastChecked) && s.stop == None
    requires MayStart(maxBatches, world, s.batchesDone) && !world.breaks(s.batchesDone + 1)
    requires next.batchesDone == s.batchesDone + 1 && next.checks == s.checks
    ensures Heeded(next.batchesDone, maxBatches, every, world)
    ensures
      var n := next.batchesDone;
      && (n % every != 0 ==> next.checks == RegularChecks(n, every, world) && lastChecked == n - n % every)
      && (n % every == 0 ==> next.checks + [Check(n, !world.unverifiable(n))] == RegularChecks(n, every, world))
  {
    NextMultiple(s.batchesDone, every);
    var n := next.batchesDone;
    forall m: nat | m < n
      ensures MayStart(maxBatches, world, m) && !world.breaks(m + 1)
      ensures m > 0 && m % every == 0 ==> !world.unverifiable(m)
    {
      if m < s.batchesDone {
        assert MayStart(maxBatches, world, m);
      }
    }
  }

  lemma NothingYet(maxBatches: Option<int>, every: int, world: World)
    requires every > 0
    ensures Heeded(0, maxBatches, every, world) && RegularChecks(0, every, world) == []
  {}

  lemma NextMultiple(n: nat, every: int)
    requires every > 0
    ensures (n + 1) % every == 0 || (n + 1) % every == n % every + 1
  {
    var q, r := n / every, n % every;
    assert n + 1 == q * every + (r + 1);
    if r + 1 < every {
      RemainderIs(q, r + 1, every);
    } else {
      assert n + 1 == (q + 1) * every + 0;
      RemainderIs(q + 1, 0, every);
    }
  }

  lemma RemainderIs(q: int, r: int, every: int)
    requires 0 <= r < every
    ensures (q * every + r) % every == r
  {
    var x := q * every + r;
    var d := x / every - q;
    assert x == (x / every) * every + x % every;
    assert d * every == r - x % every;
    if d >= 1 { TimesOrder(1, d, every); }
    if d <= -1 { TimesOrder(d, -1, every); }
  }

  /** The next batch cannot be merged. */
  ghost predicate Failing(now: Db, firm: int, size: int) {
    Run(now, firm, Some(size), None).Err?
  }

  /** A committed batch keeps the account, and less is left than before. */
  lemma CommitStep(reach: nat -> Db, tally: nat -> Done, size: int, s: RunSummary, before: Db, after: Db, sum: Summary)
    requires size > 0 && s.remaining > 0 && Account(reach, tally, before, s) && Pace(s, size)
    requires sum.merged == (if size < s.remaining then size else s.remaining)
    requires sum.remaining == s.remaining - sum.merged && sum.remaining == |DuplicateIdentities(after.cases)|
    requires reach(s.batchesDone + 1) == after
    requires tally(s.batchesDone + 1) ==
      AddDone(s.done, Done(sum.merged, sum.losersDeleted, sum.auditRows, sum.reowned))
    ensures Account(reach, tally, after, Advance(s, sum)) && Pace(Advance(s, sum), size)
    ensures sum.merged > 0 && sum.remaining < s.remaining
  {
    PaceStep(s, sum, size);
  }

  /** One batch, committed and counted, or rolled back. */
  method NextBatch(db: Session, firm: int, size: int, breaks: bool, s: RunSummary, ghost reach: nat -> Db,
                   ghost tally: nat -> Done)
    returns (next: RunSummary, merged: nat)
    requires db.Valid() && WellFormed(db.View()) && size > 0 && s.remaining > 0 && s.stop == None
    requires IsHistory(reach, tally, firm, size) && Account(reach, tally, db.View(), s) && Pace(s, size)
    modifies db
    ensures db.Valid() && WellFormed(db.View())
    ensures Account(reach, tally, db.View(), next) && Pace(next, size)
    ensures next.checks == s.checks && next.groupsBefore == s.groupsBefore
    ensures next.stop == None ==>
      merged > 0 && next.batchesDone == s.batchesDone + 1 && next.remaining < s.remaining && !breaks
    ensures next.stop != None ==> next == s.(stop := Some(Error)) && (breaks || Failing(db.View(), firm, size))
  {
    hide WellFormed, Run, DuplicateIdentities;
    var batch := RunBatch(db, firm, size, breaks);
    if batch.None? {
      return s.(stop := Some(Error)), 0;
    }
    BatchCounts(old(db.View()), firm, size);
    assert FollowsAt(reach, tally, firm, size, s.batchesDone);
    CommitStep(reach, tally, size, s, old(db.View()), db.View(), batch.value);
    next, merged := Advance(s, batch.value), batch.value.merged;
  }

  /** The stop conditions tested before each batch, in order. */
  function StopBefore(s: RunSummary, maxBatches: Option<int>, world: World): Option<Stop> {
    if s.remaining == 0 then Some(Completed)
    else if maxBatches.Some? && s.batchesDone >= maxBatches.value then Some(MaxBatches)
    else if world.stopFile(s.batchesDone) then Some(StopFile)
    else if world.timeUp(s.batchesDone) then Some(TimeBudget)
    else None
  }

  /** One turn of the loop. */
  method Turn(db: Session, firm: int, size: int, maxBatches: Option<int>, verifyEvery: int, world: World,
              s: RunSummary, lastChecked: int, ghost reach: nat -> Db, ghost tally: nat -> Done)
    returns (next: RunSummary, checked: int, ghost failing: bool)
    requires db.Valid() && WellFormed(db.View()) && size > 0 && verifyEvery > 0 && s.stop == None
    requires IsHistory(reach, tally, firm, size) && Account(reach, tally, db.View(), s) && Pace(s, size)
    requires Running(false, maxBatches, verifyEvery, world, s, lastChecked)
    modifies db
    ensures db.Valid() && WellFormed(db.View())
    ensures Account(reach, tally, db.View(), next) && Pace(next, size) && next.groupsBefore == s.groupsBefore
    ensures Running(failing, maxBatches, verifyEvery, world, next, checked)
    ensures failing ==> Failing(db.View(), firm, size)
    ensures next.stop == None ==> !failing && next.remaining < s.remaining
  {
    hide WellFormed, IsHistory, Failing, IntegrityOk, DuplicateIdentities, Heeded, RegularChecks;
    failing := false;
    var stop := StopBefore(s, maxBatches, world);
    if stop.Some? {
      return s.(stop := stop), lastChecked, false;
    }
    var number, merged := s.batchesDone + 1, 0;
    checked := lastChecked;
    next, merged := NextBatch(db, firm, size, world.breaks(number), s, reach, tally);
    if next.stop.Some? {
      failing := !world.breaks(number);
      return;
    }
    OneMoreBatch(maxBatches, verifyEvery, world, s, lastChecked, next);
    if merged == 0 && next.remaining > 0 {
      return next.(stop := Some(NoProgress)), checked, false;
    }
    if number % verifyEvery == 0 {
      var c := Verify(db, world, number);
      next, checked := next.(checks := next.checks + [c], stop := if c.ok then None else Some(IntegrityFailed)), number;
    }
  }

  /** Batches until something stops the run, then the final check. */
  method RunLoop(db: Session, firm: int, size: int, maxBatches: Option<int>, verifyEvery: int, world: World,
                 ghost reach: nat -> Db, ghost tally: nat -> Done) returns (s: RunSummary, ghost failing: bool)
    requires db.Valid() && WellFormed(db.View()) && size > 0 && verifyEvery > 0
    requires IsHistory(reach, tally, firm, size) && reach(0) == db.View() && tally(0) == Done(0, 0, 0, 0)
    modifies db
    ensures db.Valid() && WellFormed(db.View())
    ensures Account(reach, tally, db.View(), s) && Pace(s, size)
      && s.groupsBefore == |DuplicateIdentities(old(db.cases))|
    ensures Explained(s, failing, maxBatches, world) && (failing ==> Failing(db.View(), firm, size))
    ensures LastChecked(s) && ChecksOk(s, world)
    ensures Heeded(s.batchesDone, maxBatches, verifyEvery, world)
    ensures s.checks == AllChecks(s.batchesDone, verifyEvery, world)
    ensures s.stop == Some(IntegrityFailed) <==> s.batchesDone > 0 && world.unverifiable(s.batchesDone)
  {
    hide WellFormed, IsHistory, Failing, IntegrityOk, DuplicateIdentities, RegularChecks, AllChecks, Heeded;
    var groups := |DuplicateIdentities(db.cases)|;
    s := RunSummary(groups, 0, Done(0, 0, 0, 0), groups, None, []);
    var lastChecked := 0;
    failing := false;
    NothingYet(maxBatches, verifyEvery, world);
    while s.stop == None
      invariant db.Valid() && WellFormed(db.View()) && s.groupsBefore == groups
      invariant Account(reach, tally, db.View(), s) && Pace(s, size)
      invariant Running(failing, maxBatches, verifyEvery, world, s, lastChecked)
      invariant failing ==> Failing(db.View(), firm, size)
      invariant s.stop == None ==> !failing
      decreases s.stop == None, s.remaining
    {
      s, lastChecked, failing := Turn(db, firm, size, maxBatches, verifyEvery, world, s, lastChecked, reach, tally);
    }
    AllChecksIs(s.batchesDone, verifyEvery, world);
    if s.batchesDone > lastChecked && s.stop != Some(IntegrityFailed) {
      var c := Verify(db, world, s.batchesDone);
      s := s.(checks := s.checks + [c], stop := if c.ok then s.stop else Some(IntegrityFailed));
    }
    AllChecksAreOk(s, verifyEvery, world);
  }

  // ----- the whole run

  ghost function Reach(start: Db, firm: int, size: int): nat -> Db {
    (n: nat) => History(start, firm, Batches(n, size))
  }

  ghost function Tally(start: Db, firm: int, size: int): nat -> Done {
    (n: nat) => HistoryDone(start, firm, Batches(n, size))
  }

  lemma ReachIsHistory(start: Db, firm: int, size: int)
    ensures IsHistory(Reach(start, firm, size), Tally(start, firm, size), firm, size)
    ensures Reach(start, firm, size)(0) == start && Tally(start, firm, size)(0) == Done(0, 0, 0, 0)
  {
    assert Batches(0, size) == [];
    forall n: nat ensures FollowsAt(Reach(start, firm, size), Tally(start, firm, size), firm, size, n) {
      var steps := Batches(n, size);
      assert Batches(n + 1, size) == steps + [Batch(size)];
      HistoryAppend(start, firm, steps, Batch(size));
      DoneAppend(start, firm, steps, Batch(size));
    }
  }

  /** What `strip` removes: white space in the sense of Python's `str.isspace`. */
  predicate WhiteSpace(c: char) {
    var code := c as int;
    || 0x09 <= code <= 0x0d || 0x1c <= code <= 0x20 || code == 0x85 || code == 0xa0 || code == 0x1680
    || 0x2000 <= code <= 0x200a || code == 0x2028 || code == 0x2029 || code == 0x202f || code == 0x205f
    || code == 0x3000
  }

  /** A reference of white space alone names no backup. */
  predicate Blank(ref: string) { forall i :: 0 <= i < |ref| ==> WhiteSpace(ref[i]) }

  /**
   * Plan or execute the cleanup. Nothing is written without `apply`, a backup
   * reference and, unless waived, a quiescent database.
   */
  method RunBatches(db: Session, firm: int, size: int, maxBatches: Option<int>, apply: bool, backupRef: string,
                    requireQuiescent: bool, quiescent: bool, verifyEvery: int, world: World)
    returns (r: Outcome, ghost failing: bool)
    requires db.Valid() && WellFormed(db.View())
    modifies db
    ensures db.Valid() && WellFormed(db.View())
    ensures r.BadArguments? <==> size < 1 || verifyEvery < 1
    ensures r.Planned? <==> !r.BadArguments? && !apply
    ensures r.Refused? <==> !r.BadArguments? && apply && (Blank(backupRef) || (requireQuiescent && !quiescent))
    ensures !r.Ran? ==> db.View() == old(db.View())
    ensures r.Planned? ==>
      && r.groups == |DuplicateIdentities(db.cases)| && r.batchesNeeded == BatchesNeeded(r.groups, size)
      && r.firstBatch == BatchIdentities(db.cases, Some(size), None)
    ensures r.Ran? ==>
      && Account(Reach(old(db.View()), firm, size), Tally(old(db.View()), firm, size), db.View(), r.summary)
      && Pace(r.summary, size) && r.summary.groupsBefore == |DuplicateIdentities(old(db.cases))|
      && Explained(r.summary, failing, maxBatches, world) && (failing ==> Failing(db.View(), firm, size))
      && LastChecked(r.summary) && ChecksOk(r.summary, world)
      && Heeded(r.summary.batchesDone, maxBatches, verifyEvery, world)
      && r.summary.checks == AllChecks(r.summary.batchesDone, verifyEvery, world)
      && (r.summary.stop == Some(IntegrityFailed) <==>
          r.summary.batchesDone > 0 && world.unverifiable(r.summary.batchesDone))
  {
    failing := false;
    if size < 1 || verifyEvery < 1 {
      return BadArguments, false;
    }
    if !apply {
      var first := db.SelectBatchIdentities(Some(size), None);
      var groups := |DuplicateIdentities(db.cases)|;
      return Planned(groups, BatchesNeeded(groups, size), first), false;
    }
    if Blank(backupRef) || (requireQuiescent && !quiescent) {
      return Refused, false;
    }
    ReachIsHistory(db.View(), firm, size);
    ghost var reach, tally := Reach(db.View(), firm, size), Tally(db.View(), firm, size);
    var s;
    s, failing := RunLoop(db, firm, size, maxBatches, verifyEvery, world, reach, tally);
    r := Ran(s);
  }

  /** An undisturbed run without a batch limit ends with everything merged or with a batch that cannot be. */
  lemma QuietRunStops(start: Db, firm: int, size: int, world: World, s: RunSummary, failing: bool)
    requires Quiet(world) && Explained(s, failing, None, world)
    ensures s.stop == Some(if s.remaining == 0 then Completed else Error) && (s.remaining > 0 ==> failing)
  {}

  lemma NothingFails(start: Db, now: Db, firm: int, size: int)
    requires WellFormed(start) && (exists steps :: now == History(start, firm, steps))
    requires forall c :: !FirmTwin(start, firm, DuplicateIdentities(start.cases), c)
    ensures !Failing(now, firm, size)
  {
    hide WellFormed, DuplicateIdentities, Run, AllMerged;
    var steps :| now == History(start, firm, steps);
    HistoryThenAll(start, firm, steps);
    HistoryBlocked(start, firm, steps);
    BatchOutcome(now, firm, size);
    var all := SortedIdentities(DuplicateIdentities(now.cases));
    SplitElements(all, Cut(size, |all|));
    forall c ensures !FirmTwin(now, firm, Elements(all[..Cut(size, |all|)]), c) {
      assert !FirmTwin(now, firm, DuplicateIdentities(now.cases), c);
    }
  }

  /**
   * An undisturbed run without a batch limit merges everything if and only if
   * the firm owns no non-civil case with a duplicate identity; it then takes
   * exactly the planned number of batches, and its sums are the report's.
   */
  lemma QuietRunCompletesIff(start: Db, now: Db, firm: int, size: int, world: World, s: RunSummary, failing: bool)
    requires WellFormed(start) && size > 0 && Quiet(world)
    requires Account(Reach(start, firm, size), Tally(start, firm, size), now, s) && Pace(s, size)
    requires s.groupsBefore == |DuplicateIdentities(start.cases)|
    requires Explained(s, failing, None, world) && (failing ==> Failing(now, firm, size))
    ensures s.remaining == 0 <==> forall c :: !FirmTwin(start, firm, DuplicateIdentities(start.cases), c)
    ensures s.stop == Some(if s.remaining == 0 then Completed else Error)
    ensures s.remaining == 0 ==>
      && DuplicateIdentities(now.cases) == {} && s.done == Promise(start, firm)
      && s.batchesDone == BatchesNeeded(|DuplicateIdentities(start.cases)|, size)
  {
    hide WellFormed, History, HistoryDone, DuplicateIdentities, Promise, Failing;
    var steps := Batches(s.batchesDone, size);
    assert now == History(start, firm, steps);
    QuietRunStops(start, firm, size, world, s, failing);
    HistoryBlocked(start, firm, steps);
    if s.remaining == 0 {
      PaceIsPlan(s, size);
      HistoryPromise(start, firm, steps);
      NothingPromised(now, firm);
      forall c ensures !FirmTwin(start, firm, DuplicateIdentities(start.cases), c) {
        assert !FirmTwin(now, firm, DuplicateIdentities(now.cases), c);
      }
    }
    if forall c :: !FirmTwin(start, firm, DuplicateIdentities(start.cases), c) {
      NothingFails(start, now, firm, size);
    }
  }
}
