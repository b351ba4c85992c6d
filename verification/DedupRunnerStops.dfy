/**
 * Where an undisturbed batched run stops that cannot complete: at the first
 * identity, in batch order, of which the firm owns a non-civil case.
 */
module DedupRunnerStops {
  import opened Options
  import opened Ordering
  import opened CaseMerge
  import opened CaseMergeSafety
  import opened CaseMergeRun
  import opened CaseMergeBatches
  import opened CaseMergePrediction
  import opened DedupRunner

  /** The firm owns a non-civil case of the identity. */
  ghost predicate Blocked(db: Db, firm: int, id: Identity) { exists c :: FirmTwin(db, firm, {id}, c) }

  ghost predicate Clear(db: Db, firm: int, ids: seq<Identity>) {
    forall j :: 0 <= j < |ids| ==> !Blocked(db, firm, ids[j])
  }

  lemma ClearIff(db: Db, firm: int, ids: seq<Identity>)
    ensures Clear(db, firm, ids) <==> forall c :: !FirmTwin(db, firm, Elements(ids), c)
  {
    if j :| 0 <= j < |ids| && Blocked(db, firm, ids[j]) {
      var c :| FirmTwin(db, firm, {ids[j]}, c);
      assert ids[j] in Elements(ids);
      assert FirmTwin(db, firm, Elements(ids), c);
    }
    if c :| FirmTwin(db, firm, Elements(ids), c) {
      var j :| 0 <= j < |ids| && ids[j] == IdentityOf(db.cases[c]);
      assert FirmTwin(db, firm, {ids[j]}, c);
    }
  }

  lemma ClearSlice(db: Db, firm: int, ids: seq<Identity>, lo: nat, hi: nat)
    requires lo <= hi <= |ids| && Clear(db, firm, ids[..hi])
    ensures Clear(db, firm, ids[lo..hi])
  {
    forall j | 0 <= j < hi - lo ensures !Blocked(db, firm, ids[lo..hi][j]) {
      assert ids[lo..hi][j] == ids[..hi][lo + j];
    }
  }

  // ----- after batches that succeed

  /** The non-civil cases of the firm are the same. */
  ghost predicate SameTwins(a: Db, b: Db, firm: int) {
    forall sel, c :: FirmTwin(a, firm, sel, c) <==> FirmTwin(b, firm, sel, c)
  }

  ghost predicate SameCounts(ids: seq<Identity>, a: Db, b: Db, firm: int) {
    forall id :: id in ids ==> GroupCounts(a, firm, id) == GroupCounts(b, firm, id)
  }

  /** In `h` the groups of `rest` are left, as they were in `start`. */
  ghost predicate Left(start: Db, h: Db, firm: int, rest: seq<Identity>) {
    && WellFormed(h) && SortedIdentities(DuplicateIdentities(h.cases)) == rest
    && SameTwins(h, start, firm) && SameCounts(rest, h, start, firm)
  }

  lemma AllLeft(start: Db, firm: int)
    requires WellFormed(start)
    ensures Left(start, start, firm, SortedIdentities(DuplicateIdentities(start.cases)))
  {}

  lemma ClearAsBefore(start: Db, h: Db, firm: int, ids: seq<Identity>)
    requires SameTwins(h, start, firm)
    ensures Clear(start, firm, ids) <==> forall c :: !FirmTwin(h, firm, Elements(ids), c)
  {
    ClearIff(start, firm, ids);
    hide Clear, FirmTwin;
  }

  /** Whether the next batch succeeds could be seen at the start. */
  lemma NextSucceedsIff(start: Db, h: Db, firm: int, size: int, rest: seq<Identity>, ids: seq<Identity>)
    requires ids == rest[..Cut(size, |rest|)] && Left(start, h, firm, rest)
    ensures Run(h, firm, Some(size), None).Ok? <==> Clear(start, firm, ids)
  {
    hide WellFormed, DuplicateIdentities, Run, Transact, After, FirmTwin, Clear, SameTwins, SameCounts;
    BatchOutcome(h, firm, size);
    ClearAsBefore(start, h, firm, ids);
  }

  lemma NextTwins(start: Db, h: Db, firm: int, size: int)
    requires WellFormed(h) && SameTwins(h, start, firm)
    ensures SameTwins(Transact(h, firm, Batch(size)), start, firm)
  {
    hide WellFormed, Transact, FirmTwin;
    forall sel, c ensures FirmTwin(Transact(h, firm, Batch(size)), firm, sel, c) <==> FirmTwin(start, firm, sel, c) {
      TransactTwins(h, firm, Batch(size), sel, c);
    }
  }

  lemma NextCounts(start: Db, h: Db, firm: int, size: int, rest: seq<Identity>)
    requires WellFormed(h) && rest == SortedIdentities(DuplicateIdentities(h.cases)) && SameCounts(rest, h, start, firm)
    requires 0 < size <= |rest| && Run(h, firm, Some(size), None).Ok?
    ensures SameCounts(rest[size..], Transact(h, firm, Batch(size)), start, firm)
  {
    hide WellFormed, DuplicateIdentities, Run, Transact, After, FirmTwin, GroupCounts, DuplicateSelection;
    var h1 := Transact(h, firm, Batch(size));
    BatchOutcome(h, firm, size);
    PrefixSelection(h.cases, size);
    SelectedGroupsNotEmpty(h, rest[size..]);
    forall id | id in rest[size..] ensures GroupCounts(h1, firm, id) == GroupCounts(start, firm, id) {
      assert id in Elements(rest[size..]) && id !in Elements(rest[..size]);
      LaterCountsKept(h, firm, rest[..size], id);
      assert id in rest;
    }
  }

  /** A full batch that succeeds takes the first groups and leaves the others. */
  lemma NextLeft(start: Db, h: Db, firm: int, size: int, rest: seq<Identity>)
    requires Left(start, h, firm, rest) && 0 < size <= |rest| && Run(h, firm, Some(size), None).Ok?
    ensures Left(start, Transact(h, firm, Batch(size)), firm, rest[size..])
  {
    hide WellFormed, DuplicateIdentities, Run, Transact, FirmTwin, AllMerged, SameTwins, SameCounts;
    TransactThenAll(h, firm, Batch(size));
    TransactSettles(h, firm, size);
    NextTwins(start, h, firm, size);
    NextCounts(start, h, firm, size, rest);
  }

  lemma HistoryNext(start: Db, firm: int, size: int, n: nat)
    ensures History(start, firm, Batches(n + 1, size))
         == Transact(History(start, firm, Batches(n, size)), firm, Batch(size))
  {
    assert Batches(n + 1, size) == Batches(n, size) + [Batch(size)];
    HistoryAppend(start, firm, Batches(n, size), Batch(size));
  }

  lemma HistoryOfNone(start: Db, firm: int, size: int)
    ensures History(start, firm, Batches(0, size)) == start
  {}

  /** As long as no blocked identity comes up, every batch is full and succeeds. */
  lemma {:induction false} LeftAfter(start: Db, firm: int, size: int, all: seq<Identity>, i: nat, n: nat)
    requires WellFormed(start) && all == SortedIdentities(DuplicateIdentities(start.cases)) && size > 0
    requires i <= |all| && Clear(start, firm, all[..i]) && Times(n, size) <= i
    ensures 0 <= Times(n, size) && Left(start, History(start, firm, Batches(n, size)), firm, all[Times(n, size)..])
    decreases n
  {
    hide WellFormed, History, DuplicateIdentities, Run, Transact, Left, Clear, Times, Batches;
    if n == 0 {
      HistoryOfNone(start, firm, size);
      AllLeft(start, firm);
      assert Times(0, size) == 0 by { TimesIs(0, size); }
      assert all[0..] == all;
    } else {
      TimesNext(n, size);
      var h, from := History(start, firm, Batches(n - 1, size)), Times(n - 1, size);
      LeftAfter(start, firm, size, all, i, n - 1);
      ClearShorter(start, firm, all, from + size, i);
      FullBatch(start, h, firm, size, all, from);
      HistoryNext(start, firm, size, n - 1);
    }
  }

  /** A full batch without a blocked identity succeeds. */
  lemma FullBatch(start: Db, h: Db, firm: int, size: int, all: seq<Identity>, from: nat)
    requires 0 < size && from + size <= |all|
    requires Left(start, h, firm, all[from..]) && Clear(start, firm, all[..from + size])
    ensures Run(h, firm, Some(size), None).Ok?
    ensures Left(start, Transact(h, firm, Batch(size)), firm, all[from + size..])
  {
    hide Left, Clear, Run, Transact;
    var rest := all[from..];
    assert rest[..size] == all[from..from + size] && rest[size..] == all[from + size..];
    ClearSlice(start, firm, all, from, from + size);
    NextSucceedsIff(start, h, firm, size, rest, rest[..size]);
    NextLeft(start, h, firm, size, rest);
  }

  lemma TimesNext(n: nat, size: int)
    requires n > 0
    ensures Times(n, size) == Times(n - 1, size) + size
  {}

  lemma ClearShorter(db: Db, firm: int, ids: seq<Identity>, lo: nat, hi: nat)
    requires lo <= hi <= |ids| && Clear(db, firm, ids[..hi])
    ensures Clear(db, firm, ids[..lo])
  {
    forall j | 0 <= j < lo ensures !Blocked(db, firm, ids[..lo][j]) {
      assert ids[..lo][j] == ids[..hi][j];
    }
  }

  // ----- the batch that fails

  /** From a batch that cannot be merged on, nothing changes. */
  lemma {:induction false} StuckFrom(start: Db, firm: int, size: int, m: nat, n: nat)
    requires m <= n && Failing(History(start, firm, Batches(m, size)), firm, size)
    ensures History(start, firm, Batches(n, size)) == History(start, firm, Batches(m, size))
    decreases n
  {
    hide History, Run;
    if n > m {
      StuckFrom(start, firm, size, m, n - 1);
      HistoryNext(start, firm, size, n - 1);
    }
  }

  lemma Quotient(i: nat, size: int)
    requires size > 0
    ensures 0 <= i / size && Times(i / size, size) == i / size * size
    ensures i / size * size <= i < i / size * size + size
  {
    TimesIs(i / size, size);
  }

  lemma {:induction false} TimesLater(a: nat, b: nat, size: int)
    requires a < b && size > 0
    ensures Times(a, size) + size <= Times(b, size)
  {
    if a < b - 1 {
      TimesLater(a, b - 1, size);
    }
  }

  /** Batch `m` holds the first blocked identity: it fails. */
  lemma BlockedFails(start: Db, firm: int, size: int, all: seq<Identity>, i: nat, m: nat)
    requires WellFormed(start) && all == SortedIdentities(DuplicateIdentities(start.cases)) && size > 0
    requires i < |all| && Blocked(start, firm, all[i]) && Clear(start, firm, all[..i])
    requires Times(m, size) <= i < Times(m, size) + size
    ensures 0 <= Times(m, size)
    ensures
      var h := History(start, firm, Batches(m, size));
      Left(start, h, firm, all[Times(m, size)..]) && Failing(h, firm, size)
  {
    hide WellFormed, History, DuplicateIdentities, Run, Left, Blocked, Clear, Times;
    LeftAfter(start, firm, size, all, i, m);
    var rest := all[Times(m, size)..];
    var ids := rest[..Cut(size, |rest|)];
    NextSucceedsIff(start, History(start, firm, Batches(m, size)), firm, size, rest, ids);
    NotClear(start, firm, ids, i - Times(m, size));
  }

  lemma NotClear(db: Db, firm: int, ids: seq<Identity>, j: nat)
    requires j < |ids| && Blocked(db, firm, ids[j])
    ensures !Clear(db, firm, ids)
  {}

  /** Every batch before that one succeeds. */
  lemma EarlierSucceeds(start: Db, firm: int, size: int, all: seq<Identity>, i: nat, n: nat)
    requires WellFormed(start) && all == SortedIdentities(DuplicateIdentities(start.cases)) && size > 0
    requires i < |all| && Clear(start, firm, all[..i]) && Times(n, size) + size <= i
    ensures !Failing(History(start, firm, Batches(n, size)), firm, size)
  {
    hide WellFormed, History, DuplicateIdentities, Run, Left, Clear, Times;
    LeftAfter(start, firm, size, all, i, n);
    ClearShorter(start, firm, all, Times(n, size) + size, i);
    FullBatch(start, History(start, firm, Batches(n, size)), firm, size, all, Times(n, size));
  }

  // ----- the run

  lemma SameTotals(start: Db, now: Db, firm: int, rest: seq<Identity>)
    requires Left(start, now, firm, rest)
    ensures Promise(now, firm) == Promised(Total(rest, CountsOf(start, firm)))
  {
    hide DuplicateIdentities, GroupCounts, Total, WellFormed, SameTwins, Promised;
    TotalSame(rest, CountsOf(now, firm), CountsOf(start, firm));
  }

  lemma Cancelled(a: Done, b: Done, c: Done)
    requires AddDone(a, c) == AddDone(b, c)
    ensures a == b
  {}

  /** What has been done once the first `k` groups are merged. */
  lemma DonePrefix(start: Db, now: Db, firm: int, all: seq<Identity>, k: nat, done: Done)
    requires all == SortedIdentities(DuplicateIdentities(start.cases)) && k <= |all|
    requires Left(start, now, firm, all[k..]) && Promise(start, firm) == AddDone(done, Promise(now, firm))
    ensures done == Promised(Total(all[..k], CountsOf(start, firm)))
  {
    hide DuplicateIdentities, Left, Total, CountsOf, Promised, AddDone;
    PromisedSplit(all, k, CountsOf(start, firm));
    SameTotals(start, now, firm, all[k..]);
    Cancelled(done, Promised(Total(all[..k], CountsOf(start, firm))), Promise(now, firm));
  }

  lemma LeftCount(start: Db, now: Db, firm: int, rest: seq<Identity>)
    requires Left(start, now, firm, rest)
    ensures |DuplicateIdentities(now.cases)| == |rest|
  {}

  /** No batch is committed past the blocked one. */
  lemma NotPastBlock(start: Db, now: Db, firm: int, size: int, s: RunSummary, all: seq<Identity>, i: nat, m: nat)
    requires WellFormed(start) && all == SortedIdentities(DuplicateIdentities(start.cases)) && size > 0
    requires now == History(start, firm, Batches(s.batchesDone, size))
    requires s.remaining == |DuplicateIdentities(now.cases)| && |all| == s.done.merged + s.remaining
    requires s.done.merged == Times(s.batchesDone, size)
    requires i < |all| && Blocked(start, firm, all[i]) && Clear(start, firm, all[..i])
    requires Times(m, size) <= i < Times(m, size) + size
    ensures s.batchesDone <= m
  {
    hide WellFormed, History, DuplicateIdentities, Failing, Left, Clear, Blocked, Times;
    var n := s.batchesDone;
    BlockedFails(start, firm, size, all, i, m);
    if n > m {
      TimesLater(m, n, size);
      StuckFrom(start, firm, size, m, n);
      LeftCount(start, now, firm, all[Times(m, size)..]);
    }
  }

  /** The batches committed are the full ones before the blocked one. */
  lemma BatchesBeforeBlock(start: Db, now: Db, firm: int, size: int, s: RunSummary, all: seq<Identity>, i: nat, m: nat)
    requires WellFormed(start) && all == SortedIdentities(DuplicateIdentities(start.cases)) && size > 0
    requires now == History(start, firm, Batches(s.batchesDone, size)) && Failing(now, firm, size)
    requires s.remaining == |DuplicateIdentities(now.cases)| && |all| == s.done.merged + s.remaining
    requires s.done.merged == Times(s.batchesDone, size)
    requires i < |all| && Blocked(start, firm, all[i]) && Clear(start, firm, all[..i])
    requires Times(m, size) <= i < Times(m, size) + size
    ensures s.batchesDone == m
  {
    hide WellFormed, History, DuplicateIdentities, Failing, Left, Clear, Blocked, Times;
    var n := s.batchesDone;
    NotPastBlock(start, now, firm, size, s, all, i, m);
    if n < m {
      TimesLater(n, m, size);
      EarlierSucceeds(start, firm, size, all, i, n);
    }
  }

  /**
   * Where an undisturbed run stops that cannot complete: at the batch of the
   * first identity, in order, of which the firm owns a non-civil case. All
   * batches before it are committed, and the sums are the report's for their
   * groups.
   */
  lemma QuietRunStopsAt(start: Db, now: Db, firm: int, size: int, world: World, s: RunSummary, failing: bool,
                        all: seq<Identity>, i: nat)
    requires WellFormed(start) && size > 0 && Quiet(world)
    requires Account(Reach(start, firm, size), Tally(start, firm, size), now, s) && Pace(s, size)
    requires s.groupsBefore == |DuplicateIdentities(start.cases)|
    requires Explained(s, failing, None, world) && (failing ==> Failing(now, firm, size))
    requires all == SortedIdentities(DuplicateIdentities(start.cases))
    requires i < |all| && Blocked(start, firm, all[i]) && Clear(start, firm, all[..i])
    ensures s.stop == Some(Error) && s.batchesDone == i / size
    ensures 0 <= i / size * size <= i
    ensures s.done == Promised(Total(all[..i / size * size], CountsOf(start, firm)))
  {
    hide WellFormed, History, HistoryDone, DuplicateIdentities, Promise, Failing, Left, Clear, Blocked, Total, CountsOf,
      Times;
    Quotient(i, size);
    QuietRunStops(start, firm, size, world, s, failing);
    BlockedRemains(start, now, firm, size, s, all, i);
    BatchesBeforeBlock(start, now, firm, size, s, all, i, i / size);
    BlockedFails(start, firm, size, all, i, i / size);
    HistoryPromise(start, firm, Batches(s.batchesDone, size));
    DonePrefix(start, now, firm, all, i / size * size, s.done);
  }

  /** The blocked group is still there. */
  lemma BlockedRemains(start: Db, now: Db, firm: int, size: int, s: RunSummary, all: seq<Identity>, i: nat)
    requires WellFormed(start) && all == SortedIdentities(DuplicateIdentities(start.cases))
    requires now == History(start, firm, Batches(s.batchesDone, size))
    requires s.remaining == |DuplicateIdentities(now.cases)| && i < |all| && Blocked(start, firm, all[i])
    ensures s.remaining > 0
  {
    hide WellFormed, History, DuplicateIdentities;
    HistoryBlocked(start, firm, Batches(s.batchesDone, size));
    var c :| FirmTwin(start, firm, {all[i]}, c);
    assert all[i] in Elements(all);
    assert FirmTwin(start, firm, DuplicateIdentities(start.cases), c);
    assert IdentityOf(now.cases[c]) in DuplicateIdentities(now.cases);
  }

  // ----- with a limit on the number of batches

  function AtMost(limit: int, n: int): int { if limit < 0 then 0 else if limit < n then limit else n }

  lemma NeededCovers(groups: int, size: int)
    requires size > 0
    ensures BatchesNeeded(groups, size) * size >= groups
  {
    var q := (-groups) / size;
    assert q * size <= -groups;
    assert (-q) * size == -(q * size);
  }

  lemma LastStarted(s: RunSummary, limit: int, every: int, world: World)
    requires every > 0 && Heeded(s.batchesDone, Some(limit), every, world)
    ensures s.batchesDone > 0 ==> s.batchesDone <= limit
  {
    if s.batchesDone > 0 {
      assert MayStart(Some(limit), world, s.batchesDone - 1);
    }
  }

  /**
   * An undisturbed run limited to some number of batches, on a database where
   * none can fail: it makes that many, or as many as are needed if that is
   * less, and says which.
   */
  lemma QuietLimitedRun(start: Db, now: Db, firm: int, size: int, limit: int, every: int, world: World, s: RunSummary,
                        failing: bool)
    requires WellFormed(start) && size > 0 && every > 0 && Quiet(world)
    requires Account(Reach(start, firm, size), Tally(start, firm, size), now, s) && Pace(s, size)
    requires s.groupsBefore == |DuplicateIdentities(start.cases)| && Heeded(s.batchesDone, Some(limit), every, world)
    requires Explained(s, failing, Some(limit), world) && (failing ==> Failing(now, firm, size))
    requires forall c :: !FirmTwin(start, firm, DuplicateIdentities(start.cases), c)
    ensures
      var needed := BatchesNeeded(|DuplicateIdentities(start.cases)|, size);
      && s.batchesDone == AtMost(limit, needed)
      && s.stop == Some(if s.batchesDone == needed then Completed else MaxBatches)
  {
    hide WellFormed, History, HistoryDone, DuplicateIdentities, Failing, FirmTwin, Heeded;
    assert now == History(start, firm, Batches(s.batchesDone, size));
    NothingFails(start, now, firm, size);
    LastStarted(s, limit, every, world);
    if s.remaining == 0 {
      PaceIsPlan(s, size);
    } else {
      TimesIs(s.batchesDone, size);
      NeededCovers(s.groupsBefore, size);
      TimesOrder(BatchesNeeded(s.groupsBefore, size), s.batchesDone, size);
    }
  }

  /** With a limit and a group that cannot be merged: whichever comes first. */
  lemma QuietLimitedStopsAt(start: Db, now: Db, firm: int, size: int, limit: int, every: int, world: World,
                            s: RunSummary, failing: bool, all: seq<Identity>, i: nat)
    requires WellFormed(start) && size > 0 && every > 0 && Quiet(world)
    requires Account(Reach(start, firm, size), Tally(start, firm, size), now, s) && Pace(s, size)
    requires s.groupsBefore == |DuplicateIdentities(start.cases)| && Heeded(s.batchesDone, Some(limit), every, world)
    requires Explained(s, failing, Some(limit), world) && (failing ==> Failing(now, firm, size))
    requires all == SortedIdentities(DuplicateIdentities(start.cases))
    requires i < |all| && Blocked(start, firm, all[i]) && Clear(start, firm, all[..i])
    ensures s.batchesDone == AtMost(limit, i / size)
    ensures s.stop == Some(if limit <= i / size then MaxBatches else Error)
  {
    hide WellFormed, History, HistoryDone, DuplicateIdentities, Failing, Clear, Blocked, Times, Heeded;
    Quotient(i, size);
    LastStarted(s, limit, every, world);
    BlockedRemains(start, now, firm, size, s, all, i);
    NotPastBlock(start, now, firm, size, s, all, i, i / size);
    if s.stop == Some(Error) {
      BatchesBeforeBlock(start, now, firm, size, s, all, i, i / size);
    }
  }
}
