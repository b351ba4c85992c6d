# Unificación de causas, plazos and worker services: a verified model

The firm's back office keeps one copy of a court case per lawyer who scraped
it. This project models, in Dafny, the code that merges those copies and the
services around it, and proves what they promise. `dafny verify dfyconfig.toml`
checks everything.

**The duplicate-case merge.** `Session` (CaseMergeSession.dfy) holds the tables
as mutable maps from id to row and carries out the pipeline statement by
statement: group the civil cases by rol, court and cuaderno, take the richest
as winner, record every lawyer as a source, write the audit rows, move or
collapse every child row of each loser with its references, verify, delete,
re-own. Its methods are proved against a functional specification
(ChildTable.dfy, CaseTables.dfy, CaseMerge.dfy), about which the main theorems
are stated:

- referential integrity and the verification gate (`MergeGroupsOk`, `GatePasses`);
- uniqueness at every row operation, in any order (`AppliedUnique`,
  `ReownStepwise`);
- nothing lost and nothing invented, from one group to whole histories
  (`GroupKeysKept`, `GroupLinkedKeysKept`, `HistoryConserves`,
  `HistoryConservesLinked`);
- batches of any sizes, with failures and restarts, equal one unbatched run
  (`HistoryEqualsFull`); so does any choice of groups in any order, under an
  exact condition on the rows (`AnyOrderIff`, `RunsEqualFullIff`);
- the read-only report predicts the effect (`ReportPredictsRun`,
  `ReportPredictsHistory`), although it computes winners up front;
- the runner accounts for every group, terminates, and takes the planned number
  of batches or stops at the first group it cannot merge (`RunLoop`,
  `QuietRunCompletesIff`, `QuietRunStopsAt`);
- the same said row by row in the columns of the tables: which cases and child
  rows are deleted, what stands for each, what stays (`FullCases`, `FullRows`,
  `HistoryRows`), what the gate refuses and what the summary counts (`GateIs`,
  `SummaryIs`);
- the audit stays a chain from gone losers to live winners (`RunsKeepChain`).

**The legal terms.** Business-day arithmetic (BusinessDays.dfy) carries the
traffic light (Semaforo.dfy); the verdict (Verdict.dfy) stands apart.

**Services with whole-run guarantees.** The greedy allocation of cases
(Asignacion.dfy), the deduplicated credential log (CredentialAudit.dfy,
CredentialHealth.dfy), the
exclusive timer (CycleTiming.dfy), the claim queue (ConnectionQueue.dfy), the
egress guard (EgressGuard.dfy) and the RUT check digit (Rut.dfy).

## Assumptions and findings

- `WellFormed`: foreign keys and UNIQUE constraints hold at the start and
  primary keys are positive.
- The comment that deleting losers first makes the re-own unconditionally safe
  (`app/services/case_merge.py:189-196`) does not hold: the re-own has no
  competencia filter, although its docstring speaks of civil cases, and
  `uq_cases_identity` covers every case. `FullRunSucceedsIff` and
  `BatchSucceedsIff` give the exact conditions, both of which a caller can query
  before the call; `FullRunCanFail` and `BatchCanFail` are databases on which they
  fail. `NonCivilApart` is what the theorems that compare with a full run assume;
  those about batches alone assume nothing of non-civil cases, and
  `QuietRunCompletesIff` and `QuietRunStopsAt` say what such cases do to a
  batched run.
- The order in which groups are merged can show: following the references to
  another group first can make two documents or alerts of one group collide that
  would not have. `CrossingOrderMatters` is a database and two calls on which it
  does; `AnyOrderIff` and `RunsEqualFullIff` say exactly when it does not.
  Deadline and hito references never matter.
- A full run on a database without duplicates still re-owns cases the firm does
  not own: `FullRerunIsNoopIff`.
- Deduplicating validations preserves the health shown but not always the dates
  shown (`DatesMayDiffer`): `ValidationDatesAgreeIff` and `DatesAgreeIff` say
  exactly when it does.
- A previo a proveer of the trigger day is evidence that can lower a verdict:
  `PrevioLowers`; `NeverLowersIff` says exactly which additions can.
- `breakdown()` overwrites the total of a bucket that is itself called "other":
  `BreakdownAddsUpIff`.
- A request is handed out once unless a step selects a row another worker holds,
  which row locks rule out, or a status write puts "pending" on a row handed out,
  which nothing rules out: `ApartThroughoutIff` and `HandedOutAtMostOnce` are exact,
  `DoubleDispatchWithoutLocks` is a run of the first kind, and
  `HazardCanDispatchTwice` shows that each hazard leads to a second handout.
  A row put back keeps its old date, so order of arrival has its own exact
  condition: `OneWorkerIsFair`.
- Business-day loops terminate because the days around every date hold a
  business day (`Dense`); the holiday table itself is a parameter.

## Model

| member | source | states |
|---|---|---|
| `ChildTable.MergeRows` | app/services/case_merge.py:500-513 | The "seen" loop over a loser's rows in id order leaves exactly the declarative merge: a row is dropped when the winner, or an earlier row of the loser, holds its identity; every other row moves |
| `ChildTable.SeenKeys` | app/services/case_merge.py:504-506 | The set built from the winner's rows is the set of its identities |
| `ChildTable.FirstRows` | app/services/case_merge.py:470-472 | `setdefault` in id order keeps, for each identity of a case, its lowest row |
| `ChildTable.SeenIffDropped` | app/services/case_merge.py:508-513 | A row's identity has been seen when it is visited exactly when the declarative merge drops it |
| `ChildTable.AppliedUnique` | app/services/case_merge.py:416-438 | Whatever subset of a table's row updates and deletes has been carried out, in any order, no case holds one identity twice |
| `ChildTable.MergedKeys` | app/services/case_merge.py:427-433 | The winner ends with exactly the union of its identities and the loser's |
| `ChildTable.MergedRow` | app/services/case_merge.py:427-433 | A row survives unless dropped, with its data, and only the loser's rows change owner |
| `ChildTable.CanonicalSurvives` | app/services/case_merge.py:474-497 | The canonical row of a collapsed row survives, on the winner, with the same identity |
| `ChildTable.CanonUnique` | app/services/case_merge.py:470-492 | Each collapsed row has one canonical row, so re-pointing is determined by the tables alone |
| `ChildTable.MergedOwners` | app/services/case_merge.py:500-513 | No row stays on the loser and no row appears anywhere but on the winner |
| `ChildTable.MergedElsewhere` | app/services/case_merge.py:508-513 | Rows of every other case are untouched |
| `CaseTables.FollowSurvives` | app/services/case_merge.py:479-492 | A re-pointed reference names a surviving row with the identity of the row it named before |
| `CaseTables.MergeKidsOwners` | app/services/case_merge.py:416-453 | After the merges of the twelve child tables other than the lawyer sources, which `MergePairOk` covers, no row of theirs names the loser |
| `CaseTables.MergeKidsLinks` | app/services/case_merge.py:435-453 | The five movement references and the escrito reference stay live through the merge of every table |
| `CaseTables.MergeKidsUnique` | app/models/case_deadline.py:31-38 | The per-case UNIQUE constraints hold after the merge of a loser and at every row operation on the way |
| `CaseMerge.Winner` | app/services/case_merge.py:362-368 | The winner is in the group and richer than every other case of it, or as rich with a lower id |
| `CaseMerge.SortedIdentities` | app/services/case_merge.py:291-307 | Each duplicate identity once, ascending by court, rol and procedure |
| `CaseMerge.GroupIds` | app/services/case_merge.py:327-343 | Exactly the civil cases of the identity, in id order |
| `CaseMerge.GroupsAreValid` | app/services/case_merge.py:310-343 | The groups of a run are non-empty and pairwise disjoint |
| `CaseMergeSafety.MergeGroupElsewhere` | app/services/case_merge.py:145-171 | Merging one group changes neither the rows nor the winner of a disjoint one |
| `CaseMergeSafety.LosersUpFront` | app/services/case_merge.py:145-173 | Winners and losers computed before the run are those chosen while the merge advances |
| `CaseMergeSafety.MergePairOk` | app/services/case_merge.py:399-453 | After one loser is merged neither a child row, nor a lawyer source, nor an audit row names it, every reference is live and the UNIQUE constraints hold |
| `CaseMergeSafety.MergeGroupsOk` | app/services/case_merge.py:145-171 | After the groups are merged no child, source or audit row names a loser, every reference is live and the UNIQUE constraints hold |
| `CaseMergeRun.GatePasses` | app/services/case_merge.py:173-180 | From a well-formed database the verification gate always passes |
| `CaseMergeRun.DeletionLeaves` | app/services/case_merge.py:182-187 | The deletion leaves exactly the winners of the selected identities and every case of any other |
| `CaseMergeRun.GroupAfterDelete` | app/services/case_merge.py:182-187 | A selected identity keeps its winner alone; any other keeps all its cases |
| `CaseMergeRun.ReownStepwise` | app/services/case_merge.py:659-665 | If the re-owned table satisfies `uq_cases_identity`, so does every table on the way, in any order of the rows |
| `CaseMergeRun.FullRunSucceedsIff` | app/services/case_merge.py:645-665 | The full-table run succeeds if and only if no non-civil case shares its identity with another case; the re-own has no competencia filter |
| `CaseMergeRun.BatchSucceedsIff` | app/services/case_merge.py:189-206 | A batched run succeeds if and only if no firm-owned non-civil case holds an identity of the batch |
| `CaseMergeRun.FullRunCanFail` | app/services/case_merge.py:645-665 | A well-formed database, with a civil and a labour case of one identity, on which the full run fails on `uq_cases_identity` |
| `CaseMergeRun.BatchCanFail` | app/services/case_merge.py:189-206 | A well-formed database on which a batch fails: two civil copies and a labour case the firm owns |
| `CaseMergeRun.RunOutcome` | app/services/case_merge.py:94-216 | On a well-formed database a run can fail only on `uq_cases_identity`; otherwise it leaves the merged rows and the re-owned survivors |
| `CaseMergeRun.RunKeepsWellFormed` | app/services/case_merge.py:94-216 | A successful run leaves foreign keys and constraints intact and exactly the unselected identities still duplicated |
| `CaseMergeBatches.LaterGroupsKept` | app/services/case_merge.py:124-133 | After a batch the next selection holds the groups it would have held anyway, with the same winners |
| `CaseMergeBatches.BatchOutcome` | app/services/case_merge.py:124-133 | A batch of any size takes the first groups in identity order; it succeeds if and only if the firm owns no non-civil case of one of their identities, and otherwise changes nothing |
| `CaseMergeBatches.BatchThenFull` | app/services/case_merge.py:94-216 | A batch followed by a full run leaves exactly what the full run alone leaves |
| `CaseMergeBatches.TransactThenFull` | app/services/dedup_cases_runner.py:194-207 | A committed or rolled-back batch changes nothing of what a full run will leave |
| `CaseMergeBatches.HistoryThenFull` | app/services/case_merge.py:94-216 | Any history of batches of any sizes, with failures and restarts, followed by a full run leaves what one full run leaves |
| `CaseMergeBatches.HistoryMergesAll` | app/services/case_merge.py:94-216 | Any history of batches that leaves no duplicate has merged every group in identity order: same surviving cases, child rows, references, sources and audit, on every well-formed database |
| `CaseMergeBatches.HistoryBlocked` | app/services/case_merge.py:189-206 | Over any history the firm-owned non-civil cases of duplicate identities stay what they were: no batch settles their identities |
| `CaseMergeBatches.HistoryEqualsFull` | app/services/case_merge.py:94-216 | A history that leaves no duplicate has the same surviving cases, child rows, references, sources and audit as one unbatched run; only the owner of cases that never were duplicated differs |
| `CaseMergeContents.GroupKeysKept` | app/services/case_merge.py:456-642 | In seven tables the winner's identities after a group are exactly those of the whole group |
| `CaseMergeContents.FollowedRowsLive` | app/services/case_merge.py:474-545 | A movement or escrito reference followed through a group names a live row with the identity of the row it named |
| `CaseMergeContents.GroupLinkedKeysKept` | app/services/case_merge.py:564-610 | The winner's document and alert identities are exactly those of the group, taken after the references are followed through the group and through whatever is merged later |
| `CaseMergeContents.UnidentifiedDocumentsStay` | app/services/case_merge.py:564-593 | A document with a token hash, or with neither link, is never deleted |
| `CaseMergeContents.GroupSourcesKept` | app/services/case_merge.py:371-396 | The winner's lawyer sources are exactly the sources and the owners of all cases of its group |
| `CaseMergeContents.PlainRowsStay` | app/services/case_merge.py:450-453 | Hitos, liberaciones and generated documents lose no row |
| `CaseMergeConservation.FullConserves` | app/services/case_merge.py:94-216 | After a full run the winner of every duplicate identity holds, in each of the seven tables, exactly the identities its whole group held |
| `CaseMergeConservation.HistoryConserves` | app/services/case_merge.py:94-216 | The same after any history of batches, committed or rolled back, that merges everything |
| `CaseMergeConservation.FullLeavesOthers` | app/services/case_merge.py:94-216 | A case that was not duplicated holds the identities it held, in each of the seven tables |
| `CaseMergeConservation.FullConservesSources` | app/services/case_merge.py:371-396 | After a full run the sources of a winner are exactly the lawyers who saw or owned a case of its identity |
| `CaseMergeConservation.RunKeepsUnidentified` | app/services/case_merge.py:564-593 | No successful run, with any limit or keys, deletes a document with a token hash or without links |
| `CaseMergeRows.MergeRows` | app/services/case_merge.py:416-453 | One merge, table by table and column by column: a loser's row is deleted if and only if a row of the winner, or an earlier one of the loser, agrees in the identifying columns (folio and description; type and date; lawyer, kind, message and movement; both links of a hash-less linked document; natural key), links followed; every other row keeps its columns and the loser's go to the winner |
| `CaseMergeRows.MergeGroupRows` | app/services/case_merge.py:145-171 | A group, in the same columns: deleted if and only if a row visited before agrees once the links are followed as far as then, and a row of the winner that agrees survives |
| `CaseMergeRows.FullRows` | app/services/case_merge.py:94-216 | A full run, in the same columns: which rows of the twelve tables are deleted, which row of the winner stands for each, and that all others keep their columns |
| `CaseMergeRows.HistoryRows` | app/services/case_merge.py:94-216 | The same of any history of batches that merges everything |
| `CaseMergeCausas.DuplicatedIff` | app/services/case_merge.py:291-307 | A causa is selected if and only if two civil cases have its rol, its court and its cuaderno, a missing cuaderno being the empty one |
| `CaseMergeCausas.SelectionIs` | app/services/case_merge.py:310-324 | The groups of a call: of the duplicated causas among the keys given, the first `group_limit` in the order of court, rol and cuaderno, texts compared by their first difference |
| `CaseMergeCausas.WinnerIs` | app/services/case_merge.py:353-368 | The case chosen is the civil one of the causa that has most movements, documents and litigantes together, ties to the lowest id |
| `CaseMergeCausas.RunCases` | app/services/case_merge.py:173-206 | A run deletes exactly the civil cases of its causas that another civil case of the same rol, court and cuaderno goes before; those left keep every column but the owner, and it says which the firm owns |
| `CaseMergeCausas.FullCases` | app/services/case_merge.py:94-216 | After a full run no two civil cases agree in rol, court and cuaderno, and cases that differ in one of them are both left |
| `CaseMergeCausas.FullSucceedsOnColumns` | app/services/case_merge.py:645-665 | The condition for a full run to succeed, in the columns: no non-civil case agrees with another in rol, court and cuaderno |
| `CaseMergeCausas.BatchSucceedsOnColumns` | app/services/case_merge.py:189-206 | The condition for a batch, in the columns: the firm owns no non-civil case of its causas |
| `CaseMergeCausas.RunRecords` | app/services/case_merge.py:154-166 | Every case a run deletes has a new audit row with its id, owner and rol that names a case left of the same causa |
| `CaseMergeCausas.ReverseAdds` | app/services/case_merge.py:254-281 | Every case the downgrade adds has the owner and rol of an audit row and the court, procedure and competencia of its winner, and there was no such case |
| `CaseMergeCausas.ReverseGivesBack` | app/services/case_merge.py:254-281 | Afterwards the lawyer of every audit row with a live winner has a case of that rol in its court and cuaderno |
| `CaseMergeAccount.GateIs` | app/services/case_merge.py:694-737 | The gate refuses if and only if a row of one of the twelve tables, a source or an audit row names a loser, or two civil cases left agree in rol, court and cuaderno within the scope |
| `CaseMergeAccount.SummaryIs` | app/services/case_merge.py:208-216 | The summary is what the run did: cases gone, audit rows added, owners changed, groups selected, groups left |
| `CaseMergeAccount.GoesToIs` | app/services/case_merge.py:145-171 | In a full run the rows of a case go to the civil case of its causa that none goes before; those of a case none goes before stay |
| `CaseMergeReferences.FullConservesLinked` | app/services/case_merge.py:564-610 | After a full run the winner of every duplicate identity holds exactly the document and alert identities its whole group held, references followed through all groups |
| `CaseMergeReferences.HistoryConservesLinked` | app/services/case_merge.py:564-610 | The same after any history of batches that merges everything |
| `CaseMergeReferences.FullOutside` | app/services/case_merge.py:474-545 | Of the rows of cases that were not duplicated a full run changes only the references to collapsed rows, which follow them |
| `CaseMergeParts.MergeKidsInside` | app/services/case_merge.py:440-453 | What a merge makes of the rows of a part of the cases that holds loser and winner depends on those rows alone |
| `CaseMergeParts.MergeKidsOutside` | app/services/case_merge.py:474-545 | Of every row of the other cases a merge changes only the references: those that name a collapsed row follow it |
| `CaseMergeParts.GroupsOutside` | app/services/case_merge.py:145-171 | The same for all groups of a run: beyond them only references change, by the redirections each group has on its own |
| `CaseMergeParts.GroupsInside` | app/services/case_merge.py:145-171 | The rows of each group end as merging it alone leaves them, with references to the groups before it followed at the start and references to the groups after it followed in the end |
| `CaseMergeSteady.MergedRepointedIff` | app/services/case_merge.py:427-433 | In one table, merging and following the references of other groups commute if and only if no row of the loser first collides once they are followed |
| `CaseMergeSteady.MergeKidsRedirectedIff` | app/services/case_merge.py:440-453 | For one merge of all tables the same, where only documents and alerts can be concerned: no identity holds a deadline or hito reference |
| `CaseMergeSteady.SteadyIff` | app/services/case_merge.py:168-171 | For a whole group: merging it first or after other groups leaves the same rows if and only if at none of its merges a document or alert first collides once the other references are followed |
| `CaseMergeSteady.UncrossedIsSteady` | app/services/case_merge.py:564-610 | In particular when none of its documents and alerts refers to a collapsed row of another group |
| `CaseMergeOrder.AnyOrderIff` | app/services/case_merge.py:145-171 | Every order of the groups leaves the same rows, references and sources, and the same audit rows up to their order, if and only if no document or alert of a group first collides with another of its own group once the references to the other groups are followed |
| `CaseMergeOrder.NoCrossingIsOrderFree` | app/services/case_merge.py:564-610 | So it is when no document and no alert of one group refers to another group, whatever deadlines and hitos refer to |
| `CaseMergeCalls.RunsThenFull` | app/services/case_merge.py:94-216 | On such a database any sequence of calls with any `group_limit` and `only_group_keys`, committed or rolled back, changes nothing of what a full run will leave, up to the order of the audit rows |
| `CaseMergeCalls.RunsEqualFullIff` | app/services/case_merge.py:94-216 | Every sequence of calls that leaves no duplicate ends with the surviving cases, child rows, references and sources of one unbatched run, the same audit rows up to order, and owners that differ only where the unbatched run re-owns, if and only if no document or alert of a duplicated causa first collides with another of its causa once the references to other causas are followed |
| `CaseMergeCalls.CrossingOrderMatters` | app/services/case_merge.py:596-610 | A well-formed database of two causas on which a call for the second and then a full one keep an alert that one full run collapses |
| `CaseMergeAudit.MergeGroupsAudit` | app/services/case_merge.py:154-171 | Old audit rows follow their winner to the case that now holds its data, and the new rows are exactly the losers, group by group and in order, each with its data and its winner |
| `CaseMergeAudit.OneRowPerLoser` | app/services/case_merge.py:154-171 | No loser is recorded twice by a run |
| `CaseMergeAudit.RunKeepsChain` | app/services/case_merge.py:399-413 | After a run every audit row names a live winner and a loser that is gone, if that was so before |
| `CaseMergeAudit.RunsKeepChain` | app/services/case_merge.py:399-413 | The same after any sequence of calls with any arguments, committed or rolled back |
| `CaseMergeAudit.BatchedRerunIsNoop` | app/services/case_merge.py:121-122 | With no duplicates left a batched call changes nothing and reports zeros |
| `CaseMergeAudit.FullRerunIsNoopIff` | app/services/case_merge.py:121-122 | With no duplicates left the full run changes nothing, and reports no merge, deletion or re-own, if and only if the firm owns every case |
| `CaseMergeAudit.FullRunIdempotent` | app/services/case_merge.py:645-665 | Running the full merge twice is running it once, and the second report is all zeros |
| `CaseMergeReverse.ReverseExtends` | app/services/case_merge.py:234-283 | The downgrade keeps every case, adds only new ids and returns how many it added |
| `CaseMergeReverse.ReverseRecreates` | app/services/case_merge.py:254-281 | Every audit row with a live winner has its loser's identity back |
| `CaseMergeReverse.ReverseUnique` | app/services/case_merge.py:259-270 | `uq_cases_identity` survives the downgrade |
| `CaseMergeReverse.ReverseTwice` | app/services/case_merge.py:246-248 | A second downgrade recreates nothing |
| `CaseMergeSession.Session.SelectWinner` | app/services/case_merge.py:362-368 | The loop returns the winner of the group |
| `CaseMergeSession.Session.Backfill` | app/services/case_merge.py:371-396 | The source pairs become the old ones plus the winner with every lawyer of the group, none of them twice |
| `CaseMergeSession.Session.MergeMovements` | app/services/case_merge.py:456-497 | In place, row by row: movements merged, and all five references to a collapsed movement re-pointed to its canonical row |
| `CaseMergeSession.Session.MergeEscritos` | app/services/case_merge.py:516-545 | In place: escritos merged and documents re-pointed |
| `CaseMergeSession.Session.MergeChildren` | app/services/case_merge.py:440-453 | The calls in the order of the program carry out the merge of all child tables |
| `CaseMergeSession.Session.MergeLoser` | app/services/case_merge.py:168-171 | One loser: children, then the audit rows that named it |
| `CaseMergeSession.Session.MergeEachLoser` | app/services/case_merge.py:168-171 | The losers one after another, with earlier writes visible |
| `CaseMergeSession.Session.MergeOneGroup` | app/services/case_merge.py:145-171 | One group: sources, audit rows, losers; returns the winner and the losers chosen |
| `CaseMergeSession.Session.MergeAllGroups` | app/services/case_merge.py:145-173 | All groups one after another; returns all losers and winners as known before the first merge |
| `CaseMergeSession.Session.VerifyInvariants` | app/services/case_merge.py:668-744 | The gate answers exactly whether a child, source or audit row names a loser or a selected identity is still duplicated |
| `CaseMergeSession.Session.SelectBatchIdentities` | app/services/case_merge.py:310-324 | Filter by keys, then cut to the limit, on the sorted duplicates |
| `CaseMergeSession.Session.VerifyDeleteReown` | app/services/case_merge.py:173-216 | Verify, delete, re-own in that order; on an error the error is returned |
| `CaseMergeSession.Session.RunCaseMerge` | app/services/case_merge.py:94-216 | The imperative pipeline refines the functional run: same result, same counters, same error |
| `CaseMergeSession.Session.Rollback` | app/services/dedup_cases_runner.py:200-205 | A rollback restores every table |
| `CaseMergeSession.Session.ReverseCaseMerge` | app/services/case_merge.py:234-283 | The loop that sees its own additions recreates what the specification recreates |
| `CaseMergeReport.PredictGroup` | app/services/dedup_cases_report.py:249-259 | The read-only loop over keys counts exactly the movements that merging the losers one by one deletes and moves |
| `CaseMergeReport.CountLoser` | app/services/dedup_cases_report.py:253-259 | Per loser, keys already seen and keys new |
| `CaseMergeReport.HitIffDropped` | app/services/dedup_cases_report.py:255-259 | A key is found by the report exactly when the merge drops its row |
| `CaseMergeReport.PredictedIsDropped` | app/services/dedup_cases_report.py:251-259 | Against the table the merge has reached, although the report reads the table it started from |
| `CaseMergeReport.GroupEffect` | app/services/dedup_cases_report.py:252-259 | Merging the losers deletes and moves as many movements as the two counters say |
| `CaseMergeReport.CountsSame` | app/services/dedup_cases_report.py:252-259 | The counters depend only on the movements of the group's own cases |
| `CaseMergePrediction.ReportGroup` | app/services/dedup_cases_report.py:226-299 | Winner, the two movement counters, surplus and owner change of one group, the figures the five totals are made of |
| `CaseMergePrediction.BuildReport` | app/services/dedup_cases_report.py:226-299 | The five totals modelled, whatever the order of the groups |
| `CaseMergePrediction.TotalAnyOrder` | app/services/dedup_cases_report.py:226-280 | Totals do not depend on the order in which the groups are listed |
| `CaseMergePrediction.MovementsEffect` | app/services/dedup_cases_report.py:249-272 | Over all groups, movements deleted and moved are the sums of what each group shows at the start |
| `CaseMergePrediction.ReownedAre` | app/services/dedup_cases_report.py:279-280 | A batch re-owns exactly the winners the report marks as changing owner |
| `CaseMergePrediction.ReportPredictsRun` | app/services/dedup_cases_report.py:219-299 | The report predicts the unbatched run: movements deleted and moved, cases deleted, audit rows |
| `CaseMergePrediction.BatchDone` | app/services/dedup_cases_report.py:262-280 | What a batch returns is what the report says of its groups, and nothing when a firm-owned non-civil case makes it fail |
| `CaseMergePrediction.LaterCountsKept` | app/services/dedup_cases_report.py:226-280 | A batch changes nothing of what the report says of the groups it leaves |
| `CaseMergePrediction.HistoryPromise` | app/services/dedup_cases_report.py:262-280 | At every point of any history, what has been reported and what the report now says of the remaining groups add up to what the report said at the start |
| `CaseMergePrediction.ReportPredictsHistory` | app/services/dedup_cases_report.py:219-299 | Over any history of batches that merges everything, groups merged, cases deleted, audit rows, owners changed and movements deleted and moved add up to the report's totals |
| `DedupRunner.RunBatch` | app/services/dedup_cases_runner.py:196-207 | One transaction: the batch's result committed, or the database as it was |
| `DedupRunner.Verify` | app/services/dedup_cases_runner.py:266-288 | On a well-formed database the orphan check fails only by not being able to run |
| `DedupRunner.BatchCounts` | app/services/dedup_cases_runner.py:210-214 | A batch merges min(size, remaining) groups and reports what remains |
| `DedupRunner.CommitStep` | app/services/dedup_cases_runner.py:210-214 | A committed batch keeps `groups_before == groups_merged + remaining` and strictly lowers the remaining groups |
| `DedupRunner.NextBatch` | app/services/dedup_cases_runner.py:194-231 | Commit and count, or roll back and stop with an error |
| `DedupRunner.Turn` | app/services/dedup_cases_runner.py:182-241 | One turn of the loop keeps the account, and stops or makes progress |
| `DedupRunner.RunLoop` | app/services/dedup_cases_runner.py:180-244 | The loop terminates; the counters account for the database reached; no batch starts past the limit, the stop file or the time budget; the stop reason is the first that holds; and the checks made are given exactly |
| `DedupRunner.CheckedIff` | app/services/dedup_cases_runner.py:238-244 | The integrity checks of a run come after the batches that are multiples of `verify_every` and after the last one, and no others |
| `DedupRunner.IntegrityIs` | app/services/dedup_cases_runner.py:95-108 | The check fails if and only if a row of one of the thirteen tables names a case that is not there |
| `DedupRunner.RunBatches` | app/services/dedup_cases_runner.py:136-247 | Argument errors, plan, refusal and run; nothing is written unless it ran, and of a run all that `RunLoop` promises |
| `DedupRunner.PaceIsPlan` | app/services/dedup_cases_runner.py:258-258 | A run that merged everything took exactly the planned number of batches |
| `DedupRunner.QuietRunCompletesIff` | app/services/dedup_cases_runner.py:180-247 | On a quiescent database an undisturbed run merges everything if and only if the firm owns no non-civil case of a duplicate identity; then it takes exactly `batches_needed` batches, and its sums are the report's |
| `DedupRunnerStops.QuietRunStopsAt` | app/services/dedup_cases_runner.py:194-207 | Otherwise it stops with an error at the batch of the first such identity in order: the full batches before it are committed, and its sums are the report's for their groups |
| `DedupRunnerStops.QuietLimitedRun` | app/services/dedup_cases_runner.py:182-192 | With `max_batches` an undisturbed run with nothing in its way does exactly the planned batches or that many, whichever is less, and says which |
| `DedupRunnerStops.QuietLimitedStopsAt` | app/services/dedup_cases_runner.py:182-207 | With a group in its way, it does exactly the full batches before that group or `max_batches`, whichever is less, and says which |
| `BusinessDays.AddBusinessDays` | app/services/business_days.py:63-87 | Raises exactly for `n <= 0`; otherwise the date on which the nth date falls that is neither a Sunday nor a feriado |
| `BusinessDays.PreviousBusinessDay` | app/services/business_days.py:90-102 | The last published business day strictly before the date |
| `BusinessDays.BusinessDaysAfter` | app/services/business_days.py:105-120 | Exactly the published business days of `(after, upto]`, ascending; as many as have elapsed |
| `BusinessDays.BusinessDaysElapsed` | app/services/business_days.py:159-170 | The number of business days in `(start, end]` |
| `BusinessDays.CountIs` | app/services/business_days.py:159-170 | That number is the size of the set of dates of the interval that are neither a Sunday nor a feriado, Saturdays included |
| `BusinessDays.DueIs` | app/services/business_days.py:81-87 | The due date is the one date that is no Sunday and no feriado and has that many such dates after the start, itself included |
| `BusinessDays.CountBusinessDaysRemaining` | app/services/business_days.py:123-156 | Business days ahead, or minus the business days gone by |
| `BusinessDays.AddThenElapsed` | app/services/business_days.py:159-163 | Adding and counting are inverse, and the due date is the least with that count |
| `BusinessDays.AddInStages` | app/services/business_days.py:63-87 | Terms add up |
| `BusinessDays.AddMonotone` | app/services/business_days.py:63-87 | A later start is never due earlier, and a longer term is due strictly later |
| `BusinessDays.RemainingAntisymmetric` | app/services/business_days.py:123-156 | Swapping the dates changes the sign, and remaining days add up along any three dates |
| `BusinessDays.DueIsLeast` | app/services/business_days.py:81-87 | At least n business days have gone by exactly from the due date on |
| `Semaforo.ReadingOverTime` | app/services/deadline_semaforo.py:98-103 | For every scale a reading is live exactly until its due date, red exactly on it, and its urgency never falls meanwhile |
| `Semaforo.PhaseShows` | app/services/deadline_semaforo.py:153-160 | An unconfirmed plazo shows one of seven pairs of slot and level |
| `Semaforo.PhaseMonotone` | app/services/deadline_semaforo.py:153-160 | The pairs come in one fixed order |
| `Semaforo.PairsNeverRecur` | app/services/deadline_semaforo.py:153-160 | Each pair of slot and level holds for one contiguous stretch of days, so the dedupe key never recurs |
| `Semaforo.UnconfirmedAlarm` | app/services/deadline_semaforo.py:153-160 | Unconfirmed: red exactly on the two possible due dates, silent exactly after the second, green again on the day after the first |
| `Semaforo.ConfirmedNeverDrops` | app/services/deadline_semaforo.py:121-151 | A known term keeps its slot, and its level never falls while it is live |
| `Semaforo.KnownTermShows` | app/core/semaforo_config.py:76-94 | Poder is 3 days, amarillo on the 2nd; apelacion 10, amarillo from the 6th; a confirmed term of 4, amarillo on the 3rd, of 8, from the 6th: verde before, rojo on the due date, nothing after it; slot and day number as well |
| `Semaforo.UnknownTermShows` | app/services/deadline_semaforo.py:153-160 | Without a confirmed term both readings are shown, with the more urgent level and the slot of the terms still alive |
| `Semaforo.NothingElseShows` | app/services/deadline_semaforo.py:133-141 | Any other confirmed term is an error, and any other type has no semaforo |
| `Verdict.Earliest` | app/services/deadline_verdict.py:152-182 | The act named fulfils the plazo and no fulfilling movement is earlier |
| `Verdict.CumplidoIff` | app/services/deadline_verdict.py:302-372 | With a due date, CUMPLIDO exactly when some act is dated on or before it, whatever the margin |
| `Verdict.LateIff` | app/services/deadline_verdict.py:302-372 | FUERA_DE_PLAZO and REGISTRO_TARDIO, each with the exact condition on the acts |
| `Verdict.NeverAccusesOnTime` | app/services/deadline_verdict.py:366-371 | An act filed on time and published at most `margin` days later is never called late |
| `Verdict.MissIff` | app/services/deadline_verdict.py:350-360 | NO_CUMPLIDO exactly when there is no act and the window, with its margin for poder, has gone by |
| `Verdict.NoAnchorIff` | app/services/deadline_verdict.py:291-292 | Without a due date an act is "presented", and nothing else is said |
| `Verdict.EvidenceIsReal` | app/services/deadline_verdict.py:362-372 | The evidence named is an act dated as said, and no act of its kind is earlier |
| `Verdict.TimeOnlyReveals` | app/services/deadline_verdict.py:351-360 | With fixed evidence the passing of days only turns undetermined into NO_CUMPLIDO |
| `Verdict.ExcepcionesMonotone` | app/services/deadline_verdict.py:152-156 | For excepciones, adding movements or escritos never lowers the rank |
| `Verdict.PoderMonotone` | app/services/deadline_verdict.py:159-182 | For poder, adding movements never lowers the rank when none of them is a previo a proveer of the trigger day |
| `Verdict.PrevioLowers` | app/services/deadline_verdict.py:172-175 | There is evidence that any addition of a previo a proveer of the trigger day turns from met to undetermined or missed |
| `Verdict.TriggerDayLowersIff` | app/services/deadline_verdict.py:172-182 | The same for movements dated on the trigger day alone: adding them never lowers a verdict if and only if none of them is a previo |
| `Verdict.NeverLowersIff` | app/services/deadline_verdict.py:159-182 | For poder, adding movements never lowers a verdict, whatever the evidence so far, if and only if none of them is a previo a proveer of the trigger day or one of them complies with the verdict of an act of the next day |
| `Verdict.DefaultMissIff` | app/services/deadline_verdict.py:346-358 | With the default margin NO_CUMPLIDO exactly when there is no act and the window is over; for poder the window includes the publication margin and the allowance for the notification |
| `Verdict.WiderMarginIsKinder` | app/services/deadline_verdict.py:366-372 | Whatever a margin calls out of time or missed, every narrower margin calls the same |
| `Verdict.VerdictWithDue` | app/services/deadline_verdict.py:240-372 | With a due date, each verdict exactly, from the flags and dates of the rows, the two settings and the margin given: a margin given counts as at least 0, the one of the settings includes the allowance for poder alone |
| `Verdict.FiledInTimeIsNeverLate` | app/services/deadline_verdict.py:240-245 | For every type with a detector, what was filed in time and published no later than the margin allows, given or from the settings, is CUMPLIDO or REGISTRO_TARDIO |
| `Verdict.VerdictWithoutDue` | app/services/deadline_verdict.py:350-364 | Without a due date, "presented" if and only if a row counts, read off the rows |
| `Asignacion.CandidatesIff` | app/services/asignacion_engine.py:43-48 | A lawyer may take a case exactly when one of his levels is required by its matriz |
| `Asignacion.LeastLoaded` | app/services/asignacion_engine.py:171-171 | The candidate chosen has the least load, ties to the lowest id |
| `Asignacion.VisitStep` | app/services/asignacion_engine.py:153-183 | One visit: stop at the limit, or count one omission, or give the case to one candidate whose load alone grows by one |
| `Asignacion.EveryCaseAccounted` | app/services/asignacion_engine.py:152-183 | With or without a limit, each case looked at before the loop breaks is assigned or counted in exactly one omission reason, none is looked at after the break, and the loop breaks early only at the limit |
| `Asignacion.CountersAreExact` | app/services/asignacion_engine.py:157-169 | With or without a limit, each omission counter is the number of the cases looked at that have that reason |
| `Asignacion.LoadsAddUp` | app/services/asignacion_engine.py:171-185 | Every final load is the initial one plus the cases the plan gives |
| `Asignacion.GreedyBalance` | app/services/asignacion_engine.py:171-185 | Whoever received a case ends at most one above every lawyer who could have taken his last one |
| `Asignacion.LimitIsPrefix` | app/services/asignacion_engine.py:154-155 | The plan with a limit is a prefix of the plan without it |
| `Asignacion.PlannedInOrder` | app/services/asignacion_engine.py:135-153 | The plan keeps the order of the case ids, so no case is planned twice |
| `Asignacion.ReportExplainsPortfolio` | app/services/asignacion_engine.py:142-150 | Without a limit, assigned and omitted cases add up to all active cases |
| `Asignacion.WritesThePlan` | app/services/asignacion_engine.py:190-199 | Only planned cases are written, each with its planned lawyer |
| `Asignacion.ApplyingAssigns` | app/services/asignacion_engine.py:190-199 | After applying a plan every planned case has its lawyer, and every assigned or archived case is as before |
| `Asignacion.Cartera.AsignarAutomatico` | app/services/asignacion_engine.py:109-205 | The loops compute the plan and, unless it is a dry run, write exactly it |
| `Asignacion.TakersAre` | app/services/asignacion_engine.py:43-48 | Who may work what: M1 Baja junior; M1 Alta and M2 pleno or senior; M3 senior; no other matriz has a rule |
| `Asignacion.VisitIs` | app/services/asignacion_engine.py:153-183 | One visit in the columns: stop at the limit; omitted for no rule, then for a provisional classification unless they are included, then for want of a lawyer; otherwise given to the least loaded lawyer who may work it |
| `Asignacion.PlannedAreSound` | app/services/asignacion_engine.py:157-183 | Over any run every planned case has a rule, a classification that counts and a lawyer who may work it |
| `Asignacion.AppliedColumns` | app/services/asignacion_engine.py:190-199 | A planned case was unassigned and not archived; afterwards it has its lawyer and the motive of this engine, and its other columns as before |
| `CredentialAudit.LatestComesFirst` | app/services/credential_audit.py:44-61 | The latest event is the first by `occurred_at` and id, both descending |
| `CredentialAudit.RepeatsIff` | app/services/credential_audit.py:79-87 | A validation is dropped exactly when it repeats the verdict on the current key |
| `CredentialAudit.DedupIsTransparent` | app/services/credential_audit.py:64-192 | Over every interleaving of key changes, scans and validations with clocks that never go back, the deduplicated log gives the same health and last change as the log that records every validation |
| `CredentialAudit.DedupDatesEarlier` | app/services/credential_audit.py:159-160 | The deduplicated log knows the same outcomes but may date the last of each earlier |
| `CredentialAudit.DatesMayDiffer` | app/services/credential_audit.py:186-191 | Two equal outcomes: the dates shown do differ |
| `CredentialAudit.ValidationDatesAgreeIff` | app/services/credential_audit.py:79-99 | After one validation the two logs date its outcome alike if and only if it was not the verdict on the current key, or the deduplicated log already dates that outcome now |
| `CredentialAudit.DatesAgreeIff` | app/services/credential_audit.py:159-192 | After any run they date an outcome alike if and only if its last validation met that condition |
| `CredentialAudit.OnlyRealChanges` | app/services/credential_audit.py:102-140 | No two consecutive `value_changed` events of a key carry the same fingerprint, and the first is not an absence |
| `CredentialAudit.ScanUpdates` | app/services/credential_audit.py:116-136 | After a scan the log knows the stored fingerprint of every active lawyer's keys |
| `CredentialAudit.SecondScanIsQuiet` | app/services/credential_audit.py:124-125 | A second scan records nothing |
| `CredentialAudit.RotationIsNoticed` | app/services/credential_audit.py:121-136 | A replaced key is recorded by the next look at it and outdates the old verdict |
| `CredentialAudit.Vault.RecordValidation` | app/services/credential_audit.py:64-99 | Records exactly when the outcome is not the verdict on the current key |
| `CredentialAudit.Vault.ScanCredentialChanges` | app/services/credential_audit.py:102-140 | The loop over active lawyers and types is the run of its steps, and returns how many events it added |
| `CredentialHealth.HealthIs` | app/services/credential_audit.py:154-184 | What each health means, from the rows: valid (failing) if and only if the key is present and its first validation by date and id descending succeeded (failed) with every change strictly before it, or, for failing, there is none and an alert postdates every change; the same for pending and never validated |
| `CredentialHealth.RecordedIff` | app/services/credential_audit.py:79-99 | A validation adds its row unless the first validation has its outcome and postdates every change of the key |
| `CredentialHealth.ScanIs` | app/services/credential_audit.py:116-136 | A look adds a change if and only if the lawyer is active and the fingerprint stored, none for an empty blob, is not that of the first change |
| `CredentialHealth.ScanCovers` | app/services/credential_audit.py:114-119 | A scan looks at both credentials of every lawyer |
| `CredentialHealth.ValidationShows` | app/services/credential_audit.py:167-175 | After a validation later than every change the key shows valid or failing as its outcome says, recorded or not |
| `CredentialHealth.ChangeShows` | app/services/credential_audit.py:167-182 | After a recorded change a present key that was judged before shows as pending |
| `CycleTiming.ExclusiveAccounting` | app/services/cycle_timing.py:56-69 | Whatever the nesting of timed blocks, and however they are left, the stack is restored and each bucket is charged exactly the time it was the innermost one, plus its credits |
| `CycleTiming.SwitchesKeepAccrued` | app/services/cycle_timing.py:62-69 | A push or a pop moves no time between buckets |
| `CycleTiming.MeasuredInAll` | app/services/cycle_timing.py:56-73 | All buckets together are charged the time some bucket was open plus all credits |
| `CycleTiming.BreakdownAddsUpIff` | app/services/cycle_timing.py:78-85 | The exact condition for the breakdown to add up to the elapsed time; a bucket named "other" is replaced by the remainder |
| `CycleTiming.CycleAccounting` | app/services/cycle_timing.py:45-85 | A whole cycle: totals per bucket, and the breakdown adds up exactly when "other" got nothing, as long as credits do not exceed the idle time |
| `CycleTiming.TimedCycleAddsUp` | app/services/cycle_timing.py:101-112 | A cycle of timed blocks alone accounts for all its time, unless a bucket is named "other" |
| `CycleTiming.CycleBreakdown` | app/services/cycle_timing.py:78-85 | Bucket by bucket: the seven printed ones are always there, each shows the time it was innermost plus its credits, and "other" the time outside every bucket less all credits, never negative |
| `CycleTiming.CreditAdds` | app/services/cycle_timing.py:71-73 | A credit adds its seconds to its bucket alone, a negative number adding nothing |
| `CycleTiming.CycleTimer.Charge` | app/services/cycle_timing.py:56-60 | Only the innermost bucket is charged |
| `CycleTiming.CycleTimer.Push` | app/services/cycle_timing.py:62-64 | Charge, then open |
| `CycleTiming.CycleTimer.Pop` | app/services/cycle_timing.py:66-69 | Charge, then close; on an empty stack only the mark moves |
| `CycleTiming.CycleTimer.Add` | app/services/cycle_timing.py:71-73 | A credit, never negative |
| `CycleTiming.CycleTimer.Run` | app/services/cycle_timing.py:101-112 | Timed blocks left normally or by an exception refine the specification |
| `CycleTiming.CycleTimer.Breakdown` | app/services/cycle_timing.py:78-85 | The loops compute the breakdown |
| `Rut.ComputeDv` | scripts/cdp_scraper_sketch.py:36-43 | The loop with its cycling factor computes the modulo-11 digit; a character that is no digit is an error |
| `Rut.CheckDigitCompletes` | scripts/cdp_scraper_sketch.py:42-43 | The check digit is the one symbol that completes the sum to a multiple of 11 |
| `Rut.OneDigitDetected` | scripts/cdp_scraper_sketch.py:36-43 | Changing any one digit changes the check digit, at every length |
| `Rut.SwapDetectedIff` | scripts/cdp_scraper_sketch.py:36-43 | Swapping two distinct digits is detected if and only if their distance is not a multiple of 6 |
| `Rut.ZerosDv` | scripts/cdp_scraper_sketch.py:36-43 | Zeros alone have digit 0 |
| `Rut.DvMoves` | scripts/cdp_scraper_sketch.py:36-43 | Changing the digit p places from the right moves the check digit by the change times 2, 3, 4, 5, 6 or 7 in turn; from zeros this fixes the digit of every number |
| `Rut.KnownRuts` | scripts/cdp_scraper_sketch.py:36-43 | 11.111.111-1 and 12.345.678-5 |
| `ConnectionQueue.StaysApartIff` | app/services/connection_queue.py:73-142 | A step, with row locks or without, keeps every row waiting, held by one worker or handed out once, if and only if it neither selects a held row nor writes "pending" on an unclaimed row handed out |
| `ConnectionQueue.ApartThroughoutIff` | app/services/connection_queue.py:73-142 | The same of whole runs: at most one committed dequeue per row throughout if and only if no step is such a hazard |
| `ConnectionQueue.HandedOutAtMostOnce` | app/services/connection_queue.py:73-142 | With row locks, over every interleaving of workers, crashes, enqueues and status writes, each row is handed out at most once and none waits again, if and only if no write puts "pending" on an unclaimed row handed out |
| `ConnectionQueue.HazardCanDispatchTwice` | app/services/connection_queue.py:73-142 | After a hazard some continuation hands one row out twice |
| `ConnectionQueue.OneWorkerNeedsNoLocks` | app/services/connection_queue.py:95-106 | A single worker without locks hands a row out twice only through a write of "pending" |
| `ConnectionQueue.LocksHold` | app/services/connection_queue.py:95-106 | With row locks claimed rows stay pending and are never shared, whatever the callers write |
| `ConnectionQueue.HandedIffPicked` | app/services/connection_queue.py:102-106 | A row was handed out exactly when its `picked_at` is set, so the conditions can be read off the row |
| `ConnectionQueue.NeverPendingAgain` | app/services/connection_queue.py:73-142 | A row handed out never waits again if and only if no write puts "pending" back on it, whatever happens to other rows |
| `ConnectionQueue.CrashFreesTheRow` | app/services/connection_queue.py:95-106 | A crash before the commit loses nothing: the row is free again |
| `ConnectionQueue.OneWorkerIsFair` | app/services/connection_queue.py:89-94 | With one worker requests are handed out in order of arrival throughout a run if and only if no write of "pending" puts a row back that arrived before one in hand or handed out |
| `ConnectionQueue.DoubleDispatchWithoutLocks` | app/services/connection_queue.py:95-98 | Without row locks two workers can be handed the same row |
| `ConnectionQueue.ColumnsAfter` | app/services/connection_queue.py:29-142 | Every column of every row after every step |
| `ConnectionQueue.JobsNeverChange` | app/services/connection_queue.py:29-142 | Over any continuation a row stays, with its job and its date of arrival |
| `ConnectionQueue.Queue.EnqueueConnection` | app/services/connection_queue.py:29-70 | The request waits with its job |
| `ConnectionQueue.Queue.DequeueConnection` | app/services/connection_queue.py:73-114 | Returns a job exactly when a free row exists, and then an oldest one, marked as connecting |
| `ConnectionQueue.Queue.SetStatus` | app/services/connection_queue.py:117-142 | Writes the named columns; an unknown identifier is ignored |
| `EgressGuard.AlertsAreThrottled` | app/services/egress_guard.py:101-124 | Over any run, alerts are at least one for each blocked episode and at most one more for each full hour blocked, and every recovery is announced exactly once |
| `EgressGuard.EpisodeAlerts` | app/services/egress_guard.py:101-124 | Whatever went before, an episode of D seconds raises between 1 and 1 + floor(D / 3600) alerts and no recovery, and its end raises exactly one notice |
| `EgressGuard.BlockedMeansAlerted` | app/services/egress_guard.py:110-113 | A blocked worker was alerted less than an hour before its last check |
| `EgressGuard.PermissionIsRecent` | app/services/egress_guard.py:127-154 | With the guard on, a permission rests on a check of an address outside the list of its time, made by this call or less than 300 seconds before |
| `EgressGuard.FailsClosed` | app/services/egress_guard.py:133-142 | A fresh check permits nothing without an answered address, and no listed address |
| `EgressGuard.GuardOff` | app/services/egress_guard.py:127-154 | Calls made with no address configured leave no trace in the cache, the episode or the alerts of a run, and "off" is the answer to them alone |
| `EgressGuard.NoAddress` | app/services/egress_guard.py:79-91 | No address exactly when no service answered a valid one |
| `EgressGuard.CallIs` | app/services/egress_guard.py:127-154 | Every call, from the answers and the configured entries: which is the address, when it is listed in whatever spelling, when a result is reused, and what is kept and tracked |
| `EgressGuard.EgressState.Track` | app/services/egress_guard.py:101-124 | The alert state and the alerts sent are those the fresh checks lead to |
| `EgressGuard.EgressState.CurrentEgressIp` | app/services/egress_guard.py:79-91 | The first valid address answered |
| `EgressGuard.EgressState.EgressAllowed` | app/services/egress_guard.py:127-145 | A fresh check: reply, cache and alerts |
| `EgressGuard.EgressState.EgressAllowedCached` | app/services/egress_guard.py:148-154 | A result younger than 300 seconds is reused, otherwise a fresh check is made |

## Left out

- Timestamps and row ids of new audit and source rows: the merge does not fix them. Sources are (case, lawyer) pairs in the specification and rows with ids in `Session`; audit rows are kept in insertion order.
- SQLAlchemy flush order, cascades and savepoints: a table is a map, every query sees earlier writes (the downgrade relies on it, `alembic/versions/024_merge_duplicate_cases.py:61`), and a transaction commits or restores.
- The lookup of the firm's lawyer: its id is a parameter.
- The order of audit rows when groups are merged in another order: equality with the unbatched run is claimed up to that order. Histories with `group_limit` alone keep it (`HistoryEqualsFull`).
- `Alert.entity_id`: not a foreign key and not re-pointed by the program; the field is carried and left alone, and no integrity is claimed for it.
- ReportGroup: the tiers of the losers, the per-table counts of a group and its hitos are not modelled, because nothing the merge does depends on them.
- BuildReport: five totals are modelled (groups, surplus, movements deleted, movements moved, owners changed); tiers, per-table counts and the time estimate would only add easy members.
- The runner's queries for recent writes, stop file, clock and commit failures: booleans by batch number; log lines and durations.
- Holidays: an abstract table; dates are integers, without a last date.
- Text matching of movements and escritos: flags on the rows; annulled movements carry no flag.
- The firm-wide setting that pins the excepciones term, and the texts and recipients of the semaforo alerts.
- The initial load of each lawyer (`lawyer_roster.py` is not part of this model): a parameter. Commits in chunks, `assigned_at` and `assigned_by_rut`.
- SHA-256 and encryption: the fingerprint is a function parameter; where a change must be noticed, the two fingerprints are required to differ. `detail` texts.
- Printing of the breakdown, and floating-point rounding: times are reals and the clock never goes back.
- Waiting for a row lock: a write that would wait changes nothing and is repeated by its caller. `get_status` only reads.
- Network lookups and delivery of alerts: answers of the echo services and sent notices are values; an alert that cannot be delivered counts as sent.
- CycleTimer.Breakdown: the order in which buckets are printed is not modelled, because the result is a map.
- Queue.DequeueConnection: the contract covers an undisturbed call, because interleavings between the select and the commit are the subject of the steps `Select`, `Commit` and `Crash`.
