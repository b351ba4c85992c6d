/**
 * The best-effort downgrade: one skeleton case per audit row whose loser has
 * no equivalent, with added rows visible to the queries that follow.
 */
module CaseMergeReverse {
  import opened CaseTables
  import opened CaseMerge

  /** A case of the loser's lawyer holds the audit's rol in the winner's court and cuaderno. */
  predicate Recreated(cases: map<int, Case>, a: Audit, winner: Case) {
    exists c :: c in cases && cases[c].lawyerId == a.loserLawyer && IdentityOf(cases[c]) == SkeletonIdentity(a, winner)
  }

  function SkeletonIdentity(a: Audit, winner: Case): Identity {
    Identity(a.rol, winner.courtId, IdentityOf(winner).procedure)
  }

  function Skeleton(a: Audit, winner: Case): Case {
    Case(a.loserLawyer, a.rol, winner.courtId, winner.procedure, winner.competencia)
  }

  /** The cases after the downgrade, new ids issued from `next`, and how many were recreated. */
  function Reverse(cases: map<int, Case>, audit: seq<Audit>, next: int): (map<int, Case>, nat)
    decreases |audit|
  {
    if audit == [] then (cases, 0)
    else if audit[0].winner in cases && !Recreated(cases, audit[0], cases[audit[0].winner]) then
      var (after, n) := Reverse(cases[next := Skeleton(audit[0], cases[audit[0].winner])], audit[1..], next + 1);
      (after, n + 1)
    else Reverse(cases, audit[1..], next)
  }

  ghost predicate IdsBelow(cases: map<int, Case>, audit: seq<Audit>, next: int) {
    && (forall c :: c in cases ==> c < next)
    && (forall i :: 0 <= i < |audit| ==> audit[i].winner < next)
  }

  lemma RecreatedStays(cases: map<int, Case>, more: map<int, Case>, a: Audit, winner: Case)
    requires Recreated(cases, a, winner) && forall c :: c in cases ==> c in more && more[c] == cases[c]
    ensures Recreated(more, a, winner)
  {
    var c :| c in cases && cases[c].lawyerId == a.loserLawyer && IdentityOf(cases[c]) == SkeletonIdentity(a, winner);
    assert c in more;
  }

  /** Existing cases stay as they are; only ids from `next` on are added, and they are counted. */
  lemma {:induction false} ReverseExtends(cases: map<int, Case>, audit: seq<Audit>, next: int)
    requires IdsBelow(cases, audit, next)
    ensures
      var (after, n) := Reverse(cases, audit, next);
      && (forall c :: c in cases ==> c in after && after[c] == cases[c])
      && (forall c :: c in after && c !in cases ==> next <= c < next + n)
      && |after| == |cases| + n
    decreases |audit|
  {
    if audit != [] {
      if audit[0].winner in cases && !Recreated(cases, audit[0], cases[audit[0].winner]) {
        var more := cases[next := Skeleton(audit[0], cases[audit[0].winner])];
        ReverseExtends(more, audit[1..], next + 1);
        var (after, n) := Reverse(more, audit[1..], next + 1);
        assert forall c :: c in after && c !in cases ==> c == next || c !in more;
      } else {
        ReverseExtends(cases, audit[1..], next);
      }
    }
  }

  /** Every audit row with a live winner has its loser's identity back. */
  lemma {:induction false} ReverseRecreates(cases: map<int, Case>, audit: seq<Audit>, next: int, i: nat)
    requires IdsBelow(cases, audit, next) && i < |audit| && audit[i].winner in cases
    ensures Recreated(Reverse(cases, audit, next).0, audit[i], cases[audit[i].winner])
    decreases |audit|
  {
    var w := cases[audit[i].winner];
    if audit[0].winner in cases && !Recreated(cases, audit[0], cases[audit[0].winner]) {
      var more := cases[next := Skeleton(audit[0], cases[audit[0].winner])];
      assert next in more && IdentityOf(more[next]) == SkeletonIdentity(audit[0], cases[audit[0].winner]);
      ReverseExtends(more, audit[1..], next + 1);
      if i == 0 {
        RecreatedStays(more, Reverse(cases, audit, next).0, audit[0], w);
      } else {
        ReverseRecreates(more, audit[1..], next + 1, i - 1);
      }
    } else {
      ReverseExtends(cases, audit[1..], next);
      if i == 0 {
        RecreatedStays(cases, Reverse(cases, audit, next).0, audit[0], w);
      } else {
        ReverseRecreates(cases, audit[1..], next, i - 1);
      }
    }
  }

  /** The identity constraint survives the downgrade. */
  lemma {:induction false} ReverseUnique(cases: map<int, Case>, audit: seq<Audit>, next: int)
    requires IdsBelow(cases, audit, next) && UniqueCases(cases)
    ensures UniqueCases(Reverse(cases, audit, next).0)
    decreases |audit|
  {
    if audit != [] {
      if audit[0].winner in cases && !Recreated(cases, audit[0], cases[audit[0].winner]) {
        var more := cases[next := Skeleton(audit[0], cases[audit[0].winner])];
        forall i, j | i in more && j in more && Twins(more, i, j) ensures i == j {
          if i != next && j != next {
            assert Twins(cases, i, j);
          }
        }
        ReverseUnique(more, audit[1..], next + 1);
      } else {
        ReverseUnique(cases, audit[1..], next);
      }
    }
  }

  lemma {:induction false} NothingToReverse(cases: map<int, Case>, audit: seq<Audit>, next: int)
    requires forall i :: 0 <= i < |audit| && audit[i].winner in cases ==>
      Recreated(cases, audit[i], cases[audit[i].winner])
    ensures Reverse(cases, audit, next) == (cases, 0)
    decreases |audit|
  {
    if audit != [] {
      assert forall i :: 0 <= i < |audit[1..]| ==> audit[1..][i] == audit[i + 1];
      NothingToReverse(cases, audit[1..], next);
    }
  }

  /** A second downgrade recreates nothing. */
  lemma ReverseTwice(cases: map<int, Case>, audit: seq<Audit>, next: int, later: int)
    requires IdsBelow(cases, audit, next)
    ensures var after := Reverse(cases, audit, next).0; Reverse(after, audit, later) == (after, 0)
  {
    var after := Reverse(cases, audit, next).0;
    ReverseExtends(cases, audit, next);
    forall i | 0 <= i < |audit| && audit[i].winner in after ensures Recreated(after, audit[i], after[audit[i].winner]) {
      assert audit[i].winner in cases;
      ReverseRecreates(cases, audit, next, i);
    }
    NothingToReverse(after, audit, later);
  }
}
