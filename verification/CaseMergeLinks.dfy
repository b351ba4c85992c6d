/**
 * References followed through merges: where a movement or escrito reference
 * ends up after one merge, after a group, after a run.
 */
module CaseMergeLinks {
  import opened Options
  import opened ChildTable
  import opened CaseTables

  // ----- where references go

  /** For each collapsed movement and escrito the row that replaces it. */
  datatype Redirects = Redirects(movements: map<int, int>, escritos: map<int, int>)

  const NO_REDIRECTS := Redirects(map[], map[])

  function Joined(a: Redirects, b: Redirects): Redirects {
    Redirects(a.movements + b.movements, a.escritos + b.escritos)
  }

  function DocumentLinks(r: Redirects, d: Document): Document {
    DocumentEscrito(r.escritos, DocumentMovement(r.movements, d))
  }

  /** All references of the child tables followed. */
  function Redirected(k: Kids, r: Redirects): Kids {
    k.(documents := Repointed(k.documents, r, DocumentLinks),
       deadlines := Repointed(k.deadlines, r.movements, DeadlineMovements),
       alerts := Repointed(k.alerts, r.movements, AlertMovement),
       hitos := Repointed(k.hitos, r.movements, HitoMovement))
  }

  // ----- one after the other

  /** No row `a` redirects, or redirects to, is redirected by `b`. */
  predicate Chain(a: map<int, int>, b: map<int, int>) { a.Keys !! b.Keys && a.Values !! b.Keys }

  predicate Chained(a: Redirects, b: Redirects) { Chain(a.movements, b.movements) && Chain(a.escritos, b.escritos) }

  lemma FollowTwice(a: map<int, int>, b: map<int, int>)
    requires Chain(a, b)
    ensures forall link :: Follow(b, Follow(a, link)) == Follow(a + b, link)
  {
    forall link ensures Follow(b, Follow(a, link)) == Follow(a + b, link) {
      if link.Some? && link.value in a {
        assert a[link.value] in a.Values;
      }
    }
  }

  lemma RepointedTwice<D, C>(t: Table<D>, a: C, b: C, both: C, follow: (C, D) -> D)
    requires forall d :: follow(b, follow(a, d)) == follow(both, d)
    ensures Repointed(Repointed(t, a, follow), b, follow) == Repointed(t, both, follow)
  {
    var twice, once := Repointed(Repointed(t, a, follow), b, follow), Repointed(t, both, follow);
    forall id | id in t ensures twice[id] == once[id] {}
  }

  /** Following `a` and then `b` is following both at once. */
  lemma RedirectedTwice(k: Kids, a: Redirects, b: Redirects)
    requires Chained(a, b)
    ensures Redirected(Redirected(k, a), b) == Redirected(k, Joined(a, b))
  {
    FollowTwice(a.movements, b.movements);
    FollowTwice(a.escritos, b.escritos);
    hide Follow;
    RepointedTwice(k.documents, a, b, Joined(a, b), DocumentLinks);
    RepointedTwice(k.deadlines, a.movements, b.movements, a.movements + b.movements, DeadlineMovements);
    RepointedTwice(k.alerts, a.movements, b.movements, a.movements + b.movements, AlertMovement);
    RepointedTwice(k.hitos, a.movements, b.movements, a.movements + b.movements, HitoMovement);
  }

  lemma RepointedNever<D, C>(t: Table<D>, c: C, follow: (C, D) -> D)
    requires forall d :: follow(c, d) == d
    ensures Repointed(t, c, follow) == t
  {
    forall id | id in t ensures Repointed(t, c, follow)[id] == t[id] {}
  }

  lemma RedirectedNever(k: Kids)
    ensures Redirected(k, NO_REDIRECTS) == k
  {
    RepointedNever(k.documents, NO_REDIRECTS, DocumentLinks);
    RepointedNever(k.deadlines, map[], DeadlineMovements);
    RepointedNever(k.alerts, map[], AlertMovement);
    RepointedNever(k.hitos, map[], HitoMovement);
  }

  lemma JoinedNone(later: Redirects)
    ensures Joined(NO_REDIRECTS, later) == later
  {}

  lemma JoinedAssociative(a: Redirects, b: Redirects, c: Redirects)
    ensures Joined(Joined(a, b), c) == Joined(a, Joined(b, c))
  {
    assert a.movements + b.movements + c.movements == a.movements + (b.movements + c.movements);
    assert a.escritos + b.escritos + c.escritos == a.escritos + (b.escritos + c.escritos);
  }

  lemma SwapMaps(a: map<int, int>, b: map<int, int>)
    requires a.Keys !! b.Keys
    ensures a + b == b + a
  {}

  // ----- the redirections of one merge

  ghost function PairRedirects(k: Kids, loser: int, winner: int): Redirects
    requires loser != winner
  {
    Redirects(MovementCanon(k, loser, winner), EscritoCanon(k, loser, winner))
  }

  /** Settling the references is merging movements and escritos and following all references. */
  lemma SettledIs(k: Kids, loser: int, winner: int)
    requires loser != winner
    ensures Settled(k, loser, winner) == Redirected(k, PairRedirects(k, loser, winner)).(
      movements := Merged(k.movements, MovementKey, loser, winner),
      escritos := Merged(k.escritos, NaturalKey, loser, winner))
  {
    hide Merged, Canon;
    var r := PairRedirects(k, loser, winner);
    var t, u := Repointed(Repointed(k.documents, r.movements, DocumentMovement), r.escritos, DocumentEscrito),
      Repointed(k.documents, r, DocumentLinks);
    forall id | id in k.documents ensures t[id] == u[id] {}
    assert t == u;
  }

  // ----- the redirections of a group

  ghost function MergeAllKids(k: Kids, losers: seq<int>, winner: int): Kids
    requires winner !in losers
    decreases |losers|
  {
    if losers == [] then k else MergeAllKids(MergeKids(k, losers[0], winner), losers[1..], winner)
  }

  /** For each row a group collapses the row that replaces it; a replacement is never collapsed in its turn. */
  ghost function GroupCanon<D, K>(t: Table<D>, key: D -> Option<K>, losers: seq<int>, winner: int): map<int, int>
    requires winner !in losers
    decreases |losers|
  {
    if losers == [] then map[] else
      Canon(t, key, losers[0], winner) + GroupCanon(Merged(t, key, losers[0], winner), key, losers[1..], winner)
  }

  ghost function GroupRedirects(k: Kids, losers: seq<int>, winner: int): Redirects
    requires winner !in losers
  {
    Redirects(GroupCanon(k.movements, MovementKey, losers, winner),
              GroupCanon(k.escritos, NaturalKey, losers, winner))
  }

  lemma CanonOwners<D, K>(t: Table<D>, key: D -> Option<K>, loser: int, winner: int, id: int)
    requires loser != winner && id in Canon(t, key, loser, winner)
    ensures Owned(t, loser, id) && id !in Merged(t, key, loser, winner)
    ensures
      var c := Canon(t, key, loser, winner)[id];
      && (Owned(t, winner, c) || Owned(t, loser, c)) && Owned(Merged(t, key, loser, winner), winner, c)
      && key(t[c].data) == key(t[id].data)
  {
    var c := Canon(t, key, loser, winner)[id];
    assert IsCanonical(t, key, loser, winner, id, c);
    CanonicalSurvives(t, key, loser, winner, id, c);
  }

  lemma {:induction false} GroupCanonOwners<D, K>(t: Table<D>, key: D -> Option<K>, losers: seq<int>, winner: int,
                                                  id: int)
    requires winner !in losers && id in GroupCanon(t, key, losers, winner)
    ensures id in t && t[id].caseId.Some? && t[id].caseId.value in losers
    ensures
      var c := GroupCanon(t, key, losers, winner)[id];
      && c in t && t[c].caseId.Some? && (t[c].caseId.value == winner || t[c].caseId.value in losers)
      && key(t[c].data) == key(t[id].data)
    decreases |losers|
  {
    var u := Merged(t, key, losers[0], winner);
    var rest := GroupCanon(u, key, losers[1..], winner);
    if id in rest {
      GroupCanonOwners(u, key, losers[1..], winner, id);
      MergedRow(t, key, losers[0], winner, id);
      MergedRow(t, key, losers[0], winner, rest[id]);
    } else {
      CanonOwners(t, key, losers[0], winner, id);
    }
  }

  lemma GroupCanonChain<D, K>(t: Table<D>, key: D -> Option<K>, losers: seq<int>, winner: int)
    requires winner !in losers && losers != []
    ensures Chain(Canon(t, key, losers[0], winner),
                  GroupCanon(Merged(t, key, losers[0], winner), key, losers[1..], winner))
  {
    var canon, u := Canon(t, key, losers[0], winner), Merged(t, key, losers[0], winner);
    var rest := GroupCanon(u, key, losers[1..], winner);
    forall x | x in canon ensures x !in rest && canon[x] !in rest {
      CanonOwners(t, key, losers[0], winner, x);
      if x in rest {
        GroupCanonOwners(u, key, losers[1..], winner, x);
      }
      if canon[x] in rest {
        GroupCanonOwners(u, key, losers[1..], winner, canon[x]);
      }
    }
  }

  /** A group follows the first loser's redirections and then those of the others. */
  lemma GroupRedirectsCons(k: Kids, losers: seq<int>, winner: int)
    requires winner !in losers && losers != []
    ensures
      var first := PairRedirects(k, losers[0], winner);
      var rest := GroupRedirects(MergeKids(k, losers[0], winner), losers[1..], winner);
      Chained(first, rest) && GroupRedirects(k, losers, winner) == Joined(first, rest)
  {
    GroupCanonChain(k.movements, MovementKey, losers, winner);
    GroupCanonChain(k.escritos, NaturalKey, losers, winner);
  }

  // ----- identities and references

  /** Following the references `c` keeps equal identities equal and gives none and takes none away. */
  ghost predicate Respects<D(!new), K, C>(key: D -> Option<K>, c: C, follow: (C, D) -> D) {
    && (forall d :: key(follow(c, d)).Some? <==> key(d).Some?)
    && (forall d, e :: key(d) == key(e) ==> key(follow(c, d)) == key(follow(c, e)))
  }

  lemma LinksRespectKeys(r: Redirects)
    ensures Respects(DocumentKey, r, DocumentLinks)
    ensures Respects(AlertKey, r.movements, AlertMovement)
    ensures Respects(DeadlineKey, r.movements, DeadlineMovements)
  {}

  lemma JoinedChain(a: Redirects, b: Redirects, c: Redirects)
    requires Chained(a, b) && Chained(Joined(a, b), c)
    ensures Chained(a, Joined(b, c)) && Chained(b, c) && Joined(Joined(a, b), c) == Joined(a, Joined(b, c))
  {
    JoinedMaps(a.movements, b.movements, c.movements);
    JoinedMaps(a.escritos, b.escritos, c.escritos);
  }

  lemma JoinedMaps(a: map<int, int>, b: map<int, int>, c: map<int, int>)
    requires Chain(a, b) && Chain(a + b, c)
    ensures Chain(a, b + c) && Chain(b, c) && a + b + c == a + (b + c)
  {
    assert forall x :: x in a ==> (a + b)[x] == a[x] && a[x] in (a + b).Values;
    assert forall x :: x in b ==> (a + b)[x] == b[x] && b[x] in (a + b).Values;
  }
}
