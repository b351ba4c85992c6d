/**
 * The database of the case merge: the `cases` table, its child tables, the
 * lawyer sources and the merge audit, with what one loser -> winner merge does
 * to all of them.
 */
module CaseTables {
  import opened Options
  import opened ChildTable

  // ----- rows

  datatype Case = Case(lawyerId: int, rol: string, courtId: int, procedure: Option<string>, competencia: Option<string>)

  datatype Movement = Movement(folio: Option<string>, description: string)
  datatype Document = Document(movementId: Option<int>, escritoId: Option<int>, tokenHash: Option<string>)
  datatype Deadline = Deadline(deadlineType: string, triggeredAt: int,
                               sourceMovementId: Option<int>, verdictMovementId: Option<int>)
  datatype Alert = Alert(lawyerId: int, movementId: Option<int>, kind: string, message: Option<string>,
                         entityId: Option<int>)
  datatype Hito = Hito(movementId: Option<int>, estado: string)

  /** A `case_merge_audit` row; ids and timestamps are not modelled. */
  datatype Audit = Audit(loser: int, winner: int, loserLawyer: int, rol: string)

  // ----- identities of the rows of one case

  function MovementKey(m: Movement): Option<Movement> { Some(m) }

  function NaturalKey(k: string): Option<string> { Some(k) }

  function DeadlineKey(d: Deadline): Option<(string, int)> { Some((d.deadlineType, d.triggeredAt)) }

  /** `entityId` is neither part of the identity nor a foreign key. */
  function AlertKey(a: Alert): Option<(int, Option<int>, string, Option<string>)> {
    Some((a.lawyerId, a.movementId, a.kind, a.message))
  }

  function SourceKey(lawyer: int): Option<int> { Some(lawyer) }

  /** Only a hash-less document with at least one link has an identity. */
  function DocumentKey(d: Document): Option<(Option<int>, Option<int>)> {
    if d.tokenHash == None && (d.movementId.Some? || d.escritoId.Some?) then Some((d.movementId, d.escritoId)) else None
  }

  function NoKey<D>(d: D): Option<()> { None }

  // ----- the child tables other than case_lawyer_source

  datatype Kids = Kids(
    movements: Table<Movement>, documents: Table<Document>, litigantes: Table<string>,
    notificaciones: Table<string>, escritos: Table<string>, exhortos: Table<string>,
    deadlines: Table<Deadline>, alerts: Table<Alert>, snapshots: Table<string>,
    hitos: Table<Hito>, liberaciones: Table<()>, generados: Table<()>)

  // ----- references to movements and escritos

  function Follow(canon: map<int, int>, link: Option<int>): Option<int> {
    if link.Some? && link.value in canon then Some(canon[link.value]) else link
  }

  /** The rows of a table with their references followed. */
  function Repointed<D, C>(t: Table<D>, canon: C, follow: (C, D) -> D): Table<D> {
    map id | id in t :: t[id].(data := follow(canon, t[id].data))
  }

  function DocumentMovement(canon: map<int, int>, d: Document): Document {
    d.(movementId := Follow(canon, d.movementId))
  }

  function DocumentEscrito(canon: map<int, int>, d: Document): Document {
    d.(escritoId := Follow(canon, d.escritoId))
  }

  function DeadlineMovements(canon: map<int, int>, d: Deadline): Deadline {
    d.(sourceMovementId := Follow(canon, d.sourceMovementId), verdictMovementId := Follow(canon, d.verdictMovementId))
  }

  function AlertMovement(canon: map<int, int>, a: Alert): Alert { a.(movementId := Follow(canon, a.movementId)) }

  function HitoMovement(canon: map<int, int>, h: Hito): Hito { h.(movementId := Follow(canon, h.movementId)) }

  /** The five movement references re-pointed. */
  function RepointMovementLinks(k: Kids, canon: map<int, int>): Kids {
    k.(documents := Repointed(k.documents, canon, DocumentMovement),
       deadlines := Repointed(k.deadlines, canon, DeadlineMovements),
       alerts := Repointed(k.alerts, canon, AlertMovement),
       hitos := Repointed(k.hitos, canon, HitoMovement))
  }

  // ----- the merge of a loser into a winner

  ghost function MovementCanon(k: Kids, loser: int, winner: int): map<int, int>
    requires loser != winner
  {
    Canon(k.movements, MovementKey, loser, winner)
  }

  ghost function EscritoCanon(k: Kids, loser: int, winner: int): map<int, int>
    requires loser != winner
  {
    Canon(k.escritos, NaturalKey, loser, winner)
  }

  ghost function MergedMovements(k: Kids, loser: int, winner: int): Kids
    requires loser != winner
  {
    RepointMovementLinks(k, MovementCanon(k, loser, winner)).(
      movements := Merged(k.movements, MovementKey, loser, winner))
  }

  ghost function MergedEscritos(k: Kids, loser: int, winner: int): Kids
    requires loser != winner
  {
    k.(escritos := Merged(k.escritos, NaturalKey, loser, winner),
       documents := Repointed(k.documents, EscritoCanon(k, loser, winner), DocumentEscrito))
  }

  /** References settled: what the remaining tables are merged from. */
  ghost function Settled(k: Kids, loser: int, winner: int): Kids
    requires loser != winner
  {
    MergedEscritos(MergedMovements(k, loser, winner), loser, winner)
  }

  ghost function MergeKids(k: Kids, loser: int, winner: int): Kids
    requires loser != winner
  {
    var s := Settled(k, loser, winner);
    Kids(s.movements,
         Merged(s.documents, DocumentKey, loser, winner),
         Merged(k.litigantes, NaturalKey, loser, winner),
         Merged(k.notificaciones, NaturalKey, loser, winner),
         s.escritos,
         Merged(k.exhortos, NaturalKey, loser, winner),
         Merged(s.deadlines, DeadlineKey, loser, winner),
         Merged(s.alerts, AlertKey, loser, winner),
         Merged(k.snapshots, NaturalKey, loser, winner),
         Merged(s.hitos, NoKey, loser, winner),
         Merged(k.liberaciones, NoKey, loser, winner),
         Merged(k.generados, NoKey, loser, winner))
  }

  // ----- well-formedness of the child tables

  predicate KidsOwnersIn(k: Kids, cs: set<int>) {
    && OwnersIn(k.movements, cs) && OwnersIn(k.documents, cs) && OwnersIn(k.litigantes, cs)
    && OwnersIn(k.notificaciones, cs) && OwnersIn(k.escritos, cs) && OwnersIn(k.exhortos, cs)
    && OwnersIn(k.deadlines, cs) && OwnersIn(k.alerts, cs) && OwnersIn(k.snapshots, cs)
    && OwnersIn(k.hitos, cs) && OwnersIn(k.liberaciones, cs) && OwnersIn(k.generados, cs)
  }

  predicate NoneOf<D>(t: Table<D>, cs: set<int>) {
    forall id :: id in t && t[id].caseId.Some? ==> t[id].caseId.value !in cs
  }

  /** No row of any child table belongs to a case of `cs`. */
  predicate KidsFree(k: Kids, cs: set<int>) {
    && NoneOf(k.movements, cs) && NoneOf(k.documents, cs) && NoneOf(k.litigantes, cs)
    && NoneOf(k.notificaciones, cs) && NoneOf(k.escritos, cs) && NoneOf(k.exhortos, cs)
    && NoneOf(k.deadlines, cs) && NoneOf(k.alerts, cs) && NoneOf(k.snapshots, cs)
    && NoneOf(k.hitos, cs) && NoneOf(k.liberaciones, cs) && NoneOf(k.generados, cs)
  }

  ghost predicate Live<D>(link: Option<int>, t: Table<D>) {
    link.Some? ==> link.value in t
  }

  /** Every movement and escrito reference names an existing row. */
  ghost predicate LinksOk(k: Kids) {
    && (forall id :: id in k.documents ==> Live(k.documents[id].data.movementId, k.movements))
    && (forall id :: id in k.documents ==> Live(k.documents[id].data.escritoId, k.escritos))
    && (forall id :: id in k.deadlines ==> Live(k.deadlines[id].data.sourceMovementId, k.movements))
    && (forall id :: id in k.deadlines ==> Live(k.deadlines[id].data.verdictMovementId, k.movements))
    && (forall id :: id in k.alerts ==> Live(k.alerts[id].data.movementId, k.movements))
    && (forall id :: id in k.hitos ==> Live(k.hitos[id].data.movementId, k.movements))
  }

  /** The per-case UNIQUE constraints of the child tables. */
  ghost predicate KidsUnique(k: Kids) {
    && UniqueKeys(k.litigantes, NaturalKey) && UniqueKeys(k.notificaciones, NaturalKey)
    && UniqueKeys(k.escritos, NaturalKey) && UniqueKeys(k.exhortos, NaturalKey)
    && UniqueKeys(k.deadlines, DeadlineKey) && UniqueKeys(k.snapshots, NaturalKey)
  }

  // ----- what one merge keeps

  lemma SettledOwners(k: Kids, loser: int, winner: int, cs: set<int>)
    requires loser != winner && winner in cs && KidsOwnersIn(k, cs)
    ensures KidsOwnersIn(Settled(k, loser, winner), cs)
  {
    MergedOwners(k.movements, MovementKey, loser, winner, cs);
    MergedOwners(k.escritos, NaturalKey, loser, winner, cs);
  }

  /** After the merge no child row names the loser. */
  lemma MergeKidsOwners(k: Kids, loser: int, winner: int, cs: set<int>)
    requires loser != winner && winner in cs && KidsOwnersIn(k, cs)
    ensures KidsOwnersIn(MergeKids(k, loser, winner), cs - {loser})
  {
    SettledOwners(k, loser, winner, cs);
    var s := Settled(k, loser, winner);
    MergedOwners(k.movements, MovementKey, loser, winner, cs);
    MergedOwners(s.documents, DocumentKey, loser, winner, cs);
    MergedOwners(k.litigantes, NaturalKey, loser, winner, cs);
    MergedOwners(k.notificaciones, NaturalKey, loser, winner, cs);
    MergedOwners(k.escritos, NaturalKey, loser, winner, cs);
    MergedOwners(k.exhortos, NaturalKey, loser, winner, cs);
    MergedOwners(s.deadlines, DeadlineKey, loser, winner, cs);
    MergedOwners(s.alerts, AlertKey, loser, winner, cs);
    MergedOwners(k.snapshots, NaturalKey, loser, winner, cs);
    MergedOwners(s.hitos, NoKey, loser, winner, cs);
    MergedOwners(k.liberaciones, NoKey, loser, winner, cs);
    MergedOwners(k.generados, NoKey, loser, winner, cs);
  }

  /** A followed reference names a surviving row with the identity of the row it used to name. */
  lemma FollowSurvives<D, K>(t: Table<D>, key: D -> Option<K>, loser: int, winner: int, link: Option<int>)
    requires loser != winner && Live(link, t)
    ensures
      var link' := Follow(Canon(t, key, loser, winner), link);
      && Live(link', Merged(t, key, loser, winner))
      && (link.Some? ==> link'.Some? && link'.value in t && key(t[link'.value].data) == key(t[link.value].data))
  {
    if link.Some? {
      var canon := Canon(t, key, loser, winner);
      if link.value in canon {
        CanonicalSurvives(t, key, loser, winner, link.value, canon[link.value]);
      } else {
        MergedRow(t, key, loser, winner, link.value);
      }
    }
  }

  lemma FollowAllSurvive<D, K>(t: Table<D>, key: D -> Option<K>, loser: int, winner: int)
    requires loser != winner
    ensures forall link :: Live(link, t) ==>
      Live(Follow(Canon(t, key, loser, winner), link), Merged(t, key, loser, winner))
  {
    forall link | Live(link, t)
      ensures Live(Follow(Canon(t, key, loser, winner), link), Merged(t, key, loser, winner)) {
      FollowSurvives(t, key, loser, winner, link);
    }
  }

  lemma MergedSubset<D, K>(t: Table<D>, key: D -> Option<K>, loser: int, winner: int)
    ensures Merged(t, key, loser, winner).Keys <= t.Keys
    ensures forall id :: id in Merged(t, key, loser, winner) ==> Merged(t, key, loser, winner)[id].data == t[id].data
  {}

  lemma SettledLinks(k: Kids, loser: int, winner: int)
    requires loser != winner && LinksOk(k)
    ensures LinksOk(Settled(k, loser, winner))
  {
    FollowAllSurvive(k.movements, MovementKey, loser, winner);
    assert LinksOk(MergedMovements(k, loser, winner));
    FollowAllSurvive(k.escritos, NaturalKey, loser, winner);
  }

  /** The merge leaves no dangling movement or escrito reference. */
  lemma MergeKidsLinks(k: Kids, loser: int, winner: int)
    requires loser != winner && LinksOk(k)
    ensures LinksOk(MergeKids(k, loser, winner))
  {
    var s := Settled(k, loser, winner);
    SettledLinks(k, loser, winner);
    MergedSubset(s.documents, DocumentKey, loser, winner);
    MergedSubset(s.deadlines, DeadlineKey, loser, winner);
    MergedSubset(s.alerts, AlertKey, loser, winner);
    MergedSubset(s.hitos, NoKey, loser, winner);
  }

  lemma RepointDeadlinesUnique(t: Table<Deadline>, canon: map<int, int>)
    requires UniqueKeys(t, DeadlineKey)
    ensures UniqueKeys(Repointed(t, canon, DeadlineMovements), DeadlineKey)
  {
    var u := Repointed(t, canon, DeadlineMovements);
    forall i, j | i in u && j in u && Same(u, DeadlineKey, i, j) ensures i == j {
      assert Same(t, DeadlineKey, i, j);
    }
  }

  /** The UNIQUE constraints hold after any part of the row operations of each table, hence after all of them. */
  lemma MergeKidsUnique(k: Kids, loser: int, winner: int, done: set<int>)
    requires loser != winner && KidsUnique(k)
    ensures KidsUnique(MergeKids(k, loser, winner))
    ensures UniqueKeys(Applied(k.litigantes, NaturalKey, loser, winner, done), NaturalKey)
    ensures UniqueKeys(Applied(k.notificaciones, NaturalKey, loser, winner, done), NaturalKey)
    ensures UniqueKeys(Applied(k.escritos, NaturalKey, loser, winner, done), NaturalKey)
    ensures UniqueKeys(Applied(k.exhortos, NaturalKey, loser, winner, done), NaturalKey)
    ensures UniqueKeys(Applied(Settled(k, loser, winner).deadlines, DeadlineKey, loser, winner, done), DeadlineKey)
    ensures UniqueKeys(Applied(k.snapshots, NaturalKey, loser, winner, done), NaturalKey)
  {
    RepointDeadlinesUnique(k.deadlines, MovementCanon(k, loser, winner));
    TableUnique(k.litigantes, NaturalKey, loser, winner, done);
    TableUnique(k.notificaciones, NaturalKey, loser, winner, done);
    TableUnique(k.escritos, NaturalKey, loser, winner, done);
    TableUnique(k.exhortos, NaturalKey, loser, winner, done);
    TableUnique(Settled(k, loser, winner).deadlines, DeadlineKey, loser, winner, done);
    TableUnique(k.snapshots, NaturalKey, loser, winner, done);
  }

  lemma TableUnique<D, K>(t: Table<D>, key: D -> Option<K>, loser: int, winner: int, done: set<int>)
    requires loser != winner && UniqueKeys(t, key)
    ensures UniqueKeys(Applied(t, key, loser, winner, done), key) && UniqueKeys(Merged(t, key, loser, winner), key)
  {
    AppliedUnique(t, key, loser, winner, done);
    AppliedUnique(t, key, loser, winner, t.Keys);
  }
}
