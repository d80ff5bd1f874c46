/** Groups in the database: entities, external identities, relations and the audit
    log, and the group repository inside one transaction. */
module GroupStore {
  import opened Text
  import opened ScimPatch
  import opened GroupPatch

  datatype Kind = User | Group | OtherKind

  type Props = map<string, Json>

  datatype Entity = Entity(kind: Kind, external: string, props: Props, builtin: bool, created: int, updated: int)

  datatype Link = Link(entity: nat, provider: string, subject: string)

  datatype RelationType = MemberOf | Named(name: string)

  /** The unique indexes make subject, type, target and system a key. */
  datatype Relation = Relation(subject: nat, kind: RelationType, target: nat, system: Option<nat>)

  type Relations = map<Relation, int>

  datatype Operation = Created | Changed | Deleted

  datatype Entry = Entry(operation: Operation, resource: nat, before: Option<Props>, after: Option<Props>)

  datatype Db = Db(entities: map<nat, Entity>, links: set<Link>, relations: Relations, log: seq<Entry>, next: nat)

  /** The errors of the SCIM services; `Internal` is any failure of the database. */
  datatype Error =
    | NotFound | AlreadyExists | DisplayNameRequired | UserNameRequired | ExternalIdRequired
    | InvalidMember | BuiltinGroup | BadPatch(cause: PatchError) | Internal

  /* ----- rows ----- */

  /** The global membership row of a subject in a group. */
  function Membership(subject: nat, group: nat): Relation {
    Relation(subject, MemberOf, group, None)
  }

  predicate IsMembership(r: Relation, group: nat) {
    r == Membership(r.subject, group)
  }

  /** The global members of a group. */
  function MembersOf(relations: Relations, group: nat): (s: set<nat>)
    ensures forall x :: x in s ==> Membership(x, group) in relations
    ensures forall x :: Membership(x, group) in relations ==> x in s
  {
    set r | r in relations && IsMembership(r, group) :: r.subject
  }

  predicate LinkedTo(links: set<Link>, provider: string, id: nat) {
    exists l :: l in links && l.entity == id && l.provider == provider
  }

  /** A user or group that the provider has provisioned. */
  predicate ValidMember(entities: map<nat, Entity>, links: set<Link>, provider: string, id: nat) {
    id in entities && !entities[id].kind.OtherKind? && LinkedTo(links, provider, id)
  }

  predicate AllValid(db: Db, provider: string, ids: seq<nat>) {
    forall id :: id in ids ==> ValidMember(db.entities, db.links, provider, id)
  }

  predicate IsGroupOf(db: Db, provider: string, id: nat) {
    id in db.entities && db.entities[id].kind.Group? && LinkedTo(db.links, provider, id)
  }

  function RelationAt(relations: Relations, r: Relation): Option<int> {
    if r in relations then Some(relations[r]) else None
  }

  /** The relations when exactly `wanted` are the group's global members: kept rows
      keep their creation time, new ones are created now, and no other row changes. */
  ghost predicate IsReconciled(before: Relations, after: Relations, group: nat, wanted: set<nat>, now: int) {
    forall r :: RelationAt(after, r) ==
      if !IsMembership(r, group) then RelationAt(before, r)
      else if r.subject !in wanted then None
      else if r in before then Some(before[r]) else Some(now)
  }

  function Reconciled(before: Relations, group: nat, wanted: set<nat>, now: int): (after: Relations)
    ensures IsReconciled(before, after, group, wanted, now)
  {
    var keys := (set r | r in before && (IsMembership(r, group) ==> r.subject in wanted))
                + (set x | x in wanted :: Membership(x, group));
    map r | r in keys :: if r in before then before[r] else now
  }

  lemma ReconciledOnce(before: Relations, after: Relations, group: nat, wanted: set<nat>, now: int)
    requires IsReconciled(before, after, group, wanted, now)
    ensures after == Reconciled(before, group, wanted, now)
  {
    var after' := Reconciled(before, group, wanted, now);
    forall r
      ensures (r in after <==> r in after') && (r in after ==> after[r] == after'[r])
    {
      assert RelationAt(after, r) == RelationAt(after', r);
    }
  }

  /** The members of a group in the order of their rows, then of their identifiers. */
  ghost predicate IsMemberList(relations: Relations, group: nat, ids: seq<nat>) {
    && Elements(ids) == MembersOf(relations, group)
    && forall i, j :: 0 <= i < j < |ids| ==> Earlier(relations, group, ids[i], ids[j])
  }

  predicate Earlier(relations: Relations, group: nat, x: nat, y: nat) {
    var a, b := RelationAt(relations, Membership(x, group)), RelationAt(relations, Membership(y, group));
    a.Some? && b.Some? && (a.value < b.value || (a.value == b.value && x < y))
  }

  /** Deleting an entity deletes the relations at either end. */
  function Cascade(relations: Relations, id: nat): Relations {
    map r | r in relations && r.subject != id && r.target != id :: relations[r]
  }

  predicate SameKey(a: Entity, b: Entity) {
    a.kind == b.kind && !a.kind.OtherKind? && a.external == b.external
  }

  /** Rows refer to rows that exist, keys are unique, and identifiers from `next` on
      are unused. */
  ghost predicate DbOk(db: Db) {
    && (forall id :: id in db.entities ==> id < db.next)
    && (forall l :: l in db.links ==> l.entity in db.entities)
    && (forall r :: r in db.relations ==> r.subject in db.entities && r.target in db.entities)
    && (forall l, l' :: l in db.links && l' in db.links && l.provider == l'.provider && l.subject == l'.subject ==>
        l == l')
    && (forall a, b {:trigger db.entities[a], db.entities[b]} ::
          a in db.entities && b in db.entities && SameKey(db.entities[a], db.entities[b]) ==> a == b)
  }

  /** No entity has two links. */
  ghost predicate OneLinkEach(db: Db) {
    forall l, l' :: l in db.links && l' in db.links && l.entity == l'.entity ==> l == l'
  }

  /* ----- reconciliation, step by step ----- */

  /** The global memberships of `gone` are deleted, and nothing else. */
  ghost predicate Pruned(before: Relations, after: Relations, group: nat, gone: set<nat>) {
    forall r :: RelationAt(after, r) == if IsMembership(r, group) && r.subject in gone then None
        else RelationAt(before, r)
  }

  /** The global memberships of `added` are inserted, and nothing else. */
  ghost predicate Grown(before: Relations, after: Relations, group: nat, added: set<nat>, now: int) {
    forall r :: RelationAt(after, r) == if IsMembership(r, group) && r.subject in added then Some(now)
        else RelationAt(before, r)
  }

  lemma PruneStep(before: Relations, after: Relations, group: nat, gone: set<nat>, x: nat)
    requires Pruned(before, after, group, gone)
    ensures Pruned(before, after - {Membership(x, group)}, group, gone + {x})
  {
  }

  lemma GrowStep(before: Relations, after: Relations, group: nat, added: set<nat>, x: nat, now: int)
    requires Grown(before, after, group, added, now)
    ensures Grown(before, after[Membership(x, group) := now], group, added + {x}, now)
  {
  }

  lemma PrunedThenGrown(before: Relations, mid: Relations, after: Relations, group: nat, wanted: set<nat>, now: int)
    requires Pruned(before, mid, group, MembersOf(before, group) - wanted)
    requires Grown(mid, after, group, wanted - MembersOf(before, group), now)
    ensures IsReconciled(before, after, group, wanted, now)
  {
    forall r
      ensures RelationAt(after, r) ==
              if !IsMembership(r, group) then RelationAt(before, r)
              else if r.subject !in wanted then None
              else if r in before then Some(before[r]) else Some(now)
    {
      assert IsMembership(r, group) ==> (r.subject in MembersOf(before, group) <==> r in before);
    }
  }

  /* ----- what the repository's operations do ----- */

  function ExternalId(provider: string, subject: string): string {
    "scim:" + provider + ":" + subject
  }

  /** Exactly when two pairs have the same external identifier. */
  lemma ExternalIdsCollide(p: string, s: string, q: string, t: string)
    ensures ExternalId(p, s) == ExternalId(q, t) <==> (p == q && s == t) || Overlap(p, s, q, t) || Overlap(q, t, p, s)
  {
    var a, b := p + ":" + s, q + ":" + t;
    assert ExternalId(p, s) == "scim:" + a && ExternalId(q, t) == "scim:" + b;
    assert ExternalId(p, s)[5..] == a && ExternalId(q, t)[5..] == b;
    JoinedIff(p, s, q, t);
  }

  /** Two providers can share one exactly if one name is the other with a colon and
      more. */
  lemma ProvidersCollide(p: string, q: string)
    requires p != q
    ensures (exists s, t :: s != "" && t != "" && ExternalId(p, s) == ExternalId(q, t)) <==>
            p + ":" <= q || q + ":" <= p
  {
    if s, t :| s != "" && t != "" && ExternalId(p, s) == ExternalId(q, t) {
      ExternalIdsCollide(p, s, q, t);
    }
    if p + ":" <= q {
      ExternalIdsCollide(p, q[|p| + 1..] + ":" + "x", q, "x");
    }
    if q + ":" <= p {
      ExternalIdsCollide(p, "x", q, p[|q| + 1..] + ":" + "x");
    }
  }

  /** A new group would collide with a row. */
  predicate Exists(db: Db, provider: string, subject: string) {
    ExternalTaken(db.entities, ExternalId(provider, subject)) || SubjectTaken(db.links, provider, subject)
  }

  predicate ExternalTaken(entities: map<nat, Entity>, external: string) {
    exists id :: id in entities && entities[id].kind.Group? && entities[id].external == external
  }

  predicate SubjectTaken(links: set<Link>, provider: string, subject: string) {
    exists l :: l in links && l.provider == provider && l.subject == subject
  }

  function WithGroup(db: Db, provider: string, subject: string, props: Props, ids: seq<nat>, now: int): Db {
    db.(entities := db.entities[db.next := Entity(Group, ExternalId(provider, subject), props, false, now, now)],
        links := db.links + {Link(db.next, provider, subject)},
        relations := Reconciled(db.relations, db.next, Elements(ids), now),
        next := db.next + 1)
  }

  function WithMembers(db: Db, id: nat, props: Props, ids: seq<nat>, now: int): Db
    requires id in db.entities
  {
    db.(entities := db.entities[id := db.entities[id].(props := props, updated := now)],
        relations := Reconciled(db.relations, id, Elements(ids), now))
  }

  predicate IsBuiltinGroup(db: Db, id: nat) {
    id in db.entities && db.entities[id].kind.Group? && db.entities[id].builtin
  }

  /** The provider's links to an entity are gone, and with the last link the entity
      and its relations. */
  function WithoutLink(db: Db, provider: string, id: nat): Db {
    var links := db.links - (set l | l in db.links && l.entity == id && l.provider == provider);
    if exists l :: l in links && l.entity == id then db.(links := links)
    else db.(links := links, entities := db.entities - {id}, relations := Cascade(db.relations, id))
  }

  /** A new identifier is in no relation. */
  lemma NoMembersYet(db: Db, id: nat)
    requires DbOk(db) && id == db.next
    ensures MembersOf(db.relations, id) == {}
    ensures forall x :: Membership(x, id) !in db.relations
  {
    forall x
      ensures Membership(x, id) !in db.relations
    {
      assert Membership(x, id) in db.relations ==> id in db.entities;
    }
  }

  /** The order of the member list is total and transitive. */
  lemma EarlierOrder(relations: Relations, group: nat, x: nat, y: nat)
    requires Membership(x, group) in relations && Membership(y, group) in relations && x != y
    ensures Earlier(relations, group, x, y) <==> !Earlier(relations, group, y, x)
    ensures forall z :: Earlier(relations, group, x, y) && Earlier(relations, group, y, z) ==>
            Earlier(relations, group, x, z)
  {
  }

  /** The row that comes first. */
  method Earliest(relations: Relations, group: nat, ids: set<nat>) returns (id: nat)
    requires ids != {} && forall x :: x in ids ==> Membership(x, group) in relations
    ensures id in ids && forall y :: y in ids && y != id ==> Earlier(relations, group, id, y)
  {
    id :| id in ids;
    var left := ids - {id};
    while left != {}
      invariant left <= ids && id in ids && id !in left
      invariant forall y :: y in ids - left && y != id ==> Earlier(relations, group, id, y)
      decreases |left|
    {
      var x :| x in left;
      EarlierOrder(relations, group, x, id);
      if Earlier(relations, group, x, id) {
        id := x;
      }
      left := left - {x};
    }
  }

  /* ----- statements ----- */

  /** What is left of the statements that the database carries out, after `n` more;
      it fails at the one after the last. */
  function Spent(good: nat, n: nat): nat {
    if n <= good then good - n else 0
  }

  /** The outcome of an operation that takes `n` statements. */
  function Within<R>(good: nat, n: nat, r: R, failed: R): R {
    if n <= good then r else failed
  }

  /** What a call reports, and the database after it: what it should do, if the
      database carries out the `cost` statements it takes, and nothing otherwise. */
  function Ended(spec: Result<Db, Error>, cost: nat, statements: nat, before: Db): (Option<Error>, Db) {
    if statements < cost then (Some(Internal), before)
    else
      match spec
      case Ok(after) => (None, after)
      case Err(e) => (Some(e), before)
  }

  function Probes(ids: seq<nat>): nat {
    if ids == [] then 0 else 1
  }

  function GetStatements(db: Db, provider: string, id: nat): nat {
    if IsGroupOf(db, provider, id) then 2 else 1
  }

  function CreateStatements(db: Db, provider: string, subject: string, ids: seq<nat>): nat {
    if ExternalTaken(db.entities, ExternalId(provider, subject)) then 1
    else if SubjectTaken(db.links, provider, subject) then 2
    else 2 + |ids| + Probes(ids)
  }

  /** One query, and one statement for each member that goes or comes. */
  function ReconcileStatements(relations: Relations, group: nat, wanted: set<nat>): nat {
    var current := MembersOf(relations, group);
    1 + |current - wanted| + |wanted - current|
  }

  function ReplaceStatements(db: Db, provider: string, id: nat, ids: seq<nat>): nat {
    if IsBuiltinGroup(db, id) then 1
    else if !IsGroupOf(db, provider, id) then 2
    else 3 + ReconcileStatements(db.relations, id, Elements(ids)) + 1
  }

  function DeleteStatements(db: Db, provider: string, id: nat): nat {
    if IsBuiltinGroup(db, id) then 1 else if !LinkedTo(db.links, provider, id) then 2 else 3
  }

  /** Every new member exists and comes once. */
  predicate Insertable(entities: map<nat, Entity>, current: set<nat>, ids: seq<nat>) {
    forall i :: 0 <= i < |ids| && ids[i] !in current ==> ids[i] in entities && ids[i] !in ids[..i]
  }

  lemma MembersWritten(before: Db, after: Db, id: nat, props: Props, ids: seq<nat>, now: int)
    requires id in before.entities
             && after.entities == before.entities[id := before.entities[id].(props := props, updated := now)]
    requires after.relations == Reconciled(before.relations, id, Elements(ids), now)
    requires after.links == before.links && after.log == before.log && after.next == before.next
    ensures after == WithMembers(before, id, props, ids, now)
  {
  }

  lemma GroupWritten(before: Db, after: Db, provider: string, subject: string, props: Props, ids: seq<nat>, now: int)
    requires after.entities
             == before.entities[before.next := Entity(Group, ExternalId(provider, subject), props, false, now, now)]
    requires after.links == before.links + {Link(before.next, provider, subject)}
    requires after.relations == Reconciled(before.relations, before.next, Elements(ids), now)
    requires after.log == before.log && after.next == before.next + 1
    ensures after == WithGroup(before, provider, subject, props, ids, now)
  {
  }

  lemma AllInsertable(entities: map<nat, Entity>, current: set<nat>, ids: seq<nat>)
    requires NoDuplicates(ids) && forall x :: x in ids ==> x in entities
    ensures Insertable(entities, current, ids)
  {
  }

  /* ----- one transaction ----- */

  /** The rows as one transaction sees them. */
  class Tx {
    var entities: map<nat, Entity>
    var links: set<Link>
    var relations: Relations
    var log: seq<Entry>
    var next: nat

    /** How many more statements the database carries out. The one after them fails;
        the transaction is then aborted, and every later statement fails too. */
    var good: nat

    constructor (db: Db, statements: nat)
      ensures Rows() == db && good == statements
    {
      entities, links, relations, log, next := db.entities, db.links, db.relations, db.log, db.next;
      good := statements;
    }

    function Rows(): Db
      reads this`entities, this`links, this`relations, this`log, this`next
    {
      Db(entities, links, relations, log, next)
    }

    method Statement() returns (ok: bool)
      modifies this`good
      ensures ok == (old(good) > 0) && good == Spent(old(good), 1)
    {
      ok := good > 0;
      if ok {
        good := good - 1;
      }
    }

    /** `ValidateMembers`: those of the identifiers that are members of the provider's
        tenant, each once, in any order. */
    method ValidateMembers(provider: string, ids: seq<nat>) returns (r: Option<seq<nat>>)
      modifies this`good
      ensures good == Spent(old(good), Probes(ids)) && (r.Some? <==> Probes(ids) <= old(good))
      ensures r.Some? ==>
                NoDuplicates(r.value)
                && forall x :: x in r.value <==> x in ids && ValidMember(entities, links, provider, x)
    {
      if |ids| == 0 {
        return Some([]);
      }
      var ok := Statement();
      if !ok {
        return None;
      }
      var rows := set x | x in ids && ValidMember(entities, links, provider, x);
      var left := rows;
      var resolved := [];
      while left != {}
        invariant left <= rows && NoDuplicates(resolved)
        invariant forall x :: x in resolved <==> x in rows && x !in left
        decreases |left|
      {
        var id :| id in left;
        resolved := resolved + [id];
        left := left - {id};
      }
      r := Some(resolved);
    }

    /** `fetchMembers`: in the order of the rows' creation, then of the identifiers. */
    method FetchMembers(group: nat) returns (r: Option<seq<nat>>)
      modifies this`good
      ensures good == Spent(old(good), 1) && (r.Some? <==> old(good) > 0)
      ensures r.Some? ==> IsMemberList(relations, group, r.value)
    {
      var ok := Statement();
      if !ok {
        return None;
      }
      var rows := MembersOf(relations, group);
      var left := rows;
      var members := [];
      while left != {}
        invariant left <= rows && good == Spent(old(good), 1)
        invariant forall x :: x in members <==> x in rows && x !in left
        invariant forall i, j :: 0 <= i < j < |members| ==> Earlier(relations, group, members[i], members[j])
        invariant forall i, y :: 0 <= i < |members| && y in left ==> Earlier(relations, group, members[i], y)
        decreases |left|
      {
        var id := Earliest(relations, group, left);
        members := members + [id];
        left := left - {id};
      }
      assert Elements(members) == rows;
      r := Some(members);
    }

    /** `GetByEntityID`: the properties and members of the provider's group. */
    method GetByEntityId(provider: string, id: nat) returns (r: Result<GroupState, Error>)
      modifies this`good
      ensures good == Spent(old(good), GetStatements(Rows(), provider, id))
      ensures r.Ok? <==> GetStatements(Rows(), provider, id) <= old(good) && IsGroupOf(Rows(), provider, id)
      ensures r.Ok? ==> r.value.properties == entities[id].props && IsMemberList(relations, id, r.value.members)
      ensures r.Err? ==> r.error == Within(old(good), GetStatements(Rows(), provider, id), NotFound, Internal)
    {
      var ok := Statement();
      if !ok {
        return Err(Internal);
      }
      if !(id in entities && entities[id].kind.Group? && LinkedTo(links, provider, id)) {
        return Err(NotFound);
      }
      var members := FetchMembers(id);
      if members.None? {
        return Err(Internal);
      }
      r := Ok(GroupState(entities[id].props, members.value));
    }

    method InsertEntity(external: string, props: Props, now: int) returns (r: Result<nat, Error>)
      modifies this`entities, this`next, this`good
      ensures good == Spent(old(good), 1)
      ensures r == Within(old(good), 1, if ExternalTaken(old(entities), external) then Err(AlreadyExists)
                          else Ok(old(next)), Err(Internal))
      ensures r.Ok? ==>
                next == old(next) + 1
                && entities == old(entities)[old(next) := Entity(Group, external, props, false, now, now)]
    {
      var ok := Statement();
      if !ok {
        return Err(Internal);
      }
      if ExternalTaken(entities, external) {
        return Err(AlreadyExists);
      }
      r := Ok(next);
      entities, next := entities[next := Entity(Group, external, props, false, now, now)], next + 1;
    }

    method InsertLink(link: Link) returns (r: Option<Error>)
      modifies this`links, this`good
      ensures good == Spent(old(good), 1)
      ensures r == Within(old(good), 1, if SubjectTaken(old(links), link.provider, link.subject)
                          then Some(AlreadyExists) else None, Some(Internal))
      ensures r.None? ==> links == old(links) + {link}
    {
      var ok := Statement();
      if !ok {
        return Some(Internal);
      }
      if SubjectTaken(links, link.provider, link.subject) {
        return Some(AlreadyExists);
      }
      links := links + {link};
      r := None;
    }

    /** The member rows of a new group. */
    method InsertMembers(id: nat, ids: seq<nat>, now: int) returns (ok: bool)
      requires NoDuplicates(ids) && forall x :: x in ids ==> x in entities
      requires MembersOf(relations, id) == {} && forall x :: Membership(x, id) !in relations
      modifies this`relations, this`good
      ensures good == Spent(old(good), |ids|) && ok == (|ids| <= old(good))
      ensures ok ==> relations == Reconciled(old(relations), id, Elements(ids), now)
    {
      ghost var start := relations;
      AllInsertable(entities, {}, ids);
      ElementsBound(ids);
      assert Elements(ids) - {} == Elements(ids);
      ok := InsertNew(id, {}, ids, now);
      if ok {
        PrunedThenGrown(start, start, relations, id, Elements(ids), now);
        ReconciledOnce(start, relations, id, Elements(ids), now);
      }
    }

    /** The repository's `Create`; the returned identifier is that of the new group. */
    method Create(provider: string, subject: string, props: Props, ids: seq<nat>, now: int)
      returns (r: Result<nat, Error>)
      requires DbOk(Rows()) && NoDuplicates(ids) && forall id :: id in ids ==> id in entities
      modifies this`entities, this`links, this`relations, this`next, this`good
      ensures var n := CreateStatements(old(Rows()), provider, subject, ids);
              && good == Spent(old(good), n)
              && r == Within(old(good), n, if Exists(old(Rows()), provider, subject) then Err(AlreadyExists)
                             else Ok(old(next)), Err(Internal))
      ensures r.Ok? ==> Rows() == WithGroup(old(Rows()), provider, subject, props, ids, now)
    {
      ghost var before := Rows();
      NoMembersYet(before, next);
      r := InsertEntity(ExternalId(provider, subject), props, now);
      if r.Err? {
        return;
      }
      var failed := InsertLink(Link(r.value, provider, subject));
      if failed.Some? {
        return Err(failed.value);
      }
      var ok := InsertMembers(r.value, ids, now);
      if !ok {
        return Err(Internal);
      }
      GroupWritten(before, Rows(), provider, subject, props, ids, now);
      if |ids| > 0 {
        var members := FetchMembers(r.value);
        if members.None? {
          return Err(Internal);
        }
      }
    }

    /** The UPDATE of a group that is the provider's own. */
    method UpdateEntity(provider: string, id: nat, props: Props, now: int) returns (r: Option<Error>)
      modifies this`entities, this`good
      ensures good == Spent(old(good), 1)
      ensures r == Within(old(good), 1, if IsGroupOf(old(Rows()), provider, id) then None
                          else Some(NotFound), Some(Internal))
      ensures r.None? ==> entities == old(entities)[id := old(entities)[id].(props := props, updated := now)]
    {
      var ok := Statement();
      if !ok {
        return Some(Internal);
      }
      if !(id in entities && entities[id].kind.Group? && LinkedTo(links, provider, id)) {
        return Some(NotFound);
      }
      entities := entities[id := entities[id].(props := props, updated := now)];
      r := None;
    }

    /** The first query of Replace and Delete. Its failure is passed over, and the
        statement that follows fails in its place. */
    method IsBuiltin(id: nat) returns (b: bool)
      modifies this`good
      ensures good == Spent(old(good), 1) && b == (old(good) > 0 && IsBuiltinGroup(Rows(), id))
    {
      var ok := Statement();
      b := ok && id in entities && entities[id].kind.Group? && entities[id].builtin;
    }

    /** The reading of the group's metadata, and its new members. */
    method RewriteMembers(id: nat, ids: seq<nat>, now: int) returns (ok: bool)
      requires NoDuplicates(ids) && forall x :: x in ids ==> x in entities
      modifies this`relations, this`good
      ensures var n := 1 + ReconcileStatements(old(relations), id, Elements(ids));
              good == Spent(old(good), n) && ok == (n <= old(good))
      ensures ok ==> relations == Reconciled(old(relations), id, Elements(ids), now)
    {
      ok := Statement();
      if !ok {
        return;
      }
      AllInsertable(entities, MembersOf(relations, id), ids);
      ok := ReconcileMembers(id, ids, now);
    }

    /** The writes of Replace. */
    method UpdateRows(provider: string, id: nat, props: Props, ids: seq<nat>, now: int) returns (r: Option<Error>)
      requires NoDuplicates(ids) && forall x :: x in ids ==> x in entities
      modifies this`entities, this`relations, this`good
      ensures var own := IsGroupOf(old(Rows()), provider, id);
              var n := if own then 2 + ReconcileStatements(old(relations), id, Elements(ids)) else 1;
              && good == Spent(old(good), n)
              && r == Within(old(good), n, if own then None else Some(NotFound), Some(Internal))
      ensures r.None? ==> Rows() == WithMembers(old(Rows()), id, props, ids, now)
    {
      ghost var before := Rows();
      r := UpdateEntity(provider, id, props, now);
      if r.Some? {
        return;
      }
      var ok := RewriteMembers(id, ids, now);
      if !ok {
        return Some(Internal);
      }
      MembersWritten(before, Rows(), id, props, ids, now);
    }

    /** The repository's `Replace`. */
    method Replace(provider: string, id: nat, props: Props, ids: seq<nat>, now: int) returns (r: Option<Error>)
      requires NoDuplicates(ids) && forall x :: x in ids ==> x in entities
      modifies this`entities, this`relations, this`good
      ensures var n := ReplaceStatements(old(Rows()), provider, id, ids);
              var found := if IsBuiltinGroup(old(Rows()), id) then Some(BuiltinGroup)
                           else if IsGroupOf(old(Rows()), provider, id) then None else Some(NotFound);
              good == Spent(old(good), n) && r == Within(old(good), n, found, Some(Internal))
      ensures r.None? ==> Rows() == WithMembers(old(Rows()), id, props, ids, now)
    {
      var builtin := IsBuiltin(id);
      if builtin {
        return Some(BuiltinGroup);
      }
      r := UpdateRows(provider, id, props, ids, now);
      if r.Some? {
        return;
      }
      var members := FetchMembers(id);
      r := if members.None? then Some(Internal) else None;
    }

    /** The first DELETE, of the provider's links. */
    method DeleteLinks(provider: string, id: nat) returns (r: Option<Error>)
      modifies this`links, this`good
      ensures good == Spent(old(good), 1)
      ensures r == Within(old(good), 1, if LinkedTo(old(links), provider, id) then None
                          else Some(NotFound), Some(Internal))
      ensures r.None? ==> links == old(links) - set l | l in old(links) && l.entity == id && l.provider == provider
    {
      var ok := Statement();
      if !ok {
        return Some(Internal);
      }
      var rows := set l | l in links && l.entity == id && l.provider == provider;
      if l :| l in links && l.entity == id && l.provider == provider {
        assert l in rows;
      }
      if |rows| == 0 {
        return Some(NotFound);
      }
      links := links - rows;
      r := None;
    }

    /** The second DELETE, of an entity without links. */
    method DeleteUnlinked(id: nat) returns (ok: bool)
      modifies this`entities, this`relations, this`good
      ensures good == Spent(old(good), 1) && ok == (old(good) > 0)
      ensures ok ==> if exists l :: l in links && l.entity == id then entities == old(entities)
              && relations == old(relations)
                     else entities == old(entities) - {id} && relations == Cascade(old(relations), id)
    {
      ok := Statement();
      if ok && !exists l :: l in links && l.entity == id {
        entities := entities - {id};
        relations := Cascade(relations, id);
      }
    }

    /** The repository's `Delete`. */
    method Delete(provider: string, id: nat) returns (r: Option<Error>)
      modifies this`entities, this`links, this`relations, this`good
      ensures var n := DeleteStatements(old(Rows()), provider, id);
              var found := if IsBuiltinGroup(old(Rows()), id) then Some(BuiltinGroup)
                           else if LinkedTo(old(links), provider, id) then None else Some(NotFound);
              good == Spent(old(good), n) && r == Within(old(good), n, found, Some(Internal))
      ensures r.None? ==> Rows() == WithoutLink(old(Rows()), provider, id)
    {
      var builtin := IsBuiltin(id);
      if builtin {
        return Some(BuiltinGroup);
      }
      r := DeleteLinks(provider, id);
      if r.Some? {
        return;
      }
      var ok := DeleteUnlinked(id);
      r := if ok then None else Some(Internal);
    }

    method Audit(entry: Entry) returns (ok: bool)
      modifies this`log, this`good
      ensures good == Spent(old(good), 1) && ok == (old(good) > 0)
      ensures ok ==> log == old(log) + [entry]
    {
      ok := Statement();
      if ok {
        log := log + [entry];
      }
    }

    /** `reconcileMembers`, with the deletions in any order. */
    method ReconcileMembers(group: nat, newIds: seq<nat>, now: int) returns (ok: bool)
      modifies this`relations, this`good
      ensures var n := ReconcileStatements(old(relations), group, Elements(newIds));
              && ok == (n <= old(good) && Insertable(entities, MembersOf(old(relations), group), newIds))
              && good == if ok then Spent(old(good), n) else 0
      ensures ok ==> relations == Reconciled(old(relations), group, Elements(newIds), now)
    {
      ok := Statement();
      if !ok {
        return;
      }
      var current := MembersOf(relations, group);
      var wanted := {};
      for i := 0 to |newIds|
        invariant wanted == Elements(newIds[..i])
      {
        assert newIds[..i + 1] == newIds[..i] + [newIds[i]];
        wanted := wanted + {newIds[i]};
      }
      assert newIds[..|newIds|] == newIds;
      ghost var before := relations;
      ok := DeleteObsolete(group, current, wanted);
      if !ok {
        return;
      }
      ghost var mid := relations;
      OnlyCurrent(before, mid, group, current - wanted);
      ok := InsertNew(group, current, newIds, now);
      if ok {
        PrunedThenGrown(before, mid, relations, group, wanted, now);
        ReconciledOnce(before, relations, group, wanted, now);
      }
    }

    method DeleteRow(group: nat, mid: nat) returns (ok: bool)
      modifies this`relations, this`good
      ensures good == Spent(old(good), 1) && ok == (old(good) > 0)
      ensures ok ==> relations == old(relations) - {Membership(mid, group)}
    {
      ok := Statement();
      if ok {
        relations := relations - {Membership(mid, group)};
      }
    }

    /** A row that is there already, or a member that does not exist, breaks a
        constraint. */
    method InsertRow(group: nat, mid: nat, now: int) returns (ok: bool)
      modifies this`relations, this`good
      ensures ok == (old(good) > 0 && Membership(mid, group) !in old(relations) && mid in entities)
      ensures good == if ok then old(good) - 1 else 0
      ensures ok ==> relations == old(relations)[Membership(mid, group) := now]
    {
      ok := Statement();
      if !ok {
        return;
      }
      if Membership(mid, group) in relations || mid !in entities {
        good := 0;
        return false;
      }
      relations := relations[Membership(mid, group) := now];
    }

    method DeleteObsolete(group: nat, current: set<nat>, wanted: set<nat>) returns (ok: bool)
      modifies this`relations, this`good
      ensures good == Spent(old(good), |current - wanted|) && ok == (|current - wanted| <= old(good))
      ensures ok ==> Pruned(old(relations), relations, group, current - wanted)
    {
      var left := current;
      ghost var gone, obsolete := {}, current - wanted;
      while left != {}
        invariant left <= current
        invariant gone == obsolete - left && |gone| + good == old(good)
        invariant Pruned(old(relations), relations, group, gone)
        decreases |left|
      {
        var mid :| mid in left;
        ghost var before := relations;
        OneLess(obsolete, left, mid);
        left := left - {mid};
        if mid in wanted {
          continue;
        }
        ok := DeleteRow(group, mid);
        if !ok {
          Unfinished(gone, obsolete, mid);
          return;
        }
        PruneStep(old(relations), before, group, gone, mid);
        gone := gone + {mid};
      }
      ok := true;
      assert gone == obsolete - {};
    }

    method InsertNew(group: nat, current: set<nat>, newIds: seq<nat>, now: int) returns (ok: bool)
      requires forall x :: Membership(x, group) in relations ==> x in current
      modifies this`relations, this`good
      ensures var n := |Elements(newIds) - current|;
              && ok == (n <= old(good) && Insertable(entities, current, newIds))
              && good == if ok then Spent(old(good), n) else 0
      ensures ok ==> Grown(old(relations), relations, group, Elements(newIds) - current, now)
    {
      ghost var added := {};
      for i := 0 to |newIds|
        invariant added == Elements(newIds[..i]) - current && |added| + good == old(good)
        invariant Insertable(entities, current, newIds[..i])
        invariant Grown(old(relations), relations, group, added, now)
      {
        var mid := newIds[i];
        ghost var before := relations;
        OneMoreId(entities, current, newIds, i);
        if mid in current {
          continue;
        }
        AlreadyThere(old(relations), before, group, added, now, mid);
        ok := InsertRow(group, mid, now);
        if !ok {
          if mid !in added {
            Unfinished(added, Elements(newIds) - current, mid);
          }
          return;
        }
        GrowStep(old(relations), before, group, added, mid, now);
        added := added + {mid};
      }
      assert newIds[..|newIds|] == newIds;
      ok := true;
    }
  }

  lemma OneLess(all: set<nat>, left: set<nat>, x: nat)
    requires x in left
    ensures all - (left - {x}) == if x in all then (all - left) + {x} else all - left
  {
  }

  /** One more identifier of the list. */
  lemma OneMoreId(entities: map<nat, Entity>, current: set<nat>, ids: seq<nat>, i: nat)
    requires i < |ids| && Insertable(entities, current, ids[..i])
    ensures var done := Elements(ids[..i]) - current;
            && Elements(ids[..i + 1]) - current == (if ids[i] in current then done else done + {ids[i]})
            && done <= Elements(ids) - current
            && (ids[i] !in current && (ids[i] in done || ids[i] !in entities) ==> !Insertable(entities, current, ids))
            && (ids[i] in current || (ids[i] !in done && ids[i] in entities) ==>
                Insertable(entities, current, ids[..i + 1]))
  {
    assert ids[..i + 1] == ids[..i] + [ids[i]];
    forall k | 0 <= k < i + 1
      ensures ids[..i + 1][k] == ids[k] && ids[..i + 1][..k] == ids[..k]
              && (k < i ==> ids[..i][k] == ids[k] && ids[..i][..k] == ids[..k])
    {
    }
  }

  /** After the deletions only current members are left. */
  lemma OnlyCurrent(before: Relations, mid: Relations, group: nat, gone: set<nat>)
    requires Pruned(before, mid, group, gone)
    ensures forall x :: Membership(x, group) in mid ==> x in MembersOf(before, group)
  {
    forall x | Membership(x, group) in mid
      ensures x in MembersOf(before, group)
    {
      assert RelationAt(mid, Membership(x, group)).Some?;
    }
  }

  lemma AlreadyThere(before: Relations, after: Relations, group: nat, added: set<nat>, now: int, x: nat)
    requires Grown(before, after, group, added, now) && Membership(x, group) !in before
    ensures Membership(x, group) in after <==> x in added
  {
    assert RelationAt(after, Membership(x, group)) == if x in added then Some(now) else None;
  }

  lemma Unfinished(done: set<nat>, all: set<nat>, x: nat)
    requires done <= all && x in all && x !in done
    ensures |done| < |all|
  {
    SubsetCount(done, all);
  }

  lemma {:induction false} SubsetCount(a: set<nat>, b: set<nat>)
    requires a <= b
    ensures |a| <= |b| && (|a| == |b| ==> a == b)
  {
    if a != {} {
      var x :| x in a;
      SubsetCount(a - {x}, b - {x});
    } else if b != {} {
      assert |b| > 0;
    }
  }
}
