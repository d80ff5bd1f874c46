/** What a successful group operation leaves behind, and exactly when it succeeds. */
module GroupServiceProofs {
  import opened Text
  import opened ScimPatch
  import opened GroupPatch
  import opened GroupPatchProofs
  import opened GroupStore
  import opened GroupService

  /** `x` is one of the identifiers that the texts stand for. */
  predicate Requested(values: seq<string>, uuid: string -> Option<nat>, x: nat) {
    exists i :: 0 <= i < |values| && uuid(values[i]) == Some(x)
  }

  /** The provider has a link to the entity. */
  ghost predicate Linked(db: Db, provider: string, id: nat) {
    exists l :: l in db.links && l.entity == id && l.provider == provider
  }

  ghost predicate OwnGroup(db: Db, provider: string, id: nat) {
    id in db.entities && db.entities[id].kind == Group && Linked(db, provider, id)
  }

  /** A user or group of the provider. */
  ghost predicate Provisioned(db: Db, provider: string, id: nat) {
    && id in db.entities && (db.entities[id].kind == User || db.entities[id].kind == Group)
    && Linked(db, provider, id)
  }

  /** Every text is an identifier, no two are the same, and each names a user or group
      of the provider. */
  ghost predicate MembersOk(db: Db, provider: string, values: seq<string>, uuid: string -> Option<nat>) {
    && (forall i :: 0 <= i < |values| ==>
          uuid(values[i]).Some? && Provisioned(db, provider, uuid(values[i]).value))
    && forall i, j :: 0 <= i < j < |values| ==> uuid(values[i]) != uuid(values[j])
  }

  /** A group has the external identifier that the pair composes, or the pair has a
      link. */
  ghost predicate Collides(db: Db, provider: string, subject: string) {
    || (exists id :: id in db.entities && db.entities[id].kind == Group
                     && db.entities[id].external == "scim:" + provider + ":" + subject)
    || (exists l :: l in db.links && l.provider == provider && l.subject == subject)
  }

  lemma CollidesIs(db: Db, provider: string, subject: string)
    ensures Collides(db, provider, subject) <==> Exists(db, provider, subject)
  {
  }

  /** The row says that its subject is a global member of the group. */
  predicate IsMember(r: Relation, group: nat) {
    r == Relation(r.subject, MemberOf, group, None)
  }

  lemma RequestedIds(values: seq<string>, uuid: string -> Option<nat>)
    requires ParsedIds(values, uuid).Some?
    ensures forall x :: x in ParsedIds(values, uuid).value <==> Requested(values, uuid, x)
  {
    ParsedIff(values, uuid);
    var ids := ParsedIds(values, uuid).value;
    forall x: nat
      ensures x in ids <==> Requested(values, uuid, x)
    {
      if x in ids {
        var i :| 0 <= i < |ids| && ids[i] == x;
        assert uuid(values[i]) == Some(x);
      }
    }
  }

  lemma MembersOkIff(db: Db, provider: string, values: seq<string>, uuid: string -> Option<nat>)
    ensures MembersOk(db, provider, values, uuid) <==>
            ParsedIds(values, uuid).Some? && AllValid(db, provider, ParsedIds(values, uuid).value)
  {
    ParsedIff(values, uuid);
    if ParsedIds(values, uuid).Some? {
      var ids := ParsedIds(values, uuid).value;
      if MembersOk(db, provider, values, uuid) {
        forall x | x in ids
          ensures ValidMember(db.entities, db.links, provider, x)
        {
          var i :| 0 <= i < |ids| && ids[i] == x;
          assert uuid(values[i]) == Some(x);
        }
      }
      if AllValid(db, provider, ids) {
        forall i | 0 <= i < |values|
          ensures ValidMember(db.entities, db.links, provider, uuid(values[i]).value)
        {
          assert ids[i] in ids;
        }
      }
    }
  }

  /** The group's global members are exactly `wanted`; rows that stay keep their
      creation time, new ones have this one, and no other relation differs. */
  ghost predicate MembersSet(before: Db, after: Db, group: nat, wanted: set<nat>, now: int) {
    forall r :: RelationAt(after.relations, r) ==
      if IsMember(r, group) && r.subject !in wanted then None
      else if IsMember(r, group) && r !in before.relations then Some(now)
      else RelationAt(before.relations, r)
  }

  lemma ReconciledSets(before: Db, after: Db, group: nat, wanted: set<nat>, now: int)
    requires IsReconciled(before.relations, after.relations, group, wanted, now)
    ensures MembersSet(before, after, group, wanted, now)
  {
  }

  /** The row of `x` is older than that of `y`, or as old and its identifier smaller. */
  predicate RowBefore(db: Db, group: nat, x: nat, y: nat) {
    var r, q := Relation(x, MemberOf, group, None), Relation(y, MemberOf, group, None);
    r in db.relations && q in db.relations
    && (db.relations[r] < db.relations[q] || (db.relations[r] == db.relations[q] && x < y))
  }

  /** The members are listed in the order of their rows. */
  ghost predicate ListedInOrder(db: Db, group: nat, ids: seq<nat>) {
    && (forall x :: x in ids <==> Relation(x, MemberOf, group, None) in db.relations)
    && forall i, j :: 0 <= i < j < |ids| ==> RowBefore(db, group, ids[i], ids[j])
  }

  lemma ListIsInOrder(db: Db, group: nat, ids: seq<nat>)
    requires IsMemberList(db.relations, group, ids)
    ensures ListedInOrder(db, group, ids)
  {
    forall x
      ensures x in ids <==> Relation(x, MemberOf, group, None) in db.relations
    {
      assert x in ids <==> x in Elements(ids);
      assert Membership(x, group) == Relation(x, MemberOf, group, None);
    }
    forall i, j | 0 <= i < j < |ids|
      ensures RowBefore(db, group, ids[i], ids[j])
    {
      assert Earlier(db.relations, group, ids[i], ids[j]);
    }
  }

  /* ----- the database stays consistent ----- */

  lemma ReconciledRefers(db: Db, group: nat, wanted: set<nat>, now: int, entities: map<nat, Entity>)
    requires forall r :: r in db.relations ==> r.subject in entities && r.target in entities
    requires group in entities && forall x :: x in wanted ==> x in entities
    ensures forall r :: r in Reconciled(db.relations, group, wanted, now) ==>
            r.subject in entities && r.target in entities
  {
    var after := Reconciled(db.relations, group, wanted, now);
    forall r | r in after
      ensures r.subject in entities && r.target in entities
    {
      assert RelationAt(after, r).Some?;
      if r !in db.relations {
        assert IsMembership(r, group) && r.subject in wanted;
      }
    }
  }

  lemma CreateKeeps(db: Db, provider: string, g: GroupInput, uuid: string -> Option<nat>, now: int)
    requires DbOk(db) && CreateSpec(db, provider, g, uuid, now).Ok?
    ensures DbOk(CreateSpec(db, provider, g, uuid, now).value)
  {
    var ids := ParsedIds(g.members, uuid).value;
    var after := WithGroup(db, provider, g.externalId, NameOf(g.displayName), ids, now);
    ReconciledRefers(db, db.next, Elements(ids), now, after.entities);
    forall a | a in db.entities && db.entities[a].kind.Group?
      ensures db.entities[a].external != ExternalId(provider, g.externalId)
    {
    }
    forall l | l in db.links && l.provider == provider
      ensures l.subject != g.externalId
    {
    }
  }

  lemma OverwriteKeeps(db: Db, provider: string, id: nat, props: Props, ids: seq<nat>, now: int)
    requires DbOk(db) && IsGroupOf(db, provider, id) && OverwriteSpec(db, provider, id, props, ids, now).Ok?
    ensures DbOk(OverwriteSpec(db, provider, id, props, ids, now).value)
  {
    var after := WithMembers(db, id, props, ids, now);
    ReconciledRefers(db, id, Elements(ids), now, after.entities);
  }

  lemma DeleteKeeps(db: Db, provider: string, id: nat)
    requires DbOk(db) && DeleteSpec(db, provider, id).Ok?
    ensures DbOk(DeleteSpec(db, provider, id).value)
  {
  }

  /** No operation gives an entity a second link. */
  lemma OneLinkStays(db: Db, provider: string, id: nat, g: GroupInput, props: Props, ids: seq<nat>,
                     uuid: string -> Option<nat>, now: int)
    requires DbOk(db) && OneLinkEach(db)
    ensures var r := CreateSpec(db, provider, g, uuid, now); r.Ok? ==> OneLinkEach(r.value)
    ensures IsGroupOf(db, provider, id) ==> var r := OverwriteSpec(db, provider, id, props, ids, now); r.Ok? ==>
            OneLinkEach(r.value)
    ensures var r := DeleteSpec(db, provider, id); r.Ok? ==> OneLinkEach(r.value)
  {
  }

  /* ----- success, exactly, and its effect ----- */

  /** The group's global members are exactly those that the texts name; rows that stay
      keep their creation time, new ones have this one, and no other relation differs. */
  ghost predicate HasRequested(before: Db, after: Db, group: nat, values: seq<string>, uuid: string -> Option<nat>,
                               now: int) {
    forall r :: RelationAt(after.relations, r) ==
      if IsMember(r, group) && !Requested(values, uuid, r.subject) then None
      else if IsMember(r, group) && r !in before.relations then Some(now)
      else RelationAt(before.relations, r)
  }

  lemma ReconciledRequested(before: Db, after: Db, group: nat, values: seq<string>, uuid: string -> Option<nat>,
                            now: int)
    requires ParsedIds(values, uuid).Some?
    requires after.relations == Reconciled(before.relations, group, Elements(ParsedIds(values, uuid).value), now)
    ensures HasRequested(before, after, group, values, uuid, now)
  {
    var ids := ParsedIds(values, uuid).value;
    ReconciledSets(before, after, group, Elements(ids), now);
    RequestedIds(values, uuid);
    forall r: Relation
      ensures r.subject in Elements(ids) <==> Requested(values, uuid, r.subject)
    {
      assert r.subject in Elements(ids) <==> r.subject in ids;
    }
  }

  /** What a creation reports, if the database carries out all its statements. */
  ghost function CreateReport(db: Db, provider: string, g: GroupInput, uuid: string -> Option<nat>): Option<Error> {
    if g.displayName == "" then Some(DisplayNameRequired)
    else if g.externalId == "" then Some(ExternalIdRequired)
    else if !MembersOk(db, provider, g.members, uuid) then Some(InvalidMember)
    else if Collides(db, provider, g.externalId) then Some(AlreadyExists)
    else None
  }

  /** A creation takes these statements if it is carried out, and otherwise fails as
      a failure of the database. It succeeds exactly if name and external identifier
      are given, the members are fine and nothing collides. The only new row is then that
      of the group with the name and those members, it has one link, and the log one more
      entry. */
  lemma CreateExactly(db: Db, provider: string, g: GroupInput, uuid: string -> Option<nat>, now: int, statements: nat)
    requires DbOk(db)
    ensures var cost := CreateCost(db, provider, g, uuid);
            var (r, after) := Ended(CreateSpec(db, provider, g, uuid, now), cost, statements, db);
            && r == (if statements < cost then Some(Internal) else CreateReport(db, provider, g, uuid))
            && (r.Some? ==> after == db)
            && (r.None? ==> cost == 5 + if g.members == [] then 0 else |g.members| + 2)
            && (r.None? ==>
                  var id, props := db.next, map["displayName" := ScimPatch.Json.Str(g.displayName)];
                  && DbOk(after)
                  && after.entities == db.entities[id := Entity(Group, "scim:" + provider + ":" + g.externalId, props,
                                                                false, now, now)]
                  && after.links == db.links + {Link(id, provider, g.externalId)}
                  && HasRequested(db, after, id, g.members, uuid, now)
                  && after.log == db.log + [Entry(Created, id, None, Some(props))]
                  && after.next == id + 1)
  {
    MembersOkIff(db, provider, g.members, uuid);
    ParsedIff(g.members, uuid);
    CollidesIs(db, provider, g.externalId);
    var r := CreateSpec(db, provider, g, uuid, now);
    if r.Ok? {
      ReconciledRequested(db, r.value, db.next, g.members, uuid, now);
      CreateKeeps(db, provider, g, uuid, now);
    }
  }

  /** What a replacement reports, if the database carries out all its statements. */
  ghost function ReplaceReport(db: Db, provider: string, id: nat, g: GroupInput,
                               uuid: string -> Option<nat>): Option<Error> {
    if g.displayName == "" then Some(DisplayNameRequired)
    else if !Identifiers(g.members, uuid) then Some(InvalidMember)
    else if !OwnGroup(db, provider, id) then Some(NotFound)
    else if !MembersOk(db, provider, g.members, uuid) then Some(InvalidMember)
    else if db.entities[id].builtin then Some(BuiltinGroup)
    else None
  }

  /** Every text is an identifier and no two are the same. */
  ghost predicate Identifiers(values: seq<string>, uuid: string -> Option<nat>) {
    && (forall i :: 0 <= i < |values| ==> uuid(values[i]).Some?)
    && forall i, j :: 0 <= i < j < |values| ==> uuid(values[i]) != uuid(values[j])
  }

  /** Replacement succeeds exactly if the name is given, the members are fine and the
      group is the provider's own and not built in, and the database carries out the
      statements. Only the group's properties, update time and members have changed, and
      the log has one more entry. */
  lemma ReplaceExactly(db: Db, provider: string, id: nat, g: GroupInput, uuid: string -> Option<nat>, now: int,
                       statements: nat)
    requires DbOk(db)
    ensures var cost := ReplaceCost(db, provider, id, g, uuid);
            var (r, after) := Ended(ReplaceSpec(db, provider, id, g, uuid, now), cost, statements, db);
            && r == (if statements < cost then Some(Internal) else ReplaceReport(db, provider, id, g, uuid))
            && (r.Some? ==> after == db)
            && (r.None? ==> cost == 10 + |Differing(db.relations, after.relations)| + if g.members == [] then 0 else 1)
            && (r.None? ==>
                  && DbOk(after)
                  && Rewritten(db, after, id, map["displayName" := ScimPatch.Json.Str(g.displayName)], now)
                  && HasRequested(db, after, id, g.members, uuid, now))
  {
    MembersOkIff(db, provider, g.members, uuid);
    ParsedIff(g.members, uuid);
    var r := ReplaceSpec(db, provider, id, g, uuid, now);
    if r.Ok? {
      var ids := ParsedIds(g.members, uuid).value;
      ReconciledRequested(db, r.value, id, g.members, uuid, now);
      OverwriteKeeps(db, provider, id, NameOf(g.displayName), ids, now);
      WritesAreMinimal(db.relations, r.value.relations, id, Elements(ids), now);
    }
  }

  /** What a patch that leads to `p` reports, if the database carries out all its
      statements. */
  ghost function PatchReport(db: Db, provider: string, id: nat, p: Result<GroupState, PatchError>): Option<Error> {
    if !OwnGroup(db, provider, id) then Some(NotFound)
    else if p.Err? then Some(BadPatch(p.error))
    else if !Named(p.value.properties) then Some(DisplayNameRequired)
    else if !(forall x :: x in p.value.members ==> Provisioned(db, provider, x)) then Some(InvalidMember)
    else if db.entities[id].builtin then Some(BuiltinGroup)
    else None
  }

  /** There is a display name, which is a text and not empty. */
  ghost predicate Named(props: Props) {
    exists t :: t != "" && "displayName" in props && props["displayName"] == ScimPatch.Json.Str(t)
  }

  lemma PatchReportIs(db: Db, provider: string, id: nat, ops: seq<PatchOp>, now: int,
                      p: Result<GroupState, PatchError>)
    requires ops != []
    ensures var r := PatchSpec(db, provider, id, ops, now, p);
            PatchReport(db, provider, id, p) == if r.Ok? then None else Some(r.error)
  {
    if p.Ok? {
      NamedIs(p.value.properties);
      forall x
        ensures ValidMember(db.entities, db.links, provider, x) <==> Provisioned(db, provider, x)
      {
      }
    }
  }

  lemma NamedIs(props: Props)
    ensures Named(props) <==> HasName(props)
  {
    if HasName(props) {
      assert props["displayName"] == ScimPatch.Json.Str(props["displayName"].text);
    }
  }

  /** Only the group's row, with these properties, and its members have changed, and the
      log has one more entry. */
  ghost predicate Rewritten(db: Db, after: Db, id: nat, props: Props, now: int)
    requires id in db.entities
  {
    var was := db.entities[id];
    && after.entities == db.entities[id := Entity(was.kind, was.external, props, was.builtin, was.created, now)]
    && after.links == db.links
    && after.log == db.log + [Entry(Changed, id, Some(was.props), Some(props))]
    && after.next == db.next
  }

  lemma PatchEffect(db: Db, provider: string, id: nat, ops: seq<PatchOp>, env: Env, now: int, ids: seq<nat>,
                    p: Result<GroupState, PatchError>)
    requires DbOk(db) && ops != [] && PatchSpec(db, provider, id, ops, now, p).Ok?
    requires PatchLed(db, id, ops, env, ids, p)
    ensures var after := PatchSpec(db, provider, id, ops, now, p).value;
            && p.Ok? && DbOk(after) && Rewritten(db, after, id, p.value.properties, now)
            && NoDuplicates(p.value.members)
            && MembersSet(db, after, id, Elements(p.value.members), now)
  {
    var after := PatchSpec(db, provider, id, ops, now, p).value;
    OverwriteKeeps(db, provider, id, p.value.properties, p.value.members, now);
    ReconciledSets(db, after, id, Elements(p.value.members), now);
    MemberListIsDistinct(db.relations, id, ids);
    MembersStayDistinct(env, GroupState(db.entities[id].props, ids), ops, p);
  }

  /** A patch that has read the group, with its members in order, succeeds exactly if
      what it leads to has a name and valid members and the group is not built in; the
      stored members and properties are then the patched ones, and the log has one more
      entry. */
  lemma PatchExactly(db: Db, provider: string, id: nat, ops: seq<PatchOp>, env: Env, now: int, ids: seq<nat>,
                     p: Result<GroupState, PatchError>, statements: nat)
    requires DbOk(db) && ops != [] && (IsGroupOf(db, provider, id) ==> PatchLed(db, id, ops, env, ids, p))
    ensures IsGroupOf(db, provider, id) <==> OwnGroup(db, provider, id)
    ensures OwnGroup(db, provider, id) ==>
              ListedInOrder(db, id, ids) && PatchOutcome(Groups(), env, GroupState(db.entities[id].props, ids), ops, p)
    ensures var cost := PatchCost(db, provider, id, ops, p);
            var (r, after) := Ended(PatchSpec(db, provider, id, ops, now, p), cost, statements, db);
            && r == (if statements < cost then Some(Internal) else PatchReport(db, provider, id, p))
            && (r.Some? ==> after == db)
            && (r.None? ==>
                  && DbOk(after) && Rewritten(db, after, id, p.value.properties, now)
                  && NoDuplicates(p.value.members)
                  && MembersSet(db, after, id, Elements(p.value.members), now))
  {
    if IsGroupOf(db, provider, id) {
      ListIsInOrder(db, id, ids);
    }
    PatchReportIs(db, provider, id, ops, now, p);
    if PatchSpec(db, provider, id, ops, now, p).Ok? {
      PatchEffect(db, provider, id, ops, env, now, ids, p);
    }
  }

  /** What a deletion reports, if the database carries out all its statements. */
  ghost function DeleteReport(db: Db, provider: string, id: nat): Option<Error> {
    if !OwnGroup(db, provider, id) then Some(NotFound)
    else if db.entities[id].builtin then Some(BuiltinGroup)
    else None
  }

  /** Deleting succeeds exactly for the provider's own groups that are not built in.
      The entity and every relation with it go with the last link; while another
      provider is linked, both stay. The log has one more entry. */
  lemma DeleteExactly(db: Db, provider: string, id: nat, statements: nat)
    requires DbOk(db)
    ensures var cost := DeleteCost(db, provider, id);
            var (r, after) := Ended(DeleteSpec(db, provider, id), cost, statements, db);
            && r == (if statements < cost then Some(Internal) else DeleteReport(db, provider, id))
            && (r.Some? ==> after == db)
            && (r.None? ==>
                  var shared := exists l :: l in db.links && l.entity == id && l.provider != provider;
                  && cost == 8 && DbOk(after)
                  && (forall l :: l in after.links <==> l in db.links && !(l.entity == id && l.provider == provider))
                  && after.entities == (if shared then db.entities else db.entities - {id})
                  && (forall r' :: RelationAt(after.relations, r')
                        == if !shared && (r'.subject == id || r'.target == id) then None
                           else RelationAt(db.relations, r'))
                  && after.log == db.log + [Entry(Deleted, id, Some(db.entities[id].props), None)]
                  && after.next == db.next)
  {
    if DeleteSpec(db, provider, id).Ok? {
      DeleteKeeps(db, provider, id);
    }
  }

  /* ----- conflicts ----- */

  /** After one group has been created, another that would have been created before is
      refused exactly if the two pairs share an external identifier: they are the same,
      or one provider's name continues the other's with a colon. */
  lemma ConflictExactly(db: Db, q: string, first: GroupInput, p: string, g: GroupInput, uuid: string -> Option<nat>,
                        now: int, later: int)
    requires DbOk(db) && CreateSpec(db, q, first, uuid, now).Ok? && CreateSpec(db, p, g, uuid, now).Ok?
    ensures CreateSpec(CreateSpec(db, q, first, uuid, now).value, p, g, uuid, later) == Err(AlreadyExists) <==>
            (p == q && g.externalId == first.externalId) || Overlap(p, g.externalId, q, first.externalId)
                || Overlap(q, first.externalId, p, g.externalId)
  {
    var after := CreateSpec(db, q, first, uuid, now).value;
    var mine, s, t := ExternalId(p, g.externalId), g.externalId, first.externalId;
    ExternalIdsCollide(p, s, q, t);
    StillValid(db, q, first, uuid, now, p, ParsedIds(g.members, uuid).value);
    assert after.entities[db.next].external == ExternalId(q, t);
    assert ExternalTaken(after.entities, mine) <==> mine == ExternalId(q, t) by {
      if id :| id in after.entities && after.entities[id].kind.Group? && after.entities[id].external == mine {
        assert !ExternalTaken(db.entities, mine) && id == db.next;
      }
    }
    assert Link(db.next, q, t) in after.links;
    assert SubjectTaken(after.links, p, s) <==> p == q && s == t;
  }

  /** Members stay valid when a group is created. */
  lemma StillValid(db: Db, q: string, first: GroupInput, uuid: string -> Option<nat>, now: int, p: string,
                   ids: seq<nat>)
    requires DbOk(db) && CreateSpec(db, q, first, uuid, now).Ok? && AllValid(db, p, ids)
    ensures AllValid(CreateSpec(db, q, first, uuid, now).value, p, ids)
  {
    var after := CreateSpec(db, q, first, uuid, now).value;
    forall id | id in ids
      ensures ValidMember(after.entities, after.links, p, id)
    {
      var l :| l in db.links && l.entity == id && l.provider == p;
      assert l in after.links && id != db.next;
    }
  }

  /* ----- minimal writes ----- */

  /** The relation rows in which two tables differ. */
  function Differing(before: Relations, after: Relations): set<Relation> {
    set r | r in before.Keys + after.Keys && RelationAt(before, r) != RelationAt(after, r)
  }

  function Memberships(ids: set<nat>, group: nat): set<Relation> {
    set x | x in ids :: Membership(x, group)
  }

  lemma {:induction false} MembershipCount(ids: set<nat>, group: nat)
    ensures |Memberships(ids, group)| == |ids|
  {
    if ids != {} {
      var x :| x in ids;
      MembershipCount(ids - {x}, group);
      assert Memberships(ids, group) == Memberships(ids - {x}, group) + {Membership(x, group)};
    } else {
      assert Memberships(ids, group) == {};
    }
  }

  lemma DiffersAt(before: Relations, after: Relations, group: nat, wanted: set<nat>, now: int, r: Relation)
    requires IsReconciled(before, after, group, wanted, now)
    ensures var current := MembersOf(before, group);
            RelationAt(before, r) != RelationAt(after, r) <==>
                IsMembership(r, group) && r.subject in (current - wanted) + (wanted - current)
  {
    assert RelationAt(after, r) ==
           if !IsMembership(r, group) then RelationAt(before, r)
           else if r.subject !in wanted then None
           else if r in before then Some(before[r]) else Some(now);
  }

  lemma InMemberships(ids: set<nat>, group: nat, r: Relation)
    ensures r in Memberships(ids, group) <==> IsMembership(r, group) && r.subject in ids
  {
  }

  /** The tables before and after differ in as many rows as the old and new member
      sets do: that many writes are needed, and `ReconcileMembers` makes no more beside
      its one query. */
  lemma WritesAreMinimal(before: Relations, after: Relations, group: nat, wanted: set<nat>, now: int)
    requires IsReconciled(before, after, group, wanted, now)
    ensures var current := MembersOf(before, group);
            && |Differing(before, after)| == |current - wanted| + |wanted - current|
            && ReconcileStatements(before, group, wanted) == 1 + |Differing(before, after)|
  {
    var current := MembersOf(before, group);
    var changed := (current - wanted) + (wanted - current);
    var differing, memberships := Differing(before, after), Memberships(changed, group);
    forall r
      ensures r in differing <==> r in memberships
    {
      DiffersAt(before, after, group, wanted, now, r);
      InMemberships(changed, group, r);
      assert RelationAt(before, r) != RelationAt(after, r) ==> r in before.Keys + after.Keys;
    }
    assert differing == memberships;
    MembershipCount(changed, group);
  }

  /** Reconciling again with the same members writes nothing. */
  lemma ReconcileTwice(before: Relations, group: nat, wanted: set<nat>, now: int, later: int)
    ensures var once := Reconciled(before, group, wanted, now); Reconciled(once, group, wanted, later) == once
  {
    var once := Reconciled(before, group, wanted, now);
    ReconciledOnce(once, once, group, wanted, later);
  }
}
