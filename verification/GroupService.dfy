/** The group service: each operation validates its members, writes inside one
    transaction, records the change and commits, or leaves the database as it was. */
module GroupService {
  import opened Text
  import opened ScimGrammar
  import opened ScimPatch
  import opened GroupPatch
  import opened GroupPatchProofs
  import opened GroupStore

  /** The inbound group; members are the texts of their identifiers. */
  datatype GroupInput = GroupInput(displayName: string, externalId: string, members: seq<string>)

  /* ----- member identifiers ----- */

  /** The identifiers of a member list, if every text is one and none comes twice. */
  function ParsedIds(values: seq<string>, uuid: string -> Option<nat>): Option<seq<nat>> {
    if values == [] then Some([])
    else
      var n := |values| - 1;
      var before, id := ParsedIds(values[..n], uuid), uuid(values[n]);
      if before.None? || id.None? || id.value in before.value then None else Some(before.value + [id.value])
  }

  method ParseMemberIds(values: seq<string>, uuid: string -> Option<nat>) returns (r: Option<seq<nat>>)
    ensures r == ParsedIds(values, uuid)
  {
    if |values| == 0 {
      return Some([]);
    }
    var seen, ids := {}, [];
    for i := 0 to |values|
      invariant ParsedIds(values[..i], uuid) == Some(ids)
      invariant forall x :: x in seen <==> x in ids
    {
      assert values[..i + 1][..i] == values[..i];
      var id := uuid(values[i]);
      if id.None? || id.value in seen {
        ParsedFails(values, uuid, i + 1);
        return None;
      }
      seen := seen + {id.value};
      ids := ids + [id.value];
    }
    assert values[..|values|] == values;
    r := Some(ids);
  }

  lemma {:induction false} ParsedFails(values: seq<string>, uuid: string -> Option<nat>, n: nat)
    requires n <= |values| && ParsedIds(values[..n], uuid).None?
    ensures ParsedIds(values, uuid).None?
    decreases |values|
  {
    if n < |values| {
      var m := |values| - 1;
      assert values[..m][..n] == values[..n];
      ParsedFails(values[..m], uuid, n);
    } else {
      assert values[..n] == values;
    }
  }

  /** A list is accepted exactly if every text is an identifier and no two are the
      same; the result is then the identifiers in order, without duplicates. */
  lemma {:induction false} ParsedIff(values: seq<string>, uuid: string -> Option<nat>)
    ensures ParsedIds(values, uuid).Some? <==>
            && (forall i :: 0 <= i < |values| ==> uuid(values[i]).Some?)
            && (forall i, j :: 0 <= i < j < |values| ==> uuid(values[i]) != uuid(values[j]))
    ensures ParsedIds(values, uuid).Some? ==>
              var ids := ParsedIds(values, uuid).value;
              && |ids| == |values| && NoDuplicates(ids)
              && forall i :: 0 <= i < |values| ==> uuid(values[i]) == Some(ids[i])
  {
    if values != [] {
      var n := |values| - 1;
      ParsedIff(values[..n], uuid);
      if ParsedIds(values[..n], uuid).Some? && uuid(values[n]).Some? {
        var before := ParsedIds(values[..n], uuid).value;
        if uuid(values[n]).value in before {
          var i :| 0 <= i < n && before[i] == uuid(values[n]).value;
          assert uuid(values[i]) == uuid(values[n]);
        }
      }
    }
  }

  /** Comparing the length of the resolved list with the requested one decides
      validity: they agree exactly if every member is valid and none comes twice. */
  lemma CountDecides(db: Db, provider: string, ids: seq<nat>, resolved: seq<nat>)
    requires NoDuplicates(resolved)
    requires forall x :: x in resolved <==> x in ids && ValidMember(db.entities, db.links, provider, x)
    ensures |resolved| == |ids| <==> NoDuplicates(ids) && AllValid(db, provider, ids)
  {
    ElementsBound(ids);
    ElementsBound(resolved);
    SubsetCount(Elements(resolved), Elements(ids));
    if AllValid(db, provider, ids) {
      assert Elements(resolved) == Elements(ids);
    }
    if |resolved| == |ids| {
      forall x | x in ids
        ensures ValidMember(db.entities, db.links, provider, x)
      {
        assert x in Elements(ids);
      }
    }
  }

  /* ----- what the operations do ----- */

  function NameOf(displayName: string): Props {
    map["displayName" := ScimPatch.Json.Str(displayName)]
  }

  /** The display name of a property map is a string and not empty. */
  predicate HasName(props: Props) {
    "displayName" in props && props["displayName"].Str? && props["displayName"].text != ""
  }

  function Logged(db: Db, entry: Entry): Db {
    db.(log := db.log + [entry])
  }

  function Inserted(db: Db, provider: string, subject: string, props: Props, ids: seq<nat>, now: int): Db {
    Logged(WithGroup(db, provider, subject, props, ids, now), Entry(Created, db.next, None, Some(props)))
  }

  function CreateSpec(db: Db, provider: string, g: GroupInput, uuid: string -> Option<nat>,
                      now: int): Result<Db, Error> {
    if g.displayName == "" then Err(DisplayNameRequired)
    else if g.externalId == "" then Err(ExternalIdRequired)
    else
      match ParsedIds(g.members, uuid)
      case None => Err(InvalidMember)
      case Some(ids) =>
        if !AllValid(db, provider, ids) then Err(InvalidMember)
        else if Exists(db, provider, g.externalId) then Err(AlreadyExists)
        else Ok(Inserted(db, provider, g.externalId, NameOf(g.displayName), ids, now))
  }

  /** Overwriting a group with properties and members. */
  function OverwriteSpec(db: Db, provider: string, id: nat, props: Props, ids: seq<nat>, now: int): Result<Db, Error>
    requires IsGroupOf(db, provider, id)
  {
    if !AllValid(db, provider, ids) then Err(InvalidMember)
    else if db.entities[id].builtin then Err(BuiltinGroup)
    else Ok(Logged(WithMembers(db, id, props, ids, now), Entry(Changed, id, Some(db.entities[id].props), Some(props))))
  }

  function ReplaceSpec(db: Db, provider: string, id: nat, g: GroupInput, uuid: string -> Option<nat>,
                       now: int): Result<Db, Error> {
    if g.displayName == "" then Err(DisplayNameRequired)
    else
      match ParsedIds(g.members, uuid)
      case None => Err(InvalidMember)
      case Some(ids) =>
        if !IsGroupOf(db, provider, id) then Err(NotFound)
            else OverwriteSpec(db, provider, id, NameOf(g.displayName), ids, now)
  }

  /** Patching, if the patch leads to `p`. */
  function PatchSpec(db: Db, provider: string, id: nat, ops: seq<PatchOp>, now: int,
                     p: Result<GroupState, PatchError>): Result<Db, Error> {
    if !IsGroupOf(db, provider, id) then Err(NotFound)
    else if ops == [] then Ok(db)
    else if p.Err? then Err(BadPatch(p.error))
    else if !HasName(p.value.properties) then Err(DisplayNameRequired)
    else OverwriteSpec(db, provider, id, p.value.properties, p.value.members, now)
  }

  /** `p` is a possible result of the patch on the stored group, whose member list is
      `ids`. */
  ghost predicate PatchLed(db: Db, id: nat, ops: seq<PatchOp>, env: Env, ids: seq<nat>,
                           p: Result<GroupState, PatchError>)
    requires id in db.entities
  {
    && IsMemberList(db.relations, id, ids)
    && PatchOutcome(Groups(), env, GroupState(db.entities[id].props, ids), ops, p)
  }

  function DeleteSpec(db: Db, provider: string, id: nat): Result<Db, Error> {
    if !IsGroupOf(db, provider, id) then Err(NotFound)
    else if db.entities[id].builtin then Err(BuiltinGroup)
    else Ok(Logged(WithoutLink(db, provider, id), Entry(Deleted, id, Some(db.entities[id].props), None)))
  }

  /* ----- how many statements they take ----- */

  /** BEGIN, the check of the members, the writes, the audit record and COMMIT. */
  function CreateCost(db: Db, provider: string, g: GroupInput, uuid: string -> Option<nat>): nat {
    if g.displayName == "" || g.externalId == "" then 0
    else
      match ParsedIds(g.members, uuid)
      case None => 0
      case Some(ids) =>
        1 + Probes(ids) +
        if !AllValid(db, provider, ids) then 0
        else CreateStatements(db, provider, g.externalId, ids) + if Exists(db, provider, g.externalId) then 0 else 2
  }

  /** BEGIN and the reading of the group. */
  function ReadCost(db: Db, provider: string, id: nat): nat {
    1 + GetStatements(db, provider, id)
  }

  function OverwriteCost(db: Db, provider: string, id: nat, ids: seq<nat>): nat
    requires IsGroupOf(db, provider, id)
  {
    Probes(ids) +
    if !AllValid(db, provider, ids) then 0
    else ReplaceStatements(db, provider, id, ids) + if db.entities[id].builtin then 0 else 2
  }

  function ReplaceCost(db: Db, provider: string, id: nat, g: GroupInput, uuid: string -> Option<nat>): nat {
    if g.displayName == "" then 0
    else
      match ParsedIds(g.members, uuid)
      case None => 0
      case Some(ids) => ReadCost(db, provider, id) + if IsGroupOf(db, provider, id)
          then OverwriteCost(db, provider, id, ids) else 0
  }

  /** Without operations there is no transaction, and only the group is read. */
  function PatchCost(db: Db, provider: string, id: nat, ops: seq<PatchOp>, p: Result<GroupState, PatchError>): nat {
    if ops == [] then GetStatements(db, provider, id)
    else
      ReadCost(db, provider, id) +
      if IsGroupOf(db, provider, id) && p.Ok? && HasName(p.value.properties)
          then OverwriteCost(db, provider, id, p.value.members) else 0
  }

  function DeleteCost(db: Db, provider: string, id: nat): nat {
    ReadCost(db, provider, id) +
    if IsGroupOf(db, provider, id) then DeleteStatements(db, provider, id) + if db.entities[id].builtin then 0 else 2
        else 0
  }

  lemma MemberListIsDistinct(relations: Relations, group: nat, ids: seq<nat>)
    requires IsMemberList(relations, group, ids)
    ensures NoDuplicates(ids)
  {
    forall i, j | 0 <= i < j < |ids|
      ensures ids[i] != ids[j]
    {
      assert Earlier(relations, group, ids[i], ids[j]);
    }
  }

  /* ----- the service ----- */

  /** Each call is given the number of statements that the database carries out
      before it fails. */
  class Service {
    var db: Db

    constructor (d: Db)
      ensures db == d
    {
      db := d;
    }

    /** The check that Create, Replace and Patch share: the resolved members are as
        many as the requested ones. */
    method MembersInvalid(tx: Tx, provider: string, ids: seq<nat>) returns (r: Option<Error>)
      requires NoDuplicates(ids)
      modifies tx`good
      ensures tx.good == Spent(old(tx.good), Probes(ids))
      ensures r == Within(old(tx.good), Probes(ids), if AllValid(tx.Rows(), provider, ids) then None
                          else Some(InvalidMember), Some(Internal))
    {
      if |ids| > 0 {
        var resolved := tx.ValidateMembers(provider, ids);
        if resolved.None? {
          return Some(Internal);
        }
        CountDecides(tx.Rows(), provider, ids, resolved.value);
        if |resolved.value| != |ids| {
          return Some(InvalidMember);
        }
      }
      r := None;
    }

    /** The audit record and the commit that end a transaction. */
    method Finish(tx: Tx, entry: Entry) returns (r: Option<Error>)
      modifies this, tx`log, tx`good
      ensures (r, db) == Ended(Ok(Logged(old(tx.Rows()), entry)), 2, old(tx.good), old(db))
    {
      var ok := tx.Audit(entry);
      if !ok {
        return Some(Internal);
      }
      ok := tx.Statement();
      if !ok {
        return Some(Internal);
      }
      db := tx.Rows();
      r := None;
    }

    /** Provisions a group. */
    method Create(provider: string, g: GroupInput, uuid: string -> Option<nat>, now: int, statements: nat)
      returns (r: Option<Error>)
      requires DbOk(db)
      modifies this
      ensures (r, db) == Ended(CreateSpec(old(db), provider, g, uuid, now), CreateCost(old(db), provider, g, uuid),
                               statements, old(db))
    {
      if g.displayName == "" {
        return Some(DisplayNameRequired);
      }
      if g.externalId == "" {
        return Some(ExternalIdRequired);
      }
      var memberIds := ParseMemberIds(g.members, uuid);
      if memberIds.None? {
        return Some(InvalidMember);
      }
      ParsedIff(g.members, uuid);
      var tx := new Tx(db, statements);
      var ok := tx.Statement();
      if !ok {
        return Some(Internal);
      }
      r := MembersInvalid(tx, provider, memberIds.value);
      if r.Some? {
        return;
      }
      r := Insert(tx, provider, g.externalId, NameOf(g.displayName), memberIds.value, now);
    }

    /** The writes of a creation with valid members, the audit record and the commit. */
    method Insert(tx: Tx, provider: string, subject: string, props: Props, ids: seq<nat>, now: int)
      returns (r: Option<Error>)
      requires tx.Rows() == db && DbOk(db) && NoDuplicates(ids) && AllValid(db, provider, ids)
      modifies this, tx
      ensures var taken := Exists(old(db), provider, subject);
              (r, db) == Ended(if taken then Err(AlreadyExists)
                               else Ok(Inserted(old(db), provider, subject, props, ids, now)),
                               CreateStatements(old(db), provider, subject, ids) + (if taken then 0 else 2),
                               old(tx.good), old(db))
    {
      var stored := tx.Create(provider, subject, props, ids, now);
      if stored.Err? {
        return Some(stored.error);
      }
      r := Finish(tx, Entry(Created, stored.value, None, Some(props)));
    }

    /** Validates the members and overwrites the group, in a transaction that has read
        it. */
    method Overwrite(tx: Tx, provider: string, id: nat, props: Props, ids: seq<nat>, now: int)
      returns (r: Option<Error>)
      requires tx.Rows() == db && IsGroupOf(db, provider, id) && NoDuplicates(ids)
      modifies this, tx
      ensures (r, db) == Ended(OverwriteSpec(old(db), provider, id, props, ids, now),
                               OverwriteCost(old(db), provider, id, ids), old(tx.good), old(db))
    {
      var before := tx.entities[id].props;
      r := MembersInvalid(tx, provider, ids);
      if r.Some? {
        return;
      }
      r := tx.Replace(provider, id, props, ids, now);
      if r.Some? {
        return;
      }
      r := Finish(tx, Entry(Changed, id, Some(before), Some(props)));
    }

    /** BEGIN and the reading of the group that Replace, Patch and Delete start with. */
    method Begin(provider: string, id: nat, statements: nat) returns (tx: Tx, before: Result<GroupState, Error>)
      ensures fresh(tx) && tx.Rows() == db && tx.good == Spent(statements, ReadCost(db, provider, id))
      ensures before.Ok? <==> ReadCost(db, provider, id) <= statements && IsGroupOf(db, provider, id)
      ensures before.Ok? ==>
              before.value.properties == db.entities[id].props && IsMemberList(db.relations, id, before.value.members)
      ensures before.Err? ==> before.error == Within(statements, ReadCost(db, provider, id), NotFound, Internal)
    {
      tx := new Tx(db, statements);
      var ok := tx.Statement();
      if !ok {
        return tx, Err(Internal);
      }
      before := tx.GetByEntityId(provider, id);
    }

    method Replace(provider: string, id: nat, g: GroupInput, uuid: string -> Option<nat>, now: int, statements: nat)
      returns (r: Option<Error>)
      modifies this
      ensures (r, db) == Ended(ReplaceSpec(old(db), provider, id, g, uuid, now),
                               ReplaceCost(old(db), provider, id, g, uuid), statements, old(db))
    {
      if g.displayName == "" {
        return Some(DisplayNameRequired);
      }
      var memberIds := ParseMemberIds(g.members, uuid);
      if memberIds.None? {
        return Some(InvalidMember);
      }
      ParsedIff(g.members, uuid);
      var tx, before := Begin(provider, id, statements);
      if before.Err? {
        return Some(before.error);
      }
      r := Overwrite(tx, provider, id, NameOf(g.displayName), memberIds.value, now);
    }

    /** Applies a patch. `ids` is the member list the patch started from and `p` what
        it led to, once the group has been read. */
    method Patch(provider: string, id: nat, ops: seq<PatchOp>, number: FloatParser, uuid: string -> Option<nat>,
                 now: int, statements: nat)
      returns (r: Option<Error>, ghost ids: seq<nat>, ghost p: Result<GroupState, PatchError>)
      modifies this
      ensures ops != [] && IsGroupOf(old(db), provider, id) && ReadCost(old(db), provider, id) <= statements ==>
                PatchLed(old(db), id, ops, Standard(number, uuid), ids, p)
      ensures (r, db) == Ended(PatchSpec(old(db), provider, id, ops, now, p), PatchCost(old(db), provider, id, ops, p),
                               statements, old(db))
    {
      ids, p := [], Err(PatchError(0, NoTarget));
      if |ops| == 0 {
        r := Read(provider, id, statements);
        return;
      }
      var tx, before := Begin(provider, id, statements);
      if before.Err? {
        return Some(before.error), ids, p;
      }
      ids := before.value.members;
      MemberListIsDistinct(db.relations, id, ids);
      var state := new PatchState(before.value.properties, before.value.members);
      var next := ApplyPatch(state, ops, number, uuid);
      if next.Err? {
        p := Err(next.error);
        return Some(BadPatch(next.error)), ids, p;
      }
      p := Ok(next.value.Value());
      MembersStayDistinct(Standard(number, uuid), state.Value(), ops, p);
      if !HasName(next.value.properties) {
        return Some(DisplayNameRequired), ids, p;
      }
      r := Overwrite(tx, provider, id, next.value.properties, next.value.members, now);
    }

    /** `GetByEntityID`, outside a transaction. */
    method Read(provider: string, id: nat, statements: nat) returns (r: Option<Error>)
      ensures r == Within(statements, GetStatements(db, provider, id), if IsGroupOf(db, provider, id) then None
                          else Some(NotFound), Some(Internal))
    {
      var q := new Tx(db, statements);
      var found := q.GetByEntityId(provider, id);
      r := if found.Err? then Some(found.error) else None;
    }

    method Delete(provider: string, id: nat, statements: nat) returns (r: Option<Error>)
      modifies this
      ensures (r, db) == Ended(DeleteSpec(old(db), provider, id), DeleteCost(old(db), provider, id), statements,
                               old(db))
    {
      var tx, before := Begin(provider, id, statements);
      if before.Err? {
        return Some(before.error);
      }
      r := tx.Delete(provider, id);
      if r.Some? {
        return;
      }
      r := Finish(tx, Entry(Deleted, id, Some(before.value.properties), None));
    }
  }
}
