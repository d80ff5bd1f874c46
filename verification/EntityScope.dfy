/** What each call on entities reports and writes, by the request and the tables alone;
    and over every run, that a caller of a system creates rows of that system only. */
module EntityScope {
  import opened Text
  import opened MergeJson
  import opened EntityAudit
  import opened EntityAuditProofs

  /* ----- creation ----- */

  /** The request names another system than the caller's. */
  predicate OutOfScope(ctx: Context, req: CreateRequest) {
    ctx.caller.Some? && req.system.Some? && req.system.value != ctx.caller.value
  }

  /** The system that a request within the caller's scope is for. */
  function SystemFor(ctx: Context, req: CreateRequest): Option<nat> {
    if ctx.caller.Some? then ctx.caller else req.system
  }

  /** The properties of the request, or the empty object. */
  function PropertiesFor(req: CreateRequest): Json {
    match req.properties
    case Some(p) => p
    case None => Obj(map[])
  }

  /** System-scoped types need a system, and global ones must not have one. */
  predicate WrongScope(scope: Scope, system: Option<nat>) {
    match scope
    case SystemScoped => system == None
    case Global => system != None
  }

  /** A row has the type and the external identifier. */
  ghost predicate KeyUsed(entities: Table, typeId: nat, externalId: string) {
    exists id :: id in entities && entities[id].typeId == typeId && entities[id].externalId == externalId
  }

  /** Why a request is refused before the database is written: its name, identifier and
      type, then the caller's scope, then the type's, then the schema. */
  function Rejected(ctx: Context, req: CreateRequest, typesFail: bool): Option<Error> {
    if req.typeName == "" || req.externalId == "" then Some(BadRequest)
    else if typesFail then Some(Internal)
    else if req.typeName !in ctx.types then Some(BadRequest)
    else if OutOfScope(ctx, req) then Some(Forbidden)
    else if WrongScope(ctx.types[req.typeName].scope, SystemFor(ctx, req)) then Some(BadRequest)
    else
      match ctx.validate(ctx.types[req.typeName].schema, PropertiesFor(req))
      case Valid => None
      case Invalid => Some(BadRequest)
      case Unusable => Some(Internal)
  }

  /** What a creation reports. */
  ghost function CreateReport(db: Db, ctx: Context, req: CreateRequest, f: Faults): Option<Error> {
    if Rejected(ctx, req, f.types).Some? then Rejected(ctx, req, f.types)
    else if f.begin || f.write then Some(Internal)
    else if SystemFor(ctx, req).Some? && SystemFor(ctx, req).value !in db.entities then Some(Internal)
    else if KeyUsed(db.entities, ctx.types[req.typeName].id, req.externalId) then Some(Conflict)
    else if f.audit || f.commit then Some(Internal)
    else None
  }

  /** The row that a request is for. */
  function RowFor(ctx: Context, req: CreateRequest, id: nat, now: int): Entity
    requires req.typeName in ctx.types
  {
    Entity(id, ctx.types[req.typeName].id, req.typeName, req.externalId, PropertiesFor(req), SystemFor(ctx, req), now,
           now)
  }

  lemma CheckedIs(ctx: Context, req: CreateRequest, f: Faults)
    ensures match Checked(ctx, req, f)
            case Err(e) => Rejected(ctx, req, f.types) == Some(e)
            case Ok(row) =>
              Rejected(ctx, req, f.types) == None && req.typeName in ctx.types && row == RowFor(ctx, req, 0, 0)
  {
  }

  /** A creation succeeds exactly if the checks, the scopes, the schema, the key and the
      database allow it; it adds the row of the request and its record. */
  lemma CreateExactly(db: Db, ctx: Context, req: CreateRequest, f: Faults)
    ensures var (after, r) := CreateSpec(db, ctx, req, f);
            && (r.Err? <==> CreateReport(db, ctx, req, f).Some?)
            && (r.Err? ==> CreateReport(db, ctx, req, f) == Some(r.error) && after == db)
            && (r.Ok? ==>
                  && req.typeName in ctx.types && r.value == RowFor(ctx, req, db.next, f.now)
                  && after == Db(db.entities[db.next := r.value],
                                 db.log + [Entry(Operation.Create, db.next, None, Some(r.value))], db.next + 1))
  {
    CheckedIs(ctx, req, f);
    if req.typeName in ctx.types {
      assert Taken(db.entities, ctx.types[req.typeName].id, req.externalId) <==>
             KeyUsed(db.entities, ctx.types[req.typeName].id, req.externalId);
    }
  }

  /** A creation is forbidden exactly if the request names another system than the
      caller's, once name, identifier and type are in order. */
  lemma ForbiddenExactly(db: Db, ctx: Context, req: CreateRequest, f: Faults)
    ensures CreateSpec(db, ctx, req, f).1 == Err(Forbidden) <==>
            && req.typeName != "" && req.externalId != "" && !f.types && req.typeName in ctx.types
            && ctx.caller.Some? && req.system.Some? && req.system.value != ctx.caller.value
  {
    CreateExactly(db, ctx, req, f);
  }

  /* ----- update and deletion ----- */

  /** An update replaces the properties and the update time of the row, and nothing else,
      with its record; or it changes nothing. */
  lemma UpdateExactly(db: Db, ctx: Context, id: nat, properties: Option<Json>, f: Faults)
    ensures var (after, r) := UpdateSpec(db, ctx, id, properties, f);
            && (r.Ok? <==>
                  && properties.Some? && id in db.entities && db.entities[id].typeName in ctx.types
                  && ctx.validate(ctx.types[db.entities[id].typeName].schema, properties.value) == Valid
                  && !f.begin && !f.read && !f.types && !f.write && !f.audit && !f.commit)
            && (r.Err? ==> after == db)
            && (r == Err(NotFound) <==> properties.Some? && !f.begin && !f.read && id !in db.entities)
            && (r.Ok? ==>
                  var was := db.entities[id];
                  && r.value == Entity(was.id, was.typeId, was.typeName, was.externalId, properties.value, was.system,
                                       was.created, f.now)
                  && after == Db(db.entities[id := r.value],
                                 db.log + [Entry(Operation.Update, id, Some(was), Some(r.value))], db.next))
  {
  }

  /** A deletion takes out the row, with its record; or it changes nothing. A row that
      another one names as its system stays. */
  lemma DeleteExactly(db: Db, id: nat, f: Faults)
    ensures var (after, r) := DeleteSpec(db, id, f);
            && (r == None <==>
                  && id in db.entities && (forall x :: x in db.entities ==> db.entities[x].system != Some(id))
                  && !f.begin && !f.read && !f.write && !f.audit && !f.commit)
            && (r.Some? ==> after == db)
            && (r == Some(NotFound) <==> !f.begin && !f.read && id !in db.entities)
            && (r == None ==>
                  && after.entities.Keys == db.entities.Keys - {id}
                  && (forall x :: x in after.entities ==> after.entities[x] == db.entities[x])
                  && after.log == db.log + [Entry(Operation.Delete, id, Some(db.entities[id]), None)]
                  && after.next == db.next)
  {
    assert (forall x :: x in db.entities ==> db.entities[x].system != Some(id)) <==> !Referenced(db.entities, id);
  }

  /* ----- one item ----- */

  /** The row with the type and external identifier of the request, if there is one. */
  ghost predicate HasRow(db: Db, ctx: Context, req: CreateRequest, id: nat)
    requires req.typeName in ctx.types
  {
    id in db.entities && db.entities[id].typeId == ctx.types[req.typeName].id
    && db.entities[id].externalId == req.externalId
  }

  /** An item that may update is refused for the same reasons as a creation; otherwise it
      updates the row with its key, if there is one, and creates one for the caller's
      system if there is none. */
  lemma UpsertExactly(db: Db, ctx: Context, item: Item)
    requires UniqueKeys(db.entities)
    ensures var (after, r) := ItemSpec(db, ctx, Upsert, item);
            var rejected := Rejected(ctx, item.req, item.first.types);
            && (rejected.Some? ==> r == Failed(rejected.value) && after == db)
            && (rejected.None? && item.found ==> r == Failed(Internal) && after == db)
            && (rejected.None? && !item.found ==>
                  && item.req.typeName in ctx.types
                  && (forall id :: HasRow(db, ctx, item.req, id) ==>
                        var (db', e) := UpdateSpec(db, ctx, id, Some(PropertiesFor(item.req)), item.second);
                        after == db' && r == if e.Ok? then Changed else Failed(e.error))
                  && ((forall id :: !HasRow(db, ctx, item.req, id)) ==>
                        var (db', e) := CreateSpec(db, ctx, item.req.(system := SystemFor(ctx, item.req)), item.second);
                        after == db' && r == if e.Ok? then Made else Failed(e.error)))
  {
    CheckedIs(ctx, item.req, item.first);
    if Rejected(ctx, item.req, item.first.types).None? {
      var found := Find(db.entities, ctx.types[item.req.typeName].id, item.req.externalId);
      forall id | HasRow(db, ctx, item.req, id)
        ensures found == Some(id)
      {
        assert HasKey(db.entities[id], ctx.types[item.req.typeName].id, item.req.externalId);
      }
      if found.Some? {
        assert HasRow(db, ctx, item.req, found.value);
      }
    }
  }

  /* ----- systems over runs ----- */

  /** A row keeps its identifier, type, key, system and creation time. */
  predicate SameRow(was: Entity, row: Entity) {
    && row.id == was.id && row.typeId == was.typeId && row.typeName == was.typeName
    && row.externalId == was.externalId && row.system == was.system && row.created == was.created
  }

  /** Rows that were there are the same, and new ones are of the caller's system, if it
      has one. */
  ghost predicate WithinScope(before: Table, after: Table, caller: Option<nat>) {
    forall id :: id in after ==>
      if id in before then SameRow(before[id], after[id]) else caller.Some? ==> after[id].system == caller
  }

  lemma ItemWithinScope(db: Db, ctx: Context, mode: Mode, item: Item)
    requires IdsOk(db)
    ensures WithinScope(db.entities, ItemSpec(db, ctx, mode, item).0.entities, ctx.caller)
    ensures db.entities.Keys <= ItemSpec(db, ctx, mode, item).0.entities.Keys
  {
    CreateExactly(db, ctx, item.req, item.second);
    CheckedIs(ctx, item.req, item.first);
    CreateExactly(db, ctx, item.req.(system := SystemFor(ctx, item.req)), item.second);
  }

  /** Over a whole bulk request. */
  lemma {:induction false} BulkWithinScope(seed: Table, db: Db, ctx: Context, mode: Mode, items: seq<Item>, n: nat)
    requires Inv(seed, db) && n <= |items|
    ensures WithinScope(db.entities, BulkSpec(db, ctx, mode, items, n).0.entities, ctx.caller)
    ensures db.entities.Keys <= BulkSpec(db, ctx, mode, items, n).0.entities.Keys
  {
    if n > 0 {
      BulkWithinScope(seed, db, ctx, mode, items, n - 1);
      BulkKeeps(seed, db, ctx, mode, items, n - 1);
      ItemWithinScope(BulkSpec(db, ctx, mode, items, n - 1).0, ctx, mode, items[n - 1]);
    }
  }

  /** The caller of a call that can create rows. */
  function CreatorOf(c: Call): Option<Context> {
    match c
    case CreateCall(ctx, _, _) => Some(ctx)
    case BulkCall(ctx, _, _) => Some(ctx)
    case _ => None
  }

  /** The call may have created the row: it is one that creates, and the row is of its
      caller's system, if the caller has one. */
  predicate MayCreate(c: Call, row: Entity) {
    CreatorOf(c).Some? && (CreatorOf(c).value.caller.Some? ==> row.system == CreatorOf(c).value.caller)
  }

  lemma CallWithinScope(seed: Table, db: Db, c: Call, id: nat)
    requires Inv(seed, db) && id in Step(db, c).entities
    ensures var row := Step(db, c).entities[id];
            if id in db.entities then SameRow(db.entities[id], row) else MayCreate(c, row)
  {
    match c
    case CreateCall(ctx, req, f) => CreateExactly(db, ctx, req, f);
    case BulkCall(ctx, mode, items) => BulkWithinScope(seed, db, ctx, mode, items, |items|);
    case _ =>
  }

  /** After every run, each row is a seeded one, of the same system as then, or was
      created by a call whose caller, if it is one of a system, is of the row's. */
  lemma {:induction false} RowsInScope(seed: Table, next: nat, calls: seq<Call>, id: nat)
    requires SeedOk(seed, next) && id in Run(Db(seed, [], next), calls).entities
    ensures var row := Run(Db(seed, [], next), calls).entities[id];
            || (id in seed && SameRow(seed[id], row))
            || exists i :: 0 <= i < |calls| && MayCreate(calls[i], row)
  {
    if calls != [] {
      var n := |calls| - 1;
      var before := Run(Db(seed, [], next), calls[..n]);
      RunKeeps(seed, next, calls[..n]);
      CallWithinScope(seed, before, calls[n], id);
      if id in before.entities {
        RowsInScope(seed, next, calls[..n], id);
        var row, was := Run(Db(seed, [], next), calls).entities[id], before.entities[id];
        if i :| 0 <= i < n && MayCreate(calls[..n][i], was) {
          assert MayCreate(calls[i], row);
        }
      }
    }
  }

  /** In particular, callers of one system alone create rows of that system only. */
  lemma OneSystemOnly(seed: Table, next: nat, calls: seq<Call>, s: nat, id: nat)
    requires SeedOk(seed, next)
    requires forall c :: c in calls && CreatorOf(c).Some? ==> CreatorOf(c).value.caller == Some(s)
    requires id in Run(Db(seed, [], next), calls).entities
    ensures var row := Run(Db(seed, [], next), calls).entities[id];
            (id in seed && row.system == seed[id].system) || row.system == Some(s)
  {
    RowsInScope(seed, next, calls, id);
  }
}
