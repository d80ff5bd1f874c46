/** Entities and their audit log: every mutation runs in a transaction that also
    writes its audit record. */
module EntityAudit {
  import opened Text
  import opened MergeJson

  datatype Error = BadRequest | Forbidden | NotFound | Conflict | Internal

  datatype Scope = Global | SystemScoped

  datatype TypeDef = TypeDef(id: nat, schema: string, scope: Scope)

  datatype Entity = Entity(id: nat, typeId: nat, typeName: string, externalId: string, properties: Json,
                           system: Option<nat>, created: int, updated: int)

  type Table = map<nat, Entity>

  datatype Operation = Create | Update | Delete

  datatype Entry = Entry(operation: Operation, resource: nat, before: Option<Entity>, after: Option<Entity>)

  /** The database; identifiers from `next` on have never been used. */
  datatype Db = Db(entities: Table, log: seq<Entry>, next: nat)

  /** What a schema says about properties; `Unusable` when it does not compile. */
  datatype Verdict = Valid | Invalid | Unusable

  /** The caller's system, the type definitions, and the schema validator. */
  datatype Context = Context(caller: Option<nat>, types: map<string, TypeDef>, validate: (string, Json) -> Verdict)

  /** The steps of a call at which the database fails, and the clock. */
  datatype Faults = Faults(types: bool, begin: bool, read: bool, write: bool, audit: bool, commit: bool, now: int)

  datatype CreateRequest = CreateRequest(typeName: string, externalId: string, properties: Option<Json>,
                                         system: Option<nat>)

  /* ----- checks ----- */

  function ResolveType(ctx: Context, name: string, fails: bool): Result<TypeDef, Error> {
    if fails then Err(Internal) else if name in ctx.types then Ok(ctx.types[name]) else Err(BadRequest)
  }

  function EffectiveSystem(ctx: Context, system: Option<nat>): Result<Option<nat>, Error> {
    if ctx.caller.None? then Ok(system)
    else if system.Some? && system != ctx.caller then Err(Forbidden)
    else Ok(ctx.caller)
  }

  predicate ScopeOk(t: TypeDef, system: Option<nat>) {
    t.scope.SystemScoped? <==> system.Some?
  }

  function CheckProperties(ctx: Context, t: TypeDef, properties: Json): Option<Error> {
    match ctx.validate(t.schema, properties)
    case Valid => None
    case Invalid => Some(BadRequest)
    case Unusable => Some(Internal)
  }

  function OrObject(properties: Option<Json>): Json {
    if properties.Some? then properties.value else Obj(map[])
  }

  /** The row a request asks for, without identifier and times. */
  function Checked(ctx: Context, req: CreateRequest, f: Faults): Result<Entity, Error> {
    if req.typeName == "" || req.externalId == "" then Err(BadRequest)
    else
      match ResolveType(ctx, req.typeName, f.types)
      case Err(e) => Err(e)
      case Ok(t) =>
        match EffectiveSystem(ctx, req.system)
        case Err(e) => Err(e)
        case Ok(system) =>
          if !ScopeOk(t, system) then Err(BadRequest)
          else if CheckProperties(ctx, t, OrObject(req.properties)).Some?
              then Err(CheckProperties(ctx, t, OrObject(req.properties)).value)
          else Ok(Entity(0, t.id, req.typeName, req.externalId, OrObject(req.properties), system, 0, 0))
  }

  /* ----- the entity table ----- */

  predicate HasKey(e: Entity, typeId: nat, externalId: string) {
    e.typeId == typeId && e.externalId == externalId
  }

  predicate Taken(entities: Table, typeId: nat, externalId: string) {
    exists id :: id in entities && HasKey(entities[id], typeId, externalId)
  }

  /** Type and external identifier are a key. */
  ghost predicate UniqueKeys(entities: Table) {
    forall a, b {:trigger entities[a], entities[b]} ::
      a in entities && b in entities && HasKey(entities[a], entities[b].typeId, entities[b].externalId) ==> a == b
  }

  /** The row with a type and an external identifier. */
  ghost function Find(entities: Table, typeId: nat, externalId: string): Option<nat> {
    if id :| id in entities && HasKey(entities[id], typeId, externalId) then Some(id) else None
  }

  predicate Referenced(entities: Table, id: nat) {
    exists x :: x in entities && entities[x].system == Some(id)
  }

  /** Inserting fails if the system does not exist or the key is taken. */
  function Inserted(entities: Table, e: Entity): Result<Table, Error> {
    if e.system.Some? && e.system.value !in entities then Err(Internal)
    else if Taken(entities, e.typeId, e.externalId) then Err(Conflict)
    else Ok(entities[e.id := e])
  }

  /* ----- what each call does ----- */

  function CreatedRow(db: Db, e: Entity, now: int): Entity {
    e.(id := db.next, created := now, updated := now)
  }

  function CreateSpec(db: Db, ctx: Context, req: CreateRequest, f: Faults): (Db, Result<Entity, Error>) {
    match Checked(ctx, req, f)
    case Err(e) => (db, Err(e))
    case Ok(row) =>
      var e := CreatedRow(db, row, f.now);
      if f.begin || f.write then (db, Err(Internal))
      else
        match Inserted(db.entities, e)
        case Err(error) => (db, Err(error))
        case Ok(entities) =>
          if f.audit || f.commit then (db, Err(Internal))
          else (Db(entities, db.log + [Entry(Create, e.id, None, Some(e))], db.next + 1), Ok(e))
  }

  function UpdateSpec(db: Db, ctx: Context, id: nat, properties: Option<Json>, f: Faults): (Db, Result<Entity, Error>) {
    if properties.None? then (db, Err(BadRequest))
    else if f.begin || f.read then (db, Err(Internal))
    else if id !in db.entities then (db, Err(NotFound))
    else
      var existing := db.entities[id];
      match ResolveType(ctx, existing.typeName, f.types)
      case Err(e) => (db, Err(e))
      case Ok(t) =>
        if CheckProperties(ctx, t, properties.value).Some?
            then (db, Err(CheckProperties(ctx, t, properties.value).value))
        else if f.write || f.audit || f.commit then (db, Err(Internal))
        else
          var e := existing.(properties := properties.value, updated := f.now);
          (Db(db.entities[id := e], db.log + [Entry(Update, id, Some(existing), Some(e))], db.next), Ok(e))
  }

  function DeleteSpec(db: Db, id: nat, f: Faults): (Db, Option<Error>) {
    if f.begin || f.read then (db, Some(Internal))
    else if id !in db.entities then (db, Some(NotFound))
    else if f.write || Referenced(db.entities, id) || f.audit || f.commit then (db, Some(Internal))
    else (Db(db.entities - {id}, db.log + [Entry(Delete, id, Some(db.entities[id]), None)], db.next), None)
  }

  /* ----- bulk ----- */

  datatype Mode = CreateOnly | Upsert

  /** One item of a bulk request; `found` fails the lookup of an existing row. */
  datatype Item = Item(req: CreateRequest, first: Faults, found: bool, second: Faults)

  datatype ItemResult = Made | Changed | Failed(error: Error)

  ghost function ItemSpec(db: Db, ctx: Context, mode: Mode, item: Item): (Db, ItemResult) {
    if mode.CreateOnly? then
      var (db', r) := CreateSpec(db, ctx, item.req, item.second);
      (db', if r.Ok? then Made else Failed(r.error))
    else
      match Checked(ctx, item.req, item.first)
      case Err(e) => (db, Failed(e))
      case Ok(row) =>
        if item.found then (db, Failed(Internal))
        else
          match Find(db.entities, row.typeId, row.externalId)
          case Some(id) =>
            var (db', r) := UpdateSpec(db, ctx, id, Some(row.properties), item.second);
            (db', if r.Ok? then Changed else Failed(r.error))
          case None =>
            var (db', r) := CreateSpec(db, ctx, item.req.(system := row.system), item.second);
            (db', if r.Ok? then Made else Failed(r.error))
  }

  datatype ItemError = ItemError(index: nat, error: Error)

  datatype BulkResult = BulkResult(total: nat, created: nat, updated: nat, errors: seq<ItemError>)

  function Count(result: BulkResult, index: nat, r: ItemResult): BulkResult {
    match r
    case Made => result.(created := result.created + 1)
    case Changed => result.(updated := result.updated + 1)
    case Failed(e) => result.(errors := result.errors + [ItemError(index, e)])
  }

  /** The items one after the other, each on what the previous ones left. */
  ghost function BulkSpec(db: Db, ctx: Context, mode: Mode, items: seq<Item>, n: nat): (Db, BulkResult)
    requires n <= |items|
  {
    if n == 0 then (db, BulkResult(|items|, 0, 0, []))
    else
      var (before, result) := BulkSpec(db, ctx, mode, items, n - 1);
      var (after, r) := ItemSpec(before, ctx, mode, items[n - 1]);
      (after, Count(result, n - 1, r))
  }

  /* ----- the service ----- */

  class Service {
    var db: Db

    constructor (seed: Table, next: nat)
      ensures db == Db(seed, [], next)
    {
      db := Db(seed, [], next);
    }

    method Create(ctx: Context, req: CreateRequest, f: Faults) returns (r: Result<Entity, Error>)
      modifies this
      ensures (db, r) == CreateSpec(old(db), ctx, req, f)
    {
      if req.typeName == "" || req.externalId == "" {
        return Err(BadRequest);
      }
      var typeDef := ResolveType(ctx, req.typeName, f.types);
      if typeDef.Err? {
        return Err(typeDef.error);
      }
      var system := EffectiveSystem(ctx, req.system);
      if system.Err? {
        return Err(system.error);
      }
      if !ScopeOk(typeDef.value, system.value) {
        return Err(BadRequest);
      }
      var props := OrObject(req.properties);
      var invalid := CheckProperties(ctx, typeDef.value, props);
      if invalid.Some? {
        return Err(invalid.value);
      }
      if f.begin {
        return Err(Internal);
      }
      var tx := db;
      if f.write {
        return Err(Internal);
      }
      var e := Entity(tx.next, typeDef.value.id, req.typeName, req.externalId, props, system.value, f.now, f.now);
      var inserted := Inserted(tx.entities, e);
      if inserted.Err? {
        return Err(inserted.error);
      }
      tx := tx.(entities := inserted.value, next := tx.next + 1);
      if f.audit {
        return Err(Internal);
      }
      tx := tx.(log := tx.log + [Entry(Operation.Create, e.id, None, Some(e))]);
      if f.commit {
        return Err(Internal);
      }
      db := tx;
      r := Ok(e);
    }

    method Update(ctx: Context, id: nat, properties: Option<Json>, f: Faults) returns (r: Result<Entity, Error>)
      modifies this
      ensures (db, r) == UpdateSpec(old(db), ctx, id, properties, f)
    {
      if properties.None? {
        return Err(BadRequest);
      }
      if f.begin {
        return Err(Internal);
      }
      var tx := db;
      if f.read {
        return Err(Internal);
      }
      if id !in tx.entities {
        return Err(NotFound);
      }
      var existing := tx.entities[id];
      var typeDef := ResolveType(ctx, existing.typeName, f.types);
      if typeDef.Err? {
        return Err(typeDef.error);
      }
      var invalid := CheckProperties(ctx, typeDef.value, properties.value);
      if invalid.Some? {
        return Err(invalid.value);
      }
      var before := existing;
      existing := existing.(properties := properties.value);
      if f.write {
        return Err(Internal);
      }
      existing := existing.(updated := f.now);
      tx := tx.(entities := tx.entities[id := existing]);
      if f.audit {
        return Err(Internal);
      }
      tx := tx.(log := tx.log + [Entry(Operation.Update, id, Some(before), Some(existing))]);
      if f.commit {
        return Err(Internal);
      }
      db := tx;
      r := Ok(existing);
    }

    method Delete(id: nat, f: Faults) returns (error: Option<Error>)
      modifies this
      ensures (db, error) == DeleteSpec(old(db), id, f)
    {
      if f.begin {
        return Some(Internal);
      }
      var tx := db;
      if f.read {
        return Some(Internal);
      }
      if id !in tx.entities {
        return Some(NotFound);
      }
      var existing := tx.entities[id];
      if f.write || Referenced(tx.entities, id) {
        return Some(Internal);
      }
      tx := tx.(entities := tx.entities - {id});
      if f.audit {
        return Some(Internal);
      }
      tx := tx.(log := tx.log + [Entry(Operation.Delete, id, Some(existing), None)]);
      if f.commit {
        return Some(Internal);
      }
      db := tx;
      error := None;
    }

    /** `GetByTypeAndExternalID`. */
    method Lookup(typeId: nat, externalId: string) returns (id: Option<nat>)
      requires UniqueKeys(db.entities)
      ensures id == Find(db.entities, typeId, externalId)
    {
      id := None;
      if Taken(db.entities, typeId, externalId) {
        var x :| x in db.entities && HasKey(db.entities[x], typeId, externalId);
        id := Some(x);
      }
    }

    /** Whether the item was created; if not, it was updated. */
    method CreateOrUpdate(ctx: Context, item: Item) returns (r: Result<bool, Error>)
      requires UniqueKeys(db.entities)
      modifies this
      ensures (db, if r.Err? then Failed(r.error) else if r.value then Made else Changed)
              == ItemSpec(old(db), ctx, Upsert, item)
    {
      var req := item.req;
      if req.typeName == "" || req.externalId == "" {
        return Err(BadRequest);
      }
      var typeDef := ResolveType(ctx, req.typeName, item.first.types);
      if typeDef.Err? {
        return Err(typeDef.error);
      }
      var system := EffectiveSystem(ctx, req.system);
      if system.Err? {
        return Err(system.error);
      }
      req := req.(system := system.value);
      if !ScopeOk(typeDef.value, system.value) {
        return Err(BadRequest);
      }
      var props := OrObject(req.properties);
      var invalid := CheckProperties(ctx, typeDef.value, props);
      if invalid.Some? {
        return Err(invalid.value);
      }
      if item.found {
        return Err(Internal);
      }
      var existing := Lookup(typeDef.value.id, req.externalId);
      if existing.Some? {
        var updated := Update(ctx, existing.value, Some(props), item.second);
        return if updated.Ok? then Ok(false) else Err(updated.error);
      }
      var created := Create(ctx, req, item.second);
      r := if created.Ok? then Ok(true) else Err(created.error);
    }

    method BulkCreate(ctx: Context, modeName: string, items: seq<Item>) returns (r: Result<BulkResult, Error>)
      requires UniqueKeys(db.entities)
      modifies this
      ensures var known := modeName == "" || modeName == "create" || modeName == "upsert";
              && (items == [] || !known ==> r == Err(BadRequest) && db == old(db))
              && (items != [] && known ==>
                    var mode := if modeName == "upsert" then Upsert else CreateOnly;
                    r.Ok? && (db, r.value) == BulkSpec(old(db), ctx, mode, items, |items|))
    {
      if items == [] {
        return Err(BadRequest);
      }
      var mode := if modeName == "" then "create" else modeName;
      if mode != "create" && mode != "upsert" {
        return Err(BadRequest);
      }
      ghost var m := if modeName == "upsert" then Upsert else CreateOnly;
      var result := BulkResult(|items|, 0, 0, []);
      for i := 0 to |items|
        invariant UniqueKeys(db.entities) && (db, result) == BulkSpec(old(db), ctx, m, items, i)
      {
        ItemKeepsKeys(db, ctx, m, items[i]);
        if mode == "upsert" {
          var created := CreateOrUpdate(ctx, items[i]);
          if created.Err? {
            result := result.(errors := result.errors + [ItemError(i, created.error)]);
          } else if created.value {
            result := result.(created := result.created + 1);
          } else {
            result := result.(updated := result.updated + 1);
          }
        } else {
          var created := Create(ctx, items[i].req, items[i].second);
          if created.Err? {
            result := result.(errors := result.errors + [ItemError(i, created.error)]);
          } else {
            result := result.(created := result.created + 1);
          }
        }
      }
      r := Ok(result);
    }
  }

  lemma CreateKeepsKeys(db: Db, ctx: Context, req: CreateRequest, f: Faults)
    requires UniqueKeys(db.entities)
    ensures UniqueKeys(CreateSpec(db, ctx, req, f).0.entities)
  {
    var (db', r) := CreateSpec(db, ctx, req, f);
    if r.Ok? {
      var e := r.value;
      assert !Taken(db.entities, e.typeId, e.externalId);
      assert db'.entities == db.entities[e.id := e];
      forall id | id in db.entities
        ensures !HasKey(db.entities[id], e.typeId, e.externalId)
      {
      }
    }
  }

  lemma UpdateKeepsKeys(db: Db, ctx: Context, id: nat, properties: Option<Json>, f: Faults)
    requires UniqueKeys(db.entities)
    ensures UniqueKeys(UpdateSpec(db, ctx, id, properties, f).0.entities)
  {
  }

  lemma ItemKeepsKeys(db: Db, ctx: Context, mode: Mode, item: Item)
    requires UniqueKeys(db.entities)
    ensures UniqueKeys(ItemSpec(db, ctx, mode, item).0.entities)
  {
    CreateKeepsKeys(db, ctx, item.req, item.second);
    var checked := Checked(ctx, item.req, item.first);
    if mode.Upsert? && checked.Ok? {
      var row := checked.value;
      CreateKeepsKeys(db, ctx, item.req.(system := row.system), item.second);
      if id :| Find(db.entities, row.typeId, row.externalId) == Some(id) {
        UpdateKeepsKeys(db, ctx, id, Some(row.properties), item.second);
      }
    }
  }
}
