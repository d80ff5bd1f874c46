/** Importing the same list twice: the second import only touches timestamps. */
module EntityUpsert {
  import opened Text
  import opened MergeJson
  import opened EntityAudit
  import opened EntityAuditProofs

  /** Rows carry the names and identifiers of the type definitions, and no two
      definitions share an identifier. */
  predicate Typed(entities: Table, ctx: Context) {
    && (forall id :: id in entities ==>
        entities[id].typeName in ctx.types && ctx.types[entities[id].typeName].id == entities[id].typeId)
    && forall a, b :: a in ctx.types && b in ctx.types && ctx.types[a].id == ctx.types[b].id ==> a == b
  }

  predicate NoFault(f: Faults) {
    !f.types && !f.begin && !f.read && !f.write && !f.audit && !f.commit
  }

  /** The same requests, without failures. */
  predicate Again(items: seq<Item>, again: seq<Item>) {
    && |again| == |items|
    && forall i :: 0 <= i < |items| ==>
       again[i].req == items[i].req && !again[i].found && NoFault(again[i].first) && NoFault(again[i].second)
  }

  /** The row an item asks for. */
  function Row(ctx: Context, item: Item): Result<Entity, Error> {
    Checked(ctx, item.req, item.first)
  }

  predicate Asks(ctx: Context, item: Item, typeId: nat, externalId: string) {
    Row(ctx, item).Ok? && HasKey(Row(ctx, item).value, typeId, externalId)
  }

  /** The properties that the last of the first `n` items with a key asks for. */
  function Wanted(ctx: Context, items: seq<Item>, n: nat, typeId: nat, externalId: string): Option<Json>
    requires n <= |items|
  {
    if n == 0 then None
    else if Asks(ctx, items[n - 1], typeId, externalId) then Some(Row(ctx, items[n - 1]).value.properties)
    else Wanted(ctx, items, n - 1, typeId, externalId)
  }

  /** Only properties and the update time differ. */
  predicate Kept(a: Entity, b: Entity) {
    b.(properties := a.properties, updated := a.updated) == a
  }

  predicate KeyTaken(db: Db, e: Entity) {
    Taken(db.entities, e.typeId, e.externalId)
  }

  /** What one successful upsert does to each row. */
  lemma ItemRows(db: Db, ctx: Context, item: Item, id: nat)
    requires IdsOk(db) && UniqueKeys(db.entities) && !ItemSpec(db, ctx, Upsert, item).1.Failed?
    ensures Row(ctx, item).Ok?
    ensures var t, t' := db.entities, ItemSpec(db, ctx, Upsert, item).0.entities;
            && (id in t ==> id in t' && Kept(t[id], t'[id]))
            && (id in t' ==> t'[id].properties == if Asks(ctx, item, t'[id].typeId, t'[id].externalId)
                then Row(ctx, item).value.properties
                                                  else if id in t then t[id].properties else t'[id].properties)
            && (id in t' && id !in t ==>
                Asks(ctx, item, t'[id].typeId, t'[id].externalId) && t'[id].typeName == item.req.typeName)
  {
    var row := Row(ctx, item).value;
    var (db', r) := ItemSpec(db, ctx, Upsert, item);
    var found := Find(db.entities, row.typeId, row.externalId);
    if found.Some? {
      assert db'.entities == db.entities[found.value := db'.entities[found.value]];
    } else {
      assert db'.entities == db.entities[db.next := db'.entities[db.next]];
      assert !Taken(db.entities, row.typeId, row.externalId);
    }
  }

  lemma ItemTakesKey(db: Db, ctx: Context, item: Item)
    requires UniqueKeys(db.entities) && !ItemSpec(db, ctx, Upsert, item).1.Failed?
    ensures Row(ctx, item).Ok? && KeyTaken(ItemSpec(db, ctx, Upsert, item).0, Row(ctx, item).value)
  {
    var row := Row(ctx, item).value;
    var db' := ItemSpec(db, ctx, Upsert, item).0;
    var found := Find(db.entities, row.typeId, row.externalId);
    if found.Some? {
      assert HasKey(db'.entities[found.value], row.typeId, row.externalId);
    } else {
      assert HasKey(db'.entities[db.next], row.typeId, row.externalId);
    }
  }

  lemma StaysTaken(db: Db, db': Db, e: Entity)
    requires KeyTaken(db, e)
    requires forall id :: id in db.entities ==> id in db'.entities && Kept(db.entities[id], db'.entities[id])
    ensures KeyTaken(db', e)
  {
    var id :| id in db.entities && HasKey(db.entities[id], e.typeId, e.externalId);
    assert HasKey(db'.entities[id], e.typeId, e.externalId);
  }

  ghost predicate Good(db: Db, ctx: Context) {
    IdsOk(db) && UniqueKeys(db.entities) && Typed(db.entities, ctx)
  }

  lemma ItemKeepsGood(db: Db, ctx: Context, item: Item)
    requires Good(db, ctx) && !ItemSpec(db, ctx, Upsert, item).1.Failed?
    ensures Good(ItemSpec(db, ctx, Upsert, item).0, ctx)
  {
    ItemKeepsKeys(db, ctx, Upsert, item);
    var t' := ItemSpec(db, ctx, Upsert, item).0.entities;
    forall id | id in t'
      ensures t'[id].typeName in ctx.types && ctx.types[t'[id].typeName].id == t'[id].typeId
    {
      ItemRows(db, ctx, item, id);
    }
  }

  /** The rows after an import of the first `n` items in which none failed: each
      row has the properties its last item asks for, and is otherwise as before. */
  ghost predicate Imported(before: Table, after: Table, ctx: Context, items: seq<Item>, n: nat)
    requires n <= |items|
  {
    && (forall id :: id in before ==> id in after && Kept(before[id], after[id]))
    && forall id :: id in after ==>
         match Wanted(ctx, items, n, after[id].typeId, after[id].externalId)
         case Some(p) => after[id].properties == p
         case None => id in before && after[id].properties == before[id].properties
  }

  lemma ImportStep(db: Db, mid: Db, ctx: Context, items: seq<Item>, n: nat)
    requires n < |items| && Imported(db.entities, mid.entities, ctx, items, n)
    requires IdsOk(mid) && UniqueKeys(mid.entities) && !ItemSpec(mid, ctx, Upsert, items[n]).1.Failed?
    ensures Imported(db.entities, ItemSpec(mid, ctx, Upsert, items[n]).0.entities, ctx, items, n + 1)
  {
    var after := ItemSpec(mid, ctx, Upsert, items[n]).0.entities;
    forall id | id in db.entities
      ensures id in after && Kept(db.entities[id], after[id])
    {
      ItemRows(mid, ctx, items[n], id);
    }
    forall id | id in after
      ensures match Wanted(ctx, items, n + 1, after[id].typeId, after[id].externalId)
              case Some(p) => after[id].properties == p
              case None => id in db.entities && after[id].properties == db.entities[id].properties
    {
      ItemRows(mid, ctx, items[n], id);
    }
  }

  /** Every one of the first `n` items has a row. */
  ghost predicate AllHaveRows(db: Db, ctx: Context, items: seq<Item>, n: nat)
    requires n <= |items|
  {
    forall i :: 0 <= i < n ==> Row(ctx, items[i]).Ok? && KeyTaken(db, Row(ctx, items[i]).value)
  }

  lemma ItemKeepsRows(mid: Db, ctx: Context, items: seq<Item>, n: nat)
    requires n < |items| && Good(mid, ctx) && AllHaveRows(mid, ctx, items, n)
             && !ItemSpec(mid, ctx, Upsert, items[n]).1.Failed?
    ensures AllHaveRows(ItemSpec(mid, ctx, Upsert, items[n]).0, ctx, items, n + 1)
  {
    var db' := ItemSpec(mid, ctx, Upsert, items[n]).0;
    ItemTakesKey(mid, ctx, items[n]);
    forall id | id in mid.entities
      ensures id in db'.entities && Kept(mid.entities[id], db'.entities[id])
    {
      ItemRows(mid, ctx, items[n], id);
    }
    forall i | 0 <= i < n
      ensures KeyTaken(db', Row(ctx, items[i]).value)
    {
      StaysTaken(mid, db', Row(ctx, items[i]).value);
    }
  }

  /** The first `n` items are imported, and each has a row. */
  ghost predicate ImportedOk(db: Db, after: Db, ctx: Context, items: seq<Item>, n: nat)
    requires n <= |items|
  {
    Good(after, ctx) && Imported(db.entities, after.entities, ctx, items, n) && AllHaveRows(after, ctx, items, n)
  }

  lemma ImportNext(db: Db, mid: Db, ctx: Context, items: seq<Item>, n: nat)
    requires n < |items| && ImportedOk(db, mid, ctx, items, n) && !ItemSpec(mid, ctx, Upsert, items[n]).1.Failed?
    ensures ImportedOk(db, ItemSpec(mid, ctx, Upsert, items[n]).0, ctx, items, n + 1)
  {
    ImportStep(db, mid, ctx, items, n);
    ItemKeepsGood(mid, ctx, items[n]);
    ItemKeepsRows(mid, ctx, items, n);
  }

  ghost predicate NoErrors(db: Db, ctx: Context, items: seq<Item>, n: nat)
    requires n <= |items|
  {
    BulkSpec(db, ctx, Upsert, items, n).1.errors == []
  }

  ghost predicate ImportOk(db: Db, ctx: Context, items: seq<Item>, n: nat)
    requires n <= |items|
  {
    ImportedOk(db, BulkSpec(db, ctx, Upsert, items, n).0, ctx, items, n)
  }

  lemma NoErrorsBefore(db: Db, ctx: Context, items: seq<Item>, n: nat)
    requires 0 < n <= |items| && NoErrors(db, ctx, items, n)
    ensures NoErrors(db, ctx, items, n - 1)
  {
  }

  lemma ImportNothing(db: Db, ctx: Context, items: seq<Item>)
    requires Good(db, ctx)
    ensures ImportOk(db, ctx, items, 0)
  {
  }

  /** The last item of an import without errors. */
  lemma LastItem(db: Db, ctx: Context, items: seq<Item>, n: nat) returns (mid: Db, after: Db)
    requires 0 < n <= |items| && NoErrors(db, ctx, items, n)
    ensures mid == BulkSpec(db, ctx, Upsert, items, n - 1).0 && after == BulkSpec(db, ctx, Upsert, items, n).0
    ensures !ItemSpec(mid, ctx, Upsert, items[n - 1]).1.Failed? && after == ItemSpec(mid, ctx, Upsert, items[n - 1]).0
  {
    mid, after := BulkSpec(db, ctx, Upsert, items, n - 1).0, BulkSpec(db, ctx, Upsert, items, n).0;
  }

  lemma ImportMore(db: Db, ctx: Context, items: seq<Item>, n: nat, mid: Db, after: Db)
    requires 0 < n <= |items| && ImportedOk(db, mid, ctx, items, n - 1)
    requires !ItemSpec(mid, ctx, Upsert, items[n - 1]).1.Failed? && after == ItemSpec(mid, ctx, Upsert, items[n - 1]).0
    ensures ImportedOk(db, after, ctx, items, n)
  {
    var m := n - 1;
    ImportNext(db, mid, ctx, items, m);
  }

  /** An upsert import without errors is last-writer-wins, and afterwards every item
      has a row. */
  lemma {:induction false} ImportWithoutErrors(db: Db, ctx: Context, items: seq<Item>, n: nat)
    requires Good(db, ctx) && n <= |items| && NoErrors(db, ctx, items, n)
    ensures ImportOk(db, ctx, items, n)
  {
    if n == 0 {
      ImportNothing(db, ctx, items);
    } else {
      NoErrorsBefore(db, ctx, items, n);
      ImportWithoutErrors(db, ctx, items, n - 1);
      var mid, after := LastItem(db, ctx, items, n);
      ImportMore(db, ctx, items, n, mid, after);
    }
  }

  /** Upserting an item that has a row, without failures, updates that row. */
  lemma SecondItem(db: Db, ctx: Context, item: Item)
    requires Good(db, ctx)
    requires Row(ctx, item).Ok? && KeyTaken(db, Row(ctx, item).value) && !item.found && NoFault(item.second)
    ensures var (db', r) := ItemSpec(db, ctx, Upsert, item); r.Changed? && db'.entities.Keys == db.entities.Keys
  {
    var row := Row(ctx, item).value;
    var id := Find(db.entities, row.typeId, row.externalId).value;
    assert ctx.types[row.typeName].id == row.typeId;
    assert db.entities[id].typeName == row.typeName;
  }

  predicate Faultless(items: seq<Item>) {
    forall i :: 0 <= i < |items| ==> !items[i].found && NoFault(items[i].second)
  }

  /** An import that only updated: its result, and the rows it left. */
  ghost predicate OnlyUpdated(db: Db, after: Db, r: BulkResult, ctx: Context, items: seq<Item>, n: nat)
    requires n <= |items|
  {
    && r == BulkResult(|items|, 0, n, [])
    && after.entities.Keys == db.entities.Keys
    && Imported(db.entities, after.entities, ctx, items, n)
    && Good(after, ctx)
  }

  lemma SecondStep(db: Db, mid: Db, r: BulkResult, ctx: Context, items: seq<Item>, n: nat)
    requires n < |items| && AllHaveRows(db, ctx, items, |items|) && Faultless(items)
    requires OnlyUpdated(db, mid, r, ctx, items, n)
    ensures var (after, ir) := ItemSpec(mid, ctx, Upsert, items[n]);
            OnlyUpdated(db, after, Count(r, n, ir), ctx, items, n + 1)
  {
    StaysTaken(db, mid, Row(ctx, items[n]).value);
    SecondItem(mid, ctx, items[n]);
    ImportStep(db, mid, ctx, items, n);
    ItemKeepsGood(mid, ctx, items[n]);
  }

  ghost predicate SecondOk(db: Db, ctx: Context, items: seq<Item>, n: nat)
    requires n <= |items|
  {
    var (after, r) := BulkSpec(db, ctx, Upsert, items, n);
    OnlyUpdated(db, after, r, ctx, items, n)
  }

  lemma NothingYet(db: Db, ctx: Context, items: seq<Item>)
    requires Good(db, ctx)
    ensures SecondOk(db, ctx, items, 0)
  {
  }

  lemma SecondMore(db: Db, ctx: Context, items: seq<Item>, n: nat)
    requires n < |items| && AllHaveRows(db, ctx, items, |items|) && Faultless(items) && SecondOk(db, ctx, items, n)
    ensures SecondOk(db, ctx, items, n + 1)
  {
    var (mid, r) := BulkSpec(db, ctx, Upsert, items, n);
    SecondStep(db, mid, r, ctx, items, n);
  }

  lemma {:induction false} SecondImport(db: Db, ctx: Context, items: seq<Item>, n: nat)
    requires Good(db, ctx) && n <= |items| && AllHaveRows(db, ctx, items, |items|) && Faultless(items)
    ensures SecondOk(db, ctx, items, n)
  {
    if n == 0 {
      NothingYet(db, ctx, items);
    } else {
      var m := n - 1;
      SecondImport(db, ctx, items, m);
      SecondMore(db, ctx, items, m);
    }
  }

  lemma {:induction false} WantedAgain(ctx: Context, items: seq<Item>, again: seq<Item>, n: nat, typeId: nat,
                                       externalId: string)
    requires |again| == |items| && n <= |items|
    requires forall i :: 0 <= i < |items| ==> Row(ctx, again[i]) == Row(ctx, items[i])
    ensures Wanted(ctx, again, n, typeId, externalId) == Wanted(ctx, items, n, typeId, externalId)
  {
    if n > 0 {
      WantedAgain(ctx, items, again, n - 1, typeId, externalId);
    }
  }

  lemma SameRows(ctx: Context, items: seq<Item>, again: seq<Item>)
    requires Again(items, again) && forall i :: 0 <= i < |items| ==> Row(ctx, items[i]).Ok?
    ensures forall i :: 0 <= i < |items| ==> Row(ctx, again[i]) == Row(ctx, items[i])
    ensures Faultless(again)
  {
  }

  lemma SameRow(ctx: Context, items: seq<Item>, again: seq<Item>, before: Table, once: Table, twice: Table, id: nat)
    requires |again| == |items| && forall i :: 0 <= i < |items| ==> Row(ctx, again[i]) == Row(ctx, items[i])
    requires Imported(before, once, ctx, items, |items|) && Imported(once, twice, ctx, again, |again|) && id in once
    ensures id in twice && twice[id].(updated := once[id].updated) == once[id]
  {
    assert Kept(once[id], twice[id]);
    WantedAgain(ctx, items, again, |items|, once[id].typeId, once[id].externalId);
  }

  /** The second import, given what the first one left. */
  lemma {:induction false} Second(before: Db, once: Db, ctx: Context, items: seq<Item>, again: seq<Item>)
    requires Again(items, again) && Good(once, ctx) && Imported(before.entities, once.entities, ctx, items, |items|)
    requires AllHaveRows(once, ctx, items, |items|)
    ensures var (twice, r) := BulkSpec(once, ctx, Upsert, again, |again|);
            && r == BulkResult(|items|, 0, |items|, [])
            && twice.entities.Keys == once.entities.Keys
            && forall id :: id in once.entities ==>
               twice.entities[id].(updated := once.entities[id].updated) == once.entities[id]
  {
    SameRows(ctx, items, again);
    assert AllHaveRows(once, ctx, again, |again|);
    SecondImport(once, ctx, again, |again|);
    var twice := BulkSpec(once, ctx, Upsert, again, |again|).0;
    forall id | id in once.entities
      ensures twice.entities[id].(updated := once.entities[id].updated) == once.entities[id]
    {
      SameRow(ctx, items, again, before.entities, once.entities, twice.entities, id);
    }
  }

  /** An upsert import is idempotent: after one without errors, the same list again
      creates nothing, updates every item, and leaves every row as it was except for
      its update time. */
  lemma {:induction false} UpsertTwice(db: Db, ctx: Context, items: seq<Item>, again: seq<Item>)
    requires Good(db, ctx) && Again(items, again) && BulkSpec(db, ctx, Upsert, items, |items|).1.errors == []
    ensures var once := BulkSpec(db, ctx, Upsert, items, |items|).0;
            var (twice, r) := BulkSpec(once, ctx, Upsert, again, |again|);
            && r == BulkResult(|items|, 0, |items|, [])
            && twice.entities.Keys == once.entities.Keys
            && forall id :: id in once.entities ==>
               twice.entities[id].(updated := once.entities[id].updated) == once.entities[id]
  {
    ImportWithoutErrors(db, ctx, items, |items|);
    Second(db, BulkSpec(db, ctx, Upsert, items, |items|).0, ctx, items, again);
  }
}
