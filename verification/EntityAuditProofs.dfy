/** What the audit log says about the entity table, over every run of calls with
    arbitrary failures; and what a bulk result says. */
module EntityAuditProofs {
  import opened Text
  import opened MergeJson
  import opened EntityAudit

  /* ----- replay ----- */

  function Replayed(entities: Table, e: Entry): Table {
    if e.after.Some? then entities[e.resource := e.after.value] else entities - {e.resource}
  }

  /** The table that the log alone rebuilds from the seeded rows. */
  function Replay(seed: Table, log: seq<Entry>): Table {
    if log == [] then seed else Replayed(Replay(seed, log[..|log| - 1]), log[|log| - 1])
  }

  /** The latest logged value of a resource. */
  function LastAfter(seed: Table, log: seq<Entry>, id: nat): Option<Entity> {
    if log == [] then if id in seed then Some(seed[id]) else None
    else if log[|log| - 1].resource == id then log[|log| - 1].after
    else LastAfter(seed, log[..|log| - 1], id)
  }

  lemma {:induction false} LastAfterIsReplayed(seed: Table, log: seq<Entry>, id: nat)
    ensures var t := Replay(seed, log); LastAfter(seed, log, id) == if id in t then Some(t[id]) else None
  {
    if log != [] {
      LastAfterIsReplayed(seed, log[..|log| - 1], id);
    }
  }

  predicate Shaped(e: Entry) {
    match e.operation
    case Create => e.before.None? && e.after.Some?
    case Update => e.before.Some? && e.after.Some?
    case Delete => e.before.Some? && e.after.None?
  }

  /** Every entry starts from the value its resource had. */
  predicate Chained(seed: Table, log: seq<Entry>) {
    log != [] ==>
      var n := |log| - 1;
      Chained(seed, log[..n]) && Shaped(log[n]) && log[n].before == LastAfter(seed, log[..n], log[n].resource)
  }

  /* ----- the database over runs ----- */

  predicate IdsOk(db: Db) {
    forall id :: id in db.entities ==> id < db.next && db.entities[id].id == id
  }

  /** Every system that a row names exists. */
  predicate SystemsExist(entities: Table) {
    forall id :: id in entities && entities[id].system.Some? ==> entities[id].system.value in entities
  }

  ghost predicate Inv(seed: Table, db: Db) {
    && IdsOk(db) && UniqueKeys(db.entities) && SystemsExist(db.entities)
    && Replay(seed, db.log) == db.entities
    && Chained(seed, db.log)
  }

  datatype Call =
    | CreateCall(ctx: Context, req: CreateRequest, f: Faults)
    | UpdateCall(ctx: Context, id: nat, properties: Option<Json>, f: Faults)
    | DeleteCall(id: nat, f: Faults)
    | BulkCall(ctx: Context, mode: Mode, items: seq<Item>)

  ghost function Step(db: Db, c: Call): Db {
    match c
    case CreateCall(ctx, req, f) => CreateSpec(db, ctx, req, f).0
    case UpdateCall(ctx, id, properties, f) => UpdateSpec(db, ctx, id, properties, f).0
    case DeleteCall(id, f) => DeleteSpec(db, id, f).0
    case BulkCall(ctx, mode, items) => BulkSpec(db, ctx, mode, items, |items|).0
  }

  ghost function Run(db: Db, calls: seq<Call>): Db {
    if calls == [] then db else Step(Run(db, calls[..|calls| - 1]), calls[|calls| - 1])
  }

  /** One logged change of the table. */
  lemma LoggedStep(seed: Table, db: Db, e: Entry, next: nat)
    requires Inv(seed, db) && next >= db.next && e.resource < next && Shaped(e)
    requires e.before == (if e.resource in db.entities then Some(db.entities[e.resource]) else None)
    requires e.after.Some? ==> e.after.value.id == e.resource
    requires var t := Replayed(db.entities, e); UniqueKeys(t) && SystemsExist(t)
    ensures Inv(seed, Db(Replayed(db.entities, e), db.log + [e], next))
  {
    var log := db.log + [e];
    assert log[..|log| - 1] == db.log;
    LastAfterIsReplayed(seed, db.log, e.resource);
  }

  lemma CreateKeeps(seed: Table, db: Db, ctx: Context, req: CreateRequest, f: Faults)
    requires Inv(seed, db)
    ensures Inv(seed, CreateSpec(db, ctx, req, f).0)
  {
    var (db', r) := CreateSpec(db, ctx, req, f);
    if r.Ok? {
      CreateKeepsKeys(db, ctx, req, f);
      var e := r.value;
      assert db'.entities == db.entities[e.id := e];
      LoggedStep(seed, db, Entry(Operation.Create, e.id, None, Some(e)), db.next + 1);
    }
  }

  lemma UpdateKeeps(seed: Table, db: Db, ctx: Context, id: nat, properties: Option<Json>, f: Faults)
    requires Inv(seed, db)
    ensures Inv(seed, UpdateSpec(db, ctx, id, properties, f).0)
  {
    var (db', r) := UpdateSpec(db, ctx, id, properties, f);
    if r.Ok? {
      UpdateKeepsKeys(db, ctx, id, properties, f);
      LoggedStep(seed, db, Entry(Operation.Update, id, Some(db.entities[id]), Some(r.value)), db.next);
    }
  }

  lemma DeleteKeeps(seed: Table, db: Db, id: nat, f: Faults)
    requires Inv(seed, db)
    ensures Inv(seed, DeleteSpec(db, id, f).0)
  {
    if DeleteSpec(db, id, f).1.None? {
      LoggedStep(seed, db, Entry(Operation.Delete, id, Some(db.entities[id]), None), db.next);
    }
  }

  lemma ItemKeeps(seed: Table, db: Db, ctx: Context, mode: Mode, item: Item)
    requires Inv(seed, db)
    ensures Inv(seed, ItemSpec(db, ctx, mode, item).0)
  {
    CreateKeeps(seed, db, ctx, item.req, item.second);
    var checked := Checked(ctx, item.req, item.first);
    if mode.Upsert? && checked.Ok? {
      var row := checked.value;
      CreateKeeps(seed, db, ctx, item.req.(system := row.system), item.second);
      var found := Find(db.entities, row.typeId, row.externalId);
      if found.Some? {
        UpdateKeeps(seed, db, ctx, found.value, Some(row.properties), item.second);
      }
    }
  }

  lemma {:induction false} BulkKeeps(seed: Table, db: Db, ctx: Context, mode: Mode, items: seq<Item>, n: nat)
    requires Inv(seed, db) && n <= |items|
    ensures Inv(seed, BulkSpec(db, ctx, mode, items, n).0)
  {
    if n > 0 {
      BulkKeeps(seed, db, ctx, mode, items, n - 1);
      ItemKeeps(seed, BulkSpec(db, ctx, mode, items, n - 1).0, ctx, mode, items[n - 1]);
    }
  }

  /** What the migrations may seed. */
  ghost predicate SeedOk(seed: Table, next: nat) {
    IdsOk(Db(seed, [], next)) && UniqueKeys(seed) && SystemsExist(seed)
  }

  lemma {:induction false} RunKeeps(seed: Table, next: nat, calls: seq<Call>)
    requires SeedOk(seed, next)
    ensures Inv(seed, Run(Db(seed, [], next), calls))
  {
    if calls != [] {
      RunKeeps(seed, next, calls[..|calls| - 1]);
      var db := Run(Db(seed, [], next), calls[..|calls| - 1]);
      match calls[|calls| - 1]
      case CreateCall(ctx, req, f) => CreateKeeps(seed, db, ctx, req, f);
      case UpdateCall(ctx, id, properties, f) => UpdateKeeps(seed, db, ctx, id, properties, f);
      case DeleteCall(id, f) => DeleteKeeps(seed, db, id, f);
      case BulkCall(ctx, mode, items) => BulkKeeps(seed, db, ctx, mode, items, |items|);
    }
  }

  /** After every run, replaying the audit log over the seeded rows gives exactly the
      entity table; keys are unique and every named system exists. */
  lemma ReplayIsTable(seed: Table, next: nat, calls: seq<Call>)
    requires SeedOk(seed, next)
    ensures var db := Run(Db(seed, [], next), calls);
            Replay(seed, db.log) == db.entities && UniqueKeys(db.entities) && SystemsExist(db.entities)
  {
    RunKeeps(seed, next, calls);
  }

  lemma {:induction false} ChainedAt(seed: Table, log: seq<Entry>, i: nat)
    requires Chained(seed, log) && i < |log|
    ensures Shaped(log[i]) && log[i].before == LastAfter(seed, log[..i], log[i].resource)
  {
    if i < |log| - 1 {
      ChainedAt(seed, log[..|log| - 1], i);
      assert log[..|log| - 1][..i] == log[..i];
    }
  }

  /** After every run, each entry's before-value is the after-value of the same
      resource's previous entry, or its seeded row; absent exactly for a creation. */
  lemma BeforeIsPreviousAfter(seed: Table, next: nat, calls: seq<Call>, i: nat)
    requires SeedOk(seed, next) && i < |Run(Db(seed, [], next), calls).log|
    ensures var log := Run(Db(seed, [], next), calls).log;
            && log[i].before == LastAfter(seed, log[..i], log[i].resource)
            && (log[i].before.None? <==> log[i].operation.Create?)
            && (log[i].after.None? <==> log[i].operation.Delete?)
  {
    RunKeeps(seed, next, calls);
    ChainedAt(seed, Run(Db(seed, [], next), calls).log, i);
  }

  /** The log only grows. */
  lemma {:induction false} LogGrows(db: Db, calls: seq<Call>, n: nat)
    requires n <= |calls|
    ensures Run(db, calls[..n]).log <= Run(db, calls).log
    decreases |calls|
  {
    if n == |calls| {
      assert calls[..n] == calls;
    } else {
      var last := |calls| - 1;
      LogGrows(db, calls[..last], n);
      assert calls[..last][..n] == calls[..n];
      StepGrows(Run(db, calls[..last]), calls[last]);
    }
  }

  lemma StepGrows(db: Db, c: Call)
    ensures db.log <= Step(db, c).log
  {
    if c.BulkCall? {
      BulkGrows(db, c.ctx, c.mode, c.items, |c.items|);
    }
  }

  lemma {:induction false} BulkGrows(db: Db, ctx: Context, mode: Mode, items: seq<Item>, n: nat)
    requires n <= |items|
    ensures db.log <= BulkSpec(db, ctx, mode, items, n).0.log
  {
    if n > 0 {
      BulkGrows(db, ctx, mode, items, n - 1);
      ItemEffect(BulkSpec(db, ctx, mode, items, n - 1).0, ctx, mode, items[n - 1]);
    }
  }

  /* ----- bulk results ----- */

  /** What one item does to the log and the table: nothing, one creation, or one
      update. */
  lemma ItemEffect(db: Db, ctx: Context, mode: Mode, item: Item)
    ensures var (db', r) := ItemSpec(db, ctx, mode, item);
            && (r.Failed? ==> db' == db)
            && (!r.Failed? ==> |db'.log| == |db.log| + 1 && db'.log[..|db.log|] == db.log)
            && (r.Made? ==> db'.log[|db.log|].operation == Operation.Create)
            && (r.Changed? ==>
                  mode.Upsert? && db'.log[|db.log|].operation == Operation.Update
                  && db'.entities.Keys == db.entities.Keys)
            && (r.Made? && IdsOk(db) ==> |db'.entities| == |db.entities| + 1)
  {
    var (db', r) := ItemSpec(db, ctx, mode, item);
    if r.Made? && IdsOk(db) {
      assert db'.entities.Keys == db.entities.Keys + {db.next};
    }
  }

  predicate Increasing(errors: seq<ItemError>, n: nat) {
    errors != [] ==>
      var last := |errors| - 1;
      errors[last].index < n && Increasing(errors[..last], errors[last].index)
  }

  lemma {:induction false} IncreasingWeaker(errors: seq<ItemError>, n: nat, m: nat)
    requires Increasing(errors, n) && n <= m
    ensures Increasing(errors, m)
  {
  }

  lemma CountOne(result: BulkResult, index: nat, r: ItemResult)
    ensures var more := Count(result, index, r);
            && more.total == result.total
            && more.created + more.updated + |more.errors| == result.created + result.updated + |result.errors| + 1
            && more.created == result.created + (if r.Made? then 1 else 0)
            && more.updated == result.updated + (if r.Changed? then 1 else 0)
  {
  }

  lemma CountOrdered(result: BulkResult, index: nat, r: ItemResult)
    requires Increasing(result.errors, index)
    ensures Increasing(Count(result, index, r).errors, index + 1)
  {
    IncreasingWeaker(result.errors, index, index + 1);
    if r.Failed? {
      var errors := result.errors + [ItemError(index, r.error)];
      assert errors[..|errors| - 1] == result.errors;
    }
  }

  lemma {:induction false} BulkCounts(db: Db, ctx: Context, mode: Mode, items: seq<Item>, n: nat)
    requires n <= |items|
    ensures var r := BulkSpec(db, ctx, mode, items, n).1;
            r.total == |items| && r.created + r.updated + |r.errors| == n
  {
    if n > 0 {
      BulkCounts(db, ctx, mode, items, n - 1);
      var (before, r) := BulkSpec(db, ctx, mode, items, n - 1);
      CountOne(r, n - 1, ItemSpec(before, ctx, mode, items[n - 1]).1);
    }
  }

  lemma OrderedNext(db: Db, ctx: Context, mode: Mode, items: seq<Item>, m: nat)
    requires m < |items| && Increasing(BulkSpec(db, ctx, mode, items, m).1.errors, m)
    ensures Increasing(BulkSpec(db, ctx, mode, items, m + 1).1.errors, m + 1)
  {
    var (before, r) := BulkSpec(db, ctx, mode, items, m);
    var one := ItemSpec(before, ctx, mode, items[m]).1;
    CountOrdered(r, m, one);
    assert BulkSpec(db, ctx, mode, items, m + 1).1 == Count(r, m, one);
  }

  lemma {:induction false} BulkOrdered(db: Db, ctx: Context, mode: Mode, items: seq<Item>, n: nat)
    requires n <= |items|
    ensures Increasing(BulkSpec(db, ctx, mode, items, n).1.errors, n)
  {
    if n > 0 {
      BulkOrdered(db, ctx, mode, items, n - 1);
      OrderedNext(db, ctx, mode, items, n - 1);
    }
  }

  /** Each created or updated item is one log entry, and the table grows by the
      created ones. */
  predicate Conserved(db: Db, after: Db, r: BulkResult, mode: Mode) {
    && |after.log| == |db.log| + r.created + r.updated
    && |after.entities| == |db.entities| + r.created
    && (mode.CreateOnly? ==> r.updated == 0)
  }

  lemma ConservesMore(db: Db, before: Db, r: BulkResult, ctx: Context, mode: Mode, item: Item, index: nat)
    requires Conserved(db, before, r, mode) && IdsOk(before)
    ensures var (after, ir) := ItemSpec(before, ctx, mode, item); Conserved(db, after, Count(r, index, ir), mode)
  {
    ItemEffect(before, ctx, mode, item);
    CountOne(r, index, ItemSpec(before, ctx, mode, item).1);
  }

  ghost predicate BulkConserved(db: Db, ctx: Context, mode: Mode, items: seq<Item>, n: nat)
    requires n <= |items|
  {
    var (after, r) := BulkSpec(db, ctx, mode, items, n);
    Conserved(db, after, r, mode)
  }

  lemma ConservedNothing(db: Db, ctx: Context, mode: Mode, items: seq<Item>)
    ensures BulkConserved(db, ctx, mode, items, 0)
  {
  }

  lemma ConservedNext(seed: Table, db: Db, ctx: Context, mode: Mode, items: seq<Item>, n: nat)
    requires Inv(seed, db) && n < |items| && BulkConserved(db, ctx, mode, items, n)
    ensures BulkConserved(db, ctx, mode, items, n + 1)
  {
    BulkKeeps(seed, db, ctx, mode, items, n);
    var (before, r) := BulkSpec(db, ctx, mode, items, n);
    ConservesMore(db, before, r, ctx, mode, items[n], n);
  }

  lemma {:induction false} BulkConserves(seed: Table, db: Db, ctx: Context, mode: Mode, items: seq<Item>, n: nat)
    requires Inv(seed, db) && n <= |items|
    ensures BulkConserved(db, ctx, mode, items, n)
  {
    ConservedNothing(db, ctx, mode, items);
    if n > 0 {
      BulkConserves(seed, db, ctx, mode, items, n - 1);
      ConservedNext(seed, db, ctx, mode, items, n - 1);
    }
  }

  lemma {:induction false} IncreasingPairs(errors: seq<ItemError>, n: nat)
    requires Increasing(errors, n)
    ensures forall i, j :: 0 <= i < j < |errors| ==> errors[i].index < errors[j].index
    ensures forall i :: 0 <= i < |errors| ==> errors[i].index < n
  {
    if errors != [] {
      IncreasingPairs(errors[..|errors| - 1], errors[|errors| - 1].index);
    }
  }

  /** A bulk result accounts for every item: totals add up, each created or updated
      item is one log entry, the table grows by the created ones, and the errors are
      in the order of their items. */
  lemma BulkTotals(seed: Table, db: Db, ctx: Context, mode: Mode, items: seq<Item>)
    requires Inv(seed, db)
    ensures var (db', r) := BulkSpec(db, ctx, mode, items, |items|);
            && r.total == r.created + r.updated + |r.errors| == |items|
            && (forall i, j :: 0 <= i < j < |r.errors| ==> r.errors[i].index < r.errors[j].index)
            && (forall i :: 0 <= i < |r.errors| ==> r.errors[i].index < |items|)
            && |db'.log| - |db.log| == r.created + r.updated
            && |db'.entities| - |db.entities| == r.created
            && (mode.CreateOnly? ==> r.updated == 0)
  {
    BulkCounts(db, ctx, mode, items, |items|);
    BulkOrdered(db, ctx, mode, items, |items|);
    BulkConserves(seed, db, ctx, mode, items, |items|);
    IncreasingPairs(BulkSpec(db, ctx, mode, items, |items|).1.errors, |items|);
  }

  /** The errors are exactly the failing items, each with the error of that item on
      what the items before it left. */
  lemma {:induction false} ErrorsAreFailures(db: Db, ctx: Context, mode: Mode, items: seq<Item>, n: nat, e: ItemError)
    requires n <= |items|
    ensures e in BulkSpec(db, ctx, mode, items, n).1.errors <==>
            e.index < n && ItemSpec(BulkSpec(db, ctx, mode, items, e.index).0, ctx, mode, items[e.index]).1
                == Failed(e.error)
  {
    if n > 0 {
      ErrorsAreFailures(db, ctx, mode, items, n - 1, e);
    }
  }
}
