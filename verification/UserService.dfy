/** The user service: a transaction, its audit record, the commit, and then the
    invalidation of the user's cached identity. */
module UserService {
  import opened Text
  import opened ScimGrammar
  import opened ScimPatch
  import opened UserPatch
  import opened GroupStore
  import IdentityCache

  /** The inbound user. */
  datatype UserInput = UserInput(userName: string, externalId: string, displayName: string, formatted: string,
                                 emails: seq<Email>, active: Option<bool>)

  /* ----- properties ----- */

  function JsonText(s: string): ScimPatch.Json {
    ScimPatch.Json.Str(s)
  }

  function ShownName(u: UserInput): string {
    if u.displayName != "" then u.displayName else u.formatted
  }

  function ToProperties(u: UserInput): Props {
    var required: Props := map["userName" := JsonText(u.userName), "active" := Bool(u.active.Some? ==> u.active.value)];
    var named := if ShownName(u) != "" then required["displayName" := JsonText(ShownName(u))] else required;
    if PrimaryEmail(u.emails) != "" then named["email" := JsonText(PrimaryEmail(u.emails))] else named
  }

  /* ----- what the operations do ----- */

  predicate IsUserOf(db: Db, provider: string, id: nat) {
    id in db.entities && db.entities[id].kind.User? && LinkedTo(db.links, provider, id)
  }

  predicate UserTaken(entities: map<nat, Entity>, external: string) {
    exists id :: id in entities && entities[id].kind.User? && entities[id].external == external
  }

  /** A new user would collide with a row. */
  predicate Taken(db: Db, provider: string, subject: string) {
    UserTaken(db.entities, ExternalId(provider, subject)) || SubjectTaken(db.links, provider, subject)
  }

  function Recorded(db: Db, entry: Entry): Db {
    db.(log := db.log + [entry])
  }

  function WithUser(db: Db, provider: string, subject: string, props: Props, now: int): Db {
    db.(entities := db.entities[db.next := Entity(User, ExternalId(provider, subject), props, false, now, now)],
        links := db.links + {Link(db.next, provider, subject)},
        next := db.next + 1)
  }

  function WithProps(db: Db, id: nat, props: Props, now: int): Db
    requires id in db.entities
  {
    db.(entities := db.entities[id := db.entities[id].(props := props, updated := now)])
  }

  function CreateSpec(db: Db, provider: string, u: UserInput, now: int): Result<Db, Error> {
    if u.userName == "" then Err(UserNameRequired)
    else if u.externalId == "" then Err(ExternalIdRequired)
    else if Taken(db, provider, u.externalId) then Err(AlreadyExists)
    else Ok(Recorded(WithUser(db, provider, u.externalId, ToProperties(u), now),
                     Entry(Created, db.next, None, Some(ToProperties(u)))))
  }

  function Overwritten(db: Db, id: nat, props: Props, now: int): Db
    requires id in db.entities
  {
    Recorded(WithProps(db, id, props, now), Entry(Changed, id, Some(db.entities[id].props), Some(props)))
  }

  function ReplaceSpec(db: Db, provider: string, id: nat, u: UserInput, now: int): Result<Db, Error> {
    if u.userName == "" then Err(UserNameRequired)
    else if !IsUserOf(db, provider, id) then Err(NotFound)
    else Ok(Overwritten(db, id, ToProperties(u), now))
  }

  /** The user name of a property map is a string; it may be empty. */
  predicate HasUserName(props: Props) {
    "userName" in props && props["userName"].Str?
  }

  /** Patching, if the patch leads to the properties `p`. */
  function PatchSpec(db: Db, provider: string, id: nat, ops: seq<PatchOp>, now: int,
                     p: Result<Props, PatchError>): Result<Db, Error> {
    if !IsUserOf(db, provider, id) then Err(NotFound)
    else if ops == [] then Ok(db)
    else if p.Err? then Err(BadPatch(p.error))
    else if !HasUserName(p.value) then Err(UserNameRequired)
    else Ok(Overwritten(db, id, p.value, now))
  }

  function DeleteSpec(db: Db, provider: string, id: nat): Result<Db, Error> {
    if !IsUserOf(db, provider, id) then Err(NotFound)
    else Ok(Recorded(WithoutLink(db, provider, id), Entry(Deleted, id, Some(db.entities[id].props), None)))
  }

  /** After one user has been created, another that would have been created before is
      refused exactly if the two pairs share an external identifier: they are the same,
      or one provider's name continues the other's with a colon. */
  lemma ConflictExactly(db: Db, q: string, first: UserInput, p: string, u: UserInput, now: int, later: int)
    requires DbOk(db) && CreateSpec(db, q, first, now).Ok? && CreateSpec(db, p, u, now).Ok?
    ensures CreateSpec(CreateSpec(db, q, first, now).value, p, u, later) == Err(AlreadyExists) <==>
            (p == q && u.externalId == first.externalId) || Overlap(p, u.externalId, q, first.externalId)
                || Overlap(q, first.externalId, p, u.externalId)
  {
    var after := CreateSpec(db, q, first, now).value;
    var mine, s, t := ExternalId(p, u.externalId), u.externalId, first.externalId;
    ExternalIdsCollide(p, s, q, t);
    assert after.entities[db.next].external == ExternalId(q, t);
    assert UserTaken(after.entities, mine) <==> mine == ExternalId(q, t) by {
      if id :| id in after.entities && after.entities[id].kind.User? && after.entities[id].external == mine {
        assert !UserTaken(db.entities, mine) && id == db.next;
      }
    }
    assert Link(db.next, q, t) in after.links;
    assert SubjectTaken(after.links, p, s) <==> p == q && s == t;
  }

  /* ----- how many statements they take ----- */

  function InsertStatements(db: Db, provider: string, subject: string): nat {
    if UserTaken(db.entities, ExternalId(provider, subject)) then 1 else 2
  }

  /** BEGIN, the two inserts, the audit record and COMMIT. */
  function CreateCost(db: Db, provider: string, u: UserInput): nat {
    if u.userName == "" || u.externalId == "" then 0
    else 1 + InsertStatements(db, provider, u.externalId) + if Taken(db, provider, u.externalId) then 0 else 2
  }

  /** BEGIN and the reading; then, unless the call ends there, `more`. */
  function ReadThen(db: Db, provider: string, id: nat, more: nat): nat {
    2 + if IsUserOf(db, provider, id) then more else 0
  }

  function ReplaceCost(db: Db, provider: string, id: nat, u: UserInput): nat {
    if u.userName == "" then 0 else ReadThen(db, provider, id, 3)
  }

  function PatchCost(db: Db, provider: string, id: nat, ops: seq<PatchOp>, p: Result<Props, PatchError>): nat {
    if ops == [] then 1 else ReadThen(db, provider, id, if p.Ok? && HasUserName(p.value) then 3 else 0)
  }

  function DeleteCost(db: Db, provider: string, id: nat): nat {
    ReadThen(db, provider, id, 4)
  }

  /* ----- the repository ----- */

  /** A stored user: its properties and one of its subjects at the provider. */
  datatype StoredUser = StoredUser(props: Props, subject: string)

  method GetByEntityId(tx: Tx, provider: string, id: nat) returns (r: Result<StoredUser, Error>)
    modifies tx`good
    ensures tx.good == Spent(old(tx.good), 1)
    ensures r.Ok? <==> old(tx.good) > 0 && IsUserOf(tx.Rows(), provider, id)
    ensures r.Ok? ==> r.value.props == tx.entities[id].props && Link(id, provider, r.value.subject) in tx.links
    ensures r.Err? ==> r.error == Within(old(tx.good), 1, NotFound, Internal)
  {
    var ok := tx.Statement();
    if !ok {
      return Err(Internal);
    }
    if !(id in tx.entities && tx.entities[id].kind.User? && LinkedTo(tx.links, provider, id)) {
      return Err(NotFound);
    }
    var l :| l in tx.links && l.entity == id && l.provider == provider;
    r := Ok(StoredUser(tx.entities[id].props, l.subject));
  }

  method InsertUser(tx: Tx, provider: string, subject: string, props: Props, now: int) returns (r: Result<nat, Error>)
    modifies tx`entities, tx`links, tx`next, tx`good
    ensures var n := InsertStatements(old(tx.Rows()), provider, subject);
            && tx.good == Spent(old(tx.good), n)
            && r == Within(old(tx.good), n, if Taken(old(tx.Rows()), provider, subject) then Err(AlreadyExists)
                           else Ok(old(tx.next)), Err(Internal))
    ensures r.Ok? ==> tx.Rows() == WithUser(old(tx.Rows()), provider, subject, props, now)
  {
    var ok := tx.Statement();
    if !ok {
      return Err(Internal);
    }
    if UserTaken(tx.entities, ExternalId(provider, subject)) {
      return Err(AlreadyExists);
    }
    var id := tx.next;
    tx.entities := tx.entities[id := Entity(User, ExternalId(provider, subject), props, false, now, now)];
    tx.next := id + 1;
    ok := tx.Statement();
    if !ok {
      return Err(Internal);
    }
    if SubjectTaken(tx.links, provider, subject) {
      return Err(AlreadyExists);
    }
    tx.links := tx.links + {Link(id, provider, subject)};
    r := Ok(id);
  }

  method UpdateUser(tx: Tx, provider: string, id: nat, props: Props, now: int) returns (r: Option<Error>)
    modifies tx`entities, tx`good
    ensures tx.good == Spent(old(tx.good), 1)
    ensures r == Within(old(tx.good), 1, if IsUserOf(old(tx.Rows()), provider, id) then None
                        else Some(NotFound), Some(Internal))
    ensures r.None? ==> tx.Rows() == WithProps(old(tx.Rows()), id, props, now)
  {
    var ok := tx.Statement();
    if !ok {
      return Some(Internal);
    }
    if !(id in tx.entities && tx.entities[id].kind.User? && LinkedTo(tx.links, provider, id)) {
      return Some(NotFound);
    }
    tx.entities := tx.entities[id := tx.entities[id].(props := props, updated := now)];
    r := None;
  }

  method DeleteUser(tx: Tx, provider: string, id: nat) returns (r: Option<Error>)
    modifies tx`entities, tx`links, tx`relations, tx`good
    ensures var n := if LinkedTo(old(tx.links), provider, id) then 2 else 1;
            && tx.good == Spent(old(tx.good), n)
            && r == Within(old(tx.good), n, if LinkedTo(old(tx.links), provider, id) then None
                           else Some(NotFound), Some(Internal))
    ensures r.None? ==> tx.Rows() == WithoutLink(old(tx.Rows()), provider, id)
  {
    r := tx.DeleteLinks(provider, id);
    if r.Some? {
      return;
    }
    var ok := tx.DeleteUnlinked(id);
    r := if ok then None else Some(Internal);
  }

  /* ----- the service ----- */

  /** Each call is given the number of statements that the database carries out
      before it fails. */
  class Service<I(==)> {
    var db: Db
    const cache: IdentityCache.Cache<I>

    constructor (d: Db, c: IdentityCache.Cache<I>)
      ensures db == d && cache == c
    {
      db, cache := d, c;
    }

    /** The audit record and the commit. */
    method Finish(tx: Tx, entry: Entry) returns (r: Option<Error>)
      modifies this`db, tx`log, tx`good
      ensures (r, db) == Ended(Ok(Recorded(old(tx.Rows()), entry)), 2, old(tx.good), old(db))
    {
      var ok := tx.Audit(entry);
      if !ok {
        return Some(Internal);
      }
      ok := tx.Statement();
      if !ok {
        return Some(Internal);
      }
      db := tx.Rows();
      r := None;
    }

    method Create(provider: string, u: UserInput, now: int, statements: nat) returns (r: Option<Error>)
      modifies this`db
      ensures (r, db) == Ended(CreateSpec(old(db), provider, u, now), CreateCost(old(db), provider, u), statements,
                               old(db))
    {
      if u.userName == "" {
        return Some(UserNameRequired);
      }
      if u.externalId == "" {
        return Some(ExternalIdRequired);
      }
      var props := ToProperties(u);
      var tx := new Tx(db, statements);
      var ok := tx.Statement();
      if !ok {
        return Some(Internal);
      }
      var stored := InsertUser(tx, provider, u.externalId, props, now);
      if stored.Err? {
        return Some(stored.error);
      }
      r := Finish(tx, Entry(Created, stored.value, None, Some(props)));
    }

    /** BEGIN and the reading of the user that Replace, Patch and Delete start with. */
    method Begin(provider: string, id: nat, statements: nat) returns (tx: Tx, before: Result<StoredUser, Error>)
      ensures fresh(tx) && tx.Rows() == db && tx.good == Spent(statements, 2)
      ensures before.Ok? <==> 2 <= statements && IsUserOf(db, provider, id)
      ensures before.Ok? ==>
              before.value.props == db.entities[id].props && Link(id, provider, before.value.subject) in db.links
      ensures before.Err? ==> before.error == Within(statements, 2, NotFound, Internal)
    {
      tx := new Tx(db, statements);
      var ok := tx.Statement();
      if !ok {
        return tx, Err(Internal);
      }
      before := GetByEntityId(tx, provider, id);
    }

    /** The end of Replace and Patch: update, audit, commit, invalidate. */
    method Overwrite(tx: Tx, provider: string, id: nat, before: StoredUser, props: Props, now: int)
      returns (r: Option<Error>)
      requires tx.Rows() == db && IsUserOf(db, provider, id) && before.props == db.entities[id].props
      modifies this`db, tx, cache
      ensures (r, db) == Ended(Ok(Overwritten(old(db), id, props, now)), 3, old(tx.good), old(db))
      ensures cache.Now() == if r.None?
              then IdentityCache.Invalidate(old(cache.Now()), IdentityCache.KeyOf(provider, before.subject))
              else old(cache.Now())
    {
      r := UpdateUser(tx, provider, id, props, now);
      if r.Some? {
        return;
      }
      r := Finish(tx, Entry(Changed, id, Some(before.props), Some(props)));
      if r.Some? {
        return;
      }
      cache.InvalidateStep(IdentityCache.KeyOf(provider, before.subject));
    }

    /** `subject` is the one under which the user was read. */
    method Replace(provider: string, id: nat, u: UserInput, now: int, statements: nat)
      returns (r: Option<Error>, ghost subject: string)
      modifies this`db, cache
      ensures (r, db) == Ended(ReplaceSpec(old(db), provider, id, u, now), ReplaceCost(old(db), provider, id, u),
                               statements, old(db))
      ensures r.None? ==> Link(id, provider, subject) in old(db).links
      ensures cache.Now() == if r.None?
              then IdentityCache.Invalidate(old(cache.Now()), IdentityCache.KeyOf(provider, subject))
              else old(cache.Now())
    {
      subject := "";
      if u.userName == "" {
        return Some(UserNameRequired), subject;
      }
      var tx, before := Begin(provider, id, statements);
      if before.Err? {
        return Some(before.error), subject;
      }
      subject := before.value.subject;
      r := Overwrite(tx, provider, id, before.value, ToProperties(u), now);
    }

    /** `p` is what the patch led to, once the user has been read. A patch without
        operations only reads. */
    method Patch(provider: string, id: nat, ops: seq<PatchOp>, number: FloatParser, uuid: string -> Option<nat>,
                 now: int, statements: nat)
      returns (r: Option<Error>, ghost subject: string, ghost p: Result<Props, PatchError>)
      modifies this`db, cache
      ensures ops != [] && IsUserOf(old(db), provider, id) && 2 <= statements ==>
                PatchOutcome(Users(), Standard(number, uuid), old(db).entities[id].props, ops, p)
      ensures (r, db) == Ended(PatchSpec(old(db), provider, id, ops, now, p), PatchCost(old(db), provider, id, ops, p),
                               statements, old(db))
      ensures r.None? && ops != [] ==> Link(id, provider, subject) in old(db).links
      ensures cache.Now() == if r.None? && ops != []
              then IdentityCache.Invalidate(old(cache.Now()), IdentityCache.KeyOf(provider, subject))
              else old(cache.Now())
    {
      subject, p := "", Err(PatchError(0, NoTarget));
      if |ops| == 0 {
        var q := new Tx(db, statements);
        var found := GetByEntityId(q, provider, id);
        r := if found.Err? then Some(found.error) else None;
        return;
      }
      var tx, before := Begin(provider, id, statements);
      if before.Err? {
        return Some(before.error), subject, p;
      }
      subject := before.value.subject;
      var newProps := ApplyPatch(before.value.props, ops, number, uuid);
      p := newProps;
      if newProps.Err? {
        return Some(BadPatch(newProps.error)), subject, p;
      }
      if !HasUserName(newProps.value) {
        return Some(UserNameRequired), subject, p;
      }
      r := Overwrite(tx, provider, id, before.value, newProps.value, now);
    }

    method Delete(provider: string, id: nat, statements: nat) returns (r: Option<Error>, ghost subject: string)
      modifies this`db, cache
      ensures (r, db) == Ended(DeleteSpec(old(db), provider, id), DeleteCost(old(db), provider, id), statements,
                               old(db))
      ensures r.None? ==> Link(id, provider, subject) in old(db).links
      ensures cache.Now() == if r.None?
              then IdentityCache.Invalidate(old(cache.Now()), IdentityCache.KeyOf(provider, subject))
              else old(cache.Now())
    {
      subject := "";
      var tx, before := Begin(provider, id, statements);
      if before.Err? {
        return Some(before.error), subject;
      }
      subject := before.value.subject;
      r := DeleteUser(tx, provider, id);
      if r.Some? {
        return;
      }
      r := Finish(tx, Entry(Deleted, id, Some(before.value.props), None));
      if r.None? {
        cache.InvalidateStep(IdentityCache.KeyOf(provider, before.value.subject));
      }
    }
  }
}
