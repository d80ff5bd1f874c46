/** Whose identity a hit returns, after every sequence of calls of the cache and of the
    user service, for any provider names. */
module UserCacheRuns {
  import opened Text
  import opened GroupStore
  import opened UserService
  import opened UserCache
  import IdentityCache
  import IdentityCacheProofs

  /** One call of the cache or of the service; `Overwrite` is a committed Replace or
      Patch. */
  datatype Call =
    | Resolve(provider: string, subject: string, start: int, end: int)
    | Create(provider: string, u: UserInput, now: int)
    | Overwrite(l: Link, props: Props, now: int)
    | Delete(l: Link)

  datatype World<I> = World(db: Db, cache: Cached<I>)

  /** The calls are made for the providers `ps`. */
  predicate Enabled(ps: set<string>, db: Db, call: Call) {
    match call
    case Resolve(p, _, _, _) => p in ps
    case Create(p, u, now) => p in ps && CreateSpec(db, p, u, now).Ok?
    case Overwrite(l, _, _) => l.provider in ps && l in db.links && IsUserOf(db, l.provider, l.entity)
    case Delete(l) => l.provider in ps && l in db.links && DeleteSpec(db, l.provider, l.entity).Ok?
  }

  ghost function Next<I>(ps: set<string>, w: World<I>, who: Resolver<I>, cfg: IdentityCache.Config,
                         call: Call): World<I>
    requires Enabled(ps, w.db, call)
  {
    match call
    case Resolve(p, s, start, end) =>
      w.(cache := Resolved(w.cache, cfg, KeyOf(p, s), start, end, Answer(w.db, who, p, s)))
    case Create(p, u, now) => w.(db := CreateSpec(w.db, p, u, now).value)
    case Overwrite(l, props, now) =>
      World(Overwritten(w.db, l.entity, props, now), IdentityCache.Invalidate(w.cache, KeyOf(l.provider, l.subject)))
    case Delete(l) =>
      World(DeleteSpec(w.db, l.provider, l.entity).value,
            IdentityCache.Invalidate(w.cache, KeyOf(l.provider, l.subject)))
  }

  ghost function Run<I>(ps: set<string>, w: World<I>, who: Resolver<I>, cfg: IdentityCache.Config,
                        calls: seq<Call>): Option<World<I>> {
    if calls == [] then Some(w)
    else
      var before, last := Run(ps, w, who, cfg, calls[..|calls| - 1]), calls[|calls| - 1];
      if before.Some? && Enabled(ps, before.value.db, last) then Some(Next(ps, before.value, who, cfg, last)) else None
  }

  /** The link is one of the providers' and has the key, and the identity is its present
      answer. */
  ghost predicate Grounds<I>(ps: set<string>, db: Db, who: Resolver<I>, l: Link, key: string, identity: I) {
    && l.provider in ps && l in db.links && KeyOf(l.provider, l.subject) == key
    && Answer(db, who, l.provider, l.subject) == Some(identity)
  }

  /** Every cached identity is the present answer of a link with its key. */
  ghost predicate Grounded<I(!new)>(ps: set<string>, db: Db, who: Resolver<I>, c: Cached<I>) {
    forall k :: k in c.items ==> exists l :: Grounds(ps, db, who, l, k, c.items[k].identity)
  }

  ghost predicate Good<I(!new)>(ps: set<string>, w: World<I>, who: Resolver<I>) {
    DbOk(w.db) && OneLinkEach(w.db) && Grounded(ps, w.db, who, w.cache)
  }

  /* ----- what every call keeps ----- */

  lemma ResolveKeeps<I(!new)>(ps: set<string>, db: Db, who: Resolver<I>, c: Cached<I>, cfg: IdentityCache.Config,
                              provider: string, subject: string, start: int, end: int)
    requires provider in ps && Grounded(ps, db, who, c)
    ensures Grounded(ps, db, who,
                     Resolved(c, cfg, KeyOf(provider, subject), start, end, Answer(db, who, provider, subject)))
  {
    var answer, key := Answer(db, who, provider, subject), KeyOf(provider, subject);
    var c' := Resolved(c, cfg, key, start, end, answer);
    forall k | k in c'.items
      ensures exists l :: Grounds(ps, db, who, l, k, c'.items[k].identity)
    {
      ResolvedItems(c, cfg, key, start, end, answer, k);
      if k == key && Some(c'.items[k].identity) == answer {
        var l := LinkOfAnswer(db, who, provider, subject);
        assert Grounds(ps, db, who, l, k, c'.items[k].identity);
      } else {
        var l :| Grounds(ps, db, who, l, k, c.items[k].identity);
        assert Grounds(ps, db, who, l, k, c'.items[k].identity);
      }
    }
  }

  lemma CreateKeepsLink<I>(ps: set<string>, db: Db, who: Resolver<I>, l: Link, key: string, identity: I,
                           provider: string, u: UserInput, now: int)
    requires DbOk(db) && CreateSpec(db, provider, u, now).Ok? && Grounds(ps, db, who, l, key, identity)
    ensures Grounds(ps, CreateSpec(db, provider, u, now).value, who, l, key, identity)
  {
    CreatedOk(db, provider, u, now);
    CreatedFacts(db, provider, u, now, l.entity);
    AnswerOf(db, who, l);
    AnswerOf(CreateSpec(db, provider, u, now).value, who, l);
  }

  lemma CreateKeepsGrounds<I(!new)>(ps: set<string>, db: Db, who: Resolver<I>, c: Cached<I>, provider: string,
                                    u: UserInput, now: int)
    requires DbOk(db) && Grounded(ps, db, who, c) && CreateSpec(db, provider, u, now).Ok?
    ensures Grounded(ps, CreateSpec(db, provider, u, now).value, who, c)
  {
    forall k | k in c.items
      ensures exists l :: Grounds(ps, CreateSpec(db, provider, u, now).value, who, l, k, c.items[k].identity)
    {
      var l :| Grounds(ps, db, who, l, k, c.items[k].identity);
      CreateKeepsLink(ps, db, who, l, k, c.items[k].identity, provider, u, now);
    }
  }

  /** Whatever changes only the answers of one link, and drops its key, keeps the
      cache grounded. */
  lemma DropKeepsGrounds<I(!new)>(ps: set<string>, db: Db, after: Db, who: Resolver<I>, c: Cached<I>, l: Link)
    requires Grounded(ps, db, who, c)
    requires forall k :: k in db.links && k != l ==>
               k in after.links && Answer(after, who, k.provider, k.subject) == Answer(db, who, k.provider, k.subject)
    ensures Grounded(ps, after, who, IdentityCache.Invalidate(c, KeyOf(l.provider, l.subject)))
  {
    var key := KeyOf(l.provider, l.subject);
    var c' := IdentityCache.Invalidate(c, key);
    forall k | k in c'.items
      ensures exists m :: Grounds(ps, after, who, m, k, c'.items[k].identity)
    {
      InvalidatedItems(c, key, k);
      var m :| Grounds(ps, db, who, m, k, c.items[k].identity);
      assert Grounds(ps, after, who, m, k, c'.items[k].identity);
    }
  }

  lemma OverwriteKeepsGrounds<I(!new)>(ps: set<string>, db: Db, who: Resolver<I>, c: Cached<I>, l: Link, props: Props,
                                       now: int)
    requires DbOk(db) && OneLinkEach(db) && Grounded(ps, db, who, c) && l in db.links
    ensures Grounded(ps, Overwritten(db, l.entity, props, now), who,
                     IdentityCache.Invalidate(c, KeyOf(l.provider, l.subject)))
  {
    var after := Overwritten(db, l.entity, props, now);
    forall k | k in db.links && k != l
      ensures k in after.links && Answer(after, who, k.provider, k.subject) == Answer(db, who, k.provider, k.subject)
    {
      OverwrittenAnswer(db, who, l.entity, props, now, k.provider, k.subject);
    }
    DropKeepsGrounds(ps, db, after, who, c, l);
  }

  lemma DeleteKeepsGrounds<I(!new)>(ps: set<string>, db: Db, who: Resolver<I>, c: Cached<I>, l: Link)
    requires DbOk(db) && OneLinkEach(db) && Grounded(ps, db, who, c)
    requires l in db.links && DeleteSpec(db, l.provider, l.entity).Ok?
    ensures Grounded(ps, DeleteSpec(db, l.provider, l.entity).value, who,
                     IdentityCache.Invalidate(c, KeyOf(l.provider, l.subject)))
  {
    var after := DeleteSpec(db, l.provider, l.entity).value;
    forall k | k in db.links && k != l
      ensures k in after.links && Answer(after, who, k.provider, k.subject) == Answer(db, who, k.provider, k.subject)
    {
      DeletedAnswer(db, who, l.provider, l.entity, k);
    }
    DropKeepsGrounds(ps, db, after, who, c, l);
  }

  lemma NextKeeps<I(!new)>(ps: set<string>, w: World<I>, who: Resolver<I>, cfg: IdentityCache.Config, call: Call)
    requires Good(ps, w, who) && Enabled(ps, w.db, call)
    ensures Good(ps, Next(ps, w, who, cfg, call), who)
  {
    match call
    case Resolve(p, s, start, end) => ResolveKeeps(ps, w.db, who, w.cache, cfg, p, s, start, end);
    case Create(p, u, now) =>
      CreateKeepsGrounds(ps, w.db, who, w.cache, p, u, now);
      CreatedOk(w.db, p, u, now);
    case Overwrite(l, props, now) =>
      OverwriteKeepsGrounds(ps, w.db, who, w.cache, l, props, now);
      OverwrittenOk(w.db, l.entity, props, now);
    case Delete(l) =>
      DeleteKeepsGrounds(ps, w.db, who, w.cache, l);
      DeletedOk(w.db, l.provider, l.entity);
  }

  lemma {:induction false} RunKeeps<I(!new)>(ps: set<string>, w: World<I>, who: Resolver<I>, cfg: IdentityCache.Config,
                                             calls: seq<Call>)
    requires Good(ps, w, who) && Run(ps, w, who, cfg, calls).Some?
    ensures Good(ps, Run(ps, w, who, cfg, calls).value, who)
  {
    if calls != [] {
      var n := |calls| - 1;
      RunKeeps(ps, w, who, cfg, calls[..n]);
      NextKeeps(ps, Run(ps, w, who, cfg, calls[..n]).value, who, cfg, calls[n]);
    }
  }

  /* ----- hits ----- */

  ghost function After<I>(ps: set<string>, db: Db, who: Resolver<I>, cfg: IdentityCache.Config,
                          calls: seq<Call>): Option<World<I>> {
    Run(ps, World(db, IdentityCache.Fresh()), who, cfg, calls)
  }

  function Hit<I(==)>(w: World<I>, provider: string, subject: string, now: int): Option<I> {
    IdentityCache.Lookup(w.cache, KeyOf(provider, subject), now).found
  }

  /** From a fresh cache and entities with one link each, every hit after every run is
      the present answer of some link with the same key. */
  lemma HitsAreGrounded<I(!new)>(ps: set<string>, db: Db, who: Resolver<I>, cfg: IdentityCache.Config, calls: seq<Call>,
                                 provider: string, subject: string, now: int) returns (l: Link)
    requires DbOk(db) && OneLinkEach(db) && After(ps, db, who, cfg, calls).Some?
    requires Hit(After(ps, db, who, cfg, calls).value, provider, subject, now).Some?
    ensures var w := After(ps, db, who, cfg, calls).value;
            Grounds(ps, w.db, who, l, KeyOf(provider, subject), Hit(w, provider, subject, now).value)
  {
    RunKeeps(ps, World(db, IdentityCache.Fresh()), who, cfg, calls);
    var w, key := After(ps, db, who, cfg, calls).value, KeyOf(provider, subject);
    l :| Grounds(ps, w.db, who, l, key, w.cache.items[key].identity);
  }

  /** No two links have the key. */
  ghost predicate Unshared(db: Db, key: string) {
    forall l, m ::
      l in db.links && m in db.links && KeyOf(l.provider, l.subject) == key && KeyOf(m.provider, m.subject) == key ==>
      l == m
  }

  /** So where no two links share the pair's key, a hit is what the resolver would
      answer at that moment exactly if the pair has a link. */
  lemma UnsharedHits<I(!new)>(ps: set<string>, db: Db, who: Resolver<I>, cfg: IdentityCache.Config, calls: seq<Call>,
                              provider: string, subject: string, now: int)
    requires DbOk(db) && OneLinkEach(db) && After(ps, db, who, cfg, calls).Some?
    requires Unshared(After(ps, db, who, cfg, calls).value.db, KeyOf(provider, subject))
    ensures var w := After(ps, db, who, cfg, calls).value;
            var found := Hit(w, provider, subject, now);
            found.Some? ==> (found == Answer(w.db, who, provider, subject) <==>
                             SubjectTaken(w.db.links, provider, subject))
  {
    var w := After(ps, db, who, cfg, calls).value;
    if Hit(w, provider, subject, now).Some? {
      var l := HitsAreGrounded(ps, db, who, cfg, calls, provider, subject, now);
      if m :| m in w.db.links && m.provider == provider && m.subject == subject {
        assert l == m;
      } else {
        NoAnswer(w.db, who, provider, subject);
      }
    }
  }

  /** Where no provider's name continues another's with a colon, every hit is what the
      resolver would answer at that moment. */
  lemma HitsAreCurrent<I(!new)>(ps: set<string>, db: Db, who: Resolver<I>, cfg: IdentityCache.Config, calls: seq<Call>,
                                provider: string, subject: string, now: int)
    requires DbOk(db) && OneLinkEach(db) && Separate(ps) && provider in ps && After(ps, db, who, cfg, calls).Some?
    ensures var w := After(ps, db, who, cfg, calls).value;
            var found := Hit(w, provider, subject, now);
            found.Some? ==> found == Answer(w.db, who, provider, subject)
  {
    var w := After(ps, db, who, cfg, calls).value;
    if Hit(w, provider, subject, now).Some? {
      var l := HitsAreGrounded(ps, db, who, cfg, calls, provider, subject, now);
      UserCache.SameKey(ps, l.provider, l.subject, provider, subject);
    }
  }

  /** Every link is a user's, and the user is named after it: so it is with every user
      that the service creates. */
  ghost predicate OwnNames(db: Db) {
    forall l :: l in db.links ==> l.entity in db.entities && NamedAfter(db.entities[l.entity], l)
  }

  predicate NamedAfter(e: Entity, l: Link) {
    e.kind.User? && e.external == ExternalId(l.provider, l.subject)
  }

  lemma {:induction false} NamesStay<I>(ps: set<string>, w: World<I>, who: Resolver<I>, cfg: IdentityCache.Config,
                                        calls: seq<Call>)
    requires DbOk(w.db) && OwnNames(w.db) && Run(ps, w, who, cfg, calls).Some?
    ensures DbOk(Run(ps, w, who, cfg, calls).value.db) && OwnNames(Run(ps, w, who, cfg, calls).value.db)
  {
    if calls != [] {
      var n := |calls| - 1;
      NamesStay(ps, w, who, cfg, calls[..n]);
      NextNames(ps, Run(ps, w, who, cfg, calls[..n]).value, who, cfg, calls[n]);
    }
  }

  lemma NextNames<I>(ps: set<string>, w: World<I>, who: Resolver<I>, cfg: IdentityCache.Config, call: Call)
    requires DbOk(w.db) && OwnNames(w.db) && Enabled(ps, w.db, call)
    ensures DbOk(Next(ps, w, who, cfg, call).db) && OwnNames(Next(ps, w, who, cfg, call).db)
  {
    match call
    case Resolve(_, _, _, _) =>
    case Create(p, u, now) => CreatedOk(w.db, p, u, now);
    case Overwrite(l, props, now) => OverwrittenOk(w.db, l.entity, props, now);
    case Delete(l) => DeletedOk(w.db, l.provider, l.entity);
  }

  /** Then no two links share a key: the second user would have been refused. */
  lemma OwnKeys(db: Db, key: string)
    requires DbOk(db) && OneLinkEach(db) && OwnNames(db)
    ensures Unshared(db, key)
  {
    forall l, m | l in db.links && m in db.links && KeyOf(l.provider, l.subject) == key
                  && KeyOf(m.provider, m.subject) == key
      ensures l == m
    {
      IdentityCacheProofs.KeysCollide(l.provider, l.subject, m.provider, m.subject);
      ExternalIdsCollide(l.provider, l.subject, m.provider, m.subject);
      assert GroupStore.SameKey(db.entities[l.entity], db.entities[m.entity]);
    }
  }

  /** For any provider names: from users named after their links, a hit is what the
      resolver would answer at that moment exactly if the pair has a link. */
  lemma HitsExactly<I(!new)>(ps: set<string>, db: Db, who: Resolver<I>, cfg: IdentityCache.Config, calls: seq<Call>,
                             provider: string, subject: string, now: int)
    requires DbOk(db) && OneLinkEach(db) && OwnNames(db) && After(ps, db, who, cfg, calls).Some?
    ensures var w := After(ps, db, who, cfg, calls).value;
            var found := Hit(w, provider, subject, now);
            found.Some? ==> (found == Answer(w.db, who, provider, subject) <==>
                             SubjectTaken(w.db.links, provider, subject))
  {
    var start := World(db, IdentityCache.Fresh<I>());
    var w := After(ps, db, who, cfg, calls).value;
    RunKeeps(ps, start, who, cfg, calls);
    NamesStay(ps, start, who, cfg, calls);
    OwnKeys(w.db, KeyOf(provider, subject));
    UnsharedHits(ps, db, who, cfg, calls, provider, subject, now);
  }

  /* ----- hits that are not current ----- */

  const EmptyDb := Db(map[], {}, map[], [], 0)

  lemma EmptyOk()
    ensures DbOk(EmptyDb) && OneLinkEach(EmptyDb) && OwnNames(EmptyDb)
  {
  }

  /** The subject of the first provider that overlaps with subject `t` of the second. */
  function Overlapping(p: string, q: string, t: string): string
    requires p + ":" <= q
  {
    q[|p| + 1..] + ":" + t
  }

  lemma OverlappingKeys(p: string, q: string, t: string)
    requires p + ":" <= q
    ensures KeyOf(p, Overlapping(p, q, t)) == KeyOf(q, t) && p != q && Overlapping(p, q, t) != ""
  {
    IdentityCacheProofs.KeysCollide(p, Overlapping(p, q, t), q, t);
  }

  lemma TwoCalls<I>(ps: set<string>, db: Db, who: Resolver<I>, cfg: IdentityCache.Config, a: Call, b: Call)
    requires Enabled(ps, db, a) && Enabled(ps, Next(ps, World(db, IdentityCache.Fresh<I>()), who, cfg, a).db, b)
    ensures var w := World(db, IdentityCache.Fresh<I>());
            After(ps, db, who, cfg, [a, b]) == Some(Next(ps, Next(ps, w, who, cfg, a), who, cfg, b))
  {
    var w := World(db, IdentityCache.Fresh<I>());
    assert [a, b][..1] == [a] && [a][..0] == [];
    assert Run(ps, w, who, cfg, [a]) == Some(Next(ps, w, who, cfg, a));
  }

  /** A resolution into the fresh cache is hit under every pair with the same key. */
  lemma ResolvedHit<I>(db: Db, cfg: IdentityCache.Config, p: string, s: string, q: string, t: string, x: I)
    requires cfg.ttl > 0 && KeyOf(p, s) == KeyOf(q, t)
    ensures Hit(World(db, Resolved(IdentityCache.Fresh(), cfg, KeyOf(p, s), 0, 0, Some(x))), q, t, 0) == Some(x)
  {
  }

  /** A resolver that knows every entity by one identity, but the first by another. */
  function ByUser<I>(x: I, y: I): Resolver<I> {
    (p: string, s: string, e: nat, facts: Facts) => Some(if e == 0 then x else y)
  }

  /** From the empty database, with names that overlap: a user is created and resolved,
      and a pair that was never provisioned hits and gets that user's identity. */
  lemma UnlinkedHit<I(!new)>(ps: set<string>, p: string, q: string, t: string, u: UserInput, cfg: IdentityCache.Config,
                             x: I)
    requires p in ps && p + ":" <= q && cfg.ttl > 0
    requires u.userName != "" && u.externalId == Overlapping(p, q, t)
    ensures var who, calls := ByUser(x, x), [Create(p, u, 0), Resolve(p, u.externalId, 0, 0)];
            var w := After(ps, EmptyDb, who, cfg, calls);
            && w.Some? && Hit(w.value, q, t, 0) == Some(x)
            && !SubjectTaken(w.value.db.links, q, t) && Answer(w.value.db, who, q, t) == None
  {
    var who, s := ByUser(x, x), u.externalId;
    OverlappingKeys(p, q, t);
    EmptyOk();
    CreatedOk(EmptyDb, p, u, 0);
    var db := CreateSpec(EmptyDb, p, u, 0).value;
    AnswerOf(db, who, Link(0, p, s));
    TwoCalls(ps, EmptyDb, who, cfg, Create(p, u, 0), Resolve(p, s, 0, 0));
    ResolvedHit(db, cfg, p, s, q, t, x);
    NoAnswer(db, who, q, t);
  }

  /** What the bootstrap of an administrator writes: a user that is not named after its
      link. */
  function Bootstrapped(provider: string, subject: string, now: int): Db {
    var props: Props := map["active" := ScimPatch.Bool(true), "bootstrap" := ScimPatch.Bool(true),
                            "displayName" := JsonText("<bootstrap>")];
    Db(map[0 := Entity(User, "bootstrap:" + provider + ":" + subject, props, false, now, now)],
       {Link(0, provider, subject)},
       map[], [Entry(Created, 0, None, None)], 1)
  }

  /** After a bootstrap, with names that overlap: the other provider's pair can be
      created, and hits the administrator's identity in place of its own. */
  lemma ForeignHit<I(!new)>(ps: set<string>, p: string, q: string, u: UserInput, cfg: IdentityCache.Config, x: I, y: I)
    requires p in ps && q in ps && p + ":" <= q && x != y && cfg.ttl > 0 && u.userName != "" && u.externalId != ""
    ensures var s := Overlapping(p, q, u.externalId);
            var db, who := Bootstrapped(p, s, 0), ByUser(x, y);
            var w := After(ps, db, who, cfg, [Create(q, u, 0), Resolve(p, s, 0, 0)]);
            && DbOk(db) && OneLinkEach(db) && w.Some?
            && Answer(w.value.db, who, q, u.externalId) == Some(y) && Hit(w.value, q, u.externalId, 0) == Some(x)
  {
    var t := u.externalId;
    var s := Overlapping(p, q, t);
    var db, who := Bootstrapped(p, s, 0), ByUser(x, y);
    OverlappingKeys(p, q, t);
    assert db.entities[0].external[0] != ExternalId(q, t)[0];
    CreatedOk(db, q, u, 0);
    var after := CreateSpec(db, q, u, 0).value;
    AnswerOf(after, who, Link(0, p, s));
    AnswerOf(after, who, Link(1, q, t));
    TwoCalls(ps, db, who, cfg, Create(q, u, 0), Resolve(p, s, 0, 0));
    ResolvedHit(after, cfg, p, s, q, t, x);
  }
}
