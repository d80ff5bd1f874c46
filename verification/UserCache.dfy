/** The identity cache beside the user service, one call at a time: a cached identity
    is the one the resolver would give now. The resolver is any function of the link,
    the user's properties and the relations that start at the user. */
module UserCache {
  import opened Text
  import opened GroupStore
  import opened UserService
  import IdentityCache
  import IdentityCacheProofs
  import IdentityCacheSequential

  type Cached<I> = IdentityCache.State<I>

  /** What the resolver reads of an entity. Relations to users play no part. */
  datatype Facts = Facts(props: Props, relations: set<Relation>)

  type Resolver<!I> = (string, string, nat, Facts) -> Option<I>

  function FactsOf(db: Db, id: nat): Facts
    requires id in db.entities
  {
    Facts(db.entities[id].props, set r | r in db.relations && r.subject == id
          && !(r.target in db.entities && db.entities[r.target].kind.User?))
  }

  /** The resolver's answer now; none if it fails. */
  ghost function Answer<I>(db: Db, who: Resolver<I>, provider: string, subject: string): Option<I> {
    if l :| l in db.links && l.provider == provider && l.subject == subject then
      if l.entity in db.entities then who(provider, subject, l.entity, FactsOf(db, l.entity)) else None
    else None
  }

  function KeyOf(provider: string, subject: string): string {
    IdentityCache.KeyOf(provider, subject)
  }

  /** Every cached identity of a pair of the providers `ps` is the resolver's present
      answer. */
  ghost predicate Coherent<I(!new)>(ps: set<string>, db: Db, who: Resolver<I>, c: Cached<I>) {
    forall p, s :: p in ps && KeyOf(p, s) in c.items ==> Answer(db, who, p, s) == Some(c.items[KeyOf(p, s)].identity)
  }

  /** No provider's name is another's with a colon and more. */
  predicate Separate(ps: set<string>) {
    forall p, q :: p in ps && q in ps ==> !(p + ":" <= q)
  }

  lemma SameKey(ps: set<string>, p: string, s: string, q: string, t: string)
    requires Separate(ps) && p in ps && q in ps
    ensures KeyOf(p, s) == KeyOf(q, t) <==> p == q && s == t
  {
    IdentityCacheProofs.KeysCollide(p, s, q, t);
  }

  /* ----- the resolver's answers ----- */

  lemma AnswerOf<I>(db: Db, who: Resolver<I>, l: Link)
    requires DbOk(db) && l in db.links
    ensures Answer(db, who, l.provider, l.subject) == who(l.provider, l.subject, l.entity, FactsOf(db, l.entity))
  {
  }

  lemma NoAnswer<I>(db: Db, who: Resolver<I>, provider: string, subject: string)
    requires !SubjectTaken(db.links, provider, subject)
    ensures Answer(db, who, provider, subject) == None
  {
  }

  /** The link of a pair that has an answer. */
  lemma LinkOfAnswer<I>(db: Db, who: Resolver<I>, provider: string, subject: string) returns (l: Link)
    requires Answer(db, who, provider, subject).Some?
    ensures l in db.links && l.provider == provider && l.subject == subject
  {
    l :| l in db.links && l.provider == provider && l.subject == subject;
  }

  /* ----- the cache ----- */

  function Resolved<I(==)>(c: Cached<I>, cfg: IdentityCache.Config, key: string, start: int, end: int,
                           answer: Option<I>): Cached<I> {
    IdentityCacheSequential.Apply(c, cfg, IdentityCacheSequential.ResolveOp(key, start, end, answer))
  }

  /** Resolving adds at most the answer for its own key. */
  lemma ResolvedItems<I>(c: Cached<I>, cfg: IdentityCache.Config, key: string, start: int, end: int, answer: Option<I>,
                         k: string)
    requires k in Resolved(c, cfg, key, start, end, answer).items
    ensures var c' := Resolved(c, cfg, key, start, end, answer);
            (k in c.items && c'.items[k].identity == c.items[k].identity)
                || (k == key && Some(c'.items[k].identity) == answer)
  {
    IdentityCacheProofs.EvictItems(IdentityCache.Lookup(c, key, start).state, cfg.capacity);
  }

  /** The answer for one pair is an answer for every pair with the same key; the cache
      stays coherent exactly if the resolver agrees. */
  lemma ResolveExactly<I(!new)>(ps: set<string>, db: Db, who: Resolver<I>, c: Cached<I>, cfg: IdentityCache.Config,
                                provider: string, subject: string, start: int, end: int)
    requires provider in ps && Coherent(ps, db, who, c)
    ensures var answer := Answer(db, who, provider, subject);
            var c' := Resolved(c, cfg, KeyOf(provider, subject), start, end, answer);
            Coherent(ps, db, who, c') <==>
            forall q, t ::
              q in ps && (Overlap(provider, subject, q, t) || Overlap(q, t, provider, subject))
              && KeyOf(provider, subject) in c'.items ==>
              Answer(db, who, q, t) == answer
  {
    var answer, key := Answer(db, who, provider, subject), KeyOf(provider, subject);
    var c' := Resolved(c, cfg, key, start, end, answer);
    forall q, t | q in ps && KeyOf(q, t) in c'.items
      ensures KeyOf(q, t) != key ==> Answer(db, who, q, t) == Some(c'.items[KeyOf(q, t)].identity)
      ensures KeyOf(q, t) == key ==> Some(c'.items[key].identity) == answer
    {
      ResolvedItems(c, cfg, key, start, end, answer, KeyOf(q, t));
    }
    forall q, t
      ensures KeyOf(q, t) == key <==>
              (q == provider && t == subject) || Overlap(provider, subject, q, t) || Overlap(q, t, provider, subject)
    {
      IdentityCacheProofs.KeysCollide(provider, subject, q, t);
    }
  }

  /* ----- the user operations ----- */

  /** Another link of the same entity, cached under another key. */
  predicate OtherCached<I>(ps: set<string>, db: Db, c: Cached<I>, l: Link, other: Link) {
    && other in db.links && other.entity == l.entity && other.provider in ps
    && KeyOf(other.provider, other.subject) != KeyOf(l.provider, l.subject)
       && KeyOf(other.provider, other.subject) in c.items
  }

  lemma OthersFacts(db: Db, id: nat, props: Props, now: int, other: nat)
    requires DbOk(db) && id in db.entities && other in db.entities && other != id
    ensures FactsOf(Overwritten(db, id, props, now), other) == FactsOf(db, other)
  {
  }

  /** Whose answers an overwritten user can change: only those of its own links. */
  lemma OverwrittenAnswer<I>(db: Db, who: Resolver<I>, id: nat, props: Props, now: int, p: string, s: string)
    requires DbOk(db) && id in db.entities && Link(id, p, s) !in db.links
    ensures Answer(Overwritten(db, id, props, now), who, p, s) == Answer(db, who, p, s)
  {
    var after := Overwritten(db, id, props, now);
    if l :| l in db.links && l.provider == p && l.subject == s {
      AnswerOf(db, who, l);
      assert DbOk(after);
      AnswerOf(after, who, l);
      OthersFacts(db, id, props, now, l.entity);
    }
  }

  lemma OverwrittenOk(db: Db, id: nat, props: Props, now: int)
    requires DbOk(db) && id in db.entities
    ensures DbOk(Overwritten(db, id, props, now))
  {
  }

  /** Invalidating drops one key. */
  lemma InvalidatedItems<I>(c: Cached<I>, key: string, k: string)
    ensures var c' := IdentityCache.Invalidate(c, key);
            (k in c'.items <==> k in c.items && k != key) && (k in c'.items ==> c'.items[k] == c.items[k])
  {
  }

  /** Replace and Patch invalidate the subject they read. The cache is coherent after
      that exactly if no other cached link of the user has a new answer. */
  lemma OverwriteExactly<I(!new)>(ps: set<string>, db: Db, who: Resolver<I>, c: Cached<I>, l: Link, props: Props,
                                  now: int)
    requires DbOk(db) && l in db.links && Coherent(ps, db, who, c)
    ensures var after := Overwritten(db, l.entity, props, now);
            Coherent(ps, after, who, IdentityCache.Invalidate(c, KeyOf(l.provider, l.subject))) <==>
            forall other :: OtherCached(ps, db, c, l, other) ==>
                Answer(after, who, other.provider, other.subject) == Answer(db, who, other.provider, other.subject)
  {
    var after, key := Overwritten(db, l.entity, props, now), KeyOf(l.provider, l.subject);
    var c' := IdentityCache.Invalidate(c, key);
    forall p, s | p in ps
      ensures KeyOf(p, s) in c'.items <==> KeyOf(p, s) in c.items && KeyOf(p, s) != key
      ensures KeyOf(p, s) in c'.items ==> c'.items[KeyOf(p, s)] == c.items[KeyOf(p, s)]
      ensures Link(l.entity, p, s) !in db.links ==> Answer(after, who, p, s) == Answer(db, who, p, s)
    {
      InvalidatedItems(c, key, KeyOf(p, s));
      if Link(l.entity, p, s) !in db.links {
        OverwrittenAnswer(db, who, l.entity, props, now, p, s);
      }
    }
    if Coherent(ps, after, who, c') {
      forall other | OtherCached(ps, db, c, l, other)
        ensures Answer(after, who, other.provider, other.subject) == Answer(db, who, other.provider, other.subject)
      {
        assert KeyOf(other.provider, other.subject) in c'.items;
      }
    }
    if forall other :: OtherCached(ps, db, c, l, other) ==>
        Answer(after, who, other.provider, other.subject) == Answer(db, who, other.provider, other.subject) {
      forall p, s | p in ps && KeyOf(p, s) in c'.items
        ensures Answer(after, who, p, s) == Some(c'.items[KeyOf(p, s)].identity)
      {
        assert OtherCached(ps, db, c, l, Link(l.entity, p, s)) <==> Link(l.entity, p, s) in db.links;
      }
    }
  }

  /** Only pairs with a link are cached. */
  ghost predicate AllLinked<I>(ps: set<string>, db: Db, c: Cached<I>) {
    forall p, s :: p in ps && KeyOf(p, s) in c.items ==> SubjectTaken(db.links, p, s)
  }

  /** The resolver that gives what is cached, as long as nothing about the user
      changes. */
  function Recalling<I>(db: Db, c: Cached<I>): Resolver<I> {
    (p: string, s: string, e: nat, facts: Facts) =>
      if KeyOf(p, s) in c.items && e in db.entities && facts == FactsOf(db, e) then Some(c.items[KeyOf(p, s)].identity)
          else None
  }

  lemma RecallsAll<I(!new)>(ps: set<string>, db: Db, c: Cached<I>)
    requires DbOk(db) && AllLinked(ps, db, c)
    ensures Coherent(ps, db, Recalling(db, c), c)
  {
    forall p, s | p in ps && KeyOf(p, s) in c.items
      ensures Answer(db, Recalling(db, c), p, s) == Some(c.items[KeyOf(p, s)].identity)
    {
      var l :| l in db.links && l.provider == p && l.subject == s;
      AnswerOf(db, Recalling(db, c), l);
    }
  }

  /** Whether Replace and Patch are safe for every resolver: exactly if no other link
      of the user is cached, or the properties are the old ones. */
  lemma OverwriteSafely<I(!new)>(ps: set<string>, db: Db, c: Cached<I>, l: Link, props: Props, now: int)
    requires DbOk(db) && l in db.links && AllLinked(ps, db, c)
    ensures (forall who: Resolver<I> :: Coherent(ps, db, who, c) ==>
                  Coherent(ps, Overwritten(db, l.entity, props, now), who,
                           IdentityCache.Invalidate(c, KeyOf(l.provider, l.subject)))) <==>
            props == db.entities[l.entity].props || !exists other :: OtherCached(ps, db, c, l, other)
  {
    var after, c' := Overwritten(db, l.entity, props, now), IdentityCache.Invalidate(c, KeyOf(l.provider, l.subject));
    OverwrittenOk(db, l.entity, props, now);
    if other :| props != db.entities[l.entity].props && OtherCached(ps, db, c, l, other) {
      var who := Recalling(db, c);
      RecallsAll(ps, db, c);
      OverwriteExactly(ps, db, who, c, l, props, now);
      AnswerOf(db, who, other);
      AnswerOf(after, who, other);
      assert FactsOf(after, l.entity).props != FactsOf(db, l.entity).props;
      assert !Coherent(ps, after, who, c');
    } else {
      forall who: Resolver<I> | Coherent(ps, db, who, c)
        ensures Coherent(ps, after, who, c')
      {
        OverwriteExactly(ps, db, who, c, l, props, now);
        forall other | OtherCached(ps, db, c, l, other)
          ensures Answer(after, who, other.provider, other.subject) == Answer(db, who, other.provider, other.subject)
        {
          AnswerOf(db, who, other);
          AnswerOf(after, who, other);
          SameFacts(db, l.entity, props, now);
        }
      }
    }
  }

  lemma SameFacts(db: Db, id: nat, props: Props, now: int)
    requires id in db.entities && props == db.entities[id].props
    ensures FactsOf(Overwritten(db, id, props, now), id) == FactsOf(db, id)
  {
    var after := Overwritten(db, id, props, now);
    forall e
      ensures e in after.entities && after.entities[e].kind.User? <==> e in db.entities && db.entities[e].kind.User?
    {
    }
  }

  lemma CreatedFacts(db: Db, provider: string, u: UserInput, now: int, id: nat)
    requires DbOk(db) && CreateSpec(db, provider, u, now).Ok? && id in db.entities
    ensures FactsOf(CreateSpec(db, provider, u, now).value, id) == FactsOf(db, id)
  {
    var after := CreateSpec(db, provider, u, now).value;
    forall r | r in db.relations
      ensures r.target in after.entities && after.entities[r.target] == db.entities[r.target]
    {
    }
  }

  lemma CreatedOk(db: Db, provider: string, u: UserInput, now: int)
    requires DbOk(db) && CreateSpec(db, provider, u, now).Ok?
    ensures DbOk(CreateSpec(db, provider, u, now).value)
  {
    forall id | id in db.entities && db.entities[id].kind.User?
      ensures db.entities[id].external != ExternalId(provider, u.externalId)
    {
    }
    forall l | l in db.links && l.provider == provider
      ensures l.subject != u.externalId
    {
    }
  }

  /** Creating a user needs no invalidation: its pair had no answer before, and only
      answers are cached. */
  lemma CreateKeeps<I(!new)>(ps: set<string>, db: Db, who: Resolver<I>, c: Cached<I>, provider: string, u: UserInput,
                             now: int)
    requires DbOk(db) && Coherent(ps, db, who, c) && CreateSpec(db, provider, u, now).Ok?
    ensures Coherent(ps, CreateSpec(db, provider, u, now).value, who, c)
  {
    var after := CreateSpec(db, provider, u, now).value;
    CreatedOk(db, provider, u, now);
    forall p, s | p in ps && KeyOf(p, s) in c.items
      ensures Answer(after, who, p, s) == Some(c.items[KeyOf(p, s)].identity)
    {
      var l := LinkOfAnswer(db, who, p, s);
      AnswerOf(db, who, l);
      AnswerOf(after, who, l);
      CreatedFacts(db, provider, u, now, l.entity);
    }
  }

  lemma DeletedOk(db: Db, provider: string, id: nat)
    requires DbOk(db) && DeleteSpec(db, provider, id).Ok?
    ensures DbOk(DeleteSpec(db, provider, id).value)
  {
  }

  lemma CascadedFacts(db: Db, id: nat, links: set<Link>, log: seq<GroupStore.Entry>, other: nat)
    requires DbOk(db) && id in db.entities && db.entities[id].kind.User? && other in db.entities && other != id
    ensures var after := Db(db.entities - {id}, links, Cascade(db.relations, id), log, db.next);
            FactsOf(after, other) == FactsOf(db, other)
  {
    forall r | r in db.relations && r.subject == other
      ensures r !in Cascade(db.relations, id) <==> r.target == id
    {
    }
  }

  lemma DeletedFacts(db: Db, provider: string, id: nat, other: nat)
    requires DbOk(db) && DeleteSpec(db, provider, id).Ok? && other in db.entities
             && other in DeleteSpec(db, provider, id).value.entities
    requires other != id || exists l :: l in db.links && l.entity == id && l.provider != provider
    ensures FactsOf(DeleteSpec(db, provider, id).value, other) == FactsOf(db, other)
  {
    var after := DeleteSpec(db, provider, id).value;
    if l :| l in db.links && l.entity == id && l.provider != provider {
      assert l in after.links;
      assert after.entities == db.entities && after.relations == db.relations;
    } else {
      CascadedFacts(db, id, after.links, after.log, other);
    }
  }

  /** Deleting invalidates one subject. The cache is coherent after that exactly if the
      user has no other cached link at the same provider; links at other providers
      survive with their answers. */
  lemma DeleteExactly<I(!new)>(ps: set<string>, db: Db, who: Resolver<I>, c: Cached<I>, l: Link)
    requires DbOk(db) && l in db.links && l.provider in ps && Coherent(ps, db, who, c)
             && DeleteSpec(db, l.provider, l.entity).Ok?
    ensures Coherent(ps, DeleteSpec(db, l.provider, l.entity).value, who,
                     IdentityCache.Invalidate(c, KeyOf(l.provider, l.subject))) <==>
            !exists other :: OtherCached(ps, db, c, l, other) && other.provider == l.provider
  {
    var after, key := DeleteSpec(db, l.provider, l.entity).value, KeyOf(l.provider, l.subject);
    var c' := IdentityCache.Invalidate(c, key);
    DeletedOk(db, l.provider, l.entity);
    if other :| OtherCached(ps, db, c, l, other) && other.provider == l.provider {
      InvalidatedItems(c, key, KeyOf(other.provider, other.subject));
      NoAnswer(after, who, other.provider, other.subject);
    } else {
      forall p, s | p in ps && KeyOf(p, s) in c'.items
        ensures Answer(after, who, p, s) == Some(c'.items[KeyOf(p, s)].identity)
      {
        InvalidatedItems(c, key, KeyOf(p, s));
        var k := LinkOfAnswer(db, who, p, s);
        assert OtherCached(ps, db, c, l, k) <==> k.entity == l.entity;
        DeletedAnswer(db, who, l.provider, l.entity, k);
      }
    }
  }

  lemma DeletedAnswer<I>(db: Db, who: Resolver<I>, provider: string, id: nat, k: Link)
    requires DbOk(db) && DeleteSpec(db, provider, id).Ok? && k in db.links && (k.entity != id || k.provider != provider)
    ensures Answer(DeleteSpec(db, provider, id).value, who, k.provider, k.subject)
            == Answer(db, who, k.provider, k.subject)
  {
    var after := DeleteSpec(db, provider, id).value;
    DeletedOk(db, provider, id);
    assert k in after.links;
    AnswerOf(db, who, k);
    AnswerOf(after, who, k);
    DeletedFacts(db, provider, id, k.entity);
  }

  /* ----- a user with two links ----- */

  /** One user with two links. */
  function TwoLinks(a: Link, b: Link): Db
    requires a.entity == 0 && b.entity == 0
  {
    Db(map[0 := Entity(User, "a", map[], false, 0, 0)], {a, b}, map[], [], 1)
  }

  /** A resolver that tells whether the user has properties. */
  function ByProps<I>(x: I, y: I): Resolver<I> {
    (p: string, s: string, e: nat, facts: Facts) => Some(if facts.props == map[] then x else y)
  }

  function Both<I>(k: string, m: string, x: I): Cached<I> {
    var e, f := IdentityCache.Entry(0, k, x, 1), IdentityCache.Entry(1, m, x, 1);
    IdentityCache.State(map[k := e, m := f], [f, e], 2)
  }

  lemma BothCurrent<I(!new)>(ps: set<string>, a: Link, b: Link, x: I, y: I)
    requires a.entity == 0 && b.entity == 0 && a.provider != b.provider && ps == {a.provider, b.provider}
             && Separate(ps)
    ensures DbOk(TwoLinks(a, b))
    ensures Coherent(ps, TwoLinks(a, b), ByProps(x, y),
                     Both(KeyOf(a.provider, a.subject), KeyOf(b.provider, b.subject), x))
  {
    var db, who := TwoLinks(a, b), ByProps(x, y);
    AnswerOf(db, who, a);
    AnswerOf(db, who, b);
    forall p, s | p in ps
      ensures KeyOf(p, s) == KeyOf(a.provider, a.subject) <==> p == a.provider && s == a.subject
      ensures KeyOf(p, s) == KeyOf(b.provider, b.subject) <==> p == b.provider && s == b.subject
    {
      SameKey(ps, p, s, a.provider, a.subject);
      SameKey(ps, p, s, b.provider, b.subject);
    }
  }

  /** A user with two links, both cached: overwriting it through the one leaves the
      other's old identity in the cache. No call here makes a second link. */
  lemma SecondLinkStale<I(!new)>(props: Props, now: int, x: I, y: I)
    requires props != map[] && x != y
    ensures var ps, a, b := {"a", "b"}, Link(0, "a", "s"), Link(0, "b", "t");
            var db, who, c := TwoLinks(a, b), ByProps(x, y), Both(KeyOf("a", "s"), KeyOf("b", "t"), x);
            && DbOk(db) && Separate(ps) && Coherent(ps, db, who, c)
            && !Coherent(ps, Overwritten(db, 0, props, now), who, IdentityCache.Invalidate(c, KeyOf("a", "s")))
  {
    var ps, a, b := {"a", "b"}, Link(0, "a", "s"), Link(0, "b", "t");
    var db, who, c := TwoLinks(a, b), ByProps(x, y), Both(KeyOf("a", "s"), KeyOf("b", "t"), x);
    assert "a"[0] != "b"[0];
    BothCurrent(ps, a, b, x, y);
    var after := Overwritten(db, 0, props, now);
    OverwrittenOk(db, 0, props, now);
    AnswerOf(after, who, b);
    SameKey(ps, "a", "s", "b", "t");
    InvalidatedItems(c, KeyOf("a", "s"), KeyOf("b", "t"));
  }
}
