/** The identity cache under every interleaving of calls, and in sequential use. */
module IdentityCacheProofs {
  import opened Text
  import opened IdentityCache

  /* ----- the list ----- */

  /** No two list elements share an address. */
  predicate DistinctIds<I>(l: seq<Entry<I>>) {
    forall i, j :: 0 <= i < j < |l| ==> l[i].id != l[j].id
  }

  /** Addresses are unique and below `next`. */
  predicate Distinct<I(==)>(s: State<I>) {
    DistinctIds(s.lru) && forall e :: e in s.lru ==> e.id < s.next
  }

  /** Every map entry points to a list element that carries its key. */
  predicate Linked<I(==)>(s: State<I>) {
    forall k :: k in s.items ==> s.items[k] in s.lru && s.items[k].key == k
  }

  predicate Bounded<I>(s: State<I>, cfg: Config) {
    |s.lru| <= if cfg.capacity > 1 then cfg.capacity else 1
  }

  predicate Inv<I(==)>(s: State<I>, cfg: Config) {
    Distinct(s) && Linked(s) && Bounded(s, cfg)
  }

  lemma {:induction false} WithoutMembers<I>(l: seq<Entry<I>>, e: Entry<I>)
    requires DistinctIds(l)
    ensures forall x :: x in Without(l, e) ==> x in l && x != e
    ensures forall x :: x in l && x != e ==> x in Without(l, e)
    ensures DistinctIds(Without(l, e))
    ensures |Without(l, e)| == if e in l then |l| - 1 else |l|
  {
    if l != [] {
      var t := l[1..];
      assert forall i :: 0 <= i < |t| ==> t[i] == l[i + 1];
      WithoutMembers(t, e);
      if l[0] != e {
        var w := Without(t, e);
        var r := [l[0]] + w;
        assert r == Without(l, e);
        forall i | 0 <= i < |w|
          ensures w[i].id != l[0].id
        {
          assert w[i] in w;
          var j :| 0 <= j < |t| && t[j] == w[i];
        }
      }
    }
  }

  /** Taking out the element of one key keeps every other link. */
  lemma TakeOut<I>(s: State<I>, key: string)
    requires Distinct(s) && Linked(s) && key in s.items
    ensures var l := Without(s.lru, s.items[key]);
            && DistinctIds(l) && |l| == |s.lru| - 1
            && (forall x :: x in l ==> x in s.lru && x.id < s.next && x.id != s.items[key].id)
            && (forall k :: k in s.items && k != key ==> s.items[k] in l)
  {
    var e := s.items[key];
    WithoutMembers(s.lru, e);
    forall x | x in Without(s.lru, e)
      ensures x in s.lru && x.id != e.id
    {
      assert x in s.lru && x != e;
      var i :| 0 <= i < |s.lru| && s.lru[i] == x;
      var j :| 0 <= j < |s.lru| && s.lru[j] == e;
    }
  }

  lemma LookupKeeps<I>(s: State<I>, cfg: Config, key: string, now: int)
    requires Inv(s, cfg)
    ensures Inv(Lookup(s, key, now).state, cfg)
    ensures forall e :: e in Lookup(s, key, now).state.lru ==> e in s.lru
  {
    if key in s.items {
      var e := s.items[key];
      var l := Without(s.lru, e);
      TakeOut(s, key);
      var t := Lookup(s, key, now).state;
      if now < e.expiresAt {
        assert t.lru == [e] + l;
        assert forall i :: 1 <= i < |t.lru| ==> t.lru[i] == l[i - 1] && t.lru[i] in l;
        assert t.lru[0] == e;
      } else {
        assert t.lru == l;
      }
    }
  }

  lemma InvalidateKeeps<I>(s: State<I>, cfg: Config, key: string)
    requires Inv(s, cfg)
    ensures Inv(Invalidate(s, key), cfg) && key !in Invalidate(s, key).items
    ensures forall e :: e in Invalidate(s, key).lru ==> e in s.lru
  {
    if key in s.items {
      var l := Without(s.lru, s.items[key]);
      TakeOut(s, key);
      assert Invalidate(s, key).lru == l;
    }
  }

  /** The loop keeps the addresses and the links, makes room, and touches only
      the old end of the list. */
  lemma {:induction false} EvictKeeps<I>(s: State<I>, capacity: int)
    requires Distinct(s) && Linked(s)
    ensures var t := Evict(s, capacity);
            && Distinct(t) && Linked(t) && t.next == s.next
            && (|t.lru| < capacity || t.lru == [])
            && t.lru <= s.lru
            && forall k :: k in t.items ==> k in s.items && t.items[k] == s.items[k]
    decreases |s.lru|
  {
    if |s.lru| >= capacity && s.lru != [] {
      var rest := s.lru[..|s.lru| - 1];
      var oldest := s.lru[|s.lru| - 1];
      var t := s.(items := s.items - {oldest.key}, lru := rest);
      forall k | k in t.items
        ensures t.items[k] in rest
      {
        var i :| 0 <= i < |s.lru| && s.lru[i] == s.items[k];
        assert s.lru[i] != oldest;
        assert rest[i] == s.items[k];
      }
      EvictKeeps(t, capacity);
    }
  }

  lemma StoreKeeps<I>(s: State<I>, cfg: Config, key: string, identity: I, now: int)
    requires Inv(s, cfg)
    ensures Inv(Store(s, cfg, key, identity, now), cfg)
    ensures forall e :: e in Store(s, cfg, key, identity, now).lru
                    ==> e in s.lru || (e.key == key && e.identity == identity && e.expiresAt == now + cfg.ttl)
  {
    EvictKeeps(s, cfg.capacity);
    var t := Evict(s, cfg.capacity);
    var u := Push(t, key, identity, now + cfg.ttl);
    assert forall i :: 1 <= i < |u.lru| ==> u.lru[i] == t.lru[i - 1] && u.lru[i] in t.lru;
    assert u.lru[0] == u.items[key];
    forall k | k in u.items
      ensures u.items[k] in u.lru && u.items[k].key == k
    {
      if k != key {
        assert u.items[k] == t.items[k];
      }
    }
  }

  /* ----- interleavings ----- */

  /** A call of `Resolve` between its critical sections: the resolver has read nothing
      yet, or it is reading the database, or its answer has not been stored yet. */
  datatype Flight<I> = Waiting(key: string) | Reading(key: string) | Holding(key: string, identity: I)

  datatype Machine<I> = Machine(cache: State<I>, flights: map<nat, Flight<I>>)

  /** One atomic step of one of the concurrent calls. */
  datatype Event<I> =
    | Hit(key: string, identity: I, now: int)
    | Miss(call: nat, key: string, now: int)
    | Began(call: nat, key: string)
    | Answered(call: nat, key: string, identity: I)
    | Failed(call: nat, key: string)
    | Stored(call: nat, key: string, identity: I, now: int)
    | Dropped(key: string)

  /** The machine after one event; none if the event cannot happen. */
  function Step<I(==)>(m: Machine<I>, cfg: Config, ev: Event<I>): Option<Machine<I>> {
    match ev
    case Hit(key, identity, now) =>
      var a := Lookup(m.cache, key, now);
      if a.found == Some(identity) then Some(m.(cache := a.state)) else None
    case Miss(call, key, now) =>
      var a := Lookup(m.cache, key, now);
      if a.found == None && call !in m.flights then Some(Machine(a.state, m.flights[call := Waiting(key)])) else None
    case Began(call, key) =>
      if call in m.flights && m.flights[call] == Waiting(key) then Some(m.(flights := m.flights[call := Reading(key)]))
          else None
    case Answered(call, key, identity) =>
      if call in m.flights && m.flights[call] == Reading(key)
      then Some(m.(flights := m.flights[call := Holding(key, identity)])) else None
    case Failed(call, key) =>
      if call in m.flights && (m.flights[call] == Waiting(key) || m.flights[call] == Reading(key))
      then Some(m.(flights := m.flights - {call})) else None
    case Stored(call, key, identity, now) =>
      if call in m.flights && m.flights[call] == Holding(key, identity)
      then Some(Machine(Store(m.cache, cfg, key, identity, now), m.flights - {call})) else None
    case Dropped(key) => Some(m.(cache := Invalidate(m.cache, key)))
  }

  function Run<I(==)>(m: Machine<I>, cfg: Config, es: seq<Event<I>>): Option<Machine<I>> {
    if es == [] then Some(m)
    else
      match Run(m, cfg, es[..|es| - 1])
      case None => None
      case Some(m') => Step(m', cfg, es[|es| - 1])
  }

  function Start<I>(): Machine<I> {
    Machine(Fresh(), map[])
  }

  ghost predicate WasAnswered<I>(es: seq<Event<I>>, key: string, identity: I) {
    exists i, c :: 0 <= i < |es| && es[i] == Answered(c, key, identity)
  }

  ghost predicate WasStored<I>(es: seq<Event<I>>, cfg: Config, key: string, identity: I, expiresAt: int) {
    exists i, c, now :: 0 <= i < |es| && es[i] == Stored(c, key, identity, now) && now + cfg.ttl == expiresAt
  }

  /** What a run of events from an empty cache leaves behind. */
  ghost predicate History<I>(m: Machine<I>, cfg: Config, es: seq<Event<I>>) {
    && Inv(m.cache, cfg)
    && (forall e :: e in m.cache.lru ==>
        WasAnswered(es, e.key, e.identity) && WasStored(es, cfg, e.key, e.identity, e.expiresAt))
    && (forall c :: c in m.flights && m.flights[c].Holding? ==>
        WasAnswered(es, m.flights[c].key, m.flights[c].identity))
  }

  lemma LaterEvent<I>(es: seq<Event<I>>, ev: Event<I>, cfg: Config)
    ensures forall k, v :: WasAnswered(es, k, v) ==> WasAnswered(es + [ev], k, v)
    ensures forall k, v, t :: WasStored(es, cfg, k, v, t) ==> WasStored(es + [ev], cfg, k, v, t)
  {
    var fs := es + [ev];
    assert forall i :: 0 <= i < |es| ==> fs[i] == es[i];
    forall k, v | WasAnswered(es, k, v)
      ensures WasAnswered(fs, k, v)
    {
      var i, c :| 0 <= i < |es| && es[i] == Answered(c, k, v);
      assert fs[i] == Answered(c, k, v);
    }
    forall k, v, t | WasStored(es, cfg, k, v, t)
      ensures WasStored(fs, cfg, k, v, t)
    {
      var i, c, now :| 0 <= i < |es| && es[i] == Stored(c, k, v, now) && now + cfg.ttl == t;
      assert fs[i] == Stored(c, k, v, now);
    }
  }

  lemma StepHistory<I>(m: Machine<I>, cfg: Config, es: seq<Event<I>>, ev: Event<I>)
    requires History(m, cfg, es) && Step(m, cfg, ev).Some?
    ensures History(Step(m, cfg, ev).value, cfg, es + [ev])
  {
    var fs := es + [ev];
    assert fs[|es|] == ev;
    LaterEvent(es, ev, cfg);
    match ev {
      case Hit(key, _, now) => LookupKeeps(m.cache, cfg, key, now);
      case Miss(_, key, now) => LookupKeeps(m.cache, cfg, key, now);
      case Began(_, _) =>
      case Answered(_, key, identity) => assert WasAnswered(fs, key, identity);
      case Failed(_, _) =>
      case Stored(_, key, identity, now) =>
        StoreKeeps(m.cache, cfg, key, identity, now);
        assert WasStored(fs, cfg, key, identity, now + cfg.ttl);
      case Dropped(key) => InvalidateKeeps(m.cache, cfg, key);
    }
  }

  /** Whatever the interleaving: the map points into the list, the list is no
      longer than the capacity (or one), and every cached identity is one the
      resolver answered for that key. */
  lemma {:induction false} EveryRun<I>(cfg: Config, es: seq<Event<I>>)
    requires Run(Start<I>(), cfg, es).Some?
    ensures History(Run(Start<I>(), cfg, es).value, cfg, es)
    decreases |es|
  {
    if es != [] {
      var init := es[..|es| - 1];
      assert es == init + [es[|es| - 1]];
      EveryRun(cfg, init);
      StepHistory(Run(Start<I>(), cfg, init).value, cfg, init, es[|es| - 1]);
    }
  }

  lemma {:induction false} RunPrefix<I>(m: Machine<I>, cfg: Config, es: seq<Event<I>>, n: nat)
    requires n <= |es| && Run(m, cfg, es).Some?
    ensures Run(m, cfg, es[..n]).Some?
    decreases |es|
  {
    if n == |es| {
      assert es[..n] == es;
    } else {
      assert es[..|es| - 1][..n] == es[..n];
      RunPrefix(m, cfg, es[..|es| - 1], n);
    }
  }

  /** Every hit returns an identity that the resolver answered for that key and
      that was stored less than a time to live before. */
  lemma HitsAreFresh<I>(cfg: Config, es: seq<Event<I>>, n: nat)
    requires Run(Start<I>(), cfg, es).Some? && n < |es| && es[n].Hit?
    ensures WasAnswered(es[..n], es[n].key, es[n].identity)
    ensures exists expiresAt :: es[n].now < expiresAt && WasStored(es[..n], cfg, es[n].key, es[n].identity, expiresAt)
  {
    RunPrefix(Start<I>(), cfg, es, n + 1);
    assert es[..n + 1][..n] == es[..n];
    EveryRun(cfg, es[..n]);
    var m := Run(Start<I>(), cfg, es[..n]).value;
    var e := m.cache.items[es[n].key];
    assert e in m.cache.lru;
    assert WasStored(es[..n], cfg, e.key, e.identity, e.expiresAt);
  }

  /* ----- invalidation ----- */

  /** No call has begun to read for `key` without having stored its answer. */
  predicate NothingRead<I>(m: Machine<I>, key: string) {
    forall c :: c in m.flights && !m.flights[c].Waiting? ==> m.flights[c].key != key
  }

  ghost predicate HasBegun<I>(es: seq<Event<I>>, c: nat, key: string) {
    exists i :: 0 <= i < |es| && es[i] == Began(c, key)
  }

  /** A call read the identity for `key` during `es`, from the first read on. */
  ghost predicate WasRead<I>(es: seq<Event<I>>, key: string, identity: I) {
    exists j, c :: 0 <= j < |es| && es[j] == Answered(c, key, identity) && HasBegun(es[..j], c, key)
  }

  /** After `es`, whatever is cached, held or being read for `key` was read during
      `es`. */
  ghost predicate ReadSince<I>(m: Machine<I>, key: string, es: seq<Event<I>>) {
    && (key in m.cache.items ==> WasRead(es, key, m.cache.items[key].identity))
    && (forall c :: c in m.flights && m.flights[c] == Reading(key) ==> HasBegun(es, c, key))
    && (forall c :: c in m.flights && m.flights[c].Holding? && m.flights[c].key == key ==>
        WasRead(es, key, m.flights[c].identity))
  }

  lemma LaterRead<I>(es: seq<Event<I>>, ev: Event<I>, key: string)
    ensures forall v :: WasRead(es, key, v) ==> WasRead(es + [ev], key, v)
    ensures forall c :: HasBegun(es, c, key) ==> HasBegun(es + [ev], c, key)
  {
    var fs := es + [ev];
    forall v | WasRead(es, key, v)
      ensures WasRead(fs, key, v)
    {
      var j, c :| 0 <= j < |es| && es[j] == Answered(c, key, v) && HasBegun(es[..j], c, key);
      assert fs[j] == es[j] && fs[..j] == es[..j];
    }
    forall c | HasBegun(es, c, key)
      ensures HasBegun(fs, c, key)
    {
      var i :| 0 <= i < |es| && es[i] == Began(c, key);
      assert fs[i] == es[i];
    }
  }

  lemma {:induction false} EvictItems<I>(s: State<I>, capacity: int)
    ensures forall k :: k in Evict(s, capacity).items ==> k in s.items && Evict(s, capacity).items[k] == s.items[k]
    decreases |s.lru|
  {
    if |s.lru| >= capacity && s.lru != [] {
      var oldest := s.lru[|s.lru| - 1];
      EvictItems(s.(items := s.items - {oldest.key}, lru := s.lru[..|s.lru| - 1]), capacity);
    }
  }

  lemma StepSince<I>(m: Machine<I>, cfg: Config, key: string, es: seq<Event<I>>, ev: Event<I>)
    requires ReadSince(m, key, es) && Step(m, cfg, ev).Some?
    ensures ReadSince(Step(m, cfg, ev).value, key, es + [ev])
  {
    var fs := es + [ev];
    assert fs[|es|] == ev && fs[..|es|] == es;
    LaterRead(es, ev, key);
    match ev {
      case Stored(_, _, _, _) => EvictItems(m.cache, cfg.capacity);
      case _ =>
    }
  }

  lemma {:induction false} RunSince<I>(m: Machine<I>, cfg: Config, key: string, es: seq<Event<I>>)
    requires key !in m.cache.items && NothingRead(m, key) && Run(m, cfg, es).Some?
    ensures ReadSince(Run(m, cfg, es).value, key, es)
    decreases |es|
  {
    if es != [] {
      var init := es[..|es| - 1];
      assert es == init + [es[|es| - 1]];
      RunSince(m, cfg, key, init);
      StepSince(Run(m, cfg, init).value, cfg, key, init, es[|es| - 1]);
    }
  }

  /** From `m` on, every hit on `key` returns something that was read after `m`. */
  ghost predicate NoStaleHit<I(!new)>(m: Machine<I>, cfg: Config, key: string) {
    forall es: seq<Event<I>>, n: nat {:trigger Run(m, cfg, es), es[n]} ::
      Run(m, cfg, es).Some? && n < |es| && es[n].Hit? && es[n].key == key
      ==> WasRead(es[..n], key, es[n].identity)
  }

  /** After an invalidation every hit is something that was read since, in every
      continuation, exactly when no concurrent call has begun to read for the key.
      `v` is any identity. */
  lemma InvalidationHolds<I(!new)>(m: Machine<I>, cfg: Config, key: string, v: I)
    requires cfg.ttl > 0
    ensures NoStaleHit(Step(m, cfg, Dropped(key)).value, cfg, key)
       <==> NothingRead(Step(m, cfg, Dropped(key)).value, key)
  {
    var d := Step(m, cfg, Dropped(key)).value;
    if NothingRead(d, key) {
      forall es: seq<Event<I>>, n: nat | Run(d, cfg, es).Some? && n < |es| && es[n].Hit? && es[n].key == key
        ensures WasRead(es[..n], key, es[n].identity)
      {
        RunPrefix(d, cfg, es, n + 1);
        assert es[..n + 1][..n] == es[..n];
        RunSince(d, cfg, key, es[..n]);
      }
    } else {
      var c :| c in d.flights && !d.flights[c].Waiting? && d.flights[c].key == key;
      if d.flights[c].Holding? {
        HeldAnswerHits(d, cfg, key, c);
      } else {
        OldReadHits(d, cfg, key, c, v);
      }
    }
  }

  /** A call stores the answer it got before the invalidation. */
  lemma HeldAnswerHits<I(!new)>(d: Machine<I>, cfg: Config, key: string, c: nat)
    requires cfg.ttl > 0 && c in d.flights && d.flights[c].Holding? && d.flights[c].key == key
    ensures !NoStaleHit(d, cfg, key)
  {
    var v := d.flights[c].identity;
    var es := [Stored(c, key, v, 0), Hit(key, v, 0)];
    assert [] + [es[0]] == es[..1] && es[..1] + [es[1]] == es;
    RunStep(d, cfg, [], es[0]);
    RunStep(d, cfg, es[..1], es[1]);
    assert es[1].Hit? && !WasRead(es[..1], key, v);
  }

  /** A call that has begun to read before the invalidation answers and stores. */
  lemma OldReadHits<I(!new)>(d: Machine<I>, cfg: Config, key: string, c: nat, v: I)
    requires cfg.ttl > 0 && c in d.flights && d.flights[c] == Reading(key)
    ensures !NoStaleHit(d, cfg, key)
  {
    var es := [Answered(c, key, v), Stored(c, key, v, 0), Hit(key, v, 0)];
    assert [] + [es[0]] == es[..1] && es[..1] + [es[1]] == es[..2] && es[..2] + [es[2]] == es;
    RunStep(d, cfg, [], es[0]);
    RunStep(d, cfg, es[..1], es[1]);
    RunStep(d, cfg, es[..2], es[2]);
    assert es[2].Hit? && !WasRead(es[..2], key, v);
  }

  /** The lost race: a call begins to read, the key is invalidated, and then the answer
      is stored and hit. */
  function LostRace<I>(key: string, v: I): seq<Event<I>> {
    [Miss(0, key, 0), Began(0, key), Dropped(key), Answered(0, key, v), Stored(0, key, v, 0), Hit(key, v, 0)]
  }

  /** From an empty cache the lost race happens, whatever the capacity: the hit after
      the invalidation returns what was read from before it on. */
  lemma StaleHit<I>(cfg: Config, key: string, v: I)
    requires cfg.ttl > 0
    ensures Run(Start(), cfg, LostRace(key, v)).Some? && !WasRead(LostRace(key, v)[3..], key, v)
  {
    var m0, es := Start<I>(), LostRace(key, v);
    var s1 := [es[0]];
    var s2 := s1 + [es[1]];
    var s3 := s2 + [es[2]];
    var s4 := s3 + [es[3]];
    var s5 := s4 + [es[4]];
    assert [] + [es[0]] == s1 && s5 + [es[5]] == es;
    RunStep(m0, cfg, [], es[0]);
    RunStep(m0, cfg, s1, es[1]);
    RunStep(m0, cfg, s2, es[2]);
    RunStep(m0, cfg, s3, es[3]);
    RunStep(m0, cfg, s4, es[4]);
    RunStep(m0, cfg, s5, es[5]);
  }

  /** Two concurrent misses on one key, answered and stored one after the other. */
  function TwoMisses<I>(v: I, w: I): seq<Event<I>> {
    [Miss(0, "k", 0), Miss(1, "k", 0), Began(0, "k"), Began(1, "k"), Answered(0, "k", v), Answered(1, "k", w)]
  }

  lemma BothRead<I>(cfg: Config, v: I, w: I)
    ensures Run(Start(), cfg, TwoMisses(v, w)[..4])
            == Some(Machine(Fresh<I>(), map[0 := Reading("k"), 1 := Reading("k")]))
  {
    var m0, es := Start<I>(), TwoMisses(v, w);
    assert [] + [es[0]] == es[..1] && es[..1] + [es[1]] == es[..2] && es[..2] + [es[2]] == es[..3]
           && es[..3] + [es[3]] == es[..4];
    RunStep(m0, cfg, [], es[0]);
    RunStep(m0, cfg, es[..1], es[1]);
    RunStep(m0, cfg, es[..2], es[2]);
    assert Run(m0, cfg, es[..3]).value.flights == map[0 := Reading("k"), 1 := Waiting("k")];
    RunStep(m0, cfg, es[..3], es[3]);
    assert Run(m0, cfg, es[..4]).value.flights == map[0 := Reading("k"), 1 := Reading("k")];
  }

  lemma BothHold<I>(cfg: Config, v: I, w: I)
    ensures Run(Start(), cfg, TwoMisses(v, w))
            == Some(Machine(Fresh(), map[0 := Holding("k", v), 1 := Holding("k", w)]))
  {
    var m0, es := Start<I>(), TwoMisses(v, w);
    assert es[..4] + [es[4]] == es[..5] && es[..5] + [es[5]] == es;
    BothRead(cfg, v, w);
    RunStep(m0, cfg, es[..4], es[4]);
    assert Run(m0, cfg, es[..5]).value.flights == map[0 := Holding("k", v), 1 := Reading("k")];
    RunStep(m0, cfg, es[..5], es[5]);
    assert Run(m0, cfg, es).value.flights == map[0 := Holding("k", v), 1 := Holding("k", w)];
  }

  /** They leave an element that no map entry points to: under concurrency the map
      and the list are not in bijection. */
  lemma OrphanPossible<I(!new)>(v: I, w: I)
    ensures var cfg := Config(2, 1);
            exists es: seq<Event<I>> :: Run(Start(), cfg, es).Some?
              && exists e :: e in Run(Start(), cfg, es).value.cache.lru
                             && e !in Run(Start(), cfg, es).value.cache.items.Values
  {
    var cfg, m0, es := Config(2, 1), Start<I>(), TwoMisses(v, w);
    var e5, e6 := Stored(0, "k", v, 0), Stored(1, "k", w, 0);
    BothHold(cfg, v, w);
    RunStep(m0, cfg, es, e5);
    RunStep(m0, cfg, es + [e5], e6);
    var c5, c6 := Run(m0, cfg, es + [e5]).value.cache, Run(m0, cfg, es + [e5] + [e6]).value.cache;
    assert c5.lru == [Entry(0, "k", v, 1)];
    var orphan := Entry(0, "k", v, 1);
    assert c6.lru[1] == orphan && c6.items == map["k" := Entry(1, "k", w, 1)];
    assert Run(Start(), cfg, es + [e5] + [e6]).Some? && orphan in c6.lru && orphan !in c6.items.Values;
  }

  lemma RunStep<I>(m: Machine<I>, cfg: Config, es: seq<Event<I>>, ev: Event<I>)
    requires Run(m, cfg, es).Some?
    ensures Run(m, cfg, es + [ev]) == Step(Run(m, cfg, es).value, cfg, ev)
  {
    assert (es + [ev])[..|es|] == es;
  }

  /* ----- keys ----- */

  /** Exactly when two pairs share a key. */
  lemma KeysCollide(p: string, s: string, q: string, t: string)
    ensures KeyOf(p, s) == KeyOf(q, t) <==> (p == q && s == t) || Overlap(p, s, q, t) || Overlap(q, t, p, s)
  {
    JoinedIff(p, s, q, t);
  }
}
