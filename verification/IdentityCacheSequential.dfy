/** The identity cache used by one caller at a time: the map and the list are in
    bijection, the cache behaves as a list of keys in order of use, and the key
    that is evicted is the one used longest ago. */
module IdentityCacheSequential {
  import opened Text
  import opened IdentityCache
  import opened IdentityCacheProofs

  /* ----- bijection ----- */

  /** Every list element is the one its key is mapped to. */
  predicate NoOrphans<I(==)>(s: State<I>) {
    forall e :: e in s.lru ==> e.key in s.items && s.items[e.key] == e
  }

  predicate Bijection<I(==)>(s: State<I>, cfg: Config) {
    Inv(s, cfg) && NoOrphans(s)
  }

  datatype Op<I> = ResolveOp(key: string, start: int, end: int, outcome: Option<I>) | InvalidateOp(key: string)

  /** One whole call with no other call in between; `outcome` is the resolver's
      answer, if it is asked and does not fail. */
  function Apply<I(==)>(s: State<I>, cfg: Config, op: Op<I>): State<I> {
    match op
    case InvalidateOp(key) => Invalidate(s, key)
    case ResolveOp(key, start, end, outcome) =>
      var a := Lookup(s, key, start);
      if a.found.None? && outcome.Some? then Store(a.state, cfg, key, outcome.value, end) else a.state
  }

  function After<I(==)>(cfg: Config, ops: seq<Op<I>>): State<I> {
    if ops == [] then Fresh() else Apply(After(cfg, ops[..|ops| - 1]), cfg, ops[|ops| - 1])
  }

  lemma LookupNoOrphans<I>(s: State<I>, cfg: Config, key: string, now: int)
    requires Bijection(s, cfg)
    ensures Bijection(Lookup(s, key, now).state, cfg)
    ensures Lookup(s, key, now).found.None? ==> key !in Lookup(s, key, now).state.items
  {
    LookupKeeps(s, cfg, key, now);
    if key in s.items {
      TakeOut(s, key);
    }
  }

  lemma InvalidateNoOrphans<I>(s: State<I>, cfg: Config, key: string)
    requires Bijection(s, cfg)
    ensures Bijection(Invalidate(s, key), cfg)
  {
    InvalidateKeeps(s, cfg, key);
    if key in s.items {
      TakeOut(s, key);
    }
  }

  lemma {:induction false} EvictNoOrphans<I>(s: State<I>, capacity: int)
    requires Distinct(s) && Linked(s) && NoOrphans(s)
    ensures NoOrphans(Evict(s, capacity))
    decreases |s.lru|
  {
    if |s.lru| >= capacity && s.lru != [] {
      var n := |s.lru| - 1;
      var t := s.(items := s.items - {s.lru[n].key}, lru := s.lru[..n]);
      forall e | e in t.lru
        ensures e.key in t.items && t.items[e.key] == e && e in s.lru
      {
        var i :| 0 <= i < n && s.lru[i] == e;
        assert s.lru[i].id != s.lru[n].id && s.items[s.lru[n].key] == s.lru[n];
      }
      forall k | k in t.items
        ensures t.items[k] in t.lru
      {
        var i :| 0 <= i < |s.lru| && s.lru[i] == s.items[k];
        assert t.lru[i] == s.items[k];
      }
      EvictNoOrphans(t, capacity);
    }
  }

  lemma StoreNoOrphans<I>(s: State<I>, cfg: Config, key: string, identity: I, now: int)
    requires Bijection(s, cfg) && key !in s.items
    ensures Bijection(Store(s, cfg, key, identity, now), cfg)
  {
    StoreKeeps(s, cfg, key, identity, now);
    EvictKeeps(s, cfg.capacity);
    EvictNoOrphans(s, cfg.capacity);
    var t := Evict(s, cfg.capacity);
    var u := Store(s, cfg, key, identity, now);
    forall e | e in u.lru
      ensures e.key in u.items && u.items[e.key] == e
    {
      assert e in t.lru || e == u.items[key];
    }
  }

  lemma ApplyBijection<I>(s: State<I>, cfg: Config, op: Op<I>)
    requires Bijection(s, cfg)
    ensures Bijection(Apply(s, cfg, op), cfg)
  {
    match op {
      case InvalidateOp(key) => InvalidateNoOrphans(s, cfg, key);
      case ResolveOp(key, start, end, outcome) =>
        LookupNoOrphans(s, cfg, key, start);
        var a := Lookup(s, key, start);
        if a.found.None? && outcome.Some? {
          StoreNoOrphans(a.state, cfg, key, outcome.value, end);
        }
    }
  }

  /** After any sequence of calls the map and the list are in bijection. */
  lemma {:induction false} AlwaysBijection<I>(cfg: Config, ops: seq<Op<I>>)
    ensures Bijection(After(cfg, ops), cfg)
    decreases |ops|
  {
    if ops != [] {
      AlwaysBijection(cfg, ops[..|ops| - 1]);
      ApplyBijection(After(cfg, ops[..|ops| - 1]), cfg, ops[|ops| - 1]);
    }
  }

  /* ----- the pure cache: one list, no map ----- */

  datatype Slot<I> = Slot(key: string, identity: I, expiresAt: int)

  function FindKey<I>(l: seq<Slot<I>>, key: string): Option<Slot<I>> {
    if l == [] then None else if l[0].key == key then Some(l[0]) else FindKey(l[1..], key)
  }

  function DropKey<I>(l: seq<Slot<I>>, key: string): seq<Slot<I>> {
    if l == [] then [] else if l[0].key == key then l[1..] else [l[0]] + DropKey(l[1..], key)
  }

  /** Room for one more: at most `capacity - 1` of the newest slots. */
  function Newest<I>(l: seq<Slot<I>>, capacity: int): seq<Slot<I>> {
    if |l| < capacity then l else if capacity <= 0 then [] else l[..capacity - 1]
  }

  datatype PureAnswer<I> = PureAnswer(slots: seq<Slot<I>>, found: Option<I>)

  function PureLookup<I>(l: seq<Slot<I>>, key: string, now: int): PureAnswer<I> {
    match FindKey(l, key)
    case None => PureAnswer(l, None)
    case Some(x) =>
      if now < x.expiresAt then PureAnswer([x] + DropKey(l, key), Some(x.identity))
          else PureAnswer(DropKey(l, key), None)
  }

  function PureApply<I>(l: seq<Slot<I>>, cfg: Config, op: Op<I>): seq<Slot<I>> {
    match op
    case InvalidateOp(key) => DropKey(l, key)
    case ResolveOp(key, start, end, outcome) =>
      var a := PureLookup(l, key, start);
      if a.found.None? && outcome.Some? then [Slot(key, outcome.value, end + cfg.ttl)] + Newest(a.slots, cfg.capacity)
      else a.slots
  }

  function View<I>(l: seq<Entry<I>>): seq<Slot<I>> {
    if l == [] then [] else [Slot(l[0].key, l[0].identity, l[0].expiresAt)] + View(l[1..])
  }

  lemma {:induction false} ViewAt<I>(l: seq<Entry<I>>)
    ensures |View(l)| == |l|
    ensures forall i :: 0 <= i < |l| ==> View(l)[i] == Slot(l[i].key, l[i].identity, l[i].expiresAt)
  {
    if l != [] {
      ViewAt(l[1..]);
      forall i | 0 <= i < |l|
        ensures View(l)[i] == Slot(l[i].key, l[i].identity, l[i].expiresAt)
      {
        if i > 0 {
          assert View(l)[i] == View(l[1..])[i - 1];
        }
      }
    }
  }

  lemma {:induction false} ViewWithout<I>(l: seq<Entry<I>>, e: Entry<I>)
    requires e in l && forall x :: x in l && x.key == e.key ==> x == e
    ensures View(Without(l, e)) == DropKey(View(l), e.key)
    ensures FindKey(View(l), e.key) == Some(Slot(e.key, e.identity, e.expiresAt))
  {
    assert View(l)[1..] == View(l[1..]);
    if l[0] != e {
      assert l[0].key != e.key by { assert l[0] in l; }
      assert e in l[1..];
      ViewWithout(l[1..], e);
      assert Without(l, e)[1..] == Without(l[1..], e);
    }
  }

  lemma {:induction false} ViewAbsent<I>(l: seq<Entry<I>>, key: string)
    requires forall x :: x in l ==> x.key != key
    ensures FindKey(View(l), key) == None && DropKey(View(l), key) == View(l)
  {
    if l != [] {
      assert View(l)[1..] == View(l[1..]);
      assert l[0] in l;
      ViewAbsent(l[1..], key);
    }
  }

  lemma {:induction false} EvictList<I>(s: State<I>, capacity: int)
    ensures View(Evict(s, capacity).lru) == Newest(View(s.lru), capacity)
    decreases |s.lru|
  {
    ViewAt(s.lru);
    if |s.lru| >= capacity && s.lru != [] {
      var n := |s.lru| - 1;
      ViewAt(s.lru[..n]);
      assert View(s.lru[..n]) == View(s.lru)[..n];
      EvictList(s.(items := s.items - {s.lru[n].key}, lru := s.lru[..n]), capacity);
    }
  }

  lemma LookupRefines<I>(s: State<I>, cfg: Config, key: string, now: int)
    requires Bijection(s, cfg)
    ensures var a, b := Lookup(s, key, now), PureLookup(View(s.lru), key, now);
            a.found == b.found && View(a.state.lru) == b.slots
  {
    if key in s.items {
      var e := s.items[key];
      ViewWithout(s.lru, e);
      assert ToFront(s.lru, e)[1..] == Without(s.lru, e);
    } else {
      ViewAbsent(s.lru, key);
    }
  }

  lemma StoreRefines<I>(s: State<I>, cfg: Config, key: string, identity: I, now: int)
    ensures View(Store(s, cfg, key, identity, now).lru) == [Slot(key, identity, now + cfg.ttl)]
            + Newest(View(s.lru), cfg.capacity)
  {
    EvictList(s, cfg.capacity);
    var u := Store(s, cfg, key, identity, now);
    assert u.lru[1..] == Evict(s, cfg.capacity).lru;
  }

  /** Each call on the cache is the call on the pure list. */
  lemma ApplyRefines<I>(s: State<I>, cfg: Config, op: Op<I>)
    requires Bijection(s, cfg)
    ensures View(Apply(s, cfg, op).lru) == PureApply(View(s.lru), cfg, op)
  {
    match op {
      case InvalidateOp(key) =>
        if key in s.items {
          ViewWithout(s.lru, s.items[key]);
        } else {
          ViewAbsent(s.lru, key);
        }
      case ResolveOp(key, start, end, outcome) =>
        LookupRefines(s, cfg, key, start);
        var a := Lookup(s, key, start);
        if a.found.None? && outcome.Some? {
          StoreRefines(a.state, cfg, key, outcome.value, end);
        }
    }
  }

  /* ----- order of use ----- */

  /** The number of calls up to and including the last `Resolve` of `key`. */
  function LastUse<I>(ops: seq<Op<I>>, key: string): nat {
    if ops == [] then 0
    else if ops[|ops| - 1].ResolveOp? && ops[|ops| - 1].key == key then |ops|
    else LastUse(ops[..|ops| - 1], key)
  }

  lemma {:induction false} LastUseBound<I>(ops: seq<Op<I>>, key: string)
    ensures LastUse(ops, key) <= |ops|
    decreases |ops|
  {
    if ops != [] {
      LastUseBound(ops[..|ops| - 1], key);
    }
  }

  /** When each key was last used. */
  type Clock = string -> nat

  /** The slots are in order of use, the last used first. */
  predicate ByUse<I>(l: seq<Slot<I>>, used: Clock) {
    forall i, j :: 0 <= i < j < |l| ==> used(l[i].key) > used(l[j].key)
  }

  /** No slot has the key. */
  predicate Lacks<I>(l: seq<Slot<I>>, key: string) {
    forall i :: 0 <= i < |l| ==> l[i].key != key
  }

  lemma {:induction false} DropMembers<I>(l: seq<Slot<I>>, key: string)
    requires forall i, j :: 0 <= i < j < |l| ==> l[i].key != l[j].key
    ensures forall x :: x in DropKey(l, key) ==> x in l && x.key != key
  {
    if l != [] {
      var t := l[1..];
      assert forall i :: 0 <= i < |t| ==> t[i] == l[i + 1];
      DropMembers(t, key);
    }
  }

  lemma HeadAbove<I>(l: seq<Slot<I>>, used: Clock, x: Slot<I>)
    requires l != [] && ByUse(l, used) && x in l[1..]
    ensures used(l[0].key) > used(x.key)
  {
    var k :| 0 <= k < |l[1..]| && l[1..][k] == x;
    assert l[k + 1] == x;
  }

  lemma PrependOrdered<I>(x: Slot<I>, d: seq<Slot<I>>, used: Clock)
    requires ByUse(d, used) && forall y :: y in d ==> used(x.key) > used(y.key)
    ensures ByUse([x] + d, used)
  {
    var r := [x] + d;
    forall i, j | 0 <= i < j < |r|
      ensures used(r[i].key) > used(r[j].key)
    {
      assert r[j] == d[j - 1] && d[j - 1] in d;
    }
  }

  /** Dropping a key keeps the order along the list. */
  lemma {:induction false} DropOrdered<I>(l: seq<Slot<I>>, key: string, used: Clock)
    requires ByUse(l, used)
    ensures ByUse(DropKey(l, key), used)
    ensures forall x :: x in DropKey(l, key) ==> x in l
  {
    if l != [] {
      var t := l[1..];
      assert forall i :: 0 <= i < |t| ==> t[i] == l[i + 1];
      DropOrdered(t, key, used);
      if l[0].key != key {
        var d := DropKey(t, key);
        forall y | y in d
          ensures used(l[0].key) > used(y.key)
        {
          HeadAbove(l, used, y);
        }
        PrependOrdered(l[0], d, used);
      }
    }
  }

  /** `later` is the clock after the call `op` at a time when it was `used`. */
  ghost predicate Ticks<I>(used: Clock, later: Clock, op: Op<I>) {
    && (forall k :: op.InvalidateOp? || k != op.key ==> later(k) == used(k))
    && (forall k :: op.ResolveOp? ==> later(op.key) > used(k))
  }

  lemma LastUseTicks<I>(ops: seq<Op<I>>, op: Op<I>)
    ensures Ticks(k => LastUse(ops, k), k => LastUse(ops + [op], k), op)
  {
    assert (ops + [op])[..|ops|] == ops;
    forall k
      ensures LastUse(ops, k) <= |ops|
    {
      LastUseBound(ops, k);
    }
  }

  lemma ByUseLater<I>(l: seq<Slot<I>>, used: Clock, later: Clock, op: Op<I>)
    requires Ticks(used, later, op) && ByUse(l, used) && (op.ResolveOp? ==> Lacks(l, op.key))
    ensures ByUse(l, later)
  {
  }

  /** The key just used goes to the front. */
  lemma ByUseFront<I>(x: Slot<I>, l: seq<Slot<I>>, used: Clock, later: Clock, op: Op<I>)
    requires Ticks(used, later, op) && op.ResolveOp? && x.key == op.key && ByUse(l, used) && Lacks(l, op.key)
    ensures ByUse([x] + l, later)
  {
    var r := [x] + l;
    forall i, j | 0 <= i < j < |r|
      ensures later(r[i].key) > later(r[j].key)
    {
      assert r[j] == l[j - 1];
      if i > 0 {
        assert r[i] == l[i - 1];
      }
    }
  }

  lemma LookupOrdered<I>(l: seq<Slot<I>>, key: string, used: Clock)
    requires ByUse(l, used)
    ensures ByUse(DropKey(l, key), used) && Lacks(DropKey(l, key), key)
    ensures FindKey(l, key).None? ==> DropKey(l, key) == l
    ensures FindKey(l, key).Some? ==> FindKey(l, key).value.key == key
  {
    DropOrdered(l, key, used);
    DropMembers(l, key);
    DropAbsent(l, key);
    assert forall i :: 0 <= i < |DropKey(l, key)| ==> DropKey(l, key)[i] in DropKey(l, key);
  }

  lemma {:induction false} DropAbsent<I>(l: seq<Slot<I>>, key: string)
    ensures FindKey(l, key).None? ==> DropKey(l, key) == l
    ensures FindKey(l, key).Some? ==> FindKey(l, key).value.key == key
  {
    if l != [] && l[0].key != key {
      DropAbsent(l[1..], key);
    }
  }

  lemma NewestOrdered<I>(l: seq<Slot<I>>, capacity: int, key: string, used: Clock)
    requires ByUse(l, used) && Lacks(l, key)
    ensures ByUse(Newest(l, capacity), used) && Lacks(Newest(l, capacity), key)
  {
  }

  lemma PureApplyOrdered<I>(l: seq<Slot<I>>, cfg: Config, used: Clock, later: Clock, op: Op<I>)
    requires Ticks(used, later, op) && ByUse(l, used)
    ensures ByUse(PureApply(l, cfg, op), later)
  {
    LookupOrdered(l, op.key, used);
    var d := DropKey(l, op.key);
    if op.InvalidateOp? {
      ByUseLater(d, used, later, op);
    } else {
      var a := PureLookup(l, op.key, op.start);
      if a.found.Some? {
        ByUseFront(FindKey(l, op.key).value, d, used, later, op);
      } else if op.outcome.Some? {
        NewestOrdered(d, cfg.capacity, op.key, used);
        ByUseFront(Slot(op.key, op.outcome.value, op.end + cfg.ttl), Newest(d, cfg.capacity), used, later, op);
      } else {
        ByUseLater(d, used, later, op);
      }
    }
  }

  /** After any sequence of calls the list is in order of use. */
  lemma {:induction false} ListIsByUse<I>(cfg: Config, ops: seq<Op<I>>)
    ensures ByUse(View(After(cfg, ops).lru), k => LastUse(ops, k))
    decreases |ops|
  {
    if ops != [] {
      var init, op := ops[..|ops| - 1], ops[|ops| - 1];
      assert ops == init + [op];
      ListIsByUse(cfg, init);
      AlwaysBijection(cfg, init);
      ApplyRefines(After(cfg, init), cfg, op);
      LastUseTicks(init, op);
      PureApplyOrdered(View(After(cfg, init).lru), cfg, k => LastUse(init, k), k => LastUse(init + [op], k), op);
    }
  }

  /** When a new key is stored in a full cache, the one key that goes is the one
      whose last use is the oldest. */
  lemma EvictsLeastRecentlyUsed<I>(cfg: Config, ops: seq<Op<I>>, key: string, start: int, end: int, identity: I)
    requires cfg.capacity >= 1
    requires var s := After(cfg, ops); |s.lru| == cfg.capacity && key !in s.items
    ensures var s := After(cfg, ops);
            var t := Apply(s, cfg, ResolveOp(key, start, end, Some(identity)));
            var victim := s.lru[|s.lru| - 1].key;
            && t.items.Keys == s.items.Keys - {victim} + {key}
            && forall k :: k in s.items && k != victim ==> LastUse(ops, k) > LastUse(ops, victim)
  {
    var s := After(cfg, ops);
    AlwaysBijection(cfg, ops);
    ListIsByUse(cfg, ops);
    ViewAt(s.lru);
    var n := |s.lru| - 1;
    var victim := s.lru[n].key;
    var used := k => LastUse(ops, k);
    forall k | k in s.items && k != victim
      ensures LastUse(ops, k) > LastUse(ops, victim)
    {
      var i :| 0 <= i < |s.lru| && s.lru[i] == s.items[k];
      assert View(s.lru)[i].key == k && View(s.lru)[n].key == victim;
      assert used(k) > used(victim);
    }
    var t := s.(items := s.items - {victim}, lru := s.lru[..n]);
    assert Evict(t, cfg.capacity) == t;
    assert Evict(s, cfg.capacity) == t;
  }
}
