/** The identity cache: a least-recently-used list with a time to live, and a map
    from keys to list elements. The lock is not held while the resolver runs, so
    the functions below describe one critical section each. */
module IdentityCache {
  import opened Text

  /** One element of the list; `id` stands for its address. */
  datatype Entry<I> = Entry(id: nat, key: string, identity: I, expiresAt: int)

  datatype State<I> = State(items: map<string, Entry<I>>, lru: seq<Entry<I>>, next: nat)

  datatype Config = Config(capacity: int, ttl: int)

  function KeyOf(provider: string, sub: string): string {
    provider + ":" + sub
  }

  /** `list.Remove`: the list without the element `e`. */
  function Without<I(==)>(l: seq<Entry<I>>, e: Entry<I>): seq<Entry<I>> {
    if l == [] then [] else if l[0] == e then l[1..] else [l[0]] + Without(l[1..], e)
  }

  lemma {:induction false} WithoutAt<I>(l: seq<Entry<I>>, i: nat, e: Entry<I>)
    requires i <= |l| && e !in l[..i] && (i < |l| ==> l[i] == e)
    ensures Without(l, e) == if i < |l| then l[..i] + l[i + 1..] else l
  {
    if i > 0 {
      var t := l[1..];
      assert l[..i][0] == l[0] && l[..i][1..] == t[..i - 1];
      WithoutAt(t, i - 1, e);
    }
  }

  /** `list.MoveToFront`: nothing happens to an element the list does not hold. */
  function ToFront<I(==)>(l: seq<Entry<I>>, e: Entry<I>): seq<Entry<I>> {
    if e in l then [e] + Without(l, e) else l
  }

  datatype Answer<I> = Answer(state: State<I>, found: Option<I>)

  /** The first critical section of `Resolve`. */
  function Lookup<I(==)>(s: State<I>, key: string, now: int): Answer<I> {
    if key !in s.items then Answer(s, None)
    else
      var e := s.items[key];
      if now < e.expiresAt then Answer(s.(lru := ToFront(s.lru, e)), Some(e.identity))
      else Answer(s.(items := s.items - {key}, lru := Without(s.lru, e)), None)
  }

  /** The eviction loop: drop the oldest element while the list is full. */
  function Evict<I>(s: State<I>, capacity: int): State<I>
    decreases |s.lru|
  {
    if |s.lru| < capacity || s.lru == [] then s
    else
      var oldest := s.lru[|s.lru| - 1];
      Evict(s.(items := s.items - {oldest.key}, lru := s.lru[..|s.lru| - 1]), capacity)
  }

  function Push<I>(s: State<I>, key: string, identity: I, expiresAt: int): State<I> {
    var e := Entry(s.next, key, identity, expiresAt);
    State(s.items[key := e], [e] + s.lru, s.next + 1)
  }

  /** The second critical section of `Resolve`. */
  function Store<I>(s: State<I>, cfg: Config, key: string, identity: I, now: int): State<I> {
    Push(Evict(s, cfg.capacity), key, identity, now + cfg.ttl)
  }

  function Invalidate<I(==)>(s: State<I>, key: string): State<I> {
    if key in s.items then s.(items := s.items - {key}, lru := Without(s.lru, s.items[key])) else s
  }

  function Fresh<I>(): State<I> {
    State(map[], [], 0)
  }

  /* ----- the class ----- */

  class Cache<I(==)> {
    const cfg: Config
    var items: map<string, Entry<I>>
    var lru: seq<Entry<I>>
    var next: nat

    constructor (capacity: int, ttl: int)
      ensures cfg == Config(capacity, ttl) && Now() == Fresh<I>()
    {
      cfg := Config(capacity, ttl);
      items, lru, next := map[], [], 0;
    }

    function Now(): State<I>
      reads this
    {
      State(items, lru, next)
    }

    method RemoveElement(e: Entry<I>)
      modifies this`lru
      ensures lru == Without(old(lru), e)
    {
      var i := 0;
      while i < |lru| && lru[i] != e
        invariant 0 <= i <= |lru| && lru == old(lru)
        invariant e !in lru[..i]
      {
        i := i + 1;
      }
      WithoutAt(lru, i, e);
      if i < |lru| {
        lru := lru[..i] + lru[i + 1..];
      }
    }

    method LookupStep(key: string, now: int) returns (found: Option<I>)
      modifies this
      ensures Answer(Now(), found) == Lookup(old(Now()), key, now)
    {
      if key in items {
        var e := items[key];
        if now < e.expiresAt {
          if e in lru {
            RemoveElement(e);
            lru := [e] + lru;
          }
          return Some(e.identity);
        }
        RemoveElement(e);
        items := items - {key};
      }
      return None;
    }

    method StoreStep(key: string, identity: I, now: int)
      modifies this
      ensures Now() == Store(old(Now()), cfg, key, identity, now)
    {
      while |lru| >= cfg.capacity && lru != []
        invariant next == old(next)
        invariant Evict(Now(), cfg.capacity) == Evict(old(Now()), cfg.capacity)
        decreases |lru|
      {
        var oldest := lru[|lru| - 1];
        lru := lru[..|lru| - 1];
        items := items - {oldest.key};
      }
      var e := Entry(next, key, identity, now + cfg.ttl);
      next := next + 1;
      lru := [e] + lru;
      items := items[key := e];
    }

    method InvalidateStep(key: string)
      modifies this
      ensures Now() == Invalidate(old(Now()), key)
    {
      if key in items {
        RemoveElement(items[key]);
        items := items - {key};
      }
    }

    /** `Resolve` when nothing else touches the cache meanwhile: `outcome` is what
        the resolver answers if it is asked at all. */
    method Resolve<E>(provider: string, sub: string, start: int, end: int, outcome: Result<I, E>)
      returns (r: Result<I, E>, asked: bool)
      modifies this
      ensures var a := Lookup(old(Now()), KeyOf(provider, sub), start);
              match a.found
              case Some(i) => r == Ok(i) && !asked && Now() == a.state
              case None =>
                && r == outcome && asked
                && Now() == if outcome.Ok? then Store(a.state, cfg, KeyOf(provider, sub), outcome.value, end)
                   else a.state
    {
      var found := LookupStep(KeyOf(provider, sub), start);
      if found.Some? {
        return Ok(found.value), false;
      }
      if outcome.Err? {
        return outcome, true;
      }
      StoreStep(KeyOf(provider, sub), outcome.value, end);
      return outcome, true;
    }
  }
}
