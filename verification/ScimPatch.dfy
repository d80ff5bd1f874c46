/** What the User and Group PATCH interpreters share: JSON values as Go decodes them,
    and the object that stands for several paths at once when an operation has none. */
module ScimPatch {
  import opened Text
  import opened ScimGrammar
  import opened ScimPath

  /** A JSON value with the fields of objects in text order. */
  datatype Json =
    | Null
    | Bool(flag: bool)
    | Number(lexeme: string)
    | Str(text: string)
    | Arr(items: seq<Json>)
    | Obj(fields: seq<Field>)

  datatype Field = Field(key: string, value: Json)

  datatype Failure = NoTarget | InvalidValue

  /** The two operations that take a value. */
  datatype Mode = Add | Replace

  /** One element of `Operations`; an absent value has no bytes. */
  datatype PatchOp = PatchOp(op: string, path: string, value: Option<Json>)

  type PathParser = string -> Result<Path, PathError>

  /** The path parser, and the UUID parser of the Go library. */
  datatype Env = Env(paths: PathParser, uuid: string -> Option<nat>)

  /** The environment of the path parser in use, which needs only a numeral parser. */
  function Standard(number: FloatParser, uuid: string -> Option<nat>): Env {
    Env(input => PathOf(input, number), uuid)
  }

  /* ----- decoding ----- */

  /** Decoding into a string: `null` leaves it empty. */
  function DecodeString(raw: Option<Json>): Result<string, Failure> {
    if raw.Some? && raw.value.Str? then Ok(raw.value.text)
    else if raw.Some? && raw.value.Null? then Ok("")
    else Err(InvalidValue)
  }

  /** Decoding into a boolean: `null` leaves it false. */
  function DecodeBool(raw: Option<Json>): Result<bool, Failure> {
    if raw.Some? && raw.value.Bool? then Ok(raw.value.flag)
    else if raw.Some? && raw.value.Null? then Ok(false)
    else Err(InvalidValue)
  }

  /** The character that stands for all that differ from it by case only, for those
      that can equal an ASCII letter: the long s and the Kelvin sign are among them. */
  function FoldChar(c: char): char {
    if 'a' <= c <= 'z' then (c as int - 32) as char
    else if c == '\U{017F}' then 'S'
    else if c == '\U{212A}' then 'K'
    else c
  }

  /** A field name of a Go struct, up to case. */
  predicate Names(key: string, field: string) {
    |key| == |field| && forall i :: 0 <= i < |key| ==> FoldChar(key[i]) == FoldChar(field[i])
  }

  /** The string field `name` after decoding an object: the last string under the
      name counts, `null` changes nothing, anything else is an error. */
  function StringField(fields: seq<Field>, name: string): Option<string> {
    if fields == [] then Some("")
    else
      var n := |fields| - 1;
      var before := StringField(fields[..n], name);
      if !Names(fields[n].key, name) || fields[n].value.Null? then before
      else if fields[n].value.Str? && before.Some? then Some(fields[n].value.text)
      else None
  }

  function BoolField(fields: seq<Field>, name: string): Option<bool> {
    if fields == [] then Some(false)
    else
      var n := |fields| - 1;
      var before := BoolField(fields[..n], name);
      if !Names(fields[n].key, name) || fields[n].value.Null? then before
      else if fields[n].value.Bool? && before.Some? then Some(fields[n].value.flag)
      else None
  }

  predicate HasKey(fields: seq<Field>, key: string) {
    exists i :: 0 <= i < |fields| && fields[i].key == key
  }

  /** Decoding an object into a Go map: the last value of a key counts. */
  function FieldMap(fields: seq<Field>): (m: map<string, Json>)
    ensures forall k :: k in m <==> HasKey(fields, k)
    ensures forall k :: k in m ==> Field(k, m[k]) in fields
  {
    if fields == [] then map[]
    else
      var rest := FieldMap(fields[1..]);
      assert fields == [fields[0]] + fields[1..];
      if fields[0].key in rest then rest else rest[fields[0].key := fields[0].value]
  }

  /* ----- the object of an operation without path ----- */

  /** One path and value of the object, or a value that is not an object where one
      is needed. */
  datatype Leaf = Leaf(path: Path, value: Json) | NotAnObject

  /** The paths and values of an object, in text order; keys that are not paths are
      left out, and a blank key holds such an object again. */
  function RootLeaves(v: Json, paths: PathParser): seq<Leaf>
    decreases v, 1
  {
    match v
    case Null => []
    case Obj(fields) => FieldLeaves(fields, paths)
    case _ => [NotAnObject]
  }

  function FieldLeaves(fields: seq<Field>, paths: PathParser): seq<Leaf>
    decreases fields, 0
  {
    if fields == [] then []
    else
      (if HasKey(fields[1..], fields[0].key) then [] else EntryLeaves(fields[0].key, fields[0].value, paths))
      + FieldLeaves(fields[1..], paths)
  }

  function EntryLeaves(key: string, v: Json, paths: PathParser): seq<Leaf>
    decreases v, 2
  {
    match paths(key)
    case Err(_) => []
    case Ok(p) => if p.attr == "" then RootLeaves(v, paths) else [Leaf(p, v)]
  }

  function RawLeaves(raw: Option<Json>, paths: PathParser): seq<Leaf> {
    if raw.Some? then RootLeaves(raw.value, paths) else [NotAnObject]
  }

  /** The leaves of the fields whose keys are in `left`. */
  function LeavesIn(fields: seq<Field>, left: set<string>, paths: PathParser): seq<Leaf> {
    if fields == [] then []
    else FirstLeaves(fields, left, paths) + LeavesIn(fields[1..], left, paths)
  }

  lemma {:induction false} LeavesInAll(fields: seq<Field>, left: set<string>, paths: PathParser)
    requires forall k :: HasKey(fields, k) ==> k in left
    ensures LeavesIn(fields, left, paths) == FieldLeaves(fields, paths)
  {
    if fields != [] {
      assert HasKey(fields, fields[0].key);
      forall k | HasKey(fields[1..], k)
        ensures k in left
      {
        var i :| 0 <= i < |fields[1..]| && fields[1..][i].key == k;
        assert fields[i + 1].key == k;
      }
      LeavesInAll(fields[1..], left, paths);
    }
  }

  lemma {:induction false} LeavesInSame(fields: seq<Field>, left: set<string>, k: string, paths: PathParser)
    requires !HasKey(fields, k)
    ensures LeavesIn(fields, left - {k}, paths) == LeavesIn(fields, left, paths)
  {
    if fields != [] {
      assert fields[0].key != k;
      assert forall i :: 0 <= i < |fields[1..]| ==> fields[1..][i] == fields[i + 1];
      LeavesInSame(fields[1..], left, k, paths);
    }
  }

  lemma {:induction false} LeavesInNone(fields: seq<Field>, paths: PathParser)
    ensures LeavesIn(fields, {}, paths) == []
  {
    if fields != [] {
      LeavesInNone(fields[1..], paths);
    }
  }

  /** The leaves of the first field, unless its key comes again. */
  function FirstLeaves(fields: seq<Field>, left: set<string>, paths: PathParser): seq<Leaf>
    requires fields != []
  {
    if fields[0].key in left && !HasKey(fields[1..], fields[0].key)
        then EntryLeaves(fields[0].key, fields[0].value, paths) else []
  }

  lemma LeavesInCons(fields: seq<Field>, left: set<string>, paths: PathParser)
    requires fields != []
    ensures multiset(LeavesIn(fields, left, paths)) == multiset(FirstLeaves(fields, left, paths))
            + multiset(LeavesIn(fields[1..], left, paths))
  {
  }

  lemma FieldMapHead(fields: seq<Field>, k: string)
    requires fields != [] && k in FieldMap(fields)
    ensures k in FieldMap(fields[1..]) ==> FieldMap(fields)[k] == FieldMap(fields[1..])[k] && HasKey(fields[1..], k)
    ensures k !in FieldMap(fields[1..]) ==> fields[0] == Field(k, FieldMap(fields)[k]) && !HasKey(fields[1..], k)
  {
  }

  lemma VisitLater(fields: seq<Field>, left: set<string>, k: string, paths: PathParser)
    requires fields != [] && k in FieldMap(fields[1..])
    ensures FirstLeaves(fields, left - {k}, paths) == FirstLeaves(fields, left, paths)
  {
  }

  lemma VisitHere(fields: seq<Field>, left: set<string>, k: string, paths: PathParser)
    requires fields != [] && k in left && k in FieldMap(fields) && k !in FieldMap(fields[1..])
    ensures FirstLeaves(fields, left, paths) == EntryLeaves(k, FieldMap(fields)[k], paths)
    ensures FirstLeaves(fields, left - {k}, paths) == []
    ensures LeavesIn(fields[1..], left - {k}, paths) == LeavesIn(fields[1..], left, paths)
  {
    FieldMapHead(fields, k);
    LeavesInSame(fields[1..], left, k, paths);
  }

  /** Visiting one key of the map takes its leaves out of those that are left. */
  lemma {:induction false} VisitKey(fields: seq<Field>, left: set<string>, k: string, paths: PathParser)
    requires k in left && k in FieldMap(fields)
    ensures multiset(LeavesIn(fields, left, paths)) ==
            multiset(EntryLeaves(k, FieldMap(fields)[k], paths)) + multiset(LeavesIn(fields, left - {k}, paths))
    decreases |fields|
  {
    assert fields != [];
    LeavesInCons(fields, left, paths);
    LeavesInCons(fields, left - {k}, paths);
    if k in FieldMap(fields[1..]) {
      FieldMapHead(fields, k);
      VisitKey(fields[1..], left, k, paths);
      VisitLater(fields, left, k, paths);
    } else {
      VisitHere(fields, left, k, paths);
    }
  }

  /* ----- applying leaves ----- */

  /** An interpreter of paths: what a path and value ask for, what that does to the
      state, and what removing a path does. */
  datatype Interpreter<!S, !U> = Interpreter(
    decode: (Env, Mode, Path, Option<Json>) -> Result<U, Failure>,
    apply: (U, S) -> S,
    remove: (Env, Path, S) -> Result<S, Failure>)

  function DecodeLeaf<S, U>(it: Interpreter<S, U>, env: Env, mode: Mode, leaf: Leaf): Result<U, Failure> {
    if leaf.Leaf? then it.decode(env, mode, leaf.path, Some(leaf.value)) else Err(InvalidValue)
  }

  /** The leaves applied one after the other: unsupported ones are skipped, the first
      invalid one ends it. */
  function Fold<S, U>(it: Interpreter<S, U>, env: Env, mode: Mode, s: S, leaves: seq<Leaf>): Option<S>
    decreases |leaves|
  {
    if leaves == [] then Some(s)
    else
      match DecodeLeaf(it, env, mode, leaves[0])
      case Err(NoTarget) => Fold(it, env, mode, s, leaves[1..])
      case Err(InvalidValue) => None
      case Ok(u) => Fold(it, env, mode, it.apply(u, s), leaves[1..])
  }

  lemma FoldOne<S, U>(it: Interpreter<S, U>, env: Env, mode: Mode, s: S, p: Path, v: Json)
    ensures Fold(it, env, mode, s, [Leaf(p, v)]) ==
            match it.decode(env, mode, p, Some(v))
            case Ok(u) => Some(it.apply(u, s))
            case Err(NoTarget) => Some(s)
            case Err(InvalidValue) => None
  {
    assert [Leaf(p, v)][1..] == [];
  }

  lemma {:induction false} FoldJoin<S, U>(it: Interpreter<S, U>, env: Env, mode: Mode, s: S, a: seq<Leaf>, b: seq<Leaf>)
    ensures var mid := Fold(it, env, mode, s, a);
            Fold(it, env, mode, s, a + b) == if mid.Some? then Fold(it, env, mode, mid.value, b) else None
    decreases |a|
  {
    if a == [] {
      assert a + b == b;
    } else {
      assert (a + b)[1..] == a[1..] + b;
      match DecodeLeaf(it, env, mode, a[0])
      case Err(NoTarget) => FoldJoin(it, env, mode, s, a[1..], b);
      case Err(InvalidValue) =>
      case Ok(u) => FoldJoin(it, env, mode, it.apply(u, s), a[1..], b);
    }
  }

  /** Some leaf has a value its attribute cannot take. */
  ghost predicate SomeInvalid<S, U>(it: Interpreter<S, U>, env: Env, mode: Mode, leaves: seq<Leaf>) {
    exists leaf :: leaf in leaves && DecodeLeaf(it, env, mode, leaf) == Err(InvalidValue)
  }

  /** The updates that the supported leaves ask for. */
  function Updates<S, U>(it: Interpreter<S, U>, env: Env, mode: Mode, leaves: seq<Leaf>): seq<U> {
    if leaves == [] then []
    else
      var u := DecodeLeaf(it, env, mode, leaves[0]);
      var rest := Updates(it, env, mode, leaves[1..]);
      if u.Ok? then [u.value] + rest else rest
  }

  function ApplyAll<S, U>(it: Interpreter<S, U>, s: S, us: seq<U>): S
    decreases |us|
  {
    if us == [] then s else ApplyAll(it, it.apply(us[0], s), us[1..])
  }

  lemma {:induction false} FoldIs<S, U>(it: Interpreter<S, U>, env: Env, mode: Mode, s: S, leaves: seq<Leaf>)
    ensures Fold(it, env, mode, s, leaves) == if SomeInvalid(it, env, mode, leaves) then None
            else Some(ApplyAll(it, s, Updates(it, env, mode, leaves)))
    decreases |leaves|
  {
    if leaves != [] {
      var rest := leaves[1..];
      assert leaves == [leaves[0]] + rest;
      match DecodeLeaf(it, env, mode, leaves[0])
      case Err(NoTarget) => FoldIs(it, env, mode, s, rest);
      case Err(InvalidValue) =>
      case Ok(u) =>
        FoldIs(it, env, mode, it.apply(u, s), rest);
        var us := Updates(it, env, mode, leaves);
        assert us[0] == u && us[1..] == Updates(it, env, mode, rest);
    }
  }

  /* ----- orders ----- */

  /** The updates commute on the states of a family. */
  ghost predicate Commute<S(!new), U>(it: Interpreter<S, U>, family: S -> bool, a: U, b: U) {
    forall s {:trigger it.apply(a, it.apply(b, s))} {:trigger it.apply(b, it.apply(a, s))} ::
      family(s) ==> it.apply(a, it.apply(b, s)) == it.apply(b, it.apply(a, s))
  }

  /** The update leads to no state outside the family. */
  ghost predicate Stays<S(!new), U>(it: Interpreter<S, U>, family: S -> bool, u: U) {
    forall s {:trigger it.apply(u, s)} :: family(s) ==> family(it.apply(u, s))
  }

  /** Any two updates of the list commute, and none leaves the family. */
  ghost predicate AllCommute<S(!new), U>(it: Interpreter<S, U>, family: S -> bool, us: seq<U>) {
    && (forall i :: 0 <= i < |us| ==> Stays(it, family, us[i]))
    && forall i, j :: 0 <= i < j < |us| ==> Commute(it, family, us[i], us[j])
  }

  function Without<T>(xs: seq<T>, k: nat): seq<T>
    requires k < |xs|
  {
    xs[..k] + xs[k + 1..]
  }

  /** An update that commutes with the ones before it can go first. */
  lemma {:induction false} MoveToFront<S(!new), U>(it: Interpreter<S, U>, family: S -> bool, s: S, us: seq<U>, k: nat)
    requires family(s) && k < |us|
    requires forall i :: 0 <= i < k ==> Stays(it, family, us[i]) && Commute(it, family, us[i], us[k])
    ensures ApplyAll(it, s, us) == ApplyAll(it, it.apply(us[k], s), Without(us, k))
    decreases k
  {
    if k == 0 {
      assert Without(us, 0) == us[1..];
    } else {
      var rest := us[1..];
      assert Stays(it, family, us[0]) && Commute(it, family, us[0], us[k]);
      MoveToFront(it, family, it.apply(us[0], s), rest, k - 1);
      var w := Without(us, k);
      assert w[0] == us[0] && w[1..] == Without(rest, k - 1);
    }
  }

  lemma CommuteBoth<S(!new), U>(it: Interpreter<S, U>, family: S -> bool, us: seq<U>, i: nat, k: nat)
    requires AllCommute(it, family, us) && i < |us| && k < |us| && i != k
    ensures Commute(it, family, us[i], us[k])
  {
    assert Commute(it, family, us[if i < k then i else k], us[if i < k then k else i]);
  }

  lemma MultisetWithout<T>(xs: seq<T>, k: nat)
    requires k < |xs|
    ensures multiset(xs) == multiset(Without(xs, k)) + multiset{xs[k]}
  {
    assert xs == xs[..k] + [xs[k]] + xs[k + 1..];
  }

  lemma Cancel<T>(a: multiset<T>, b: multiset<T>, x: T)
    requires a + multiset{x} == b + multiset{x}
    ensures a == b
  {
    assert a == a + multiset{x} - multiset{x};
    assert b == b + multiset{x} - multiset{x};
  }

  /** Two lists with the same elements still have them after losing the same one. */
  lemma TailWithout<T>(us: seq<T>, vs: seq<T>) returns (k: nat)
    requires us != [] && multiset(us) == multiset(vs)
    ensures k < |vs| && vs[k] == us[0] && multiset(us[1..]) == multiset(Without(vs, k))
  {
    assert us[0] in multiset(us);
    k :| 0 <= k < |vs| && vs[k] == us[0];
    MultisetWithout(vs, k);
    MultisetWithout(us, 0);
    assert Without(us, 0) == us[1..];
    Cancel(multiset(us[1..]), multiset(Without(vs, k)), us[0]);
  }

  lemma CommuteWithout<S(!new), U>(it: Interpreter<S, U>, family: S -> bool, us: seq<U>, k: nat)
    requires k < |us| && AllCommute(it, family, us)
    ensures AllCommute(it, family, Without(us, k))
  {
    var w := Without(us, k);
    forall i | 0 <= i < |w|
      ensures Stays(it, family, w[i])
    {
      assert w[i] == us[if i < k then i else i + 1];
    }
    forall i, j | 0 <= i < j < |w|
      ensures Commute(it, family, w[i], w[j])
    {
      CommuteBoth(it, family, us, if i < k then i else i + 1, if j < k then j else j + 1);
    }
  }

  /** Pairwise commuting updates give the same state in any order. */
  lemma {:induction false} AnyOrder<S(!new), U>(it: Interpreter<S, U>, family: S -> bool, s: S, us: seq<U>, vs: seq<U>)
    requires family(s) && multiset(us) == multiset(vs) && AllCommute(it, family, vs)
    ensures ApplyAll(it, s, us) == ApplyAll(it, s, vs)
    decreases |us|
  {
    if us == [] {
      assert |multiset(vs)| == 0;
    } else {
      var k := TailWithout(us, vs);
      forall i | 0 <= i < k
        ensures Commute(it, family, vs[i], vs[k])
      {
        CommuteBoth(it, family, vs, i, k);
      }
      MoveToFront(it, family, s, vs, k);
      CommuteWithout(it, family, vs, k);
      assert Stays(it, family, vs[k]);
      AnyOrder(it, family, it.apply(us[0], s), us[1..], Without(vs, k));
    }
  }

  function One<T, E>(r: Result<T, E>): multiset<T> {
    if r.Ok? then multiset{r.value} else multiset{}
  }

  lemma UpdatesOfCons<S, U>(it: Interpreter<S, U>, env: Env, mode: Mode, leaves: seq<Leaf>)
    requires leaves != []
    ensures multiset(Updates(it, env, mode, leaves)) == One(DecodeLeaf(it, env, mode, leaves[0]))
            + multiset(Updates(it, env, mode, leaves[1..]))
  {
  }

  lemma {:induction false} UpdatesOfWithout<S, U>(it: Interpreter<S, U>, env: Env, mode: Mode, leaves: seq<Leaf>,
                                                  k: nat)
    requires k < |leaves|
    ensures multiset(Updates(it, env, mode, leaves)) ==
            One(DecodeLeaf(it, env, mode, leaves[k])) + multiset(Updates(it, env, mode, Without(leaves, k)))
  {
    UpdatesOfCons(it, env, mode, leaves);
    var w := Without(leaves, k);
    if k == 0 {
      assert w == leaves[1..];
    } else {
      UpdatesOfWithout(it, env, mode, leaves[1..], k - 1);
      assert w[0] == leaves[0] && w[1..] == Without(leaves[1..], k - 1);
      UpdatesOfCons(it, env, mode, w);
    }
  }

  /** The same leaves ask for the same updates, in whatever order they come. */
  lemma {:induction false} SameUpdates<S, U>(it: Interpreter<S, U>, env: Env, mode: Mode, p: seq<Leaf>, q: seq<Leaf>)
    requires multiset(p) == multiset(q)
    ensures multiset(Updates(it, env, mode, p)) == multiset(Updates(it, env, mode, q))
    decreases |p|
  {
    if p == [] {
      assert |multiset(q)| == 0;
    } else {
      var k := TailWithout(p, q);
      SameUpdates(it, env, mode, p[1..], Without(q, k));
      UpdatesOfWithout(it, env, mode, q, k);
      UpdatesOfCons(it, env, mode, p);
    }
  }

  /** If the updates of an object commute, every iteration order of the Go map gives
      the same state or the same failure. */
  lemma OrderIsIrrelevant<S(!new), U>(it: Interpreter<S, U>, env: Env, mode: Mode, family: S -> bool, s: S,
                                      p: seq<Leaf>, q: seq<Leaf>)
    requires family(s) && multiset(p) == multiset(q) && AllCommute(it, family, Updates(it, env, mode, q))
    ensures Fold(it, env, mode, s, p) == Fold(it, env, mode, s, q)
  {
    FoldIs(it, env, mode, s, p);
    FoldIs(it, env, mode, s, q);
    SameUpdates(it, env, mode, p, q);
    AnyOrder(it, family, s, Updates(it, env, mode, p), Updates(it, env, mode, q));
    forall leaf
      ensures leaf in p <==> leaf in q
    {
      assert leaf in multiset(p) <==> leaf in multiset(q);
    }
  }

  /* ----- operations ----- */

  /** The object an operation without path works on, as an amount of JSON. */
  function Content(raw: Option<Json>): Json {
    if raw.Some? then raw.value else Null
  }

  /** What a path and a value did to the state, or that they failed; without a path,
      `order` is the order in which the leaves of the object came. */
  ghost predicate ValueApplied<S, U>(it: Interpreter<S, U>, env: Env, mode: Mode, p: Path, raw: Option<Json>, s: S,
                                     order: seq<Leaf>, after: S, error: Option<Failure>) {
    if p.attr == "" then
      && multiset(order) == multiset(RawLeaves(raw, env.paths))
      && match Fold(it, env, mode, s, order)
         case None => error == Some(InvalidValue)
         case Some(t) => error == None && after == t
    else
      match it.decode(env, mode, p, raw)
      case Err(f) => error == Some(f) && after == s
      case Ok(u) => error == None && after == it.apply(u, s)
  }

  /** The visit of one key, as leaves. */
  function EntryOrder(p: Path, v: Json, order: seq<Leaf>): seq<Leaf> {
    if p.attr == "" then order else [Leaf(p, v)]
  }

  lemma EntryApplied<S, U>(it: Interpreter<S, U>, env: Env, mode: Mode, k: string, p: Path, v: Json, s: S,
                           order: seq<Leaf>, after: S, error: Option<Failure>)
    requires env.paths(k) == Ok(p) && ValueApplied(it, env, mode, p, Some(v), s, order, after, error)
    ensures multiset(EntryOrder(p, v, order)) == multiset(EntryLeaves(k, v, env.paths))
    ensures Fold(it, env, mode, s, EntryOrder(p, v, order)) == if error == Some(InvalidValue) then None else Some(after)
  {
    FoldOne(it, env, mode, s, p, v);
  }

  /** The loop over an object's keys when the keys in `left` are still to come: the
      leaves visited so far, and the state they led to. */
  ghost predicate Visited<S, U>(it: Interpreter<S, U>, env: Env, mode: Mode, fields: seq<Field>, left: set<string>,
                                s: S, order: seq<Leaf>, now: S) {
    && multiset(order) + multiset(LeavesIn(fields, left, env.paths)) == multiset(FieldLeaves(fields, env.paths))
    && Fold(it, env, mode, s, order) == Some(now)
  }

  lemma VisitStart<S, U>(it: Interpreter<S, U>, env: Env, mode: Mode, fields: seq<Field>, s: S)
    ensures Visited(it, env, mode, fields, FieldMap(fields).Keys, s, [], s)
  {
    LeavesInAll(fields, FieldMap(fields).Keys, env.paths);
  }

  lemma VisitCounts(fields: seq<Field>, left: set<string>, k: string, paths: PathParser, order: seq<Leaf>,
                    entry: seq<Leaf>)
    requires k in left && k in FieldMap(fields)
    requires multiset(order) + multiset(LeavesIn(fields, left, paths)) == multiset(FieldLeaves(fields, paths))
    requires multiset(entry) == multiset(EntryLeaves(k, FieldMap(fields)[k], paths))
    ensures multiset(order + entry) + multiset(LeavesIn(fields, left - {k}, paths))
            == multiset(FieldLeaves(fields, paths))
  {
    VisitKey(fields, left, k, paths);
  }

  lemma VisitMore<S, U>(it: Interpreter<S, U>, env: Env, mode: Mode, fields: seq<Field>, left: set<string>, k: string,
                        s: S, order: seq<Leaf>, before: S, entry: seq<Leaf>, now: S)
    requires k in left && k in FieldMap(fields) && Visited(it, env, mode, fields, left, s, order, before)
    requires multiset(entry) == multiset(EntryLeaves(k, FieldMap(fields)[k], env.paths))
    requires Fold(it, env, mode, before, entry) == Some(now)
    ensures Visited(it, env, mode, fields, left - {k}, s, order + entry, now)
  {
    VisitCounts(fields, left, k, env.paths, order, entry);
    FoldJoin(it, env, mode, s, order, entry);
  }

  lemma FoldFails<S, U>(it: Interpreter<S, U>, env: Env, mode: Mode, s: S, order: seq<Leaf>, before: S,
                        entry: seq<Leaf>, rest: seq<Leaf>)
    requires Fold(it, env, mode, s, order) == Some(before) && Fold(it, env, mode, before, entry) == None
    ensures Fold(it, env, mode, s, order + entry + rest) == None
  {
    FoldJoin(it, env, mode, s, order, entry);
    FoldJoin(it, env, mode, s, order + entry, rest);
  }

  lemma RootFails<S, U>(it: Interpreter<S, U>, env: Env, mode: Mode, fields: seq<Field>, s: S, order: seq<Leaf>, now: S)
    requires multiset(order) == multiset(FieldLeaves(fields, env.paths)) && Fold(it, env, mode, s, order) == None
    ensures ValueApplied(it, env, mode, EmptyPath, Some(Obj(fields)), s, order, now, Some(InvalidValue))
  {
  }

  lemma VisitFail<S, U>(it: Interpreter<S, U>, env: Env, mode: Mode, fields: seq<Field>, left: set<string>, k: string,
                        s: S, order: seq<Leaf>, before: S, entry: seq<Leaf>, rest: seq<Leaf>, now: S)
    requires k in left && k in FieldMap(fields) && Visited(it, env, mode, fields, left, s, order, before)
    requires multiset(entry) == multiset(EntryLeaves(k, FieldMap(fields)[k], env.paths))
    requires Fold(it, env, mode, before, entry) == None
    requires rest == LeavesIn(fields, left - {k}, env.paths)
    ensures ValueApplied(it, env, mode, EmptyPath, Some(Obj(fields)), s, order + entry + rest, now, Some(InvalidValue))
  {
    VisitCounts(fields, left, k, env.paths, order, entry);
    FoldFails(it, env, mode, s, order, before, entry, rest);
    var whole := order + entry + rest;
    assert multiset(whole) == multiset(order + entry) + multiset(rest);
    RootFails(it, env, mode, fields, s, whole, now);
  }

  lemma VisitEnd<S, U>(it: Interpreter<S, U>, env: Env, mode: Mode, fields: seq<Field>, s: S, order: seq<Leaf>, now: S)
    requires Visited(it, env, mode, fields, {}, s, order, now)
    ensures ValueApplied(it, env, mode, EmptyPath, Some(Obj(fields)), s, order, now, None)
  {
    LeavesInNone(fields, env.paths);
  }

  /** A value of the map lies inside the object. */
  lemma Inside(fields: seq<Field>, k: string)
    requires k in FieldMap(fields)
    ensures FieldMap(fields)[k] < Obj(fields)
  {
    assert Field(k, FieldMap(fields)[k]) in fields;
  }

  function OrInvalid<S>(r: Option<S>): Result<S, Failure> {
    if r.Some? then Ok(r.value) else Err(InvalidValue)
  }

  /** Some order of the leaves gives this result. */
  ghost predicate InSomeOrder<S, U>(it: Interpreter<S, U>, env: Env, mode: Mode, s: S, leaves: seq<Leaf>,
                                    r: Result<S, Failure>) {
    exists order :: multiset(order) == multiset(leaves) && r == OrInvalid(Fold(it, env, mode, s, order))
  }

  /** The possible results of an operation with a value. Without a path the value is
      an object, and its leaves come in any order. */
  ghost predicate ValueOutcome<S, U>(it: Interpreter<S, U>, env: Env, mode: Mode, p: Path, raw: Option<Json>, s: S,
                                     r: Result<S, Failure>) {
    if p.attr == "" then InSomeOrder(it, env, mode, s, RawLeaves(raw, env.paths), r)
    else
      match it.decode(env, mode, p, raw)
      case Err(f) => r == Err(f)
      case Ok(u) => r == Ok(it.apply(u, s))
  }

  ghost predicate OpOutcome<S, U>(it: Interpreter<S, U>, env: Env, s: S, op: PatchOp, r: Result<S, Failure>) {
    match env.paths(op.path)
    case Err(_) => r == Err(NoTarget)
    case Ok(p) =>
      var name := Lower(op.op);
      if name == "add" then ValueOutcome(it, env, Add, p, op.value, s, r)
      else if name == "replace" then ValueOutcome(it, env, Replace, p, op.value, s, r)
      else if name == "remove" then r == it.remove(env, p, s)
      else r == Err(NoTarget)
  }

  /** The operation that failed, and why. */
  datatype PatchError = PatchError(index: nat, failure: Failure)

  /** One more operation after a patch. */
  ghost predicate NextOutcome<S(!new), U>(it: Interpreter<S, U>, env: Env, before: Result<S, PatchError>, op: PatchOp,
                                          index: nat, r: Result<S, PatchError>) {
    if before.Err? then r == before
    else exists one :: OpOutcome(it, env, before.value, op, one) && r == if one.Ok? then Ok(one.value)
        else Err(PatchError(index, one.error))
  }

  /** The possible results of a patch: the operations in order, up to the first that
      fails. */
  ghost predicate PatchOutcome<S(!new), U>(it: Interpreter<S, U>, env: Env, s: S, ops: seq<PatchOp>,
                                           r: Result<S, PatchError>) {
    if ops == [] then r == Ok(s)
    else
      var n := |ops| - 1;
      exists before :: PatchOutcome(it, env, s, ops[..n], before) && NextOutcome(it, env, before, ops[n], n, r)
  }

  lemma OneMore<S(!new), U>(it: Interpreter<S, U>, env: Env, s: S, ops: seq<PatchOp>, i: nat, before: S,
                            one: Result<S, Failure>, r: Result<S, PatchError>)
    requires i < |ops| && PatchOutcome(it, env, s, ops[..i], Ok(before)) && OpOutcome(it, env, before, ops[i], one)
    requires r == if one.Ok? then Ok(one.value) else Err(PatchError(i, one.error))
    ensures PatchOutcome(it, env, s, ops[..i + 1], r)
  {
    assert ops[..i + 1][..i] == ops[..i];
    var b: Result<S, PatchError> := Ok(before);
    assert NextOutcome(it, env, b, ops[i], i, r);
  }

  /** A failed patch stays failed, whatever operations follow. */
  lemma {:induction false} FailureStays<S(!new), U>(it: Interpreter<S, U>, env: Env, s: S, ops: seq<PatchOp>, n: nat,
                                                    e: PatchError)
    requires n <= |ops| && PatchOutcome(it, env, s, ops[..n], Err(e))
    ensures PatchOutcome(it, env, s, ops, Err(e))
    decreases |ops|
  {
    if n == |ops| {
      assert ops[..n] == ops;
    } else {
      var init := ops[..|ops| - 1];
      assert init[..n] == ops[..n];
      FailureStays(it, env, s, init, n, e);
      var r: Result<S, PatchError> := Err(e);
      assert NextOutcome(it, env, r, ops[|ops| - 1], |ops| - 1, r);
    }
  }

  function Later<S>(r: Result<S, PatchError>, offset: nat): Result<S, PatchError> {
    if r.Ok? then r else Err(PatchError(r.error.index + offset, r.error.failure))
  }

  /** A result of `b` on what a patch left. */
  ghost predicate Then<S(!new), U>(it: Interpreter<S, U>, env: Env, mid: Result<S, PatchError>, b: seq<PatchOp>,
                                   offset: nat, r: Result<S, PatchError>) {
    if mid.Err? then r == mid
    else exists r' :: PatchOutcome(it, env, mid.value, b, r') && r == Later(r', offset)
  }

  lemma SplitLast(a: seq<PatchOp>, b: seq<PatchOp>, ab: seq<PatchOp>)
    requires ab == a + b && b != []
    ensures var n := |b| - 1; ab[..|ab| - 1] == a + b[..n] && ab == ab[..|ab| - 1] + [b[n]]
  {
  }

  /** What the operations before the last one left. */
  lemma BeforeLast<S(!new), U>(it: Interpreter<S, U>, env: Env, s: S, a: seq<PatchOp>, b: seq<PatchOp>,
                               ab: seq<PatchOp>, r: Result<S, PatchError>)
    returns (before: Result<S, PatchError>)
    requires ab == a + b && b != [] && PatchOutcome(it, env, s, ab, r)
    ensures PatchOutcome(it, env, s, ab[..|ab| - 1], before)
            && NextOutcome(it, env, before, b[|b| - 1], |a| + |b| - 1, r)
  {
    before :| PatchOutcome(it, env, s, ab[..|ab| - 1], before)
        && NextOutcome(it, env, before, ab[|ab| - 1], |ab| - 1, r);
  }

  lemma AfterLast<S(!new), U>(it: Interpreter<S, U>, env: Env, s: S, a: seq<PatchOp>, b: seq<PatchOp>, ab: seq<PatchOp>,
                              before: Result<S, PatchError>, r: Result<S, PatchError>)
    requires ab == a + b && b != []
    requires PatchOutcome(it, env, s, ab[..|ab| - 1], before)
             && NextOutcome(it, env, before, b[|b| - 1], |a| + |b| - 1, r)
    ensures PatchOutcome(it, env, s, ab, r)
  {
  }

  lemma {:induction false} JoinForward<S(!new), U>(it: Interpreter<S, U>, env: Env, s: S, a: seq<PatchOp>,
                                                   b: seq<PatchOp>, ab: seq<PatchOp>, r: Result<S, PatchError>)
    returns (mid: Result<S, PatchError>)
    requires ab == a + b && PatchOutcome(it, env, s, ab, r)
    ensures PatchOutcome(it, env, s, a, mid) && Then(it, env, mid, b, |a|, r)
    decreases |b|
  {
    if b == [] {
      JoinNothing(it, env, s, a, b, r);
      mid := r;
    } else {
      SplitLast(a, b, ab);
      var before := BeforeLast(it, env, s, a, b, ab, r);
      mid := JoinForward(it, env, s, a, b[..|b| - 1], ab[..|ab| - 1], before);
      JoinStep(it, env, mid, b, |a|, before, r);
    }
  }

  lemma {:induction false} JoinBackward<S(!new), U>(it: Interpreter<S, U>, env: Env, s: S, a: seq<PatchOp>,
                                                    b: seq<PatchOp>, ab: seq<PatchOp>, mid: Result<S, PatchError>,
                                                    r: Result<S, PatchError>)
    requires ab == a + b && PatchOutcome(it, env, s, a, mid) && Then(it, env, mid, b, |a|, r)
    ensures PatchOutcome(it, env, s, ab, r)
    decreases |b|
  {
    if b == [] {
      JoinNothing(it, env, s, a, b, r);
    } else {
      SplitLast(a, b, ab);
      var before := JoinBack(it, env, mid, b, |a|, r);
      JoinBackward(it, env, s, a, b[..|b| - 1], ab[..|ab| - 1], mid, before);
      AfterLast(it, env, s, a, b, ab, before, r);
    }
  }

  /** Applying `a + b` is applying `a` and then, unless that failed, `b`. */
  lemma PatchJoin<S(!new), U>(it: Interpreter<S, U>, env: Env, s: S, a: seq<PatchOp>, b: seq<PatchOp>,
                              r: Result<S, PatchError>)
    ensures PatchOutcome(it, env, s, a + b, r) <==>
            exists mid :: PatchOutcome(it, env, s, a, mid) && Then(it, env, mid, b, |a|, r)
  {
    if PatchOutcome(it, env, s, a + b, r) {
      var mid := JoinForward(it, env, s, a, b, a + b, r);
    }
    if mid :| PatchOutcome(it, env, s, a, mid) && Then(it, env, mid, b, |a|, r) {
      JoinBackward(it, env, s, a, b, a + b, mid, r);
    }
  }

  lemma JoinNothing<S(!new), U>(it: Interpreter<S, U>, env: Env, s: S, a: seq<PatchOp>, b: seq<PatchOp>,
                                r: Result<S, PatchError>)
    requires b == []
    ensures PatchOutcome(it, env, s, a + b, r) <==>
            exists mid :: PatchOutcome(it, env, s, a, mid) && Then(it, env, mid, b, |a|, r)
  {
    assert a + b == a;
    if PatchOutcome(it, env, s, a, r) {
      assert r.Ok? ==> PatchOutcome(it, env, r.value, b, r) && r == Later(r, |a|);
      assert Then(it, env, r, b, |a|, r);
    }
  }

  lemma JoinStep<S(!new), U>(it: Interpreter<S, U>, env: Env, mid: Result<S, PatchError>, b: seq<PatchOp>, offset: nat,
                             before: Result<S, PatchError>, r: Result<S, PatchError>)
    requires b != [] && Then(it, env, mid, b[..|b| - 1], offset, before)
             && NextOutcome(it, env, before, b[|b| - 1], offset + |b| - 1, r)
    ensures Then(it, env, mid, b, offset, r)
  {
    if mid.Ok? {
      var n := |b| - 1;
      var before' :| PatchOutcome(it, env, mid.value, b[..n], before') && before == Later(before', offset);
      var r' := if before'.Err? then before' else if r.Ok? then r else Err(PatchError(n, r.error.failure));
      assert NextOutcome(it, env, before', b[n], n, r');
      assert PatchOutcome(it, env, mid.value, b, r') && r == Later(r', offset);
    }
  }

  lemma JoinBack<S(!new), U>(it: Interpreter<S, U>, env: Env, mid: Result<S, PatchError>, b: seq<PatchOp>, offset: nat,
                             r: Result<S, PatchError>)
    returns (before: Result<S, PatchError>)
    requires b != [] && Then(it, env, mid, b, offset, r)
    ensures Then(it, env, mid, b[..|b| - 1], offset, before)
            && NextOutcome(it, env, before, b[|b| - 1], offset + |b| - 1, r)
  {
    before := mid;
    if mid.Ok? {
      var n := |b| - 1;
      var r' :| PatchOutcome(it, env, mid.value, b, r') && r == Later(r', offset);
      var before' :| PatchOutcome(it, env, mid.value, b[..n], before') && NextOutcome(it, env, before', b[n], n, r');
      before := Later(before', offset);
    }
  }

  /* ----- determinism ----- */

  /** Every order of the leaves gives the same state or the same failure. */
  ghost predicate OrdersAgree<S, U>(it: Interpreter<S, U>, env: Env, mode: Mode, s: S, leaves: seq<Leaf>) {
    forall p, q :: multiset(p) == multiset(leaves) && multiset(q) == multiset(leaves) ==>
        Fold(it, env, mode, s, p) == Fold(it, env, mode, s, q)
  }

  lemma SameLeaves(p: seq<Leaf>, q: seq<Leaf>)
    requires multiset(p) == multiset(q)
    ensures forall leaf :: leaf in p <==> leaf in q
  {
    forall leaf
      ensures leaf in p <==> leaf in q
    {
      assert leaf in multiset(p) <==> leaf in multiset(q);
    }
  }

  lemma InvalidInAnyOrder<S, U>(it: Interpreter<S, U>, env: Env, mode: Mode, s: S, leaves: seq<Leaf>)
    requires SomeInvalid(it, env, mode, leaves)
    ensures OrdersAgree(it, env, mode, s, leaves)
  {
    forall p | multiset(p) == multiset(leaves)
      ensures Fold(it, env, mode, s, p) == None
    {
      SameLeaves(p, leaves);
      FoldIs(it, env, mode, s, p);
    }
  }

  /** Any two supported leaves ask for updates that commute, and none leaves the
      family. */
  ghost predicate LeavesCommute<S(!new), U>(it: Interpreter<S, U>, env: Env, mode: Mode, family: S -> bool,
                                            leaves: seq<Leaf>) {
    && (forall i :: 0 <= i < |leaves| && DecodeLeaf(it, env, mode, leaves[i]).Ok? ==>
          Stays(it, family, DecodeLeaf(it, env, mode, leaves[i]).value))
    && forall i, j ::
         0 <= i < j < |leaves| && DecodeLeaf(it, env, mode, leaves[i]).Ok?
         && DecodeLeaf(it, env, mode, leaves[j]).Ok? ==>
         Commute(it, family, DecodeLeaf(it, env, mode, leaves[i]).value, DecodeLeaf(it, env, mode, leaves[j]).value)
  }

  /** The leaf that asks for an update. */
  lemma {:induction false} UpdateHasLeaf<S, U>(it: Interpreter<S, U>, env: Env, mode: Mode, leaves: seq<Leaf>, k: nat)
    returns (i: nat)
    requires k < |Updates(it, env, mode, leaves)|
    ensures i < |leaves| && DecodeLeaf(it, env, mode, leaves[i]) == Ok(Updates(it, env, mode, leaves)[k])
  {
    if DecodeLeaf(it, env, mode, leaves[0]).Ok? {
      if k == 0 {
        i := 0;
        return;
      }
      i := UpdateHasLeaf(it, env, mode, leaves[1..], k - 1);
    } else {
      i := UpdateHasLeaf(it, env, mode, leaves[1..], k);
    }
    i := i + 1;
  }

  lemma {:induction false} CommutingUpdates<S(!new), U>(it: Interpreter<S, U>, env: Env, mode: Mode, family: S -> bool,
                                                        leaves: seq<Leaf>)
    requires LeavesCommute(it, env, mode, family, leaves)
    ensures AllCommute(it, family, Updates(it, env, mode, leaves))
  {
    if leaves != [] {
      var us, rest := Updates(it, env, mode, leaves), Updates(it, env, mode, leaves[1..]);
      assert forall i :: 0 <= i < |leaves[1..]| ==> leaves[1..][i] == leaves[i + 1];
      CommutingUpdates(it, env, mode, family, leaves[1..]);
      if DecodeLeaf(it, env, mode, leaves[0]).Ok? {
        assert us == [us[0]] + rest;
        forall j | 0 < j < |us|
          ensures Commute(it, family, us[0], us[j]) && Stays(it, family, us[j])
        {
          var i := UpdateHasLeaf(it, env, mode, leaves[1..], j - 1);
          assert leaves[1..][i] == leaves[i + 1];
        }
        forall i, j | 0 < i < j < |us|
          ensures Commute(it, family, us[i], us[j])
        {
          assert us[i] == rest[i - 1] && us[j] == rest[j - 1];
        }
      }
    }
  }

  lemma CommutingLeaves<S(!new), U>(it: Interpreter<S, U>, env: Env, mode: Mode, family: S -> bool, s: S,
                                    leaves: seq<Leaf>)
    requires family(s) && LeavesCommute(it, env, mode, family, leaves)
    ensures OrdersAgree(it, env, mode, s, leaves)
  {
    CommutingUpdates(it, env, mode, family, leaves);
    forall p | multiset(p) == multiset(leaves)
      ensures Fold(it, env, mode, s, p) == Fold(it, env, mode, s, leaves)
    {
      OrderIsIrrelevant(it, env, mode, family, s, p, leaves);
    }
  }

  function LastIs<T>(xs: seq<T>, k: nat): seq<T>
    requires k < |xs|
  {
    Without(xs, k) + [xs[k]]
  }

  /** A supported leaf can come last. */
  lemma PutLast<S, U>(it: Interpreter<S, U>, env: Env, mode: Mode, s: S, leaves: seq<Leaf>, k: nat, u: U)
    returns (before: S)
    requires k < |leaves| && DecodeLeaf(it, env, mode, leaves[k]) == Ok(u) && !SomeInvalid(it, env, mode, leaves)
    ensures multiset(LastIs(leaves, k)) == multiset(leaves)
    ensures Fold(it, env, mode, s, LastIs(leaves, k)) == Some(it.apply(u, before))
  {
    var w := Without(leaves, k);
    MultisetWithout(leaves, k);
    SameLeaves(LastIs(leaves, k), leaves);
    FoldIs(it, env, mode, s, w);
    assert forall leaf :: leaf in w ==> leaf in leaves;
    before := Fold(it, env, mode, s, w).value;
    FoldJoin(it, env, mode, s, w, [leaves[k]]);
    FoldOne(it, env, mode, before, leaves[k].path, leaves[k].value);
  }

  /** So orders disagree if two supported leaves never lead to the same state. */
  lemma LastDecides<S(!new), U>(it: Interpreter<S, U>, env: Env, mode: Mode, s: S, leaves: seq<Leaf>, i: nat, j: nat,
                                u: U, v: U)
    requires i < |leaves| && j < |leaves| && DecodeLeaf(it, env, mode, leaves[i]) == Ok(u)
             && DecodeLeaf(it, env, mode, leaves[j]) == Ok(v)
    requires !SomeInvalid(it, env, mode, leaves) && forall x, y :: it.apply(u, x) != it.apply(v, y)
    ensures !OrdersAgree(it, env, mode, s, leaves)
  {
    var x := PutLast(it, env, mode, s, leaves, i, u);
    var y := PutLast(it, env, mode, s, leaves, j, v);
    assert it.apply(u, x) != it.apply(v, y);
  }

  /** The mode of an operation without path that takes a value. */
  function RootMode(env: Env, op: PatchOp): Option<Mode> {
    match env.paths(op.path)
    case Err(_) => None
    case Ok(p) =>
      if p.attr != "" then None
      else if Lower(op.op) == "add" then Some(Add)
      else if Lower(op.op) == "replace" then Some(Replace)
      else None
  }

  ghost predicate OneOutcome<S(!new), U>(it: Interpreter<S, U>, env: Env, s: S, op: PatchOp) {
    forall r, r' :: OpOutcome(it, env, s, op, r) && OpOutcome(it, env, s, op, r') ==> r == r'
  }

  lemma RootOutcome<S, U>(it: Interpreter<S, U>, env: Env, s: S, op: PatchOp, r: Result<S, Failure>)
    requires RootMode(env, op).Some?
    ensures OpOutcome(it, env, s, op, r) <==>
            InSomeOrder(it, env, RootMode(env, op).value, s, RawLeaves(op.value, env.paths), r)
  {
    assert Lower(op.op) == "replace" ==> |Lower(op.op)| != |"add"|;
  }

  /** An operation has one outcome exactly if it does not depend on the order of the
      leaves. */
  lemma OneOutcomeIff<S(!new), U>(it: Interpreter<S, U>, env: Env, s: S, op: PatchOp)
    ensures OneOutcome(it, env, s, op) <==>
            RootMode(env, op).None? || OrdersAgree(it, env, RootMode(env, op).value, s, RawLeaves(op.value, env.paths))
  {
    if RootMode(env, op).Some? {
      var mode, leaves := RootMode(env, op).value, RawLeaves(op.value, env.paths);
      forall r
        ensures OpOutcome(it, env, s, op, r) <==> InSomeOrder(it, env, mode, s, leaves, r)
      {
        RootOutcome(it, env, s, op, r);
      }
      if OneOutcome(it, env, s, op) {
        forall p, q | multiset(p) == multiset(leaves) && multiset(q) == multiset(leaves)
          ensures Fold(it, env, mode, s, p) == Fold(it, env, mode, s, q)
        {
          var r, r' := OrInvalid(Fold(it, env, mode, s, p)), OrInvalid(Fold(it, env, mode, s, q));
          assert OpOutcome(it, env, s, op, r) && OpOutcome(it, env, s, op, r');
        }
      }
    }
  }

  /** Operations with one outcome in every state make a patch with one result,
      whatever order Go visits the keys of its objects in. */
  lemma {:induction false} PatchHasOneOutcome<S(!new), U>(it: Interpreter<S, U>, env: Env, s: S, ops: seq<PatchOp>,
                                                          r: Result<S, PatchError>, r': Result<S, PatchError>)
    requires forall op, t :: op in ops ==> OneOutcome(it, env, t, op)
    requires PatchOutcome(it, env, s, ops, r) && PatchOutcome(it, env, s, ops, r')
    ensures r == r'
  {
    if ops != [] {
      var n := |ops| - 1;
      var before :| PatchOutcome(it, env, s, ops[..n], before) && NextOutcome(it, env, before, ops[n], n, r);
      var before' :| PatchOutcome(it, env, s, ops[..n], before') && NextOutcome(it, env, before', ops[n], n, r');
      PatchHasOneOutcome(it, env, s, ops[..n], before, before');
      if before.Ok? {
        assert OneOutcome(it, env, before.value, ops[n]);
      }
    }
  }

  /** No two leaves of an object have the same attribute, up to case. */
  predicate DistinctAttributes(leaves: seq<Leaf>) {
    forall i, j :: 0 <= i < j < |leaves| && leaves[i].Leaf? && leaves[j].Leaf? ==>
        leaves[i].path.attr != leaves[j].path.attr
  }

  /* ----- two spellings of one attribute ----- */

  const DisplayName := Path("displayname", "", None)

  lemma TwoNames(fields: seq<Field>, k1: string, k2: string, a: Json, b: Json, paths: PathParser)
    requires fields == [Field(k1, a), Field(k2, b)] && k1 != k2
    requires paths(k1) == Ok(DisplayName) && paths(k2) == Ok(DisplayName)
    ensures FieldLeaves(fields, paths) == [Leaf(DisplayName, a), Leaf(DisplayName, b)]
  {
    var rest := fields[1..];
    assert rest == [Field(k2, b)] && rest[1..] == [];
    assert FieldLeaves(rest, paths) == [Leaf(DisplayName, b)];
    assert !HasKey(rest, k1);
  }

  /** A replacement of the display name, spelled in two ways. */
  function TwoSpellings(x: string, y: string): PatchOp {
    PatchOp("replace", "", Some(Obj([Field("displayname", Json.Str(x)), Field("Displayname", Json.Str(y))])))
  }

  /** A spelling of the attribute. */
  predicate Spelling(k: string) {
    IsPathName(k) && Lower(k) == "displayname"
  }

  lemma SpellingsOk()
    ensures Spelling("displayname") && Spelling("Displayname") && "displayname" != "Displayname"
  {
    assert "displayname"[0] != "Displayname"[0];
  }

  lemma SpellingPath(k: string, number: FloatParser)
    requires Spelling(k)
    ensures PathOf(k, number) == Ok(DisplayName)
  {
    PathOfName(k, number);
  }

  lemma BlankKey(number: FloatParser)
    ensures PathOf("", number) == Ok(EmptyPath)
  {
    assert TrimSpace("") == "";
  }

  lemma ReplaceMode(env: Env, raw: Option<Json>)
    requires env.paths("") == Ok(EmptyPath)
    ensures RootMode(env, PatchOp("replace", "", raw)) == Some(Replace)
  {
    assert Lower("replace") == "replace" && |"replace"| != |"add"|;
  }

  /** Both spellings are the one attribute. */
  lemma SpellingsAre(number: FloatParser, uuid: string -> Option<nat>, x: string, y: string)
    ensures var env, op := Standard(number, uuid), TwoSpellings(x, y);
            && RootMode(env, op) == Some(Replace)
            && RawLeaves(op.value, env.paths) == [Leaf(DisplayName, Json.Str(x)), Leaf(DisplayName, Json.Str(y))]
  {
    var env, k1, k2 := Standard(number, uuid), "displayname", "Displayname";
    SpellingsOk();
    SpellingPath(k1, number);
    SpellingPath(k2, number);
    BlankKey(number);
    ReplaceMode(env, TwoSpellings(x, y).value);
    TwoNames([Field(k1, Json.Str(x)), Field(k2, Json.Str(y))], k1, k2, Json.Str(x), Json.Str(y), env.paths);
  }

  /* ----- what every patch keeps ----- */

  /** The supported leaves of a list. */
  function Supported<S, U>(it: Interpreter<S, U>, env: Env, mode: Mode, leaves: seq<Leaf>): seq<Leaf> {
    if leaves == [] then []
    else
      var rest := Supported(it, env, mode, leaves[1..]);
      if DecodeLeaf(it, env, mode, leaves[0]) == Err(NoTarget) then rest else [leaves[0]] + rest
  }

  /** Attributes the service does not support change nothing. */
  lemma {:induction false} UnsupportedIsIgnored<S, U>(it: Interpreter<S, U>, env: Env, mode: Mode, s: S,
                                                      leaves: seq<Leaf>)
    ensures Fold(it, env, mode, s, leaves) == Fold(it, env, mode, s, Supported(it, env, mode, leaves))
    decreases |leaves|
  {
    if leaves != [] {
      var rest := Supported(it, env, mode, leaves[1..]);
      match DecodeLeaf(it, env, mode, leaves[0])
      case Err(NoTarget) => UnsupportedIsIgnored(it, env, mode, s, leaves[1..]);
      case Err(InvalidValue) => assert ([leaves[0]] + rest)[0] == leaves[0];
      case Ok(u) =>
        UnsupportedIsIgnored(it, env, mode, it.apply(u, s), leaves[1..]);
        assert ([leaves[0]] + rest)[1..] == rest;
    }
  }

  /** Every update that some path and value can ask for keeps a property. */
  ghost predicate UpdatesKeep<S(!new), U>(it: Interpreter<S, U>, env: Env, keep: S -> bool) {
    forall mode, p, raw, x :: it.decode(env, mode, p, raw).Ok? && keep(x) ==>
        keep(it.apply(it.decode(env, mode, p, raw).value, x))
  }

  lemma {:induction false} FoldKeeps<S(!new), U(!new)>(it: Interpreter<S, U>, env: Env, mode: Mode, s: S,
                                                       leaves: seq<Leaf>, keep: S -> bool)
    requires keep(s) && UpdatesKeep(it, env, keep)
    ensures var r := Fold(it, env, mode, s, leaves); r.Some? ==> keep(r.value)
    decreases |leaves|
  {
    if leaves != [] {
      match DecodeLeaf(it, env, mode, leaves[0])
      case Err(NoTarget) => FoldKeeps(it, env, mode, s, leaves[1..], keep);
      case Err(InvalidValue) =>
      case Ok(u) => FoldKeeps(it, env, mode, it.apply(u, s), leaves[1..], keep);
    }
  }

  /** What every update and removal keeps, every patch keeps. */
  lemma {:induction false} PatchKeeps<S(!new), U(!new)>(it: Interpreter<S, U>, env: Env, s: S, ops: seq<PatchOp>,
                                                        r: Result<S, PatchError>, keep: S -> bool)
    requires PatchOutcome(it, env, s, ops, r) && keep(s)
    requires UpdatesKeep(it, env, keep)
    requires forall p, x :: keep(x) && it.remove(env, p, x).Ok? ==> keep(it.remove(env, p, x).value)
    ensures r.Ok? ==> keep(r.value)
  {
    if ops != [] {
      var n := |ops| - 1;
      var before :| PatchOutcome(it, env, s, ops[..n], before) && NextOutcome(it, env, before, ops[n], n, r);
      PatchKeeps(it, env, s, ops[..n], before, keep);
      if r.Ok? {
        var one :| OpOutcome(it, env, before.value, ops[n], one) && r == if one.Ok? then Ok(one.value)
                   else Err(PatchError(n, one.error));
        OpKeeps(it, env, before.value, ops[n], one, keep);
      }
    }
  }

  lemma OpKeeps<S(!new), U(!new)>(it: Interpreter<S, U>, env: Env, s: S, op: PatchOp, r: Result<S, Failure>,
                                  keep: S -> bool)
    requires OpOutcome(it, env, s, op, r) && keep(s)
    requires UpdatesKeep(it, env, keep)
    requires forall p, x :: keep(x) && it.remove(env, p, x).Ok? ==> keep(it.remove(env, p, x).value)
    ensures r.Ok? ==> keep(r.value)
  {
    var p := env.paths(op.path);
    if p.Ok? && p.value.attr == "" && (Lower(op.op) == "add" || Lower(op.op) == "replace") {
      var mode := if Lower(op.op) == "add" then Add else Replace;
      var o :| multiset(o) == multiset(RawLeaves(op.value, env.paths)) && r == OrInvalid(Fold(it, env, mode, s, o));
      FoldKeeps(it, env, mode, s, o, keep);
    }
  }
}
