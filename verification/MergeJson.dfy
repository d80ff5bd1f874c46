/** The merge of a system's overlay properties into an entity's properties. */
module MergeJson {
  import opened Text

  /** A JSON value; an object maps each key to its last value in the text. */
  datatype Json = Null | Atom(text: string) | Arr(items: seq<Json>) | Obj(fields: map<string, Json>)

  /** A raw message: no bytes, bytes that are not JSON, or a value. */
  datatype Raw = Absent | Invalid | Doc(value: Json)

  /** What a merge does: it returns a message, or it writes into a nil map. */
  datatype Outcome = Merged(doc: Raw) | Panic

  type Fields = map<string, Json>

  /** Decoding into a Go map: an object gives its fields, `null` the nil map, and
      anything else is an error. */
  function Decode(doc: Raw): Option<Option<Fields>> {
    if doc.Doc? && doc.value.Obj? then Some(Some(doc.value.fields))
    else if doc.Doc? && doc.value.Null? then Some(None)
    else None
  }

  /* ----- keys ----- */

  /** An overlay key: flat, or inside a namespace. */
  datatype Key = Plain(name: string) | Inside(ns: string, sub: string)

  type Entries = map<Key, Json>

  /** The position of the first dot, or the length if there is none. */
  function Dot(k: string): (i: nat)
    ensures i <= |k| && '.' !in k[..i] && (i < |k| ==> k[i] == '.')
  {
    if k == "" || k[0] == '.' then 0
    else
      var i := Dot(k[1..]);
      assert k[..1 + i] == [k[0]] + k[1..][..i];
      1 + i
  }

  /** A dot separates the namespace, unless it is the first character. */
  function KeyOf(k: string): Key {
    var i := Dot(k);
    if 0 < i < |k| then Inside(k[..i], k[i + 1..]) else Plain(k)
  }

  function KeyText(k: Key): string {
    match k
    case Plain(name) => name
    case Inside(ns, sub) => ns + "." + sub
  }

  lemma TextOfKey(k: string)
    ensures KeyText(KeyOf(k)) == k
  {
  }

  lemma {:induction false} DotAt(ns: string, sub: string)
    requires '.' !in ns
    ensures Dot(ns + "." + sub) == |ns|
  {
    var k := ns + "." + sub;
    if ns == "" {
      assert k[0] == '.';
    } else {
      assert k[1..] == ns[1..] + "." + sub && k[0] == ns[0];
      DotAt(ns[1..], sub);
    }
  }

  /** Every namespaced key is read back as its parts. */
  lemma KeyOfParts(ns: string, sub: string)
    requires ns != "" && '.' !in ns
    ensures KeyOf(ns + "." + sub) == Inside(ns, sub)
  {
    DotAt(ns, sub);
  }

  /** The entries of an overlay, by key. */
  ghost predicate Splits(o: Fields, p: Entries) {
    && (forall k :: k in o ==> KeyOf(k) in p && p[KeyOf(k)] == o[k])
    && forall q :: q in p ==> KeyText(q) in o && KeyOf(KeyText(q)) == q
  }

  ghost function SplitKeys(o: Fields): Entries {
    if o == map[] then map[]
    else
      var k :| k in o;
      SplitKeys(o - {k})[KeyOf(k) := o[k]]
  }

  lemma {:induction false} SplitKeysSplits(o: Fields)
    ensures Splits(o, SplitKeys(o))
  {
    if o != map[] {
      var k :| k in o && SplitKeys(o) == SplitKeys(o - {k})[KeyOf(k) := o[k]];
      SplitKeysSplits(o - {k});
      SplitsMore(o, k, SplitKeys(o - {k}));
    }
  }

  lemma SplitsMore(o: Fields, k: string, p: Entries)
    requires k in o && Splits(o - {k}, p)
    ensures Splits(o, p[KeyOf(k) := o[k]])
  {
    var p' := p[KeyOf(k) := o[k]];
    forall x | x in o
      ensures KeyOf(x) in p' && p'[KeyOf(x)] == o[x]
    {
      SplitsKey(o, k, p, x);
    }
    forall q | q in p'
      ensures KeyText(q) in o && KeyOf(KeyText(q)) == q
    {
      TextOfKey(k);
      assert q == KeyOf(k) || q in p;
    }
  }

  lemma SplitsKey(o: Fields, k: string, p: Entries, x: string)
    requires k in o && x in o && Splits(o - {k}, p)
    ensures var p' := p[KeyOf(k) := o[k]]; KeyOf(x) in p' && p'[KeyOf(x)] == o[x]
  {
    TextOfKey(k);
    TextOfKey(x);
    assert x != k ==> x in o - {k};
  }

  lemma SplitsOnce(o: Fields, p: Entries)
    requires Splits(o, p)
    ensures SplitKeys(o) == p
  {
    SplitKeysSplits(o);
    SplitsSame(o, p, SplitKeys(o));
  }

  lemma SplitsSame(o: Fields, p: Entries, p': Entries)
    requires Splits(o, p) && Splits(o, p')
    ensures p == p'
  {
  }

  /* ----- what the merge should be ----- */

  function At(fields: Fields, k: string): Option<Json> {
    if k in fields then Some(fields[k]) else None
  }

  /** The entries under one namespace. */
  function Under(p: Entries, ns: string): (r: Fields)
    ensures forall s :: s in r <==> Inside(ns, s) in p
    ensures forall s :: s in r ==> r[s] == p[Inside(ns, s)]
  {
    map k | k in p && k.Inside? && k.ns == ns :: k.sub := p[k]
  }

  /** The object a value is, or an empty one. */
  function ObjectIn(v: Option<Json>): Fields {
    if v.Some? && v.value.Obj? then v.value.fields else map[]
  }

  /** A value after a namespace's entries are merged into it. */
  function Put(v: Option<Json>, entries: Fields): Option<Json> {
    if entries == map[] then v else Some(Obj(ObjectIn(v) + entries))
  }

  /** The value under `k` after the overlay's flat entries have overridden it. */
  function FlatAt(v: Option<Json>, p: Entries, k: string): Option<Json> {
    if Plain(k) in p then Some(p[Plain(k)]) else v
  }

  /** What becomes of value `v` under `k`: a flat entry overrides it, then the entries
      of namespace `k` update what is there. */
  function MergedAt(v: Option<Json>, p: Entries, k: string): Option<Json> {
    Put(FlatAt(v, p, k), Under(p, k))
  }

  /** The keys of the merged object that come from the overlay. */
  function Names(p: Entries): (r: set<string>)
    ensures forall n :: Plain(n) in p ==> n in r
    ensures forall ns, s :: Inside(ns, s) in p ==> ns in r
  {
    (set k | k in p && k.Plain? :: k.name) + (set k | k in p && k.Inside? :: k.ns)
  }

  function Overlaid(b: Fields, p: Entries): (r: Fields)
    ensures forall k :: At(r, k) == MergedAt(At(b, k), p, k)
  {
    map k | k in b.Keys + Names(p) && MergedAt(At(b, k), p, k).Some? :: MergedAt(At(b, k), p, k).value
  }

  /** The merge copies into a nil map: a namespace's value is null. */
  ghost predicate HitsNull(b: Fields, p: Entries) {
    exists ns :: Under(p, ns) != map[] && FlatAt(At(b, ns), p, ns) == Some(Null)
  }

  function OrEmpty(fields: Option<Fields>): Fields {
    if fields.Some? then fields.value else map[]
  }

  ghost function MergeEntries(b: Fields, p: Entries): Outcome {
    if HitsNull(b, p) then Panic else Merged(Doc(Obj(Overlaid(b, p))))
  }

  ghost function Merge(base: Raw, overlay: Raw): Outcome {
    if overlay.Absent? || Decode(base).None? || Decode(overlay).None? then Merged(base)
    else MergeEntries(OrEmpty(Decode(base).value), SplitKeys(OrEmpty(Decode(overlay).value)))
  }

  /* ----- the code ----- */

  /** What the grouping loop has built from the entries it has seen. */
  ghost predicate Grouped(b: Fields, part: Entries, baseMap: Fields, nested: map<string, Fields>) {
    && (forall n :: n in baseMap <==> n in b || Plain(n) in part)
    && (forall n :: n in baseMap ==> baseMap[n] == if Plain(n) in part then part[Plain(n)] else b[n])
    && (forall ns, s :: Inside(ns, s) in part ==>
        ns in nested && s in nested[ns] && nested[ns][s] == part[Inside(ns, s)])
    && (forall ns, s :: ns in nested && s in nested[ns] ==> Inside(ns, s) in part)
    && forall ns :: ns in nested ==> exists s :: s in nested[ns]
  }

  lemma PlainStep(b: Fields, part: Entries, name: string, v: Json, baseMap: Fields, nested: map<string, Fields>)
    requires Grouped(b, part, baseMap, nested)
    ensures Grouped(b, part[Plain(name) := v], baseMap[name := v], nested)
  {
  }

  /** One more entry in a nested map, as membership. */
  lemma NestedMore(nested: map<string, Fields>, ns: string, sub: string, v: Json, under: Fields,
                   more: map<string, Fields>, n: string, s: string)
    requires under == if ns in nested then nested[ns] else map[]
    requires more == nested[ns := under[sub := v]]
    ensures n in more && s in more[n] <==> (n == ns && s == sub) || (n in nested && s in nested[n])
    ensures n in more && s in more[n] ==> more[n][s] == if n == ns && s == sub then v else nested[n][s]
  {
  }

  lemma InsideStep(b: Fields, part: Entries, ns: string, sub: string, v: Json, baseMap: Fields,
                   nested: map<string, Fields>, under: Fields)
    requires Grouped(b, part, baseMap, nested) && under == if ns in nested then nested[ns] else map[]
    ensures Grouped(b, part[Inside(ns, sub) := v], baseMap, nested[ns := under[sub := v]])
  {
    var more := nested[ns := under[sub := v]];
    var key, part' := Inside(ns, sub), part[Inside(ns, sub) := v];
    forall n, s
      ensures Inside(n, s) in part' ==> n in more && s in more[n] && more[n][s] == part'[Inside(n, s)]
      ensures n in more && s in more[n] ==> Inside(n, s) in part'
    {
      NestedMore(nested, ns, sub, v, under, more, n, s);
      assert Inside(n, s) == key <==> n == ns && s == sub;
    }
    forall n | n in more
      ensures exists s :: s in more[n]
    {
      if n == ns {
        assert sub in more[n];
      }
    }
  }

  lemma GroupedAt(b: Fields, p: Entries, baseMap: Fields, nested: map<string, Fields>, k: string)
    requires Grouped(b, p, baseMap, nested)
    ensures At(baseMap, k) == FlatAt(At(b, k), p, k)
    ensures Under(p, k) == if k in nested then nested[k] else map[]
    ensures k in nested ==> nested[k] != map[]
  {
    assert forall s :: s in Under(p, k) <==> Inside(k, s) in p;
  }

  /** The entries of the keys that are not left. */
  ghost predicate Seen(o: Fields, left: set<string>, part: Entries) {
    && (forall k :: k in o && k !in left ==> KeyOf(k) in part && part[KeyOf(k)] == o[k])
    && forall q :: q in part ==>
       KeyText(q) in o && KeyText(q) !in left && KeyOf(KeyText(q)) == q && part[q] == o[KeyText(q)]
  }

  lemma SeenStep(o: Fields, left: set<string>, part: Entries, k: string, key: Key)
    requires Seen(o, left, part) && k in left && k in o && key == KeyOf(k)
    ensures KeyText(key) == k && Seen(o, left - {k}, part[key := o[k]])
  {
    TextOfKey(k);
  }

  /** The grouping loop. Go visits the keys of a map in any order. */
  method Group(b: Fields, o: Fields) returns (baseMap: Fields, nested: map<string, Fields>)
    ensures Grouped(b, SplitKeys(o), baseMap, nested)
  {
    baseMap, nested := b, map[];
    var left := o.Keys;
    ghost var part: Entries := map[];
    while left != {}
      invariant left <= o.Keys && Seen(o, left, part)
      invariant Grouped(b, part, baseMap, nested)
      decreases |left|
    {
      var k :| k in left;
      var key := KeyOf(k);
      SeenStep(o, left, part, k, key);
      left := left - {k};
      if key.Inside? {
        var under: Fields := if key.ns in nested then nested[key.ns] else map[];
        InsideStep(b, part, key.ns, key.sub, o[k], baseMap, nested, under);
        nested := nested[key.ns := under[key.sub := o[k]]];
      } else {
        PlainStep(b, part, k, o[k], baseMap, nested);
        baseMap := baseMap[k := o[k]];
      }
      part := part[key := o[k]];
    }
    SplitsOnce(o, part);
  }

  /** The fields when all namespaces but those in `left` have been written. */
  ghost predicate Written(flat: Fields, nested: map<string, Fields>, left: set<string>, baseMap: Fields) {
    forall k :: At(baseMap, k) == if k in nested && k !in left then Some(Obj(ObjectIn(At(flat, k)) + nested[k]))
        else At(flat, k)
  }

  lemma WriteStep(flat: Fields, nested: map<string, Fields>, left: set<string>, baseMap: Fields, ns: string)
    requires Written(flat, nested, left, baseMap) && ns in nested && ns in left
    ensures Written(flat, nested, left - {ns}, baseMap[ns := Obj(ObjectIn(At(flat, ns)) + nested[ns])])
  {
  }

  predicate NullAt(fields: Fields, k: string) {
    At(fields, k) == Some(Null)
  }

  /** The expansion loop, in any order; `None` when it writes into a nil map. */
  method Expand(flat: Fields, nested: map<string, Fields>) returns (r: Option<Fields>)
    ensures r.None? <==> exists ns :: ns in nested && NullAt(flat, ns)
    ensures r.Some? ==> Written(flat, nested, {}, r.value)
  {
    var baseMap := flat;
    var left := nested.Keys;
    while left != {}
      invariant left <= nested.Keys && Written(flat, nested, left, baseMap)
      invariant forall ns :: ns in nested && ns !in left ==> !NullAt(flat, ns)
      decreases |left|
    {
      var ns :| ns in left;
      var target := TargetObject(baseMap, ns);
      assert At(baseMap, ns) == At(flat, ns);
      if target.None? {
        return None;
      }
      WriteStep(flat, nested, left, baseMap, ns);
      left := left - {ns};
      baseMap := baseMap[ns := Obj(target.value + nested[ns])];
    }
    r := Some(baseMap);
  }

  /** The map a namespace's entries are copied into: the existing object, a fresh
      one, or nil. */
  method TargetObject(baseMap: Fields, ns: string) returns (r: Option<Fields>)
    ensures r == if NullAt(baseMap, ns) then None else Some(ObjectIn(At(baseMap, ns)))
  {
    if ns in baseMap {
      var existing := Decode(Doc(baseMap[ns]));
      if existing.Some? {
        return existing.value;
      }
    }
    r := Some(map[]);
  }

  lemma WrittenAll(b: Fields, p: Entries, flat: Fields, nested: map<string, Fields>, baseMap: Fields)
    requires Grouped(b, p, flat, nested) && Written(flat, nested, {}, baseMap)
    ensures baseMap == Overlaid(b, p)
  {
    forall k
      ensures At(baseMap, k) == MergedAt(At(b, k), p, k)
    {
      GroupedAt(b, p, flat, nested, k);
    }
    SameFields(baseMap, Overlaid(b, p));
  }

  lemma SameFields(a: Fields, b: Fields)
    requires forall k :: At(a, k) == At(b, k)
    ensures a == b
  {
    forall k
      ensures (k in a <==> k in b) && (k in a ==> a[k] == b[k])
    {
      assert At(a, k) == At(b, k);
    }
  }

  lemma NullsFound(b: Fields, p: Entries, flat: Fields, nested: map<string, Fields>)
    requires Grouped(b, p, flat, nested)
    ensures HitsNull(b, p) <==> exists ns :: ns in nested && NullAt(flat, ns)
  {
    if HitsNull(b, p) {
      var ns :| Under(p, ns) != map[] && FlatAt(At(b, ns), p, ns) == Some(Null);
      GroupedAt(b, p, flat, nested, ns);
    }
    if ns :| ns in nested && NullAt(flat, ns) {
      GroupedAt(b, p, flat, nested, ns);
    }
  }

  /** `mergeJSON`, with both map loops in any order. */
  method MergeJSON(base: Raw, overlay: Raw) returns (r: Outcome)
    ensures r == Merge(base, overlay)
  {
    r := Merged(base);
    if overlay.Absent? {
      return;
    }
    var decoded := Decode(base);
    if decoded.None? {
      return;
    }
    var b: Fields := if decoded.value.None? then map[] else decoded.value.value;
    var decodedOverlay := Decode(overlay);
    if decodedOverlay.None? {
      return;
    }
    var o: Fields := if decodedOverlay.value.None? then map[] else decodedOverlay.value.value;
    var flat, nested := Group(b, o);
    NullsFound(b, SplitKeys(o), flat, nested);
    var result := Expand(flat, nested);
    if result.None? {
      return Panic;
    }
    WrittenAll(b, SplitKeys(o), flat, nested, result.value);
    r := Merged(Doc(Obj(result.value)));
  }

  /* ----- laws ----- */

  /** Merging further into what a merge returned. */
  ghost function Then(first: Outcome, overlay: Fields): Outcome {
    if first.Panic? then Panic else Merge(first.doc, Doc(Obj(overlay)))
  }

  function Properties(doc: Raw): Fields {
    if Decode(doc).Some? then OrEmpty(Decode(doc).value) else map[]
  }

  lemma MergedField(v: Option<Json>, p: Entries, k: string, s: string)
    ensures Inside(k, s) in p ==> At(ObjectIn(MergedAt(v, p, k)), s) == Some(p[Inside(k, s)])
    ensures Inside(k, s) !in p && Plain(k) !in p ==> At(ObjectIn(MergedAt(v, p, k)), s) == At(ObjectIn(v), s)
  {
    var u := Under(p, k);
    assert Inside(k, s) in p <==> s in u;
  }

  lemma SameFieldsAt(x: Outcome, panics: bool, m: Fields, r: Fields, k: string)
    requires x == (if panics then Panic else Merged(Doc(Obj(m)))) && x == Merged(Doc(Obj(r)))
    ensures At(r, k) == At(m, k)
  {
  }

  /** The merged properties, key by key. */
  lemma MergedIs(b: Fields, o: Fields, r: Fields, k: string)
    requires Merge(Doc(Obj(b)), Doc(Obj(o))) == Merged(Doc(Obj(r)))
    ensures At(r, k) == MergedAt(At(b, k), SplitKeys(o), k)
  {
    var p := SplitKeys(o);
    MergeIs(Doc(Obj(b)), o, b, p);
    SameFieldsAt(MergeEntries(b, p), HitsNull(b, p), Overlaid(b, p), r, k);
  }

  /** What a reader of the merged properties finds under a key: the overlay's flat
      entry or else the base's value, unless the overlay has a namespace there. */
  lemma TopLevel(b: Fields, o: Fields, r: Fields, k: string)
    requires Merge(Doc(Obj(b)), Doc(Obj(o))) == Merged(Doc(Obj(r)))
    requires KeyOf(k).Plain? && Under(SplitKeys(o), k) == map[]
    ensures At(r, k) == if k in o then Some(o[k]) else At(b, k)
  {
    MergedIs(b, o, r, k);
    SplitAt(o, k);
  }

  /** What a reader finds inside a namespace: the overlay's entry, or else what the
      base has there. */
  lemma InNamespace(b: Fields, o: Fields, r: Fields, ns: string, sub: string)
    requires Merge(Doc(Obj(b)), Doc(Obj(o))) == Merged(Doc(Obj(r)))
    requires ns != "" && '.' !in ns
    ensures var k := ns + "." + sub;
            && (k in o ==> At(ObjectIn(At(r, ns)), sub) == Some(o[k]))
            && (k !in o && ns !in o ==> At(ObjectIn(At(r, ns)), sub) == At(ObjectIn(At(b, ns)), sub))
  {
    var p, k := SplitKeys(o), ns + "." + sub;
    KeyOfParts(ns, sub);
    MergeIs(Doc(Obj(b)), o, b, p);
    SplitAt(o, k);
    SplitAt(o, ns);
    assert At(r, ns) == MergedAt(At(b, ns), p, ns);
    MergedField(At(b, ns), p, ns, sub);
    if Inside(ns, sub) in p {
      EntryAt(o, Inside(ns, sub));
    }
  }

  /** How one key of the overlay appears among its entries. */
  lemma SplitAt(o: Fields, k: string)
    ensures KeyText(KeyOf(k)) == k
    ensures k in o ==> KeyOf(k) in SplitKeys(o) && SplitKeys(o)[KeyOf(k)] == o[k]
    ensures k !in o ==> Plain(k) !in SplitKeys(o)
  {
    SplitKeysSplits(o);
    TextOfKey(k);
    assert KeyText(Plain(k)) == k;
  }

  /** How one entry appears among the overlay's keys. */
  lemma EntryAt(o: Fields, q: Key)
    requires q in SplitKeys(o)
    ensures KeyText(q) in o && KeyOf(KeyText(q)) == q
  {
    SplitKeysSplits(o);
  }

  /** Exactly these merges write into a nil map: some namespace of the overlay has
      the value null among the overlay's flat entries, or in the base if the overlay
      has no flat entry for it. */
  lemma PanicsExactly(b: Fields, o: Fields)
    ensures Merge(Doc(Obj(b)), Doc(Obj(o))).Panic? <==>
            exists k :: k in o && KeyOf(k).Inside?
                && FlatAt(At(b, KeyOf(k).ns), SplitKeys(o), KeyOf(k).ns) == Some(Null)
  {
    var p := SplitKeys(o);
    MergeIs(Doc(Obj(b)), o, b, p);
    if HitsNull(b, p) {
      var ns :| Under(p, ns) != map[] && FlatAt(At(b, ns), p, ns) == Some(Null);
      var s :| s in Under(p, ns);
      EntryAt(o, Inside(ns, s));
    }
    if k :| k in o && KeyOf(k).Inside? && FlatAt(At(b, KeyOf(k).ns), p, KeyOf(k).ns) == Some(Null) {
      SplitAt(o, k);
      assert KeyOf(k).sub in Under(p, KeyOf(k).ns);
    }
  }

  lemma PutAgain(v: Option<Json>, u: Fields)
    ensures Put(Put(v, u), u) == Put(v, u)
  {
    assert ObjectIn(v) + u + u == ObjectIn(v) + u;
  }

  lemma PutBoth(v: Option<Json>, u1: Fields, u2: Fields)
    ensures Put(Put(v, u1), u2) == Put(v, u1 + u2)
  {
    if u1 == map[] {
      assert u1 + u2 == u2;
    } else if u2 == map[] {
      assert u1 + u2 == u1;
    } else {
      assert ObjectIn(v) + u1 + u2 == ObjectIn(v) + (u1 + u2);
    }
  }

  lemma MergedAgain(v: Option<Json>, p: Entries, k: string)
    requires Under(p, k) != map[] ==> FlatAt(v, p, k) != Some(Null)
    ensures MergedAt(MergedAt(v, p, k), p, k) == MergedAt(v, p, k)
    ensures Under(p, k) != map[] ==> FlatAt(MergedAt(v, p, k), p, k) != Some(Null)
  {
    PutAgain(FlatAt(v, p, k), Under(p, k));
  }

  lemma OverlaidAgain(b: Fields, p: Entries)
    requires !HitsNull(b, p)
    ensures !HitsNull(Overlaid(b, p), p) && Overlaid(Overlaid(b, p), p) == Overlaid(b, p)
  {
    var r := Overlaid(b, p);
    forall k
      ensures At(Overlaid(r, p), k) == At(r, k)
      ensures Under(p, k) != map[] ==> FlatAt(At(r, k), p, k) != Some(Null)
    {
      assert At(r, k) == MergedAt(At(b, k), p, k) && At(Overlaid(r, p), k) == MergedAt(At(r, k), p, k);
      MergedAgain(At(b, k), p, k);
    }
    SameFields(Overlaid(r, p), r);
  }

  /** Merging the same overlay again changes nothing. */
  lemma Idempotent(base: Raw, overlay: Fields)
    ensures var once := Merge(base, Doc(Obj(overlay))); Then(once, overlay) == once
  {
    var b, p := Properties(base), SplitKeys(overlay);
    if Decode(base).Some? {
      assert Merge(base, Doc(Obj(overlay))) == MergeEntries(b, p);
      if !HitsNull(b, p) {
        OverlaidAgain(b, p);
      }
    }
  }

  lemma SplitUnion(o1: Fields, o2: Fields)
    ensures SplitKeys(o1 + o2) == SplitKeys(o1) + SplitKeys(o2)
  {
    SplitKeysSplits(o1);
    SplitKeysSplits(o2);
    SplitsUnion(o1, o2, SplitKeys(o1), SplitKeys(o2));
    SplitsOnce(o1 + o2, SplitKeys(o1) + SplitKeys(o2));
  }

  lemma SplitsUnion(o1: Fields, o2: Fields, p1: Entries, p2: Entries)
    requires Splits(o1, p1) && Splits(o2, p2)
    ensures Splits(o1 + o2, p1 + p2)
  {
    forall k | k in o1 + o2
      ensures KeyOf(k) in p1 + p2 && (p1 + p2)[KeyOf(k)] == (o1 + o2)[k]
    {
      TextOfKey(k);
    }
  }

  lemma UnderUnion(p1: Entries, p2: Entries, ns: string)
    ensures Under(p1 + p2, ns) == Under(p1, ns) + Under(p2, ns)
  {
  }

  /** A flat entry of the second overlay replaces a namespace of the first. */
  predicate Replaced(p1: Entries, p2: Entries, k: string) {
    Under(p1, k) != map[] && Plain(k) in p2
  }

  ghost predicate Apart(p1: Entries, p2: Entries) {
    forall k :: !Replaced(p1, p2, k)
  }

  lemma UnionEmpty(a: Fields, b: Fields)
    ensures a + b == map[] <==> a == map[] && b == map[]
  {
    if a + b == map[] {
      assert a.Keys <= (a + b).Keys && b.Keys <= (a + b).Keys;
    }
  }

  lemma FlatUnion(v: Option<Json>, p1: Entries, p2: Entries, k: string)
    ensures FlatAt(v, p1 + p2, k) == if Plain(k) in p2 then Some(p2[Plain(k)]) else FlatAt(v, p1, k)
  {
  }

  lemma UnionAt(v: Option<Json>, p1: Entries, p2: Entries, k: string, once: Option<Json>)
    requires !Replaced(p1, p2, k) && once == MergedAt(v, p1, k)
    ensures MergedAt(once, p2, k) == MergedAt(v, p1 + p2, k)
  {
    var u1, u2 := Under(p1, k), Under(p2, k);
    UnderUnion(p1, p2, k);
    PutBoth(FlatAt(v, p1, k), u1, u2);
    FlatUnion(v, p1, p2, k);
    if u1 == map[] {
      assert u1 + u2 == u2;
    }
  }

  /** A flat value `x` that, with the second overlay's entries `u2` in it, holds the
      first's entries `u1` too. */
  predicate Holds(x: Json, u1: Fields, u2: Fields) {
    (u2 == map[] ==> x.Obj?) && forall s :: s in u1 ==> s in u2 || At(ObjectIn(Some(x)), s) == Some(u1[s])
  }

  lemma PutHolds(x: Json, u1: Fields, u2: Fields)
    requires u1 != map[]
    ensures Put(Some(x), u2) == Put(Some(x), u1 + u2) <==> Holds(x, u1, u2)
  {
    var y := ObjectIn(Some(x));
    UnionEmpty(u1, u2);
    if y + (u1 + u2) == y + u2 {
      forall s | s in u1 && s !in u2
        ensures At(y, s) == Some(u1[s])
      {
        assert (y + (u1 + u2))[s] == u1[s] && s in y + u2;
      }
    }
    if Holds(x, u1, u2) {
      assert y + (u1 + u2) == y + u2;
    }
    assert u2 == map[] ==> y + u2 == y;
  }

  /** Every flat value that replaces a namespace holds what it replaces. */
  ghost predicate UnionFits(p1: Entries, p2: Entries) {
    forall k :: Replaced(p1, p2, k) ==> Holds(p2[Plain(k)], Under(p1, k), Under(p2, k))
  }

  lemma ReplacedAt(v: Option<Json>, p1: Entries, p2: Entries, k: string, once: Option<Json>)
    requires Replaced(p1, p2, k)
    ensures MergedAt(once, p2, k) == MergedAt(v, p1 + p2, k) <==> Holds(p2[Plain(k)], Under(p1, k), Under(p2, k))
  {
    UnderUnion(p1, p2, k);
    FlatUnion(v, p1, p2, k);
    PutHolds(p2[Plain(k)], Under(p1, k), Under(p2, k));
  }

  /** Where nothing panics, two merges are one exactly if the union fits. */
  lemma OverlaidUnion(b: Fields, p1: Entries, p2: Entries)
    ensures Overlaid(Overlaid(b, p1), p2) == Overlaid(b, p1 + p2) <==> UnionFits(p1, p2)
  {
    var r := Overlaid(b, p1);
    var once, twice := Overlaid(b, p1 + p2), Overlaid(r, p2);
    forall k
      ensures At(twice, k) == At(once, k) <==> (Replaced(p1, p2, k) ==> Holds(p2[Plain(k)], Under(p1, k), Under(p2, k)))
    {
      assert At(twice, k) == MergedAt(At(r, k), p2, k) && At(once, k) == MergedAt(At(b, k), p1 + p2, k);
      if Replaced(p1, p2, k) {
        ReplacedAt(At(b, k), p1, p2, k, At(r, k));
      } else {
        UnionAt(At(b, k), p1, p2, k, At(r, k));
      }
    }
    if UnionFits(p1, p2) {
      SameFields(twice, once);
    }
  }

  /** A null under `k` that the one merge of both overlays meets. */
  predicate OnceNull(b: Fields, p1: Entries, p2: Entries, k: string) {
    && (Under(p1, k) != map[] || Under(p2, k) != map[])
    && if Plain(k) in p2 then p2[Plain(k)] == Null else FlatAt(At(b, k), p1, k) == Some(Null)
  }

  /** A null under `k` that one of two merges meets: the first unless its own entries
      override it, the second where the first has left it. */
  predicate TwiceNull(b: Fields, p1: Entries, p2: Entries, k: string) {
    || (Under(p1, k) != map[] && FlatAt(At(b, k), p1, k) == Some(Null))
    || (Under(p2, k) != map[] && if Plain(k) in p2 then p2[Plain(k)] == Null
        else Under(p1, k) == map[] && FlatAt(At(b, k), p1, k) == Some(Null))
  }

  ghost predicate PanicsOnce(b: Fields, p1: Entries, p2: Entries) {
    exists k :: OnceNull(b, p1, p2, k)
  }

  ghost predicate PanicsTwice(b: Fields, p1: Entries, p2: Entries) {
    exists k :: TwiceNull(b, p1, p2, k)
  }

  /** The two differ only where a namespace is replaced. */
  lemma NullsAgree(b: Fields, p1: Entries, p2: Entries, k: string)
    requires !Replaced(p1, p2, k)
    ensures OnceNull(b, p1, p2, k) <==> TwiceNull(b, p1, p2, k)
  {
  }

  lemma OnceNulls(b: Fields, p1: Entries, p2: Entries)
    ensures HitsNull(b, p1 + p2) <==> PanicsOnce(b, p1, p2)
  {
    forall k
      ensures OnceNull(b, p1, p2, k) <==> Under(p1 + p2, k) != map[] && FlatAt(At(b, k), p1 + p2, k) == Some(Null)
    {
      UnderUnion(p1, p2, k);
      UnionEmpty(Under(p1, k), Under(p2, k));
      FlatUnion(At(b, k), p1, p2, k);
    }
    if HitsNull(b, p1 + p2) {
      var k :| Under(p1 + p2, k) != map[] && FlatAt(At(b, k), p1 + p2, k) == Some(Null);
      assert OnceNull(b, p1, p2, k);
    }
  }

  lemma TwiceNulls(b: Fields, p1: Entries, p2: Entries)
    ensures HitsNull(b, p1) || HitsNull(Overlaid(b, p1), p2) <==> PanicsTwice(b, p1, p2)
  {
    var r := Overlaid(b, p1);
    forall k
      ensures TwiceNull(b, p1, p2, k) <==>
              (Under(p1, k) != map[] && FlatAt(At(b, k), p1, k) == Some(Null))
                  || (Under(p2, k) != map[] && FlatAt(At(r, k), p2, k) == Some(Null))
    {
      assert At(r, k) == MergedAt(At(b, k), p1, k);
    }
    if HitsNull(b, p1) {
      var k :| Under(p1, k) != map[] && FlatAt(At(b, k), p1, k) == Some(Null);
      assert TwiceNull(b, p1, p2, k);
    }
    if HitsNull(r, p2) {
      var k :| Under(p2, k) != map[] && FlatAt(At(r, k), p2, k) == Some(Null);
      assert TwiceNull(b, p1, p2, k);
    }
  }

  lemma MergeIs(base: Raw, o: Fields, b: Fields, p: Entries)
    requires Decode(base).Some? && b == OrEmpty(Decode(base).value) && p == SplitKeys(o)
    ensures Merge(base, Doc(Obj(o))) == MergeEntries(b, p)
  {
  }

  lemma ThenIs(b: Fields, p1: Entries, o2: Fields, p2: Entries)
    requires p2 == SplitKeys(o2)
    ensures Then(MergeEntries(b, p1), o2) == if HitsNull(b, p1) then Panic else MergeEntries(Overlaid(b, p1), p2)
  {
    var first := MergeEntries(b, p1);
    if !HitsNull(b, p1) {
      var r := Overlaid(b, p1);
      assert first == Merged(Doc(Obj(r)));
      MergeIs(Doc(Obj(r)), o2, r, p2);
    }
  }

  /** Exactly when one overlay after the other is the same as both at once, later
      entries winning: both ways panic, or neither does and every flat value that
      replaces a namespace of the first holds what it replaces. */
  ghost predicate UnionLaw(b: Fields, p1: Entries, p2: Entries) {
    PanicsOnce(b, p1, p2) == PanicsTwice(b, p1, p2) && (PanicsOnce(b, p1, p2) || UnionFits(p1, p2))
  }

  /** Two outcomes that may be panics. */
  lemma SameOutcome(x: Outcome, y: Outcome, panics: bool, panics': bool, one: Fields, two: Fields)
    requires x == if panics then Panic else Merged(Doc(Obj(one)))
    requires y == if panics' then Panic else Merged(Doc(Obj(two)))
    ensures x == y <==> panics == panics' && (panics || one == two)
  {
  }

  lemma EntriesOfUnion(b: Fields, p1: Entries, p2: Entries)
    ensures MergeEntries(b, p1 + p2) == (if HitsNull(b, p1) then Panic else MergeEntries(Overlaid(b, p1), p2)) <==>
            UnionLaw(b, p1, p2)
  {
    var r := Overlaid(b, p1);
    var x, y := MergeEntries(b, p1 + p2), if HitsNull(b, p1) then Panic else MergeEntries(r, p2);
    SameOutcome(x, y, HitsNull(b, p1 + p2), HitsNull(b, p1) || HitsNull(r, p2), Overlaid(b, p1 + p2), Overlaid(r, p2));
    OnceNulls(b, p1, p2);
    TwiceNulls(b, p1, p2);
    OverlaidUnion(b, p1, p2);
  }

  lemma MergeOfUnion(base: Raw, o1: Fields, o2: Fields)
    ensures Then(Merge(base, Doc(Obj(o1))), o2) == Merge(base, Doc(Obj(o1 + o2))) <==>
            Decode(base).None? || UnionLaw(OrEmpty(Decode(base).value), SplitKeys(o1), SplitKeys(o2))
  {
    if Decode(base).Some? {
      var b, p1, p2 := OrEmpty(Decode(base).value), SplitKeys(o1), SplitKeys(o2);
      SplitUnion(o1, o2);
      EntriesOfUnion(b, p1, p2);
      MergeIs(base, o1, b, p1);
      MergeIs(base, o1 + o2, b, p1 + p2);
      ThenIs(b, p1, o2, p2);
    }
  }

  /** In particular the law holds if no namespace of the first is replaced. */
  lemma ApartUnion(b: Fields, p1: Entries, p2: Entries)
    requires Apart(p1, p2)
    ensures UnionLaw(b, p1, p2)
  {
    forall k
      ensures OnceNull(b, p1, p2, k) <==> TwiceNull(b, p1, p2, k)
    {
      NullsAgree(b, p1, p2, k);
    }
  }

  predicate AllNamespaced(o: Fields) {
    forall k :: k in o ==> KeyOf(k).Inside?
  }

  lemma NamespacedApart(o1: Fields, o2: Fields)
    requires AllNamespaced(o2)
    ensures Apart(SplitKeys(o1), SplitKeys(o2))
  {
    NoFlat(o2);
  }

  /** Overlays of namespaced entries with disjoint keys commute, and either order is
      one merge of both. */
  lemma DisjointCommute(base: Raw, o1: Fields, o2: Fields)
    requires AllNamespaced(o1) && AllNamespaced(o2) && o1.Keys !! o2.Keys
    ensures Then(Merge(base, Doc(Obj(o1))), o2) == Merge(base, Doc(Obj(o1 + o2))) == Then(Merge(base, Doc(Obj(o2))), o1)
  {
    NamespacedApart(o1, o2);
    NamespacedApart(o2, o1);
    MergeOfUnion(base, o1, o2);
    MergeOfUnion(base, o2, o1);
    if Decode(base).Some? {
      ApartUnion(OrEmpty(Decode(base).value), SplitKeys(o1), SplitKeys(o2));
      ApartUnion(OrEmpty(Decode(base).value), SplitKeys(o2), SplitKeys(o1));
    }
    DisjointUnion(o1, o2);
  }

  lemma DisjointUnion(o1: Fields, o2: Fields)
    requires o1.Keys !! o2.Keys
    ensures o1 + o2 == o2 + o1
  {
  }

  lemma NoFlat(o: Fields)
    requires AllNamespaced(o)
    ensures forall n :: Plain(n) !in SplitKeys(o)
  {
    SplitKeysSplits(o);
    forall n
      ensures Plain(n) !in SplitKeys(o)
    {
      assert KeyText(Plain(n)) == n;
    }
  }

  /** A flat entry for a namespace of the first overlay breaks the law: the entry
      `a.b` survives one merge of both, but not two merges. */
  lemma UnionFails(o1: Fields, o2: Fields)
    requires o1 == map["a.b" := Null] && o2 == map["a" := Obj(map[])]
    ensures Then(Merge(Doc(Null), Doc(Obj(o1))), o2) != Merge(Doc(Null), Doc(Obj(o1 + o2)))
  {
    var p1: Entries := map[Inside("a", "b") := Null];
    var p2: Entries := map[Plain("a") := Obj(map[])];
    UnionFailsKeys(o1, o2, p1, p2);
    SplitsOnce(o1, p1);
    SplitsOnce(o2, p2);
    SplitUnion(o1, o2);
    UnionFailsEntries(p1, p2, "a", "b");
    MergeOfUnion(Doc(Null), o1, o2);
  }

  lemma UnionFailsKeys(o1: Fields, o2: Fields, p1: Entries, p2: Entries)
    requires o1 == map["a.b" := Null] && o2 == map["a" := Obj(map[])]
    requires p1 == map[Inside("a", "b") := Null] && p2 == map[Plain("a") := Obj(map[])]
    ensures Splits(o1, p1) && Splits(o2, p2)
  {
    assert "a.b" == "a" + "." + "b";
    KeyOfParts("a", "b");
    assert KeyOf("a") == Plain("a");
  }

  lemma UnionFailsEntries(p1: Entries, p2: Entries, a: string, b: string)
    requires p1 == map[Inside(a, b) := Null] && p2 == map[Plain(a) := Obj(map[])]
    ensures !UnionLaw(map[], p1, p2)
  {
    assert b in Under(p1, a) && b !in Under(p2, a);
    assert Replaced(p1, p2, a) && !Holds(p2[Plain(a)], Under(p1, a), Under(p2, a));
    forall k
      ensures !OnceNull(map[], p1, p2, k)
    {
    }
  }

  /** A base with null under a namespace of the overlay: the code copies into a nil
      map. */
  lemma NullPanics(v: Json)
    ensures Merge(Doc(Obj(map["a" := Null])), Doc(Obj(map["a.b" := v]))).Panic?
  {
    var b, o: Fields := map["a" := Null], map["a.b" := v];
    assert "a.b" == "a" + "." + "b";
    KeyOfParts("a", "b");
    PanicsExactly(b, o);
    SplitAt(o, "a");
    assert "a.b" in o && KeyOf("a.b") == Inside("a", "b");
    assert FlatAt(At(b, "a"), SplitKeys(o), "a") == Some(Null);
  }
}
