/** What PATCH operations are about, read off their texts and JSON values: which
    attribute a path spells, which text a value is, and which string a field holds. */
module PatchLaws {
  import opened Text
  import opened ScimLexer
  import opened ScimGrammar
  import opened ScimParser
  import opened ScimPath
  import opened ScimPathProofs
  import opened ScimPatch

  /* ----- paths ----- */

  /** The path is the attribute alone, in any case. */
  predicate Spells(path: string, name: string) {
    IsName(TrimSpace(path)) && Lower(TrimSpace(path)) == name
  }

  /** The path is the attribute with a filter in brackets, and a sub-attribute or none. */
  ghost predicate SpellsFiltered(path: string, name: string, e: Expr, sub: string, number: FloatParser) {
    exists a, inner, b ::
      Composed(TrimSpace(path), a, Some(inner), b) && Lower(a) == name && LowerOr(b) == sub
      && Parsing(inner, number) == Ok(e)
  }

  lemma NothingAfter(a: string)
    ensures a + (BracketOf(None) + DotOf(None)) == a
  {
  }

  lemma SpellsIs(path: string, name: string, number: FloatParser)
    requires name != ""
    ensures PathOf(path, number) == Ok(Path(name, "", None)) <==> Spells(path, name)
  {
    var s, p := TrimSpace(path), Path(name, "", None);
    PathExactly(path, p, number);
    if Denotes(path, p, number) {
      var a, inner, b :| Composed(s, a, inner, b) && PathIs(p, a, inner, b, number);
      assert inner.None? && b.None?;
      NothingAfter(a);
    }
    if Spells(path, name) {
      NothingAfter(s);
      assert Composed(s, s, None, None) && PathIs(p, s, None, None, number);
    }
  }

  lemma SpellsFilteredIs(path: string, name: string, e: Expr, sub: string, number: FloatParser)
    requires name != ""
    ensures PathOf(path, number) == Ok(Path(name, sub, Some(e))) <==> SpellsFiltered(path, name, e, sub, number)
  {
    var s, p := TrimSpace(path), Path(name, sub, Some(e));
    PathExactly(path, p, number);
    if Denotes(path, p, number) {
      var a, inner, b :| Composed(s, a, inner, b) && PathIs(p, a, inner, b, number);
      assert Composed(s, a, Some(inner.value), b) && Parsing(inner.value, number) == Ok(e);
    }
    if SpellsFiltered(path, name, e, sub, number) {
      var a, inner, b :| Composed(s, a, Some(inner), b) && Lower(a) == name && LowerOr(b) == sub
                         && Parsing(inner, number) == Ok(e);
      assert PathIs(p, a, Some(inner), b, number);
    }
  }

  /** A path spells one attribute at most. */
  lemma OnePath(path: string, name: string, number: FloatParser)
    requires name != "" && Spells(path, name)
    ensures PathOf(path, number) == Ok(Path(name, "", None)) && TrimSpace(path) != ""
  {
    SpellsIs(path, name, number);
  }

  lemma BlankIs(path: string, number: FloatParser)
    requires PathOf(path, number).Ok?
    ensures PathOf(path, number).value.attr == "" <==> TrimSpace(path) == ""
  {
    BlankPath(path, number);
  }

  /* ----- values ----- */

  /** The value is a text; null is the empty one. */
  predicate IsText(raw: Option<Json>, t: string) {
    raw == Some(Json.Str(t)) || (raw == Some(Json.Null) && t == "")
  }

  /** The value is a truth value; null is false. */
  predicate IsFlag(raw: Option<Json>, b: bool) {
    raw == Some(Json.Bool(b)) || (raw == Some(Json.Null) && !b)
  }

  lemma TextIs(raw: Option<Json>, t: string)
    ensures DecodeString(raw) == Ok(t) <==> IsText(raw, t)
    ensures DecodeString(raw).Err? ==> DecodeString(raw) == Err(InvalidValue)
  {
  }

  lemma FlagIs(raw: Option<Json>, b: bool)
    ensures DecodeBool(raw) == Ok(b) <==> IsFlag(raw, b)
    ensures DecodeBool(raw).Err? ==> DecodeBool(raw) == Err(InvalidValue)
  {
  }

  /** The value of field `k` is the last one under the name that is not null. */
  predicate LastUnder(fields: seq<Field>, name: string, k: nat) {
    && k < |fields| && Names(fields[k].key, name) && !fields[k].value.Null?
    && forall j :: k < j < |fields| && Names(fields[j].key, name) ==> fields[j].value.Null?
  }

  ghost predicate NothingUnder(fields: seq<Field>, name: string) {
    forall j :: 0 <= j < |fields| && Names(fields[j].key, name) ==> fields[j].value.Null?
  }

  /** The field, whatever the case of its name, is a string each time it comes, the last
      time `t`; or it does not come, and `t` is empty. Nulls do not count. */
  ghost predicate FieldIs(fields: seq<Field>, name: string, t: string) {
    && (forall j :: 0 <= j < |fields| && Names(fields[j].key, name) ==>
          fields[j].value.Null? || fields[j].value.Str?)
    && (if NothingUnder(fields, name) then t == ""
        else exists k: nat :: LastUnder(fields, name, k) && fields[k].value == Json.Str(t))
  }

  ghost predicate FlagFieldIs(fields: seq<Field>, name: string, b: bool) {
    && (forall j :: 0 <= j < |fields| && Names(fields[j].key, name) ==>
          fields[j].value.Null? || fields[j].value.Bool?)
    && (if NothingUnder(fields, name) then !b
        else exists k: nat :: LastUnder(fields, name, k) && fields[k].value == Json.Bool(b))
  }

  lemma {:induction false} StringsBefore(fields: seq<Field>, name: string)
    ensures StringField(fields, name).Some? <==>
            forall j :: 0 <= j < |fields| && Names(fields[j].key, name) ==>
              fields[j].value.Null? || fields[j].value.Str?
  {
    if fields != [] {
      StringsBefore(fields[..|fields| - 1], name);
    }
  }

  lemma {:induction false} FlagsBefore(fields: seq<Field>, name: string)
    ensures BoolField(fields, name).Some? <==>
            forall j :: 0 <= j < |fields| && Names(fields[j].key, name) ==>
              fields[j].value.Null? || fields[j].value.Bool?
  {
    if fields != [] {
      FlagsBefore(fields[..|fields| - 1], name);
    }
  }

  /** A last field that does not count. */
  lemma NotCounted(fields: seq<Field>, name: string, k: nat)
    requires fields != [] && (Names(fields[|fields| - 1].key, name) ==> fields[|fields| - 1].value.Null?)
    ensures LastUnder(fields, name, k) <==> LastUnder(fields[..|fields| - 1], name, k)
    ensures NothingUnder(fields, name) <==> NothingUnder(fields[..|fields| - 1], name)
  {
  }

  lemma {:induction false} FieldExactly(fields: seq<Field>, name: string, t: string)
    ensures StringField(fields, name) == Some(t) <==> FieldIs(fields, name, t)
  {
    StringsBefore(fields, name);
    if fields != [] {
      var n := |fields| - 1;
      StringsBefore(fields[..n], name);
      if Names(fields[n].key, name) && !fields[n].value.Null? {
        assert LastUnder(fields, name, n);
      } else {
        FieldExactly(fields[..n], name, t);
        forall k: nat
          ensures LastUnder(fields, name, k) <==> LastUnder(fields[..n], name, k)
        {
          NotCounted(fields, name, k);
        }
        NotCounted(fields, name, 0);
      }
    }
  }

  lemma {:induction false} FlagFieldExactly(fields: seq<Field>, name: string, b: bool)
    ensures BoolField(fields, name) == Some(b) <==> FlagFieldIs(fields, name, b)
  {
    FlagsBefore(fields, name);
    if fields != [] {
      var n := |fields| - 1;
      FlagsBefore(fields[..n], name);
      if Names(fields[n].key, name) && !fields[n].value.Null? {
        assert LastUnder(fields, name, n);
      } else {
        FlagFieldExactly(fields[..n], name, b);
        forall k: nat
          ensures LastUnder(fields, name, k) <==> LastUnder(fields[..n], name, k)
        {
          NotCounted(fields, name, k);
        }
        NotCounted(fields, name, 0);
      }
    }
  }

  /* ----- field names ----- */

  /** ASCII texts name one field exactly if they are the same up to case. */
  lemma NamesIgnoreCase(key: string, field: string)
    requires forall k :: 0 <= k < |key| ==> key[k] as int < 128
    requires forall k :: 0 <= k < |field| ==> field[k] as int < 128
    ensures Names(key, field) <==> Lower(key) == Lower(field)
  {
    forall c: char, d: char | c as int < 128 && d as int < 128
      ensures FoldChar(c) == FoldChar(d) <==> LowerChar(c) == LowerChar(d)
    {
    }
    if Names(key, field) {
      assert forall k :: 0 <= k < |key| ==> Lower(key)[k] == Lower(field)[k];
    }
    if Lower(key) == Lower(field) {
      assert forall k :: 0 <= k < |key| ==>
        LowerChar(key[k]) == Lower(key)[k] == Lower(field)[k] == LowerChar(field[k]);
    }
  }

  /* ----- objects ----- */

  /** A path and value alone, as an operation. */
  ghost predicate EntryOutcome<S, U>(it: Interpreter<S, U>, env: Env, mode: Mode, s: S, k: string, v: Json,
                                     r: Result<S, Failure>) {
    match env.paths(k)
    case Err(_) => r == Err(NoTarget)
    case Ok(p) => ValueOutcome(it, env, mode, p, Some(v), s, r)
  }

  lemma OnlyOrder(order: seq<Leaf>, leaf: Leaf)
    requires multiset(order) == multiset([leaf])
    ensures order == [leaf]
  {
    assert |order| == |multiset(order)| == 1;
    assert order[0] in multiset(order);
  }

  lemma OrderOfOne<S, U>(it: Interpreter<S, U>, env: Env, mode: Mode, s: S, p: Path, v: Json, r: Result<S, Failure>)
    requires p.attr != ""
    ensures InSomeOrder(it, env, mode, s, [Leaf(p, v)], r) <==>
            exists r' ::
              ValueOutcome(it, env, mode, p, Some(v), s, r') && r == if r' == Err(NoTarget) then Ok(s) else r'
  {
    var one := [Leaf(p, v)];
    FoldOne(it, env, mode, s, p, v);
    if InSomeOrder(it, env, mode, s, one, r) {
      var order :| multiset(order) == multiset(one) && r == OrInvalid(Fold(it, env, mode, s, order));
      OnlyOrder(order, one[0]);
    }
    var u := it.decode(env, mode, p, Some(v));
    var r': Result<S, Failure> := if u.Ok? then Ok(it.apply(u.value, s)) else Err(u.error);
    assert ValueOutcome(it, env, mode, p, Some(v), s, r');
    assert OrInvalid(Fold(it, env, mode, s, one)) == if r' == Err(NoTarget) then Ok(s) else r';
  }

  lemma NoLeaves<S, U>(it: Interpreter<S, U>, env: Env, mode: Mode, s: S, r: Result<S, Failure>)
    ensures InSomeOrder(it, env, mode, s, [], r) <==> r == Ok(s)
  {
    if InSomeOrder(it, env, mode, s, [], r) {
      var order :| multiset(order) == multiset([]) && r == OrInvalid(Fold(it, env, mode, s, order));
      assert |order| == |multiset(order)|;
    }
    assert OrInvalid(Fold(it, env, mode, s, [])) == Ok(s);
    var none: seq<Leaf> := [];
    assert multiset(none) == multiset([]);
  }

  lemma RootOfEntry<S, U>(it: Interpreter<S, U>, env: Env, mode: Mode, s: S, k: string, v: Json, r: Result<S, Failure>)
    ensures InSomeOrder(it, env, mode, s, EntryLeaves(k, v, env.paths), r) <==>
            exists r' :: EntryOutcome(it, env, mode, s, k, v, r') && r == if r' == Err(NoTarget) then Ok(s) else r'
  {
    match env.paths(k) {
      case Err(_) =>
        NoLeaves(it, env, mode, s, r);
        var none: Result<S, Failure> := Err(NoTarget);
        assert EntryOutcome(it, env, mode, s, k, v, none);
      case Ok(p) =>
        if p.attr == "" {
          if InSomeOrder(it, env, mode, s, EntryLeaves(k, v, env.paths), r) {
            assert EntryOutcome(it, env, mode, s, k, v, r);
          }
        } else {
          OrderOfOne(it, env, mode, s, p, v, r);
          forall r'
            ensures EntryOutcome(it, env, mode, s, k, v, r') <==> ValueOutcome(it, env, mode, p, Some(v), s, r')
          {
          }
        }
    }
  }

  /** An object with one key, in place of a path, is the operation on that key, but what
      is not supported changes nothing. */
  lemma RootOfOne<S, U>(it: Interpreter<S, U>, number: FloatParser, uuid: string -> Option<nat>, s: S, name: string,
                        path: string, k: string, v: Json, r: Result<S, Failure>)
    requires (Lower(name) == "add" || Lower(name) == "replace") && TrimSpace(path) == ""
    ensures var env := Standard(number, uuid);
            OpOutcome(it, env, s, PatchOp(name, path, Some(Obj([Field(k, v)]))), r) <==>
            exists r' :: OpOutcome(it, env, s, PatchOp(name, k, Some(v)), r')
                         && r == if r' == Err(NoTarget) then Ok(s) else r'
  {
    var env, mode, root := Standard(number, uuid), if Lower(name) == "add" then Add else Replace, [Field(k, v)];
    assert |"add"| != |"replace"|;
    assert env.paths(path) == Ok(EmptyPath);
    assert root[1..] == [] && FieldLeaves(root[1..], env.paths) == [];
    assert FieldLeaves(root, env.paths) == EntryLeaves(k, v, env.paths) + [];
    assert RawLeaves(Some(Obj(root)), env.paths) == EntryLeaves(k, v, env.paths);
    RootOfEntry(it, env, mode, s, k, v, r);
    forall r'
      ensures OpOutcome(it, env, s, PatchOp(name, k, Some(v)), r') <==> EntryOutcome(it, env, mode, s, k, v, r')
    {
    }
  }
}
