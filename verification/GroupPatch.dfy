/** SCIM PATCH for groups: the display name and the member list. */
module GroupPatch {
  import opened Text
  import opened ScimLexer
  import opened ScimGrammar
  import opened ScimPath
  import opened ScimPatch

  datatype GroupState = GroupState(properties: map<string, Json>, members: seq<nat>)

  /** What a path and a value ask for. */
  datatype Update = SetName(text: string) | AddMembers(ids: seq<nat>) | SetMembers(ids: seq<nat>)

  /* ----- member lists ----- */

  /** `base`, then the elements of `more` that are not there yet, once each. */
  function MergeMembers(base: seq<nat>, more: seq<nat>): seq<nat> {
    if more == [] then base
    else
      var n := |more| - 1;
      var before := MergeMembers(base, more[..n]);
      if more[n] in before then before else before + [more[n]]
  }

  function DedupMembers(xs: seq<nat>): seq<nat> {
    MergeMembers([], xs)
  }

  /** `xs` without the first occurrence of `id`. */
  function RemoveMember(xs: seq<nat>, id: nat): seq<nat> {
    if xs == [] then [] else if xs[0] == id then xs[1..] else [xs[0]] + RemoveMember(xs[1..], id)
  }

  method MergeLists(base: seq<nat>, toAdd: seq<nat>) returns (out: seq<nat>)
    ensures out == MergeMembers(base, toAdd)
  {
    var seen := {};
    for i := 0 to |base|
      invariant forall x :: x in seen <==> x in base[..i]
    {
      seen := seen + {base[i]};
    }
    out := base;
    assert base[..|base|] == base;
    for i := 0 to |toAdd|
      invariant out == MergeMembers(base, toAdd[..i])
      invariant forall x :: x in seen <==> x in out
    {
      assert toAdd[..i + 1][..i] == toAdd[..i];
      if toAdd[i] in seen {
        continue;
      }
      seen := seen + {toAdd[i]};
      out := out + [toAdd[i]];
    }
    assert toAdd[..|toAdd|] == toAdd;
  }

  method DedupList(xs: seq<nat>) returns (out: seq<nat>)
    ensures out == DedupMembers(xs)
  {
    if |xs| == 0 {
      return [];
    }
    var seen := {};
    out := [];
    for i := 0 to |xs|
      invariant out == DedupMembers(xs[..i])
      invariant forall x :: x in seen <==> x in out
    {
      assert xs[..i + 1][..i] == xs[..i];
      if xs[i] in seen {
        continue;
      }
      seen := seen + {xs[i]};
      out := out + [xs[i]];
    }
    assert xs[..|xs|] == xs;
  }

  method RemoveFromList(xs: seq<nat>, target: nat) returns (out: seq<nat>)
    ensures out == RemoveMember(xs, target)
  {
    out := [];
    var dropped := false;
    for i := 0 to |xs|
      invariant dropped ==> out + xs[i..] == RemoveMember(xs, target)
      invariant !dropped ==> out + RemoveMember(xs[i..], target) == RemoveMember(xs, target)
    {
      var rest := xs[i..];
      assert rest[0] == xs[i] && rest[1..] == xs[i + 1..];
      if !dropped && xs[i] == target {
        dropped := true;
        continue;
      }
      assert dropped ==> (out + [xs[i]]) + xs[i + 1..] == out + xs[i..];
      assert !dropped ==> (out + [xs[i]]) + RemoveMember(xs[i + 1..], target) == out + RemoveMember(xs[i..], target);
      out := out + [xs[i]];
    }
    assert out + [] == out;
  }

  predicate NoDuplicates(xs: seq<nat>) {
    forall i, j :: 0 <= i < j < |xs| ==> xs[i] != xs[j]
  }

  function Elements(ids: seq<nat>): set<nat> {
    set x | x in ids
  }

  lemma {:induction false} ElementsBound(ids: seq<nat>)
    ensures |Elements(ids)| <= |ids|
    ensures |Elements(ids)| == |ids| <==> NoDuplicates(ids)
  {
    if ids != [] {
      var n := |ids| - 1;
      ElementsBound(ids[..n]);
      assert ids == ids[..n] + [ids[n]];
      if ids[n] in ids[..n] {
        assert Elements(ids) == Elements(ids[..n]);
      } else {
        assert Elements(ids) == Elements(ids[..n]) + {ids[n]};
      }
    } else {
      assert Elements(ids) == {};
    }
  }

  function FirstIndex(xs: seq<nat>, x: nat): (i: nat)
    requires x in xs
    ensures i < |xs| && xs[i] == x && x !in xs[..i]
  {
    if xs[0] == x then 0
    else
      var i := FirstIndex(xs[1..], x);
      assert xs[..1 + i] == [xs[0]] + xs[1..][..i];
      1 + i
  }

  lemma {:induction false} FirstIs(xs: seq<nat>, x: nat, i: nat)
    requires i < |xs| && xs[i] == x && x !in xs[..i]
    ensures FirstIndex(xs, x) == i
  {
    if i > 0 {
      assert xs[..i][0] == xs[0];
      assert xs[1..][..i - 1] == xs[..i][1..];
      FirstIs(xs[1..], x, i - 1);
    }
  }

  lemma FirstIndexOfPrefix(xs: seq<nat>, n: nat, x: nat)
    requires n <= |xs| && x in xs[..n]
    ensures FirstIndex(xs, x) == FirstIndex(xs[..n], x)
  {
    var j := FirstIndex(xs[..n], x);
    assert xs[..n][..j] == xs[..j];
    FirstIs(xs, x, j);
  }

  /** Adding is an ordered union: the old list stays in front, and nothing comes
      twice. */
  lemma {:induction false} MergeIsUnion(base: seq<nat>, more: seq<nat>)
    ensures var r := MergeMembers(base, more);
            && base <= r
            && (forall x :: x in r <==> x in base || x in more)
            && (NoDuplicates(base) ==> NoDuplicates(r))
            && (forall i :: |base| <= i < |r| ==> r[i] !in base && r[i] in more)
  {
    if more != [] {
      var n := |more| - 1;
      MergeIsUnion(base, more[..n]);
      assert more == more[..n] + [more[n]];
    }
  }

  /** The new members follow in the order of their first arrival. */
  lemma {:induction false} MergeInOrder(base: seq<nat>, more: seq<nat>, i: nat, j: nat)
    requires |base| <= i < j < |MergeMembers(base, more)|
    ensures var r := MergeMembers(base, more);
            r[i] in more && r[j] in more && FirstIndex(more, r[i]) < FirstIndex(more, r[j])
  {
    MergeIsUnion(base, more);
    var n := |more| - 1;
    var before, r := MergeMembers(base, more[..n]), MergeMembers(base, more);
    MergeIsUnion(base, more[..n]);
    FirstIndexOfPrefix(more, n, r[i]);
    if j < |before| {
      MergeInOrder(base, more[..n], i, j);
      FirstIndexOfPrefix(more, n, r[j]);
    } else {
      FirstIs(more, r[j], n);
    }
  }

  /** Replacing keeps the first occurrence of each element of the list. */
  lemma DedupIsSet(xs: seq<nat>)
    ensures var r := DedupMembers(xs);
            && NoDuplicates(r)
            && (forall x :: x in r <==> x in xs)
            && (forall i, j :: 0 <= i < j < |r| ==> FirstIndex(xs, r[i]) < FirstIndex(xs, r[j]))
            && (NoDuplicates(xs) ==> r == xs)
  {
    MergeIsUnion([], xs);
    var r := DedupMembers(xs);
    forall i, j | 0 <= i < j < |r|
      ensures FirstIndex(xs, r[i]) < FirstIndex(xs, r[j])
    {
      MergeInOrder([], xs, i, j);
    }
    if NoDuplicates(xs) {
      DedupOfDistinct(xs);
    }
  }

  lemma {:induction false} DedupOfDistinct(xs: seq<nat>)
    requires NoDuplicates(xs)
    ensures DedupMembers(xs) == xs
  {
    if xs != [] {
      DedupOfDistinct(xs[..|xs| - 1]);
    }
  }

  /** Taking one element out of a list without duplicates. */
  lemma WithoutIsDifference(xs: seq<nat>, k: nat)
    requires k < |xs| && NoDuplicates(xs)
    ensures NoDuplicates(Without(xs, k))
    ensures forall x :: x in Without(xs, k) <==> x in xs && x != xs[k]
  {
    var r := Without(xs, k);
    forall x | x in xs && x != xs[k]
      ensures x in r
    {
      var i :| 0 <= i < |xs| && xs[i] == x;
      assert r[if i < k then i else i - 1] == x;
    }
  }

  /** Removing takes out one occurrence, the first, and leaves the rest in order; a
      list without duplicates becomes the difference. */
  lemma RemoveIsDifference(xs: seq<nat>, id: nat)
    ensures var r := RemoveMember(xs, id);
            && (id !in xs ==> r == xs)
            && (id in xs ==> r == Without(xs, FirstIndex(xs, id)))
            && (NoDuplicates(xs) ==> NoDuplicates(r) && forall x :: x in r <==> x in xs && x != id)
  {
    if id in xs {
      RemoveAt(xs, id);
      if NoDuplicates(xs) {
        WithoutIsDifference(xs, FirstIndex(xs, id));
      }
    } else {
      RemoveNothing(xs, id);
    }
  }

  lemma {:induction false} RemoveNothing(xs: seq<nat>, id: nat)
    requires id !in xs
    ensures RemoveMember(xs, id) == xs
  {
    if xs != [] {
      RemoveNothing(xs[1..], id);
    }
  }

  lemma {:induction false} RemoveAt(xs: seq<nat>, id: nat)
    requires id in xs
    ensures RemoveMember(xs, id) == Without(xs, FirstIndex(xs, id))
  {
    if xs[0] != id {
      RemoveAt(xs[1..], id);
    }
  }

  /* ----- values and paths ----- */

  /** The `value` of a member object; none if some field has the wrong type. A null
      in place of the object is an empty member. */
  function MemberValue(v: Json): Option<string> {
    if v.Null? then Some("")
    else if v.Obj? && StringField(v.fields, "$ref").Some? && StringField(v.fields, "type").Some?
        && StringField(v.fields, "display").Some?
    then StringField(v.fields, "value")
    else None
  }

  /** The values of an array of members; none if some element does not decode. */
  function MemberValues(items: seq<Json>): Option<seq<string>> {
    if items == [] then Some([])
    else
      var n := |items| - 1;
      var before, last := MemberValues(items[..n]), MemberValue(items[n]);
      if before.Some? && last.Some? then Some(before.value + [last.value]) else None
  }

  function Uuids(values: seq<string>, uuid: string -> Option<nat>): Result<seq<nat>, Failure> {
    if values == [] then Ok([])
    else
      var n := |values| - 1;
      var before := Uuids(values[..n], uuid);
      if before.Err? then before
      else if values[n] == "" || uuid(values[n]).None? then Err(InvalidValue)
      else Ok(before.value + [uuid(values[n]).value])
  }

  method MembersToUuids(values: seq<string>, uuid: string -> Option<nat>) returns (r: Result<seq<nat>, Failure>)
    ensures r == Uuids(values, uuid)
  {
    var out := [];
    for i := 0 to |values|
      invariant Uuids(values[..i], uuid) == Ok(out)
    {
      assert values[..i + 1][..i] == values[..i];
      if values[i] == "" || uuid(values[i]).None? {
        UuidsFail(values, uuid, i + 1);
        return Err(InvalidValue);
      }
      out := out + [uuid(values[i]).value];
    }
    assert values[..|values|] == values;
    r := Ok(out);
  }

  lemma {:induction false} UuidsFail(values: seq<string>, uuid: string -> Option<nat>, n: nat)
    requires n <= |values| && Uuids(values[..n], uuid) == Err(InvalidValue)
    ensures Uuids(values, uuid) == Err(InvalidValue)
    decreases |values|
  {
    if n < |values| {
      var m := |values| - 1;
      assert values[..m][..n] == values[..n];
      UuidsFail(values[..m], uuid, n);
    } else {
      assert values[..n] == values;
    }
  }

  /** The member identifiers of a value: an array of members, one member, or null. */
  function Members(raw: Option<Json>, uuid: string -> Option<nat>): Result<seq<nat>, Failure> {
    if raw.None? then Err(InvalidValue)
    else
      match raw.value
      case Null => Ok([])
      case Arr(items) => if MemberValues(items).Some? then Uuids(MemberValues(items).value, uuid) else Err(InvalidValue)
      case Obj(_) =>
        var v := MemberValue(raw.value);
        if v.Some? && v.value != "" && uuid(v.value).Some? then Ok([uuid(v.value).value]) else Err(InvalidValue)
      case _ => Err(InvalidValue)
  }

  method DecodeMembersValue(raw: Option<Json>, uuid: string -> Option<nat>) returns (r: Result<seq<nat>, Failure>)
    ensures r == Members(raw, uuid)
  {
    if raw.None? {
      return Err(InvalidValue);
    }
    var arr := DecodeArray(raw.value);
    if arr.Some? {
      r := MembersToUuids(arr.value, uuid);
      return;
    }
    var single := MemberValue(raw.value);
    if single.Some? && single.value != "" {
      var id := uuid(single.value);
      return if id.None? then Err(InvalidValue) else Ok([id.value]);
    }
    r := Err(InvalidValue);
  }

  /** Decoding into a slice of members: `null` is the empty slice. */
  function DecodeArray(v: Json): Option<seq<string>> {
    if v.Null? then Some([]) else if v.Arr? then MemberValues(v.items) else None
  }

  function DecodeGroup(env: Env, mode: Mode, p: Path, raw: Option<Json>): Result<Update, Failure> {
    if p.filter.Some? || p.sub != "" then Err(NoTarget)
    else if p.attr == "displayname" then
      match DecodeString(raw)
      case Err(f) => Err(f)
      case Ok(text) => Ok(SetName(text))
    else if p.attr == "members" then
      match Members(raw, env.uuid)
      case Err(f) => Err(f)
      case Ok(ids) => Ok(if mode.Add? then AddMembers(ids) else SetMembers(ids))
    else Err(NoTarget)
  }

  function ApplyGroup(u: Update, s: GroupState): GroupState {
    match u
    case SetName(text) => s.(properties := s.properties["displayName" := ScimPatch.Json.Str(text)])
    case AddMembers(ids) => s.(members := MergeMembers(s.members, ids))
    case SetMembers(ids) => s.(members := DedupMembers(ids))
  }

  /** The member that a filter `value eq "..."` names. */
  function FilteredMember(e: Expr, uuid: string -> Option<nat>): Option<nat> {
    if e.Atom? && e.attr == "value" && e.op == Comparing(Eq) && e.value.StringValue? then uuid(e.value.text) else None
  }

  function RemoveGroup(env: Env, p: Path, s: GroupState): Result<GroupState, Failure> {
    if p.attr != "members" || p.sub != "" then Err(NoTarget)
    else if p.filter.None? then Ok(s.(members := []))
    else
      match FilteredMember(p.filter.value, env.uuid)
      case None => Err(NoTarget)
      case Some(id) => Ok(s.(members := RemoveMember(s.members, id)))
  }

  function Groups(): Interpreter<GroupState, Update> {
    Interpreter(DecodeGroup, ApplyGroup, RemoveGroup)
  }

  /* ----- the interpreter ----- */

  class PatchState {
    var properties: map<string, Json>
    var members: seq<nat>

    function Value(): GroupState
      reads this
    {
      GroupState(properties, members)
    }

    constructor (p: map<string, Json>, m: seq<nat>)
      ensures Value() == GroupState(p, m)
    {
      properties, members := p, m;
    }

    method SetStringProp(key: string, raw: Option<Json>) returns (error: Option<Failure>)
      modifies this
      ensures match DecodeString(raw)
              case Err(f) => error == Some(f) && Value() == old(Value())
              case Ok(text) =>
                error == None
                && Value() == old(Value()).(properties := old(properties)[key := ScimPatch.Json.Str(text)])
    {
      var s := DecodeString(raw);
      if s.Err? {
        return Some(InvalidValue);
      }
      properties := properties[key := ScimPatch.Json.Str(s.value)];
      error := None;
    }

    method ApplyAdd(p: Path, raw: Option<Json>, number: FloatParser, uuid: string -> Option<nat>)
      returns (error: Option<Failure>, ghost order: seq<Leaf>)
      modifies this
      ensures ValueApplied(Groups(), Standard(number, uuid), Add, p, raw, old(Value()), order, Value(), error)
      decreases Content(raw), 1
    {
      order := [];
      if p.attr == "" {
        error, order := ApplyRootObject(Add, raw, number, uuid);
        return;
      }
      if p.filter.Some? || p.sub != "" {
        return Some(NoTarget), order;
      }
      if p.attr == "displayname" {
        error := SetStringProp("displayName", raw);
        return;
      }
      if p.attr == "members" {
        var toAdd := DecodeMembersValue(raw, uuid);
        if toAdd.Err? {
          return Some(toAdd.error), order;
        }
        members := MergeLists(members, toAdd.value);
        return None, order;
      }
      error := Some(NoTarget);
    }

    method ApplyReplace(p: Path, raw: Option<Json>, number: FloatParser, uuid: string -> Option<nat>)
      returns (error: Option<Failure>, ghost order: seq<Leaf>)
      modifies this
      ensures ValueApplied(Groups(), Standard(number, uuid), Replace, p, raw, old(Value()), order, Value(), error)
      decreases Content(raw), 1
    {
      order := [];
      if p.attr == "" {
        error, order := ApplyRootObject(Replace, raw, number, uuid);
        return;
      }
      if p.filter.Some? || p.sub != "" {
        return Some(NoTarget), order;
      }
      if p.attr == "displayname" {
        error := SetStringProp("displayName", raw);
        return;
      }
      if p.attr == "members" {
        var next := DecodeMembersValue(raw, uuid);
        if next.Err? {
          return Some(next.error), order;
        }
        members := DedupList(next.value);
        return None, order;
      }
      error := Some(NoTarget);
    }

    /** One key of such an object: unsupported keys and attributes are skipped. */
    method VisitKeyOf(mode: Mode, k: string, v: Json, number: FloatParser, uuid: string -> Option<nat>)
      returns (failed: bool, ghost order: seq<Leaf>)
      modifies this
      ensures multiset(order) == multiset(EntryLeaves(k, v, Standard(number, uuid).paths))
      ensures Fold(Groups(), Standard(number, uuid), mode, old(Value()), order) == if failed then None
              else Some(Value())
      decreases v, 2
    {
      order := [];
      var path := ParsePath(k, number);
      if path.Err? {
        return false, order;
      }
      var error;
      if mode.Add? {
        error, order := ApplyAdd(path.value, Some(v), number, uuid);
      } else {
        error, order := ApplyReplace(path.value, Some(v), number, uuid);
      }
      EntryApplied(Groups(), Standard(number, uuid), mode, k, path.value, v, old(Value()), order, Value(), error);
      return error == Some(InvalidValue), EntryOrder(path.value, v, order);
    }

    /** An object in place of a path. Go visits its keys in any order. */
    method ApplyRootObject(mode: Mode, raw: Option<Json>, number: FloatParser, uuid: string -> Option<nat>)
      returns (error: Option<Failure>, ghost order: seq<Leaf>)
      modifies this
      ensures ValueApplied(Groups(), Standard(number, uuid), mode, EmptyPath, raw, old(Value()), order, Value(), error)
      decreases Content(raw), 0
    {
      if raw.None? || !(raw.value.Null? || raw.value.Obj?) {
        return Some(InvalidValue), [NotAnObject];
      }
      if raw.value.Null? {
        return None, [];
      }
      ghost var env := Standard(number, uuid);
      var fields := raw.value.fields;
      var obj := FieldMap(fields);
      var left := obj.Keys;
      order := [];
      VisitStart(Groups(), env, mode, fields, Value());
      while left != {}
        invariant left <= obj.Keys
        invariant Visited(Groups(), env, mode, fields, left, old(Value()), order, Value())
        decreases |left|
      {
        var k :| k in left;
        ghost var before := Value();
        Inside(fields, k);
        var failed, entry := VisitKeyOf(mode, k, obj[k], number, uuid);
        if failed {
          ghost var rest := LeavesIn(fields, left - {k}, env.paths);
          VisitFail(Groups(), env, mode, fields, left, k, old(Value()), order, before, entry, rest, Value());
          return Some(InvalidValue), order + entry + rest;
        }
        VisitMore(Groups(), env, mode, fields, left, k, old(Value()), order, before, entry, Value());
        order := order + entry;
        left := left - {k};
      }
      VisitEnd(Groups(), env, mode, fields, old(Value()), order, Value());
      error := None;
    }

    method ApplyRemove(p: Path, uuid: string -> Option<nat>, ghost number: FloatParser) returns (error: Option<Failure>)
      modifies this
      ensures match RemoveGroup(Standard(number, uuid), p, old(Value()))
              case Err(f) => error == Some(f) && Value() == old(Value())
              case Ok(s) => error == None && Value() == s
    {
      if p.attr != "members" || p.sub != "" {
        return Some(NoTarget);
      }
      if p.filter.None? {
        members := [];
        return None;
      }
      var target := FilteredMember(p.filter.value, uuid);
      if target.None? {
        return Some(NoTarget);
      }
      members := RemoveFromList(members, target.value);
      error := None;
    }

    method ApplyOne(op: PatchOp, number: FloatParser, uuid: string -> Option<nat>) returns (error: Option<Failure>)
      modifies this
      ensures OpOutcome(Groups(), Standard(number, uuid), old(Value()), op, if error.None? then Ok(Value())
                        else Err(error.value))
    {
      ghost var order;
      var path := ParsePath(op.path, number);
      if path.Err? {
        return Some(NoTarget);
      }
      var name := Lower(op.op);
      if name == "add" {
        error, order := ApplyAdd(path.value, op.value, number, uuid);
      } else if name == "replace" {
        error, order := ApplyReplace(path.value, op.value, number, uuid);
      } else if name == "remove" {
        error := ApplyRemove(path.value, uuid, number);
      } else {
        error := Some(NoTarget);
      }
    }
  }

  /** `ApplyPatch`: works on a copy of its input, which stays as it is. */
  method ApplyPatch(state: PatchState, ops: seq<PatchOp>, number: FloatParser, uuid: string -> Option<nat>)
    returns (r: Result<PatchState, PatchError>)
    ensures r.Ok? ==>
              fresh(r.value)
              && PatchOutcome(Groups(), Standard(number, uuid), state.Value(), ops, Ok(r.value.Value()))
    ensures r.Err? ==> PatchOutcome(Groups(), Standard(number, uuid), state.Value(), ops, Err(r.error))
  {
    ghost var env := Standard(number, uuid);
    var out := new PatchState(state.properties, state.members);
    for i := 0 to |ops|
      invariant fresh(out) && PatchOutcome(Groups(), env, state.Value(), ops[..i], Ok(out.Value()))
    {
      ghost var before := out.Value();
      var error := out.ApplyOne(ops[i], number, uuid);
      ghost var r' := if error.None? then Ok(out.Value()) else Err(PatchError(i, error.value));
      OneMore(Groups(), env, state.Value(), ops, i, before, if error.None? then Ok(out.Value())
              else Err(error.value), r');
      if error.Some? {
        FailureStays(Groups(), env, state.Value(), ops, i + 1, PatchError(i, error.value));
        return Err(PatchError(i, error.value));
      }
    }
    assert ops[..|ops|] == ops;
    r := Ok(out);
  }
}
