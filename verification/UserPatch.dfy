/** SCIM PATCH for users: names, the active flag, and the primary e-mail address. */
module UserPatch {
  import opened Text
  import opened ScimLexer
  import opened ScimGrammar
  import opened ScimPath
  import opened ScimPatch

  type Props = map<string, Json>

  /** What a path and a value ask for: a property is set. */
  datatype Update = SetProp(key: string, value: Json)

  /** One entry of `emails`. */
  datatype Email = Email(value: string, primary: bool)

  /** An e-mail object; none if some field has the wrong type. */
  function DecodeEmail(v: Json): Option<Email> {
    if v.Null? then Some(Email("", false))
    else if v.Obj? && StringField(v.fields, "value").Some? && StringField(v.fields, "type").Some?
        && BoolField(v.fields, "primary").Some?
    then Some(Email(StringField(v.fields, "value").value, BoolField(v.fields, "primary").value))
    else None
  }

  function DecodeEmails(items: seq<Json>): Option<seq<Email>> {
    if items == [] then Some([])
    else
      var first, rest := DecodeEmail(items[0]), DecodeEmails(items[1..]);
      if first.Some? && rest.Some? then Some([first.value] + rest.value) else None
  }

  predicate Usable(e: Email) {
    e.primary && e.value != ""
  }

  /** The address of the first usable primary entry from `i` on, or else `fallback`. */
  function PrimaryFrom(emails: seq<Email>, i: nat, fallback: string): string
    requires i <= |emails|
    decreases |emails| - i
  {
    if i == |emails| then fallback else if Usable(emails[i]) then emails[i].value
        else PrimaryFrom(emails, i + 1, fallback)
  }

  function PrimaryEmail(emails: seq<Email>): string {
    if emails == [] then "" else PrimaryFrom(emails, 0, emails[0].value)
  }

  method PickPrimaryEmail(emails: seq<Email>) returns (r: string)
    ensures r == PrimaryEmail(emails)
  {
    if |emails| == 0 {
      return "";
    }
    for i := 0 to |emails|
      invariant PrimaryFrom(emails, i, emails[0].value) == PrimaryEmail(emails)
    {
      if emails[i].primary && emails[i].value != "" {
        return emails[i].value;
      }
    }
    if emails[0].value != "" {
      return emails[0].value;
    }
    return "";
  }

  /** The chosen address is that of the first primary entry that has one; without such
      an entry it is the first entry's. */
  lemma {:induction false} PrimaryIsFirstUsable(emails: seq<Email>, i: nat, fallback: string)
    requires i <= |emails|
    ensures forall k :: i <= k < |emails| && Usable(emails[k]) && (forall j :: i <= j < k ==> !Usable(emails[j])) ==>
              PrimaryFrom(emails, i, fallback) == emails[k].value
    ensures (forall k :: i <= k < |emails| ==> !Usable(emails[k])) ==> PrimaryFrom(emails, i, fallback) == fallback
    decreases |emails| - i
  {
    if i < |emails| && !Usable(emails[i]) {
      PrimaryIsFirstUsable(emails, i + 1, fallback);
    }
  }

  /** The address that a value of `emails` stands for: an array with a usable address,
      or one object with one. */
  function EmailOf(raw: Option<Json>): Result<string, Failure> {
    if raw.None? then Err(InvalidValue)
    else if raw.value.Arr? then
      var list := DecodeEmails(raw.value.items);
      if list.Some? && PrimaryEmail(list.value) != "" then Ok(PrimaryEmail(list.value)) else Err(InvalidValue)
    else
      var single := DecodeEmail(raw.value);
      if single.Some? && single.value.value != "" then Ok(single.value.value) else Err(InvalidValue)
  }

  /** The filter `primary eq true`. */
  predicate IsPrimaryEqTrue(filter: Option<Expr>) {
    filter.Some? && filter.value.Atom? && filter.value.attr == "primary" && filter.value.op == Comparing(Eq)
        && filter.value.value == BoolValue(true)
  }

  function Setting(key: string, value: Result<Json, Failure>): Result<Update, Failure> {
    if value.Ok? then Ok(SetProp(key, value.value)) else Err(value.error)
  }

  function AsString(r: Result<string, Failure>): Result<Json, Failure> {
    if r.Ok? then Ok(ScimPatch.Json.Str(r.value)) else Err(r.error)
  }

  function AsBool(r: Result<bool, Failure>): Result<Json, Failure> {
    if r.Ok? then Ok(Bool(r.value)) else Err(r.error)
  }

  function DecodeUser(env: Env, mode: Mode, p: Path, raw: Option<Json>): Result<Update, Failure> {
    if mode.Replace? && p.attr == "emails" && p.sub == "value" && IsPrimaryEqTrue(p.filter)
        then Setting("email", AsString(DecodeString(raw)))
    else if p.filter.Some? || p.sub != "" then Err(NoTarget)
    else if p.attr == "displayname" then Setting("displayName", AsString(DecodeString(raw)))
    else if mode.Replace? && p.attr == "username" then Setting("userName", AsString(DecodeString(raw)))
    else if p.attr == "active" then Setting("active", AsBool(DecodeBool(raw)))
    else if p.attr == "emails" then Setting("email", AsString(EmailOf(raw)))
    else Err(NoTarget)
  }

  function ApplyUser(u: Update, s: Props): Props {
    s[u.key := u.value]
  }

  function RemoveUser(env: Env, p: Path, s: Props): Result<Props, Failure> {
    if p.attr == "emails" && p.sub == "" && IsPrimaryEqTrue(p.filter) then Ok(s - {"email"}) else Err(NoTarget)
  }

  function Users(): Interpreter<Props, Update> {
    Interpreter(DecodeUser, ApplyUser, RemoveUser)
  }

  /* ----- the interpreter ----- */

  class PropsMap {
    var props: Props

    constructor (p: Props)
      ensures props == p
    {
      props := p;
    }

    method SetStringProp(key: string, raw: Option<Json>) returns (error: Option<Failure>)
      modifies this
      ensures match Setting(key, AsString(DecodeString(raw)))
              case Err(f) => error == Some(f) && props == old(props)
              case Ok(u) => error == None && props == ApplyUser(u, old(props))
    {
      var s := DecodeString(raw);
      if s.Err? {
        return Some(InvalidValue);
      }
      props := props[key := ScimPatch.Json.Str(s.value)];
      error := None;
    }

    method SetBoolProp(key: string, raw: Option<Json>) returns (error: Option<Failure>)
      modifies this
      ensures match Setting(key, AsBool(DecodeBool(raw)))
              case Err(f) => error == Some(f) && props == old(props)
              case Ok(u) => error == None && props == ApplyUser(u, old(props))
    {
      var b := DecodeBool(raw);
      if b.Err? {
        return Some(InvalidValue);
      }
      props := props[key := Bool(b.value)];
      error := None;
    }

    method SetEmailsFromValue(raw: Option<Json>) returns (error: Option<Failure>)
      modifies this
      ensures match Setting("email", AsString(EmailOf(raw)))
              case Err(f) => error == Some(f) && props == old(props)
              case Ok(u) => error == None && props == ApplyUser(u, old(props))
    {
      if raw.None? {
        return Some(InvalidValue);
      }
      var arr := if raw.value.Null? then Some([]) else if raw.value.Arr? then DecodeEmails(raw.value.items) else None;
      if arr.Some? && |arr.value| > 0 {
        var email := PickPrimaryEmail(arr.value);
        if email != "" {
          props := props["email" := ScimPatch.Json.Str(email)];
          return None;
        }
        return Some(InvalidValue);
      }
      var single := DecodeEmail(raw.value);
      if single.Some? && single.value.value != "" {
        props := props["email" := ScimPatch.Json.Str(single.value.value)];
        return None;
      }
      error := Some(InvalidValue);
    }

    method ApplyAdd(p: Path, raw: Option<Json>, number: FloatParser, uuid: string -> Option<nat>)
      returns (error: Option<Failure>, ghost order: seq<Leaf>)
      modifies this
      ensures ValueApplied(Users(), Standard(number, uuid), Add, p, raw, old(props), order, props, error)
      decreases Content(raw), 1
    {
      order := [];
      if p.attr == "" {
        error, order := ApplyRootObject(Add, raw, number, uuid);
        return;
      }
      if p.filter.Some? || p.sub != "" {
        return Some(NoTarget), order;
      }
      if p.attr == "displayname" {
        error := SetStringProp("displayName", raw);
      } else if p.attr == "active" {
        error := SetBoolProp("active", raw);
      } else if p.attr == "emails" {
        error := SetEmailsFromValue(raw);
      } else {
        error := Some(NoTarget);
      }
    }

    method ApplyReplace(p: Path, raw: Option<Json>, number: FloatParser, uuid: string -> Option<nat>)
      returns (error: Option<Failure>, ghost order: seq<Leaf>)
      modifies this
      ensures ValueApplied(Users(), Standard(number, uuid), Replace, p, raw, old(props), order, props, error)
      decreases Content(raw), 1
    {
      order := [];
      if p.attr == "" {
        error, order := ApplyRootObject(Replace, raw, number, uuid);
        return;
      }
      if p.attr == "emails" && p.sub == "value" && IsPrimaryEqTrue(p.filter) {
        error := SetStringProp("email", raw);
        return;
      }
      if p.filter.Some? || p.sub != "" {
        return Some(NoTarget), order;
      }
      if p.attr == "displayname" {
        error := SetStringProp("displayName", raw);
      } else if p.attr == "username" {
        error := SetStringProp("userName", raw);
      } else if p.attr == "active" {
        error := SetBoolProp("active", raw);
      } else if p.attr == "emails" {
        error := SetEmailsFromValue(raw);
      } else {
        error := Some(NoTarget);
      }
    }

    /** One key of an object in place of a path. */
    method VisitKeyOf(mode: Mode, k: string, v: Json, number: FloatParser, uuid: string -> Option<nat>)
      returns (failed: bool, ghost order: seq<Leaf>)
      modifies this
      ensures multiset(order) == multiset(EntryLeaves(k, v, Standard(number, uuid).paths))
      ensures Fold(Users(), Standard(number, uuid), mode, old(props), order) == if failed then None else Some(props)
      decreases v, 2
    {
      order := [];
      var path := ParsePath(k, number);
      if path.Err? {
        return false, order;
      }
      var error;
      if mode.Add? {
        error, order := ApplyAdd(path.value, Some(v), number, uuid);
      } else {
        error, order := ApplyReplace(path.value, Some(v), number, uuid);
      }
      EntryApplied(Users(), Standard(number, uuid), mode, k, path.value, v, old(props), order, props, error);
      return error == Some(InvalidValue), EntryOrder(path.value, v, order);
    }

    /** An object in place of a path. Go visits its keys in any order. */
    method ApplyRootObject(mode: Mode, raw: Option<Json>, number: FloatParser, uuid: string -> Option<nat>)
      returns (error: Option<Failure>, ghost order: seq<Leaf>)
      modifies this
      ensures ValueApplied(Users(), Standard(number, uuid), mode, EmptyPath, raw, old(props), order, props, error)
      decreases Content(raw), 0
    {
      if raw.None? || !(raw.value.Null? || raw.value.Obj?) {
        return Some(InvalidValue), [NotAnObject];
      }
      if raw.value.Null? {
        return None, [];
      }
      ghost var env := Standard(number, uuid);
      var fields := raw.value.fields;
      var obj := FieldMap(fields);
      var left := obj.Keys;
      order := [];
      VisitStart(Users(), env, mode, fields, props);
      while left != {}
        invariant left <= obj.Keys
        invariant Visited(Users(), env, mode, fields, left, old(props), order, props)
        decreases |left|
      {
        var k :| k in left;
        ghost var before := props;
        Inside(fields, k);
        var failed, entry := VisitKeyOf(mode, k, obj[k], number, uuid);
        if failed {
          ghost var rest := LeavesIn(fields, left - {k}, env.paths);
          VisitFail(Users(), env, mode, fields, left, k, old(props), order, before, entry, rest, props);
          return Some(InvalidValue), order + entry + rest;
        }
        VisitMore(Users(), env, mode, fields, left, k, old(props), order, before, entry, props);
        order := order + entry;
        left := left - {k};
      }
      VisitEnd(Users(), env, mode, fields, old(props), order, props);
      error := None;
    }

    method ApplyRemove(p: Path, ghost env: Env) returns (error: Option<Failure>)
      modifies this
      ensures match RemoveUser(env, p, old(props))
              case Err(f) => error == Some(f) && props == old(props)
              case Ok(s) => error == None && props == s
    {
      if p.attr == "emails" && p.sub == "" && IsPrimaryEqTrue(p.filter) {
        props := props - {"email"};
        return None;
      }
      error := Some(NoTarget);
    }

    method ApplyOne(op: PatchOp, number: FloatParser, uuid: string -> Option<nat>) returns (error: Option<Failure>)
      modifies this
      ensures OpOutcome(Users(), Standard(number, uuid), old(props), op, if error.None? then Ok(props)
                        else Err(error.value))
    {
      ghost var order;
      var path := ParsePath(op.path, number);
      if path.Err? {
        return Some(NoTarget);
      }
      var name := Lower(op.op);
      if name == "add" {
        error, order := ApplyAdd(path.value, op.value, number, uuid);
      } else if name == "replace" {
        error, order := ApplyReplace(path.value, op.value, number, uuid);
      } else if name == "remove" {
        error := ApplyRemove(path.value, Standard(number, uuid));
      } else {
        error := Some(NoTarget);
      }
    }
  }

  /** `ApplyPatch`: works on a copy of its input. */
  method ApplyPatch(props: Props, ops: seq<PatchOp>, number: FloatParser, uuid: string -> Option<nat>)
    returns (r: Result<Props, PatchError>)
    ensures PatchOutcome(Users(), Standard(number, uuid), props, ops, r)
  {
    ghost var env := Standard(number, uuid);
    var out := new PropsMap(props);
    for i := 0 to |ops|
      invariant fresh(out) && PatchOutcome(Users(), env, props, ops[..i], Ok(out.props))
    {
      ghost var before := out.props;
      var error := out.ApplyOne(ops[i], number, uuid);
      ghost var r' := if error.None? then Ok(out.props) else Err(PatchError(i, error.value));
      OneMore(Users(), env, props, ops, i, before, if error.None? then Ok(out.props) else Err(error.value), r');
      if error.Some? {
        FailureStays(Users(), env, props, ops, i + 1, PatchError(i, error.value));
        return Err(PatchError(i, error.value));
      }
    }
    assert ops[..|ops|] == ops;
    r := Ok(out.props);
  }

  /* ----- laws ----- */

  /** The attribute of an update. */
  function Target(u: Update): string {
    if u.key == "email" then "emails" else Lower(u.key)
  }

  lemma KeysOfAttributes()
    ensures Lower("displayName") == "displayname" && Lower("userName") == "username" && Lower("active") == "active"
  {
  }

  lemma UpdateTarget(env: Env, mode: Mode, p: Path, raw: Option<Json>)
    requires DecodeUser(env, mode, p, raw).Ok?
    ensures Target(DecodeUser(env, mode, p, raw).value) == p.attr
  {
    KeysOfAttributes();
  }

  predicate AnyProps(s: Props) {
    true
  }

  lemma SetsCommute(a: Update, b: Update)
    requires a.key == b.key ==> a.value == b.value
    ensures Commute(Users(), AnyProps, a, b)
  {
    forall s: Props
      ensures ApplyUser(a, ApplyUser(b, s)) == ApplyUser(b, ApplyUser(a, s))
    {
    }
  }

  /** Any two supported leaves that set one property set it to the same value. */
  ghost predicate SettingsAgree(env: Env, mode: Mode, leaves: seq<Leaf>) {
    forall i, j ::
      0 <= i < j < |leaves| && DecodeLeaf(Users(), env, mode, leaves[i]).Ok?
      && DecodeLeaf(Users(), env, mode, leaves[j]).Ok? ==>
      var u, v := DecodeLeaf(Users(), env, mode, leaves[i]).value, DecodeLeaf(Users(), env, mode, leaves[j]).value;
      u.key == v.key ==> u.value == v.value
  }

  lemma SettingsCommute(env: Env, mode: Mode, leaves: seq<Leaf>)
    requires SettingsAgree(env, mode, leaves)
    ensures LeavesCommute(Users(), env, mode, AnyProps, leaves)
  {
    forall i, j | 0 <= i < j < |leaves| && DecodeLeaf(Users(), env, mode, leaves[i]).Ok?
        && DecodeLeaf(Users(), env, mode, leaves[j]).Ok?
      ensures Commute(Users(), AnyProps, DecodeLeaf(Users(), env, mode, leaves[i]).value,
                      DecodeLeaf(Users(), env, mode, leaves[j]).value)
    {
      SetsCommute(DecodeLeaf(Users(), env, mode, leaves[i]).value, DecodeLeaf(Users(), env, mode, leaves[j]).value);
    }
  }

  lemma LastSettingWins(env: Env, mode: Mode, s: Props, leaves: seq<Leaf>, i: nat, j: nat, u: Update, v: Update)
    requires i < |leaves| && j < |leaves| && DecodeLeaf(Users(), env, mode, leaves[i]) == Ok(u)
             && DecodeLeaf(Users(), env, mode, leaves[j]) == Ok(v)
    requires !SomeInvalid(Users(), env, mode, leaves) && u.key == v.key && u.value != v.value
    ensures !OrdersAgree(Users(), env, mode, s, leaves)
  {
    forall x, y
      ensures ApplyUser(u, x) != ApplyUser(v, y)
    {
      assert ApplyUser(u, x)[u.key] != ApplyUser(v, y)[u.key];
    }
    LastDecides(Users(), env, mode, s, leaves, i, j, u, v);
  }

  /** Exactly when the order of the leaves plays no part: some leaf is invalid, or
      they agree. */
  lemma OrdersAgreeExactly(env: Env, mode: Mode, s: Props, leaves: seq<Leaf>)
    ensures OrdersAgree(Users(), env, mode, s, leaves) <==>
            SomeInvalid(Users(), env, mode, leaves) || SettingsAgree(env, mode, leaves)
  {
    if SomeInvalid(Users(), env, mode, leaves) {
      InvalidInAnyOrder(Users(), env, mode, s, leaves);
    } else if SettingsAgree(env, mode, leaves) {
      SettingsCommute(env, mode, leaves);
      CommutingLeaves(Users(), env, mode, AnyProps, s, leaves);
    } else {
      var i, j :| 0 <= i < j < |leaves| && DecodeLeaf(Users(), env, mode, leaves[i]).Ok?
                  && DecodeLeaf(Users(), env, mode, leaves[j]).Ok? &&
                  var u, v := DecodeLeaf(Users(), env, mode, leaves[i]).value,
                              DecodeLeaf(Users(), env, mode, leaves[j]).value;
                  u.key == v.key && u.value != v.value;
      LastSettingWins(env, mode, s, leaves, i, j, DecodeLeaf(Users(), env, mode, leaves[i]).value,
                      DecodeLeaf(Users(), env, mode, leaves[j]).value);
    }
  }

  /** What makes an operation deterministic. */
  ghost predicate Deterministic(env: Env, op: PatchOp) {
    RootMode(env, op).Some? ==>
      var mode, leaves := RootMode(env, op).value, RawLeaves(op.value, env.paths);
      SomeInvalid(Users(), env, mode, leaves) || SettingsAgree(env, mode, leaves)
  }

  lemma OpIsDeterministic(env: Env, s: Props, op: PatchOp)
    ensures OneOutcome(Users(), env, s, op) <==> Deterministic(env, op)
  {
    OneOutcomeIff(Users(), env, s, op);
    if RootMode(env, op).Some? {
      OrdersAgreeExactly(env, RootMode(env, op).value, s, RawLeaves(op.value, env.paths));
    }
  }

  /** A patch of such operations has one result. */
  lemma PatchIsDeterministic(env: Env, s: Props, ops: seq<PatchOp>, r: Result<Props, PatchError>,
                             r': Result<Props, PatchError>)
    requires forall op :: op in ops ==> Deterministic(env, op)
    requires PatchOutcome(Users(), env, s, ops, r) && PatchOutcome(Users(), env, s, ops, r')
    ensures r == r'
  {
    forall op, t | op in ops
      ensures OneOutcome(Users(), env, t, op)
    {
      OpIsDeterministic(env, t, op);
    }
    PatchHasOneOutcome(Users(), env, s, ops, r, r');
  }

  /** Among them are those whose objects name no attribute twice. */
  lemma DistinctIsDeterministic(env: Env, op: PatchOp)
    requires DistinctAttributes(RawLeaves(op.value, env.paths))
    ensures Deterministic(env, op)
  {
    forall mode, p, raw | DecodeUser(env, mode, p, raw).Ok?
      ensures Target(DecodeUser(env, mode, p, raw).value) == p.attr
    {
      UpdateTarget(env, mode, p, raw);
    }
  }

  /** An object with two spellings of the display name depends on the order. */
  lemma ResultCanDependOnOrder(number: FloatParser, uuid: string -> Option<nat>, s: Props, x: string, y: string)
    requires x != y
    ensures !OneOutcome(Users(), Standard(number, uuid), s, TwoSpellings(x, y))
  {
    var env, op := Standard(number, uuid), TwoSpellings(x, y);
    SpellingsAre(number, uuid, x, y);
    var la, lb := Leaf(DisplayName, ScimPatch.Json.Str(x)), Leaf(DisplayName, ScimPatch.Json.Str(y));
    var leaves := [la, lb];
    assert DecodeLeaf(Users(), env, Replace, leaves[0]) == Ok(SetProp("displayName", la.value));
    assert DecodeLeaf(Users(), env, Replace, leaves[1]) == Ok(SetProp("displayName", lb.value));
    assert RawLeaves(op.value, env.paths) == leaves;
    OpIsDeterministic(env, s, op);
  }

  lemma DecodedKeys(env: Env, mode: Mode, p: Path, raw: Option<Json>)
    requires DecodeUser(env, mode, p, raw).Ok?
    ensures DecodeUser(env, mode, p, raw).value.key in ["displayName", "userName", "active", "email"]
  {
  }

  /** Patches touch no property but these four. */
  lemma OthersStay(env: Env, s: Props, ops: seq<PatchOp>, r: Result<Props, PatchError>, key: string)
    requires PatchOutcome(Users(), env, s, ops, r)
    requires key != "displayName" && key != "userName" && key != "active" && key != "email"
    ensures r.Ok? ==> (key in r.value <==> key in s) && (key in s ==> r.value[key] == s[key])
  {
    var keep := (x: Props) => (key in x <==> key in s) && (key in s ==> x[key] == s[key]);
    forall mode, p, raw, x | DecodeUser(env, mode, p, raw).Ok? && keep(x)
      ensures keep(ApplyUser(DecodeUser(env, mode, p, raw).value, x))
    {
      DecodedKeys(env, mode, p, raw);
    }
    PatchKeeps(Users(), env, s, ops, r, keep);
  }
}
