/** What each operation of a group patch does, by its path and value: the interpreter's
    definitions play no part in the statements. */
module GroupPatchLaws {
  import opened Text
  import opened ScimLexer
  import opened ScimGrammar
  import opened ScimParser
  import opened ScimPath
  import opened ScimPathProofs
  import opened ScimPatch
  import opened GroupPatch
  import opened PatchLaws
  import ScimPrinter

  type Uuid = string -> Option<nat>

  /* ----- member lists ----- */

  /** `after` is `before` without the first `id`, in order. */
  ghost predicate IsWithout(before: seq<nat>, id: nat, after: seq<nat>) {
    if id !in before then after == before
    else exists k :: 0 <= k < |before| && before[k] == id && id !in before[..k]
                     && after == before[..k] + before[k + 1..]
  }

  /** `x` comes before `y` in the list for the first time. */
  ghost predicate FirstBefore(xs: seq<nat>, x: nat, y: nat) {
    exists k :: 0 <= k < |xs| && xs[k] == x && x !in xs[..k] && y !in xs[..k] && x != y && y in xs
  }

  /** `after` is `before`, and then the listed members that are not in it, once each, in
      the order in which they come first. */
  ghost predicate IsUnion(before: seq<nat>, ids: seq<nat>, after: seq<nat>) {
    && before <= after
    && (forall x :: x in after[|before|..] <==> x in ids && x !in before)
    && (forall i, j :: |before| <= i < j < |after| ==> FirstBefore(ids, after[i], after[j]))
  }

  lemma FirstBeforeIs(xs: seq<nat>, x: nat, y: nat)
    requires x in xs && y in xs
    ensures FirstBefore(xs, x, y) <==> FirstIndex(xs, x) < FirstIndex(xs, y)
  {
    var i, j := FirstIndex(xs, x), FirstIndex(xs, y);
    if i < j {
      assert y !in xs[..i] by {
        assert forall k :: 0 <= k < i ==> xs[..j][k] == xs[..i][k];
      }
      assert x !in xs[..i] && xs[i] == x;
    }
    if k :| 0 <= k < |xs| && xs[k] == x && x !in xs[..k] && y !in xs[..k] && x != y {
      FirstIs(xs, x, k);
      forall m | 0 <= m < k
        ensures xs[m] != y
      {
        assert xs[..k][m] == xs[m];
      }
    }
  }

  lemma MergeIsTheUnion(before: seq<nat>, ids: seq<nat>)
    ensures IsUnion(before, ids, MergeMembers(before, ids))
  {
    var r := MergeMembers(before, ids);
    MergeIsUnion(before, ids);
    forall x
      ensures x in r[|before|..] <==> x in ids && x !in before
    {
      if x in ids && x !in before {
        var i :| 0 <= i < |r| && r[i] == x;
        assert r[|before|..][i - |before|] == x;
      }
    }
    forall i, j | |before| <= i < j < |r|
      ensures FirstBefore(ids, r[i], r[j])
    {
      MergeInOrder(before, ids, i, j);
      FirstBeforeIs(ids, r[i], r[j]);
    }
  }

  /** The elements come in the order of their first arrival in `ids`. */
  ghost predicate ByArrival(ids: seq<nat>, xs: seq<nat>) {
    && (forall x :: x in xs ==> x in ids)
    && forall i, j :: 0 <= i < j < |xs| ==> FirstIndex(ids, xs[i]) < FirstIndex(ids, xs[j])
  }

  lemma HeadFirst(ids: seq<nat>, xs: seq<nat>, x: nat)
    requires ByArrival(ids, xs) && x in xs
    ensures FirstIndex(ids, xs[0]) <= FirstIndex(ids, x)
  {
    var i :| 0 <= i < |xs| && xs[i] == x;
  }

  /** Such lists with the same elements are the same. */
  lemma {:induction false} SameOrder(ids: seq<nat>, xs: seq<nat>, ys: seq<nat>)
    requires ByArrival(ids, xs) && ByArrival(ids, ys) && forall x :: x in xs <==> x in ys
    ensures xs == ys
  {
    if xs == [] {
      assert forall i :: 0 <= i < |ys| ==> ys[i] in ys;
    } else {
      assert xs[0] in ys;
      assert ys[0] in xs;
      HeadFirst(ids, xs, ys[0]);
      HeadFirst(ids, ys, xs[0]);
      assert xs[0] == ys[0];
      forall x
        ensures x in xs[1..] <==> x in ys[1..]
      {
        TailElements(ids, xs, x);
        TailElements(ids, ys, x);
      }
      SameOrder(ids, xs[1..], ys[1..]);
    }
  }

  lemma TailElements(ids: seq<nat>, xs: seq<nat>, x: nat)
    requires xs != [] && ByArrival(ids, xs)
    ensures ByArrival(ids, xs[1..])
    ensures x in xs[1..] <==> x in xs && x != xs[0]
  {
    assert xs == [xs[0]] + xs[1..];
    if x in xs[1..] {
      var k :| 0 <= k < |xs[1..]| && xs[1..][k] == x;
      assert xs[k + 1] == x;
    }
  }

  /** The union is one list. */
  lemma UnionIs(before: seq<nat>, ids: seq<nat>, after: seq<nat>)
    ensures IsUnion(before, ids, after) <==> after == MergeMembers(before, ids)
  {
    var r := MergeMembers(before, ids);
    MergeIsTheUnion(before, ids);
    if IsUnion(before, ids, after) {
      var xs, ys := after[|before|..], r[|before|..];
      UnionTail(before, ids, after);
      UnionTail(before, ids, r);
      SameOrder(ids, xs, ys);
      assert after == before + xs && r == before + ys;
    }
  }

  lemma UnionTail(before: seq<nat>, ids: seq<nat>, after: seq<nat>)
    requires IsUnion(before, ids, after)
    ensures ByArrival(ids, after[|before|..])
  {
    var xs, n := after[|before|..], |before|;
    forall i, j | 0 <= i < j < |xs|
      ensures xs[i] in ids && xs[j] in ids && FirstIndex(ids, xs[i]) < FirstIndex(ids, xs[j])
    {
      assert xs[i] == after[n + i] && xs[j] == after[n + j];
      assert FirstBefore(ids, after[n + i], after[n + j]);
      assert xs[i] in xs && xs[j] in xs;
      FirstBeforeIs(ids, xs[i], xs[j]);
    }
  }

  lemma WithoutIs(before: seq<nat>, id: nat, after: seq<nat>)
    ensures IsWithout(before, id, after) <==> after == RemoveMember(before, id)
  {
    RemoveIsDifference(before, id);
    if id in before {
      var k := FirstIndex(before, id);
      assert Without(before, k) == before[..k] + before[k + 1..];
      if IsWithout(before, id, after) {
        var j :| 0 <= j < |before| && before[j] == id && id !in before[..j] && after == before[..j] + before[j + 1..];
        FirstIs(before, id, j);
      }
    }
  }

  /* ----- listed members ----- */

  /** The value of a member: an object with this `value`, and with strings in its other
      fields; or null, which is a member without value. */
  ghost predicate IsMember(item: Json, t: string) {
    || (item.Null? && t == "")
    || (item.Obj? && FieldIs(item.fields, "value", t)
        && (exists r :: FieldIs(item.fields, "$ref", r))
        && (exists r :: FieldIs(item.fields, "type", r))
        && (exists r :: FieldIs(item.fields, "display", r)))
  }

  /** The member has the identifier. */
  ghost predicate Identifies(item: Json, uuid: Uuid, id: nat) {
    exists t :: t != "" && IsMember(item, t) && uuid(t) == Some(id)
  }

  /** The value lists these identifiers: an array of members, one member, or null. */
  ghost predicate Lists(raw: Option<Json>, uuid: Uuid, ids: seq<nat>) {
    raw.Some? &&
    match raw.value
    case Null => ids == []
    case Arr(items) => |ids| == |items| && forall i :: 0 <= i < |items| ==> Identifies(items[i], uuid, ids[i])
    case Obj(_) => |ids| == 1 && Identifies(raw.value, uuid, ids[0])
    case _ => false
  }

  lemma FieldSome(fields: seq<Field>, name: string)
    ensures StringField(fields, name).Some? <==> exists t :: FieldIs(fields, name, t)
  {
    if StringField(fields, name).Some? {
      FieldExactly(fields, name, StringField(fields, name).value);
    }
    if t :| FieldIs(fields, name, t) {
      FieldExactly(fields, name, t);
    }
  }

  lemma MemberIs(item: Json, t: string)
    ensures MemberValue(item) == Some(t) <==> IsMember(item, t)
  {
    if item.Obj? {
      FieldExactly(item.fields, "value", t);
      FieldSome(item.fields, "$ref");
      FieldSome(item.fields, "type");
      FieldSome(item.fields, "display");
    }
  }

  /** The identifier of a member, if it has one. */
  function IdOf(item: Json, uuid: Uuid): Option<nat> {
    var t := MemberValue(item);
    if t.Some? && t.value != "" then uuid(t.value) else None
  }

  lemma IdentifiesIs(item: Json, uuid: Uuid, id: nat)
    ensures Identifies(item, uuid, id) <==> IdOf(item, uuid) == Some(id)
  {
    if MemberValue(item).Some? {
      MemberIs(item, MemberValue(item).value);
    }
    if t :| t != "" && IsMember(item, t) && uuid(t) == Some(id) {
      MemberIs(item, t);
    }
  }

  lemma {:induction false} ValuesLength(items: seq<Json>)
    ensures MemberValues(items).Some? ==> |MemberValues(items).value| == |items|
  {
    if items != [] {
      ValuesLength(items[..|items| - 1]);
    }
  }

  /** The identifiers are those of the items. */
  ghost predicate IdsAre(items: seq<Json>, uuid: Uuid, ids: seq<nat>) {
    |ids| == |items| && forall i :: 0 <= i < |items| ==> IdOf(items[i], uuid) == Some(ids[i])
  }

  lemma IdsAreLast(items: seq<Json>, uuid: Uuid, ids: seq<nat>)
    requires items != [] && ids != []
    ensures var n, m := |items| - 1, |ids| - 1;
            IdsAre(items, uuid, ids) <==> IdsAre(items[..n], uuid, ids[..m]) && IdOf(items[n], uuid) == Some(ids[m])
  {
    var n, m := |items| - 1, |ids| - 1;
    if IdsAre(items[..n], uuid, ids[..m]) && IdOf(items[n], uuid) == Some(ids[m]) {
      forall i | 0 <= i < |items|
        ensures IdOf(items[i], uuid) == Some(ids[i])
      {
        assert i < n ==> items[..n][i] == items[i] && ids[..m][i] == ids[i];
      }
    }
  }

  function IdsOf(items: seq<Json>, uuid: Uuid): Option<seq<nat>> {
    if MemberValues(items).None? || Uuids(MemberValues(items).value, uuid).Err? then None
    else Some(Uuids(MemberValues(items).value, uuid).value)
  }

  lemma IdsOfLast(items: seq<Json>, uuid: Uuid)
    requires items != []
    ensures var n := |items| - 1;
            var before, last := IdsOf(items[..n], uuid), IdOf(items[n], uuid);
            IdsOf(items, uuid) == if before.Some? && last.Some? then Some(before.value + [last.value]) else None
  {
    var n := |items| - 1;
    ValuesLength(items);
    ValuesLength(items[..n]);
    if MemberValues(items).Some? {
      assert MemberValues(items).value[..n] == MemberValues(items[..n]).value;
    }
  }

  lemma {:induction false} ArrayIs(items: seq<Json>, uuid: Uuid, ids: seq<nat>)
    ensures IdsOf(items, uuid) == Some(ids) <==> IdsAre(items, uuid, ids)
  {
    if items != [] {
      IdsOfLast(items, uuid);
      if ids != [] {
        ArrayIs(items[..|items| - 1], uuid, ids[..|ids| - 1]);
        IdsAreLast(items, uuid, ids);
        assert ids == ids[..|ids| - 1] + [ids[|ids| - 1]];
      }
    }
  }

  lemma ListsIs(raw: Option<Json>, uuid: Uuid, ids: seq<nat>)
    ensures Members(raw, uuid) == Ok(ids) <==> Lists(raw, uuid, ids)
    ensures Members(raw, uuid).Err? ==> Members(raw, uuid) == Err(InvalidValue)
  {
    if raw.Some? && raw.value.Arr? {
      var items := raw.value.items;
      ArrayIs(items, uuid, ids);
      forall i | 0 <= i < |items| && |ids| == |items|
        ensures Identifies(items[i], uuid, ids[i]) <==> IdOf(items[i], uuid) == Some(ids[i])
      {
        IdentifiesIs(items[i], uuid, ids[i]);
      }
      UuidsError(if MemberValues(items).Some? then MemberValues(items).value else [], uuid);
    } else if raw.Some? && raw.value.Obj? && |ids| == 1 {
      IdentifiesIs(raw.value, uuid, ids[0]);
      assert ids == [ids[0]];
    }
  }

  lemma {:induction false} UuidsError(values: seq<string>, uuid: Uuid)
    ensures Uuids(values, uuid).Err? ==> Uuids(values, uuid) == Err(InvalidValue)
    ensures Uuids(values, uuid).Ok? ==> |Uuids(values, uuid).value| == |values|
  {
    if values != [] {
      UuidsError(values[..|values| - 1], uuid);
    }
  }

  /* ----- operations ----- */

  /** A possible result of one operation. */
  ghost predicate Leads(number: FloatParser, uuid: Uuid, s: GroupState, op: PatchOp, r: Result<GroupState, Failure>) {
    OpOutcome(Groups(), Standard(number, uuid), s, op, r)
  }

  predicate TakesValue(op: PatchOp) {
    Lower(op.op) == "add" || Lower(op.op) == "replace"
  }

  lemma OpNames()
    ensures "add" != "replace" && "add" != "remove" && "replace" != "remove"
  {
    assert |"add"| != |"replace"| && |"add"| != |"remove"| && |"replace"| != |"remove"|;
  }

  /** The display name: a text sets that property only; any other value is invalid. */
  lemma NameLaw(number: FloatParser, uuid: Uuid, s: GroupState, op: PatchOp, r: Result<GroupState, Failure>)
    requires TakesValue(op) && Spells(op.path, "displayname")
    ensures forall t :: IsText(op.value, t) ==>
              (Leads(number, uuid, s, op, r) <==>
               r == Ok(GroupState(s.properties["displayName" := ScimPatch.Json.Str(t)], s.members)))
    ensures (forall t :: !IsText(op.value, t)) ==> (Leads(number, uuid, s, op, r) <==> r == Err(InvalidValue))
  {
    OpNames();
    OnePath(op.path, "displayname", number);
    forall t
      ensures DecodeString(op.value) == Ok(t) <==> IsText(op.value, t)
      ensures DecodeString(op.value).Err? ==> DecodeString(op.value) == Err(InvalidValue)
    {
      TextIs(op.value, t);
    }
    if DecodeString(op.value).Ok? {
      assert IsText(op.value, DecodeString(op.value).value);
    }
  }

  /** Members: an addition makes the ordered union, a replacement leaves what is listed,
      once each; the properties stay. A value that lists no identifiers is invalid. */
  lemma MembersLaw(number: FloatParser, uuid: Uuid, s: GroupState, op: PatchOp, r: Result<GroupState, Failure>)
    requires TakesValue(op) && Spells(op.path, "members")
    ensures forall ids :: Lists(op.value, uuid, ids) ==>
              (Leads(number, uuid, s, op, r) <==>
               && r.Ok? && r.value.properties == s.properties
               && IsUnion(if Lower(op.op) == "add" then s.members else [], ids, r.value.members))
    ensures (forall ids :: !Lists(op.value, uuid, ids)) ==> (Leads(number, uuid, s, op, r) <==> r == Err(InvalidValue))
  {
    OpNames();
    OnePath(op.path, "members", number);
    ListsIs(op.value, uuid, []);
    if Members(op.value, uuid).Ok? {
      var ids := Members(op.value, uuid).value;
      ListsIs(op.value, uuid, ids);
      if r.Ok? {
        UnionIs(if Lower(op.op) == "add" then s.members else [], ids, r.value.members);
      }
    }
    forall ids | Lists(op.value, uuid, ids)
      ensures Members(op.value, uuid) == Ok(ids)
    {
      ListsIs(op.value, uuid, ids);
    }
  }

  /** Every other path fails, unless it is blank. */
  lemma OtherPathLaw(number: FloatParser, uuid: Uuid, s: GroupState, op: PatchOp, r: Result<GroupState, Failure>)
    requires TakesValue(op) && TrimSpace(op.path) != ""
    requires !Spells(op.path, "displayname") && !Spells(op.path, "members")
    ensures Leads(number, uuid, s, op, r) <==> r == Err(NoTarget)
  {
    OpNames();
    SpellsIs(op.path, "displayname", number);
    SpellsIs(op.path, "members", number);
    if PathOf(op.path, number).Ok? {
      BlankIs(op.path, number);
    }
  }

  /** The path is `members` with the filter `value eq` the text of this identifier. */
  ghost predicate NamesMember(path: string, number: FloatParser, uuid: Uuid, id: nat) {
    exists t :: SpellsFiltered(path, "members", Atom("value", Comparing(Eq), StringValue(t)), "", number)
                && uuid(t) == Some(id)
  }

  lemma NamesMemberIs(path: string, number: FloatParser, uuid: Uuid, id: nat)
    ensures NamesMember(path, number, uuid, id) <==>
            var p := PathOf(path, number);
            p.Ok? && p.value.attr == "members" && p.value.sub == "" && p.value.filter.Some?
            && FilteredMember(p.value.filter.value, uuid) == Some(id)
  {
    var p := PathOf(path, number);
    if p.Ok? && p.value.filter.Some? && FilteredMember(p.value.filter.value, uuid) == Some(id) {
      SpellsFilteredIs(path, "members", p.value.filter.value, "", number);
    }
    if t :| SpellsFiltered(path, "members", Atom("value", Comparing(Eq), StringValue(t)), "", number)
            && uuid(t) == Some(id) {
      SpellsFilteredIs(path, "members", Atom("value", Comparing(Eq), StringValue(t)), "", number);
    }
  }

  /** Removing `members` leaves none, and the properties. */
  lemma ClearLaw(number: FloatParser, uuid: Uuid, s: GroupState, op: PatchOp, r: Result<GroupState, Failure>)
    requires Lower(op.op) == "remove" && Spells(op.path, "members")
    ensures Leads(number, uuid, s, op, r) <==> r == Ok(GroupState(s.properties, []))
  {
    OpNames();
    OnePath(op.path, "members", number);
  }

  /** Removing `members` with such a filter leaves exactly the list without that member,
      in order, and the properties. */
  lemma DropLaw(number: FloatParser, uuid: Uuid, s: GroupState, op: PatchOp, id: nat, r: Result<GroupState, Failure>)
    requires Lower(op.op) == "remove" && NamesMember(op.path, number, uuid, id)
    ensures Leads(number, uuid, s, op, r) <==>
            r.Ok? && r.value.properties == s.properties && IsWithout(s.members, id, r.value.members)
  {
    OpNames();
    NamesMemberIs(op.path, number, uuid, id);
    if r.Ok? {
      WithoutIs(s.members, id, r.value.members);
    }
  }

  /** Removing anything else fails. */
  lemma NoRemoveLaw(number: FloatParser, uuid: Uuid, s: GroupState, op: PatchOp, r: Result<GroupState, Failure>)
    requires Lower(op.op) == "remove" && !Spells(op.path, "members")
    requires forall id :: !NamesMember(op.path, number, uuid, id)
    ensures Leads(number, uuid, s, op, r) <==> r == Err(NoTarget)
  {
    OpNames();
    SpellsIs(op.path, "members", number);
    var p := PathOf(op.path, number);
    if p.Ok? && p.value.filter.Some? && FilteredMember(p.value.filter.value, uuid).Some? {
      NamesMemberIs(op.path, number, uuid, FilteredMember(p.value.filter.value, uuid).value);
    }
  }

  /** Any other operation fails. */
  lemma OtherOpLaw(number: FloatParser, uuid: Uuid, s: GroupState, op: PatchOp, r: Result<GroupState, Failure>)
    requires Lower(op.op) != "add" && Lower(op.op) != "replace" && Lower(op.op) != "remove"
    ensures Leads(number, uuid, s, op, r) <==> r == Err(NoTarget)
  {
  }

  /* ----- the path that drops a member ----- */

  lemma JoinedCons(p: ScimPrinter.Piece, ps: seq<ScimPrinter.Piece>)
    ensures ScimPrinter.Joined([p] + ps) == ScimPrinter.PieceText(p) + ScimPrinter.Joined(ps)
  {
    assert ([p] + ps)[1..] == ps;
  }

  lemma ValueIsPlain()
    ensures ScimPrinter.PrintableAttr("value") && ScimPrinter.AttrPieces("value") == [ScimPrinter.Word("value")]
  {
    var v := "value";
    assert ScimPrinter.DotIndex(v) == 5 by {
      assert forall k :: 0 <= k < 5 ==> v[k] != '.';
    }
    assert v[..5] == v && Lower(v) == v;
    assert Keyword(v, 0) == None;
  }

  lemma FiveJoined(a: ScimPrinter.Piece, b: ScimPrinter.Piece, c: ScimPrinter.Piece, d: ScimPrinter.Piece,
                   e: ScimPrinter.Piece)
    ensures ScimPrinter.Joined([a, b, c, d, e])
         == ScimPrinter.PieceText(a) + (ScimPrinter.PieceText(b) + (ScimPrinter.PieceText(c)
            + (ScimPrinter.PieceText(d) + (ScimPrinter.PieceText(e) + ""))))
  {
    JoinedCons(a, [b, c, d, e]);
    JoinedCons(b, [c, d, e]);
    JoinedCons(c, [d, e]);
    JoinedCons(d, [e]);
    JoinedCons(e, []);
  }

  lemma FilterPieces(t: string, fmt: ScimPrinter.FloatFormat)
    ensures ScimPrinter.Pieces(Atom("value", Comparing(Eq), StringValue(t)), fmt)
         == [ScimPrinter.Word("value"), ScimPrinter.Gap, ScimPrinter.Word("eq"), ScimPrinter.Gap, ScimPrinter.Text(t)]
  {
    ValueIsPlain();
    assert ScimPrinter.TestPieces(Comparing(Eq), StringValue(t), fmt)
        == [ScimPrinter.Word("eq"), ScimPrinter.Gap, ScimPrinter.Text(t)];
  }

  lemma FilterText(a: string, b: string, c: string, q: string)
    requires a == "value" && b == " " && c == "eq"
    ensures a + (b + (c + (b + (q + "")))) == "value eq " + q
  {
  }

  lemma FilterPrinted(t: string, fmt: ScimPrinter.FloatFormat)
    ensures ScimPrinter.Print(Atom("value", Comparing(Eq), StringValue(t)), fmt) == "value eq " + ScimPrinter.Quoted(t)
  {
    FilterPieces(t, fmt);
    FiveJoined(ScimPrinter.Word("value"), ScimPrinter.Gap, ScimPrinter.Word("eq"), ScimPrinter.Gap,
               ScimPrinter.Text(t));
    FilterText("value", " ", "eq", ScimPrinter.Quoted(t));
  }

  /** The text of the filter, with the identifier's text quoted. */
  lemma ValueFilter(t: string, number: FloatParser)
    ensures Parsing("value eq " + ScimPrinter.Quoted(t), number)
         == Ok(Atom("value", Comparing(Eq), StringValue(t)))
  {
    var fmt := (x: real) => "";
    ValueIsPlain();
    FilterPrinted(t, fmt);
    ScimPrinter.ParseOfPrint(Atom("value", Comparing(Eq), StringValue(t)), number, fmt);
  }

  lemma MembersPath(inner: string)
    ensures "members[" + inner + "]" == "members" + (BracketOf(Some(inner)) + DotOf(None))
    ensures IsName("members") && Lower("members") == "members"
  {
  }

  /** So the path `members[value eq "..."]`, with quotes and backslashes escaped, names
      the member. */
  lemma QuotedMember(t: string, number: FloatParser, uuid: Uuid, id: nat)
    requires uuid(t) == Some(id)
    ensures NamesMember("members[" + ("value eq " + ScimPrinter.Quoted(t)) + "]", number, uuid, id)
  {
    var inner, sub: Option<string> := "value eq " + ScimPrinter.Quoted(t), None;
    var path := "members[" + inner + "]";
    ValueFilter(t, number);
    MembersPath(inner);
    assert Composed(path, "members", Some(inner), sub);
    ComposedTrimmed(path, "members", Some(inner), sub);
    assert Composed(TrimSpace(path), "members", Some(inner), sub) && LowerOr(sub) == "";
    assert SpellsFiltered(path, "members", Atom("value", Comparing(Eq), StringValue(t)), "", number);
  }
}
