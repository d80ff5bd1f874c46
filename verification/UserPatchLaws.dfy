/** What each operation of a user patch does, by its path and value. */
module UserPatchLaws {
  import opened Text
  import opened ScimLexer
  import opened ScimGrammar
  import opened ScimParser
  import opened ScimPath
  import opened ScimPathProofs
  import opened ScimPatch
  import opened UserPatch
  import opened PatchLaws

  type Uuid = string -> Option<nat>

  /* ----- e-mail addresses ----- */

  /** The address that counts: that of the first primary entry that has one, or else the
      first entry's. */
  ghost predicate Chosen(emails: seq<Email>, t: string) {
    || (exists k :: 0 <= k < |emails| && emails[k] == Email(t, true) && t != ""
                    && forall j :: 0 <= j < k ==> !emails[j].primary || emails[j].value == "")
    || (emails != [] && emails[0].value == t
        && forall j :: 0 <= j < |emails| ==> !emails[j].primary || emails[j].value == "")
  }

  lemma ChosenIs(emails: seq<Email>, t: string)
    ensures emails != [] ==> (Chosen(emails, t) <==> PrimaryEmail(emails) == t)
    ensures emails == [] ==> PrimaryEmail(emails) == ""
  {
    if emails != [] {
      PrimaryIsFirstUsable(emails, 0, emails[0].value);
      if i :| 0 <= i < |emails| && Usable(emails[i]) {
        var k := FirstUsable(emails, i);
        assert emails[k] == Email(emails[k].value, true);
      }
    }
  }

  lemma {:induction false} FirstUsable(emails: seq<Email>, i: nat) returns (k: nat)
    requires i < |emails| && Usable(emails[i])
    ensures k < |emails| && Usable(emails[k]) && forall j :: 0 <= j < k ==> !Usable(emails[j])
  {
    k := i;
    if j :| 0 <= j < i && Usable(emails[j]) {
      k := FirstUsable(emails, j);
    }
  }

  /** The value of one address: an object with these fields, and with a string as its
      type; or null, which is an entry without address. */
  ghost predicate IsEmail(item: Json, e: Email) {
    || (item.Null? && e == Email("", false))
    || (item.Obj? && FieldIs(item.fields, "value", e.value) && FlagFieldIs(item.fields, "primary", e.primary)
        && exists r :: FieldIs(item.fields, "type", r))
  }

  ghost predicate AreEmails(items: seq<Json>, emails: seq<Email>) {
    |emails| == |items| && forall i :: 0 <= i < |items| ==> IsEmail(items[i], emails[i])
  }

  /** The value gives this address: an array of addresses from which it is chosen, or
      one address. */
  ghost predicate GivesAddress(raw: Option<Json>, t: string) {
    raw.Some? && t != "" &&
    match raw.value
    case Arr(items) => exists emails :: AreEmails(items, emails) && Chosen(emails, t)
    case Obj(_) => exists primary :: IsEmail(raw.value, Email(t, primary))
    case _ => false
  }

  lemma EmailIs(item: Json, e: Email)
    ensures DecodeEmail(item) == Some(e) <==> IsEmail(item, e)
  {
    if item.Obj? {
      FieldExactly(item.fields, "value", e.value);
      FlagFieldExactly(item.fields, "primary", e.primary);
      if StringField(item.fields, "type").Some? {
        FieldExactly(item.fields, "type", StringField(item.fields, "type").value);
      }
      if r :| FieldIs(item.fields, "type", r) {
        FieldExactly(item.fields, "type", r);
      }
    }
  }

  lemma {:induction false} EmailsAre(items: seq<Json>, emails: seq<Email>)
    ensures DecodeEmails(items) == Some(emails) <==> AreEmails(items, emails)
  {
    if items != [] && emails != [] {
      EmailIs(items[0], emails[0]);
      EmailsAre(items[1..], emails[1..]);
      assert emails == [emails[0]] + emails[1..];
      if AreEmails(items[1..], emails[1..]) && IsEmail(items[0], emails[0]) {
        forall i | 0 <= i < |items|
          ensures IsEmail(items[i], emails[i])
        {
          assert i > 0 ==> items[1..][i - 1] == items[i] && emails[1..][i - 1] == emails[i];
        }
      }
    }
  }

  lemma AddressIs(raw: Option<Json>, t: string)
    ensures EmailOf(raw) == Ok(t) <==> GivesAddress(raw, t)
    ensures EmailOf(raw).Err? ==> EmailOf(raw) == Err(InvalidValue)
  {
    if raw.Some? && raw.value.Arr? {
      var items := raw.value.items;
      if DecodeEmails(items).Some? {
        var emails := DecodeEmails(items).value;
        EmailsAre(items, emails);
        ChosenIs(emails, t);
      }
      forall emails | AreEmails(items, emails)
        ensures DecodeEmails(items) == Some(emails)
      {
        EmailsAre(items, emails);
      }
    } else if raw.Some? {
      EmailIs(raw.value, Email(t, true));
      EmailIs(raw.value, Email(t, false));
      if DecodeEmail(raw.value).Some? {
        EmailIs(raw.value, DecodeEmail(raw.value).value);
      }
    }
  }

  /* ----- operations ----- */

  /** A possible result of one operation. */
  ghost predicate Leads(number: FloatParser, uuid: Uuid, s: Props, op: PatchOp, r: Result<Props, Failure>) {
    OpOutcome(Users(), Standard(number, uuid), s, op, r)
  }

  predicate TakesValue(op: PatchOp) {
    Lower(op.op) == "add" || Lower(op.op) == "replace"
  }

  /** A path that spells an attribute leads to what the value asks for. */
  lemma SpelledLeads(number: FloatParser, uuid: Uuid, s: Props, op: PatchOp, name: string, r: Result<Props, Failure>)
    requires TakesValue(op) && name != "" && Spells(op.path, name)
    ensures var mode := if Lower(op.op) == "add" then Add else Replace;
            var u := DecodeUser(Standard(number, uuid), mode, Path(name, "", None), op.value);
            Leads(number, uuid, s, op, r) <==> r == if u.Ok? then Ok(ApplyUser(u.value, s)) else Err(u.error)
  {
    assert |"add"| != |"replace"|;
    OnePath(op.path, name, number);
  }

  /** The display name, and with `replace` the user name: a text sets that property only;
      any other value is invalid. */
  lemma DisplayNameLaw(number: FloatParser, uuid: Uuid, s: Props, op: PatchOp, r: Result<Props, Failure>)
    requires TakesValue(op) && Spells(op.path, "displayname")
    ensures forall t :: IsText(op.value, t) ==>
              (Leads(number, uuid, s, op, r) <==> r == Ok(s["displayName" := ScimPatch.Json.Str(t)]))
    ensures (forall t :: !IsText(op.value, t)) ==> (Leads(number, uuid, s, op, r) <==> r == Err(InvalidValue))
  {
    SpelledLeads(number, uuid, s, op, "displayname", r);
    TextsAre(op.value);
  }

  lemma TextsAre(raw: Option<Json>)
    ensures forall t :: DecodeString(raw) == Ok(t) <==> IsText(raw, t)
    ensures DecodeString(raw).Err? ==> DecodeString(raw) == Err(InvalidValue)
    ensures DecodeString(raw).Ok? ==> IsText(raw, DecodeString(raw).value)
  {
  }

  lemma UserNameLaw(number: FloatParser, uuid: Uuid, s: Props, op: PatchOp, r: Result<Props, Failure>)
    requires Lower(op.op) == "replace" && Spells(op.path, "username")
    ensures forall t :: IsText(op.value, t) ==>
              (Leads(number, uuid, s, op, r) <==> r == Ok(s["userName" := ScimPatch.Json.Str(t)]))
    ensures (forall t :: !IsText(op.value, t)) ==> (Leads(number, uuid, s, op, r) <==> r == Err(InvalidValue))
  {
    assert |"add"| != |"replace"|;
    assert "username" != "displayname" && "username"[0] != "emails"[0];
    SpelledLeads(number, uuid, s, op, "username", r);
    TextsAre(op.value);
  }

  /** The active flag: a truth value sets that property only, and null makes it false;
      any other value is invalid. */
  lemma ActiveLaw(number: FloatParser, uuid: Uuid, s: Props, op: PatchOp, r: Result<Props, Failure>)
    requires TakesValue(op) && Spells(op.path, "active")
    ensures forall b :: IsFlag(op.value, b) ==>
              (Leads(number, uuid, s, op, r) <==> r == Ok(s["active" := ScimPatch.Json.Bool(b)]))
    ensures (forall b :: !IsFlag(op.value, b)) ==> (Leads(number, uuid, s, op, r) <==> r == Err(InvalidValue))
  {
    assert "active"[0] != "displayname"[0] && "active"[0] != "username"[0] && "active"[0] != "emails"[0];
    SpelledLeads(number, uuid, s, op, "active", r);
    FlagIs(op.value, true);
    FlagIs(op.value, false);
  }

  /** The addresses: a value that gives an address sets that property only; any other is
      invalid. */
  lemma EmailsLaw(number: FloatParser, uuid: Uuid, s: Props, op: PatchOp, r: Result<Props, Failure>)
    requires TakesValue(op) && Spells(op.path, "emails")
    ensures forall t :: GivesAddress(op.value, t) ==>
              (Leads(number, uuid, s, op, r) <==> r == Ok(s["email" := ScimPatch.Json.Str(t)]))
    ensures (forall t :: !GivesAddress(op.value, t)) ==> (Leads(number, uuid, s, op, r) <==> r == Err(InvalidValue))
  {
    assert "emails"[0] != "displayname"[0] && "emails"[0] != "username"[0] && "emails"[0] != "active"[0];
    SpelledLeads(number, uuid, s, op, "emails", r);
    forall t
      ensures EmailOf(op.value) == Ok(t) <==> GivesAddress(op.value, t)
      ensures EmailOf(op.value).Err? ==> EmailOf(op.value) == Err(InvalidValue)
    {
      AddressIs(op.value, t);
    }
    if EmailOf(op.value).Ok? {
      assert GivesAddress(op.value, EmailOf(op.value).value);
    }
  }

  /** The path is `emails` with the filter `primary eq true`, and this sub-attribute. */
  ghost predicate NamesPrimary(path: string, sub: string, number: FloatParser) {
    SpellsFiltered(path, "emails", Atom("primary", Comparing(Eq), BoolValue(true)), sub, number)
  }

  lemma NamesPrimaryIs(path: string, sub: string, number: FloatParser)
    ensures NamesPrimary(path, sub, number) <==>
            var p := PathOf(path, number);
            p.Ok? && p.value.attr == "emails" && p.value.sub == sub && IsPrimaryEqTrue(p.value.filter)
  {
    SpellsFilteredIs(path, "emails", Atom("primary", Comparing(Eq), BoolValue(true)), sub, number);
  }

  /** Replacing the value of the primary address sets that property only. */
  lemma PrimaryLaw(number: FloatParser, uuid: Uuid, s: Props, op: PatchOp, r: Result<Props, Failure>)
    requires Lower(op.op) == "replace" && NamesPrimary(op.path, "value", number)
    ensures forall t :: IsText(op.value, t) ==>
              (Leads(number, uuid, s, op, r) <==> r == Ok(s["email" := ScimPatch.Json.Str(t)]))
    ensures (forall t :: !IsText(op.value, t)) ==> (Leads(number, uuid, s, op, r) <==> r == Err(InvalidValue))
  {
    assert |"add"| != |"replace"|;
    NamesPrimaryIs(op.path, "value", number);
    TextsAre(op.value);
  }

  /** Every other path fails, unless it is blank. */
  lemma OtherPathLaw(number: FloatParser, uuid: Uuid, s: Props, op: PatchOp, r: Result<Props, Failure>)
    requires TakesValue(op) && TrimSpace(op.path) != ""
    requires !Spells(op.path, "displayname") && !Spells(op.path, "active") && !Spells(op.path, "emails")
    requires Lower(op.op) == "replace" ==> !Spells(op.path, "username") && !NamesPrimary(op.path, "value", number)
    ensures Leads(number, uuid, s, op, r) <==> r == Err(NoTarget)
  {
    assert |"add"| != |"replace"|;
    SpellsIs(op.path, "displayname", number);
    SpellsIs(op.path, "active", number);
    SpellsIs(op.path, "emails", number);
    SpellsIs(op.path, "username", number);
    NamesPrimaryIs(op.path, "value", number);
    if PathOf(op.path, number).Ok? {
      BlankIs(op.path, number);
    }
  }

  /** Removing the primary address takes out that property only; removing anything else
      fails. */
  lemma RemoveLaw(number: FloatParser, uuid: Uuid, s: Props, op: PatchOp, r: Result<Props, Failure>)
    requires Lower(op.op) == "remove"
    ensures NamesPrimary(op.path, "", number) ==>
              (Leads(number, uuid, s, op, r) <==>
               r.Ok? && r.value.Keys == s.Keys - {"email"} && forall k :: k in r.value ==> r.value[k] == s[k])
    ensures !NamesPrimary(op.path, "", number) ==> (Leads(number, uuid, s, op, r) <==> r == Err(NoTarget))
  {
    assert |"remove"| != |"add"| && |"remove"| != |"replace"|;
    NamesPrimaryIs(op.path, "", number);
    if r.Ok? && r.value.Keys == s.Keys - {"email"} && forall k :: k in r.value ==> r.value[k] == s[k] {
      assert r.value == s - {"email"};
    }
  }

  /** Any other operation fails. */
  lemma OtherOpLaw(number: FloatParser, uuid: Uuid, s: Props, op: PatchOp, r: Result<Props, Failure>)
    requires Lower(op.op) != "add" && Lower(op.op) != "replace" && Lower(op.op) != "remove"
    ensures Leads(number, uuid, s, op, r) <==> r == Err(NoTarget)
  {
  }
}
