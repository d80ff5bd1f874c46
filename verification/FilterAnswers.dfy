/** What the list queries answer, in terms of the stored users and groups alone: the
    columns are computed from the database, and a filter is judged by the names of its
    attributes, without the tables that translate them. */
module FilterAnswers {
  import opened Text
  import opened ScimLexer
  import opened ScimGrammar
  import opened Placeholders
  import opened SqlText
  import opened FilterSql
  import opened FilterMeaning
  import opened FilterTables
  import opened FilterPages
  import opened GroupStore
  import ScimPatch
  import Like

  /** What is left to PostgreSQL: identifiers as text, and JSON values as text that are
      neither strings nor null. */
  datatype Texts = Texts(uuid: nat -> string, json: ScimPatch.Json -> string)

  /* ----- columns ----- */

  /** A property as text, as `->>` gives it. */
  function TextOfProperty(props: Props, key: string, texts: Texts): Option<string> {
    if key !in props || props[key].Null? then None
    else if props[key].Str? then Some(props[key].text)
    else Some(texts.json(props[key]))
  }

  /** A property that is a truth value, or none. */
  function FlagOfProperty(props: Props, key: string): Option<bool> {
    if key in props && props[key].Bool? then Some(props[key].flag) else None
  }

  /** The cast of the active flag succeeds. */
  predicate Castable(props: Props) {
    "active" in props ==> props["active"].Null? || props["active"].Bool?
  }

  predicate AllCastable(db: Db) {
    forall id :: id in db.entities ==> Castable(db.entities[id].props)
  }

  function OrNull(text: Option<string>): SqlValue {
    if text.Some? then SqlString(text.value) else SqlNull
  }

  function FlagOrNull(flag: Option<bool>): SqlValue {
    if flag.Some? then SqlBool(flag.value) else SqlNull
  }

  /** The property that a column expression reads. */
  function PropertyRead(col: string): Option<string> {
    if HasPrefix(col, "e.properties->>'") && |col| > 16 && col[|col| - 1] == '\'' then Some(col[16..|col| - 1])
    else None
  }

  /** The expression that a column expression casts to a truth value. */
  function Casted(col: string): Option<string> {
    if HasPrefix(col, "(") && |col| > 7 && col[|col| - 7..] == ")::bool" then Some(col[1..|col| - 7]) else None
  }

  /** The name of a type; the empty name stands for those of all other types. */
  function TypeName(kind: Kind): string {
    match kind
    case User => "User"
    case Group => "Group"
    case OtherKind => ""
  }

  /** The value of a column expression in the row of an entity and one of its links. */
  function ColumnValue(e: Entity, r: Joined, texts: Texts, col: string): SqlValue {
    if col == "t.type_name" then SqlString(TypeName(e.kind))
    else if col == "ei.provider_name" then SqlString(r.provider)
    else if col == "ei.external_subject" then SqlString(r.subject)
    else if col == "e.id::text" then SqlString(texts.uuid(r.id))
    else if PropertyRead(col).Some? then OrNull(TextOfProperty(e.props, PropertyRead(col).value, texts))
    else if Casted(col).Some? && PropertyRead(Casted(col).value).Some?
    then FlagOrNull(FlagOfProperty(e.props, PropertyRead(Casted(col).value).value))
    else SqlNull
  }

  function RowOf(e: Entity, r: Joined, texts: Texts): Row {
    col => ColumnValue(e, r, texts, col)
  }

  /** The columns of the rows of a database. */
  function ColumnsOf(db: Db, texts: Texts): Joined -> Row {
    (r: Joined) => if r.id in db.entities then RowOf(db.entities[r.id], r, texts) else (_ => SqlNull)
  }

  /* ----- users and groups as a filter sees them ----- */

  datatype ScimUser = ScimUser(id: string, externalId: string, userName: Option<string>, displayName: Option<string>,
                               email: Option<string>, active: Option<bool>)

  datatype ScimGroup = ScimGroup(id: string, externalId: string, displayName: Option<string>)

  function UserAt(e: Entity, r: Joined, texts: Texts): ScimUser {
    ScimUser(texts.uuid(r.id), r.subject, TextOfProperty(e.props, "userName", texts),
             TextOfProperty(e.props, "displayName", texts), TextOfProperty(e.props, "email", texts),
             FlagOfProperty(e.props, "active"))
  }

  function GroupAt(e: Entity, r: Joined, texts: Texts): ScimGroup {
    ScimGroup(texts.uuid(r.id), r.subject, TextOfProperty(e.props, "displayName", texts))
  }

  /** An attribute by its lower-cased name: a text, or the active flag. */
  datatype Attribute = TextValued(text: Option<string>) | FlagValued(flag: Option<bool>) | NoAttribute

  function UserAttribute(u: ScimUser, name: string): Attribute {
    if name == "username" then TextValued(u.userName)
    else if name == "displayname" then TextValued(u.displayName)
    else if name == "emails.value" then TextValued(u.email)
    else if name == "id" then TextValued(Some(u.id))
    else if name == "externalid" then TextValued(Some(u.externalId))
    else if name == "active" then FlagValued(u.active)
    else NoAttribute
  }

  function GroupAttribute(g: ScimGroup, name: string): Attribute {
    if name == "displayname" then TextValued(g.displayName)
    else if name == "id" then TextValued(Some(g.id))
    else if name == "externalid" then TextValued(Some(g.externalId))
    else NoAttribute
  }

  function FoldAll(s: string, fold: Like.Folding): string {
    seq(|s|, k requires 0 <= k < |s| => fold(s[k]))
  }

  /* ----- what a filter means ----- */

  predicate StandsAt(s: string, i: nat, v: string) {
    i + |v| <= |s| && s[i..i + |v|] == v
  }

  /** `v` is in `s`, begins it, or ends it. */
  ghost predicate PartOf(cop: CompareOp, s: string, v: string) {
    match cop
    case Co => exists i :: StandsAt(s, i, v)
    case Sw => |v| <= |s| && s[..|v|] == v
    case Ew => |v| <= |s| && s[|s| - |v|..] == v
    case _ => s == v
  }

  /** Nothing compares with an absent value or with null; texts are equal exactly, and
      their parts up to letter case. */
  ghost function TextTruth(x: Option<string>, op: Operator, v: Value, eng: Engine): Truth {
    if op.Presence? then if x.Some? then Yes else No
    else if x.None? || v.NullValue? then Unknown
    else if !v.StringValue? then
      match op.cop
      case Eq => eng.mixed(SqlString(x.value), v)
      case Ne => Not3(eng.mixed(SqlString(x.value), v))
      case _ => Unknown
    else
      match op.cop
      case Eq => if x.value == v.text then Yes else No
      case Ne => if x.value != v.text then Yes else No
      case cop => if PartOf(cop, FoldAll(x.value, eng.fold), FoldAll(v.text, eng.fold)) then Yes else No
  }

  function FlagTruth(x: Option<bool>, op: Operator, v: Value, eng: Engine): Truth {
    if op.Presence? then if x.Some? then Yes else No
    else if x.None? || v.NullValue? then Unknown
    else
      match op.cop
      case Eq => if v.BoolValue? then (if x.value == v.flag then Yes else No) else eng.mixed(SqlBool(x.value), v)
      case Ne => if v.BoolValue? then (if x.value != v.flag then Yes else No) else Not3(eng.mixed(SqlBool(x.value), v))
      case _ => Unknown
  }

  ghost function AttributeTruth(x: Attribute, op: Operator, v: Value, eng: Engine): Truth {
    match x
    case TextValued(t) => TextTruth(t, op, v, eng)
    case FlagValued(b) => FlagTruth(b, op, v, eng)
    case NoAttribute => Unknown
  }

  /** The truth of a filter on a user or group, given by its attributes. */
  ghost function Holds(e: Expr, attributes: string -> Attribute, eng: Engine): Truth {
    match e
    case Atom(attr, op, v) => AttributeTruth(attributes(attr), op, v, eng)
    case Binary(And, l, r) => And3(Holds(l, attributes, eng), Holds(r, attributes, eng))
    case Binary(Or, l, r) => Or3(Holds(l, attributes, eng), Holds(r, attributes, eng))
  }

  /** Which attributes there are, and which of them are truth values. */
  datatype Names = Names(texts: set<string>, flags: set<string>)

  const UserNames := Names({"username", "displayname", "emails.value", "id", "externalid"}, {"active"})

  const GroupNames := Names({"displayname", "id", "externalid"}, {})

  /** Why a filter is refused: its first atom, from left to right, that names no
      attribute, or asks for a part of a truth value, or for a part that is no text. */
  function Refusal(e: Expr, names: Names): Option<TranslateError> {
    match e
    case Atom(attr, op, v) =>
      if attr !in names.texts && attr !in names.flags then Some(UnsupportedAttribute(attr))
      else if op.Presence? || op.cop.Eq? || op.cop.Ne? then None
      else if attr in names.flags then Some(NeedsTextAttribute(op.cop))
      else if !v.StringValue? then Some(NeedsTextValue(op.cop))
      else None
    case Binary(_, l, r) =>
      var first := Refusal(l, names);
      if first.Some? then first else Refusal(r, names)
  }

  /** The database takes every value that is compared with an attribute. */
  predicate Takes(e: Expr, names: Names, eng: Engine) {
    match e
    case Atom(attr, op, v) =>
      (op.Comparing? && (op.cop.Eq? || op.cop.Ne?)) ==>
        v.NullValue? || (if attr in names.flags then v.BoolValue? else v.StringValue?)
        || eng.takes(attr in names.flags, v)
    case Binary(_, l, r) => Takes(l, names, eng) && Takes(r, names, eng)
  }

  /* ----- a table that translates the attributes ----- */

  function Cell(x: Attribute): SqlValue {
    match x
    case TextValued(t) => OrNull(t)
    case FlagValued(b) => FlagOrNull(b)
    case NoAttribute => SqlNull
  }

  /** The table has a column for each attribute, of its type. */
  ghost predicate Translates(table: AttrTable, names: Names) {
    && (forall attr :: attr in table <==> attr in names.texts || attr in names.flags)
    && (forall attr :: attr in table ==> (table[attr].isText <==> attr !in names.flags))
    && (forall attr :: attr in table ==> (IsBoolColumn(table[attr].sql) <==> attr in names.flags))
  }

  /** The row has the attributes in their columns. */
  ghost predicate Shows(row: Row, table: AttrTable, names: Names, attributes: string -> Attribute) {
    forall attr :: attr in table ==>
      && row(table[attr].sql) == Cell(attributes(attr))
      && (if attr in names.flags then attributes(attr).FlagValued? else attributes(attr).TextValued?)
  }

  lemma {:induction false} RefusalIs(e: Expr, table: AttrTable, names: Names)
    requires Translates(table, names)
    ensures ErrorOf(e, table) == Refusal(e, names)
  {
    if e.Binary? {
      RefusalIs(e.left, table, names);
      RefusalIs(e.right, table, names);
    }
  }

  lemma {:induction false} TakesIs(e: Expr, table: AttrTable, names: Names, eng: Engine)
    requires Translates(table, names) && ErrorOf(e, table).None?
    ensures ValuesAccepted(e, table, eng) <==> Takes(e, names, eng)
  {
    if e.Binary? {
      TakesIs(e.left, table, names, eng);
      TakesIs(e.right, table, names, eng);
    }
  }

  lemma FoldedPart(s: string, i: nat, v: string, fold: Like.Folding)
    ensures Like.OccursAt(s, i, v, fold) <==> StandsAt(FoldAll(s, fold), i, FoldAll(v, fold))
  {
    if i + |v| > |s| {
      return;
    }
    var a, b := FoldAll(s, fold)[i..i + |v|], FoldAll(v, fold);
    assert forall k :: 0 <= k < |v| ==> a[k] == fold(s[i + k]) && b[k] == fold(v[k]) && s[i..i + |v|][k] == s[i + k];
    if Like.OccursAt(s, i, v, fold) {
      assert forall k :: 0 <= k < |v| ==> a[k] == b[k];
    }
  }

  /** The parts of a text, after folding. */
  lemma PartIs(cop: CompareOp, s: string, v: string, fold: Like.Folding)
    requires cop.Co? || cop.Sw? || cop.Ew?
    ensures Like.TextTest(cop, s, v, fold) <==> PartOf(cop, FoldAll(s, fold), FoldAll(v, fold))
  {
    var t, w := FoldAll(s, fold), FoldAll(v, fold);
    forall i: nat
      ensures Like.OccursAt(s, i, v, fold) <==> StandsAt(t, i, w)
    {
      FoldedPart(s, i, v, fold);
    }
    if |v| <= |s| {
      var last: nat := |s| - |v|;
      assert t[0..0 + |v|] == t[..|v|] && t[last..last + |v|] == t[last..];
      assert StandsAt(t, 0, w) <==> t[..|w|] == w;
      assert StandsAt(t, last, w) <==> t[last..] == w;
    }
  }

  lemma AtomIs(x: Attribute, op: Operator, v: Value, eng: Engine)
    requires !x.NoAttribute? && (op.Comparing? && IsPattern(op.cop) ==> x.TextValued? && v.StringValue?)
    ensures AtomTruth(Cell(x), op, v, eng) == AttributeTruth(x, op, v, eng)
  {
    if op.Comparing? && IsPattern(op.cop) && x.text.Some? {
      PartIs(op.cop, x.text.value, v.text, eng.fold);
    }
  }

  lemma {:induction false} HoldsIs(e: Expr, table: AttrTable, names: Names, row: Row, attributes: string -> Attribute,
                                   eng: Engine)
    requires Translates(table, names) && Shows(row, table, names, attributes)
    requires ErrorOf(e, table).None? && RowTyped(row, table)
    ensures FilterTruth(e, table, row, eng) == Holds(e, attributes, eng)
  {
    match e
    case Atom(attr, op, v) => AtomIs(attributes(attr), op, v, eng);
    case Binary(_, l, r) =>
      HoldsIs(l, table, names, row, attributes, eng);
      HoldsIs(r, table, names, row, attributes, eng);
  }

  /* ----- the two tables ----- */

  lemma UserKeys(attr: string)
    ensures attr in UserAttrs <==> attr in UserNames.texts || attr in UserNames.flags
  {
  }

  lemma UserTypes(attr: string)
    requires attr in UserAttrs
    ensures UserAttrs[attr].isText <==> attr !in UserNames.flags
  {
    assert "username" != "active" && "displayname" != "active" && "emails.value" != "active";
  }

  lemma UserTranslates()
    ensures Translates(UserAttrs, UserNames)
  {
    UserTextColumns();
    forall attr
      ensures attr in UserAttrs <==> attr in UserNames.texts || attr in UserNames.flags
      ensures attr in UserAttrs ==> (UserAttrs[attr].isText <==> attr !in UserNames.flags)
    {
      UserKeys(attr);
      if attr in UserAttrs {
        UserTypes(attr);
      }
    }
  }

  lemma GroupKeys(attr: string)
    ensures attr in GroupAttrs <==> attr in GroupNames.texts || attr in GroupNames.flags
    ensures attr in GroupAttrs ==> attr in UserAttrs && GroupAttrs[attr] == UserAttrs[attr]
    ensures attr in GroupAttrs ==> GroupAttrs[attr].isText && attr !in GroupNames.flags
  {
  }

  lemma GroupTranslates()
    ensures Translates(GroupAttrs, GroupNames)
  {
    UserTextColumns();
    forall attr
      ensures attr in GroupAttrs <==> attr in GroupNames.texts || attr in GroupNames.flags
      ensures attr in GroupAttrs ==> GroupAttrs[attr].isText && attr !in GroupNames.flags
      ensures attr in GroupAttrs ==> !IsBoolColumn(GroupAttrs[attr].sql)
    {
      GroupKeys(attr);
    }
  }

  /** The text columns of a property, by its name. */
  lemma PropertyColumn(key: string)
    ensures PropertyRead("e.properties->>'" + key + "'") == Some(key)
  {
    var col := "e.properties->>'" + key + "'";
    assert col[..16] == "e.properties->>'" && col[16..|col| - 1] == key;
  }

  lemma CastColumn(col: string)
    ensures Casted("(" + col + ")::bool") == Some(col)
  {
    var c := "(" + col + ")::bool";
    assert c[..1] == "(" && c[|c| - 7..] == ")::bool" && c[1..|c| - 7] == col;
  }

  predicate IsPlainColumn(col: string) {
    col == "t.type_name" || col == "ei.provider_name" || col == "ei.external_subject" || col == "e.id::text"
  }

  lemma PropertyIsNotPlain(key: string)
    ensures !IsPlainColumn("e.properties->>'" + key + "'")
    ensures !IsPlainColumn("(e.properties->>'" + key + "')::bool")
  {
    var a, b := "e.properties->>'" + key + "'", "(e.properties->>'" + key + "')::bool";
    assert a[2] == 'p' && b[2] == '.';
  }

  lemma TextCell(e: Entity, r: Joined, texts: Texts, key: string)
    ensures ColumnValue(e, r, texts, "e.properties->>'" + key + "'") == OrNull(TextOfProperty(e.props, key, texts))
  {
    PropertyColumn(key);
    PropertyIsNotPlain(key);
  }

  lemma FlagCell(e: Entity, r: Joined, texts: Texts, key: string)
    ensures ColumnValue(e, r, texts, "(e.properties->>'" + key + "')::bool") == FlagOrNull(FlagOfProperty(e.props, key))
  {
    var inner, col := "e.properties->>'" + key + "'", "(e.properties->>'" + key + "')::bool";
    assert col == "(" + inner + ")::bool";
    CastColumn(inner);
    PropertyColumn(key);
    PropertyIsNotPlain(key);
    assert col[0] == '(';
    assert !HasPrefix(col, "e.properties->>'") by {
      assert "e.properties->>'"[0] == 'e';
    }
  }

  lemma UserNameColumn(e: Entity, r: Joined, texts: Texts)
    ensures ColumnValue(e, r, texts, UserAttrs["username"].sql)
         == Cell(UserAttribute(UserAt(e, r, texts), "username"))
  {
    TextCell(e, r, texts, "userName");
    assert UserAttrs["username"].sql == "e.properties->>'" + "userName" + "'";
  }

  lemma DisplayNameColumn(e: Entity, r: Joined, texts: Texts)
    ensures ColumnValue(e, r, texts, UserAttrs["displayname"].sql)
         == Cell(UserAttribute(UserAt(e, r, texts), "displayname"))
  {
    TextCell(e, r, texts, "displayName");
    assert UserAttrs["displayname"].sql == "e.properties->>'" + "displayName" + "'";
  }

  lemma EmailColumn(e: Entity, r: Joined, texts: Texts)
    ensures ColumnValue(e, r, texts, UserAttrs["emails.value"].sql)
         == Cell(UserAttribute(UserAt(e, r, texts), "emails.value"))
  {
    TextCell(e, r, texts, "email");
    assert UserAttrs["emails.value"].sql == "e.properties->>'" + "email" + "'";
  }

  lemma ActiveColumn(e: Entity, r: Joined, texts: Texts)
    ensures ColumnValue(e, r, texts, UserAttrs["active"].sql) == Cell(UserAttribute(UserAt(e, r, texts), "active"))
  {
    FlagCell(e, r, texts, "active");
    assert UserAttrs["active"].sql == "(e.properties->>'" + "active" + "')::bool";
  }

  lemma LinkColumns(e: Entity, r: Joined, texts: Texts)
    ensures var u := UserAt(e, r, texts);
            && ColumnValue(e, r, texts, UserAttrs["id"].sql) == Cell(UserAttribute(u, "id"))
            && ColumnValue(e, r, texts, UserAttrs["externalid"].sql) == Cell(UserAttribute(u, "externalid"))
  {
  }

  lemma UserColumn(attr: string, e: Entity, r: Joined, texts: Texts)
    requires attr in UserAttrs
    ensures ColumnValue(e, r, texts, UserAttrs[attr].sql) == Cell(UserAttribute(UserAt(e, r, texts), attr))
  {
    UserNameColumn(e, r, texts);
    DisplayNameColumn(e, r, texts);
    EmailColumn(e, r, texts);
    ActiveColumn(e, r, texts);
    LinkColumns(e, r, texts);
  }

  lemma UserAttributeType(u: ScimUser, attr: string)
    requires attr in UserNames.texts || attr in UserNames.flags
    ensures if attr in UserNames.flags then UserAttribute(u, attr).FlagValued? else UserAttribute(u, attr).TextValued?
  {
  }

  lemma UserShows(e: Entity, r: Joined, texts: Texts)
    ensures Shows(RowOf(e, r, texts), UserAttrs, UserNames, name => UserAttribute(UserAt(e, r, texts), name))
  {
    var attributes, row := name => UserAttribute(UserAt(e, r, texts), name), RowOf(e, r, texts);
    forall attr | attr in UserAttrs
      ensures row(UserAttrs[attr].sql) == Cell(attributes(attr))
      ensures if attr in UserNames.flags then attributes(attr).FlagValued? else attributes(attr).TextValued?
    {
      UserColumn(attr, e, r, texts);
      UserKeys(attr);
      UserAttributeType(UserAt(e, r, texts), attr);
    }
  }

  lemma GroupColumn(attr: string, e: Entity, r: Joined, texts: Texts)
    requires attr in GroupAttrs
    ensures ColumnValue(e, r, texts, GroupAttrs[attr].sql) == Cell(GroupAttribute(GroupAt(e, r, texts), attr))
    ensures GroupAttribute(GroupAt(e, r, texts), attr).TextValued?
  {
    GroupKeys(attr);
    DisplayNameColumn(e, r, texts);
    LinkColumns(e, r, texts);
  }

  lemma GroupShows(e: Entity, r: Joined, texts: Texts)
    ensures Shows(RowOf(e, r, texts), GroupAttrs, GroupNames, name => GroupAttribute(GroupAt(e, r, texts), name))
  {
    forall attr | attr in GroupAttrs
      ensures RowOf(e, r, texts)(GroupAttrs[attr].sql) == Cell(GroupAttribute(GroupAt(e, r, texts), attr))
      ensures GroupAttribute(GroupAt(e, r, texts), attr).TextValued? && attr !in GroupNames.flags
    {
      GroupColumn(attr, e, r, texts);
    }
  }

  /** A column that shows text is typed so. */
  lemma ShownIsTyped(row: Row, table: AttrTable, names: Names, attributes: string -> Attribute)
    requires Translates(table, names) && Shows(row, table, names, attributes)
    requires !row("t.type_name").SqlBool? && !row("ei.provider_name").SqlBool?
    ensures RowTyped(row, table)
  {
  }

  /* ----- the lists ----- */

  /** A user filter is refused for exactly the first such reason. */
  lemma UserFilterRefused(e: Expr)
    ensures ErrorOf(e, UserAttrs) == Refusal(e, UserNames)
  {
    UserTranslates();
    RefusalIs(e, UserAttrs, UserNames);
  }

  lemma GroupFilterRefused(e: Expr)
    ensures ErrorOf(e, GroupAttrs) == Refusal(e, GroupNames)
  {
    GroupTranslates();
    RefusalIs(e, GroupAttrs, GroupNames);
  }

  /** The rows that the users' list query selects from a database. */
  ghost function UsersListed(e: Expr, provider: string, db: Db, texts: Texts, eng: Engine): set<Joined>
    requires ErrorOf(e, UserAttrs).None?
  {
    Selected(RowsOf(db), ColumnsOf(db, texts), WhereOf("User", TextOf(e, UserAttrs, 0)), UserColumns,
             [StringValue(provider)] + ArgsOf(e), eng)
  }

  ghost function GroupsListed(e: Expr, provider: string, db: Db, texts: Texts, eng: Engine): set<Joined>
    requires ErrorOf(e, GroupAttrs).None?
  {
    Selected(RowsOf(db), ColumnsOf(db, texts), WhereOf("Group", TextOf(e, GroupAttrs, 0)), GroupColumns,
             [StringValue(provider)] + ArgsOf(e), eng)
  }

  /** The truth of the list query's condition for one row of a database; none if the
      query is rejected. */
  ghost function UserCondition(e: Expr, provider: string, db: Db, r: Joined, texts: Texts, eng: Engine): Option<Truth>
    requires ErrorOf(e, UserAttrs).None?
  {
    Evaluate(WhereOf("User", TextOf(e, UserAttrs, 0)), UserColumns, ColumnsOf(db, texts)(r),
             [StringValue(provider)] + ArgsOf(e), eng)
  }

  ghost function GroupCondition(e: Expr, provider: string, db: Db, r: Joined, texts: Texts, eng: Engine): Option<Truth>
    requires ErrorOf(e, GroupAttrs).None?
  {
    Evaluate(WhereOf("Group", TextOf(e, GroupAttrs, 0)), GroupColumns, ColumnsOf(db, texts)(r),
             [StringValue(provider)] + ArgsOf(e), eng)
  }

  /** One row, under any table that translates the attributes it shows. */
  lemma RowAnswered(e: Expr, kind: Kind, table: AttrTable, names: Names, cols: seq<string>, provider: string,
                    entity: Entity, r: Joined, texts: Texts, attributes: string -> Attribute, eng: Engine)
    requires !kind.OtherKind? && TableFits(table, cols) && Translates(table, names)
    requires Shows(RowOf(entity, r, texts), table, names, attributes)
    requires Refusal(e, names).None? && |ArgsOf(e)| + 2 < TWO_63
    ensures ErrorOf(e, table).None?
    ensures var t := Evaluate(WhereOf(TypeName(kind), TextOf(e, table, 0)), cols, RowOf(entity, r, texts),
                              [StringValue(provider)] + ArgsOf(e), eng);
            && (t.Some? <==> Takes(e, names, eng))
            && (t.Some? ==> (t == Some(Yes) <==>
                             entity.kind == kind && r.provider == provider && Holds(e, attributes, eng) == Yes))
  {
    var row := RowOf(entity, r, texts);
    RefusalIs(e, table, names);
    TakesIs(e, table, names, eng);
    ShownIsTyped(row, table, names, attributes);
    HoldsIs(e, table, names, row, attributes, eng);
    WhereSelects(e, TypeName(kind), table, cols, provider, row, eng);
  }

  /** Listing users: the query is rejected exactly if the database does not take some
      value, and otherwise selects exactly the rows of the provider's users on which the
      filter is true, judged by the stored user. */
  lemma UsersAnswered(e: Expr, provider: string, db: Db, texts: Texts, eng: Engine, r: Joined)
    requires AllCastable(db) && Refusal(e, UserNames).None? && |ArgsOf(e)| + 2 < TWO_63 && r in RowsOf(db)
    ensures ErrorOf(e, UserAttrs).None?
    ensures var t := UserCondition(e, provider, db, r, texts, eng);
            && (t.Some? <==> Takes(e, UserNames, eng))
            && (t.Some? ==> (t == Some(Yes) <==>
                  && db.entities[r.id].kind.User? && r.provider == provider
                  && Holds(e, name => UserAttribute(UserAt(db.entities[r.id], r, texts), name), eng) == Yes))
  {
    var entity := db.entities[r.id];
    UserTableFits();
    UserTranslates();
    UserShows(entity, r, texts);
    RowAnswered(e, User, UserAttrs, UserNames, UserColumns, provider, entity, r, texts,
                name => UserAttribute(UserAt(entity, r, texts), name), eng);
  }

  /** Likewise for groups. */
  lemma GroupsAnswered(e: Expr, provider: string, db: Db, texts: Texts, eng: Engine, r: Joined)
    requires Refusal(e, GroupNames).None? && |ArgsOf(e)| + 2 < TWO_63 && r in RowsOf(db)
    ensures ErrorOf(e, GroupAttrs).None?
    ensures var t := GroupCondition(e, provider, db, r, texts, eng);
            && (t.Some? <==> Takes(e, GroupNames, eng))
            && (t.Some? ==> (t == Some(Yes) <==>
                  && db.entities[r.id].kind.Group? && r.provider == provider
                  && Holds(e, name => GroupAttribute(GroupAt(db.entities[r.id], r, texts), name), eng) == Yes))
  {
    var entity := db.entities[r.id];
    GroupTableFits();
    GroupTranslates();
    GroupShows(entity, r, texts);
    RowAnswered(e, Group, GroupAttrs, GroupNames, GroupColumns, provider, entity, r, texts,
                name => GroupAttribute(GroupAt(entity, r, texts), name), eng);
  }

  /** Listing users page by page, where no entity has two links, gives each of the
      provider's users on which the filter is true exactly once. */
  lemma UserPages(e: Expr, provider: string, db: Db, texts: Texts, eng: Engine)
    requires AllCastable(db) && Refusal(e, UserNames).None? && |ArgsOf(e)| + 2 < TWO_63 && Takes(e, UserNames, eng)
    ensures ErrorOf(e, UserAttrs).None?
    ensures var chosen := UsersListed(e, provider, db, texts, eng);
            && (forall r :: r in chosen <==>
                  && r in RowsOf(db) && db.entities[r.id].kind.User? && r.provider == provider
                  && Holds(e, name => UserAttribute(UserAt(db.entities[r.id], r, texts), name), eng) == Yes)
            && (AlwaysPartition(chosen) <==> forall a, b :: a in chosen && b in chosen && a.id == b.id ==> a == b)
            && (OneLinkEach(db) ==> AlwaysPartition(chosen))
  {
    UserFilterRefused(e);
    forall r | r in RowsOf(db)
      ensures r in UsersListed(e, provider, db, texts, eng) <==>
              && db.entities[r.id].kind.User? && r.provider == provider
              && Holds(e, name => UserAttribute(UserAt(db.entities[r.id], r, texts), name), eng) == Yes
    {
      UsersAnswered(e, provider, db, texts, eng, r);
    }
    PagesOfRows(db, UsersListed(e, provider, db, texts, eng));
  }

  /** Likewise for groups. */
  lemma GroupPages(e: Expr, provider: string, db: Db, texts: Texts, eng: Engine)
    requires Refusal(e, GroupNames).None? && |ArgsOf(e)| + 2 < TWO_63 && Takes(e, GroupNames, eng)
    ensures ErrorOf(e, GroupAttrs).None?
    ensures var chosen := GroupsListed(e, provider, db, texts, eng);
            && (forall r :: r in chosen <==>
                  && r in RowsOf(db) && db.entities[r.id].kind.Group? && r.provider == provider
                  && Holds(e, name => GroupAttribute(GroupAt(db.entities[r.id], r, texts), name), eng) == Yes)
            && (AlwaysPartition(chosen) <==> forall a, b :: a in chosen && b in chosen && a.id == b.id ==> a == b)
            && (OneLinkEach(db) ==> AlwaysPartition(chosen))
  {
    GroupFilterRefused(e);
    forall r | r in RowsOf(db)
      ensures r in GroupsListed(e, provider, db, texts, eng) <==>
              && db.entities[r.id].kind.Group? && r.provider == provider
              && Holds(e, name => GroupAttribute(GroupAt(db.entities[r.id], r, texts), name), eng) == Yes
    {
      GroupsAnswered(e, provider, db, texts, eng, r);
    }
    PagesOfRows(db, GroupsListed(e, provider, db, texts, eng));
  }
}
