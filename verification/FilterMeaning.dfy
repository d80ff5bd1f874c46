/** What a SCIM filter means for a row, and the theorem that the WHERE clause of
    the list queries selects exactly the rows of the caller on which it is true. */
module FilterMeaning {
  import opened Text
  import opened ScimLexer
  import opened ScimGrammar
  import opened Placeholders
  import opened SqlText
  import opened FilterSql
  import opened FilterSqlProofs
  import Like

  /** The columns of the list queries for users and for groups. */
  const UserColumns: seq<string> := [
    "e.properties->>'userName'", "e.properties->>'displayName'", "(e.properties->>'active')::bool",
    "e.properties->>'email'", "e.id::text", "ei.external_subject", "t.type_name", "ei.provider_name"]

  const GroupColumns: seq<string> := [
    "e.properties->>'displayName'", "e.id::text", "ei.external_subject", "t.type_name", "ei.provider_name"]

  /* ----- the meaning of a filter ----- */

  /** Presence asks for a value; equality and inequality with null are unknown;
      co, sw and ew ask for a part of the text, up to letter case. */
  ghost function AtomTruth(x: SqlValue, op: Operator, v: Value, eng: Engine): Truth
    requires op.Comparing? && IsPattern(op.cop) ==> v.StringValue? && !x.SqlBool?
  {
    match op
    case Presence => FromBool(!x.SqlNull?)
    case Comparing(Eq) => EqualTruth(x, v, eng)
    case Comparing(Ne) => Not3(EqualTruth(x, v, eng))
    case Comparing(cop) => if x.SqlNull? then Unknown else FromBool(Like.TextTest(cop, x.text, v.text, eng.fold))
  }

  /** Columns that hold text hold no truth values. */
  predicate RowTyped(row: Row, table: AttrTable) {
    && (forall attr :: attr in table && table[attr].isText ==> !row(table[attr].sql).SqlBool?)
    && !row("t.type_name").SqlBool? && !row("ei.provider_name").SqlBool?
  }

  ghost function FilterTruth(e: Expr, table: AttrTable, row: Row, eng: Engine): Truth
    requires ErrorOf(e, table).None? && RowTyped(row, table)
  {
    match e
    case Atom(attr, op, v) => AtomTruth(row(table[attr].sql), op, v, eng)
    case Binary(And, l, r) => And3(FilterTruth(l, table, row, eng), FilterTruth(r, table, row, eng))
    case Binary(Or, l, r) => Or3(FilterTruth(l, table, row, eng), FilterTruth(r, table, row, eng))
  }

  /** The database accepts every value of the filter beside its attribute's column. */
  predicate ValuesAccepted(e: Expr, table: AttrTable, eng: Engine)
    requires ErrorOf(e, table).None?
  {
    match e
    case Atom(attr, op, v) => op.Presence? || IsPattern(op.cop) || Accepted(table[attr].sql, v, eng)
    case Binary(_, l, r) => ValuesAccepted(l, table, eng) && ValuesAccepted(r, table, eng)
  }

  /** The attributes that co, sw and ew apply to are those with text columns. */
  predicate TextColumns(table: AttrTable) {
    forall attr :: attr in table ==> (table[attr].isText <==> !IsBoolColumn(table[attr].sql))
  }

  /* ----- evaluation ----- */

  predicate ArgsAt(args: seq<Value>, k: nat, xs: seq<Value>) {
    k + |xs| <= |args| && forall i :: 0 <= i < |xs| ==> args[k + i] == xs[i]
  }

  lemma ArgsSplit(args: seq<Value>, k: nat, xs: seq<Value>, ys: seq<Value>)
    requires ArgsAt(args, k, xs + ys)
    ensures ArgsAt(args, k, xs) && ArgsAt(args, k + |xs|, ys)
  {
    assert forall i :: 0 <= i < |xs| ==> (xs + ys)[i] == xs[i];
    forall i | 0 <= i < |ys|
      ensures args[k + |xs| + i] == ys[i]
    {
      assert (xs + ys)[|xs| + i] == ys[i];
      assert args[k + (|xs| + i)] == ys[i];
    }
  }

  lemma EvalAtom(col: string, op: Operator, v: Value, row: Row, args: seq<Value>, k: nat, eng: Engine)
    requires op.Comparing? && IsPattern(op.cop) ==> v.StringValue? && !row(col).SqlBool?
    requires ArgsAt(args, k, AtomArgs(op, v)) && (op.Comparing? && IsPattern(op.cop) ==> !IsBoolColumn(col))
    ensures Eval(AtomCond(col, op, k + 1), row, args, eng) ==
            if op.Presence? || IsPattern(op.cop) || Accepted(col, v, eng) then Some(AtomTruth(row(col), op, v, eng))
                else None
  {
    if op.Comparing? {
      assert args[k] == AtomArgs(op, v)[0];
      if IsPattern(op.cop) && row(col).SqlString? {
        Like.PatternMeaning(op.cop, v.text, row(col).text, eng.fold);
      }
    }
  }

  lemma EvalBoth(lop: LogicOp, a: Cond, b: Cond, row: Row, args: seq<Value>, eng: Engine)
    ensures var x, y := Eval(a, row, args, eng), Eval(b, row, args, eng);
            Eval(if lop.And? then Conj(a, b) else Disj(a, b), row, args, eng) ==
            if x.Some? && y.Some? then Some(if lop.And? then And3(x.value, y.value) else Or3(x.value, y.value))
                else None
  {
  }

  lemma {:induction false} EvalFilter(e: Expr, table: AttrTable, row: Row, args: seq<Value>, k: nat, eng: Engine)
    requires ErrorOf(e, table).None? && TextColumns(table) && RowTyped(row, table) && ArgsAt(args, k, ArgsOf(e))
    ensures Eval(CondOf(e, table, k), row, args, eng) == if ValuesAccepted(e, table, eng)
            then Some(FilterTruth(e, table, row, eng)) else None
  {
    match e {
      case Atom(attr, op, v) => EvalAtom(table[attr].sql, op, v, row, args, k, eng);
      case Binary(lop, l, r) =>
        ArgsSplit(args, k, ArgsOf(l), ArgsOf(r));
        EvalFilter(l, table, row, args, k, eng);
        EvalFilter(r, table, row, args, k + |ArgsOf(l)|, eng);
        EvalBoth(lop, CondOf(l, table, k), CondOf(r, table, k + |ArgsOf(l)|), row, args, eng);
    }
  }

  /* ----- reading the WHERE clause ----- */

  predicate HasBase(cols: seq<string>) {
    "t.type_name" in cols && "ei.provider_name" in cols
  }

  lemma {:induction false} QuoteFound(name: string, rest: string)
    requires '\'' !in name
    ensures QuoteIndex(name + ("'" + rest)) == |name|
  {
    if name == "" {
      assert "" + ("'" + rest) == "'" + rest;
    } else {
      assert (name + ("'" + rest))[1..] == name[1..] + ("'" + rest);
      QuoteFound(name[1..], rest);
    }
  }

  lemma ReadLiteral(col: string, name: string, cols: seq<string>, whole: string, test: string, quoted: string,
                    rest: string)
    requires col in cols && Readable(cols) && '\'' !in name
    requires whole == col + test && test == SignText(1) + quoted && quoted == name + ("'" + rest)
    ensures Primary(whole, cols) == Read(IsLiteral(col, name), rest)
  {
    ColumnFound(col, test, cols, cols);
    Cut(col, test);
    SignFound(1, quoted);
    QuoteFound(name, rest);
    assert quoted[..|name|] == name && quoted[|name| + 1..] == rest;
  }

  lemma NumberedOne()
    ensures Numbered(1) == "$1"
  {
    assert Decimal(1) == "1";
  }

  /** A chain of two or three conditions joined by AND is read from left to right. */
  lemma ReadChain(whole: string, cols: seq<string>, a: Cond, b: Cond, second: string, rest: string)
    requires Primary(whole, cols) == Read(a, " AND " + second) && Primary(second, cols) == Read(b, rest)
    requires rest == ""
    ensures Condition(whole, cols) == Some(Conj(a, b))
  {
    Cut(" AND ", second);
    assert Conjuncts(Conj(a, b), rest, cols, |whole|) == Read(Conj(a, b), rest);
    assert Conjunction(whole, cols) == Read(Conj(a, b), "");
    assert Disjuncts(Conj(a, b), "", cols, |whole|) == Read(Conj(a, b), "");
  }

  lemma ReadLongChain(whole: string, cols: seq<string>, a: Cond, b: Cond, c: Cond, second: string, third: string)
    requires Primary(whole, cols) == Read(a, " AND " + second)
    requires Primary(second, cols) == Read(b, " AND " + third) && Primary(third, cols) == Read(c, "")
    ensures Condition(whole, cols) == Some(Conj(Conj(a, b), c))
  {
    Cut(" AND ", second);
    Cut(" AND ", third);
    assert Conjuncts(Conj(Conj(a, b), c), "", cols, |whole|) == Read(Conj(Conj(a, b), c), "");
    assert Conjuncts(Conj(a, b), " AND " + third, cols, |whole|) == Read(Conj(Conj(a, b), c), "");
    assert Conjunction(whole, cols) == Read(Conj(Conj(a, b), c), "");
    assert Disjuncts(Conj(Conj(a, b), c), "", cols, |whole|) == Read(Conj(Conj(a, b), c), "");
  }

  function Second(rest: string): string {
    "ei.provider_name" + (" = $1" + rest)
  }

  lemma BaseParts(name: string, rest: string)
    ensures BaseWhere(name) + rest == "t.type_name" + (SignText(1) + (name + ("'" + (" AND " + Second(rest)))))
  {
  }

  lemma ReadBase(name: string, cols: seq<string>, rest: string)
    requires Readable(cols) && HasBase(cols) && '\'' !in name && NoDigitFirst(rest)
    ensures Primary(BaseWhere(name) + rest, cols) == Read(IsLiteral("t.type_name", name), " AND " + Second(rest))
    ensures Primary(Second(rest), cols) == Read(Equals("ei.provider_name", 1), rest)
  {
    BaseParts(name, rest);
    var quoted := name + ("'" + (" AND " + Second(rest)));
    ReadLiteral("t.type_name", name, cols, BaseWhere(name) + rest, SignText(1) + quoted, quoted,
                " AND " + Second(rest));
    NumberedOne();
    assert TestText(Comparing(Eq), 1) == " = $1";
    ReadAtom("ei.provider_name", Comparing(Eq), 1, cols, Second(rest), " = $1" + rest, rest);
  }

  function BaseCond(name: string): Cond {
    Conj(IsLiteral("t.type_name", name), Equals("ei.provider_name", 1))
  }

  /** What must be known of an attribute table and the columns of a query. */
  predicate TableFits(table: AttrTable, cols: seq<string>) {
    Readable(cols) && HasBase(cols) && Covers(cols, table) && PlainColumns(table) && ColumnsStartPlainly(table)
        && TextColumns(table)
  }

  lemma ReadWhere(e: Expr, name: string, table: AttrTable, cols: seq<string>)
    requires TableFits(table, cols) && ErrorOf(e, table).None? && '\'' !in name && |ArgsOf(e)| + 2 < TWO_63
    ensures Condition(WhereOf(name, TextOf(e, table, 0)), cols) == Some(Conj(BaseCond(name), CondOf(e, table, 1)))
  {
    var f := TextOf(e, table, 1);
    WhereText(e, name, table);
    ReadText(e, table, cols, 1, f, "", f);
    ReadFiltered(name, cols, f, CondOf(e, table, 1));
  }

  lemma WhereText(e: Expr, name: string, table: AttrTable)
    requires ErrorOf(e, table).None? && PlainColumns(table) && ColumnsStartPlainly(table) && |ArgsOf(e)| + 2 < TWO_63
    ensures WhereOf(name, TextOf(e, table, 0)) == BaseWhere(name) + (" AND " + TextOf(e, table, 1))
    ensures TextOf(e, table, 1) == TextOf(e, table, 1) + ""
  {
    TextStarts(e, table, 0);
    TextShift(e, table, 0, 1);
    Assoc(BaseWhere(name), " AND ", TextOf(e, table, 1));
  }

  lemma ReadFiltered(name: string, cols: seq<string>, f: string, c: Cond)
    requires Readable(cols) && HasBase(cols) && '\'' !in name && Primary(f, cols) == Read(c, "")
    ensures Condition(BaseWhere(name) + (" AND " + f), cols) == Some(Conj(BaseCond(name), c))
  {
    var rest := " AND " + f;
    ReadBase(name, cols, rest);
    ReadLongChain(BaseWhere(name) + rest, cols, IsLiteral("t.type_name", name), Equals("ei.provider_name", 1), c,
                  Second(rest), f);
  }

  lemma ReadUnfiltered(name: string, table: AttrTable, cols: seq<string>)
    requires TableFits(table, cols) && '\'' !in name
    ensures Condition(WhereOf(name, ""), cols) == Some(BaseCond(name))
  {
    ReadBase(name, cols, "");
    assert BaseWhere(name) + "" == BaseWhere(name);
    ReadChain(BaseWhere(name), cols, IsLiteral("t.type_name", name), Equals("ei.provider_name", 1), Second(""), "");
  }

  /** The row is of the given type and linked to the given provider. */
  predicate Owned(row: Row, name: string, provider: string) {
    row("t.type_name") == SqlString(name) && row("ei.provider_name") == SqlString(provider)
  }

  /** The database accepts the clause exactly if it accepts each value beside its
      column, whatever the row; it is then true for exactly the caller's rows of the
      type on which the filter is true. */
  lemma WhereSelects(e: Expr, name: string, table: AttrTable, cols: seq<string>, provider: string, row: Row,
                     eng: Engine)
    requires TableFits(table, cols) && ErrorOf(e, table).None? && '\'' !in name && |ArgsOf(e)| + 2 < TWO_63
    requires RowTyped(row, table)
    ensures var t := Evaluate(WhereOf(name, TextOf(e, table, 0)), cols, row, [StringValue(provider)] + ArgsOf(e), eng);
            && (t.Some? <==> ValuesAccepted(e, table, eng))
            && (t.Some? ==> (t == Some(Yes) <==> Owned(row, name, provider) && FilterTruth(e, table, row, eng) == Yes))
  {
    var args := [StringValue(provider)] + ArgsOf(e);
    ReadWhere(e, name, table, cols);
    assert ArgsAt(args, 1, ArgsOf(e));
    EvalFilter(e, table, row, args, 1, eng);
    EvalBase(name, provider, row, args, eng);
  }

  lemma EvalBase(name: string, provider: string, row: Row, args: seq<Value>, eng: Engine)
    requires args != [] && args[0] == StringValue(provider)
    requires !row("t.type_name").SqlBool? && !row("ei.provider_name").SqlBool?
    ensures Eval(BaseCond(name), row, args, eng).Some?
    ensures Eval(BaseCond(name), row, args, eng) == Some(Yes) <==> Owned(row, name, provider)
  {
    assert !IsBoolColumn("ei.provider_name");
    assert Eval(BaseCond(name), row, args, eng)
        == Some(And3(EqualTruth(row("t.type_name"), StringValue(name), eng),
                     EqualTruth(row("ei.provider_name"), StringValue(provider), eng)));
  }

  /** Without a filter the clause selects all the caller's rows of the type. */
  lemma UnfilteredSelects(name: string, table: AttrTable, cols: seq<string>, provider: string, row: Row, eng: Engine)
    requires TableFits(table, cols) && '\'' !in name && RowTyped(row, table)
    ensures var t := Evaluate(WhereOf(name, ""), cols, row, [StringValue(provider)], eng);
            t.Some? && (t == Some(Yes) <==> Owned(row, name, provider))
  {
    ReadUnfiltered(name, table, cols);
    EvalBase(name, provider, row, [StringValue(provider)], eng);
  }

  /** Adding a filter, whatever its operators, never selects a row that the
      unfiltered query does not. */
  lemma FilterNeverWidens(e: Expr, name: string, table: AttrTable, cols: seq<string>, provider: string, row: Row,
                          eng: Engine)
    requires TableFits(table, cols) && ErrorOf(e, table).None? && '\'' !in name && |ArgsOf(e)| + 2 < TWO_63
    requires RowTyped(row, table)
    requires Evaluate(WhereOf(name, TextOf(e, table, 0)), cols, row, [StringValue(provider)] + ArgsOf(e), eng)
             == Some(Yes)
    ensures Evaluate(WhereOf(name, ""), cols, row, [StringValue(provider)], eng) == Some(Yes)
  {
    WhereSelects(e, name, table, cols, provider, row, eng);
    UnfilteredSelects(name, table, cols, provider, row, eng);
  }

  /* ----- placeholders of the whole query ----- */

  /** The placeholders of the page query, LIMIT and OFFSET included, are `$1` up to
      the number of its arguments, in order. */
  lemma PageDollars(e: Expr, name: string, table: AttrTable, cols: seq<string>)
    requires TableFits(table, cols) && ErrorOf(e, table).None? && '$' !in name && |ArgsOf(e)| + 3 < TWO_63
    ensures Dollars(WhereOf(name, TextOf(e, table, 0)) + PageTail(1 + |ArgsOf(e)|)) == Count(1, 3 + |ArgsOf(e)|)
  {
    var n := |ArgsOf(e)|;
    WhereDollars(e, name, table);
    TailDollars(1 + n);
    DollarsJoin(WhereOf(name, TextOf(e, table, 0)), PageTail(1 + n));
    CountJoin(1, 1 + n, 2);
  }

  /** So each of them has its own argument, and the last two have limit and offset. */
  lemma PagePlaceholders(e: Expr, name: string, table: AttrTable, cols: seq<string>, provider: string, limit: nat,
                         offset: nat)
    requires TableFits(table, cols) && ErrorOf(e, table).None? && '$' !in name && |ArgsOf(e)| + 3 < TWO_63
    ensures var args := [StringValue(provider)] + ArgsOf(e);
            var pageArgs := args + [NumberValue(limit as real), NumberValue(offset as real)];
            && Dollars(WhereOf(name, TextOf(e, table, 0)) + PageTail(|args|)) == Count(1, |pageArgs|)
            && pageArgs[|args|] == NumberValue(limit as real) && pageArgs[|args| + 1] == NumberValue(offset as real)
  {
    PageDollars(e, name, table, cols);
  }

  lemma WhereDollars(e: Expr, name: string, table: AttrTable)
    requires ErrorOf(e, table).None? && PlainColumns(table) && ColumnsStartPlainly(table)
    requires '$' !in name && |ArgsOf(e)| + 3 < TWO_63
    ensures Dollars(WhereOf(name, TextOf(e, table, 0))) == Count(1, 1 + |ArgsOf(e)|)
  {
    var f := TextOf(e, table, 1);
    WhereText(e, name, table);
    BaseDollars(name);
    TextDollars(e, table, 1);
    TextStarts(e, table, 1);
    DollarsAfter(" AND ", f);
    DollarsJoin(BaseWhere(name), " AND " + f);
    CountOne(1);
    CountJoin(1, 1, |ArgsOf(e)|);
  }

  lemma BaseDollars(name: string)
    requires '$' !in name
    ensures Dollars(BaseWhere(name)) == [Some(1)]
  {
    var p := "t.type_name = '" + name + "' AND ei.provider_name = ";
    NumberedOne();
    assert BaseWhere(name) == p + Numbered(1);
    BeforeNumber(p, 1, 0);
  }

  lemma TailDollars(n: nat)
    requires n + 2 < TWO_63
    ensures Dollars(PageTail(n)) == Count(n + 1, 2) && NoDigitFirst(PageTail(n))
  {
    var p := "\n\t\tORDER BY e.created_at, e.id\n\t\tLIMIT ";
    BeforeNumber(p, n + 1, 0);
    BeforeNumber(" OFFSET ", n + 2, 0);
    DollarsJoin(p + Numbered(n + 1), " OFFSET " + Numbered(n + 2));
    Assoc(p + Numbered(n + 1), " OFFSET ", Numbered(n + 2));
    CountOne(n + 1);
    CountOne(n + 2);
    CountJoin(n + 1, 1, 1);
  }
}
