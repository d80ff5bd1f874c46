/** The translation of SCIM filters to SQL conditions, for users and for groups,
    and the WHERE clause it becomes part of. */
module FilterSql {
  import opened Text
  import opened ScimLexer
  import opened ScimGrammar
  import opened Placeholders
  import opened SqlText
  import Like

  /** The SQL column of an attribute; `isText` says whether co, sw and ew apply. */
  datatype AttrSpec = AttrSpec(sql: string, isText: bool)

  type AttrTable = map<string, AttrSpec>

  const UserAttrs: AttrTable := map[
    "username" := AttrSpec("e.properties->>'userName'", true),
    "displayname" := AttrSpec("e.properties->>'displayName'", true),
    "active" := AttrSpec("(e.properties->>'active')::bool", false),
    "emails.value" := AttrSpec("e.properties->>'email'", true),
    "id" := AttrSpec("e.id::text", true),
    "externalid" := AttrSpec("ei.external_subject", true)]

  const GroupAttrs: AttrTable := map[
    "displayname" := AttrSpec("e.properties->>'displayName'", true),
    "id" := AttrSpec("e.id::text", true),
    "externalid" := AttrSpec("ei.external_subject", true)]

  datatype TranslateError =
    | UnsupportedAttribute(attr: string)
    | NeedsTextAttribute(cop: CompareOp)
    | NeedsTextValue(cop: CompareOp)

  /* ----- specification ----- */

  predicate IsPattern(cop: CompareOp) {
    cop.Co? || cop.Sw? || cop.Ew?
  }

  function AtomError(attr: string, op: Operator, v: Value, table: AttrTable): Option<TranslateError> {
    if attr !in table then Some(UnsupportedAttribute(attr))
    else if op.Presence? || !IsPattern(op.cop) then None
    else if !table[attr].isText then Some(NeedsTextAttribute(op.cop))
    else if !v.StringValue? then Some(NeedsTextValue(op.cop))
    else None
  }

  /** The first error from left to right. */
  function ErrorOf(e: Expr, table: AttrTable): Option<TranslateError> {
    match e
    case Atom(attr, op, v) => AtomError(attr, op, v, table)
    case Binary(_, l, r) => if ErrorOf(l, table).Some? then ErrorOf(l, table) else ErrorOf(r, table)
  }

  /** What follows the column in the text of an atom. */
  function TestText(op: Operator, n: nat): string {
    match op
    case Presence => " IS NOT NULL"
    case Comparing(Eq) => " = " + Numbered(n)
    case Comparing(Ne) => " <> " + Numbered(n)
    case Comparing(_) => " ILIKE " + Numbered(n) + ESCAPE_CLAUSE
  }

  function AtomText(col: string, op: Operator, n: nat): string {
    col + TestText(op, n)
  }

  function AtomArgs(op: Operator, v: Value): seq<Value> {
    match op
    case Presence => []
    case Comparing(cop) =>
      if IsPattern(cop) && v.StringValue? then [StringValue(Like.LikePattern(cop, v.text))] else [v]
  }

  function ArgsOf(e: Expr): seq<Value> {
    match e
    case Atom(_, op, v) => AtomArgs(op, v)
    case Binary(_, l, r) => ArgsOf(l) + ArgsOf(r)
  }

  function LogicWord(lop: LogicOp): string {
    match lop
    case And => "AND"
    case Or => "OR"
  }

  function Between(lop: LogicOp): string {
    " " + LogicWord(lop) + " "
  }

  /** Two conditions joined in parentheses. */
  function Group(lop: LogicOp, a: string, b: string): string {
    "(" + (a + (Between(lop) + (b + ")")))
  }

  lemma Spaced(a: string, w: string, b: string)
    ensures "(" + a + " " + w + " " + b + ")" == "(" + (a + ((" " + w + " ") + (b + ")")))
  {
  }

  /** The text of `e` when `k` arguments come before it. */
  function TextOf(e: Expr, table: AttrTable, k: nat): string
    requires ErrorOf(e, table).None?
  {
    match e
    case Atom(attr, op, _) => AtomText(table[attr].sql, op, k + 1)
    case Binary(lop, l, r) =>
      Group(lop, TextOf(l, table, k), TextOf(r, table, k + |ArgsOf(l)|))
  }

  /* ----- the builder ----- */

  class FilterBuilder {
    const table: AttrTable
    var args: seq<Value>

    constructor (table: AttrTable)
      ensures this.table == table && args == []
    {
      this.table, args := table, [];
    }

    method Build(expr: Expr) returns (r: Result<string, TranslateError>)
      modifies this
      ensures match ErrorOf(expr, table)
              case Some(err) => r == Err(err) && old(args) <= args
              case None => r == Ok(TextOf(expr, table, old(|args|))) && args == old(args) + ArgsOf(expr)
      decreases expr
    {
      match expr {
        case Atom(attr, op, v) =>
          r := BuildAtom(attr, op, v);
        case Binary(lop, l, rt) =>
          var left := Build(l);
          if left.Err? {
            return left;
          }
          var right := Build(rt);
          if right.Err? {
            return right;
          }
          assert args == old(args) + ArgsOf(expr);
          Spaced(left.value, LogicWord(lop), right.value);
          return Ok("(" + left.value + " " + LogicWord(lop) + " " + right.value + ")");
      }
    }

    method BuildAtom(attr: string, op: Operator, v: Value) returns (r: Result<string, TranslateError>)
      modifies this
      ensures match AtomError(attr, op, v, table)
              case Some(err) => r == Err(err) && args == old(args)
              case None =>
                r == Ok(AtomText(table[attr].sql, op, old(|args|) + 1))
                && args == old(args) + AtomArgs(op, v)
    {
      if attr !in table {
        return Err(UnsupportedAttribute(attr));
      }
      var spec := table[attr];
      if op == Presence {
        return Ok(spec.sql + " IS NOT NULL");
      }
      if op.cop == Eq || op.cop == Ne {
        var sign := if op.cop == Ne then " <> " else " = ";
        args := args + [v];
        Assoc(spec.sql, sign, Numbered(|args|));
        return Ok(spec.sql + sign + Numbered(|args|));
      }
      if !spec.isText {
        return Err(NeedsTextAttribute(op.cop));
      }
      if !v.StringValue? {
        return Err(NeedsTextValue(op.cop));
      }
      args := args + [StringValue(Like.LikePattern(op.cop, v.text))];
      Assoc(spec.sql, " ILIKE ", Numbered(|args|));
      Assoc(spec.sql, " ILIKE " + Numbered(|args|), ESCAPE_CLAUSE);
      return Ok(spec.sql + " ILIKE " + Numbered(|args|) + ESCAPE_CLAUSE);
    }
  }

  method FilterToSQL(expr: Expr, table: AttrTable) returns (r: Result<(string, seq<Value>), TranslateError>)
    ensures match ErrorOf(expr, table)
            case Some(err) => r == Err(err)
            case None => r == Ok((TextOf(expr, table, 0), ArgsOf(expr)))
  {
    var b := new FilterBuilder(table);
    var sql := b.Build(expr);
    if sql.Err? {
      return Err(sql.error);
    }
    assert b.args == ArgsOf(expr);
    return Ok((sql.value, b.args));
  }

  /* ----- the WHERE clause and its arguments ----- */

  function BaseWhere(typeName: string): string {
    "t.type_name = '" + typeName + "' AND ei.provider_name = $1"
  }

  function WhereOf(typeName: string, filterSQL: string): string {
    if filterSQL == "" then BaseWhere(typeName) else BaseWhere(typeName) + " AND " + Shift(filterSQL, 1)
  }

  /** The end of the page query: LIMIT and OFFSET follow the `n` arguments of the
      condition. */
  function PageTail(n: nat): string {
    "\n\t\tORDER BY e.created_at, e.id\n\t\tLIMIT " + Numbered(n + 1) + " OFFSET " + Numbered(n + 2)
  }

  /** The queries `List` sends: the condition, the arguments of the count query,
      the text after the condition and the arguments of the page query. */
  datatype ListQuery = ListQuery(where: string, args: seq<Value>, tail: string, pageArgs: seq<Value>)

  method ListQueryOf(typeName: string, provider: string, filterSQL: string, filterArgs: seq<Value>, offset: nat,
                     limit: nat) returns (q: ListQuery)
    ensures q.where == WhereOf(typeName, filterSQL)
    ensures q.args == [StringValue(provider)] + filterArgs
    ensures q.tail == PageTail(|q.args|)
    ensures q.pageArgs == q.args + [NumberValue(limit as real), NumberValue(offset as real)]
  {
    var args := [StringValue(provider)];
    args := args + filterArgs;
    var whereClause := BaseWhere(typeName);
    if filterSQL != "" {
      var shifted := ShiftPlaceholders(filterSQL, 1);
      whereClause := BaseWhere(typeName) + " AND " + shifted;
    }
    var pageArgs := args;
    pageArgs := pageArgs + [NumberValue(limit as real), NumberValue(offset as real)];
    q := ListQuery(whereClause, args, PageTail(|args|), pageArgs);
  }
}
