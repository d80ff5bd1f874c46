/** A reader and an evaluator for the WHERE conditions the repositories send to
    PostgreSQL: AND binds tighter than OR, parentheses group, comparisons have
    three truth values, and `$n` stands for the n-th argument. */
module SqlText {
  import opened Text
  import opened ScimGrammar
  import opened Placeholders
  import Like

  datatype SqlValue = SqlNull | SqlString(text: string) | SqlBool(flag: bool)

  datatype Truth = Yes | No | Unknown

  function Not3(a: Truth): Truth {
    match a
    case Yes => No
    case No => Yes
    case Unknown => Unknown
  }

  function And3(a: Truth, b: Truth): Truth {
    if a.No? || b.No? then No else if a.Yes? && b.Yes? then Yes else Unknown
  }

  function Or3(a: Truth, b: Truth): Truth {
    if a.Yes? || b.Yes? then Yes else if a.No? && b.No? then No else Unknown
  }

  function FromBool(b: bool): Truth {
    if b then Yes else No
  }

  /** The value of every column expression in one row of the joined tables. */
  type Row = string -> SqlValue

  /** What the model leaves to the database and its driver: how letters are folded by
      ILIKE, whether an argument of another type than its column is taken at all, where
      the column holds truth values or text, and how such operands compare. */
  datatype Engine = Engine(fold: Like.Folding, takes: (bool, Value) -> bool, mixed: (SqlValue, Value) -> Truth)

  /** A column expression that is cast to a truth value; every other one is text. */
  predicate IsBoolColumn(col: string) {
    |col| >= 6 && col[|col| - 6..] == "::bool"
  }

  /** The query is not rejected for an argument next to a column: it has the column's
      type, or is null, or the driver takes it all the same. */
  predicate Accepted(col: string, v: Value, eng: Engine) {
    v.NullValue? || (v.StringValue? && !IsBoolColumn(col)) || (v.BoolValue? && IsBoolColumn(col))
    || eng.takes(IsBoolColumn(col), v)
  }

  datatype Cond =
    | IsSet(col: string)
    | Equals(col: string, param: nat)
    | Differs(col: string, param: nat)
    | Ilike(col: string, param: nat)
    | IsLiteral(col: string, text: string)
    | Conj(left: Cond, right: Cond)
    | Disj(left: Cond, right: Cond)

  datatype Reading = Read(cond: Cond, rest: string) | Unreadable

  /* ----- reading ----- */

  /** The column expression `t` starts with. */
  function Column(t: string, cols: seq<string>): (r: Option<string>)
    ensures r.Some? ==> r.value in cols && HasPrefix(t, r.value)
  {
    if cols == [] then None
    else if HasPrefix(t, cols[0]) then Some(cols[0])
    else Column(t, cols[1..])
  }

  datatype NumberReading = NumberRead(n: nat, rest: string) | NoNumber

  /** A placeholder number at the start of `t`. */
  function ParamNumber(t: string): (r: NumberReading)
    ensures r.NumberRead? ==> |r.rest| < |t|
  {
    var n := DigitRun(t);
    if n == 0 then NoNumber else NumberRead(Numeral(t[..n]), t[n..])
  }

  function QuoteIndex(t: string): (i: nat)
    ensures i <= |t| && (i < |t| ==> t[i] == '\'')
  {
    if t == "" || t[0] == '\'' then 0 else 1 + QuoteIndex(t[1..])
  }

  /** How a test may start after its column. */
  datatype Sign = NotNullSign | QuoteSign | EqualSign | DifferSign | IlikeSign | NoSign

  function SignText(k: nat): string
    requires k < 5
  {
    match k
    case 0 => " IS NOT NULL"
    case 1 => " = '"
    case 2 => " = $"
    case 3 => " <> $"
    case _ => " ILIKE $"
  }

  function SignAt(k: nat): Sign
    requires k < 5
  {
    match k
    case 0 => NotNullSign
    case 1 => QuoteSign
    case 2 => EqualSign
    case 3 => DifferSign
    case _ => IlikeSign
  }

  datatype SignReading = SignRead(sign: Sign, rest: string)

  /** The first sign from number `k` on that `t` starts with. */
  function FindSign(t: string, k: nat): (r: SignReading)
    requires k <= 5
    ensures |r.rest| <= |t|
    decreases 5 - k
  {
    if k == 5 then SignRead(NoSign, t)
    else if HasPrefix(t, SignText(k)) then SignRead(SignAt(k), t[|SignText(k)|..])
    else FindSign(t, k + 1)
  }

  /** The end of a test whose sign has been read. */
  function SignedTest(col: string, sign: Sign, t: string): (r: Reading)
    ensures r.Read? ==> |r.rest| <= |t|
  {
    match sign
    case NoSign => Unreadable
    case NotNullSign => Read(IsSet(col), t)
    case QuoteSign =>
      var i := QuoteIndex(t);
      if i < |t| then Read(IsLiteral(col, t[..i]), t[i + 1..]) else Unreadable
    case EqualSign =>
      (match ParamNumber(t)
       case NoNumber => Unreadable
       case NumberRead(n, rest) => Read(Equals(col, n), rest))
    case DifferSign =>
      (match ParamNumber(t)
       case NoNumber => Unreadable
       case NumberRead(n, rest) => Read(Differs(col, n), rest))
    case IlikeSign =>
      (match ParamNumber(t)
       case NoNumber => Unreadable
       case NumberRead(n, rest) => EscapeClause(col, n, rest))
  }

  const ESCAPE_CLAUSE := " ESCAPE '\\'"

  function EscapeClause(col: string, n: nat, t: string): (r: Reading)
    ensures r.Read? ==> |r.rest| <= |t|
  {
    if HasPrefix(t, ESCAPE_CLAUSE) then Read(Ilike(col, n), t[|ESCAPE_CLAUSE|..]) else Unreadable
  }

  /** The test that follows a column. */
  function TestOf(col: string, t: string): (r: Reading)
    ensures r.Read? ==> |r.rest| <= |t|
  {
    var s := FindSign(t, 0);
    SignedTest(col, s.sign, s.rest)
  }

  /** One comparison, or a condition in parentheses. */
  function Primary(t: string, cols: seq<string>): (r: Reading)
    ensures r.Read? ==> |r.rest| <= |t|
    decreases |t|, 0
  {
    match Column(t, cols)
    case Some(col) => TestOf(col, t[|col|..])
    case None =>
      if !HasPrefix(t, "(") then Unreadable
      else
        match Disjunction(t[1..], cols)
        case Unreadable => Unreadable
        case Read(c, rest) => if HasPrefix(rest, ")") then Read(c, rest[1..]) else Unreadable
  }

  function Conjunction(t: string, cols: seq<string>): (r: Reading)
    ensures r.Read? ==> |r.rest| <= |t|
    decreases |t|, 1
  {
    match Primary(t, cols)
    case Unreadable => Unreadable
    case Read(c, rest) => Conjuncts(c, rest, cols, |t|)
  }

  /** Further conjuncts after `c`; `bound` is the length of the text `c` is from. */
  function Conjuncts(c: Cond, t: string, cols: seq<string>, bound: nat): (r: Reading)
    requires |t| <= bound
    ensures r.Read? ==> |r.rest| <= |t|
    decreases bound, 0, |t|
  {
    if !HasPrefix(t, " AND ") then Read(c, t)
    else
      match Primary(t[5..], cols)
      case Unreadable => Unreadable
      case Read(d, rest) => Conjuncts(Conj(c, d), rest, cols, bound)
  }

  function Disjunction(t: string, cols: seq<string>): (r: Reading)
    ensures r.Read? ==> |r.rest| <= |t|
    decreases |t|, 3
  {
    match Conjunction(t, cols)
    case Unreadable => Unreadable
    case Read(c, rest) => Disjuncts(c, rest, cols, |t|)
  }

  function Disjuncts(c: Cond, t: string, cols: seq<string>, bound: nat): (r: Reading)
    requires |t| <= bound
    ensures r.Read? ==> |r.rest| <= |t|
    decreases bound, 2, |t|
  {
    if !HasPrefix(t, " OR ") then Read(c, t)
    else
      match Conjunction(t[4..], cols)
      case Unreadable => Unreadable
      case Read(d, rest) => Disjuncts(Disj(c, d), rest, cols, bound)
  }

  /** The condition a whole text denotes. */
  function Condition(t: string, cols: seq<string>): Option<Cond> {
    match Disjunction(t, cols)
    case Unreadable => None
    case Read(c, rest) => if rest == "" then Some(c) else None
  }

  /* ----- evaluating ----- */

  function EqualTruth(x: SqlValue, v: Value, eng: Engine): Truth {
    match (x, v)
    case (SqlNull, _) => Unknown
    case (_, NullValue) => Unknown
    case (SqlString(s), StringValue(t)) => FromBool(s == t)
    case (SqlBool(a), BoolValue(b)) => FromBool(a == b)
    case _ => eng.mixed(x, v)
  }

  function LikeTruth(x: SqlValue, v: Value, eng: Engine): Truth {
    match (x, v)
    case (SqlNull, _) => Unknown
    case (_, NullValue) => Unknown
    case (SqlString(s), StringValue(p)) => FromBool(Like.Matches(p, s, eng.fold))
    case _ => eng.mixed(x, v)
  }

  /** The argument of a placeholder beside a column, if there is one and the query is
      accepted with it. */
  function ArgAt(col: string, n: nat, args: seq<Value>, eng: Engine): Option<Value> {
    if 1 <= n <= |args| && Accepted(col, args[n - 1], eng) then Some(args[n - 1]) else None
  }

  function OnArg(v: Option<Value>, f: Value -> Truth): Option<Truth> {
    match v
    case None => None
    case Some(w) => Some(f(w))
  }

  /** The truth of a condition; none if the query is rejected. */
  function Eval(c: Cond, row: Row, args: seq<Value>, eng: Engine): Option<Truth> {
    match c
    case IsSet(col) => Some(FromBool(!row(col).SqlNull?))
    case Equals(col, n) => OnArg(ArgAt(col, n, args, eng), v => EqualTruth(row(col), v, eng))
    case Differs(col, n) => OnArg(ArgAt(col, n, args, eng), v => Not3(EqualTruth(row(col), v, eng)))
    case Ilike(col, n) => OnArg(ArgAt(col, n, args, eng), v => LikeTruth(row(col), v, eng))
    case IsLiteral(col, s) => Some(EqualTruth(row(col), StringValue(s), eng))
    case Conj(l, r) => Both(Eval(l, row, args, eng), Eval(r, row, args, eng), And3)
    case Disj(l, r) => Both(Eval(l, row, args, eng), Eval(r, row, args, eng), Or3)
  }

  function Both(a: Option<Truth>, b: Option<Truth>, f: (Truth, Truth) -> Truth): Option<Truth> {
    match (a, b)
    case (Some(x), Some(y)) => Some(f(x, y))
    case _ => None
  }

  /** The truth of a WHERE text for one row; none if the database rejects it. */
  function Evaluate(where: string, cols: seq<string>, row: Row, args: seq<Value>, eng: Engine): Option<Truth> {
    match Condition(where, cols)
    case None => None
    case Some(c) => Eval(c, row, args, eng)
  }
}
