/** The WHERE clause selects exactly the rows on which the filter is true. */
module FilterSqlProofs {
  import opened Text
  import opened ScimLexer
  import opened ScimGrammar
  import opened Placeholders
  import opened SqlText
  import opened FilterSql

  /* ----- placeholders of the emitted text ----- */

  /** Column expressions hold no `$`. */
  predicate PlainColumns(table: AttrTable) {
    forall attr :: attr in table ==> '$' !in table[attr].sql
  }

  function Count(from: nat, n: nat): seq<Option<nat>>
    decreases n
  {
    if n == 0 then [] else [Some(from)] + Count(from + 1, n - 1)
  }

  lemma {:induction false} CountJoin(from: nat, m: nat, n: nat)
    ensures Count(from, m) + Count(from + m, n) == Count(from, m + n)
    decreases m
  {
    if m == 0 {
      assert Count(from, 0) + Count(from, n) == Count(from, n);
    } else {
      CountJoin(from + 1, m - 1, n);
      assert from + 1 + (m - 1) == from + m;
      assert Count(from, m) + Count(from + m, n) == [Some(from)] + (Count(from + 1, m - 1) + Count(from + m, n));
    }
  }

  lemma CountOne(n: nat)
    ensures Count(n, 1) == [Some(n)]
  {
    assert Count(n + 1, 0) == [];
  }

  /** A plain text, a placeholder and another plain text that starts with no digit. */
  lemma AroundNumber(a: string, n: nat, b: string, d: nat)
    requires '$' !in a && '$' !in b && NoDigitFirst(b) && n + d < TWO_63
    ensures Shift(a + Numbered(n) + b, d) == a + Numbered(n + d) + b
    ensures Dollars(a + Numbered(n) + b) == [Some(n)]
  {
    PlainText(a, d);
    PlainText(b, d);
    NumberedText(n, d);
    ShiftJoin(a, Numbered(n), d);
    ShiftJoin(a + Numbered(n), b, d);
    DollarsJoin(a, Numbered(n));
    DollarsJoin(a + Numbered(n), b);
  }

  lemma BeforeNumber(a: string, n: nat, d: nat)
    requires '$' !in a && n + d < TWO_63
    ensures Shift(a + Numbered(n), d) == a + Numbered(n + d)
    ensures Dollars(a + Numbered(n)) == [Some(n)]
  {
    PlainText(a, d);
    NumberedText(n, d);
    ShiftJoin(a, Numbered(n), d);
    DollarsJoin(a, Numbered(n));
  }

  lemma TestPlaceholders(op: Operator, v: Value, n: nat, d: nat)
    requires n + d < TWO_63
    ensures Shift(TestText(op, n), d) == TestText(op, n + d)
    ensures Dollars(TestText(op, n)) == Count(n, |AtomArgs(op, v)|)
    ensures NoDigitFirst(TestText(op, n))
  {
    CountOne(n);
    match op {
      case Presence => PlainText(" IS NOT NULL", d);
      case Comparing(Eq) => BeforeNumber(" = ", n, d);
      case Comparing(Ne) => BeforeNumber(" <> ", n, d);
      case Comparing(_) => AroundNumber(" ILIKE ", n, ESCAPE_CLAUSE, d);
    }
  }

  lemma AtomPlaceholders(col: string, op: Operator, v: Value, n: nat, d: nat)
    requires '$' !in col && n + d < TWO_63
    ensures Shift(AtomText(col, op, n), d) == AtomText(col, op, n + d)
    ensures Dollars(AtomText(col, op, n)) == Count(n, |AtomArgs(op, v)|)
  {
    TestPlaceholders(op, v, n, d);
    PlainText(col, d);
    ShiftJoin(col, TestText(op, n), d);
    DollarsJoin(col, TestText(op, n));
  }

  /** The emitted text starts like a column or with a parenthesis. */
  predicate StartsPlainly(t: string) {
    t != "" && !IsDigit(t[0])
  }

  predicate ColumnsStartPlainly(table: AttrTable) {
    forall attr :: attr in table ==> StartsPlainly(table[attr].sql)
  }

  lemma TextStarts(e: Expr, table: AttrTable, k: nat)
    requires ErrorOf(e, table).None? && ColumnsStartPlainly(table)
    ensures StartsPlainly(TextOf(e, table, k))
  {
  }

  lemma GroupShift(lop: LogicOp, a: string, b: string, d: int)
    requires NoDigitFirst(a) && NoDigitFirst(b)
    ensures Shift(Group(lop, a, b), d) == Group(lop, Shift(a, d), Shift(b, d))
  {
    var w := Between(lop);
    PlainText("(", d);
    PlainText(w, d);
    PlainText(")", d);
    ShiftJoin(b, ")", d);
    ShiftJoin(w, b + ")", d);
    ShiftJoin(a, w + (b + ")"), d);
    ShiftJoin("(", a + (w + (b + ")")), d);
  }

  lemma DollarsAfter(p: string, t: string)
    requires '$' !in p && NoDigitFirst(t)
    ensures Dollars(p + t) == Dollars(t)
  {
    PlainText(p, 0);
    DollarsJoin(p, t);
    assert [] + Dollars(t) == Dollars(t);
  }

  lemma DollarsBefore(t: string, p: string)
    requires '$' !in p && NoDigitFirst(p)
    ensures Dollars(t + p) == Dollars(t)
  {
    PlainText(p, 0);
    DollarsJoin(t, p);
    assert Dollars(t) + [] == Dollars(t);
  }

  lemma GroupDollars(lop: LogicOp, a: string, b: string)
    requires NoDigitFirst(a) && NoDigitFirst(b)
    ensures Dollars(Group(lop, a, b)) == Dollars(a) + Dollars(b)
  {
    var right := b + ")";
    var middle := Between(lop) + right;
    DollarsBefore(b, ")");
    DollarsAfter(Between(lop), right);
    DollarsJoin(a, middle);
    DollarsAfter("(", a + middle);
  }

  /** The placeholders are numbered from `k + 1` without a gap, in step with the
      arguments, and there is no other `$`. */
  lemma {:induction false} TextDollars(e: Expr, table: AttrTable, k: nat)
    requires ErrorOf(e, table).None? && PlainColumns(table) && ColumnsStartPlainly(table)
    requires k + |ArgsOf(e)| + 1 < TWO_63
    ensures Dollars(TextOf(e, table, k)) == Count(k + 1, |ArgsOf(e)|)
  {
    match e {
      case Atom(attr, op, v) => AtomPlaceholders(table[attr].sql, op, v, k + 1, 0);
      case Binary(lop, l, r) =>
        var m := |ArgsOf(l)|;
        TextDollars(l, table, k);
        TextDollars(r, table, k + m);
        TextStarts(l, table, k);
        TextStarts(r, table, k + m);
        CountJoin(k + 1, m, |ArgsOf(r)|);
        GroupDollars(lop, TextOf(l, table, k), TextOf(r, table, k + m));
    }
  }

  lemma BinaryText(e: Expr, table: AttrTable, k: nat, m: nat) returns (a: string, b: string)
    requires e.Binary? && ErrorOf(e, table).None? && m == k + |ArgsOf(e.left)|
    ensures ErrorOf(e.left, table).None? && ErrorOf(e.right, table).None?
    ensures a == TextOf(e.left, table, k) && b == TextOf(e.right, table, m) && TextOf(e, table, k) == Group(e.lop, a, b)
  {
    a, b := TextOf(e.left, table, k), TextOf(e.right, table, m);
  }

  lemma SameShift(lop: LogicOp, a: string, b: string, text: string, shifted: string, d: nat)
    requires NoDigitFirst(a) && NoDigitFirst(b)
    requires text == Group(lop, a, b) && shifted == Group(lop, Shift(a, d), Shift(b, d))
    ensures Shift(text, d) == shifted
  {
    GroupShift(lop, a, b, d);
  }

  lemma BinaryShift(e: Expr, table: AttrTable, k: nat, m: nat, d: nat)
    requires e.Binary? && ErrorOf(e, table).None? && PlainColumns(table) && ColumnsStartPlainly(table)
             && m == k + |ArgsOf(e.left)|
    requires Shift(TextOf(e.left, table, k), d) == TextOf(e.left, table, k + d)
    requires Shift(TextOf(e.right, table, m), d) == TextOf(e.right, table, m + d)
    ensures Shift(TextOf(e, table, k), d) == TextOf(e, table, k + d)
  {
    var a, b := BinaryText(e, table, k, m);
    var a', b' := BinaryText(e, table, k + d, m + d);
    TextStarts(e.left, table, k);
    TextStarts(e.right, table, m);
    SameShift(e.lop, a, b, TextOf(e, table, k), TextOf(e, table, k + d), d);
  }

  /** Shifting the emitted text renumbers its placeholders and changes nothing
      else: it is the text emitted after `d` more arguments. */
  lemma {:induction false} TextShift(e: Expr, table: AttrTable, k: nat, d: nat)
    requires ErrorOf(e, table).None? && PlainColumns(table) && ColumnsStartPlainly(table)
    requires k + |ArgsOf(e)| + d + 1 < TWO_63
    ensures Shift(TextOf(e, table, k), d) == TextOf(e, table, k + d)
  {
    match e {
      case Atom(attr, op, v) => AtomPlaceholders(table[attr].sql, op, v, k + 1, d);
      case Binary(lop, l, r) =>
        var m := k + |ArgsOf(l)|;
        TextShift(l, table, k, d);
        TextShift(r, table, m, d);
        BinaryShift(e, table, k, m, d);
    }
  }

  /* ----- reading the emitted text ----- */

  function AtomCond(col: string, op: Operator, n: nat): Cond {
    match op
    case Presence => IsSet(col)
    case Comparing(Eq) => Equals(col, n)
    case Comparing(Ne) => Differs(col, n)
    case Comparing(_) => Ilike(col, n)
  }

  /** The condition the text of `e` denotes when `k` arguments come before it. */
  function CondOf(e: Expr, table: AttrTable, k: nat): Cond
    requires ErrorOf(e, table).None?
  {
    match e
    case Atom(attr, op, _) => AtomCond(table[attr].sql, op, k + 1)
    case Binary(And, l, r) => Conj(CondOf(l, table, k), CondOf(r, table, k + |ArgsOf(l)|))
    case Binary(Or, l, r) => Disj(CondOf(l, table, k), CondOf(r, table, k + |ArgsOf(l)|))
  }

  lemma Cut(p: string, t: string)
    ensures HasPrefix(p + t, p) && (p + t)[|p|..] == t
  {
    assert (p + t)[..|p|] == p;
  }

  lemma ReadNumbered(n: nat, rest: string)
    requires NoDigitFirst(rest)
    ensures ParamNumber(Decimal(n) + rest) == NumberRead(n, rest)
  {
    DigitRunOf(Decimal(n), rest);
    assert (Decimal(n) + rest)[..|Decimal(n)|] == Decimal(n) && (Decimal(n) + rest)[|Decimal(n)|..] == rest;
    NumeralOfDecimal(n);
  }

  lemma NotPrefix(t: string, p: string, i: nat)
    requires i < |p| && i < |t| && t[i] != p[i]
    ensures !HasPrefix(t, p)
  {
    if |p| <= |t| {
      assert t[..|p|][i] == t[i];
    }
  }

  predicate Apart(c: string, d: string) {
    !HasPrefix(c, d) && !HasPrefix(d, c)
  }

  lemma ApartJoin(c: string, d: string, t: string)
    requires Apart(c, d)
    ensures !HasPrefix(c + t, d)
  {
    if |d| <= |c| {
      assert c[..|d|] == (c + t)[..|d|];
    } else if |d| <= |c + t| {
      assert (c + t)[..|d|][..|c|] == c;
    }
  }

  /** The signs start differently, so the right one is found. */
  lemma SignFound(k: nat, rest: string)
    requires k < 5
    ensures FindSign(SignText(k) + rest, 0) == SignRead(SignAt(k), rest)
  {
    var t := SignText(k) + rest;
    Cut(SignText(k), rest);
    forall j | 0 <= j < k
      ensures !HasPrefix(t, SignText(j))
    {
      SignsApart(j, k);
      ApartJoin(SignText(k), SignText(j), rest);
    }
    SignSkip(t, 0, k);
  }

  lemma SignsApart(j: nat, k: nat)
    requires j < k < 5
    ensures Apart(SignText(k), SignText(j))
  {
    var i := if j == 0 then (if k == 4 then 2 else 1) else if j == 1 && k == 2 then 3 else 1;
    NotPrefix(SignText(k), SignText(j), i);
    NotPrefix(SignText(j), SignText(k), i);
  }

  lemma {:induction false} SignSkip(t: string, j: nat, k: nat)
    requires j <= k <= 5 && forall i :: j <= i < k ==> !HasPrefix(t, SignText(i))
    ensures FindSign(t, j) == FindSign(t, k)
    decreases k - j
  {
    if j < k {
      SignSkip(t, j + 1, k);
    }
  }

  lemma ReadIsSet(col: string, rest: string)
    ensures TestOf(col, " IS NOT NULL" + rest) == Read(IsSet(col), rest)
  {
    SignFound(0, rest);
  }

  lemma ReadEquals(col: string, n: nat, rest: string)
    requires NoDigitFirst(rest)
    ensures TestOf(col, " = " + Numbered(n) + rest) == Read(Equals(col, n), rest)
  {
    assert " = " + Numbered(n) + rest == SignText(2) + (Decimal(n) + rest);
    SignFound(2, Decimal(n) + rest);
    ReadNumbered(n, rest);
  }

  lemma ReadDiffers(col: string, n: nat, rest: string)
    requires NoDigitFirst(rest)
    ensures TestOf(col, " <> " + Numbered(n) + rest) == Read(Differs(col, n), rest)
  {
    assert " <> " + Numbered(n) + rest == SignText(3) + (Decimal(n) + rest);
    SignFound(3, Decimal(n) + rest);
    ReadNumbered(n, rest);
  }

  lemma ReadIlike(col: string, n: nat, rest: string)
    ensures TestOf(col, " ILIKE " + Numbered(n) + ESCAPE_CLAUSE + rest) == Read(Ilike(col, n), rest)
  {
    var tail := ESCAPE_CLAUSE + rest;
    assert " ILIKE " + Numbered(n) + ESCAPE_CLAUSE + rest == SignText(4) + (Decimal(n) + tail);
    SignFound(4, Decimal(n) + tail);
    ReadNumbered(n, tail);
    Cut(ESCAPE_CLAUSE, rest);
  }

  lemma ReadAtomTest(col: string, op: Operator, n: nat, rest: string)
    requires NoDigitFirst(rest)
    ensures TestOf(col, TestText(op, n) + rest) == Read(AtomCond(col, op, n), rest)
  {
    match op {
      case Presence => ReadIsSet(col, rest);
      case Comparing(Eq) => ReadEquals(col, n, rest);
      case Comparing(Ne) => ReadDiffers(col, n, rest);
      case Comparing(_) => ReadIlike(col, n, rest);
    }
  }

  /** `c` is no pair of opening parentheses with something after them. */
  predicate OpensOnce(c: string) {
    |c| > 1 && !(c[0] == '(' && c[1] == '(')
  }

  /** The column expressions can be told apart at the start of a text, and none
      of them looks like a parenthesis before another condition. */
  predicate Readable(cols: seq<string>) {
    && (forall c {:trigger OpensOnce(c)} :: c in cols ==> OpensOnce(c))
    && (forall c, c' {:trigger Apart(c, c')} :: c in cols && c' in cols && c != c' ==> Apart(c, c'))
    && (forall c, c' {:trigger Apart("(" + c', c)} :: c in cols && c' in cols ==> Apart("(" + c', c))
  }

  lemma {:induction false} ColumnFound(c: string, t: string, cols: seq<string>, all: seq<string>)
    requires c in cols && (forall d :: d in cols ==> d in all) && Readable(all)
    ensures Column(c + t, cols) == Some(c)
  {
    Cut(c, t);
    if cols[0] != c {
      assert Apart(c, cols[0]);
      ApartJoin(c, cols[0], t);
      ColumnFound(c, t, cols[1..], all);
    }
  }

  lemma {:induction false} NoColumn(t: string, cols: seq<string>)
    requires forall d :: d in cols ==> !HasPrefix(t, d)
    ensures Column(t, cols) == None
  {
    if cols != [] {
      NoColumn(t, cols[1..]);
    }
  }

  predicate Covers(cols: seq<string>, table: AttrTable) {
    forall attr :: attr in table ==> table[attr].sql in cols
  }

  /** No column stands at the start of a parenthesised condition. */
  lemma ParenthesisRead(x: string, rest: string, cols: seq<string>)
    requires Readable(cols)
    requires HasPrefix(x, "(") || exists c :: c in cols && HasPrefix(x, c)
    ensures Column("(" + (x + rest), cols) == None
  {
    var t := "(" + (x + rest);
    if HasPrefix(x, "(") {
      assert x[..1][0] == '(';
      forall d | d in cols
        ensures !HasPrefix(t, d)
      {
        assert OpensOnce(d);
        NotPrefix(t, d, if d[0] == '(' then 1 else 0);
      }
    } else {
      var c :| c in cols && HasPrefix(x, c);
      assert t == ("(" + c) + (x[|c|..] + rest);
      forall d | d in cols
        ensures !HasPrefix(t, d)
      {
        assert Apart("(" + c, d);
        ApartJoin("(" + c, d, x[|c|..] + rest);
      }
    }
    NoColumn(t, cols);
  }

  lemma TextHead(e: Expr, table: AttrTable, cols: seq<string>, k: nat, text: string)
    requires ErrorOf(e, table).None? && Covers(cols, table) && text == TextOf(e, table, k)
    ensures HasPrefix(text, "(") || exists c :: c in cols && HasPrefix(text, c)
  {
    match e {
      case Atom(attr, op, v) =>
        Cut(table[attr].sql, TestText(op, k + 1));
      case Binary(lop, l, r) =>
        assert text[..1] == "(";
    }
  }

  lemma ReadInner(lop: LogicOp, inner: string, middle: string, right: string, close: string, cl: Cond, cr: Cond,
                  rest: string, cols: seq<string>)
    requires middle == Between(lop) + right && close == ")" + rest
    requires Primary(inner, cols) == Read(cl, middle) && Primary(right, cols) == Read(cr, close)
    ensures Disjunction(inner, cols) == Read(if lop.And? then Conj(cl, cr) else Disj(cl, cr), close)
  {
    NotPrefix(close, " AND ", 0);
    NotPrefix(close, " OR ", 0);
    Cut(Between(lop), right);
    match lop {
      case And =>
        assert Between(And) == " AND ";
        assert Conjuncts(Conj(cl, cr), close, cols, |inner|) == Read(Conj(cl, cr), close);
        assert Conjunction(inner, cols) == Read(Conj(cl, cr), close);
      case Or =>
        assert Between(Or) == " OR ";
        NotPrefix(middle, " AND ", 1);
        assert Conjunction(inner, cols) == Read(cl, middle);
        assert Conjunction(right, cols) == Read(cr, close);
        assert Disjuncts(Disj(cl, cr), close, cols, |inner|) == Read(Disj(cl, cr), close);
    }
  }

  /** A parenthesised pair of conditions: `whole` is `(`, then `inner`, which
      starts with the left condition, goes on with `middle` and, after the
      operator, with `right`, which ends in `close`. */
  lemma ReadBinary(lop: LogicOp, whole: string, inner: string, middle: string, right: string, close: string, cl: Cond,
                   cr: Cond, rest: string, cols: seq<string>)
    requires whole == "(" + inner && middle == Between(lop) + right && close == ")" + rest
    requires Column(whole, cols) == None
    requires Primary(inner, cols) == Read(cl, middle) && Primary(right, cols) == Read(cr, close)
    ensures Primary(whole, cols) == Read(if lop.And? then Conj(cl, cr) else Disj(cl, cr), rest)
  {
    ReadInner(lop, inner, middle, right, close, cl, cr, rest, cols);
    Cut("(", inner);
    Cut(")", rest);
  }

  lemma ReadAtom(col: string, op: Operator, n: nat, cols: seq<string>, whole: string, test: string, rest: string)
    requires col in cols && Readable(cols) && NoDigitFirst(rest)
    requires test == TestText(op, n) + rest && whole == col + test
    ensures Primary(whole, cols) == Read(AtomCond(col, op, n), rest)
  {
    ColumnFound(col, test, cols, cols);
    Cut(col, test);
    ReadAtomTest(col, op, n, rest);
  }

  lemma ReadTest(col: string, op: Operator, n: nat, cols: seq<string>, whole: string, rest: string)
    requires col in cols && Readable(cols) && NoDigitFirst(rest) && whole == AtomText(col, op, n) + rest
    ensures Primary(whole, cols) == Read(AtomCond(col, op, n), rest)
  {
    Assoc(col, TestText(op, n), rest);
    ReadAtom(col, op, n, cols, whole, TestText(op, n) + rest, rest);
  }

  lemma GroupThen(lop: LogicOp, a: string, b: string, rest: string)
    ensures Group(lop, a, b) + rest == "(" + (a + (Between(lop) + (b + (")" + rest))))
  {
  }

  lemma BetweenStarts(lop: LogicOp, t: string)
    ensures NoDigitFirst(Between(lop) + t)
  {
    assert Between(lop)[0] == ' ';
  }

  lemma BinaryCond(e: Expr, table: AttrTable, k: nat)
    requires e.Binary? && ErrorOf(e, table).None?
    ensures ErrorOf(e.left, table).None? && ErrorOf(e.right, table).None?
    ensures var cl, cr := CondOf(e.left, table, k), CondOf(e.right, table, k + |ArgsOf(e.left)|);
            CondOf(e, table, k) == if e.lop.And? then Conj(cl, cr) else Disj(cl, cr)
  {
  }

  /** A parenthesised condition starts with no column. */
  lemma NoColumnHere(e: Expr, table: AttrTable, cols: seq<string>, k: nat, text: string, middle: string, whole: string)
    requires ErrorOf(e, table).None? && Covers(cols, table) && Readable(cols)
    requires text == TextOf(e, table, k) && whole == "(" + (text + middle)
    ensures Column(whole, cols) == None
  {
    TextHead(e, table, cols, k, text);
    ParenthesisRead(text, middle, cols);
  }

  /** The emitted text is read as one primary condition, whatever follows. */
  lemma {:induction false} ReadText(e: Expr, table: AttrTable, cols: seq<string>, k: nat, text: string, rest: string,
                                    whole: string)
    requires ErrorOf(e, table).None? && Covers(cols, table) && Readable(cols) && NoDigitFirst(rest)
    requires text == TextOf(e, table, k) && whole == text + rest
    ensures Primary(whole, cols) == Read(CondOf(e, table, k), rest)
    decreases e, 1
  {
    match e {
      case Atom(attr, op, v) => ReadTest(table[attr].sql, op, k + 1, cols, whole, rest);
      case Binary(lop, l, r) =>
        var tl, tr := TextOf(l, table, k), TextOf(r, table, k + |ArgsOf(l)|);
        GroupThen(lop, tl, tr, rest);
        var close := ")" + rest;
        var right := tr + close;
        var middle := Between(lop) + right;
        BinaryCond(e, table, k);
        ReadPair(lop, l, r, table, cols, k, k + |ArgsOf(l)|, tl, tr, whole, tl + middle, middle, right, close, rest);
    }
  }

  lemma {:induction false} ReadPair(lop: LogicOp, l: Expr, r: Expr, table: AttrTable, cols: seq<string>, k: nat, m: nat,
                                    tl: string, tr: string, whole: string, inner: string, middle: string, right: string,
                                    close: string, rest: string)
    requires ErrorOf(l, table).None? && ErrorOf(r, table).None? && Covers(cols, table) && Readable(cols)
    requires tl == TextOf(l, table, k) && tr == TextOf(r, table, m)
    requires whole == "(" + inner && inner == tl + middle && middle == Between(lop) + right
    requires right == tr + close && close == ")" + rest
    ensures var cl, cr := CondOf(l, table, k), CondOf(r, table, m);
            Primary(whole, cols) == Read(if lop.And? then Conj(cl, cr) else Disj(cl, cr), rest)
    decreases Binary(lop, l, r), 0
  {
    BetweenStarts(lop, right);
    ReadText(l, table, cols, k, tl, middle, inner);
    ReadText(r, table, cols, m, tr, close, right);
    NoColumnHere(l, table, cols, k, tl, middle, whole);
    ReadBinary(lop, whole, inner, middle, right, close, CondOf(l, table, k), CondOf(r, table, m), rest, cols);
  }
}
