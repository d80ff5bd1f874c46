/** The grammar of SCIM filters as derivation trees. A tree has a yield (the
    tokens it derives) and a meaning (the syntax tree a parser returns for it).
    Both binary operators associate to the left and "and" binds tighter. */
module ScimGrammar {
  import opened Text
  import opened ScimLexer

  datatype Value = StringValue(text: string) | NumberValue(number: real) | BoolValue(flag: bool) | NullValue

  datatype Operator = Comparing(cop: CompareOp) | Presence

  datatype Expr =
    | Atom(attr: string, op: Operator, value: Value)
    | Binary(lop: LogicOp, left: Expr, right: Expr)

  /** `strconv.ParseFloat`: the value of a numeral, or no value. */
  type FloatParser = string -> Option<real>

  datatype Literal = StrLit(text: string) | NumLit(lexeme: string, number: real) | TrueLit | FalseLit | NullLit

  datatype Test = IsPresent | Compares(cop: CompareOp, lit: Literal)

  datatype AtomTree = Paren(inner: OrTree) | Comparison(name: string, sub: Option<string>, test: Test)

  datatype AndTree = AndOne(atom: AtomTree) | AndMore(init: AndTree, last: AtomTree)

  datatype OrTree = OrOne(conj: AndTree) | OrMore(init: OrTree, last: AndTree)

  /* ----- yields ----- */

  function LiteralToken(lit: Literal): Token {
    match lit
    case StrLit(t) => Str(t)
    case NumLit(l, _) => Number(l)
    case TrueLit => True
    case FalseLit => False
    case NullLit => Null
  }

  function TestYield(t: Test): seq<Token> {
    match t
    case IsPresent => [Present]
    case Compares(cop, lit) => [Compare(cop), LiteralToken(lit)]
  }

  function SubYield(sub: Option<string>): seq<Token> {
    match sub
    case None => []
    case Some(s) => [Dot, Ident(s)]
  }

  function AtomYield(t: AtomTree): seq<Token> {
    match t
    case Paren(o) => [LParen] + OrYield(o) + [RParen]
    case Comparison(name, sub, test) => [Ident(name)] + SubYield(sub) + TestYield(test)
  }

  function AndYield(t: AndTree): seq<Token> {
    match t
    case AndOne(x) => AtomYield(x)
    case AndMore(a, x) => AndYield(a) + [Logic(And)] + AtomYield(x)
  }

  function OrYield(t: OrTree): seq<Token> {
    match t
    case OrOne(a) => AndYield(a)
    case OrMore(o, a) => OrYield(o) + [Logic(Or)] + AndYield(a)
  }

  /* ----- numerals must be readable ----- */

  predicate TestValid(t: Test, pf: FloatParser) {
    t.Compares? && t.lit.NumLit? ==> pf(t.lit.lexeme) == Some(t.lit.number)
  }

  predicate AtomValid(t: AtomTree, pf: FloatParser) {
    match t
    case Paren(o) => OrValid(o, pf)
    case Comparison(_, _, test) => TestValid(test, pf)
  }

  predicate AndValid(t: AndTree, pf: FloatParser) {
    match t
    case AndOne(x) => AtomValid(x, pf)
    case AndMore(a, x) => AndValid(a, pf) && AtomValid(x, pf)
  }

  predicate OrValid(t: OrTree, pf: FloatParser) {
    match t
    case OrOne(a) => AndValid(a, pf)
    case OrMore(o, a) => OrValid(o, pf) && AndValid(a, pf)
  }

  /* ----- meanings ----- */

  function LiteralValue(lit: Literal): Value {
    match lit
    case StrLit(t) => StringValue(t)
    case NumLit(_, x) => NumberValue(x)
    case TrueLit => BoolValue(true)
    case FalseLit => BoolValue(false)
    case NullLit => NullValue
  }

  function AttrName(name: string, sub: Option<string>): string {
    match sub
    case None => Lower(name)
    case Some(s) => Lower(name) + "." + Lower(s)
  }

  function AtomMeaning(t: AtomTree): Expr {
    match t
    case Paren(o) => OrMeaning(o)
    case Comparison(name, sub, IsPresent) => Atom(AttrName(name, sub), Presence, NullValue)
    case Comparison(name, sub, Compares(cop, lit)) => Atom(AttrName(name, sub), Comparing(cop), LiteralValue(lit))
  }

  function AndMeaning(t: AndTree): Expr {
    match t
    case AndOne(x) => AtomMeaning(x)
    case AndMore(a, x) => Binary(And, AndMeaning(a), AtomMeaning(x))
  }

  function OrMeaning(t: OrTree): Expr {
    match t
    case OrOne(a) => AndMeaning(a)
    case OrMore(o, a) => Binary(Or, OrMeaning(o), AndMeaning(a))
  }

  /* ----- tokens of a stream ----- */

  /** `s` starts with the tokens `toks` and continues with `rest`. */
  predicate Follows(s: Stream, toks: seq<Token>, rest: Stream) {
    if toks == [] then s == rest
    else s.Cons? && s.tok == toks[0] && Follows(s.tail, toks[1..], rest)
  }

  lemma FollowsOne(s: Stream, tok: Token, rest: Stream)
    ensures Follows(s, [tok], rest) <==> s.Cons? && s.tok == tok && s.tail == rest
  {
    assert [tok][1..] == [];
    assert s.Cons? ==> (Follows(s.tail, [], rest) <==> s.tail == rest);
  }

  lemma FollowsTwo(s: Stream, tok: Token, tok': Token, rest: Stream)
    ensures Follows(s, [tok, tok'], rest) <==>
            s.Cons? && s.tok == tok && s.tail.Cons? && s.tail.tok == tok' && s.tail.tail == rest
  {
    assert [tok, tok'][1..] == [tok'];
    if s.Cons? {
      FollowsOne(s.tail, tok', rest);
    }
  }

  lemma {:induction false} FollowsSplit(s: Stream, xs: seq<Token>, ys: seq<Token>, rest: Stream)
    requires Follows(s, xs + ys, rest)
    ensures exists m :: Follows(s, xs, m) && Follows(m, ys, rest)
  {
    if xs == [] {
      assert xs + ys == ys;
      assert Follows(s, xs, s);
    } else {
      assert (xs + ys)[1..] == xs[1..] + ys;
      FollowsSplit(s.tail, xs[1..], ys, rest);
      var m :| Follows(s.tail, xs[1..], m) && Follows(m, ys, rest);
      assert Follows(s, xs, m);
    }
  }

  lemma {:induction false} FollowsJoin(s: Stream, xs: seq<Token>, m: Stream, ys: seq<Token>, rest: Stream)
    requires Follows(s, xs, m) && Follows(m, ys, rest)
    ensures Follows(s, xs + ys, rest)
  {
    if xs == [] {
      assert xs + ys == ys;
    } else {
      FollowsJoin(s.tail, xs[1..], m, ys, rest);
      assert (xs + ys)[1..] == xs[1..] + ys;
    }
  }

  /** The whole text splits into exactly the tokens `toks`. */
  predicate Tokenises(src: string, toks: seq<Token>) {
    Follows(Lex(src, 0), toks, End(|src|))
  }

  /** The tokens of `src` derive the syntax tree `e`. */
  ghost predicate Derives(src: string, e: Expr, pf: FloatParser) {
    exists t: OrTree :: OrValid(t, pf) && OrMeaning(t) == e && Tokenises(src, OrYield(t))
  }
}
