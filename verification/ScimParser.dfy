/** The recursive-descent parser of SCIM filters. The functions describe, over a
    token stream, which derivation tree the parser follows and where it fails;
    the class performs the same steps on a lexer it advances. */
module ScimParser {
  import opened Text
  import opened ScimLexer
  import opened ScimGrammar

  datatype Parsed<+T> = Parsed(tree: T, rest: Stream) | Failed(err: FilterError)

  function Size(s: Stream): nat {
    if s.Cons? then 1 + Size(s.tail) else 0
  }

  predicate StartsWith(s: Stream, tok: Token) {
    s.Cons? && s.tok == tok
  }

  function OrFrom(s: Stream, pf: FloatParser): (r: Parsed<OrTree>)
    requires !s.Broken?
    ensures r.Parsed? ==> !r.rest.Broken? && Size(r.rest) < Size(s)
    decreases Size(s), 4
  {
    match AndFrom(s, pf)
    case Failed(err) => Failed(err)
    case Parsed(a, rest) => OrMoreFrom(OrOne(a), rest, pf)
  }

  function OrMoreFrom(left: OrTree, s: Stream, pf: FloatParser): (r: Parsed<OrTree>)
    requires !s.Broken?
    ensures r.Parsed? ==> !r.rest.Broken? && Size(r.rest) <= Size(s)
    decreases Size(s), 3
  {
    if !StartsWith(s, Logic(Or)) then Parsed(left, s)
    else if s.tail.Broken? then Failed(s.tail.err)
    else
      match AndFrom(s.tail, pf)
      case Failed(err) => Failed(err)
      case Parsed(a, rest) => OrMoreFrom(OrMore(left, a), rest, pf)
  }

  function AndFrom(s: Stream, pf: FloatParser): (r: Parsed<AndTree>)
    requires !s.Broken?
    ensures r.Parsed? ==> !r.rest.Broken? && Size(r.rest) < Size(s)
    decreases Size(s), 2
  {
    match AtomFrom(s, pf)
    case Failed(err) => Failed(err)
    case Parsed(x, rest) => AndMoreFrom(AndOne(x), rest, pf)
  }

  function AndMoreFrom(left: AndTree, s: Stream, pf: FloatParser): (r: Parsed<AndTree>)
    requires !s.Broken?
    ensures r.Parsed? ==> !r.rest.Broken? && Size(r.rest) <= Size(s)
    decreases Size(s), 1
  {
    if !StartsWith(s, Logic(And)) then Parsed(left, s)
    else if s.tail.Broken? then Failed(s.tail.err)
    else
      match AtomFrom(s.tail, pf)
      case Failed(err) => Failed(err)
      case Parsed(x, rest) => AndMoreFrom(AndMore(left, x), rest, pf)
  }

  function AtomFrom(s: Stream, pf: FloatParser): (r: Parsed<AtomTree>)
    requires !s.Broken?
    ensures r.Parsed? ==> !r.rest.Broken? && Size(r.rest) < Size(s)
    decreases Size(s), 0
  {
    if !StartsWith(s, LParen) then ComparisonFrom(s, pf)
    else if s.tail.Broken? then Failed(s.tail.err)
    else
      match OrFrom(s.tail, pf)
      case Failed(err) => Failed(err)
      case Parsed(o, rest) =>
        if !StartsWith(rest, RParen) then Failed(FilterError(rest.pos, ExpectedRParen))
        else if rest.tail.Broken? then Failed(rest.tail.err)
        else Parsed(Paren(o), rest.tail)
  }

  function ComparisonFrom(s: Stream, pf: FloatParser): (r: Parsed<AtomTree>)
    requires !s.Broken?
    ensures r.Parsed? ==> !r.rest.Broken? && Size(r.rest) < Size(s)
  {
    if !(s.Cons? && s.tok.Ident?) then Failed(FilterError(s.pos, ExpectedAttribute))
    else if s.tail.Broken? then Failed(s.tail.err)
    else if !StartsWith(s.tail, Dot) then TestFrom(s.tok.name, None, s.tail, pf)
    else
      var d := s.tail.tail;
      assert Size(s) == 2 + Size(d);
      if d.Broken? then Failed(d.err)
      else if !(d.Cons? && d.tok.Ident?) then Failed(FilterError(d.pos, ExpectedSubAttribute))
      else if d.tail.Broken? then Failed(d.tail.err)
      else TestFrom(s.tok.name, Some(d.tok.name), d.tail, pf)
  }

  function TestFrom(name: string, sub: Option<string>, s: Stream, pf: FloatParser): (r: Parsed<AtomTree>)
    requires !s.Broken?
    ensures r.Parsed? ==> !r.rest.Broken? && Size(r.rest) < Size(s)
  {
    if s.Cons? && s.tok.Present? then
      if s.tail.Broken? then Failed(s.tail.err)
      else Parsed(Comparison(name, sub, IsPresent), s.tail)
    else if s.Cons? && s.tok.Compare? then
      if s.tail.Broken? then Failed(s.tail.err)
      else
        match LiteralFrom(s.tail, pf)
        case Failed(err) => Failed(err)
        case Parsed(lit, rest) => Parsed(Comparison(name, sub, Compares(s.tok.cop, lit)), rest)
    else Failed(FilterError(s.pos, ExpectedOperator))
  }

  function LiteralFrom(s: Stream, pf: FloatParser): (r: Parsed<Literal>)
    requires !s.Broken?
    ensures r.Parsed? ==> !r.rest.Broken? && Size(r.rest) < Size(s)
  {
    if s.End? then Failed(FilterError(s.pos, ExpectedValue))
    else
      match s.tok
      case Str(text) => Literally(StrLit(text), s.tail)
      case Number(lexeme) =>
        (match pf(lexeme)
         case None => Failed(FilterError(s.pos, InvalidNumber))
         case Some(x) => Literally(NumLit(lexeme, x), s.tail))
      case True => Literally(TrueLit, s.tail)
      case False => Literally(FalseLit, s.tail)
      case Null => Literally(NullLit, s.tail)
      case _ => Failed(FilterError(s.pos, ExpectedValue))
  }

  function Literally(lit: Literal, rest: Stream): Parsed<Literal> {
    if rest.Broken? then Failed(rest.err) else Parsed(lit, rest)
  }

  /** The derivation tree the parser follows for the whole text. */
  function Derivation(src: string, pf: FloatParser): Result<OrTree, FilterError> {
    var s := Lex(src, 0);
    if s.Broken? then Err(s.err)
    else
      match OrFrom(s, pf)
      case Failed(err) => Err(err)
      case Parsed(t, rest) => if rest.End? then Ok(t) else Err(FilterError(rest.pos, TrailingTokens))
  }

  /** The result of `Parse`. */
  function Parsing(src: string, pf: FloatParser): Result<Expr, FilterError> {
    match Derivation(src, pf)
    case Err(err) => Err(err)
    case Ok(t) => Ok(OrMeaning(t))
  }

  class Parser {
    const l: Lexer
    const pf: FloatParser

    constructor (input: string, pf: FloatParser)
      ensures fresh(l) && l.src == input && l.pos == 0 && this.pf == pf
    {
      l := new Lexer(input);
      this.pf := pf;
    }

    method ParseOr() returns (r: Result<Expr, FilterError>)
      requires l.Valid()
      modifies l
      ensures l.Valid()
      ensures match OrFrom(old(l.Rest()), pf)
              case Failed(err) => r == Err(err)
              case Parsed(t, rest) => r == Ok(OrMeaning(t)) && l.Rest() == rest
      decreases Size(l.Rest()), 4
    {
      ghost var s := l.Rest();
      var left := ParseAnd();
      if left.Err? {
        return left;
      }
      ghost var t := OrOne(AndFrom(s, pf).tree);
      while l.tok == Logic(Or)
        invariant l.Valid() && left.Ok? && left.value == OrMeaning(t)
        invariant Size(l.Rest()) < Size(s)
        invariant OrMoreFrom(t, l.Rest(), pf) == OrFrom(s, pf)
        decreases Size(l.Rest())
      {
        ghost var here := l.Rest();
        var err := l.Next();
        if err.Some? {
          return Err(err.value);
        }
        var right := ParseAnd();
        if right.Err? {
          return right;
        }
        left := Ok(Binary(Or, left.value, right.value));
        t := OrMore(t, AndFrom(here.tail, pf).tree);
      }
      return left;
    }

    method ParseAnd() returns (r: Result<Expr, FilterError>)
      requires l.Valid()
      modifies l
      ensures l.Valid()
      ensures match AndFrom(old(l.Rest()), pf)
              case Failed(err) => r == Err(err)
              case Parsed(t, rest) => r == Ok(AndMeaning(t)) && l.Rest() == rest
      decreases Size(l.Rest()), 2
    {
      ghost var s := l.Rest();
      var left := ParseAtom();
      if left.Err? {
        return left;
      }
      ghost var t := AndOne(AtomFrom(s, pf).tree);
      while l.tok == Logic(And)
        invariant l.Valid() && left.Ok? && left.value == AndMeaning(t)
        invariant Size(l.Rest()) < Size(s)
        invariant AndMoreFrom(t, l.Rest(), pf) == AndFrom(s, pf)
        decreases Size(l.Rest())
      {
        ghost var here := l.Rest();
        var err := l.Next();
        if err.Some? {
          return Err(err.value);
        }
        var right := ParseAtom();
        if right.Err? {
          return right;
        }
        left := Ok(Binary(And, left.value, right.value));
        t := AndMore(t, AtomFrom(here.tail, pf).tree);
      }
      return left;
    }

    method ParseAtom() returns (r: Result<Expr, FilterError>)
      requires l.Valid()
      modifies l
      ensures l.Valid()
      ensures match AtomFrom(old(l.Rest()), pf)
              case Failed(err) => r == Err(err)
              case Parsed(t, rest) => r == Ok(AtomMeaning(t)) && l.Rest() == rest
      decreases Size(l.Rest()), 0
    {
      if l.tok == LParen {
        var err := l.Next();
        if err.Some? {
          return Err(err.value);
        }
        var expr := ParseOr();
        if expr.Err? {
          return expr;
        }
        if l.tok != RParen {
          return Err(FilterError(l.tokPos, ExpectedRParen));
        }
        err := l.Next();
        if err.Some? {
          return Err(err.value);
        }
        return expr;
      }
      r := ParseComparison();
    }

    method ParseComparison() returns (r: Result<Expr, FilterError>)
      requires l.Valid()
      modifies l
      ensures l.Valid()
      ensures match ComparisonFrom(old(l.Rest()), pf)
              case Failed(err) => r == Err(err)
              case Parsed(t, rest) => r == Ok(AtomMeaning(t)) && l.Rest() == rest
    {
      if !l.tok.Ident? {
        return Err(FilterError(l.tokPos, ExpectedAttribute));
      }
      var name, sub := l.tok.name, None;
      var err := l.Next();
      if err.Some? {
        return Err(err.value);
      }
      if l.tok == Dot {
        err := l.Next();
        if err.Some? {
          return Err(err.value);
        }
        if !l.tok.Ident? {
          return Err(FilterError(l.tokPos, ExpectedSubAttribute));
        }
        sub := Some(l.tok.name);
        err := l.Next();
        if err.Some? {
          return Err(err.value);
        }
      }
      r := ParseTest(name, sub);
    }

    /** The end of a comparison: `pr`, or an operator and a value. */
    method ParseTest(name: string, sub: Option<string>) returns (r: Result<Expr, FilterError>)
      requires l.Valid()
      modifies l
      ensures l.Valid()
      ensures match TestFrom(name, sub, old(l.Rest()), pf)
              case Failed(err) => r == Err(err)
              case Parsed(t, rest) => r == Ok(AtomMeaning(t)) && l.Rest() == rest
    {
      var attr := if sub.None? then Lower(name) else Lower(name) + "." + Lower(sub.value);
      var err;
      if l.tok == Present {
        err := l.Next();
        if err.Some? {
          return Err(err.value);
        }
        return Ok(Atom(attr, Presence, NullValue));
      }
      if l.tok.Compare? {
        var op := l.tok.cop;
        err := l.Next();
        if err.Some? {
          return Err(err.value);
        }
        var val := ParseValue();
        if val.Err? {
          return Err(val.error);
        }
        return Ok(Atom(attr, Comparing(op), val.value));
      }
      return Err(FilterError(l.tokPos, ExpectedOperator));
    }

    method ParseValue() returns (r: Result<Value, FilterError>)
      requires l.Valid()
      modifies l
      ensures l.Valid()
      ensures match LiteralFrom(old(l.Rest()), pf)
              case Failed(err) => r == Err(err)
              case Parsed(lit, rest) => r == Ok(LiteralValue(lit)) && l.Rest() == rest
    {
      var t := l.tok;
      var v;
      match t {
        case Str(text) => v := StringValue(text);
        case Number(lexeme) =>
          var f := pf(lexeme);
          if f.None? {
            return Err(FilterError(l.tokPos, InvalidNumber));
          }
          v := NumberValue(f.value);
        case True => v := BoolValue(true);
        case False => v := BoolValue(false);
        case Null => v := NullValue;
        case _ => return Err(FilterError(l.tokPos, ExpectedValue));
      }
      var err := l.Next();
      if err.Some? {
        return Err(err.value);
      }
      return Ok(v);
    }
  }

  /** Parses a whole filter. */
  method Parse(input: string, pf: FloatParser) returns (r: Result<Expr, FilterError>)
    ensures r == Parsing(input, pf)
  {
    var p := new Parser(input, pf);
    var err := p.l.Next();
    if err.Some? {
      return Err(err.value);
    }
    var expr := p.ParseOr();
    if expr.Err? {
      return expr;
    }
    if p.l.tok != Eof {
      return Err(FilterError(p.l.tokPos, TrailingTokens));
    }
    return expr;
  }
}
