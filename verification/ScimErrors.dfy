/** Where a filter is refused and why: the parser's report is that of a machine with six
    phases and a depth, which stops at the first token that cannot come next. */
module ScimErrors {
  import opened Text
  import opened ScimLexer
  import opened ScimGrammar
  import opened ScimParser

  /** What has come last: nothing or an operator, a name, a dot, a sub-attribute, a
      comparison, or a whole test. */
  datatype Phase = Operand | Named | Dotted | Subbed | Compared | Tested

  /** What comes next after a token, if it can come in a phase, inside so many
      parentheses. */
  datatype Move = Stuck | Go(phase: Phase, depth: nat)

  function Next(p: Phase, d: nat, tok: Token, pf: FloatParser): Move {
    match p
    case Operand => if tok.LParen? then Go(Operand, d + 1) else if tok.Ident? then Go(Named, d) else Stuck
    case Named =>
      if tok.Dot? then Go(Dotted, d)
      else if tok.Present? then Go(Tested, d)
      else if tok.Compare? then Go(Compared, d)
      else Stuck
    case Dotted => if tok.Ident? then Go(Subbed, d) else Stuck
    case Subbed => if tok.Present? then Go(Tested, d) else if tok.Compare? then Go(Compared, d) else Stuck
    case Compared =>
      if tok.Str? || tok.True? || tok.False? || tok.Null? || (tok.Number? && pf(tok.lexeme).Some?)
      then Go(Tested, d) else Stuck
    case Tested =>
      if tok.Logic? then Go(Operand, d) else if tok.RParen? && d > 0 then Go(Tested, d - 1) else Stuck
  }

  /** The complaint in a phase. */
  function Complaint(p: Phase, d: nat): ErrorKind {
    match p
    case Operand => ExpectedAttribute
    case Named => ExpectedOperator
    case Dotted => ExpectedSubAttribute
    case Subbed => ExpectedOperator
    case Compared => ExpectedValue
    case Tested => if d > 0 then ExpectedRParen else TrailingTokens
  }

  /** The first error of a text; none if it is a filter. */
  function Refusal(s: Stream, p: Phase, d: nat, pf: FloatParser): Option<FilterError> {
    match s
    case Broken(err) => Some(err)
    case End(pos) => if p == Tested && d == 0 then None else Some(FilterError(pos, Complaint(p, d)))
    case Cons(tok, pos, tail) =>
      match Next(p, d, tok, pf)
      case Go(p', d') => Refusal(tail, p', d', pf)
      case Stuck =>
        Some(FilterError(pos, if p == Compared && tok.Number? then InvalidNumber else Complaint(p, d)))
  }

  /** What a parsing function found, seen from the machine: it fails as the machine does,
      or the machine goes on after a whole test. */
  ghost predicate Agrees<T>(r: Parsed<T>, s: Stream, p: Phase, d: nat, pf: FloatParser) {
    match r
    case Failed(err) => Refusal(s, p, d, pf) == Some(err)
    case Parsed(_, rest) => Refusal(s, p, d, pf) == Refusal(rest, Tested, d, pf)
  }

  /** One move. */
  lemma Moves(s: Stream, p: Phase, d: nat, pf: FloatParser)
    requires s.Cons? && Next(p, d, s.tok, pf).Go?
    ensures Refusal(s, p, d, pf) == Refusal(s.tail, Next(p, d, s.tok, pf).phase, Next(p, d, s.tok, pf).depth, pf)
  {
  }

  lemma Connectives(tok: Token)
    ensures tok.Logic? ==> tok == Logic(And) || tok == Logic(Or)
  {
    if tok.Logic? {
      match tok.lop
      case And => assert tok == Logic(And);
      case Or => assert tok == Logic(Or);
    }
  }

  /** Where the machine stops after a test. */
  lemma Stops(s: Stream, d: nat, pf: FloatParser)
    requires !s.Broken? && !StartsWith(s, Logic(And)) && !StartsWith(s, Logic(Or))
    requires d > 0 ==> !StartsWith(s, RParen)
    ensures Refusal(s, Tested, d, pf)
         == if s.End? && d == 0 then None else Some(FilterError(s.pos, Complaint(Tested, d)))
  {
    if s.Cons? {
      Connectives(s.tok);
    }
  }

  lemma LiteralAgrees(s: Stream, d: nat, pf: FloatParser)
    requires !s.Broken?
    ensures Agrees(LiteralFrom(s, pf), s, Compared, d, pf)
  {
  }

  lemma TestAgrees(name: string, sub: Option<string>, s: Stream, p: Phase, d: nat, pf: FloatParser)
    requires !s.Broken? && (p == Subbed || (p == Named && !StartsWith(s, Dot)))
    ensures Agrees(TestFrom(name, sub, s, pf), s, p, d, pf)
  {
    if s.Cons? && s.tok.Compare? && !s.tail.Broken? {
      LiteralAgrees(s.tail, d, pf);
    }
  }

  lemma ComparisonAgrees(s: Stream, d: nat, pf: FloatParser)
    requires !s.Broken? && !StartsWith(s, LParen)
    ensures Agrees(ComparisonFrom(s, pf), s, Operand, d, pf)
  {
    if s.Cons? && s.tok.Ident? && !s.tail.Broken? {
      Moves(s, Operand, d, pf);
      if !StartsWith(s.tail, Dot) {
        TestAgrees(s.tok.name, None, s.tail, Named, d, pf);
      } else {
        var t := s.tail.tail;
        Moves(s.tail, Named, d, pf);
        if t.Cons? && t.tok.Ident? && !t.tail.Broken? {
          Moves(t, Dotted, d, pf);
          TestAgrees(s.tok.name, Some(t.tok.name), t.tail, Subbed, d, pf);
        }
      }
    }
  }

  lemma {:induction false} AtomAgrees(s: Stream, d: nat, pf: FloatParser)
    requires !s.Broken?
    ensures Agrees(AtomFrom(s, pf), s, Operand, d, pf)
    decreases Size(s), 0
  {
    if !StartsWith(s, LParen) {
      ComparisonAgrees(s, d, pf);
    } else if !s.tail.Broken? {
      Moves(s, Operand, d, pf);
      OrAgrees(s.tail, d + 1, pf);
      var o := OrFrom(s.tail, pf);
      if o.Parsed? {
        if StartsWith(o.rest, RParen) {
          Moves(o.rest, Tested, d + 1, pf);
        } else {
          Stops(o.rest, d + 1, pf);
        }
      }
    }
  }

  lemma {:induction false} AndMoreAgrees(left: AndTree, s: Stream, d: nat, pf: FloatParser)
    requires !s.Broken?
    ensures var r := AndMoreFrom(left, s, pf);
            Agrees(r, s, Tested, d, pf) && (r.Parsed? ==> !StartsWith(r.rest, Logic(And)))
    decreases Size(s), 1
  {
    if StartsWith(s, Logic(And)) && !s.tail.Broken? {
      AtomAgrees(s.tail, d, pf);
      var x := AtomFrom(s.tail, pf);
      if x.Parsed? {
        AndMoreAgrees(AndMore(left, x.tree), x.rest, d, pf);
      }
    }
  }

  lemma {:induction false} AndAgrees(s: Stream, d: nat, pf: FloatParser)
    requires !s.Broken?
    ensures var r := AndFrom(s, pf);
            Agrees(r, s, Operand, d, pf) && (r.Parsed? ==> !StartsWith(r.rest, Logic(And)))
    decreases Size(s), 2
  {
    AtomAgrees(s, d, pf);
    var x := AtomFrom(s, pf);
    if x.Parsed? {
      AndMoreAgrees(AndOne(x.tree), x.rest, d, pf);
    }
  }

  lemma {:induction false} OrMoreAgrees(left: OrTree, s: Stream, d: nat, pf: FloatParser)
    requires !s.Broken? && !StartsWith(s, Logic(And))
    ensures var r := OrMoreFrom(left, s, pf);
            && Agrees(r, s, Tested, d, pf)
            && (r.Parsed? ==> !StartsWith(r.rest, Logic(And)) && !StartsWith(r.rest, Logic(Or)))
    decreases Size(s), 3
  {
    if StartsWith(s, Logic(Or)) && !s.tail.Broken? {
      AndAgrees(s.tail, d, pf);
      var a := AndFrom(s.tail, pf);
      if a.Parsed? {
        OrMoreAgrees(OrMore(left, a.tree), a.rest, d, pf);
      }
    }
  }

  lemma {:induction false} OrAgrees(s: Stream, d: nat, pf: FloatParser)
    requires !s.Broken?
    ensures var r := OrFrom(s, pf);
            && Agrees(r, s, Operand, d, pf)
            && (r.Parsed? ==> !StartsWith(r.rest, Logic(And)) && !StartsWith(r.rest, Logic(Or)))
    decreases Size(s), 4
  {
    AndAgrees(s, d, pf);
    var a := AndFrom(s, pf);
    if a.Parsed? {
      OrMoreAgrees(OrOne(a.tree), a.rest, d, pf);
    }
  }

  /** The parser accepts a text exactly if the machine does, and otherwise reports the
      machine's error: its position is that of the first token that cannot come there, or
      of the error within a token, or the end. */
  lemma ErrorExactly(src: string, pf: FloatParser)
    ensures match Parsing(src, pf)
            case Ok(_) => Refusal(Lex(src, 0), Operand, 0, pf) == None
            case Err(e) => Refusal(Lex(src, 0), Operand, 0, pf) == Some(e)
  {
    var s := Lex(src, 0);
    if !s.Broken? {
      OrAgrees(s, 0, pf);
      if OrFrom(s, pf).Parsed? {
        Stops(OrFrom(s, pf).rest, 0, pf);
      }
    }
  }
}
