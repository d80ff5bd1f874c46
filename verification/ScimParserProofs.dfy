/** The parser against the grammar: it accepts exactly the texts whose tokens
    derive a tree, returns that tree's meaning, and reports positions inside the
    text. */
module ScimParserProofs {
  import opened Text
  import opened ScimLexer
  import opened ScimGrammar
  import opened ScimParser

  /* ----- soundness: the tree returned yields the tokens consumed ----- */

  lemma {:induction false} OrSound(s: Stream, pf: FloatParser)
    requires !s.Broken? && OrFrom(s, pf).Parsed?
    ensures OrValid(OrFrom(s, pf).tree, pf)
    ensures Follows(s, OrYield(OrFrom(s, pf).tree), OrFrom(s, pf).rest)
    decreases Size(s), 4
  {
    AndSound(s, pf);
    OrMoreSound(s, OrOne(AndFrom(s, pf).tree), AndFrom(s, pf).rest, pf);
  }

  lemma {:induction false} OrMoreSound(s0: Stream, left: OrTree, s: Stream, pf: FloatParser)
    requires !s.Broken? && OrMoreFrom(left, s, pf).Parsed?
    requires OrValid(left, pf) && Follows(s0, OrYield(left), s)
    ensures OrValid(OrMoreFrom(left, s, pf).tree, pf)
    ensures Follows(s0, OrYield(OrMoreFrom(left, s, pf).tree), OrMoreFrom(left, s, pf).rest)
    decreases Size(s), 3
  {
    if StartsWith(s, Logic(Or)) {
      AndSound(s.tail, pf);
      var Parsed(a, rest) := AndFrom(s.tail, pf);
      FollowsOne(s, Logic(Or), s.tail);
      FollowsJoin(s0, OrYield(left), s, [Logic(Or)], s.tail);
      FollowsJoin(s0, OrYield(left) + [Logic(Or)], s.tail, AndYield(a), rest);
      OrMoreSound(s0, OrMore(left, a), rest, pf);
    }
  }

  lemma {:induction false} AndSound(s: Stream, pf: FloatParser)
    requires !s.Broken? && AndFrom(s, pf).Parsed?
    ensures AndValid(AndFrom(s, pf).tree, pf)
    ensures Follows(s, AndYield(AndFrom(s, pf).tree), AndFrom(s, pf).rest)
    decreases Size(s), 2
  {
    AtomSound(s, pf);
    AndMoreSound(s, AndOne(AtomFrom(s, pf).tree), AtomFrom(s, pf).rest, pf);
  }

  lemma {:induction false} AndMoreSound(s0: Stream, left: AndTree, s: Stream, pf: FloatParser)
    requires !s.Broken? && AndMoreFrom(left, s, pf).Parsed?
    requires AndValid(left, pf) && Follows(s0, AndYield(left), s)
    ensures AndValid(AndMoreFrom(left, s, pf).tree, pf)
    ensures Follows(s0, AndYield(AndMoreFrom(left, s, pf).tree), AndMoreFrom(left, s, pf).rest)
    decreases Size(s), 1
  {
    if StartsWith(s, Logic(And)) {
      AtomSound(s.tail, pf);
      var Parsed(x, rest) := AtomFrom(s.tail, pf);
      FollowsOne(s, Logic(And), s.tail);
      FollowsJoin(s0, AndYield(left), s, [Logic(And)], s.tail);
      FollowsJoin(s0, AndYield(left) + [Logic(And)], s.tail, AtomYield(x), rest);
      AndMoreSound(s0, AndMore(left, x), rest, pf);
    }
  }

  lemma {:induction false} AtomSound(s: Stream, pf: FloatParser)
    requires !s.Broken? && AtomFrom(s, pf).Parsed?
    ensures AtomValid(AtomFrom(s, pf).tree, pf)
    ensures Follows(s, AtomYield(AtomFrom(s, pf).tree), AtomFrom(s, pf).rest)
    decreases Size(s), 0
  {
    if StartsWith(s, LParen) {
      OrSound(s.tail, pf);
      var Parsed(o, rest) := OrFrom(s.tail, pf);
      FollowsOne(s, LParen, s.tail);
      FollowsOne(rest, RParen, rest.tail);
      FollowsJoin(s, [LParen], s.tail, OrYield(o), rest);
      FollowsJoin(s, [LParen] + OrYield(o), rest, [RParen], rest.tail);
    } else {
      ComparisonSound(s, pf);
    }
  }

  lemma TestSound(name: string, sub: Option<string>, s: Stream, pf: FloatParser)
    requires !s.Broken? && TestFrom(name, sub, s, pf).Parsed?
    ensures exists test ::
      && TestFrom(name, sub, s, pf).tree == Comparison(name, sub, test)
      && TestValid(test, pf)
      && Follows(s, TestYield(test), TestFrom(name, sub, s, pf).rest)
  {
    var Parsed(t, rest) := TestFrom(name, sub, s, pf);
    match t.test {
      case IsPresent => FollowsOne(s, Present, rest);
      case Compares(cop, lit) => FollowsTwo(s, Compare(cop), LiteralToken(lit), rest);
    }
    assert Follows(s, TestYield(t.test), rest);
  }

  lemma ComparisonSound(s: Stream, pf: FloatParser)
    requires !s.Broken? && ComparisonFrom(s, pf).Parsed?
    ensures AtomValid(ComparisonFrom(s, pf).tree, pf)
    ensures Follows(s, AtomYield(ComparisonFrom(s, pf).tree), ComparisonFrom(s, pf).rest)
  {
    var Parsed(t, rest) := ComparisonFrom(s, pf);
    FollowsOne(s, s.tok, s.tail);
    if !StartsWith(s.tail, Dot) {
      TestSound(s.tok.name, None, s.tail, pf);
      assert [s.tok] + SubYield(None) == [s.tok];
      FollowsJoin(s, [s.tok], s.tail, TestYield(t.test), rest);
    } else {
      var d := s.tail.tail;
      TestSound(s.tok.name, Some(d.tok.name), d.tail, pf);
      FollowsTwo(s.tail, Dot, d.tok, d.tail);
      FollowsJoin(s, [s.tok], s.tail, [Dot, d.tok], d.tail);
      FollowsJoin(s, [s.tok] + [Dot, d.tok], d.tail, TestYield(t.test), rest);
    }
  }

  /* ----- completeness: the parser follows any tree that yields the tokens ----- */

  lemma {:induction false} OrComplete(t: OrTree, s: Stream, rest: Stream, pf: FloatParser)
    requires OrValid(t, pf) && Follows(s, OrYield(t), rest)
    requires !rest.Broken? && !StartsWith(rest, Logic(And))
    ensures !s.Broken? && OrFrom(s, pf) == OrMoreFrom(t, rest, pf)
  {
    match t {
      case OrOne(a) =>
        AndComplete(a, s, rest, pf);
      case OrMore(o, a) =>
        FollowsSplit(s, OrYield(o) + [Logic(Or)], AndYield(a), rest);
        var m :| Follows(s, OrYield(o) + [Logic(Or)], m) && Follows(m, AndYield(a), rest);
        FollowsSplit(s, OrYield(o), [Logic(Or)], m);
        var n :| Follows(s, OrYield(o), n) && Follows(n, [Logic(Or)], m);
        FollowsOne(n, Logic(Or), m);
        AndComplete(a, m, rest, pf);
        OrComplete(o, s, n, pf);
    }
  }

  lemma {:induction false} AndComplete(t: AndTree, s: Stream, rest: Stream, pf: FloatParser)
    requires AndValid(t, pf) && Follows(s, AndYield(t), rest)
    requires !rest.Broken?
    ensures !s.Broken? && AndFrom(s, pf) == AndMoreFrom(t, rest, pf)
  {
    match t {
      case AndOne(x) =>
        AtomComplete(x, s, rest, pf);
      case AndMore(a, x) =>
        FollowsSplit(s, AndYield(a) + [Logic(And)], AtomYield(x), rest);
        var m :| Follows(s, AndYield(a) + [Logic(And)], m) && Follows(m, AtomYield(x), rest);
        FollowsSplit(s, AndYield(a), [Logic(And)], m);
        var n :| Follows(s, AndYield(a), n) && Follows(n, [Logic(And)], m);
        FollowsOne(n, Logic(And), m);
        AtomComplete(x, m, rest, pf);
        AndComplete(a, s, n, pf);
    }
  }

  lemma TestComplete(name: string, sub: Option<string>, test: Test, s: Stream, rest: Stream, pf: FloatParser)
    requires TestValid(test, pf) && Follows(s, TestYield(test), rest) && !rest.Broken?
    ensures s.Cons? && s.tok != Dot
    ensures TestFrom(name, sub, s, pf) == Parsed(Comparison(name, sub, test), rest)
  {
    match test {
      case IsPresent => FollowsOne(s, Present, rest);
      case Compares(cop, lit) => FollowsTwo(s, Compare(cop), LiteralToken(lit), rest);
    }
  }

  lemma {:induction false} AtomComplete(t: AtomTree, s: Stream, rest: Stream, pf: FloatParser)
    requires AtomValid(t, pf) && Follows(s, AtomYield(t), rest)
    requires !rest.Broken?
    ensures !s.Broken? && AtomFrom(s, pf) == Parsed(t, rest)
  {
    match t {
      case Paren(o) =>
        FollowsSplit(s, [LParen] + OrYield(o), [RParen], rest);
        var m :| Follows(s, [LParen] + OrYield(o), m) && Follows(m, [RParen], rest);
        FollowsSplit(s, [LParen], OrYield(o), m);
        var n :| Follows(s, [LParen], n) && Follows(n, OrYield(o), m);
        FollowsOne(s, LParen, n);
        FollowsOne(m, RParen, rest);
        OrComplete(o, n, m, pf);
      case Comparison(name, sub, test) =>
        FollowsSplit(s, [Ident(name)] + SubYield(sub), TestYield(test), rest);
        var m :| Follows(s, [Ident(name)] + SubYield(sub), m) && Follows(m, TestYield(test), rest);
        FollowsSplit(s, [Ident(name)], SubYield(sub), m);
        var n :| Follows(s, [Ident(name)], n) && Follows(n, SubYield(sub), m);
        FollowsOne(s, Ident(name), n);
        if sub.Some? {
          FollowsTwo(n, Dot, Ident(sub.value), m);
        }
        TestComplete(name, sub, test, m, rest, pf);
    }
  }

  /** `Parse` accepts a text with tree `e` exactly when the whole text tokenises
      and its tokens derive `e`. */
  lemma ParseIffDerives(src: string, e: Expr, pf: FloatParser)
    ensures Parsing(src, pf) == Ok(e) <==> Derives(src, e, pf)
  {
    var s := Lex(src, 0);
    if Parsing(src, pf) == Ok(e) {
      var Parsed(t, rest) := OrFrom(s, pf);
      OrSound(s, pf);
      EndIsLength(src, 0, OrYield(t), rest);
      assert Tokenises(src, OrYield(t));
    }
    if Derives(src, e, pf) {
      var t :| OrValid(t, pf) && OrMeaning(t) == e && Tokenises(src, OrYield(t));
      OrComplete(t, s, End(|src|), pf);
    }
  }

  lemma {:induction false} EndIsLength(src: string, i: nat, toks: seq<Token>, rest: Stream)
    requires i <= |src| && Follows(Lex(src, i), toks, rest) && rest.End?
    ensures rest == End(|src|)
    decreases toks
  {
    if toks != [] {
      EndIsLength(src, Scan(src, i).end, toks[1..], rest);
    }
  }

  /* ----- the grammar is unambiguous ----- */

  function StreamOf(toks: seq<Token>): Stream {
    if toks == [] then End(0) else Cons(toks[0], 0, StreamOf(toks[1..]))
  }

  lemma {:induction false} StreamOfFollows(toks: seq<Token>)
    ensures Follows(StreamOf(toks), toks, End(0))
  {
    if toks != [] {
      StreamOfFollows(toks[1..]);
    }
  }

  /** Two derivation trees with the same tokens are the same tree. */
  lemma Unambiguous(t: OrTree, u: OrTree, pf: FloatParser)
    requires OrValid(t, pf) && OrValid(u, pf)
    requires OrYield(t) == OrYield(u)
    ensures t == u
  {
    var s := StreamOf(OrYield(t));
    StreamOfFollows(OrYield(t));
    OrComplete(t, s, End(0), pf);
    OrComplete(u, s, End(0), pf);
  }

  /* ----- error positions ----- */

  ghost predicate RestWithin<T>(r: Parsed<T>, n: nat) {
    match r
    case Failed(err) => err.pos <= n
    case Parsed(_, rest) => Within(rest, n)
  }

  lemma {:induction false} OrWithin(s: Stream, pf: FloatParser, n: nat)
    requires !s.Broken? && Within(s, n)
    ensures RestWithin(OrFrom(s, pf), n)
    decreases Size(s), 4
  {
    AndWithin(s, pf, n);
    if AndFrom(s, pf).Parsed? {
      OrMoreWithin(OrOne(AndFrom(s, pf).tree), AndFrom(s, pf).rest, pf, n);
    }
  }

  lemma {:induction false} OrMoreWithin(left: OrTree, s: Stream, pf: FloatParser, n: nat)
    requires !s.Broken? && Within(s, n)
    ensures RestWithin(OrMoreFrom(left, s, pf), n)
    decreases Size(s), 3
  {
    if StartsWith(s, Logic(Or)) && !s.tail.Broken? {
      AndWithin(s.tail, pf, n);
      if AndFrom(s.tail, pf).Parsed? {
        OrMoreWithin(OrMore(left, AndFrom(s.tail, pf).tree), AndFrom(s.tail, pf).rest, pf, n);
      }
    }
  }

  lemma {:induction false} AndWithin(s: Stream, pf: FloatParser, n: nat)
    requires !s.Broken? && Within(s, n)
    ensures RestWithin(AndFrom(s, pf), n)
    decreases Size(s), 2
  {
    AtomWithin(s, pf, n);
    if AtomFrom(s, pf).Parsed? {
      AndMoreWithin(AndOne(AtomFrom(s, pf).tree), AtomFrom(s, pf).rest, pf, n);
    }
  }

  lemma {:induction false} AndMoreWithin(left: AndTree, s: Stream, pf: FloatParser, n: nat)
    requires !s.Broken? && Within(s, n)
    ensures RestWithin(AndMoreFrom(left, s, pf), n)
    decreases Size(s), 1
  {
    if StartsWith(s, Logic(And)) && !s.tail.Broken? {
      AtomWithin(s.tail, pf, n);
      if AtomFrom(s.tail, pf).Parsed? {
        AndMoreWithin(AndMore(left, AtomFrom(s.tail, pf).tree), AtomFrom(s.tail, pf).rest, pf, n);
      }
    }
  }

  lemma TestWithin(name: string, sub: Option<string>, s: Stream, pf: FloatParser, n: nat)
    requires !s.Broken? && Within(s, n)
    ensures RestWithin(TestFrom(name, sub, s, pf), n)
  {
    if s.Cons? && s.tok.Compare? && s.tail.Cons? {
      assert Within(s.tail.tail, n);
    }
  }

  lemma ComparisonWithin(s: Stream, pf: FloatParser, n: nat)
    requires !s.Broken? && Within(s, n)
    ensures RestWithin(ComparisonFrom(s, pf), n)
  {
    if s.Cons? && s.tok.Ident? && !s.tail.Broken? {
      if !StartsWith(s.tail, Dot) {
        TestWithin(s.tok.name, None, s.tail, pf, n);
      } else {
        var d := s.tail.tail;
        assert Within(d, n);
        if d.Cons? && d.tok.Ident? && !d.tail.Broken? {
          TestWithin(s.tok.name, Some(d.tok.name), d.tail, pf, n);
        }
      }
    }
  }

  lemma {:induction false} AtomWithin(s: Stream, pf: FloatParser, n: nat)
    requires !s.Broken? && Within(s, n)
    ensures RestWithin(AtomFrom(s, pf), n)
    decreases Size(s), 0
  {
    if !StartsWith(s, LParen) {
      ComparisonWithin(s, pf, n);
    } else if !s.tail.Broken? {
      OrWithin(s.tail, pf, n);
      if OrFrom(s.tail, pf).Parsed? && StartsWith(OrFrom(s.tail, pf).rest, RParen) {
        assert Within(OrFrom(s.tail, pf).rest.tail, n);
      }
    }
  }

  /** Every error `Parse` reports lies between the start and the end of the text. */
  lemma ErrorInText(src: string, pf: FloatParser)
    requires Parsing(src, pf).Err?
    ensures Parsing(src, pf).error.pos <= |src|
  {
    LexWithin(src, 0);
    if !Lex(src, 0).Broken? {
      OrWithin(Lex(src, 0), pf, |src|);
    }
  }
}
