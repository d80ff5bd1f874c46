/** The words of the filter language, and how operators bind, on texts. */
module ScimWords {
  import opened Text
  import opened ScimLexer
  import opened ScimGrammar
  import opened ScimParser
  import opened ScimPrinter
  import ScimParserProofs

  /* ----- characters ----- */

  /** Lower-casing changes the ASCII capitals, by their code points, and nothing else. */
  lemma LowerExactly(s: string, k: nat)
    requires k < |s|
    ensures |Lower(s)| == |s|
    ensures var n := s[k] as int; Lower(s)[k] as int == if 65 <= n <= 90 then n + 32 else n
  {
  }

  /** White space is these code points. */
  lemma Blanks(c: char)
    ensures var n := c as int;
            IsSpace(c) <==> 9 <= n <= 13 || n in {32, 0x85, 0xA0, 0x1680, 0x2028, 0x2029, 0x202F, 0x205F, 0x3000}
                            || 0x2000 <= n <= 0x200A
  {
  }

  /* ----- words ----- */

  /** The words of the language, in any case, are these eleven; every other one is a
      name. */
  lemma WordsExactly(raw: string)
    ensures var w := Lower(raw);
            Classify(raw) ==
            if w == "true" then True
            else if w == "false" then False
            else if w == "null" then Null
            else if w == "eq" then Compare(Eq)
            else if w == "ne" then Compare(Ne)
            else if w == "co" then Compare(Co)
            else if w == "sw" then Compare(Sw)
            else if w == "ew" then Compare(Ew)
            else if w == "pr" then Present
            else if w == "and" then Logic(And)
            else if w == "or" then Logic(Or)
            else Ident(raw)
  {
  }

  /* ----- how operators bind ----- */

  /** The presence of an attribute, as a tree. */
  function Has(name: string): AtomTree {
    Comparison(name, None, IsPresent)
  }

  /** The tree of three tests: "and" binds tighter, and both operators to the left. */
  function ThreeTree(a: string, x: LogicOp, b: string, y: LogicOp, c: string): OrTree {
    match (x, y)
    case (And, And) => OrOne(AndMore(AndMore(AndOne(Has(a)), Has(b)), Has(c)))
    case (And, Or) => OrMore(OrOne(AndMore(AndOne(Has(a)), Has(b))), AndOne(Has(c)))
    case (Or, And) => OrMore(OrOne(AndOne(Has(a))), AndMore(AndOne(Has(b)), Has(c)))
    case (Or, Or) => OrMore(OrMore(OrOne(AndOne(Has(a))), AndOne(Has(b))), AndOne(Has(c)))
  }

  function ThreeTokens(a: string, x: LogicOp, b: string, y: LogicOp, c: string): seq<Token> {
    [Ident(a), Present, Logic(x), Ident(b), Present, Logic(y), Ident(c), Present]
  }

  lemma HasYield(name: string)
    ensures AtomYield(Has(name)) == [Ident(name), Present]
    ensures AndYield(AndOne(Has(name))) == [Ident(name), Present]
    ensures OrYield(OrOne(AndOne(Has(name)))) == [Ident(name), Present]
  {
  }

  lemma ThreeYield(a: string, x: LogicOp, b: string, y: LogicOp, c: string)
    ensures OrYield(ThreeTree(a, x, b, y, c)) == ThreeTokens(a, x, b, y, c)
  {
    HasYield(a);
    HasYield(b);
    HasYield(c);
    var ta, tb, tc := [Ident(a), Present], [Ident(b), Present], [Ident(c), Present];
    assert ta + [Logic(x)] + tb + [Logic(y)] + tc == ThreeTokens(a, x, b, y, c);
    match (x, y)
    case (And, And) => assert AndYield(AndMore(AndOne(Has(a)), Has(b))) == ta + [Logic(And)] + tb;
    case (And, Or) => assert OrYield(OrOne(AndMore(AndOne(Has(a)), Has(b)))) == ta + [Logic(And)] + tb;
    case (Or, And) =>
      assert AndYield(AndMore(AndOne(Has(b)), Has(c))) == tb + [Logic(And)] + tc;
      assert ta + [Logic(Or)] + (tb + [Logic(And)] + tc) == ta + [Logic(Or)] + tb + [Logic(And)] + tc;
    case (Or, Or) => assert OrYield(OrMore(OrOne(AndOne(Has(a))), AndOne(Has(b)))) == ta + [Logic(Or)] + tb;
  }

  function HasPieces(name: string): seq<Piece> {
    [Word(name), Gap, Word("pr")]
  }

  function ThreePieces(a: string, x: LogicOp, b: string, y: LogicOp, c: string): seq<Piece> {
    HasPieces(a) + [Gap, Word(LogicText(x)), Gap] + HasPieces(b) + [Gap, Word(LogicText(y)), Gap] + HasPieces(c)
  }

  lemma HasTokens(name: string)
    requires PlainName(name)
    ensures Tokens(HasPieces(name)) == [Ident(name), Present] && Fine(HasPieces(name))
  {
    WordsExactly("pr");
    assert Lower("pr") == "pr";
    TokensThree(Word(name), Gap, Word("pr"));
    FineThree(Word(name), Gap, Word("pr"));
  }

  lemma LogicPieces(lop: LogicOp)
    ensures Fine([Gap, Word(LogicText(lop)), Gap])
  {
    LogicIsKeyword(lop);
    FineThree(Gap, Word(LogicText(lop)), Gap);
  }

  lemma ThreeFine(a: string, x: LogicOp, b: string, y: LogicOp, c: string)
    requires PlainName(a) && PlainName(b) && PlainName(c)
    ensures Fine(ThreePieces(a, x, b, y, c))
  {
    HasTokens(a);
    HasTokens(b);
    HasTokens(c);
    LogicPieces(x);
    LogicPieces(y);
    FiveFine(HasPieces(a), [Gap, Word(LogicText(x)), Gap], HasPieces(b), [Gap, Word(LogicText(y)), Gap], HasPieces(c));
  }

  lemma FiveFine(p: seq<Piece>, q: seq<Piece>, r: seq<Piece>, s: seq<Piece>, t: seq<Piece>)
    requires Fine(p) && Fine(q) && Fine(r) && Fine(s) && Fine(t)
    requires p != [] && q != [] && r != [] && s != [] && t != []
    requires q[0].Gap? && s[0].Gap? && q[|q| - 1].Gap? && s[|s| - 1].Gap?
    ensures Fine(p + q + r + s + t)
  {
    FineJoin(p, q);
    FineJoin(p + q, r);
    FineJoin(p + q + r, s);
    FineJoin(p + q + r + s, t);
  }

  lemma ThreeTokensAre(a: string, x: LogicOp, b: string, y: LogicOp, c: string)
    requires PlainName(a) && PlainName(b) && PlainName(c)
    ensures Tokens(ThreePieces(a, x, b, y, c)) == ThreeTokens(a, x, b, y, c)
  {
    HasTokens(a);
    HasTokens(b);
    HasTokens(c);
    LogicTokens(x);
    LogicTokens(y);
    FiveTokens(HasPieces(a), [Gap, Word(LogicText(x)), Gap], HasPieces(b), [Gap, Word(LogicText(y)), Gap],
               HasPieces(c));
    EightTokens(a, x, b, y, c);
  }

  lemma EightTokens(a: string, x: LogicOp, b: string, y: LogicOp, c: string)
    ensures ThreeTokens(a, x, b, y, c)
         == [Ident(a), Present] + [Logic(x)] + [Ident(b), Present] + [Logic(y)] + [Ident(c), Present]
  {
  }

  /** The text of three tests without parentheses. */
  function ThreeText(a: string, x: string, b: string, y: string, c: string): string {
    a + " pr " + x + " " + b + " pr " + y + " " + c + " pr"
  }

  function OpText(lop: LogicOp): string {
    if lop.And? then "and" else "or"
  }

  lemma {:induction false} JoinedJoin(xs: seq<Piece>, ys: seq<Piece>)
    ensures Joined(xs + ys) == Joined(xs) + Joined(ys)
  {
    if xs == [] {
      assert xs + ys == ys;
    } else {
      assert (xs + ys)[1..] == xs[1..] + ys;
      JoinedJoin(xs[1..], ys);
      Assoc(PieceText(xs[0]), Joined(xs[1..]), Joined(ys));
    }
  }

  lemma JoinedThree(p: Piece, q: Piece, r: Piece)
    ensures Joined([p, q, r]) == PieceText(p) + (PieceText(q) + PieceText(r))
  {
    assert [p, q, r][1..] == [q, r] && [q, r][1..] == [r] && [r][1..] == [];
    assert Joined([r]) == PieceText(r) + "";
  }

  lemma TextParts(a: string, x: string, b: string, y: string, c: string)
    ensures ThreeText(a, x, b, y, c)
         == (a + (" " + "pr")) + (" " + (x + " ")) + (b + (" " + "pr")) + (" " + (y + " ")) + (c + (" " + "pr"))
  {
  }

  lemma ThreeJoined(a: string, x: LogicOp, b: string, y: LogicOp, c: string)
    ensures Joined(ThreePieces(a, x, b, y, c)) == ThreeText(a, OpText(x), b, OpText(y), c)
  {
    var mx, my := [Gap, Word(LogicText(x)), Gap], [Gap, Word(LogicText(y)), Gap];
    JoinedThree(Word(a), Gap, Word("pr"));
    JoinedThree(Word(b), Gap, Word("pr"));
    JoinedThree(Word(c), Gap, Word("pr"));
    JoinedThree(Gap, Word(LogicText(x)), Gap);
    JoinedThree(Gap, Word(LogicText(y)), Gap);
    JoinedJoin(HasPieces(a), mx);
    JoinedJoin(HasPieces(a) + mx, HasPieces(b));
    JoinedJoin(HasPieces(a) + mx + HasPieces(b), my);
    JoinedJoin(HasPieces(a) + mx + HasPieces(b) + my, HasPieces(c));
    TextParts(a, OpText(x), b, OpText(y), c);
  }

  /** The presence of an attribute, as a filter. */
  function PresentIn(name: string): Expr {
    Atom(name, Presence, NullValue)
  }

  lemma HasMeaning(name: string, pf: FloatParser)
    requires PlainName(name)
    ensures AndMeaning(AndOne(Has(name))) == PresentIn(name) && AndValid(AndOne(Has(name)), pf)
    ensures OrMeaning(OrOne(AndOne(Has(name)))) == PresentIn(name) && OrValid(OrOne(AndOne(Has(name))), pf)
    ensures AtomMeaning(Has(name)) == PresentIn(name) && AtomValid(Has(name), pf)
  {
    assert AtomMeaning(Has(name)) == PresentIn(name);
    assert AndMeaning(AndOne(Has(name))) == PresentIn(name) && AndValid(AndOne(Has(name)), pf);
  }

  lemma AndMeans(a: AndTree, x: AtomTree, pf: FloatParser)
    requires AndValid(a, pf) && AtomValid(x, pf)
    ensures AndMeaning(AndMore(a, x)) == Binary(And, AndMeaning(a), AtomMeaning(x)) && AndValid(AndMore(a, x), pf)
    ensures OrMeaning(OrOne(AndMore(a, x))) == AndMeaning(AndMore(a, x)) && OrValid(OrOne(AndMore(a, x)), pf)
  {
    assert AndMeaning(AndMore(a, x)) == Binary(And, AndMeaning(a), AtomMeaning(x)) && AndValid(AndMore(a, x), pf);
  }

  lemma OrMeans(o: OrTree, a: AndTree, pf: FloatParser)
    requires OrValid(o, pf) && AndValid(a, pf)
    ensures OrMeaning(OrMore(o, a)) == Binary(Or, OrMeaning(o), AndMeaning(a)) && OrValid(OrMore(o, a), pf)
  {
  }

  lemma ThreeMeaning(a: string, x: LogicOp, b: string, y: LogicOp, c: string, pf: FloatParser)
    requires PlainName(a) && PlainName(b) && PlainName(c)
    ensures OrMeaning(ThreeTree(a, x, b, y, c))
         == if x == Or && y == And then Binary(Or, PresentIn(a), Binary(And, PresentIn(b), PresentIn(c)))
            else Binary(y, Binary(x, PresentIn(a), PresentIn(b)), PresentIn(c))
    ensures OrValid(ThreeTree(a, x, b, y, c), pf)
  {
    HasMeaning(a, pf);
    HasMeaning(b, pf);
    HasMeaning(c, pf);
    match (x, y) {
      case (And, And) =>
        AndMeans(AndOne(Has(a)), Has(b), pf);
        AndMeans(AndMore(AndOne(Has(a)), Has(b)), Has(c), pf);
      case (And, Or) =>
        AndMeans(AndOne(Has(a)), Has(b), pf);
        OrMeans(OrOne(AndMore(AndOne(Has(a)), Has(b))), AndOne(Has(c)), pf);
      case (Or, And) =>
        AndMeans(AndOne(Has(b)), Has(c), pf);
        OrMeans(OrOne(AndOne(Has(a))), AndMore(AndOne(Has(b)), Has(c)), pf);
      case (Or, Or) =>
        OrMeans(OrOne(AndOne(Has(a))), AndOne(Has(b)), pf);
        OrMeans(OrMore(OrOne(AndOne(Has(a))), AndOne(Has(b))), AndOne(Has(c)), pf);
    }
  }

  /** Without parentheses "and" binds tighter than "or", and each operator to the left. */
  lemma BindsExactly(a: string, x: LogicOp, b: string, y: LogicOp, c: string, pf: FloatParser)
    requires PlainName(a) && PlainName(b) && PlainName(c)
    ensures Parsing(ThreeText(a, OpText(x), b, OpText(y), c), pf)
         == Ok(if x == Or && y == And then Binary(Or, PresentIn(a), Binary(And, PresentIn(b), PresentIn(c)))
               else Binary(y, Binary(x, PresentIn(a), PresentIn(b)), PresentIn(c)))
  {
    var src, t := ThreeText(a, OpText(x), b, OpText(y), c), ThreeTree(a, x, b, y, c);
    ThreeJoined(a, x, b, y, c);
    ThreeFine(a, x, b, y, c);
    ThreeTokensAre(a, x, b, y, c);
    LexAll(src, ThreePieces(a, x, b, y, c), ThreeTokens(a, x, b, y, c));
    ThreeYield(a, x, b, y, c);
    ThreeMeaning(a, x, b, y, c, pf);
    ScimParserProofs.ParseIffDerives(src, OrMeaning(t), pf);
  }
}
