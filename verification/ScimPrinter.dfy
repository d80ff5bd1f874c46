/** A fully parenthesising printer for filters, and the round trip through the
    parser. */
module ScimPrinter {
  import opened Text
  import opened ScimLexer
  import opened ScimGrammar
  import opened ScimParser
  import ScimParserProofs

  /** Writes a number; the round trip asks that reading gives the number back. */
  type FloatFormat = real -> string

  function CompareText(cop: CompareOp): string {
    match cop
    case Eq => "eq"
    case Ne => "ne"
    case Co => "co"
    case Sw => "sw"
    case Ew => "ew"
  }

  function LogicText(lop: LogicOp): string {
    match lop
    case And => "and"
    case Or => "or"
  }

  function Escaped(s: string): string {
    if s == "" then ""
    else if s[0] == '"' || s[0] == '\\' then ['\\', s[0]] + Escaped(s[1..])
    else [s[0]] + Escaped(s[1..])
  }

  function Quoted(s: string): string {
    "\"" + Escaped(s) + "\""
  }

  /** The pieces a printed filter is put together from. */
  datatype Piece =
    | Gap
    | Symbol(c: char)
    | Word(word: string)
    | Text(text: string)
    | Numeric(lexeme: string)

  function PieceText(p: Piece): string {
    match p
    case Gap => " "
    case Symbol(c) => [c]
    case Word(w) => w
    case Text(t) => Quoted(t)
    case Numeric(l) => l
  }

  function ValuePiece(v: Value, fmt: FloatFormat): Piece {
    match v
    case StringValue(t) => Text(t)
    case NumberValue(x) => Numeric(fmt(x))
    case BoolValue(b) => Word(if b then "true" else "false")
    case NullValue => Word("null")
  }

  function TestPieces(op: Operator, v: Value, fmt: FloatFormat): seq<Piece> {
    match op
    case Presence => [Word("pr")]
    case Comparing(cop) => [Word(CompareText(cop)), Gap, ValuePiece(v, fmt)]
  }

  function AttrPieces(attr: string): seq<Piece> {
    match SubPart(attr)
    case None => [Word(attr)]
    case Some(s) => [Word(NamePart(attr)), Symbol('.'), Word(s)]
  }

  function Pieces(e: Expr, fmt: FloatFormat): seq<Piece> {
    match e
    case Atom(attr, op, v) => AttrPieces(attr) + [Gap] + TestPieces(op, v, fmt)
    case Binary(lop, l, r) =>
      [Symbol('(')] + Pieces(l, fmt) + [Gap, Word(LogicText(lop)), Gap] + Pieces(r, fmt) + [Symbol(')')]
  }

  function Joined(ps: seq<Piece>): string {
    if ps == [] then "" else PieceText(ps[0]) + Joined(ps[1..])
  }

  function Print(e: Expr, fmt: FloatFormat): string {
    Joined(Pieces(e, fmt))
  }

  /* ----- which trees can be printed ----- */

  predicate NameShape(s: string) {
    s != "" && IsLetter(s[0]) && forall k :: 0 <= k < |s| ==> IsIdentPart(s[k])
  }

  /** A lower-case identifier that is no keyword. */
  predicate PlainName(s: string) {
    NameShape(s) && Lower(s) == s && Classify(s) == Ident(s)
  }

  function DotIndex(s: string): (i: nat)
    ensures i <= |s| && (i < |s| ==> s[i] == '.')
    ensures forall k :: 0 <= k < i ==> s[k] != '.'
  {
    if s == "" || s[0] == '.' then 0 else 1 + DotIndex(s[1..])
  }

  function NamePart(attr: string): string {
    attr[..DotIndex(attr)]
  }

  function SubPart(attr: string): Option<string> {
    var i := DotIndex(attr);
    if i < |attr| then Some(attr[i + 1..]) else None
  }

  /** One plain name, or two joined by a dot. */
  predicate PrintableAttr(attr: string) {
    PlainName(NamePart(attr)) && (SubPart(attr).Some? ==> PlainName(SubPart(attr).value))
  }

  /** The shape of the numerals the lexer reads in one piece. */
  predicate NumberShape(s: string) {
    && s != ""
    && (IsDigit(s[0]) || (s[0] == '-' && |s| > 1))
    && forall k :: 1 <= k < |s| ==> IsDigit(s[k]) || s[k] == '.'
  }

  predicate PrintableNumber(x: real, pf: FloatParser, fmt: FloatFormat) {
    NumberShape(fmt(x)) && pf(fmt(x)) == Some(x)
  }

  predicate NumbersPrintable(e: Expr, pf: FloatParser, fmt: FloatFormat) {
    match e
    case Atom(_, _, v) => v.NumberValue? ==> PrintableNumber(v.number, pf, fmt)
    case Binary(_, l, r) => NumbersPrintable(l, pf, fmt) && NumbersPrintable(r, pf, fmt)
  }

  predicate Printable(e: Expr) {
    match e
    case Atom(attr, op, v) => PrintableAttr(attr) && (op.Presence? ==> v.NullValue?)
    case Binary(_, l, r) => Printable(l) && Printable(r)
  }

  /* ----- the derivation tree of a printed filter ----- */

  function LiteralOf(v: Value, fmt: FloatFormat): Literal {
    match v
    case StringValue(t) => StrLit(t)
    case NumberValue(x) => NumLit(fmt(x), x)
    case BoolValue(b) => if b then TrueLit else FalseLit
    case NullValue => NullLit
  }

  function TestOf(op: Operator, v: Value, fmt: FloatFormat): Test {
    match op
    case Presence => IsPresent
    case Comparing(cop) => Compares(cop, LiteralOf(v, fmt))
  }

  function TreeOf(e: Expr, fmt: FloatFormat): AtomTree {
    match e
    case Atom(attr, op, v) => Comparison(NamePart(attr), SubPart(attr), TestOf(op, v, fmt))
    case Binary(lop, l, r) => Paren(BinaryTree(lop, TreeOf(l, fmt), TreeOf(r, fmt)))
  }

  lemma AttrMeaning(attr: string)
    requires Lower(NamePart(attr)) == NamePart(attr)
    requires SubPart(attr).Some? ==> Lower(SubPart(attr).value) == SubPart(attr).value
    ensures AttrName(NamePart(attr), SubPart(attr)) == attr
  {
    if SubPart(attr).Some? {
      assert attr == NamePart(attr) + "." + SubPart(attr).value;
    }
  }

  lemma AtomTreeMeaning(attr: string, op: Operator, v: Value, pf: FloatParser, fmt: FloatFormat)
    requires AttrName(NamePart(attr), SubPart(attr)) == attr && (op.Presence? ==> v.NullValue?)
    requires v.NumberValue? ==> pf(fmt(v.number)) == Some(v.number)
    ensures AtomMeaning(TreeOf(Atom(attr, op, v), fmt)) == Atom(attr, op, v)
    ensures AtomValid(TreeOf(Atom(attr, op, v), fmt), pf)
  {
  }

  lemma {:induction false} TreeMeaning(e: Expr, pf: FloatParser, fmt: FloatFormat)
    requires Printable(e) && NumbersPrintable(e, pf, fmt)
    ensures AtomMeaning(TreeOf(e, fmt)) == e && AtomValid(TreeOf(e, fmt), pf)
  {
    match e {
      case Atom(attr, op, v) =>
        AttrMeaning(attr);
        AtomTreeMeaning(attr, op, v, pf, fmt);
      case Binary(lop, l, r) =>
        TreeMeaning(l, pf, fmt);
        TreeMeaning(r, pf, fmt);
        BinaryMeaning(lop, TreeOf(l, fmt), TreeOf(r, fmt), pf);
    }
  }

  function BinaryTree(lop: LogicOp, tl: AtomTree, tr: AtomTree): OrTree {
    match lop
    case And => OrOne(AndMore(AndOne(tl), tr))
    case Or => OrMore(OrOne(AndOne(tl)), AndOne(tr))
  }

  lemma BinaryMeaning(lop: LogicOp, tl: AtomTree, tr: AtomTree, pf: FloatParser)
    ensures OrMeaning(BinaryTree(lop, tl, tr)) == Binary(lop, AtomMeaning(tl), AtomMeaning(tr))
    ensures OrValid(BinaryTree(lop, tl, tr), pf) <==> AtomValid(tl, pf) && AtomValid(tr, pf)
  {
    assert AndMeaning(AndOne(tl)) == AtomMeaning(tl) && AndMeaning(AndOne(tr)) == AtomMeaning(tr);
    assert OrMeaning(OrOne(AndOne(tl))) == AtomMeaning(tl);
    assert AndMeaning(AndMore(AndOne(tl), tr)) == Binary(And, AtomMeaning(tl), AtomMeaning(tr));
    assert AndValid(AndOne(tl), pf) == AtomValid(tl, pf) && AndValid(AndOne(tr), pf) == AtomValid(tr, pf);
    assert OrValid(OrOne(AndOne(tl)), pf) == AtomValid(tl, pf);
    assert AndValid(AndMore(AndOne(tl), tr), pf) == (AtomValid(tl, pf) && AtomValid(tr, pf));
  }

  /* ----- lexing one printed piece ----- */

  lemma LexSpace(src: string, i: nat)
    requires i < |src| && IsSpace(src[i])
    ensures Lex(src, i) == Lex(src, i + 1)
  {
    assert SpaceEnd(src, i) == SpaceEnd(src, i + 1);
    assert Scan(src, i) == Scan(src, i + 1);
  }

  lemma {:induction false} IdentEndAt(src: string, i: nat, word: string)
    requires At(src, i, word) && forall k :: 0 <= k < |word| ==> IsIdentPart(word[k])
    requires i + |word| < |src| ==> !IsIdentPart(src[i + |word|])
    ensures IdentEnd(src, i) == i + |word|
    decreases |word|
  {
    if word != "" {
      AtChar(src, i, word, 0);
      AtSplit(src, i, word[..1], word[1..]);
      assert word[..1] + word[1..] == word;
      IdentEndAt(src, i + 1, word[1..]);
    }
  }

  predicate PieceFine(p: Piece) {
    match p
    case Gap => true
    case Symbol(c) => c == '(' || c == ')' || c == '.'
    case Word(w) => NameShape(w)
    case Text(_) => true
    case Numeric(l) => NumberShape(l)
  }

  /** `q` may stand directly after `p`: it does not extend a word or a numeral. */
  predicate MayFollow(p: Piece, q: Piece) {
    && (p.Word? ==> q.Gap? || q.Symbol?)
    && (p.Numeric? ==> q.Gap? || q == Symbol(')'))
  }

  predicate Fine(ps: seq<Piece>) {
    ps != [] ==> PieceFine(ps[0]) && (|ps| > 1 ==> MayFollow(ps[0], ps[1])) && Fine(ps[1..])
  }

  function PieceTokens(p: Piece): seq<Token> {
    match p
    case Gap => []
    case Symbol(c) => [if c == '(' then LParen else if c == ')' then RParen else Dot]
    case Word(w) => [Classify(w)]
    case Text(t) => [Str(t)]
    case Numeric(l) => [Number(l)]
  }

  function Tokens(ps: seq<Piece>): seq<Token> {
    if ps == [] then [] else PieceTokens(ps[0]) + Tokens(ps[1..])
  }

  lemma ScanWord(src: string, i: nat, word: string)
    requires At(src, i, word) && NameShape(word)
    requires i + |word| < |src| ==> !IsIdentPart(src[i + |word|])
    ensures Scan(src, i) == Found(Classify(word), i, i + |word|)
  {
    AtChar(src, i, word, 0);
    IdentEndAt(src, i, word);
    assert SpaceEnd(src, i) == i;
    AtSlice(src, i, word);
  }

  lemma LexFound(src: string, i: nat, tok: Token, p: nat, end: nat)
    requires i <= |src| && Scan(src, i) == Found(tok, p, end)
    ensures Follows(Lex(src, i), [tok], Lex(src, end))
  {
    FollowsOne(Lex(src, i), tok, Lex(src, end));
  }

  lemma LexWord(src: string, i: nat, word: string)
    requires At(src, i, word) && NameShape(word)
    requires i + |word| < |src| ==> !IsIdentPart(src[i + |word|])
    ensures Follows(Lex(src, i), [Classify(word)], Lex(src, i + |word|))
  {
    ScanWord(src, i, word);
    LexFound(src, i, Classify(word), i, i + |word|);
  }

  lemma {:induction false} StringEndAt(src: string, start: nat, i: nat, s: string, acc: string)
    requires start < i && At(src, i, Escaped(s) + "\"")
    ensures StringFrom(src, start, i, acc) == Closed(acc + s, i + |Escaped(s)| + 1)
    decreases |s|
  {
    if s == "" {
      AtChar(src, i, Escaped(s) + "\"", 0);
      assert acc + s == acc;
    } else {
      var n := if s[0] == '"' || s[0] == '\\' then 2 else 1;
      EscapedStep(src, i, s, n);
      StringEndAt(src, start, i + n, s[1..], acc + [s[0]]);
      assert acc + [s[0]] + s[1..] == acc + s;
    }
  }

  lemma EscapedStep(src: string, i: nat, s: string, n: nat)
    requires s != "" && At(src, i, Escaped(s) + "\"")
    requires n == if s[0] == '"' || s[0] == '\\' then 2 else 1
    ensures At(src, i + n, Escaped(s[1..]) + "\"")
    ensures |Escaped(s)| == n + |Escaped(s[1..])| && src[i + n - 1] == s[0] && src[i] == Escaped(s)[0]
  {
    var t := Escaped(s) + "\"";
    assert t == t[..n] + (Escaped(s[1..]) + "\"");
    AtSplit(src, i, t[..n], Escaped(s[1..]) + "\"");
    AtChar(src, i, t, n - 1);
    AtChar(src, i, t, 0);
  }

  lemma QuotedParts(src: string, i: nat, s: string)
    requires At(src, i, Quoted(s))
    ensures i < |src| && src[i] == '"' && At(src, i + 1, Escaped(s) + "\"") && |Quoted(s)| == |Escaped(s)| + 2
  {
    var inner := Escaped(s) + "\"";
    assert Quoted(s) == "\"" + inner;
    AtParts(src, i, Quoted(s), "\"", inner);
    AtChar(src, i, "\"", 0);
  }

  lemma LexQuoted(src: string, i: nat, s: string)
    requires At(src, i, Quoted(s))
    ensures Follows(Lex(src, i), [Str(s)], Lex(src, i + |Quoted(s)|))
  {
    QuotedParts(src, i, s);
    StringEndAt(src, i, i + 1, s, "");
    assert "" + s == s;
    ScanQuoted(src, i, s, i + |Quoted(s)|);
    LexFound(src, i, Str(s), i, i + |Quoted(s)|);
  }

  lemma ScanQuoted(src: string, i: nat, s: string, end: nat)
    requires i < |src| && src[i] == '"' && StringFrom(src, i, i + 1, "") == Closed(s, end)
    ensures Scan(src, i) == Found(Str(s), i, end)
  {
    assert SpaceEnd(src, i) == i;
  }

  lemma {:induction false} DigitsEndAt(src: string, i: nat, s: string)
    requires At(src, i, s) && forall k :: 0 <= k < |s| ==> IsDigit(s[k]) || s[k] == '.'
    requires i + |s| < |src| ==> !IsDigit(src[i + |s|]) && src[i + |s|] != '.'
    ensures DigitsEnd(src, i) == i + |s|
    decreases |s|
  {
    if s != "" {
      AtChar(src, i, s, 0);
      AtSplit(src, i, s[..1], s[1..]);
      assert s[..1] + s[1..] == s;
      DigitsEndAt(src, i + 1, s[1..]);
    }
  }

  lemma NumberEndAt(src: string, i: nat, s: string)
    requires At(src, i, s) && NumberShape(s)
    requires i + |s| < |src| ==> !IsDigit(src[i + |s|]) && src[i + |s|] != '.'
    ensures DigitsEnd(src, i + 1) == i + |s|
  {
    var tail := s[1..];
    assert s == s[..1] + tail;
    AtParts(src, i, s, s[..1], tail);
    DigitsEndAt(src, i + 1, tail);
  }

  lemma LexNumber(src: string, i: nat, s: string)
    requires At(src, i, s) && NumberShape(s)
    requires i + |s| < |src| ==> !IsDigit(src[i + |s|]) && src[i + |s|] != '.'
    ensures Follows(Lex(src, i), [Number(s)], Lex(src, i + |s|))
  {
    NumberEndAt(src, i, s);
    AtChar(src, i, s, 0);
    assert SpaceEnd(src, i) == i;
    AtSlice(src, i, s);
    LexFound(src, i, Number(s), i, i + |s|);
  }

  /** The text at `j` does not extend a piece that ends there. */
  predicate Detached(src: string, j: nat, p: Piece) {
    j < |src| ==> (p.Word? ==> !IsIdentPart(src[j])) && (p.Numeric? ==> !IsDigit(src[j]) && src[j] != '.')
  }

  lemma LexSymbol(src: string, i: nat, c: char)
    requires At(src, i, [c]) && PieceFine(Symbol(c))
    ensures Follows(Lex(src, i), PieceTokens(Symbol(c)), Lex(src, i + 1))
  {
    AtChar(src, i, [c], 0);
    assert SpaceEnd(src, i) == i;
    FollowsOne(Lex(src, i), PieceTokens(Symbol(c))[0], Lex(src, i + 1));
  }

  lemma LexGap(src: string, i: nat)
    requires At(src, i, " ")
    ensures Follows(Lex(src, i), [], Lex(src, i + 1))
  {
    AtChar(src, i, " ", 0);
    LexSpace(src, i);
  }

  /** A piece that nothing can extend. */
  lemma LexMark(src: string, i: nat, p: Piece)
    requires At(src, i, PieceText(p)) && PieceFine(p) && (p.Gap? || p.Symbol? || p.Text?)
    ensures Follows(Lex(src, i), PieceTokens(p), Lex(src, i + |PieceText(p)|))
  {
    match p {
      case Gap => LexGap(src, i);
      case Symbol(c) => LexSymbol(src, i, c);
      case Text(t) => LexQuoted(src, i, t);
    }
  }

  /** One piece, standing at `i` with nothing after it that would extend it. */
  lemma LexPiece(src: string, i: nat, p: Piece)
    requires At(src, i, PieceText(p)) && PieceFine(p)
    requires Detached(src, i + |PieceText(p)|, p)
    ensures Follows(Lex(src, i), PieceTokens(p), Lex(src, i + |PieceText(p)|))
  {
    if p.Word? {
      LexWord(src, i, p.word);
    } else if p.Numeric? {
      LexNumber(src, i, p.lexeme);
    } else {
      LexMark(src, i, p);
    }
  }

  lemma FineDetached(src: string, j: nat, p: Piece, q: Piece)
    requires At(src, j, PieceText(q)) && MayFollow(p, q) && PieceFine(q)
    ensures Detached(src, j, p)
  {
    if p.Word? || p.Numeric? {
      AtChar(src, j, PieceText(q), 0);
    }
  }

  lemma LexHead(src: string, i: nat, p: Piece, toks: seq<Token>)
    requires At(src, i, PieceText(p)) && PieceFine(p) && Detached(src, i + |PieceText(p)|, p)
    requires Follows(Lex(src, i + |PieceText(p)|), toks, End(|src|))
    ensures Follows(Lex(src, i), PieceTokens(p) + toks, End(|src|))
  {
    LexPiece(src, i, p);
    FollowsJoin(Lex(src, i), PieceTokens(p), Lex(src, i + |PieceText(p)|), toks, End(|src|));
  }

  lemma JoinedHead(src: string, i: nat, ps: seq<Piece>)
    requires ps != [] && At(src, i, Joined(ps))
    ensures At(src, i, PieceText(ps[0])) && At(src, i + |PieceText(ps[0])|, Joined(ps[1..]))
    ensures |Joined(ps)| == |PieceText(ps[0])| + |Joined(ps[1..])|
  {
    AtParts(src, i, Joined(ps), PieceText(ps[0]), Joined(ps[1..]));
  }

  lemma FineNext(ps: seq<Piece>)
    requires |ps| > 1 && Fine(ps)
    ensures MayFollow(ps[0], ps[1..][0]) && PieceFine(ps[1..][0])
  {
    assert ps[1..][0] == ps[1];
  }

  lemma HeadDetached(src: string, i: nat, ps: seq<Piece>)
    requires ps != [] && Fine(ps) && At(src, i, Joined(ps)) && i + |Joined(ps)| == |src|
    ensures Detached(src, i + |PieceText(ps[0])|, ps[0])
  {
    JoinedHead(src, i, ps);
    var j, rest := i + |PieceText(ps[0])|, ps[1..];
    if rest != [] {
      JoinedHead(src, j, rest);
      FineNext(ps);
      FineDetached(src, j, ps[0], rest[0]);
    }
  }

  lemma LexEnd(src: string)
    ensures Follows(Lex(src, |src|), [], End(|src|))
  {
  }

  lemma TokensCons(ps: seq<Piece>)
    requires ps != []
    ensures Tokens(ps) == PieceTokens(ps[0]) + Tokens(ps[1..])
  {
  }

  /** One piece more, before pieces that are read as their tokens. */
  lemma LexCons(src: string, i: nat, ps: seq<Piece>)
    requires ps != [] && At(src, i, Joined(ps)) && i + |Joined(ps)| == |src| && Fine(ps)
    requires Follows(Lex(src, i + |PieceText(ps[0])|), Tokens(ps[1..]), End(|src|))
    ensures Follows(Lex(src, i), Tokens(ps), End(|src|))
  {
    HeadDetached(src, i, ps);
    JoinedHead(src, i, ps);
    LexHead(src, i, ps[0], Tokens(ps[1..]));
    TokensCons(ps);
  }

  lemma {:induction false} LexPieces(src: string, i: nat, ps: seq<Piece>)
    requires At(src, i, Joined(ps)) && i + |Joined(ps)| == |src| && Fine(ps)
    ensures Follows(Lex(src, i), Tokens(ps), End(|src|))
    decreases ps
  {
    if ps == [] {
      LexEnd(src);
    } else {
      JoinedHead(src, i, ps);
      LexPieces(src, i + |PieceText(ps[0])|, ps[1..]);
      LexCons(src, i, ps);
    }
  }

  /* ----- the pieces of a filter carry the tokens of its tree ----- */

  lemma {:induction false} TokensJoin(xs: seq<Piece>, ys: seq<Piece>)
    ensures Tokens(xs + ys) == Tokens(xs) + Tokens(ys)
  {
    if xs == [] {
      assert xs + ys == ys;
    } else {
      assert (xs + ys)[1..] == xs[1..] + ys;
      TokensJoin(xs[1..], ys);
    }
  }

  lemma TokensOne(p: Piece)
    ensures Tokens([p]) == PieceTokens(p)
  {
    assert [p][1..] == [];
  }

  lemma TokensThree(p: Piece, q: Piece, r: Piece)
    ensures Tokens([p, q, r]) == PieceTokens(p) + PieceTokens(q) + PieceTokens(r)
  {
    assert [p, q, r][1..] == [q, r] && [q, r][1..] == [r];
    TokensOne(r);
  }

  lemma CompareIsKeyword(cop: CompareOp)
    ensures NameShape(CompareText(cop)) && Classify(CompareText(cop)) == Compare(cop)
  {
    KeywordRead(match cop case Eq => 3 case Ne => 4 case Co => 5 case Sw => 6 case Ew => 7);
  }

  lemma LogicIsKeyword(lop: LogicOp)
    ensures NameShape(LogicText(lop)) && Classify(LogicText(lop)) == Logic(lop)
  {
    KeywordRead(if lop.And? then 9 else 10);
  }

  lemma ValueTokens(v: Value, pf: FloatParser, fmt: FloatFormat)
    requires v.NumberValue? ==> PrintableNumber(v.number, pf, fmt)
    ensures PieceFine(ValuePiece(v, fmt))
    ensures PieceTokens(ValuePiece(v, fmt)) == [LiteralToken(LiteralOf(v, fmt))]
  {
    match v
    case BoolValue(b) => KeywordRead(if b then 0 else 1);
    case NullValue => KeywordRead(2);
    case _ =>
  }

  lemma TestTokens(op: Operator, v: Value, pf: FloatParser, fmt: FloatFormat)
    requires v.NumberValue? ==> PrintableNumber(v.number, pf, fmt)
    ensures Fine(TestPieces(op, v, fmt)) && Tokens(TestPieces(op, v, fmt)) == TestYield(TestOf(op, v, fmt))
  {
    match op {
      case Presence =>
        KeywordRead(8);
        TokensOne(Word("pr"));
      case Comparing(cop) =>
        CompareIsKeyword(cop);
        ValueTokens(v, pf, fmt);
        TokensThree(Word(CompareText(cop)), Gap, ValuePiece(v, fmt));
        FineThree(Word(CompareText(cop)), Gap, ValuePiece(v, fmt));
    }
  }

  lemma AttrTokens(attr: string)
    requires PrintableAttr(attr)
    ensures Fine(AttrPieces(attr))
    ensures Tokens(AttrPieces(attr)) == [Ident(NamePart(attr))] + SubYield(SubPart(attr))
  {
    match SubPart(attr) {
      case None =>
        assert NamePart(attr) == attr;
        TokensOne(Word(attr));
      case Some(s) =>
        TokensThree(Word(NamePart(attr)), Symbol('.'), Word(s));
        FineThree(Word(NamePart(attr)), Symbol('.'), Word(s));
    }
  }

  lemma {:induction false} FineJoin(xs: seq<Piece>, ys: seq<Piece>)
    requires Fine(xs) && Fine(ys)
    requires xs != [] && ys != [] ==> MayFollow(xs[|xs| - 1], ys[0])
    ensures Fine(xs + ys)
  {
    if xs == [] {
      assert xs + ys == ys;
    } else {
      FineJoin(xs[1..], ys);
      assert (xs + ys)[1..] == xs[1..] + ys;
    }
  }

  lemma FineThree(p: Piece, q: Piece, r: Piece)
    requires PieceFine(p) && PieceFine(q) && PieceFine(r) && MayFollow(p, q) && MayFollow(q, r)
    ensures Fine([p, q, r])
  {
    assert [p, q, r][1..] == [q, r] && [q, r][1..] == [r] && [r][1..] == [];
    assert Fine([r]);
    assert Fine([q, r]);
  }

  lemma {:induction false} PiecesFine(e: Expr, pf: FloatParser, fmt: FloatFormat)
    requires Printable(e) && NumbersPrintable(e, pf, fmt)
    ensures Fine(Pieces(e, fmt))
  {
    match e {
      case Atom(attr, op, v) =>
        AttrTokens(attr);
        TestTokens(op, v, pf, fmt);
        FineJoin(AttrPieces(attr), [Gap]);
        FineJoin(AttrPieces(attr) + [Gap], TestPieces(op, v, fmt));
      case Binary(lop, l, r) =>
        PiecesFine(l, pf, fmt);
        PiecesFine(r, pf, fmt);
        LogicIsKeyword(lop);
        var m := [Gap, Word(LogicText(lop)), Gap];
        FineThree(Gap, Word(LogicText(lop)), Gap);
        FineJoin([Symbol('(')], Pieces(l, fmt));
        FineJoin([Symbol('(')] + Pieces(l, fmt), m);
        FineJoin([Symbol('(')] + Pieces(l, fmt) + m, Pieces(r, fmt));
        FineJoin([Symbol('(')] + Pieces(l, fmt) + m + Pieces(r, fmt), [Symbol(')')]);
    }
  }

  lemma LogicTokens(lop: LogicOp)
    ensures Tokens([Gap, Word(LogicText(lop)), Gap]) == [Logic(lop)]
  {
    LogicIsKeyword(lop);
    TokensThree(Gap, Word(LogicText(lop)), Gap);
  }

  lemma FiveTokens(a: seq<Piece>, b: seq<Piece>, c: seq<Piece>, d: seq<Piece>, e: seq<Piece>)
    ensures Tokens(a + b + c + d + e) == Tokens(a) + Tokens(b) + Tokens(c) + Tokens(d) + Tokens(e)
  {
    TokensJoin(a, b);
    TokensJoin(a + b, c);
    TokensJoin(a + b + c, d);
    TokensJoin(a + b + c + d, e);
  }

  lemma Regroup(a: seq<Token>, b: seq<Token>, c: seq<Token>, d: seq<Token>, e: seq<Token>)
    ensures a + b + c + d + e == a + (b + c + d) + e
  {
  }

  lemma BinaryTokens(lop: LogicOp, pl: seq<Piece>, pr: seq<Piece>)
    ensures Tokens([Symbol('(')] + pl + [Gap, Word(LogicText(lop)), Gap] + pr + [Symbol(')')])
         == [LParen] + (Tokens(pl) + [Logic(lop)] + Tokens(pr)) + [RParen]
  {
    var open, close, m := [Symbol('(')], [Symbol(')')], [Gap, Word(LogicText(lop)), Gap];
    TokensOne(Symbol('('));
    TokensOne(Symbol(')'));
    LogicTokens(lop);
    FiveTokens(open, pl, m, pr, close);
    Regroup([LParen], Tokens(pl), [Logic(lop)], Tokens(pr), [RParen]);
  }

  lemma {:induction false} PiecesTokens(e: Expr, pf: FloatParser, fmt: FloatFormat)
    requires Printable(e) && NumbersPrintable(e, pf, fmt)
    ensures Tokens(Pieces(e, fmt)) == AtomYield(TreeOf(e, fmt))
  {
    match e {
      case Atom(attr, op, v) =>
        AttrTokens(attr);
        TestTokens(op, v, pf, fmt);
        TokensOne(Gap);
        TokensJoin(AttrPieces(attr), [Gap]);
        TokensJoin(AttrPieces(attr) + [Gap], TestPieces(op, v, fmt));
      case Binary(lop, l, r) =>
        PiecesTokens(l, pf, fmt);
        PiecesTokens(r, pf, fmt);
        BinaryTokens(lop, Pieces(l, fmt), Pieces(r, fmt));
        BinaryYield(lop, TreeOf(l, fmt), TreeOf(r, fmt));
    }
  }

  lemma BinaryYield(lop: LogicOp, tl: AtomTree, tr: AtomTree)
    ensures OrYield(BinaryTree(lop, tl, tr)) == AtomYield(tl) + [Logic(lop)] + AtomYield(tr)
  {
    assert AndYield(AndOne(tl)) == AtomYield(tl) && AndYield(AndOne(tr)) == AtomYield(tr);
    assert OrYield(OrOne(AndOne(tl))) == AtomYield(tl);
    assert AndYield(AndMore(AndOne(tl), tr)) == AtomYield(tl) + [Logic(And)] + AtomYield(tr);
  }

  lemma PrintTokens(e: Expr, pf: FloatParser, fmt: FloatFormat)
    requires Printable(e) && NumbersPrintable(e, pf, fmt)
    ensures Tokenises(Print(e, fmt), AtomYield(TreeOf(e, fmt)))
  {
    PiecesFine(e, pf, fmt);
    PiecesTokens(e, pf, fmt);
    LexAll(Print(e, fmt), Pieces(e, fmt), AtomYield(TreeOf(e, fmt)));
  }

  lemma LexAll(src: string, ps: seq<Piece>, toks: seq<Token>)
    requires src == Joined(ps) && Fine(ps) && toks == Tokens(ps)
    ensures Tokenises(src, toks)
  {
    assert src[0..|src|] == src;
    AtSlice(src, 0, src);
    LexPieces(src, 0, ps);
  }

  /** Printing a filter and parsing the text gives the filter back. */
  lemma ParseOfPrint(e: Expr, pf: FloatParser, fmt: FloatFormat)
    requires Printable(e) && NumbersPrintable(e, pf, fmt)
    ensures Parsing(Print(e, fmt), pf) == Ok(e)
  {
    var src := Print(e, fmt);
    var x := TreeOf(e, fmt);
    PrintTokens(e, pf, fmt);
    TreeMeaning(e, pf, fmt);
    var t := OrOne(AndOne(x));
    assert OrYield(t) == AndYield(AndOne(x)) == AtomYield(x);
    assert OrMeaning(t) == AndMeaning(AndOne(x)) == e;
    assert OrValid(t, pf) by { assert AndValid(AndOne(x), pf); }
    ScimParserProofs.ParseIffDerives(src, e, pf);
  }

  /* ----- every parsed filter can be printed ----- */

  /** An identifier has the shape of a name and is no keyword. */
  predicate TokenPlain(tok: Token) {
    tok.Ident? ==> NameShape(tok.name) && Classify(tok.name) == tok
  }

  predicate NamesPlain(toks: seq<Token>) {
    forall tok :: tok in toks ==> TokenPlain(tok)
  }

  lemma {:induction false} IdentEndShape(src: string, i: nat, k: nat)
    requires i <= |src| && i <= k < IdentEnd(src, i)
    ensures IsIdentPart(src[k])
    decreases |src| - i
  {
    if i < k {
      IdentEndShape(src, i + 1, k);
    }
  }

  lemma WordShape(src: string, p: nat)
    requires p < |src| && IsLetter(src[p])
    ensures NameShape(src[p..IdentEnd(src, p)])
  {
    var w := src[p..IdentEnd(src, p)];
    forall k | 0 <= k < |w|
      ensures IsIdentPart(w[k])
    {
      IdentEndShape(src, p, p + k);
    }
  }

  lemma WordPlain(word: string)
    requires NameShape(word)
    ensures TokenPlain(Classify(word))
  {
  }

  lemma ScanPlain(src: string, i: nat)
    requires i <= |src| && Scan(src, i).Found?
    ensures TokenPlain(Scan(src, i).tok)
  {
    var p := SpaceEnd(src, i);
    if IsLetter(src[p]) {
      WordShape(src, p);
      WordPlain(src[p..IdentEnd(src, p)]);
    }
  }

  lemma {:induction false} LexNamesPlain(src: string, i: nat, toks: seq<Token>, rest: Stream)
    requires i <= |src| && Follows(Lex(src, i), toks, rest)
    ensures NamesPlain(toks)
    decreases toks
  {
    if toks != [] {
      ScanPlain(src, i);
      LexNamesPlain(src, Scan(src, i).end, toks[1..], rest);
    }
  }

  lemma NamesPlainSplit(xs: seq<Token>, ys: seq<Token>)
    requires NamesPlain(xs + ys)
    ensures NamesPlain(xs) && NamesPlain(ys)
  {
    assert forall tok :: tok in xs || tok in ys ==> tok in xs + ys;
  }

  lemma LowerPlain(name: string)
    requires NameShape(name) && Classify(name) == Ident(name)
    ensures PlainName(Lower(name)) && '.' !in Lower(name)
  {
    var n := Lower(name);
    LowerIdempotent(name);
    assert forall k :: 0 <= k < |n| ==> n[k] == LowerChar(name[k]) && IsIdentPart(name[k]);
    assert Classify(n) == Ident(n);
  }

  lemma AttrPlain(name: string, sub: Option<string>)
    requires NameShape(name) && Classify(name) == Ident(name)
    requires sub.Some? ==> NameShape(sub.value) && Classify(sub.value) == Ident(sub.value)
    ensures PrintableAttr(AttrName(name, sub))
  {
    var a, n := AttrName(name, sub), Lower(name);
    LowerPlain(name);
    match sub {
      case None =>
        assert a[..|a|] == a;
      case Some(s) =>
        LowerPlain(s);
        assert a[|n|] == '.' && a[..|n|] == n && a[|n| + 1..] == Lower(s);
        assert forall k :: 0 <= k < |n| ==> a[k] == n[k];
        assert DotIndex(a) == |n|;
    }
  }

  lemma {:induction false} OrPrintable(t: OrTree)
    requires NamesPlain(OrYield(t))
    ensures Printable(OrMeaning(t))
  {
    match t {
      case OrOne(a) => AndPrintable(a);
      case OrMore(o, a) =>
        NamesPlainSplit(OrYield(o) + [Logic(Or)], AndYield(a));
        NamesPlainSplit(OrYield(o), [Logic(Or)]);
        OrPrintable(o);
        AndPrintable(a);
    }
  }

  lemma {:induction false} AndPrintable(t: AndTree)
    requires NamesPlain(AndYield(t))
    ensures Printable(AndMeaning(t))
  {
    match t {
      case AndOne(x) => AtomPrintable(x);
      case AndMore(a, x) =>
        NamesPlainSplit(AndYield(a) + [Logic(And)], AtomYield(x));
        NamesPlainSplit(AndYield(a), [Logic(And)]);
        AndPrintable(a);
        AtomPrintable(x);
    }
  }

  lemma {:induction false} AtomPrintable(t: AtomTree)
    requires NamesPlain(AtomYield(t))
    ensures Printable(AtomMeaning(t))
  {
    match t {
      case Paren(o) =>
        NamesPlainSplit([LParen] + OrYield(o), [RParen]);
        NamesPlainSplit([LParen], OrYield(o));
        OrPrintable(o);
      case Comparison(name, sub, test) =>
        var toks := AtomYield(t);
        assert toks[0] == Ident(name) && TokenPlain(toks[0]);
        if sub.Some? {
          assert toks[2] == Ident(sub.value) && TokenPlain(toks[2]);
        }
        AttrPlain(name, sub);
    }
  }

  /** Whatever text a filter was parsed from, its printed form parses to the
      same filter. */
  lemma PrintStable(src: string, e: Expr, pf: FloatParser, fmt: FloatFormat)
    requires Parsing(src, pf) == Ok(e) && NumbersPrintable(e, pf, fmt)
    ensures Parsing(Print(e, fmt), pf) == Ok(e)
  {
    ScimParserProofs.ParseIffDerives(src, e, pf);
    var t :| OrValid(t, pf) && OrMeaning(t) == e && Tokenises(src, OrYield(t));
    LexNamesPlain(src, 0, OrYield(t), End(|src|));
    OrPrintable(t);
    ParseOfPrint(e, pf, fmt);
  }
}
