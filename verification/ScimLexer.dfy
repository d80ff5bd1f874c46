/** The lexer of SCIM filter expressions. `Lex` is the whole token stream of a
    text; the class `Lexer` reads that stream one token at a time. */
module ScimLexer {
  import opened Text

  datatype CompareOp = Eq | Ne | Co | Sw | Ew

  datatype LogicOp = And | Or

  datatype Token =
    | Eof
    | Ident(name: string)
    | Str(text: string)
    | Number(lexeme: string)
    | True
    | False
    | Null
    | LParen
    | RParen
    | Compare(cop: CompareOp)
    | Present
    | Logic(lop: LogicOp)
    | Dot

  datatype ErrorKind =
    | UnexpectedCharacter
    | UnterminatedEscape
    | InvalidEscape
    | UnterminatedString
    | InvalidNumber
    | TrailingTokens
    | ExpectedRParen
    | ExpectedAttribute
    | ExpectedSubAttribute
    | ExpectedOperator
    | ExpectedValue

  datatype FilterError = FilterError(pos: nat, kind: ErrorKind)

  /** What one step of the lexer finds: the end of the text, a token starting at
      `pos` and stopping before `end`, or an error. */
  datatype Step = Stop(pos: nat) | Found(tok: Token, pos: nat, end: nat) | Bad(err: FilterError)

  /** The tokens of a text with their positions, up to its end or to the first
      lexical error. */
  datatype Stream =
    | End(pos: nat)
    | Broken(err: FilterError)
    | Cons(tok: Token, pos: nat, tail: Stream)

  function SpaceEnd(src: string, i: nat): (j: nat)
    requires i <= |src|
    ensures i <= j <= |src|
    ensures j < |src| ==> !IsSpace(src[j])
    decreases |src| - i
  {
    if i < |src| && IsSpace(src[i]) then SpaceEnd(src, i + 1) else i
  }

  function IdentEnd(src: string, i: nat): (j: nat)
    requires i <= |src|
    ensures i <= j <= |src|
    decreases |src| - i
  {
    if i < |src| && IsIdentPart(src[i]) then IdentEnd(src, i + 1) else i
  }

  function DigitsEnd(src: string, i: nat): (j: nat)
    requires i <= |src|
    ensures i <= j <= |src|
    decreases |src| - i
  {
    if i < |src| && (IsDigit(src[i]) || src[i] == '.') then DigitsEnd(src, i + 1) else i
  }

  function Unescape(c: char): Option<char> {
    if c == '"' || c == '\\' || c == '/' then Some(c)
    else if c == 'b' then Some('\U{0008}')
    else if c == 'f' then Some('\U{000C}')
    else if c == 'n' then Some('\n')
    else if c == 'r' then Some('\r')
    else if c == 't' then Some('\t')
    else None
  }

  datatype StringScan = Closed(text: string, end: nat) | Unclosed(err: FilterError)

  /** Reads the rest of a string literal that opened at `start`, from position
      `i`, after the characters `acc`. */
  function StringFrom(src: string, start: nat, i: nat, acc: string): (r: StringScan)
    requires start < i <= |src|
    ensures r.Closed? ==> i < r.end <= |src|
    decreases |src| - i
  {
    if i == |src| then Unclosed(FilterError(start, UnterminatedString))
    else if src[i] == '"' then Closed(acc, i + 1)
    else if src[i] != '\\' then StringFrom(src, start, i + 1, acc + [src[i]])
    else if i + 1 == |src| then Unclosed(FilterError(i + 1, UnterminatedEscape))
    else match Unescape(src[i + 1])
      case None => Unclosed(FilterError(i + 1, InvalidEscape))
      case Some(c) => StringFrom(src, start, i + 2, acc + [c])
  }

  const KEYWORD_COUNT := 11

  function KeywordText(k: nat): string
    requires k < KEYWORD_COUNT
  {
    match k
    case 0 => "true"
    case 1 => "false"
    case 2 => "null"
    case 3 => "eq"
    case 4 => "ne"
    case 5 => "co"
    case 6 => "sw"
    case 7 => "ew"
    case 8 => "pr"
    case 9 => "and"
    case _ => "or"
  }

  function KeywordToken(k: nat): Token
    requires k < KEYWORD_COUNT
  {
    match k
    case 0 => True
    case 1 => False
    case 2 => Null
    case 3 => Compare(Eq)
    case 4 => Compare(Ne)
    case 5 => Compare(Co)
    case 6 => Compare(Sw)
    case 7 => Compare(Ew)
    case 8 => Present
    case 9 => Logic(And)
    case _ => Logic(Or)
  }

  /** The token of the first keyword from number `k` on that is spelt `word`. */
  function Keyword(word: string, k: nat): Option<Token>
    requires k <= KEYWORD_COUNT
    decreases KEYWORD_COUNT - k
  {
    if k == KEYWORD_COUNT then None
    else if KeywordText(k) == word then Some(KeywordToken(k))
    else Keyword(word, k + 1)
  }

  /** Keywords are recognised whatever their case. */
  function Classify(raw: string): Token {
    match Keyword(Lower(raw), 0)
    case None => Ident(raw)
    case Some(tok) => tok
  }

  lemma {:induction false} KeywordSkip(word: string, j: nat, k: nat)
    requires j <= k <= KEYWORD_COUNT
    requires forall i :: j <= i < k ==> KeywordText(i) != word
    ensures Keyword(word, j) == Keyword(word, k)
    decreases k - j
  {
    if j < k {
      KeywordSkip(word, j + 1, k);
    }
  }

  lemma KeywordsDiffer(j: nat, k: nat)
    requires j < k < KEYWORD_COUNT
    ensures KeywordText(j) != KeywordText(k)
  {
    var s, t := KeywordText(j), KeywordText(k);
    assert |s| != |t| || s[0] != t[0] || s[1] != t[1];
  }

  lemma KeywordRead(k: nat)
    requires k < KEYWORD_COUNT
    ensures Classify(KeywordText(k)) == KeywordToken(k)
  {
    forall i | 0 <= i < k
      ensures KeywordText(i) != KeywordText(k)
    {
      KeywordsDiffer(i, k);
    }
    KeywordSkip(KeywordText(k), 0, k);
    assert Lower(KeywordText(k)) == KeywordText(k);
  }

  function NumberEnd(src: string, i: nat): (j: nat)
    requires i < |src|
    ensures i <= j <= |src|
  {
    DigitsEnd(src, if src[i] == '-' then i + 1 else i)
  }

  function Scan(src: string, i: nat): (r: Step)
    requires i <= |src|
    ensures r.Stop? ==> r.pos == |src|
    ensures r.Found? ==> i <= r.pos < r.end <= |src| && !r.tok.Eof?
  {
    var p := SpaceEnd(src, i);
    if p == |src| then Stop(p)
    else if src[p] == '(' then Found(LParen, p, p + 1)
    else if src[p] == ')' then Found(RParen, p, p + 1)
    else if src[p] == '.' then Found(Dot, p, p + 1)
    else if src[p] == '"' then
      match StringFrom(src, p, p + 1, "")
      case Closed(text, end) => Found(Str(text), p, end)
      case Unclosed(err) => Bad(err)
    else if IsLetter(src[p]) then
      Found(Classify(src[p..IdentEnd(src, p)]), p, IdentEnd(src, p))
    else if IsDigit(src[p]) || src[p] == '-' then
      var e := NumberEnd(src, p);
      if e == p + 1 && src[p] == '-' then Bad(FilterError(p, InvalidNumber))
      else Found(Number(src[p..e]), p, e)
    else Bad(FilterError(p, UnexpectedCharacter))
  }

  /** The token stream of `src` from position `i`. */
  function Lex(src: string, i: nat): Stream
    requires i <= |src|
    decreases |src| - i
  {
    match Scan(src, i)
    case Stop(p) => End(p)
    case Bad(err) => Broken(err)
    case Found(tok, p, end) => Cons(tok, p, Lex(src, end))
  }

  /** Every position a stream mentions lies between `0` and `n`. */
  predicate Within(s: Stream, n: nat) {
    match s
    case End(p) => p <= n
    case Broken(err) => err.pos <= n
    case Cons(_, p, tail) => p <= n && Within(tail, n)
  }

  lemma {:induction false} StringErrorWithin(src: string, start: nat, i: nat, acc: string)
    requires start < i <= |src|
    ensures StringFrom(src, start, i, acc).Unclosed? ==> StringFrom(src, start, i, acc).err.pos <= |src|
    decreases |src| - i
  {
    if i == |src| || src[i] == '"' {
    } else if src[i] != '\\' {
      StringErrorWithin(src, start, i + 1, acc + [src[i]]);
    } else if i + 1 < |src| && Unescape(src[i + 1]).Some? {
      StringErrorWithin(src, start, i + 2, acc + [Unescape(src[i + 1]).value]);
    }
  }

  lemma {:induction false} LexWithin(src: string, i: nat)
    requires i <= |src|
    ensures Within(Lex(src, i), |src|)
    decreases |src| - i
  {
    match Scan(src, i) {
      case Stop(_) =>
      case Bad(_) =>
        var p := SpaceEnd(src, i);
        if src[p] == '"' {
          StringErrorWithin(src, p, p + 1, "");
        }
      case Found(_, _, end) => LexWithin(src, end);
    }
  }

  /** The lexer: `tok` is the current token, starting at `tokPos`, and `pos` is
      where the next one is looked for. */
  class Lexer {
    const src: string
    var pos: nat
    var tok: Token
    var tokPos: nat

    constructor (input: string)
      ensures src == input && pos == 0 && tok == Eof && tokPos == 0
    {
      src, pos, tok, tokPos := input, 0, Eof, 0;
    }

    ghost predicate Valid()
      reads this
    {
      pos <= |src|
    }

    /** The current token and all that follow it. */
    ghost function Rest(): Stream
      requires Valid()
      reads this
    {
      if tok.Eof? then End(tokPos) else Cons(tok, tokPos, Lex(src, pos))
    }

    method SkipSpace()
      requires Valid()
      modifies this`pos
      ensures Valid() && pos == SpaceEnd(src, old(pos))
    {
      while pos < |src| && IsSpace(src[pos])
        invariant pos <= |src|
        invariant SpaceEnd(src, pos) == SpaceEnd(src, old(pos))
      {
        pos := pos + 1;
      }
    }

    method ReadString() returns (r: Result<string, FilterError>)
      requires Valid() && pos < |src|
      modifies this`pos
      ensures Valid()
      ensures match StringFrom(src, old(pos), old(pos) + 1, "")
              case Closed(text, end) => r == Ok(text) && pos == end
              case Unclosed(err) => r == Err(err)
    {
      var start := pos;
      pos := pos + 1;
      var sb := "";
      while pos < |src|
        invariant start < pos <= |src|
        invariant StringFrom(src, start, pos, sb) == StringFrom(src, start, start + 1, "")
      {
        var c := src[pos];
        if c == '"' {
          pos := pos + 1;
          return Ok(sb);
        }
        if c == '\\' {
          pos := pos + 1;
          if pos >= |src| {
            return Err(FilterError(pos, UnterminatedEscape));
          }
          var esc := Unescape(src[pos]);
          if esc.None? {
            return Err(FilterError(pos, InvalidEscape));
          }
          sb := sb + [esc.value];
          pos := pos + 1;
          continue;
        }
        sb := sb + [c];
        pos := pos + 1;
      }
      return Err(FilterError(start, UnterminatedString));
    }

    method ReadNumber() returns (r: Result<string, FilterError>)
      requires Valid() && pos < |src|
      modifies this`pos
      ensures Valid() && pos == NumberEnd(src, old(pos))
      ensures r == if pos == old(pos) || (pos == old(pos) + 1 && src[old(pos)] == '-')
                   then Err(FilterError(old(pos), InvalidNumber))
                   else Ok(src[old(pos)..pos])
    {
      var start := pos;
      if src[pos] == '-' {
        pos := pos + 1;
      }
      while pos < |src| && (IsDigit(src[pos]) || src[pos] == '.')
        invariant start <= pos <= |src|
        invariant DigitsEnd(src, pos) == NumberEnd(src, start)
      {
        pos := pos + 1;
      }
      if pos == start || (pos == start + 1 && src[start] == '-') {
        return Err(FilterError(start, InvalidNumber));
      }
      return Ok(src[start..pos]);
    }

    method ReadIdentOrKeyword() returns (t: Token)
      requires Valid()
      modifies this`pos
      ensures Valid() && pos == IdentEnd(src, old(pos))
      ensures t == Classify(src[old(pos)..pos])
    {
      var start := pos;
      while pos < |src| && (IsLetter(src[pos]) || IsDigit(src[pos]) || src[pos] == '_')
        invariant start <= pos <= |src|
        invariant IdentEnd(src, pos) == IdentEnd(src, start)
      {
        pos := pos + 1;
      }
      t := Classify(src[start..pos]);
    }

    /** Advances to the next token. */
    method Next() returns (err: Option<FilterError>)
      requires Valid()
      modifies this
      ensures Valid()
      ensures match Lex(src, old(pos))
              case Broken(e) => err == Some(e)
              case s => err == None && Rest() == s
    {
      SkipSpace();
      tokPos := pos;
      if pos >= |src| {
        tok := Eof;
        return None;
      }
      var c := src[pos];
      if c == '(' {
        tok := LParen;
        pos := pos + 1;
      } else if c == ')' {
        tok := RParen;
        pos := pos + 1;
      } else if c == '.' {
        tok := Dot;
        pos := pos + 1;
      } else if c == '"' {
        var s := ReadString();
        if s.Err? {
          return Some(s.error);
        }
        tok := Str(s.value);
      } else if IsLetter(c) {
        tok := ReadIdentOrKeyword();
      } else if IsDigit(c) || c == '-' {
        var s := ReadNumber();
        if s.Err? {
          return Some(s.error);
        }
        tok := Number(s.value);
      } else {
        return Some(FilterError(pos, UnexpectedCharacter));
      }
      return None;
    }
  }
}
