/** SCIM PATCH paths: `attr[filter].sub`. The scanner that finds the closing
    bracket is separate from the filter lexer; the two must agree on quoting. */
module ScimPath {
  import opened Text
  import opened ScimLexer
  import opened ScimGrammar
  import opened ScimParser
  import ScimParserProofs

  /** A parsed path; an absent attribute or sub-attribute is the empty string. */
  datatype Path = Path(attr: string, sub: string, filter: Option<Expr>)

  datatype PathErrorKind =
    | MissingAttribute
    | UnterminatedFilter
    | InvalidFilter(cause: FilterError)
    | MissingSubAttribute
    | TrailingText

  datatype PathError = PathError(pos: nat, kind: PathErrorKind)

  const EmptyPath := Path("", "", None)

  predicate IsPathChar(c: char) {
    'a' <= c <= 'z' || 'A' <= c <= 'Z' || '0' <= c <= '9' || c == '_' || c == '-'
  }

  predicate IsPathName(s: string) {
    s != "" && forall k :: 0 <= k < |s| ==> IsPathChar(s[k])
  }

  /** The length of the longest prefix made of path characters. */
  function NameLength(s: string): (n: nat)
    ensures n <= |s|
  {
    if s != "" && IsPathChar(s[0]) then 1 + NameLength(s[1..]) else 0
  }

  /** The end of `s` without its trailing white space, but not before `lo`. */
  function TrimmedEnd(s: string, lo: nat): (hi: nat)
    requires lo <= |s|
    ensures lo <= hi <= |s|
    decreases |s|
  {
    if lo < |s| && IsSpace(s[|s| - 1]) then TrimmedEnd(s[..|s| - 1], lo) else |s|
  }

  function TrimSpace(s: string): string {
    var lo := SpaceEnd(s, 0);
    s[lo..TrimmedEnd(s, lo)]
  }

  /** The first index at or after `i` that holds `ch` outside a quoted string,
      when the scanner is inside a string at `i` just if `inStr`. */
  function UnquotedFrom(s: string, ch: char, i: nat, inStr: bool): (r: Option<nat>)
    ensures r.Some? ==> i <= r.value < |s| && s[r.value] == ch
    decreases |s| - i
  {
    if i >= |s| then None
    else if inStr then
      if s[i] == '\\' && i + 1 < |s| then UnquotedFrom(s, ch, i + 2, true)
      else UnquotedFrom(s, ch, i + 1, s[i] != '"')
    else if s[i] == '"' then UnquotedFrom(s, ch, i + 1, true)
    else if s[i] == ch then Some(i)
    else UnquotedFrom(s, ch, i + 1, false)
  }

  method IndexUnquoted(s: string, ch: char) returns (r: Option<nat>)
    ensures r == UnquotedFrom(s, ch, 0, false)
  {
    var inStr := false;
    var i := 0;
    while i < |s|
      invariant 0 <= i <= |s|
      invariant UnquotedFrom(s, ch, i, inStr) == UnquotedFrom(s, ch, 0, false)
    {
      var c := s[i];
      if inStr {
        if c == '\\' && i + 1 < |s| {
          i := i + 2;
          continue;
        }
        if c == '"' {
          inStr := false;
        }
        i := i + 1;
        continue;
      }
      if c == '"' {
        inStr := true;
        i := i + 1;
        continue;
      }
      if c == ch {
        return Some(i);
      }
      i := i + 1;
    }
    return None;
  }

  predicate Begins(s: string, c: char) {
    s != "" && s[0] == c
  }

  /** The part of a path after its attribute: an optional `.sub`, then nothing
      but white space. `consumed` is where that part starts. */
  function SubPath(attr: string, filter: Option<Expr>, rest: string, consumed: nat): Result<Path, PathError> {
    if !Begins(rest, '.') then
      if TrimSpace(rest) != "" then Err(PathError(consumed, TrailingText)) else Ok(Path(attr, "", filter))
    else
      var n := NameLength(rest[1..]);
      if n == 0 then Err(PathError(consumed + 1, MissingSubAttribute))
      else if TrimSpace(rest[1 + n..]) != "" then Err(PathError(consumed + 1 + n, TrailingText))
      else Ok(Path(attr, Lower(rest[1..1 + n]), filter))
  }

  /** A bracketed filter, and where its bracket closes. */
  function Bracket(tail: string, at: nat, pf: FloatParser): (r: Result<(Expr, nat), PathError>)
    requires Begins(tail, '[')
    ensures r.Ok? ==> r.value.1 < |tail|
  {
    match UnquotedFrom(tail, ']', 0, false)
    case None => Err(PathError(at, UnterminatedFilter))
    case Some(close) =>
      match Parsing(tail[1..close], pf)
      case Err(e) => Err(PathError(at + 1, InvalidFilter(e)))
      case Ok(filter) => Ok((filter, close))
  }

  /** The part of a path after its attribute, which ends at `consumed`: an
      optional bracketed filter, then the sub-attribute. */
  function FilterPath(attr: string, rest: string, consumed: nat, pf: FloatParser): Result<Path, PathError> {
    if !Begins(rest, '[') then SubPath(attr, None, rest, consumed)
    else
      match Bracket(rest, consumed, pf)
      case Err(e) => Err(e)
      case Ok((filter, close)) => SubPath(attr, Some(filter), rest[close + 1..], consumed + close + 1)
  }

  /** What `ParsePath` returns. */
  function PathOf(input: string, pf: FloatParser): Result<Path, PathError> {
    var s := TrimSpace(input);
    var n := NameLength(s);
    if s == "" then Ok(EmptyPath)
    else if n == 0 then Err(PathError(0, MissingAttribute))
    else FilterPath(Lower(s[..n]), s[n..], n, pf)
  }

  method CountName(s: string) returns (n: nat)
    ensures n == NameLength(s)
  {
    n := 0;
    while n < |s|
      invariant n <= |s| && n + NameLength(s[n..]) == NameLength(s)
    {
      assert s[n..][1..] == s[n + 1..];
      if !IsPathChar(s[n]) {
        break;
      }
      n := n + 1;
    }
  }

  /** The end of `ParsePath`: the sub-attribute and the trailing text. */
  method FinishPath(attr: string, filter: Option<Expr>, tail: string, at: nat) returns (r: Result<Path, PathError>)
    ensures r == SubPath(attr, filter, tail, at)
  {
    var out, rest, consumed := Path(attr, "", filter), tail, at;
    if Begins(rest, '.') {
      var sub := rest[1..];
      var end := CountName(sub);
      if end == 0 {
        return Err(PathError(consumed + 1, MissingSubAttribute));
      }
      out := out.(sub := Lower(sub[..end]));
      rest := sub[end..];
      consumed := consumed + 1 + end;
      assert sub[..end] == tail[1..1 + end] && rest == tail[1 + end..];
    }
    if TrimSpace(rest) != "" {
      return Err(PathError(consumed, TrailingText));
    }
    return Ok(out);
  }

  lemma PlainPath(attr: string, tail: string, at: nat, pf: FloatParser)
    requires !Begins(tail, '[')
    ensures FilterPath(attr, tail, at, pf) == SubPath(attr, None, tail, at)
  {
  }

  /** The bracketed filter at the start of `tail`. */
  method ReadFilter(tail: string, at: nat, pf: FloatParser) returns (r: Result<(Expr, nat), PathError>)
    requires Begins(tail, '[')
    ensures r == Bracket(tail, at, pf)
  {
    var closeIdx := IndexUnquoted(tail, ']');
    if closeIdx.None? {
      return Err(PathError(at, UnterminatedFilter));
    }
    var expr := Parse(tail[1..closeIdx.value], pf);
    if expr.Err? {
      return Err(PathError(at + 1, InvalidFilter(expr.error)));
    }
    r := Ok((expr.value, closeIdx.value));
  }

  /** The middle of `ParsePath`: the bracketed filter, then the rest. */
  method ContinuePath(attr: string, tail: string, at: nat, pf: FloatParser) returns (r: Result<Path, PathError>)
    ensures r == FilterPath(attr, tail, at, pf)
  {
    if !Begins(tail, '[') {
      PlainPath(attr, tail, at, pf);
      r := FinishPath(attr, None, tail, at);
      return;
    }
    var found := ReadFilter(tail, at, pf);
    if found.Err? {
      return Err(found.error);
    }
    var close := found.value.1;
    r := FinishPath(attr, Some(found.value.0), tail[close + 1..], at + close + 1);
  }

  method ParsePath(input: string, pf: FloatParser) returns (r: Result<Path, PathError>)
    ensures r == PathOf(input, pf)
  {
    var s := TrimSpace(input);
    if s == "" {
      return Ok(EmptyPath);
    }
    var attrEnd := CountName(s);
    if attrEnd == 0 {
      return Err(PathError(0, MissingAttribute));
    }
    r := ContinuePath(Lower(s[..attrEnd]), s[attrEnd..], attrEnd, pf);
  }

  /* ----- the bracket scanner agrees with the filter lexer ----- */

  /** `s` continues a bracket: `inner` stands at position 1 and is closed. */
  predicate Bracketed(s: string, inner: string) {
    At(s, 1, inner) && |inner| + 1 < |s| && s[|inner| + 1] == ']'
  }

  lemma {:induction false} SkipString(s: string, inner: string, start: nat, i: nat, acc: string)
    requires Bracketed(s, inner) && start < i <= |inner|
    requires StringFrom(inner, start, i, acc).Closed?
    ensures UnquotedFrom(s, ']', 1 + i, true) == UnquotedFrom(s, ']', 1 + StringFrom(inner, start, i, acc).end, false)
    decreases |inner| - i
  {
    AtChar(s, 1, inner, i);
    if inner[i] == '"' {
    } else if inner[i] != '\\' {
      SkipString(s, inner, start, i + 1, acc + [inner[i]]);
    } else {
      SkipString(s, inner, start, i + 2, acc + [Unescape(inner[i + 1]).value]);
    }
  }

  lemma {:induction false} SkipPlain(s: string, inner: string, i: nat, j: nat)
    requires Bracketed(s, inner) && i <= j <= |inner|
    requires forall k :: i <= k < j ==> inner[k] != '"' && inner[k] != ']'
    ensures UnquotedFrom(s, ']', 1 + i, false) == UnquotedFrom(s, ']', 1 + j, false)
    decreases j - i
  {
    if i < j {
      AtChar(s, 1, inner, i);
      SkipPlain(s, inner, i + 1, j);
    }
  }

  lemma {:induction false} SpacePlain(src: string, i: nat)
    requires i <= |src|
    ensures forall k :: i <= k < SpaceEnd(src, i) ==> src[k] != '"' && src[k] != ']'
    decreases |src| - i
  {
    if i < |src| && IsSpace(src[i]) {
      SpacePlain(src, i + 1);
    }
  }

  lemma {:induction false} IdentPlain(src: string, i: nat)
    requires i <= |src|
    ensures forall k :: i <= k < IdentEnd(src, i) ==> src[k] != '"' && src[k] != ']'
    decreases |src| - i
  {
    if i < |src| && IsIdentPart(src[i]) {
      IdentPlain(src, i + 1);
    }
  }

  lemma {:induction false} DigitsPlain(src: string, i: nat)
    requires i <= |src|
    ensures forall k :: i <= k < DigitsEnd(src, i) ==> src[k] != '"' && src[k] != ']'
    decreases |src| - i
  {
    if i < |src| && (IsDigit(src[i]) || src[i] == '.') {
      DigitsPlain(src, i + 1);
    }
  }

  lemma SkipToken(s: string, inner: string, i: nat)
    requires Bracketed(s, inner) && i <= |inner| && !Scan(inner, i).Bad?
    ensures UnquotedFrom(s, ']', 1 + i, false)
         == UnquotedFrom(s, ']', 1 + (if Scan(inner, i).Stop? then |inner| else Scan(inner, i).end), false)
  {
    var p := SpaceEnd(inner, i);
    SpacePlain(inner, i);
    SkipPlain(s, inner, i, p);
    match Scan(inner, i) {
      case Stop(_) =>
      case Found(tok, _, end) =>
        AtChar(s, 1, inner, p);
        if inner[p] == '"' {
          SkipString(s, inner, p, p + 1, "");
        } else {
          IdentPlain(inner, p);
          DigitsPlain(inner, if inner[p] == '-' then p + 1 else p);
          SkipPlain(s, inner, p, end);
        }
    }
  }

  lemma {:induction false} SkipTokens(s: string, inner: string, i: nat, toks: seq<Token>)
    requires Bracketed(s, inner) && i <= |inner|
    requires Follows(Lex(inner, i), toks, End(|inner|))
    ensures UnquotedFrom(s, ']', 1 + i, false) == Some(1 + |inner|)
    decreases toks
  {
    SkipToken(s, inner, i);
    if toks != [] {
      SkipTokens(s, inner, Scan(inner, i).end, toks[1..]);
    }
  }

  /** Whatever tokenises, the scanner finds the bracket right after it. */
  lemma ClosingBracket(s: string, inner: string, toks: seq<Token>)
    requires Bracketed(s, inner) && s[0] == '[' && Tokenises(inner, toks)
    ensures UnquotedFrom(s, ']', 0, false) == Some(1 + |inner|)
  {
    SkipTokens(s, inner, 0, toks);
  }

  lemma NameLengthOf(s: string, name: string, rest: string)
    requires s == name + rest && IsPathName(name)
    requires rest != "" ==> !IsPathChar(rest[0])
    ensures NameLength(s) == |name|
    decreases |name|
  {
    assert s[0] == name[0];
    if |name| > 1 {
      NameLengthOf(s[1..], name[1..], rest);
    } else {
      assert s[1..] == rest;
    }
  }

  lemma TrimNothing(s: string)
    requires s != "" && !IsSpace(s[0]) && !IsSpace(s[|s| - 1])
    ensures TrimSpace(s) == s
  {
    assert SpaceEnd(s, 0) == 0;
  }

  function SubText(b: Option<string>): string {
    match b
    case None => ""
    case Some(name) => "." + name
  }

  lemma SubPathOf(attr: string, filter: Option<Expr>, b: Option<string>, consumed: nat)
    requires b.Some? ==> IsPathName(b.value)
    ensures SubPath(attr, filter, SubText(b), consumed)
         == Ok(Path(attr, match b case None => "" case Some(name) => Lower(name), filter))
  {
    assert TrimSpace("") == "";
    match b {
      case None =>
      case Some(name) =>
        var rest := SubText(b);
        assert rest[1..] == name && name == name + "";
        NameLengthOf(name, name, "");
        assert rest[1..1 + |name|] == name && rest[1 + |name|..] == "";
    }
  }

  lemma FilterPathStep(attr: string, rest: string, close: nat, b: Option<string>, consumed: nat, e: Expr,
                       pf: FloatParser)
    requires b.Some? ==> IsPathName(b.value)
    requires Begins(rest, '[') && UnquotedFrom(rest, ']', 0, false) == Some(close) && 0 < close
    requires Parsing(rest[1..close], pf) == Ok(e) && rest[close + 1..] == SubText(b)
    ensures FilterPath(attr, rest, consumed, pf)
         == Ok(Path(attr, match b case None => "" case Some(name) => Lower(name), Some(e)))
  {
    SubPathOf(attr, Some(e), b, consumed + close + 1);
  }

  lemma BracketText(inner: string, tail: string)
    ensures var rest := "[" + inner + "]" + tail;
            && rest[1..1 + |inner|] == inner && rest[0] == '[' && rest[1 + |inner|] == ']'
            && Begins(rest, '[') && rest[1 + |inner| + 1..] == tail
  {
    var rest := "[" + inner + "]" + tail;
    assert rest[..1] == "[";
  }

  lemma FilterPathOf(attr: string, inner: string, b: Option<string>, consumed: nat, e: Expr, pf: FloatParser)
    requires b.Some? ==> IsPathName(b.value)
    requires Parsing(inner, pf) == Ok(e)
    ensures FilterPath(attr, "[" + inner + "]" + SubText(b), consumed, pf)
         == Ok(Path(attr, match b case None => "" case Some(name) => Lower(name), Some(e)))
  {
    var rest := "[" + inner + "]" + SubText(b);
    BracketText(inner, SubText(b));
    AtSlice(rest, 1, inner);
    BracketFound(rest, inner, e, pf);
    FilterPathStep(attr, rest, 1 + |inner|, b, consumed, e, pf);
  }

  lemma BracketFound(rest: string, inner: string, e: Expr, pf: FloatParser)
    requires Bracketed(rest, inner) && rest[0] == '[' && Parsing(inner, pf) == Ok(e)
    ensures UnquotedFrom(rest, ']', 0, false) == Some(1 + |inner|)
  {
    TokensOfParsed(inner, e, pf);
    var t :| OrValid(t, pf) && OrMeaning(t) == e && Tokenises(inner, OrYield(t));
    ClosingBracket(rest, inner, OrYield(t));
  }

  /** Any filter that parses can be put between brackets in a path, whatever its
      strings contain: the path parses to that very filter. */
  lemma PathCarriesFilter(a: string, inner: string, b: Option<string>, e: Expr, pf: FloatParser)
    requires IsPathName(a) && (b.Some? ==> IsPathName(b.value))
    requires Parsing(inner, pf) == Ok(e)
    ensures PathOf(a + ("[" + inner + "]" + SubText(b)), pf)
         == Ok(Path(Lower(a), match b case None => "" case Some(name) => Lower(name), Some(e)))
  {
    var rest := "[" + inner + "]" + SubText(b);
    var s := a + rest;
    assert s[0] == a[0] && s[|s| - 1] == if b.Some? then b.value[|b.value| - 1] else ']';
    TrimNothing(s);
    NameLengthOf(s, a, rest);
    assert s[..|a|] == a && s[|a|..] == rest;
    FilterPathOf(Lower(a), inner, b, |a|, e, pf);
  }

  lemma TokensOfParsed(inner: string, e: Expr, pf: FloatParser)
    requires Parsing(inner, pf) == Ok(e)
    ensures Derives(inner, e, pf)
  {
    ScimParserProofs.ParseIffDerives(inner, e, pf);
  }

  /** A path with neither bracket nor dot is the lower-cased attribute. */
  lemma PathOfName(a: string, pf: FloatParser)
    requires IsPathName(a)
    ensures PathOf(a, pf) == Ok(Path(Lower(a), "", None))
  {
    TrimNothing(a);
    NameLengthOf(a, a, "");
    assert a + "" == a && a[..|a|] == a && a[|a|..] == "";
    SubPathOf(Lower(a), None, None, |a|);
  }

  /** Only a blank path has the empty attribute. */
  lemma BlankPath(input: string, pf: FloatParser)
    requires PathOf(input, pf).Ok?
    ensures PathOf(input, pf).value.attr == "" <==> TrimSpace(input) == ""
    ensures TrimSpace(input) == "" ==> PathOf(input, pf).value == EmptyPath
  {
  }
}
