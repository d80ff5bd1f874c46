/** Which string literals the lexer reads, and where it stops on the others. */
module ScimStrings {
  import opened Text
  import opened ScimLexer

  /** One character of a literal as it is spelled: itself, or after a backslash. */
  datatype Spelled = Itself(c: char) | Escaped(c: char)

  /** What stands for a character after a backslash: itself, or a control character by
      its code point. */
  function Meaning(c: char): Option<char> {
    match c
    case '"' => Some('"')
    case '\\' => Some('\\')
    case '/' => Some('/')
    case 'b' => Some(8 as char)
    case 't' => Some(9 as char)
    case 'n' => Some(10 as char)
    case 'f' => Some(12 as char)
    case 'r' => Some(13 as char)
    case _ => None
  }

  predicate SpelledOk(u: Spelled) {
    match u
    case Itself(c) => c != '"' && c != '\\'
    case Escaped(c) => Meaning(c).Some?
  }

  function SpelledText(u: Spelled): string {
    match u
    case Itself(c) => [c]
    case Escaped(c) => ['\\', c]
  }

  function SpelledValue(u: Spelled): char
    requires SpelledOk(u)
  {
    match u
    case Itself(c) => c
    case Escaped(c) => Meaning(c).value
  }

  /** The text between the quotes of a literal. */
  predicate BodyOk(us: seq<Spelled>) {
    us != [] ==> SpelledOk(us[0]) && BodyOk(us[1..])
  }

  function BodyText(us: seq<Spelled>): string {
    if us == [] then "" else SpelledText(us[0]) + BodyText(us[1..])
  }

  function BodyValue(us: seq<Spelled>): string
    requires BodyOk(us)
  {
    if us == [] then "" else [SpelledValue(us[0])] + BodyValue(us[1..])
  }

  /** How reading ends at `j`: with the closing quote, or with an error. */
  predicate EndsAt(src: string, start: nat, j: nat, text: string, r: StringScan)
    requires j <= |src|
  {
    if j == |src| then r == Unclosed(FilterError(start, UnterminatedString))
    else if src[j] == '"' then r == Closed(text, j + 1)
    else if src[j] != '\\' then false
    else if j + 1 == |src| then r == Unclosed(FilterError(j + 1, UnterminatedEscape))
    else Meaning(src[j + 1]).None? && r == Unclosed(FilterError(j + 1, InvalidEscape))
  }

  /** The body stands at `i`, and reading ends after it. */
  ghost predicate ReadsAs(src: string, start: nat, i: nat, acc: string, us: seq<Spelled>, r: StringScan) {
    BodyOk(us) && At(src, i, BodyText(us)) && EndsAt(src, start, i + |BodyText(us)|, acc + BodyValue(us), r)
  }

  lemma ReadsMore(src: string, start: nat, i: nat, acc: string, u: Spelled, us: seq<Spelled>, r: StringScan)
    requires SpelledOk(u) && i <= |src|
    ensures ReadsAs(src, start, i, acc, [u] + us, r) <==>
            At(src, i, SpelledText(u)) && ReadsAs(src, start, i + |SpelledText(u)|, acc + [SpelledValue(u)], us, r)
  {
    var vs := [u] + us;
    assert vs[1..] == us && BodyText(vs) == SpelledText(u) + BodyText(us);
    AtSplit(src, i, SpelledText(u), BodyText(us));
    if BodyOk(us) {
      assert acc + BodyValue(vs) == acc + [SpelledValue(u)] + BodyValue(us);
    }
  }

  /** What stands at `i`: one more spelled character, or the end. */
  function FirstSpelled(src: string, i: nat): Option<Spelled> {
    if i >= |src| || src[i] == '"' then None
    else if src[i] != '\\' then Some(Itself(src[i]))
    else if i + 1 < |src| && Meaning(src[i + 1]).Some? then Some(Escaped(src[i + 1]))
    else None
  }

  lemma FirstIs(src: string, i: nat, u: Spelled)
    requires SpelledOk(u)
    ensures At(src, i, SpelledText(u)) <==> FirstSpelled(src, i) == Some(u)
  {
    AtSlice(src, i, SpelledText(u));
    if u.Escaped? {
      assert i + 2 <= |src| ==> src[i..i + 2] == [src[i], src[i + 1]];
    } else {
      assert i + 1 <= |src| ==> src[i..i + 1] == [src[i]];
    }
  }

  lemma NoneReads(src: string, start: nat, i: nat, acc: string, r: StringScan)
    requires start < i <= |src|
    ensures ReadsAs(src, start, i, acc, [], r) <==> FirstSpelled(src, i).None? && r == StringFrom(src, start, i, acc)
  {
    assert acc + [] == acc;
  }

  lemma {:induction false} ReadingHasBody(src: string, start: nat, i: nat, acc: string) returns (us: seq<Spelled>)
    requires start < i <= |src|
    ensures ReadsAs(src, start, i, acc, us, StringFrom(src, start, i, acc))
    decreases |src| - i
  {
    var r := StringFrom(src, start, i, acc);
    match FirstSpelled(src, i) {
      case None =>
        us := [];
        NoneReads(src, start, i, acc, r);
      case Some(u) =>
        FirstIs(src, i, u);
        var rest := ReadingHasBody(src, start, i + |SpelledText(u)|, acc + [SpelledValue(u)]);
        us := [u] + rest;
        ReadsMore(src, start, i, acc, u, rest, r);
    }
  }

  lemma {:induction false} BodyIsRead(src: string, start: nat, i: nat, acc: string, us: seq<Spelled>, r: StringScan)
    requires start < i <= |src| && ReadsAs(src, start, i, acc, us, r)
    ensures r == StringFrom(src, start, i, acc)
    decreases |us|
  {
    if us == [] {
      NoneReads(src, start, i, acc, r);
    } else {
      var u, rest := us[0], us[1..];
      assert us == [u] + rest;
      ReadsMore(src, start, i, acc, u, rest, r);
      FirstIs(src, i, u);
      BodyIsRead(src, start, i + |SpelledText(u)|, acc + [SpelledValue(u)], rest, r);
    }
  }

  /** Exactly which literals are read, with which value, and where which error is
      reported: after plain characters and the eight escapes comes the quote, the end of
      the text, or a backslash that begins no escape. */
  lemma LiteralExactly(src: string, start: nat, i: nat, acc: string, r: StringScan)
    requires start < i <= |src|
    ensures StringFrom(src, start, i, acc) == r <==> exists us :: ReadsAs(src, start, i, acc, us, r)
  {
    var us := ReadingHasBody(src, start, i, acc);
    if vs :| ReadsAs(src, start, i, acc, vs, r) {
      BodyIsRead(src, start, i, acc, vs, r);
    }
  }

  /** In particular every literal with the escape of a code point is rejected at that
      escape. */
  lemma CodePointsRejected(us: seq<Spelled>, rest: string)
    requires BodyOk(us)
    ensures StringFrom("\"" + (BodyText(us) + ("\\u" + rest)), 0, 1, "")
            == Unclosed(FilterError(|BodyText(us)| + 2, InvalidEscape))
  {
    var tail := "\\u" + rest;
    var src := "\"" + (BodyText(us) + tail);
    var r := Unclosed(FilterError(|BodyText(us)| + 2, InvalidEscape));
    AtSlice(src, 1, BodyText(us) + tail);
    assert src[1..] == BodyText(us) + tail;
    AtSplit(src, 1, BodyText(us), tail);
    AtChar(src, 1 + |BodyText(us)|, tail, 0);
    AtChar(src, 1 + |BodyText(us)|, tail, 1);
    BodyIsRead(src, 0, 1, "", us, r);
  }

  /** Such a literal. */
  lemma CodePointRejected()
    ensures StringFrom("\"\\u0041\"", 0, 1, "") == Unclosed(FilterError(2, InvalidEscape))
  {
    CodePointsRejected([], "0041\"");
    assert "\"" + (BodyText([]) + ("\\u" + "0041\"")) == "\"\\u0041\"";
  }
}
