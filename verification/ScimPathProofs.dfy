/** Exactly which texts are PATCH paths, and which path each of them is. */
module ScimPathProofs {
  import opened Text
  import opened ScimLexer
  import opened ScimGrammar
  import opened ScimParser
  import opened ScimPath

  /* ----- trimming ----- */

  predicate Blank(s: string) {
    forall k :: 0 <= k < |s| ==> IsSpace(s[k])
  }

  /** No white space at either end. */
  predicate Trimmed(s: string) {
    s != "" ==> !IsSpace(s[0]) && !IsSpace(s[|s| - 1])
  }

  lemma {:induction false} SpaceEndBlank(s: string, i: nat)
    requires i <= |s|
    ensures Blank(s[i..SpaceEnd(s, i)])
    decreases |s| - i
  {
    if i < |s| && IsSpace(s[i]) {
      SpaceEndBlank(s, i + 1);
      assert s[i..SpaceEnd(s, i)] == [s[i]] + s[i + 1..SpaceEnd(s, i)];
    }
  }

  lemma {:induction false} TrimmedEndBlank(s: string, lo: nat)
    requires lo <= |s|
    ensures var hi := TrimmedEnd(s, lo); Blank(s[hi..]) && (lo < hi ==> !IsSpace(s[hi - 1]))
    decreases |s|
  {
    if lo < |s| && IsSpace(s[|s| - 1]) {
      var t := s[..|s| - 1];
      TrimmedEndBlank(t, lo);
      var hi := TrimmedEnd(s, lo);
      assert s[hi..] == t[hi..] + [s[|s| - 1]];
    }
  }

  lemma ThreeParts(s: string, lo: nat, hi: nat)
    requires lo <= hi <= |s|
    ensures s == s[0..lo] + s[lo..hi] + s[hi..]
  {
  }

  lemma TrimmedSlice(s: string, lo: nat, hi: nat)
    requires lo <= hi <= |s| && (lo < hi ==> !IsSpace(s[lo]) && !IsSpace(s[hi - 1]))
    ensures Trimmed(s[lo..hi])
  {
  }

  lemma TrimParts(input: string) returns (l: string, r: string)
    ensures Blank(l) && Blank(r) && input == l + TrimSpace(input) + r && Trimmed(TrimSpace(input))
  {
    var lo := SpaceEnd(input, 0);
    var hi := TrimmedEnd(input, lo);
    SpaceEndBlank(input, 0);
    TrimmedEndBlank(input, lo);
    l, r := input[0..lo], input[hi..];
    ThreeParts(input, lo, hi);
    TrimmedSlice(input, lo, hi);
  }

  /** A text without the white space around it. */
  lemma TrimExactly(input: string)
    ensures exists l, r :: Blank(l) && Blank(r) && input == l + TrimSpace(input) + r
    ensures Trimmed(TrimSpace(input))
  {
    var l, r := TrimParts(input);
  }

  lemma TrimsToNothing(s: string)
    ensures TrimSpace(s) == "" <==> Blank(s)
  {
    TrimExactly(s);
    if TrimSpace(s) == "" {
      var l, r :| Blank(l) && Blank(r) && s == l + TrimSpace(s) + r;
      assert s == l + r;
    } else {
      var lo := SpaceEnd(s, 0);
      assert TrimSpace(s)[0] == s[lo];
    }
  }

  /** The end of a trimmed text is blank only if it is empty. */
  lemma BlankEnd(s: string, n: nat)
    requires Trimmed(s) && n <= |s|
    ensures TrimSpace(s[n..]) == "" <==> n == |s|
  {
    TrimsToNothing(s[n..]);
    if n < |s| {
      assert s[n..][|s| - n - 1] == s[|s| - 1];
    }
  }

  /* ----- the grammar of paths ----- */

  function BracketOf(inner: Option<string>): string {
    if inner.None? then "" else "[" + inner.value + "]"
  }

  function LowerOr(b: Option<string>): string {
    if b.None? then "" else Lower(b.value)
  }

  /** ASCII letters, digits, underscores and hyphens, and at least one. */
  predicate IsName(s: string) {
    s != "" && forall k :: 0 <= k < |s| ==>
      'a' <= s[k] <= 'z' || 'A' <= s[k] <= 'Z' || '0' <= s[k] <= '9' || s[k] == '_' || s[k] == '-'
  }

  lemma NamesAre(s: string)
    ensures IsName(s) <==> IsPathName(s)
  {
  }

  function DotOf(b: Option<string>): string {
    if b.None? then "" else "." + b.value
  }

  /** An attribute, a bracketed filter or none, and a sub-attribute or none. */
  predicate Composed(s: string, a: string, inner: Option<string>, b: Option<string>) {
    IsName(a) && (b.Some? ==> IsName(b.value)) && s == a + (BracketOf(inner) + DotOf(b))
  }

  /** What such a text denotes, if its filter is one. */
  predicate PathIs(p: Path, a: string, inner: Option<string>, b: Option<string>, pf: FloatParser) {
    && p.attr == Lower(a) && p.sub == LowerOr(b)
    && (if inner.None? then p.filter.None? else p.filter.Some? && Parsing(inner.value, pf) == Ok(p.filter.value))
  }

  /** `input` is, up to white space around it, nothing or such a text. */
  ghost predicate Denotes(input: string, p: Path, pf: FloatParser) {
    var s := TrimSpace(input);
    || (s == "" && p == Path("", "", None))
    || exists a, inner, b :: Composed(s, a, inner, b) && PathIs(p, a, inner, b, pf)
  }

  lemma {:induction false} NameAtFront(s: string)
    ensures forall k :: 0 <= k < NameLength(s) ==> IsPathChar(s[k])
  {
    if s != "" && IsPathChar(s[0]) {
      NameAtFront(s[1..]);
      forall k | 0 <= k < NameLength(s)
        ensures IsPathChar(s[k])
      {
        assert k > 0 ==> s[k] == s[1..][k - 1];
      }
    }
  }

  /** The last character of a text after a name. */
  lemma LastChar(a: string, rest: string)
    requires a != ""
    ensures (a + rest)[0] == a[0]
    ensures (a + rest)[|a + rest| - 1] == if rest == "" then a[|a| - 1] else rest[|rest| - 1]
  {
  }

  lemma LastOfRest(inner: Option<string>, b: Option<string>)
    requires b.Some? ==> b.value != ""
    ensures var rest := BracketOf(inner) + DotOf(b);
            && (rest == "" <==> inner.None? && b.None?)
            && (rest != "" ==> rest[|rest| - 1] == if b.Some? then b.value[|b.value| - 1] else ']')
  {
  }

  lemma ComposedTrimmed(s: string, a: string, inner: Option<string>, b: Option<string>)
    requires Composed(s, a, inner, b)
    ensures TrimSpace(s) == s && s != ""
  {
    LastChar(a, BracketOf(inner) + DotOf(b));
    LastOfRest(inner, b);
    TrimNothing(s);
  }

  lemma PlainIsRead(s: string, p: Path, a: string, b: Option<string>, pf: FloatParser)
    requires IsPathName(a) && (b.Some? ==> IsPathName(b.value)) && s == a + SubText(b) && TrimSpace(s) == s
    requires p == Path(Lower(a), LowerOr(b), None)
    ensures PathOf(s, pf) == Ok(p)
  {
    NameLengthOf(s, a, SubText(b));
    assert s[..|a|] == a && s[|a|..] == SubText(b);
    SubPathOf(Lower(a), None, b, |a|);
    PlainPath(Lower(a), SubText(b), |a|, pf);
  }

  lemma DotIs(b: Option<string>)
    ensures DotOf(b) == SubText(b)
  {
  }

  lemma NoBracket(b: Option<string>)
    ensures BracketOf(None) + DotOf(b) == DotOf(b)
  {
  }

  /** Such a text is read as what it denotes. */
  lemma DenotedIsRead(s: string, p: Path, a: string, inner: Option<string>, b: Option<string>, pf: FloatParser)
    requires Composed(s, a, inner, b) && PathIs(p, a, inner, b, pf)
    ensures PathOf(s, pf) == Ok(p)
  {
    ComposedTrimmed(s, a, inner, b);
    NamesAre(a);
    if b.Some? {
      NamesAre(b.value);
    }
    DotIs(b);
    if inner.Some? {
      PathCarriesFilter(a, inner.value, b, p.filter.value, pf);
    } else {
      NoBracket(b);
      PlainIsRead(s, p, a, b, pf);
    }
  }

  /** What the end of a path was composed from. */
  lemma SubPathParts(s: string, n: nat, attr: string, filter: Option<Expr>, at: nat) returns (b: Option<string>)
    requires Trimmed(s) && n <= |s| && SubPath(attr, filter, s[n..], at).Ok?
    ensures s[n..] == SubText(b) && (b.Some? ==> IsPathName(b.value))
    ensures SubPath(attr, filter, s[n..], at).value == Path(attr, LowerOr(b), filter)
  {
    var rest := s[n..];
    if !Begins(rest, '.') {
      BlankEnd(s, n);
      b := None;
    } else {
      var sub := rest[1..];
      var m := NameLength(sub);
      NameAtFront(sub);
      b := Some(sub[..m]);
      assert rest[1 + m..] == s[n + 1 + m..];
      BlankEnd(s, n + 1 + m);
      assert rest == "." + sub[..m];
      assert rest[1..1 + m] == sub[..m];
    }
  }

  lemma BracketSplit(s: string, n: nat, k: nat, inner: string, end: nat)
    requires n <= |s| && 0 < k < |s[n..]| && s[n..][0] == '[' && s[n..][k] == ']'
    requires inner == s[n..][1..k] && end == n + k + 1
    ensures s[n..] == BracketOf(Some(inner)) + s[end..] && s[n..][k + 1..] == s[end..]
  {
    assert inner == s[n + 1..n + k];
  }

  lemma FilterPathIs(attr: string, rest: string, at: nat, close: nat, e: Expr, tail: string, end: nat, pf: FloatParser)
    requires Begins(rest, '[') && UnquotedFrom(rest, ']', 0, false) == Some(close) && 0 < close
    requires Parsing(rest[1..close], pf) == Ok(e) && tail == rest[close + 1..] && end == at + close + 1
    ensures FilterPath(attr, rest, at, pf) == SubPath(attr, Some(e), tail, end)
  {
  }

  /** Where a bracket that is read closes, and its filter. */
  lemma BracketCloses(attr: string, rest: string, at: nat, pf: FloatParser) returns (close: nat, e: Expr)
    requires Begins(rest, '[') && FilterPath(attr, rest, at, pf).Ok?
    ensures 0 < close < |rest| && rest[close] == ']' && UnquotedFrom(rest, ']', 0, false) == Some(close)
    ensures Parsing(rest[1..close], pf) == Ok(e)
  {
    close := UnquotedFrom(rest, ']', 0, false).value;
    e := Parsing(rest[1..close], pf).value;
  }

  lemma BracketParts(attr: string, s: string, n: nat, pf: FloatParser) returns (inner: string, e: Expr, end: nat)
    requires n <= |s| && Begins(s[n..], '[') && FilterPath(attr, s[n..], n, pf).Ok?
    ensures n < end <= |s| && s[n..] == BracketOf(Some(inner)) + s[end..] && Parsing(inner, pf) == Ok(e)
    ensures FilterPath(attr, s[n..], n, pf) == SubPath(attr, Some(e), s[end..], end)
  {
    var close;
    close, e := BracketCloses(attr, s[n..], n, pf);
    inner := s[n..][1..close];
    end := n + close + 1;
    BracketSplit(s, n, close, inner, end);
    FilterPathIs(attr, s[n..], n, close, e, s[end..], end, pf);
  }

  lemma ComposedOf(a: string, rest: string, p: Path, inner: Option<string>, b: Option<string>, pf: FloatParser)
    requires IsPathName(a) && (b.Some? ==> IsPathName(b.value)) && PathIs(p, a, inner, b, pf)
    requires rest == BracketOf(inner) + DotOf(b)
    ensures Composed(a + rest, a, inner, b)
  {
    NamesAre(a);
    if b.Some? {
      NamesAre(b.value);
    }
  }

  lemma SplitAt(s: string, n: nat)
    requires n <= |s|
    ensures s == s[..n] + s[n..]
  {
  }

  lemma FilteredIsDenoted(s: string, p: Path, n: nat, pf: FloatParser) returns (i: string, b: Option<string>)
    requires Trimmed(s) && n <= |s| && IsPathName(s[..n]) && Begins(s[n..], '[')
    requires FilterPath(Lower(s[..n]), s[n..], n, pf) == Ok(p)
    ensures Composed(s, s[..n], Some(i), b) && PathIs(p, s[..n], Some(i), b, pf)
  {
    var e, end;
    i, e, end := BracketParts(Lower(s[..n]), s, n, pf);
    b := SubPathParts(s, end, Lower(s[..n]), Some(e), end);
    DotIs(b);
    SplitAt(s, n);
    ComposedOf(s[..n], s[n..], p, Some(i), b, pf);
  }

  lemma PlainIsDenoted(s: string, p: Path, n: nat, pf: FloatParser) returns (b: Option<string>)
    requires Trimmed(s) && n <= |s| && IsPathName(s[..n]) && !Begins(s[n..], '[')
    requires FilterPath(Lower(s[..n]), s[n..], n, pf) == Ok(p)
    ensures Composed(s, s[..n], None, b) && PathIs(p, s[..n], None, b, pf)
  {
    b := SubPathParts(s, n, Lower(s[..n]), None, n);
    DotIs(b);
    NoBracket(b);
    SplitAt(s, n);
    ComposedOf(s[..n], s[n..], p, None, b, pf);
  }

  lemma ReadIsDenoted(input: string, p: Path, pf: FloatParser)
    requires PathOf(input, pf) == Ok(p)
    ensures Denotes(input, p, pf)
  {
    var s := TrimSpace(input);
    TrimExactly(input);
    if s != "" {
      var n := NameLength(s);
      NameAtFront(s);
      if Begins(s[n..], '[') {
        var i, b := FilteredIsDenoted(s, p, n, pf);
      } else {
        var b := PlainIsDenoted(s, p, n, pf);
      }
    }
  }

  /** Exactly the texts composed from an attribute, a filter that parses and a
      sub-attribute are paths, and each is what it is composed from. */
  lemma PathExactly(input: string, p: Path, pf: FloatParser)
    ensures PathOf(input, pf) == Ok(p) <==> Denotes(input, p, pf)
  {
    if PathOf(input, pf) == Ok(p) {
      ReadIsDenoted(input, p, pf);
    }
    if Denotes(input, p, pf) && TrimSpace(input) != "" {
      var s := TrimSpace(input);
      var a, inner, b :| Composed(s, a, inner, b) && PathIs(p, a, inner, b, pf);
      ComposedTrimmed(s, a, inner, b);
      DenotedIsRead(s, p, a, inner, b, pf);
    }
  }
}
