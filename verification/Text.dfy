/** Strings as the Go sources use them: sequences of code points, ASCII case
    folding, Unicode white space, and decimal numerals. */
module Text {
  datatype Option<+T> = None | Some(value: T)

  datatype Result<+T, +E> = Ok(value: T) | Err(error: E)

  /** Letters that may start an identifier; the underscore counts as one. */
  predicate IsLetter(c: char) {
    'a' <= c <= 'z' || 'A' <= c <= 'Z' || c == '_'
  }

  predicate IsDigit(c: char) {
    '0' <= c <= '9'
  }

  predicate IsIdentPart(c: char) {
    IsLetter(c) || IsDigit(c)
  }

  /** The code points with the Unicode White_Space property. */
  predicate IsSpace(c: char) {
    || '\t' <= c <= '\r'
    || c == ' '
    || c == '\U{0085}' || c == '\U{00A0}' || c == '\U{1680}'
    || '\U{2000}' <= c <= '\U{200A}'
    || c == '\U{2028}' || c == '\U{2029}' || c == '\U{202F}'
    || c == '\U{205F}' || c == '\U{3000}'
  }

  function LowerChar(c: char): char {
    if 'A' <= c <= 'Z' then (c as int + 32) as char else c
  }

  function Lower(s: string): (r: string)
    ensures |r| == |s|
    ensures forall k :: 0 <= k < |s| ==> r[k] == LowerChar(s[k])
  {
    seq(|s|, k requires 0 <= k < |s| => LowerChar(s[k]))
  }

  lemma LowerIdempotent(s: string)
    ensures Lower(Lower(s)) == Lower(s)
  {
  }

  /** `t` occurs in `s` at position `i`. */
  predicate At(s: string, i: nat, t: string)
    ensures At(s, i, t) ==> i + |t| <= |s|
    decreases |t|
  {
    if t == "" then i <= |s| else i < |s| && s[i] == t[0] && At(s, i + 1, t[1..])
  }

  lemma {:induction false} AtSlice(s: string, i: nat, t: string)
    ensures At(s, i, t) <==> i + |t| <= |s| && s[i..i + |t|] == t
    decreases |t|
  {
    if t != "" && i < |s| {
      AtSlice(s, i + 1, t[1..]);
      if i + |t| <= |s| {
        assert s[i..i + |t|] == [s[i]] + s[i + 1..i + |t|] && t == [t[0]] + t[1..];
      }
    }
  }

  lemma {:induction false} AtSplit(s: string, i: nat, t: string, u: string)
    ensures At(s, i, t + u) <==> At(s, i, t) && At(s, i + |t|, u)
    decreases |t|
  {
    if t == "" {
      assert t + u == u;
    } else if i < |s| {
      assert (t + u)[0] == t[0] && (t + u)[1..] == t[1..] + u;
      AtSplit(s, i + 1, t[1..], u);
    }
  }

  /** The two parts of a string that stands at `i`. */
  lemma AtParts(s: string, i: nat, whole: string, t: string, u: string)
    requires whole == t + u && At(s, i, whole)
    ensures At(s, i, t) && At(s, i + |t|, u) && |whole| == |t| + |u|
  {
    AtSplit(s, i, t, u);
  }

  lemma {:induction false} AtChar(s: string, i: nat, t: string, k: nat)
    requires At(s, i, t) && k < |t|
    ensures s[i + k] == t[k]
    decreases k
  {
    if k > 0 {
      AtChar(s, i + 1, t[1..], k - 1);
    }
  }

  lemma Assoc(a: string, b: string, c: string)
    ensures a + (b + c) == (a + b) + c
  {
  }

  /** `t` is a prefix of `s`, as `strings.HasPrefix` decides it. */
  predicate HasPrefix(s: string, t: string) {
    |t| <= |s| && s[..|t|] == t
  }

  function Digit(n: nat): char
    requires n < 10
  {
    (n + '0' as int) as char
  }

  predicate AllDigits(s: string) {
    s != "" ==> IsDigit(s[0]) && AllDigits(s[1..])
  }

  lemma {:induction false} AllDigitsJoin(s: string, t: string)
    requires AllDigits(s) && AllDigits(t)
    ensures AllDigits(s + t)
  {
    if s == "" {
      assert s + t == t;
    } else {
      assert (s + t)[1..] == s[1..] + t;
      AllDigitsJoin(s[1..], t);
    }
  }

  lemma {:induction false} AllDigitsOmit(s: string, c: char)
    requires AllDigits(s) && !IsDigit(c)
    ensures c !in s
  {
    if s != "" {
      AllDigitsOmit(s[1..], c);
    }
  }

  /** `%d` of an integer: a minus sign if it is negative, then its magnitude
      without leading zeros. */
  function IntText(n: int): (s: string)
    ensures s != "" && (n >= 0 ==> AllDigits(s))
    decreases if n < 0 then -n else n, 1
  {
    if n < 0 then "-" + Decimal(-n) else Decimal(n)
  }

  function Decimal(n: nat): (s: string)
    ensures s != "" && AllDigits(s)
    decreases n, 0
  {
    if n < 10 then [Digit(n)]
    else
      AllDigitsJoin(IntText(n / 10), [Digit(n % 10)]);
      IntText(n / 10) + [Digit(n % 10)]
  }

  function DigitValue(c: char): nat
    requires IsDigit(c)
  {
    c as int - '0' as int
  }

  /** The number that `acc` becomes when the digits of `s` are appended to it. */
  function NumeralFrom(acc: nat, s: string): nat
    requires AllDigits(s)
    decreases |s|
  {
    if s == "" then acc else NumeralFrom(10 * acc + DigitValue(s[0]), s[1..])
  }

  /** The number a string of digits denotes. */
  function Numeral(s: string): nat
    requires AllDigits(s)
  {
    NumeralFrom(0, s)
  }

  lemma {:induction false} NumeralJoin(acc: nat, s: string, t: string)
    requires AllDigits(s) && AllDigits(t)
    ensures AllDigits(s + t) && NumeralFrom(acc, s + t) == NumeralFrom(NumeralFrom(acc, s), t)
    decreases |s|
  {
    AllDigitsJoin(s, t);
    if s == "" {
      assert s + t == t;
    } else {
      assert (s + t)[1..] == s[1..] + t;
      NumeralJoin(10 * acc + DigitValue(s[0]), s[1..], t);
    }
  }

  lemma NumeralDigit(acc: nat, c: char)
    requires IsDigit(c)
    ensures AllDigits([c]) && NumeralFrom(acc, [c]) == 10 * acc + DigitValue(c)
  {
    assert [c][1..] == "";
  }

  lemma {:induction false} NumeralOfDecimal(n: nat)
    ensures Numeral(Decimal(n)) == n
  {
    if n < 10 {
      NumeralDigit(0, Digit(n));
    } else {
      NumeralOfDecimal(n / 10);
      NumeralJoin(0, Decimal(n / 10), [Digit(n % 10)]);
      NumeralDigit(n / 10, Digit(n % 10));
    }
  }

  /* ----- two names joined by a colon ----- */

  /** The longer first name holds the colon at which the shorter one ends. */
  predicate Overlap(p: string, s: string, q: string, t: string) {
    p + ":" <= q && s == q[|p| + 1..] + ":" + t
  }

  lemma ShorterJoined(p: string, s: string, q: string, t: string)
    requires |p| < |q|
    ensures p + ":" + s == q + ":" + t <==> Overlap(p, s, q, t)
  {
    var a, b := p + ":" + s, q + ":" + t;
    if a == b {
      assert a[..|p| + 1] == p + ":" && b[..|p| + 1] == q[..|p| + 1];
      assert a[|p| + 1..] == s && b[|p| + 1..] == q[|p| + 1..] + ":" + t;
    }
    if Overlap(p, s, q, t) {
      assert q == p + ":" + q[|p| + 1..];
    }
  }

  /** Two different pairs join to the same text exactly if they overlap. */
  lemma JoinedIff(p: string, s: string, q: string, t: string)
    ensures p + ":" + s == q + ":" + t <==> (p == q && s == t) || Overlap(p, s, q, t) || Overlap(q, t, p, s)
  {
    if |p| < |q| {
      ShorterJoined(p, s, q, t);
    } else if |q| < |p| {
      ShorterJoined(q, t, p, s);
    } else {
      var a, b := p + ":" + s, q + ":" + t;
      assert a[..|p|] == p && a[|p| + 1..] == s && b[..|q|] == q && b[|q| + 1..] == t;
    }
  }
}
