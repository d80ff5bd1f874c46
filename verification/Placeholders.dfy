/** The `$n` placeholders of an SQL text and the rewriter that renumbers them.
    Numbers are 64-bit machine integers, as in the source. */
module Placeholders {
  import opened Text

  const TWO_63: int := 0x8000_0000_0000_0000
  const TWO_64: int := 0x1_0000_0000_0000_0000

  /** The 64-bit two's complement value of an integer. */
  function Wrap(x: int): (r: int)
    ensures -TWO_63 <= r < TWO_63
    decreases if -TWO_63 <= x < TWO_63 then 0 else if x < 0 then -x else x
  {
    if x >= TWO_63 then Wrap(x - TWO_64) else if x < -TWO_63 then Wrap(x + TWO_64) else x
  }

  lemma {:induction false} WrapMultiple(x: int) returns (k: int)
    ensures Wrap(x) == x + k * TWO_64
    decreases if -TWO_63 <= x < TWO_63 then 0 else if x < 0 then -x else x
  {
    if x >= TWO_63 {
      k := WrapMultiple(x - TWO_64);
      k := k - 1;
    } else if x < -TWO_63 {
      k := WrapMultiple(x + TWO_64);
      k := k + 1;
    } else {
      k := 0;
    }
  }

  /** Wrapping sees only the remainder modulo 2^64. */
  lemma WrapSame(x: int, y: int, k: int)
    requires x == y + k * TWO_64
    ensures Wrap(x) == Wrap(y)
  {
    var i := WrapMultiple(x);
    var j := WrapMultiple(y);
    assert Wrap(x) - Wrap(y) == (k + i - j) * TWO_64;
  }

  lemma WrapAdd(x: int, y: int)
    ensures Wrap(Wrap(x) + y) == Wrap(x + y)
  {
    var k := WrapMultiple(x);
    WrapSame(Wrap(x) + y, x + y, k);
  }

  lemma WrapStep(x: int, d: int)
    ensures Wrap(Wrap(Wrap(x) * 10) + d) == Wrap(10 * x + d)
  {
    var k := WrapMultiple(x);
    WrapAdd(Wrap(x) * 10, d);
    WrapSame(Wrap(x) * 10 + d, 10 * x + d, 10 * k);
  }

  /** The placeholder with number `n`. */
  function Numbered(n: int): string {
    "$" + IntText(n)
  }

  /** The length of the longest prefix of digits. */
  function DigitRun(t: string): (n: nat)
    ensures n <= |t| && AllDigits(t[..n])
    ensures n < |t| ==> !IsDigit(t[n])
  {
    if t != "" && IsDigit(t[0]) then
      assert t[..1 + DigitRun(t[1..])][1..] == t[1..][..DigitRun(t[1..])];
      1 + DigitRun(t[1..])
    else 0
  }

  /** `t` with `d` added to the number of every placeholder. */
  function Shift(t: string, d: int): string {
    if t == "" then ""
    else if t[0] != '$' then [t[0]] + Shift(t[1..], d)
    else
      var n := DigitRun(t[1..]);
      if n == 0 then "$" + Shift(t[1..], d)
      else Numbered(Wrap(Numeral(t[1..][..n]) + d)) + Shift(t[1 + n..], d)
  }

  /** Every `$` of a text in order, with its number when it has one. */
  function Dollars(t: string): seq<Option<nat>> {
    if t == "" then []
    else if t[0] != '$' then Dollars(t[1..])
    else
      var n := DigitRun(t[1..]);
      (if n == 0 then [None] else [Some(Numeral(t[1..][..n]))]) + Dollars(t[1 + n..])
  }

  /** No placeholder is renumbered to a negative number. */
  predicate StaysNonNegative(t: string, d: int) {
    if t == "" then true
    else if t[0] != '$' then StaysNonNegative(t[1..], d)
    else
      var n := DigitRun(t[1..]);
      (n > 0 ==> Wrap(Numeral(t[1..][..n]) + d) >= 0) && StaysNonNegative(t[1 + n..], d)
  }

  predicate NoDigitFirst(t: string) {
    t != "" ==> !IsDigit(t[0])
  }

  lemma {:induction false} DigitRunOf(s: string, t: string)
    requires AllDigits(s) && NoDigitFirst(t)
    ensures DigitRun(s + t) == |s|
  {
    if s == "" {
      assert s + t == t;
    } else {
      assert (s + t)[1..] == s[1..] + t;
      DigitRunOf(s[1..], t);
    }
  }

  lemma ShiftDollar(s: string, digits: string, t: string, d: int)
    requires s == "$" + digits + t
    requires AllDigits(digits) && digits != "" && NoDigitFirst(t)
    ensures Shift(s, d) == Numbered(Wrap(Numeral(digits) + d)) + Shift(t, d)
  {
    assert s[1..] == digits + t;
    DigitRunOf(digits, t);
    assert s[1..][..|digits|] == digits && s[1 + |digits|..] == t;
  }

  lemma ShiftAtCopied(sql: string, i: nat, d: int)
    requires i < |sql|
    requires sql[i] != '$' || i + 1 == |sql| || !IsDigit(sql[i + 1])
    ensures Shift(sql[i..], d) == [sql[i]] + Shift(sql[i + 1..], d)
  {
    assert sql[i..][1..] == sql[i + 1..];
    assert DigitRun(sql[i + 1..]) == 0 || sql[i] != '$';
  }

  lemma ShiftAtNumber(sql: string, i: nat, j: nat, d: int)
    requires i + 1 < j <= |sql| && sql[i] == '$' && AllDigits(sql[i + 1..j])
    requires j < |sql| ==> !IsDigit(sql[j])
    ensures Shift(sql[i..], d) == Numbered(Wrap(Wrap(Numeral(sql[i + 1..j])) + d)) + Shift(sql[j..], d)
  {
    assert sql[i..] == "$" + sql[i + 1..j] + sql[j..];
    ShiftDollar(sql[i..], sql[i + 1..j], sql[j..], d);
    WrapAdd(Numeral(sql[i + 1..j]), d);
  }

  lemma DigitsGrow(s: string, lo: nat, j: nat)
    requires lo <= j < |s| && AllDigits(s[lo..j]) && IsDigit(s[j])
    ensures AllDigits(s[lo..j + 1]) && Numeral(s[lo..j + 1]) == 10 * Numeral(s[lo..j]) + DigitValue(s[j])
  {
    assert s[lo..j + 1] == s[lo..j] + [s[j]];
    NumeralDigit(Numeral(s[lo..j]), s[j]);
    NumeralJoin(0, s[lo..j], [s[j]]);
  }

  /** The Go loop: a byte buffer that grows while the indices advance. */
  method ShiftPlaceholders(sql: string, delta: int) returns (sb: string)
    ensures sb == Shift(sql, delta)
  {
    sb := "";
    var i := 0;
    while i < |sql|
      invariant 0 <= i <= |sql|
      invariant sb + Shift(sql[i..], delta) == Shift(sql, delta)
    {
      var j, n := i + 1, 0;
      if sql[i] == '$' {
        j, n := NumberAfter(sql, i);
      }
      var piece := [sql[i]];
      if j == i + 1 {
        ShiftAtCopied(sql, i, delta);
      } else {
        ShiftAtNumber(sql, i, j, delta);
        piece := Numbered(Wrap(n + delta));
      }
      Assoc(sb, piece, Shift(sql[j..], delta));
      sb := sb + piece;
      i := j;
    }
  }

  lemma MachineStep(s: string, lo: nat, k: nat, hi: nat)
    requires lo <= k < hi <= |s| && AllDigits(s[lo..k]) && AllDigits(s[k..hi])
    ensures IsDigit(s[k]) && AllDigits(s[k + 1..hi]) && AllDigits(s[lo..k + 1])
    ensures Wrap(Wrap(Wrap(Numeral(s[lo..k])) * 10) + DigitValue(s[k])) == Wrap(Numeral(s[lo..k + 1]))
  {
    assert s[k..hi][0] == s[k] && s[k..hi][1..] == s[k + 1..hi];
    DigitsGrow(s, lo, k);
    WrapStep(Numeral(s[lo..k]), DigitValue(s[k]));
  }

  /** The end and the machine value of the digits that follow position `i`. */
  method NumberAfter(sql: string, i: nat) returns (j: nat, n: int)
    requires i < |sql|
    ensures i < j <= |sql| && AllDigits(sql[i + 1..j]) && (j < |sql| ==> !IsDigit(sql[j]))
    ensures n == Wrap(Numeral(sql[i + 1..j]))
  {
    j := i + 1;
    while j < |sql| && IsDigit(sql[j])
      invariant i + 1 <= j <= |sql| && AllDigits(sql[i + 1..j])
    {
      DigitsGrow(sql, i + 1, j);
      j := j + 1;
    }
    n := MachineNumber(sql, i + 1, j);
  }

  method MachineNumber(sql: string, lo: nat, hi: nat) returns (n: int)
    requires lo <= hi <= |sql| && AllDigits(sql[lo..hi])
    ensures n == Wrap(Numeral(sql[lo..hi]))
  {
    n := 0;
    var k := lo;
    while k < hi
      invariant lo <= k <= hi
      invariant AllDigits(sql[lo..k]) && AllDigits(sql[k..hi]) && n == Wrap(Numeral(sql[lo..k]))
    {
      MachineStep(sql, lo, k, hi);
      n := Wrap(Wrap(n * 10) + DigitValue(sql[k]));
      k := k + 1;
    }
  }

  /* ----- texts side by side ----- */

  lemma {:induction false} DigitRunJoin(s: string, t: string)
    requires NoDigitFirst(t)
    ensures DigitRun(s + t) == DigitRun(s)
  {
    if s == "" {
      assert s + t == t;
    } else {
      assert (s + t)[0] == s[0] && (s + t)[1..] == s[1..] + t;
      DigitRunJoin(s[1..], t);
    }
  }

  /** What a `$` and its digits look like in a longer text. */
  lemma DollarJoin(s: string, t: string)
    requires s != "" && s[0] == '$' && NoDigitFirst(t)
    ensures var n := DigitRun(s[1..]);
            && (s + t)[0] == '$' && DigitRun((s + t)[1..]) == n
            && (s + t)[1..][..n] == s[1..][..n] && (s + t)[1 + n..] == s[1 + n..] + t
  {
    assert (s + t)[1..] == s[1..] + t;
    DigitRunJoin(s[1..], t);
  }

  lemma ShiftBare(t: string, d: int)
    requires NoDigitFirst(t)
    ensures Shift("$" + t, d) == "$" + Shift(t, d) && (StaysNonNegative("$" + t, d) <==> StaysNonNegative(t, d))
  {
    assert ("$" + t)[1..] == t;
    assert DigitRun(t) == 0;
  }

  /** `u` is `s` followed by `t`, and both start with the same lone `$`. */
  lemma ShiftJoinBare(u: string, s: string, rest: string, v: string, t: string, d: int)
    requires s == "$" + rest && u == "$" + v && NoDigitFirst(rest) && NoDigitFirst(v)
    requires Shift(v, d) == Shift(rest, d) + Shift(t, d)
    ensures Shift(u, d) == Shift(s, d) + Shift(t, d)
  {
    ShiftBare(rest, d);
    ShiftBare(v, d);
    Assoc("$", Shift(rest, d), Shift(t, d));
  }

  /** `u` is `s` followed by `t`, and both start with the same placeholder. */
  lemma ShiftJoinNumber(u: string, s: string, digits: string, rest: string, v: string, t: string, d: int)
    requires s == "$" + digits + rest && u == "$" + digits + v
    requires AllDigits(digits) && digits != "" && NoDigitFirst(rest) && NoDigitFirst(v)
    requires Shift(v, d) == Shift(rest, d) + Shift(t, d)
    ensures Shift(u, d) == Shift(s, d) + Shift(t, d)
  {
    ShiftDollar(s, digits, rest, d);
    ShiftDollar(u, digits, v, d);
    Assoc(Numbered(Wrap(Numeral(digits) + d)), Shift(rest, d), Shift(t, d));
  }

  lemma SplitDollar(s: string, digits: string, rest: string, t: string)
    requires s != "" && s[0] == '$' && |digits| < |s| && digits == s[1..][..|digits|] && rest == s[1 + |digits|..]
    ensures s == "$" + digits + rest && s + t == "$" + digits + (rest + t)
    ensures digits == "" ==> s == "$" + rest && s + t == "$" + (rest + t)
  {
  }

  lemma {:induction false} ShiftJoin(s: string, t: string, d: int)
    requires NoDigitFirst(t)
    ensures Shift(s + t, d) == Shift(s, d) + Shift(t, d)
    decreases |s|
  {
    if s == "" {
      assert s + t == t;
    } else if s[0] != '$' {
      assert (s + t)[0] == s[0] && (s + t)[1..] == s[1..] + t;
      ShiftJoin(s[1..], t, d);
    } else {
      var n := DigitRun(s[1..]);
      var digits, rest := s[1..][..n], s[1 + n..];
      ShiftJoin(rest, t, d);
      SplitDollar(s, digits, rest, t);
      if n == 0 {
        ShiftJoinBare(s + t, s, rest, rest + t, t, d);
      } else {
        ShiftJoinNumber(s + t, s, digits, rest, rest + t, t, d);
      }
    }
  }

  lemma {:induction false} DollarsJoin(s: string, t: string)
    requires NoDigitFirst(t)
    ensures Dollars(s + t) == Dollars(s) + Dollars(t)
    decreases |s|
  {
    if s == "" {
      assert s + t == t;
    } else if s[0] != '$' {
      assert (s + t)[0] == s[0] && (s + t)[1..] == s[1..] + t;
      DollarsJoin(s[1..], t);
    } else {
      DollarJoin(s, t);
      DollarsJoin(s[1 + DigitRun(s[1..])..], t);
    }
  }

  /** A text without `$` is copied by `Shift` and holds no placeholder. */
  lemma {:induction false} PlainText(s: string, d: int)
    requires '$' !in s
    ensures Shift(s, d) == s && Dollars(s) == []
  {
    if s != "" {
      PlainText(s[1..], d);
    }
  }

  lemma NumberedText(n: nat, d: int)
    requires 0 <= n + d < TWO_63
    ensures Shift(Numbered(n), d) == Numbered(n + d) && Dollars(Numbered(n)) == [Some(n)]
  {
    var s := Numbered(n);
    assert s[1..] == Decimal(n) && Decimal(n) + "" == Decimal(n);
    DigitRunOf(Decimal(n), "");
    assert s[1..][..|Decimal(n)|] == Decimal(n) && s[1 + |Decimal(n)|..] == "";
    NumeralOfDecimal(n);
  }

  /* ----- shifting twice ----- */

  lemma ShiftFirst(t: string, d: int)
    ensures t == "" <==> Shift(t, d) == ""
    ensures t != "" ==> Shift(t, d)[0] == t[0]
  {
  }

  /** A renumbered placeholder is read back as the number that was written. */
  lemma ShiftNumbered(m: nat, t: string, d: int)
    requires NoDigitFirst(t)
    ensures Shift(Numbered(m) + t, d) == Numbered(Wrap(m + d)) + Shift(t, d)
  {
    ShiftDollar(Numbered(m) + t, Decimal(m), t, d);
    NumeralOfDecimal(m);
  }

  lemma {:induction false} ShiftCopies(s: string, t: string, d: int)
    requires '$' !in s
    ensures Shift(s + t, d) == s + Shift(t, d)
  {
    if s == "" {
      assert s + t == t;
    } else {
      assert (s + t)[1..] == s[1..] + t;
      ShiftCopies(s[1..], t, d);
    }
  }

  lemma ShiftMinus(s: string, t: string, d: int)
    requires '$' !in s
    ensures Shift("$-" + s + t, d) == "$-" + s + Shift(t, d)
  {
    var u := "$-" + s + t;
    assert u[1..] == ("-" + s) + t && u[1] == '-';
    assert DigitRun(u[1..]) == 0;
    ShiftCopies("-" + s, t, d);
    assert "$" + (("-" + s) + Shift(t, d)) == "$-" + s + Shift(t, d);
  }

  /** A placeholder that was renumbered to a negative number is one no more. */
  lemma ShiftNegative(m: int, t: string, d: int)
    requires m < 0
    ensures Shift(Numbered(m) + t, d) == Numbered(m) + Shift(t, d)
  {
    var s := Decimal(-m);
    AllDigitsOmit(s, '$');
    assert Numbered(m) == "$-" + s;
    ShiftMinus(s, t, d);
  }

  lemma DigitsSplit(s: string, t: string, s': string, t': string)
    requires AllDigits(s)
    requires AllDigits(s')
    requires NoDigitFirst(t) && NoDigitFirst(t') && s + t == s' + t'
    ensures s == s' && t == t'
  {
    DigitRunOf(s, t);
    DigitRunOf(s', t');
    assert (s + t)[..|s|] == s && (s' + t')[..|s'|] == s';
    assert (s + t)[|s|..] == t && (s' + t')[|s'|..] == t';
  }

  lemma DecimalSplit(m: nat, t: string, m': nat, t': string)
    requires NoDigitFirst(t) && NoDigitFirst(t')
    ensures Decimal(m) + t == Decimal(m') + t' <==> m == m' && t == t'
  {
    if Decimal(m) + t == Decimal(m') + t' {
      DigitsSplit(Decimal(m), t, Decimal(m'), t');
      NumeralOfDecimal(m);
      NumeralOfDecimal(m');
    }
  }

  lemma MinusSplit(s: string, t: string, s': string, t': string)
    ensures ("-" + s) + t == ("-" + s') + t' <==> s + t == s' + t'
  {
    PrefixEqual("-", s + t, s' + t');
    assert ("-" + s) + t == "-" + (s + t);
    assert ("-" + s') + t' == "-" + (s' + t');
  }

  lemma SignDiffers(s: string, t: string, m: nat, t': string)
    ensures ("-" + s) + t != Decimal(m) + t'
  {
    assert (("-" + s) + t)[0] == '-';
    assert (Decimal(m) + t')[0] == Decimal(m)[0] && IsDigit(Decimal(m)[0]);
  }

  /** A number and a text that does not start with a digit can be told apart. */
  lemma IntTextSplit(m: int, t: string, m': int, t': string)
    requires NoDigitFirst(t) && NoDigitFirst(t')
    ensures IntText(m) + t == IntText(m') + t' <==> m == m' && t == t'
  {
    if m < 0 && m' < 0 {
      MinusSplit(Decimal(-m), t, Decimal(-m'), t');
      DecimalSplit(-m, t, -m', t');
    } else if m < 0 {
      SignDiffers(Decimal(-m), t, m', t');
    } else if m' < 0 {
      SignDiffers(Decimal(-m'), t', m, t);
    } else {
      DecimalSplit(m, t, m', t');
    }
  }

  lemma PrefixEqual(p: string, s: string, t: string)
    ensures p + s == p + t <==> s == t
  {
    assert (p + s)[|p|..] == s && (p + t)[|p|..] == t;
  }

  /** Shifting `t` by `a` and then by `b` is shifting it by their sum exactly
      when `b` changes no number or no number overflows on the way. */
  predicate ShiftLaw(t: string, a: int, b: int) {
    Shift(Shift(t, a), b) == Shift(t, a + b) <==> StaysNonNegative(t, a) || b % TWO_64 == 0
  }

  lemma ShiftTwiceCopied(c: char, t: string, a: int, b: int)
    requires c != '$' && ShiftLaw(t, a, b)
    ensures ShiftLaw([c] + t, a, b)
  {
    assert ([c] + t)[1..] == t;
    ShiftCopies([c], t, a);
    ShiftCopies([c], t, a + b);
    ShiftCopies([c], Shift(t, a), b);
    PrefixEqual([c], Shift(Shift(t, a), b), Shift(t, a + b));
  }

  lemma {:induction false} ShiftTwice(t: string, a: int, b: int)
    ensures ShiftLaw(t, a, b)
    decreases |t|
  {
    if t != "" {
      var n := if t[0] == '$' then DigitRun(t[1..]) else 0;
      var rest := t[1 + n..];
      ShiftTwice(rest, a, b);
      if t[0] != '$' {
        assert t == [t[0]] + rest;
        ShiftTwiceCopied(t[0], rest, a, b);
      } else if n == 0 {
        assert t == "$" + rest;
        ShiftTwiceBare(rest, a, b);
      } else {
        assert t == "$" + t[1..][..n] + rest;
        ShiftTwiceDollar(t, t[1..][..n], rest, a, b);
      }
    }
  }

  lemma ShiftTwiceBare(t: string, a: int, b: int)
    requires NoDigitFirst(t) && ShiftLaw(t, a, b)
    ensures ShiftLaw("$" + t, a, b)
  {
    ShiftBare(t, a);
    ShiftBare(t, a + b);
    ShiftFirst(t, a);
    ShiftBare(Shift(t, a), b);
    PrefixEqual("$", Shift(Shift(t, a), b), Shift(t, a + b));
  }

  lemma StaysDollar(s: string, digits: string, t: string, d: int)
    requires s == "$" + digits + t
    requires AllDigits(digits) && digits != "" && NoDigitFirst(t)
    ensures StaysNonNegative(s, d) <==> Wrap(Numeral(digits) + d) >= 0 && StaysNonNegative(t, d)
  {
    assert s[1..] == digits + t;
    DigitRunOf(digits, t);
    assert s[1..][..|digits|] == digits && s[1 + |digits|..] == t;
  }

  lemma ShiftTwiceDollar(s: string, digits: string, t: string, a: int, b: int)
    requires s == "$" + digits + t
    requires AllDigits(digits) && digits != "" && NoDigitFirst(t)
    requires ShiftLaw(t, a, b)
    ensures ShiftLaw(s, a, b)
  {
    ShiftDollar(s, digits, t, a);
    ShiftDollar(s, digits, t, a + b);
    StaysDollar(s, digits, t, a);
    ShiftTwiceNumbered(s, Numeral(digits), t, a, b);
  }

  lemma ShiftTwiceNumbered(s: string, x: int, t: string, a: int, b: int)
    requires NoDigitFirst(t) && ShiftLaw(t, a, b)
    requires Shift(s, a) == Numbered(Wrap(x + a)) + Shift(t, a)
    requires Shift(s, a + b) == Numbered(Wrap(x + (a + b))) + Shift(t, a + b)
    requires StaysNonNegative(s, a) <==> Wrap(x + a) >= 0 && StaysNonNegative(t, a)
    ensures ShiftLaw(s, a, b)
  {
    var m, m' := Wrap(x + a), Wrap(x + (a + b));
    var first, twice, once := Shift(t, a), Shift(Shift(t, a), b), Shift(t, a + b);
    ShiftFirst(t, a + b);
    ShiftFirst(t, a);
    ShiftFirst(first, b);
    RenumberSame(x, a, b);
    RenumberTwice(x, first, a, b);
    CompareShifts(if m >= 0 then m' else m, twice, m', once, m >= 0, StaysNonNegative(t, a), b % TWO_64 == 0);
    LawFrom(s, a, b, Numbered(if m >= 0 then m' else m) + twice, Numbered(m') + once, m >= 0 && StaysNonNegative(t, a));
  }

  lemma LawFrom(s: string, a: int, b: int, twice: string, once: string, kept: bool)
    requires Shift(Shift(s, a), b) == twice && Shift(s, a + b) == once && StaysNonNegative(s, a) == kept
    requires twice == once <==> kept || b % TWO_64 == 0
    ensures ShiftLaw(s, a, b)
  {
  }

  lemma CompareShifts(n: int, u: string, n': int, v: string, kept: bool, restKept: bool, same: bool)
    requires NoDigitFirst(u) && NoDigitFirst(v)
    requires u == v <==> restKept || same
    requires n == n' <==> kept || same
    ensures Numbered(n) + u == Numbered(n') + v <==> (kept && restKept) || same
  {
    Prefixed(n, u, n', v);
  }

  /** What a second shift makes of a placeholder that the first has renumbered. */
  lemma RenumberTwice(x: int, t: string, a: int, b: int)
    requires NoDigitFirst(t)
    ensures Shift(Numbered(Wrap(x + a)) + t, b)
         == Numbered(if Wrap(x + a) >= 0 then Wrap(x + (a + b)) else Wrap(x + a)) + Shift(t, b)
  {
    if Wrap(x + a) >= 0 {
      ShiftNumbered(Wrap(x + a), t, b);
      WrapAdd(x + a, b);
      assert x + a + b == x + (a + b);
    } else {
      ShiftNegative(Wrap(x + a), t, b);
    }
  }

  lemma RenumberSame(x: int, a: int, b: int)
    ensures Wrap(x + a) == Wrap(x + (a + b)) <==> b % TWO_64 == 0
  {
    assert x + (a + b) == x + a + b;
    WrapEqual(x + a, b);
  }

  lemma Prefixed(m: int, t: string, m': int, t': string)
    requires NoDigitFirst(t) && NoDigitFirst(t')
    ensures Numbered(m) + t == Numbered(m') + t' <==> m == m' && t == t'
  {
    IntTextSplit(m, t, m', t');
    PrefixEqual("$", IntText(m) + t, IntText(m') + t');
    assert Numbered(m) + t == "$" + (IntText(m) + t);
    assert Numbered(m') + t' == "$" + (IntText(m') + t');
  }

  lemma WrapEqual(x: int, b: int)
    ensures Wrap(x) == Wrap(x + b) <==> b % TWO_64 == 0
  {
    var k := WrapMultiple(x);
    var k' := WrapMultiple(x + b);
    if Wrap(x) == Wrap(x + b) {
      assert b == (k - k') * TWO_64;
      assert b % TWO_64 == 0;
    }
    if b % TWO_64 == 0 {
      WrapSame(x + b, x, b / TWO_64);
    }
  }

  /** A text whose second shift goes wrong: the first one overflows. */
  lemma ShiftTwiceFails()
    ensures Shift(Shift(Numbered(TWO_63 - 1), 1), 1) != Shift(Numbered(TWO_63 - 1), 2)
  {
    var t, d := Numbered(TWO_63 - 1), Decimal(TWO_63 - 1);
    assert t[1..] == d && d + "" == d;
    DigitRunOf(d, "");
    assert t[1..][..|d|] == d;
    NumeralOfDecimal(TWO_63 - 1);
    assert !StaysNonNegative(t, 1);
    ShiftTwice(t, 1, 1);
  }
}
