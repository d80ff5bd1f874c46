/** ILIKE patterns. The matcher knows both wildcards and the escape character;
    letters are compared after folding with a given function. */
module Like {
  import opened ScimLexer

  type Folding = char -> char

  /** `s ILIKE p ESCAPE '\'`. A pattern may not end in a lone escape. */
  predicate Matches(p: string, s: string, fold: Folding)
    decreases |p| + |s|
  {
    if p == "" then s == ""
    else if p[0] == '%' then Matches(p[1..], s, fold) || (s != "" && Matches(p, s[1..], fold))
    else if s == "" then false
    else if p[0] == '_' then Matches(p[1..], s[1..], fold)
    else if p[0] == '\\' then |p| > 1 && fold(p[1]) == fold(s[0]) && Matches(p[2..], s[1..], fold)
    else fold(p[0]) == fold(s[0]) && Matches(p[1..], s[1..], fold)
  }

  /** `strings.ReplaceAll` for a one-character pattern. */
  function ReplaceAll(s: string, c: char, r: string): string {
    if s == "" then "" else (if s[0] == c then r else [s[0]]) + ReplaceAll(s[1..], c, r)
  }

  function EscapeLike(s: string): string {
    ReplaceAll(ReplaceAll(ReplaceAll(s, '\\', "\\\\"), '%', "\\%"), '_', "\\_")
  }

  function LikePattern(cop: CompareOp, value: string): string {
    match cop
    case Co => "%" + EscapeLike(value) + "%"
    case Sw => EscapeLike(value) + "%"
    case Ew => "%" + EscapeLike(value)
    case _ => EscapeLike(value)
  }

  /* ----- the three replacements are one per-character escape ----- */

  predicate IsSpecial(c: char) {
    c == '\\' || c == '%' || c == '_'
  }

  function EscapeChar(c: char): string {
    if IsSpecial(c) then ['\\', c] else [c]
  }

  function EscapeEach(s: string): string {
    if s == "" then "" else EscapeChar(s[0]) + EscapeEach(s[1..])
  }

  lemma {:induction false} ReplaceJoin(s: string, t: string, c: char, r: string)
    ensures ReplaceAll(s + t, c, r) == ReplaceAll(s, c, r) + ReplaceAll(t, c, r)
  {
    if s == "" {
      assert s + t == t;
    } else {
      assert (s + t)[1..] == s[1..] + t;
      ReplaceJoin(s[1..], t, c, r);
    }
  }

  lemma ReplaceOne(a: char, c: char, r: string)
    ensures ReplaceAll([a], c, r) == if a == c then r else [a]
  {
    assert [a][1..] == "";
  }

  lemma ReplaceTwo(a: char, b: char, c: char, r: string)
    requires a != c
    ensures ReplaceAll([a, b], c, r) == [a] + if b == c then r else [b]
  {
    assert [a, b] == [a] + [b];
    ReplaceJoin([a], [b], c, r);
    ReplaceOne(a, c, r);
    ReplaceOne(b, c, r);
  }

  lemma EscapeOne(a: char)
    ensures EscapeLike([a]) == EscapeChar(a)
  {
    ReplaceOne(a, '\\', "\\\\");
    ReplaceOne(a, '%', "\\%");
    ReplaceOne(a, '_', "\\_");
    ReplaceTwo('\\', '\\', '%', "\\%");
    ReplaceTwo('\\', '\\', '_', "\\_");
    ReplaceTwo('\\', '%', '_', "\\_");
  }

  lemma EscapeJoin(s: string, t: string)
    ensures EscapeLike(s + t) == EscapeLike(s) + EscapeLike(t)
  {
    ReplaceJoin(s, t, '\\', "\\\\");
    var s1, t1 := ReplaceAll(s, '\\', "\\\\"), ReplaceAll(t, '\\', "\\\\");
    ReplaceJoin(s1, t1, '%', "\\%");
    ReplaceJoin(ReplaceAll(s1, '%', "\\%"), ReplaceAll(t1, '%', "\\%"), '_', "\\_");
  }

  lemma {:induction false} EscapeIsPerCharacter(s: string)
    ensures EscapeLike(s) == EscapeEach(s)
  {
    if s != "" {
      assert s == [s[0]] + s[1..];
      EscapeJoin([s[0]], s[1..]);
      EscapeOne(s[0]);
      EscapeIsPerCharacter(s[1..]);
    }
  }

  /* ----- what the patterns match ----- */

  predicate SameFolded(a: string, b: string, fold: Folding) {
    |a| == |b| && forall k :: 0 <= k < |a| ==> fold(a[k]) == fold(b[k])
  }

  /** `value` occurs in `s` at position `i`, up to folding. */
  predicate OccursAt(s: string, i: nat, value: string, fold: Folding) {
    i + |value| <= |s| && SameFolded(s[i..i + |value|], value, fold)
  }

  /** What `co`, `sw` and `ew` ask of a value and a text. */
  ghost predicate TextTest(cop: CompareOp, s: string, value: string, fold: Folding) {
    match cop
    case Co => exists i :: OccursAt(s, i, value, fold)
    case Sw => OccursAt(s, 0, value, fold)
    case Ew => |value| <= |s| && OccursAt(s, |s| - |value|, value, fold)
    case _ => SameFolded(s, value, fold)
  }

  lemma {:induction false} EscapedMatches(value: string, rest: string, s: string, fold: Folding)
    ensures Matches(EscapeEach(value) + rest, s, fold)
       <==> OccursAt(s, 0, value, fold) && Matches(rest, s[|value|..], fold)
    decreases |value|
  {
    var p := EscapeEach(value) + rest;
    if value == "" {
      assert p == rest && s[0..] == s;
    } else if s == "" {
      assert p[0] != '%';
    } else {
      var n := |EscapeChar(value[0])|;
      var tail := EscapeEach(value[1..]) + rest;
      assert p == EscapeChar(value[0]) + tail;
      assert p[n..] == tail && p[n - 1] == value[0];
      assert Matches(p, s, fold) <==> fold(value[0]) == fold(s[0]) && Matches(tail, s[1..], fold);
      EscapedMatches(value[1..], rest, s[1..], fold);
      OccursStep(s, value, fold);
      if |value| <= |s| {
        assert s[1..][|value[1..]|..] == s[|value|..];
      }
    }
  }

  lemma OccursStep(s: string, value: string, fold: Folding)
    requires s != "" && value != ""
    ensures OccursAt(s, 0, value, fold) <==> fold(value[0]) == fold(s[0]) && OccursAt(s[1..], 0, value[1..], fold)
  {
    if |value| <= |s| {
      var a, b := s[..|value|], s[1..][..|value[1..]|];
      assert a[0] == s[0];
      assert forall k :: 0 <= k < |b| ==> b[k] == a[k + 1] && value[1..][k] == value[k + 1];
      assert forall k :: 1 <= k < |a| ==> a[k] == b[k - 1] && value[k] == value[1..][k - 1];
      assert s[0..0 + |value|] == a && s[1..][0..0 + |value[1..]|] == b;
    }
  }

  lemma {:induction false} PercentMatchesAll(s: string, fold: Folding)
    ensures Matches("%", s, fold)
  {
    assert "%"[1..] == "";
    if s != "" {
      PercentMatchesAll(s[1..], fold);
    }
  }

  lemma {:induction false} PercentMatches(p: string, s: string, fold: Folding)
    ensures Matches("%" + p, s, fold) <==> exists i :: 0 <= i <= |s| && Matches(p, s[i..], fold)
    decreases |s|
  {
    var q := "%" + p;
    assert q[1..] == p;
    if s == "" {
      assert s[0..] == s;
    } else {
      PercentMatches(p, s[1..], fold);
      if Matches(p, s, fold) {
        assert s[0..] == s;
      } else if Matches(q, s[1..], fold) {
        var i :| 0 <= i <= |s[1..]| && Matches(p, s[1..][i..], fold);
        assert s[1..][i..] == s[i + 1..];
      }
      if exists i :: 0 <= i <= |s| && Matches(p, s[i..], fold) {
        var i :| 0 <= i <= |s| && Matches(p, s[i..], fold);
        if i == 0 {
          assert s[0..] == s;
        } else {
          assert s[1..][i - 1..] == s[i..];
        }
      }
    }
  }

  lemma OccursShift(s: string, i: nat, value: string, fold: Folding)
    requires i <= |s|
    ensures OccursAt(s[i..], 0, value, fold) <==> OccursAt(s, i, value, fold)
  {
    if i + |value| <= |s| {
      assert s[i..][0..0 + |value|] == s[i..i + |value|];
    }
  }

  /** The pattern for `co`, `sw` or `ew` matches exactly the texts that contain
      the value, start with it or end with it, whatever characters it holds. */
  lemma PatternMeaning(cop: CompareOp, value: string, s: string, fold: Folding)
    requires cop in {Co, Sw, Ew}
    ensures Matches(LikePattern(cop, value), s, fold) <==> TextTest(cop, s, value, fold)
  {
    var e := EscapeEach(value);
    EscapeIsPerCharacter(value);
    match cop {
      case Sw =>
        EscapedMatches(value, "%", s, fold);
        if |value| <= |s| {
          PercentMatchesAll(s[|value|..], fold);
        }
      case Co =>
        assert LikePattern(Co, value) == "%" + (e + "%");
        PercentMatches(e + "%", s, fold);
        forall i | 0 <= i <= |s|
          ensures Matches(e + "%", s[i..], fold) <==> OccursAt(s, i, value, fold)
        {
          EscapedMatches(value, "%", s[i..], fold);
          OccursShift(s, i, value, fold);
          if |value| <= |s[i..]| {
            PercentMatchesAll(s[i..][|value|..], fold);
          }
        }
      case Ew =>
        PercentMatches(e, s, fold);
        forall i | 0 <= i <= |s|
          ensures Matches(e, s[i..], fold) <==> i + |value| == |s| && OccursAt(s, i, value, fold)
        {
          assert e + "" == e;
          EscapedMatches(value, "", s[i..], fold);
          OccursShift(s, i, value, fold);
        }
        if TextTest(Ew, s, value, fold) {
          assert Matches(e, s[|s| - |value|..], fold);
        }
    }
  }
}
