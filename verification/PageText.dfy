/** The end of the page queries, read word by word: the sort keys, and which arguments
    are the limit and the offset. */
module PageText {
  import opened Text
  import opened ScimGrammar
  import opened Placeholders
  import opened SqlText
  import opened FilterSql
  import opened FilterSqlProofs

  /* ----- words ----- */

  predicate SpaceFree(w: string) {
    forall k :: 0 <= k < |w| ==> !IsSpace(w[k])
  }

  /** The length of the first word. */
  function WordLength(t: string): (n: nat)
    ensures n <= |t| && (t != "" && !IsSpace(t[0]) ==> n > 0)
  {
    if t == "" || IsSpace(t[0]) then 0 else 1 + WordLength(t[1..])
  }

  /** The words between white space. */
  function Words(t: string): seq<string>
    decreases |t|
  {
    if t == "" then []
    else if IsSpace(t[0]) then Words(t[1..])
    else [t[..WordLength(t)]] + Words(t[WordLength(t)..])
  }

  lemma {:induction false} WordLengthOf(w: string, rest: string)
    requires SpaceFree(w) && (rest != "" ==> IsSpace(rest[0]))
    ensures WordLength(w + rest) == |w|
  {
    if w == "" {
      assert w + rest == rest;
    } else {
      assert (w + rest)[1..] == w[1..] + rest;
      WordLengthOf(w[1..], rest);
    }
  }

  lemma WordsCons(w: string, rest: string)
    requires w != "" && SpaceFree(w) && (rest != "" ==> IsSpace(rest[0]))
    ensures Words(w + rest) == [w] + Words(rest)
  {
    WordLengthOf(w, rest);
    assert (w + rest)[..|w|] == w && (w + rest)[|w|..] == rest;
  }

  lemma WordThen(w: string, rest: string, b: string)
    requires w != "" && SpaceFree(w) && (rest != "" ==> IsSpace(rest[0])) && b != "" && IsSpace(b[0])
    ensures Words(w + rest) == [w] + Words(rest) && Words(w + rest + b) == [w] + Words(rest + b)
  {
    WordsCons(w, rest);
    Assoc(w, rest, b);
    WordsCons(w, rest + b);
  }

  /** The words of two texts with a blank between them. */
  lemma {:induction false} WordsJoin(a: string, b: string)
    requires b != "" && IsSpace(b[0])
    ensures Words(a + b) == Words(a) + Words(b)
    decreases |a|
  {
    if a == "" {
      assert a + b == b;
    } else if IsSpace(a[0]) {
      assert (a + b)[1..] == a[1..] + b;
      WordsJoin(a[1..], b);
    } else {
      var w, rest := a[..WordLength(a)], a[WordLength(a)..];
      FirstWord(a);
      assert a == w + rest;
      WordThen(w, rest, b);
      WordsJoin(rest, b);
    }
  }

  lemma {:induction false} FirstWord(a: string)
    ensures var n := WordLength(a); SpaceFree(a[..n]) && (n < |a| ==> IsSpace(a[n]))
  {
    if a != "" && !IsSpace(a[0]) {
      FirstWord(a[1..]);
      var n := WordLength(a);
      assert a[..n][1..] == a[1..][..n - 1] && a[..n][0] == a[0];
    }
  }

  /** A word after a blank, alone. */
  lemma WordAlone(c: char, w: string)
    requires IsSpace(c) && w != "" && SpaceFree(w)
    ensures Words([c] + w) == [w]
  {
    assert ([c] + w)[1..] == w && w + "" == w;
    WordsCons(w, "");
  }

  lemma BlankLine(t: string)
    ensures Words("\n\t" + t) == Words(t)
  {
    assert ("\n\t" + t)[1..] == "\t" + t && ("\n\t" + t)[1..][1..] == t;
  }

  lemma {:induction false} DigitsSpaceFree(s: string)
    requires AllDigits(s)
    ensures SpaceFree(s)
  {
    if s != "" {
      DigitsSpaceFree(s[1..]);
    }
  }

  /* ----- the clauses ----- */

  datatype Clauses = Clauses(keys: seq<string>, limit: nat, offset: nat)

  /** The number of a word that is a placeholder. */
  function Param(w: string): Option<nat> {
    if !HasPrefix(w, "$") then None
    else
      match ParamNumber(w[1..])
      case NoNumber => None
      case NumberRead(n, rest) => if rest == "" then Some(n) else None
  }

  /** ORDER BY two keys, LIMIT and OFFSET. */
  function ReadClauses(t: string): Option<Clauses> {
    var ws := Words(t);
    if |ws| == 8 && ws[0] == "ORDER" && ws[1] == "BY" && ws[4] == "LIMIT" && ws[6] == "OFFSET"
        && ws[2] != "" && ws[2][|ws[2]| - 1] == ',' && Param(ws[5]).Some? && Param(ws[7]).Some?
    then Some(Clauses([ws[2][..|ws[2]| - 1], ws[3]], Param(ws[5]).value, Param(ws[7]).value))
    else None
  }

  lemma ParamOf(n: nat)
    ensures Param(Numbered(n)) == Some(n) && SpaceFree(Numbered(n)) && Numbered(n) != ""
  {
    assert Numbered(n) == "$" + Decimal(n) && Decimal(n) + "" == Decimal(n);
    assert Numbered(n)[..1] == "$" && Numbered(n)[1..] == Decimal(n);
    ReadNumbered(n, "");
    DigitsSpaceFree(Decimal(n));
  }

  lemma ThreeMore(a: string, x: string, y: string, z: string)
    requires SpaceFree(x) && SpaceFree(y) && SpaceFree(z) && x != "" && y != "" && z != ""
    ensures Words(a + (" " + x) + (" " + y) + (" " + z)) == Words(a) + [x, y, z]
  {
    WordAlone(' ', x);
    WordAlone(' ', y);
    WordAlone(' ', z);
    WordsJoin(a, " " + x);
    WordsJoin(a + (" " + x), " " + y);
    WordsJoin(a + (" " + x) + (" " + y), " " + z);
  }

  lemma OrderWord(t: string)
    requires t == "\n\t\tORDER"
    ensures Words(t) == ["ORDER"]
  {
    WordAlone('\t', "ORDER");
    BlankLine("\tORDER");
    assert t == "\n\t" + "\tORDER";
  }

  lemma KeyParts(t: string, a: string)
    requires t == "\n\t\tORDER BY e.created_at, e.id" && a == "\n\t\tORDER"
    ensures t == a + (" " + "BY") + (" " + "e.created_at,") + (" " + "e.id")
  {
  }

  lemma KeysSpaceFree(x: string, y: string, z: string)
    requires x == "BY" && y == "e.created_at," && z == "e.id"
    ensures SpaceFree(x) && SpaceFree(y) && SpaceFree(z)
  {
  }

  lemma KeyWords(t: string)
    requires t == "\n\t\tORDER BY e.created_at, e.id"
    ensures Words(t) == ["ORDER", "BY", "e.created_at,", "e.id"]
  {
    KeyParts(t, "\n\t\tORDER");
    OrderWord("\n\t\tORDER");
    KeysSpaceFree("BY", "e.created_at,", "e.id");
    ThreeMore("\n\t\tORDER", "BY", "e.created_at,", "e.id");
  }

  lemma LimitWords(t: string)
    requires t == "\n\t\tLIMIT"
    ensures Words(t) == ["LIMIT"]
  {
    WordAlone('\t', "LIMIT");
    BlankLine("\tLIMIT");
    assert t == "\n\t" + "\tLIMIT";
  }

  /** Four parts that each begin with a blank. */
  lemma FourParts(a: string, b: string, p: string, c: string, q: string)
    requires SpaceFree(p) && SpaceFree(q) && p != "" && q != ""
    requires b != "" && c != "" && IsSpace(b[0]) && IsSpace(c[0])
    ensures Words(a + b + (" " + p) + c + (" " + q)) == Words(a) + Words(b) + [p] + Words(c) + [q]
  {
    WordAlone(' ', p);
    WordAlone(' ', q);
    WordsJoin(a, b);
    WordsJoin(a + b, " " + p);
    WordsJoin(a + b + (" " + p), c);
    WordsJoin(a + b + (" " + p) + c, " " + q);
  }

  lemma TailWords(n: nat)
    ensures Words(PageTail(n))
         == ["ORDER", "BY", "e.created_at,", "e.id", "LIMIT", Numbered(n + 1), "OFFSET", Numbered(n + 2)]
  {
    var p, q := Numbered(n + 1), Numbered(n + 2);
    ParamOf(n + 1);
    ParamOf(n + 2);
    OffsetWord(" OFFSET");
    AllWords("\n\t\tORDER BY e.created_at, e.id", "\n\t\tLIMIT", p, " OFFSET", q);
    TailParts("\n\t\tORDER BY e.created_at, e.id", "\n\t\tLIMIT", p, q, n);
  }

  lemma OffsetWord(c: string)
    requires c == " OFFSET"
    ensures Words(c) == ["OFFSET"]
  {
    WordAlone(' ', "OFFSET");
    assert c == " " + "OFFSET";
  }

  lemma AllWords(a: string, b: string, p: string, c: string, q: string)
    requires a == "\n\t\tORDER BY e.created_at, e.id" && b == "\n\t\tLIMIT"
    requires c != "" && IsSpace(c[0]) && Words(c) == ["OFFSET"]
    requires SpaceFree(p) && SpaceFree(q) && p != "" && q != ""
    ensures Words(a + b + (" " + p) + c + (" " + q))
         == ["ORDER", "BY", "e.created_at,", "e.id", "LIMIT", p, "OFFSET", q]
  {
    KeyWords(a);
    LimitWords(b);
    FourParts(a, b, p, c, q);
  }

  lemma TailParts(a: string, b: string, p: string, q: string, n: nat)
    requires a == "\n\t\tORDER BY e.created_at, e.id" && b == "\n\t\tLIMIT"
    requires p == Numbered(n + 1) && q == Numbered(n + 2)
    ensures PageTail(n) == a + b + (" " + p) + " OFFSET" + (" " + q)
  {
  }

  lemma FirstKey()
    ensures var k := "e.created_at,"; k != "" && k[|k| - 1] == ',' && k[..|k| - 1] == "e.created_at"
  {
  }

  lemma ClausesAre(n: nat)
    ensures ReadClauses(PageTail(n)) == Some(Clauses(["e.created_at", "e.id"], n + 1, n + 2))
  {
    TailWords(n);
    ParamOf(n + 1);
    ParamOf(n + 2);
    FirstKey();
  }

  /** The page query sorts by creation time and identifier, and its limit and offset are
      the arguments of those names. */
  lemma PageReads(provider: string, filterArgs: seq<Value>, offset: nat, limit: nat)
    ensures var args := [StringValue(provider)] + filterArgs;
            var pageArgs := args + [NumberValue(limit as real), NumberValue(offset as real)];
            var c := ReadClauses(PageTail(|args|));
            && c.Some? && c.value.keys == ["e.created_at", "e.id"]
            && 1 <= c.value.limit <= |pageArgs| && pageArgs[c.value.limit - 1] == NumberValue(limit as real)
            && 1 <= c.value.offset <= |pageArgs| && pageArgs[c.value.offset - 1] == NumberValue(offset as real)
  {
    ClausesAre(1 + |filterArgs|);
  }
}
