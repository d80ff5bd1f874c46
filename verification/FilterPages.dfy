/** Pages of the list queries: ORDER BY creation time and entity, LIMIT and OFFSET.
    Rows with equal keys may come in another order each time the database is asked. */
module FilterPages {
  import opened Text
  import opened ScimGrammar
  import opened SqlText
  import opened Placeholders
  import opened FilterSql
  import opened FilterMeaning
  import opened GroupStore

  /** A row of the joined tables: an entity with one of its links. */
  datatype Joined = Joined(created: int, id: nat, provider: string, subject: string)

  /** The joined tables of a database. */
  function RowsOf(db: Db): set<Joined> {
    set l | l in db.links && l.entity in db.entities ::
        Joined(db.entities[l.entity].created, l.entity, l.provider, l.subject)
  }

  predicate Before(a: Joined, b: Joined) {
    a.created < b.created || (a.created == b.created && a.id < b.id)
  }

  predicate InOrder(xs: seq<Joined>) {
    forall i, j :: 0 <= i < j < |xs| ==> !Before(xs[j], xs[i])
  }

  /** A possible answer of the query without LIMIT. */
  ghost predicate Answers(chosen: set<Joined>, xs: seq<Joined>) {
    multiset(xs) == multiset(chosen) && InOrder(xs)
  }

  function Min(a: nat, b: nat): nat {
    if a <= b then a else b
  }

  function Page(xs: seq<Joined>, offset: nat, limit: nat): seq<Joined> {
    xs[Min(offset, |xs|)..Min(offset + limit, |xs|)]
  }

  /** The first `n` pages, each cut from the answer that its own query gave. */
  function Pages(answer: nat -> seq<Joined>, limit: nat, n: nat): seq<Joined> {
    if n == 0 then [] else Pages(answer, limit, n - 1) + Page(answer(n - 1), (n - 1) * limit, limit)
  }

  /** No two rows come at the same place: no entity has two links to be listed. */
  predicate DistinctKeys(chosen: set<Joined>) {
    forall a, b :: a in chosen && b in chosen && a != b ==> Before(a, b) || Before(b, a)
  }

  /** However the pages are asked for, together they are each chosen row once. */
  ghost predicate AlwaysPartition(chosen: set<Joined>) {
    forall answer: nat -> seq<Joined>, limit: nat, n: nat ::
      (forall k :: Answers(chosen, answer(k))) && limit > 0 && n * limit >= |chosen| ==>
          multiset(Pages(answer, limit, n)) == multiset(chosen)
  }

  /* ----- one answer ----- */

  lemma AnswerMembers(chosen: set<Joined>, xs: seq<Joined>)
    requires Answers(chosen, xs)
    ensures forall x :: x in xs <==> x in chosen
    ensures forall i, j :: 0 <= i < j < |xs| ==> xs[i] != xs[j]
    ensures |xs| == |chosen|
  {
    forall x
      ensures x in xs <==> x in chosen
    {
      assert x in multiset(xs) <==> x in multiset(chosen);
    }
    forall i, j | 0 <= i < j < |xs|
      ensures xs[i] != xs[j]
    {
      assert xs == xs[..j] + xs[j..];
      assert xs[i] in multiset(xs[..j]) && xs[j] in multiset(xs[j..]);
      assert multiset(xs)[xs[i]] <= 1;
    }
    assert |multiset(xs)| == |xs|;
  }

  lemma AnswerTail(chosen: set<Joined>, xs: seq<Joined>)
    requires Answers(chosen, xs) && xs != []
    ensures Answers(chosen - {xs[0]}, xs[1..])
  {
    AnswerMembers(chosen, xs);
    assert xs == [xs[0]] + xs[1..];
    assert multiset(chosen - {xs[0]}) == multiset(chosen) - multiset{xs[0]};
    assert multiset(xs[1..]) == multiset(xs) - multiset{xs[0]};
  }

  lemma SameFirst(chosen: set<Joined>, xs: seq<Joined>, ys: seq<Joined>)
    requires DistinctKeys(chosen) && Answers(chosen, xs) && Answers(chosen, ys) && xs != [] && ys != []
    ensures xs[0] == ys[0]
  {
    AnswerMembers(chosen, xs);
    AnswerMembers(chosen, ys);
    assert xs[0] in ys && ys[0] in xs;
    var i :| 0 <= i < |ys| && ys[i] == xs[0];
    var j :| 0 <= j < |xs| && xs[j] == ys[0];
  }

  /** With distinct keys there is only one answer. */
  lemma {:induction false} OneAnswer(chosen: set<Joined>, xs: seq<Joined>, ys: seq<Joined>)
    requires DistinctKeys(chosen) && Answers(chosen, xs) && Answers(chosen, ys)
    ensures xs == ys
    decreases |xs|
  {
    AnswerMembers(chosen, xs);
    AnswerMembers(chosen, ys);
    if xs != [] {
      SameFirst(chosen, xs, ys);
      AnswerTail(chosen, xs);
      AnswerTail(chosen, ys);
      OneAnswer(chosen - {xs[0]}, xs[1..], ys[1..]);
      assert xs == [xs[0]] + xs[1..] && ys == [ys[0]] + ys[1..];
    }
  }

  lemma PageJoins(xs: seq<Joined>, offset: nat, limit: nat)
    ensures xs[..Min(offset, |xs|)] + Page(xs, offset, limit) == xs[..Min(offset + limit, |xs|)]
  {
  }

  /** The pages of one answer are its beginning. */
  lemma {:induction false} PagesOfOne(answer: nat -> seq<Joined>, xs: seq<Joined>, limit: nat, n: nat)
    requires forall k :: answer(k) == xs
    ensures Pages(answer, limit, n) == xs[..Min(n * limit, |xs|)]
  {
    if n > 0 {
      PagesOfOne(answer, xs, limit, n - 1);
      PageJoins(xs, (n - 1) * limit, limit);
      assert (n - 1) * limit + limit == n * limit;
    }
  }

  lemma DistinctPartition(chosen: set<Joined>)
    requires DistinctKeys(chosen)
    ensures AlwaysPartition(chosen)
  {
    forall answer: nat -> seq<Joined>, limit: nat, n: nat | (forall k :: Answers(chosen, answer(k))) && limit > 0
        && n * limit >= |chosen|
      ensures multiset(Pages(answer, limit, n)) == multiset(chosen)
    {
      var xs := answer(0);
      forall k: nat
        ensures answer(k) == xs
      {
        OneAnswer(chosen, answer(k), xs);
      }
      AnswerMembers(chosen, xs);
      PagesOfOne(answer, xs, limit, n);
      assert xs[..|xs|] == xs;
    }
  }

  /* ----- two answers ----- */

  /** The place of a row among ordered ones. */
  function Insert(x: Joined, xs: seq<Joined>): seq<Joined> {
    if xs == [] || !Before(xs[0], x) then [x] + xs else [xs[0]] + Insert(x, xs[1..])
  }

  lemma InOrderCons(x: Joined, xs: seq<Joined>)
    requires InOrder(xs) && forall y :: y in xs ==> !Before(y, x)
    ensures InOrder([x] + xs)
  {
  }

  lemma InsertMembers(x: Joined, xs: seq<Joined>)
    ensures multiset(Insert(x, xs)) == multiset(xs) + multiset{x}
  {
    if xs != [] && Before(xs[0], x) {
      InsertMembers(x, xs[1..]);
      assert xs == [xs[0]] + xs[1..];
    }
  }

  lemma {:induction false} InsertKeeps(x: Joined, xs: seq<Joined>)
    requires InOrder(xs)
    ensures InOrder(Insert(x, xs))
  {
    if xs != [] && Before(xs[0], x) {
      var tail := xs[1..];
      var rest := Insert(x, tail);
      InsertKeeps(x, tail);
      InsertMembers(x, tail);
      forall y | y in rest
        ensures !Before(y, xs[0])
      {
        assert y in multiset(rest);
        assert y == x || y in tail;
      }
      InOrderCons(xs[0], rest);
    } else {
      forall y | y in xs
        ensures !Before(y, x)
      {
        var k :| 0 <= k < |xs| && xs[k] == y;
      }
      InOrderCons(x, xs);
    }
  }

  lemma {:induction false} SomeAnswer(chosen: set<Joined>) returns (xs: seq<Joined>)
    ensures Answers(chosen, xs)
  {
    if chosen == {} {
      xs := [];
    } else {
      var x :| x in chosen;
      var rest := SomeAnswer(chosen - {x});
      xs := Insert(x, rest);
      InsertKeeps(x, rest);
      InsertMembers(x, rest);
      assert multiset(chosen) == multiset(chosen - {x}) + multiset{x};
    }
  }

  /** Exchanging two rows with one key gives another answer. */
  lemma Exchanged(chosen: set<Joined>, xs: seq<Joined>, i: nat, j: nat)
    requires Answers(chosen, xs) && i < j < |xs| && !Before(xs[i], xs[j])
    ensures Answers(chosen, xs[i := xs[j]][j := xs[i]])
  {
    var ys := xs[i := xs[j]][j := xs[i]];
    assert xs[i].created == xs[j].created && xs[i].id == xs[j].id;
    assert forall k :: 0 <= k < |xs| ==> ys[k].created == xs[k].created && ys[k].id == xs[k].id;
  }

  /** A page of one row is that row. */
  lemma PageOfOne(xs: seq<Joined>, k: nat)
    requires k < |xs|
    ensures Page(xs, k * 1, 1) == [xs[k]]
  {
  }

  lemma OnePageMore(answer: nat -> seq<Joined>, n: nat)
    requires n < |answer(n)|
    ensures Pages(answer, 1, n + 1) == Pages(answer, 1, n) + [answer(n)[n]]
  {
    PageOfOne(answer(n), n);
  }

  /** If the page of one row at `j` comes from the exchanged answer, the row at `i` is
      listed twice. */
  lemma {:induction false} PagesRepeat(answer: nat -> seq<Joined>, xs: seq<Joined>, ys: seq<Joined>, i: nat, j: nat,
                                       n: nat)
    requires i < j < |xs| == |ys| && n <= |xs| && ys[j] == xs[i]
    requires forall k :: answer(k) == if k == j then ys else xs
    ensures |Pages(answer, 1, n)| == n
    ensures i < n ==> Pages(answer, 1, n)[i] == xs[i]
    ensures j < n ==> Pages(answer, 1, n)[j] == xs[i]
  {
    if n > 0 {
      PagesRepeat(answer, xs, ys, i, j, n - 1);
      OnePageMore(answer, n - 1);
    }
  }

  lemma NoPartition(chosen: set<Joined>, answer: nat -> seq<Joined>, limit: nat, n: nat)
    requires (forall k :: Answers(chosen, answer(k))) && limit > 0 && n * limit >= |chosen|
             && multiset(Pages(answer, limit, n)) != multiset(chosen)
    ensures !AlwaysPartition(chosen)
  {
  }

  lemma TiedRows(chosen: set<Joined>, xs: seq<Joined>, i: nat, j: nat)
    requires Answers(chosen, xs) && i < j < |xs| && !Before(xs[i], xs[j])
    ensures !AlwaysPartition(chosen)
  {
    var ys := xs[i := xs[j]][j := xs[i]];
    var answer := (k: nat) => if k == j then ys else xs;
    Exchanged(chosen, xs, i, j);
    AnswerMembers(chosen, xs);
    PagesRepeat(answer, xs, ys, i, j, |xs|);
    TwiceThere(Pages(answer, 1, |xs|), i, j);
    NoPartition(chosen, answer, 1, |xs|);
  }

  lemma TiesRepeat(chosen: set<Joined>)
    requires !DistinctKeys(chosen)
    ensures !AlwaysPartition(chosen)
  {
    var a, b :| a in chosen && b in chosen && a != b && !Before(a, b) && !Before(b, a);
    var xs := SomeAnswer(chosen);
    AnswerMembers(chosen, xs);
    var i :| 0 <= i < |xs| && xs[i] == a;
    var j :| 0 <= j < |xs| && xs[j] == b;
    TiedRows(chosen, xs, if i < j then i else j, if i < j then j else i);
  }

  lemma TwiceThere(zs: seq<Joined>, i: nat, j: nat)
    requires i < j < |zs| && zs[i] == zs[j]
    ensures multiset(zs)[zs[i]] >= 2
  {
    assert zs == zs[..j] + zs[j..];
    assert zs[i] in multiset(zs[..j]) && zs[j] in multiset(zs[j..]);
  }

  /** Exactly when the pages partition the selected rows. */
  lemma PagesPartition(chosen: set<Joined>)
    ensures AlwaysPartition(chosen) <==> DistinctKeys(chosen)
  {
    if DistinctKeys(chosen) {
      DistinctPartition(chosen);
    } else {
      TiesRepeat(chosen);
    }
  }

  /* ----- rows of a database ----- */

  /** The rows that a WHERE text selects. */
  ghost function Selected(rows: set<Joined>, columns: Joined -> Row, where: string, cols: seq<string>, args: seq<Value>,
                          eng: Engine): set<Joined> {
    set r | r in rows && Evaluate(where, cols, columns(r), args, eng) == Some(Yes)
  }

  /** Rows of a database have distinct keys exactly if no two are of one entity. */
  lemma KeysOfRows(db: Db, chosen: set<Joined>)
    requires chosen <= RowsOf(db)
    ensures DistinctKeys(chosen) <==> forall a, b :: a in chosen && b in chosen && a.id == b.id ==> a == b
  {
  }

  lemma OneRowEach(db: Db)
    requires OneLinkEach(db)
    ensures forall a, b :: a in RowsOf(db) && b in RowsOf(db) && a.id == b.id ==> a == b
  {
  }

  /** So the pages of rows of a database partition them exactly if no two are of one
      entity; always, where no entity has two links. */
  lemma PagesOfRows(db: Db, chosen: set<Joined>)
    requires chosen <= RowsOf(db)
    ensures AlwaysPartition(chosen) <==> forall a, b :: a in chosen && b in chosen && a.id == b.id ==> a == b
    ensures OneLinkEach(db) ==> AlwaysPartition(chosen)
  {
    PagesPartition(chosen);
    KeysOfRows(db, chosen);
    if OneLinkEach(db) {
      OneRowEach(db);
    }
  }
}
