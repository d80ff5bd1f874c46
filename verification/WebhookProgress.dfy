/** No eligible delivery waits for ever: how often a batch can pass it over. */
module WebhookProgress {
  import opened Text
  import opened Webhook
  import opened WebhookProofs

  /** The attempts a delivery has left. */
  function Remaining(row: Delivery): nat {
    if Final(row) || row.attempts >= MAX_RETRIES then 0 else MAX_RETRIES - row.attempts
  }

  /** The other rows not younger than delivery `id`. */
  predicate Rival(rows: Rows, id: nat, created: int, x: nat) {
    x in rows && x != id && rows[x].created <= created
  }

  function Rivals(rows: Rows, id: nat): set<nat>
    requires id in rows
  {
    set x | x in rows && Rival(rows, id, rows[id].created, x)
  }

  /** The attempts a rival has left beyond the one it is selected for. */
  function Share(rows: Rows, claimed: set<nat>, id: nat, created: int, x: nat): int {
    if Rival(rows, id, created, x) then Remaining(rows[x]) - (if x in claimed then 1 else 0) else 0
  }

  function Potential(rows: Rows, claimed: set<nat>, id: nat, created: int, n: nat): int {
    if n == 0 then 0 else Potential(rows, claimed, id, created, n - 1) + Share(rows, claimed, id, created, n - 1)
  }

  lemma {:induction false} PotentialFalls(rows: Rows, claimed: set<nat>, rows': Rows, claimed': set<nat>, id: nat,
                                          created: int, n: nat)
    requires forall x :: 0 <= x < n ==> Share(rows', claimed', id, created, x) <= Share(rows, claimed, id, created, x)
    ensures Potential(rows', claimed', id, created, n) <= Potential(rows, claimed, id, created, n)
  {
    if n > 0 {
      PotentialFalls(rows, claimed, rows', claimed', id, created, n - 1);
    }
  }

  lemma {:induction false} PotentialExtends(rows: Rows, claimed: set<nat>, id: nat, created: int, n: nat, n': nat)
    requires n <= n' && forall x :: n <= x < n' ==> Share(rows, claimed, id, created, x) <= 0
    ensures Potential(rows, claimed, id, created, n') <= Potential(rows, claimed, id, created, n)
  {
    if n < n' {
      PotentialExtends(rows, claimed, id, created, n, n' - 1);
    }
  }

  function Below(s: set<nat>, n: nat): set<nat> {
    set x | x in s && x < n
  }

  lemma BelowNext(s: set<nat>, n: nat)
    ensures |Below(s, n + 1)| == |Below(s, n)| + if n in s then 1 else 0
  {
    if n in s {
      assert Below(s, n + 1) == Below(s, n) + {n};
    } else {
      assert Below(s, n + 1) == Below(s, n);
    }
  }

  /** Selecting rivals takes one from the potential for each. */
  lemma {:induction false} PotentialClaims(rows: Rows, claimed: set<nat>, id: nat, created: int, n: nat)
    requires forall x :: x in claimed ==> Rival(rows, id, created, x)
    ensures Potential(rows, claimed, id, created, n) + |Below(claimed, n)| == Potential(rows, {}, id, created, n)
  {
    if n > 0 {
      BelowNext(claimed, n - 1);
      PotentialClaims(rows, claimed, id, created, n - 1);
    } else {
      assert Below(claimed, 0) == {};
    }
  }

  lemma {:induction false} PotentialBound(rows: Rows, claimed: set<nat>, id: nat, n: nat)
    requires id in rows
    ensures Potential(rows, claimed, id, rows[id].created, n) <= 5 * |Below(Rivals(rows, id), n)|
  {
    if n > 0 {
      BelowNext(Rivals(rows, id), n - 1);
      PotentialBound(rows, claimed, id, n - 1);
    } else {
      assert Below(Rivals(rows, id), 0) == {};
    }
  }

  lemma {:induction false} PotentialNonNegative(rows: Rows, claimed: set<nat>, id: nat, created: int, n: nat)
    requires forall x :: x in claimed && x in rows ==> Remaining(rows[x]) >= 1
    ensures Potential(rows, claimed, id, created, n) >= 0
  {
    if n > 0 {
      PotentialNonNegative(rows, claimed, id, created, n - 1);
    }
  }

  /* ----- runs that pass a delivery over ----- */

  /** Events that leave delivery `id` waiting: no batch selects it, every attempt is
      recorded, new rows are younger, and the dispatcher keeps running. */
  predicate PassesOver(e: Event, id: nat, row: Delivery) {
    match e
    case Found(now, batch) => Eligible(row, now) && id !in ClaimIds(batch)
    case Tried(r) => r.committed && !r.outcome.Unsent?
    case Enqueued(now, _) => now > row.created
    case SubscriptionRemoved(sub) => sub != row.sub
    case Restarted => false
    case _ => true
  }

  /** The batches selected in a run. */
  function Batches(es: seq<Event>): nat {
    if es == [] then 0 else Batches(es[..|es| - 1]) + if es[|es| - 1].Found? then 1 else 0
  }

  /** The potential of a machine's rows and outstanding attempts. */
  function Measure(m: Machine, id: nat, created: int): int {
    Potential(m.rows, ClaimIds(m.batch), id, created, m.next)
  }

  /** Every claimed row that still exists has an attempt left for it. */
  lemma ClaimedHaveLeft(m: Machine)
    requires Inv(m)
    ensures forall x :: x in ClaimIds(m.batch) ==> x < m.next && (x in m.rows ==> Remaining(m.rows[x]) >= 1)
  {
    forall x | x in ClaimIds(m.batch)
      ensures x < m.next && (x in m.rows ==> Remaining(m.rows[x]) >= 1)
    {
      var i :| 0 <= i < |m.batch| && m.batch[i].id == x;
      assert ClaimOk(m.rows, m.next, m.batch[i]);
    }
  }

  lemma {:induction false} ClaimIdsCount(batch: seq<Claim>)
    requires forall i, j :: 0 <= i < j < |batch| ==> batch[i].id != batch[j].id
    ensures |ClaimIds(batch)| == |batch|
  {
    if batch != [] {
      var n := |batch| - 1;
      ClaimIdsCount(batch[..n]);
      assert ClaimIds(batch) == ClaimIds(batch[..n]) + {batch[n].id};
      assert batch[n].id !in ClaimIds(batch[..n]);
    } else {
      assert ClaimIds(batch) == {};
    }
  }

  /** A batch that passes an eligible delivery over is full of its rivals. */
  lemma FoundFalls(m: Machine, now: int, batch: seq<Claim>, id: nat)
    requires Inv(m) && Enabled(m, Found(now, batch)) && id in m.rows && PassesOver(Found(now, batch), id, m.rows[id])
    ensures Measure(Step(m, Found(now, batch)), id, m.rows[id].created)
            == Measure(m, id, m.rows[id].created) - DISPATCH_BATCH
  {
    var ids := ClaimIds(batch);
    var eligible := EligibleIds(m.rows, now);
    ClaimIdsCount(batch);
    assert id in eligible;
    forall x | x in ids
      ensures Rival(m.rows, id, m.rows[id].created, x) && x in eligible && x < m.next
    {
      var i :| 0 <= i < |batch| && batch[i].id == x;
      assert m.rows[batch[i].id].created <= m.rows[id].created;
    }
    assert ids + {id} <= eligible;
    Smaller(ids + {id}, eligible);
    assert |batch| == DISPATCH_BATCH;
    PotentialClaims(m.rows, ids, id, m.rows[id].created, m.next);
    assert Below(ids, m.next) == ids;
    assert ClaimIds(m.batch) == {};
  }

  lemma {:induction false} Smaller(a: set<nat>, b: set<nat>)
    requires a <= b
    ensures |a| <= |b|
  {
    if a != {} {
      var x :| x in a;
      Smaller(a - {x}, b - {x});
    }
  }

  lemma TriedFalls(m: Machine, r: Report, id: nat, created: int)
    requires Inv(m) && m.batch != [] && r.committed && !r.outcome.Unsent?
    ensures Measure(Step(m, Tried(r)), id, created) <= Measure(m, id, created)
  {
    var m' := Step(m, Tried(r));
    var c := m.batch[0];
    assert ClaimOk(m.rows, m.next, c);
    assert forall i :: 0 <= i < |m'.batch| ==> m'.batch[i] == m.batch[i + 1];
    assert c.id !in ClaimIds(m'.batch);
    forall x | 0 <= x < m.next
      ensures Share(m'.rows, ClaimIds(m'.batch), id, created, x) <= Share(m.rows, ClaimIds(m.batch), id, created, x)
    {
      if x in ClaimIds(m.batch) && x != c.id {
        var i :| 0 <= i < |m.batch| && m.batch[i].id == x;
        assert m'.batch[i - 1].id == x;
      }
    }
    PotentialFalls(m.rows, ClaimIds(m.batch), m'.rows, ClaimIds(m'.batch), id, created, m.next);
  }

  lemma OtherFalls(m: Machine, e: Event, id: nat, row: Delivery)
    requires Inv(m) && Enabled(m, e) && PassesOver(e, id, row) && !e.Found? && !e.Tried?
    ensures Measure(Step(m, e), id, row.created) <= Measure(m, id, row.created)
  {
    var m' := Step(m, e);
    var claimed := ClaimIds(m.batch);
    ClaimedHaveLeft(m);
    if e.Enqueued? {
      InsertedRows(m.rows, m.next, m.pairs, e.now);
      PotentialFalls(m.rows, claimed, m'.rows, claimed, id, row.created, m.next);
      PotentialExtends(m'.rows, claimed, id, row.created, m.next, m'.next);
    } else {
      PotentialFalls(m.rows, claimed, m'.rows, claimed, id, row.created, m.next);
    }
  }

  /** The waiting delivery keeps its row, and every batch costs its rivals fifty
      attempts. */
  lemma {:induction false} PassingCosts(m: Machine, es: seq<Event>, id: nat)
    requires Inv(m) && Run(m, es).Some? && id in m.rows && id !in ClaimIds(m.batch)
    requires forall e :: e in es ==> PassesOver(e, id, m.rows[id])
    ensures var m' := Run(m, es).value;
            && Inv(m') && id in m'.rows && m'.rows[id] == m.rows[id] && id !in ClaimIds(m'.batch)
            && Measure(m', id, m.rows[id].created) + DISPATCH_BATCH * Batches(es) <= Measure(m, id, m.rows[id].created)
  {
    RunKeeps(m, es);
    if es != [] {
      var n := |es| - 1;
      var before := Run(m, es[..n]).value;
      var row, e := m.rows[id], es[n];
      PassingCosts(m, es[..n], id);
      RunKeeps(m, es[..n]);
      assert PassesOver(e, id, row);
      match e
      case Found(now, batch) =>
        FoundFalls(before, now, batch, id);
      case Tried(r) =>
        TriedFalls(before, r, id, row.created);
        TriedSpares(before, r, id);
      case Enqueued(now, _) =>
        OtherFalls(before, e, id, row);
        InsertedRows(before.rows, before.next, before.pairs, now);
      case _ =>
        OtherFalls(before, e, id, row);
    }
  }

  lemma TriedSpares(m: Machine, r: Report, id: nat)
    requires m.batch != [] && id !in ClaimIds(m.batch)
    ensures var m' := Step(m, Tried(r));
            id !in ClaimIds(m'.batch) && (id in m.rows ==> id in m'.rows && m'.rows[id] == m.rows[id])
  {
    var m' := Step(m, Tried(r));
    assert forall i :: 0 <= i < |m'.batch| ==> m'.batch[i] == m.batch[i + 1];
    assert m.batch[0].id in ClaimIds(m.batch);
  }

  /** No starvation: while attempts are recorded and new rows are younger, at most
      a tenth as many batches as it has rivals can pass an eligible delivery over,
      so one batch more must select it. */
  lemma NoStarvation(m: Machine, es: seq<Event>, id: nat)
    requires Inv(m) && Run(m, es).Some? && id in m.rows && id !in ClaimIds(m.batch)
    requires forall e :: e in es ==> PassesOver(e, id, m.rows[id])
    ensures Batches(es) <= 5 * |Rivals(m.rows, id)| / DISPATCH_BATCH
  {
    PassingCosts(m, es, id);
    var m' := Run(m, es).value;
    var created := m.rows[id].created;
    ClaimedHaveLeft(m');
    PotentialNonNegative(m'.rows, ClaimIds(m'.batch), id, created, m'.next);
    PotentialBound(m.rows, ClaimIds(m.batch), id, m.next);
    assert Below(Rivals(m.rows, id), m.next) == Rivals(m.rows, id);
  }

  /* ----- without recorded attempts ----- */

  lemma {:induction false} RunJoin(m: Machine, a: seq<Event>, b: seq<Event>)
    requires Run(m, a).Some?
    ensures Run(m, a + b) == Run(Run(m, a).value, b)
    decreases |b|
  {
    if b == [] {
      assert a + b == a;
    } else {
      var n := |b| - 1;
      assert (a + b)[..|a| + n] == a + b[..n];
      RunJoin(m, a, b[..n]);
    }
  }

  lemma {:induction false} BatchesJoin(a: seq<Event>, b: seq<Event>)
    ensures Batches(a + b) == Batches(a) + Batches(b)
    decreases |b|
  {
    if b == [] {
      assert a + b == a;
    } else {
      var n := |b| - 1;
      assert (a + b)[..|a| + n] == a + b[..n];
      BatchesJoin(a, b[..n]);
    }
  }

  /** A batch of which no attempt is recorded. */
  function Round(now: int, batch: seq<Claim>, r: Report): seq<Event> {
    [Found(now, batch)] + Tries(seq(|batch|, i => r))
  }

  function Rounds(now: int, batch: seq<Claim>, r: Report, n: nat): seq<Event> {
    if n == 0 then [] else Rounds(now, batch, r, n - 1) + Round(now, batch, r)
  }

  lemma {:induction false} NothingRecorded(rows: Rows, batch: seq<Claim>, r: Report, n: nat)
    requires n <= |batch| && (r.outcome.Unsent? || !r.committed)
    ensures AttemptedAll(rows, batch[..n], seq(n, i => r)) == rows
  {
    if n > 0 {
      NothingRecorded(rows, batch, r, n - 1);
      assert batch[..n][..n - 1] == batch[..n - 1];
      assert seq(n, i => r)[..n - 1] == seq(n - 1, i => r);
    }
  }

  lemma {:induction false} NoBatchesInTries(results: seq<Report>)
    ensures Batches(Tries(results)) == 0
  {
    if results != [] {
      var n := |results| - 1;
      assert Tries(results)[..n] == Tries(results[..n]);
      NoBatchesInTries(results[..n]);
    }
  }

  lemma OneEvent(m: Machine, e: Event)
    requires Enabled(m, e)
    ensures Run(m, [e]) == Some(Step(m, e)) && Batches([e]) == if e.Found? then 1 else 0
  {
    assert [e][..0] == [];
    assert Run(m, []) == Some(m) && Batches([]) == 0;
  }

  lemma RoundReturns(m: Machine, now: int, batch: seq<Claim>, r: Report)
    requires Enabled(m, Found(now, batch)) && (r.outcome.Unsent? || !r.committed)
    ensures Run(m, Round(now, batch, r)) == Some(m) && Batches(Round(now, batch, r)) == 1
  {
    var first, results := [Found(now, batch)], seq(|batch|, i => r);
    OneEvent(m, Found(now, batch));
    RunJoin(m, first, Tries(results));
    BatchesJoin(first, Tries(results));
    DispatchIsTries(m.(batch := batch), results);
    NothingRecorded(m.rows, batch, r, |batch|);
    NoBatchesInTries(results);
    assert batch[..|batch|] == batch && batch[|batch|..] == [];
  }

  /** Recorded attempts are needed: if none is, a batch that passes a delivery over
      comes again and again, any number of times. */
  lemma {:induction false} UnrecordedStarves(m: Machine, now: int, batch: seq<Claim>, r: Report, id: nat, n: nat)
    requires Inv(m) && Enabled(m, Found(now, batch)) && id in m.rows && (r.outcome.Unsent? || !r.committed)
    requires Eligible(m.rows[id], now) && id !in ClaimIds(batch)
    ensures Run(m, Rounds(now, batch, r, n)) == Some(m) && Batches(Rounds(now, batch, r, n)) == n
    ensures forall e :: e in Rounds(now, batch, r, n) ==> PassesOver(e, id, m.rows[id]) || e == Tried(r)
  {
    if n > 0 {
      UnrecordedStarves(m, now, batch, r, id, n - 1);
      RoundReturns(m, now, batch, r);
      RunJoin(m, Rounds(now, batch, r, n - 1), Round(now, batch, r));
      BatchesJoin(Rounds(now, batch, r, n - 1), Round(now, batch, r));
    }
  }
}
