/** The webhook dispatcher: delivery rows, the queries that select them, and the
    steps of its one loop. Times are nanoseconds. */
module Webhook {
  import opened Text
  import opened Placeholders

  const SECOND: int := 1_000_000_000
  const MAX_RETRIES: nat := 5
  const ENQUEUE_BATCH: nat := 100
  const DISPATCH_BATCH: nat := 50
  const LOOKBACK: int := 24 * 3600 * SECOND

  datatype Status = Pending | Delivered | Failed

  datatype Delivery = Delivery(sub: nat, audit: nat, status: Status, attempts: nat,
                               nextRetry: Option<int>, lastCode: Option<int>, created: int)

  type Rows = map<nat, Delivery>

  datatype Subscription = Subscription(system: nat, active: bool)

  datatype AuditEntry = AuditEntry(system: Option<nat>, timestamp: int)

  /** A selected delivery with the number of attempts it had when selected. */
  datatype Claim = Claim(id: nat, attempts: nat)

  /** What becomes of one HTTP call; `Unsent` when no request could be built. */
  datatype Outcome = Unsent | NoReply | Reply(code: int)

  /* ----- backoff ----- */

  function Pow2(n: nat): nat {
    if n == 0 then 1 else 2 * Pow2(n - 1)
  }

  /** The delay after failed attempt `n`, in 64-bit arithmetic. */
  function Backoff(n: nat): int
    requires 1 <= n <= 63
  {
    var backoff := Wrap(30 * SECOND * Wrap(Pow2(n - 1)));
    if backoff < 24 * 3600 * SECOND then backoff else 24 * 3600 * SECOND
  }

  /* ----- one row ----- */

  predicate Succeeded(outcome: Outcome) {
    outcome.Reply? && 200 <= outcome.code < 300
  }

  /** The row that `UpdateDelivery` writes after attempt `n`. */
  function Updated(row: Delivery, n: nat, outcome: Outcome, now: int): Delivery
    requires 1 <= n <= 63
  {
    var status := if Succeeded(outcome) then Delivered else Failed;
    row.(status := status, attempts := n,
         nextRetry := if status.Failed? && n < MAX_RETRIES then Some(now + Backoff(n)) else None,
         lastCode := if outcome.Reply? then Some(outcome.code) else None)
  }

  function NewDelivery(sub: nat, audit: nat, now: int): Delivery {
    Delivery(sub, audit, Pending, 0, None, None, now)
  }

  /** The rows `FindPending` may return. */
  predicate Eligible(row: Delivery, now: int) {
    row.status.Pending? || (row.status.Failed? && row.nextRetry.Some? && row.nextRetry.value <= now)
  }

  function EligibleIds(rows: Rows, now: int): set<nat> {
    set id | id in rows && Eligible(rows[id], now)
  }

  function Min(a: nat, b: nat): nat {
    if a < b then a else b
  }

  function ClaimIds(batch: seq<Claim>): set<nat> {
    set i | 0 <= i < |batch| :: batch[i].id
  }

  /** A result of `FindPending`: the oldest eligible rows, each once, as many as
      there are up to the limit. */
  predicate IsBatch(rows: Rows, now: int, limit: nat, batch: seq<Claim>) {
    && (forall i :: 0 <= i < |batch| ==>
        batch[i].id in EligibleIds(rows, now) && batch[i].attempts == rows[batch[i].id].attempts)
    && (forall i, j :: 0 <= i < j < |batch| ==> batch[i].id != batch[j].id)
    && |batch| == Min(limit, |EligibleIds(rows, now)|)
    && (forall i, id :: 0 <= i < |batch| && id in EligibleIds(rows, now) && id !in ClaimIds(batch)
          ==> rows[batch[i].id].created <= rows[id].created)
  }

  /** A pair `FindUndelivered` may return: a recent audit entry and an active
      subscription of its system without a delivery row. */
  predicate Undelivered(rows: Rows, audits: map<nat, AuditEntry>, subs: map<nat, Subscription>, now: int, audit: nat,
                        sub: nat) {
    && audit in audits && sub in subs
    && audits[audit].system == Some(subs[sub].system) && subs[sub].active
    && audits[audit].timestamp > now - LOOKBACK
    && forall id :: id in rows ==> rows[id].audit != audit || rows[id].sub != sub
  }

  datatype Pair = Pair(audit: nat, sub: nat)

  /** A result of `FindUndelivered`: the oldest such pairs, each once, all of them
      unless the limit is reached. */
  ghost predicate IsUndelivered(rows: Rows, audits: map<nat, AuditEntry>, subs: map<nat, Subscription>, now: int,
                                pairs: seq<Pair>) {
    && |pairs| <= ENQUEUE_BATCH
    && (forall p :: p in pairs ==> Undelivered(rows, audits, subs, now, p.audit, p.sub))
    && (forall i, j :: 0 <= i < j < |pairs| ==> pairs[i] != pairs[j])
    && (forall audit, sub :: Undelivered(rows, audits, subs, now, audit, sub) && Pair(audit, sub) !in pairs ==>
          && |pairs| == ENQUEUE_BATCH
          && forall p :: p in pairs ==> audits[p.audit].timestamp <= audits[audit].timestamp)
  }

  /** The rows after inserting one pending row per pair, with ids from `next` on. */
  function Inserted(rows: Rows, next: nat, pairs: seq<Pair>, now: int): Rows {
    if pairs == [] then rows
    else
      var n := |pairs| - 1;
      Inserted(rows, next, pairs[..n], now)[next + n := NewDelivery(pairs[n].sub, pairs[n].audit, now)]
  }

  /** The rows after one attempt; a lost update or an unsent request changes
      nothing, and neither does an update of a deleted row. */
  function Attempted(rows: Rows, c: Claim, outcome: Outcome, committed: bool, now: int): Rows {
    if outcome.Unsent? || !committed || c.id !in rows || c.attempts + 1 > 63 then rows
    else rows[c.id := Updated(rows[c.id], c.attempts + 1, outcome, now)]
  }

  datatype Report = Report(outcome: Outcome, committed: bool, now: int)

  /** The rows after the attempts of a whole batch, in order. */
  function AttemptedAll(rows: Rows, batch: seq<Claim>, results: seq<Report>): Rows
    requires |batch| == |results|
  {
    if batch == [] then rows
    else
      var n := |batch| - 1;
      var r := results[n];
      Attempted(AttemptedAll(rows, batch[..n], results[..n]), batch[n], r.outcome, r.committed, r.now)
  }

  /* ----- selecting ----- */

  /** The rows selected so far, oldest first, and those left. */
  ghost predicate Selected(rows: Rows, all: set<nat>, left: set<nat>, batch: seq<Claim>) {
    && left <= all <= rows.Keys
    && (forall i :: 0 <= i < |batch| ==> batch[i].id in all - left && batch[i].attempts == rows[batch[i].id].attempts)
    && (forall i, j :: 0 <= i < j < |batch| ==> batch[i].id != batch[j].id)
    && |batch| + |left| == |all|
    && (forall i, id :: 0 <= i < |batch| && id in left ==> rows[batch[i].id].created <= rows[id].created)
    && forall id :: id in all && id !in left ==> id in ClaimIds(batch)
  }

  lemma SelectMore(rows: Rows, all: set<nat>, left: set<nat>, batch: seq<Claim>, id: nat)
    requires Selected(rows, all, left, batch) && id in left
    requires forall x :: x in left ==> rows[id].created <= rows[x].created
    ensures Selected(rows, all, left - {id}, batch + [Claim(id, rows[id].attempts)])
  {
    var more := batch + [Claim(id, rows[id].attempts)];
    assert forall i :: 0 <= i < |batch| ==> more[i] == batch[i];
    forall x | x in all && x !in left - {id}
      ensures x in ClaimIds(more)
    {
      if x == id {
        assert more[|batch|].id == id;
      } else {
        var i :| 0 <= i < |batch| && batch[i].id == x;
        assert more[i].id == x;
      }
    }
  }

  lemma SelectedAll(rows: Rows, now: int, limit: nat, left: set<nat>, batch: seq<Claim>)
    requires Selected(rows, EligibleIds(rows, now), left, batch) && |batch| <= limit && (|batch| >= limit || left == {})
    ensures IsBatch(rows, now, limit, batch)
  {
    forall i, id | 0 <= i < |batch| && id in EligibleIds(rows, now) && id !in ClaimIds(batch)
      ensures rows[batch[i].id].created <= rows[id].created
    {
      assert id in left;
    }
  }

  /* ----- the dispatcher ----- */

  class Dispatcher {
    var rows: Rows
    var next: nat

    constructor ()
      ensures rows == map[] && next == 0
    {
      rows, next := map[], 0;
    }

    /** `enqueue`: all the pairs become rows in one transaction, or none does. */
    method Enqueue(pairs: seq<Pair>, now: int, committed: bool)
      modifies this
      ensures rows == if committed then Inserted(old(rows), old(next), pairs, now) else old(rows)
      ensures next == old(next) + |pairs|
    {
      var tx := rows;
      var id := next;
      for i := 0 to |pairs|
        invariant id == next + i && rows == old(rows) && next == old(next)
        invariant tx == Inserted(rows, next, pairs[..i], now)
      {
        assert pairs[..i + 1][..i] == pairs[..i];
        tx := tx[id := NewDelivery(pairs[i].sub, pairs[i].audit, now)];
        id := id + 1;
      }
      assert pairs[..|pairs|] == pairs;
      next := id;
      if committed {
        rows := tx;
      }
    }

    /** `FindPending`: one row after the other, oldest first. */
    method FindPending(now: int, limit: nat) returns (batch: seq<Claim>)
      ensures IsBatch(rows, now, limit, batch)
    {
      var left := EligibleIds(rows, now);
      batch := [];
      assert ClaimIds(batch) == {};
      while |batch| < limit && left != {}
        invariant Selected(rows, EligibleIds(rows, now), left, batch)
        invariant |batch| <= limit
        decreases |left|
      {
        var id := Oldest(rows, left);
        SelectMore(rows, EligibleIds(rows, now), left, batch, id);
        batch := batch + [Claim(id, rows[id].attempts)];
        left := left - {id};
      }
      SelectedAll(rows, now, limit, left, batch);
    }

    /** One attempt: the HTTP call has happened with `outcome`, then the row is
        updated in a transaction that commits or not. */
    method Attempt(pd: Claim, outcome: Outcome, committed: bool, now: int)
      requires pd.attempts < MAX_RETRIES
      modifies this`rows
      ensures rows == Attempted(old(rows), pd, outcome, committed, now)
    {
      if outcome.Unsent? {
        return;
      }
      var newAttempts := pd.attempts + 1;
      var status := Failed;
      var lastCode := None;
      if outcome.Reply? {
        lastCode := Some(outcome.code);
        if outcome.code >= 200 && outcome.code < 300 {
          status := Delivered;
        }
      }
      var nextRetry := None;
      if status == Failed && newAttempts < MAX_RETRIES {
        nextRetry := Some(now + Backoff(newAttempts));
      }
      if committed && pd.id in rows {
        rows := rows[pd.id := rows[pd.id].(status := status, attempts := newAttempts, nextRetry := nextRetry,
                                           lastCode := lastCode)];
      }
    }

    method Dispatch(pending: seq<Claim>, results: seq<Report>)
      requires |pending| == |results|
      requires forall i :: 0 <= i < |pending| ==> pending[i].attempts < MAX_RETRIES
      modifies this`rows
      ensures rows == AttemptedAll(old(rows), pending, results)
    {
      for i := 0 to |pending|
        invariant rows == AttemptedAll(old(rows), pending[..i], results[..i])
      {
        assert pending[..i + 1][..i] == pending[..i] && results[..i + 1][..i] == results[..i];
        Attempt(pending[i], results[i].outcome, results[i].committed, results[i].now);
      }
      assert pending[..|pending|] == pending && results[..|pending|] == results;
    }
  }

  /** An oldest row of a set. */
  method Oldest(rows: Rows, ids: set<nat>) returns (id: nat)
    requires ids != {} && ids <= rows.Keys
    ensures id in ids && forall x :: x in ids ==> rows[id].created <= rows[x].created
  {
    id :| id in ids;
    var left := ids - {id};
    while left != {}
      invariant left <= ids && id in ids
      invariant forall x :: x in ids - left ==> rows[id].created <= rows[x].created
      decreases |left|
    {
      var x :| x in left;
      if rows[x].created < rows[id].created {
        id := x;
      }
      left := left - {x};
    }
  }
}
