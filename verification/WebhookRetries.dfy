/** When a delivery is tried again: over every run, never before its delay has passed,
    and what the queries select, by the columns of the rows. */
module WebhookRetries {
  import opened Text
  import opened Webhook
  import opened WebhookProofs
  import WebhookProgress

  /* ----- the machine along a run ----- */

  /** The machines before, between and after the events of a run. */
  ghost predicate Trace(es: seq<Event>, ms: seq<Machine>) {
    && |ms| == |es| + 1 && ms[0] == START
    && forall k :: 0 <= k < |es| ==> Enabled(ms[k], es[k]) && ms[k + 1] == Step(ms[k], es[k])
  }

  /** Every run has them. */
  lemma {:induction false} TraceOfRun(es: seq<Event>) returns (ms: seq<Machine>)
    requires Run(START, es).Some?
    ensures Trace(es, ms) && ms[|es|] == Run(START, es).value
  {
    if es == [] {
      ms := [START];
    } else {
      var n := |es| - 1;
      var before := TraceOfRun(es[..n]);
      ms := before + [Step(before[n], es[n])];
      forall k | 0 <= k < |es|
        ensures Enabled(ms[k], es[k]) && ms[k + 1] == Step(ms[k], es[k])
      {
        assert k < n ==> es[..n][k] == es[k];
      }
    }
  }

  lemma {:induction false} TraceKeeps(es: seq<Event>, ms: seq<Machine>, k: nat)
    requires Trace(es, ms) && k <= |es|
    ensures Inv(ms[k])
  {
    if k > 0 {
      TraceKeeps(es, ms, k - 1);
      StepKeeps(ms[k - 1], es[k - 1]);
    }
  }

  /** One event between two consistent machines. */
  lemma TraceStep(es: seq<Event>, ms: seq<Machine>, k: nat)
    requires Trace(es, ms) && k < |es|
    ensures Inv(ms[k]) && Inv(ms[k + 1]) && Enabled(ms[k], es[k]) && ms[k + 1] == Step(ms[k], es[k])
  {
    TraceKeeps(es, ms, k);
    TraceKeeps(es, ms, k + 1);
  }

  /** The event is an attempt of the delivery that was recorded. */
  ghost predicate Records(m: Machine, e: Event, id: nat) {
    && e.Tried? && e.report.committed && !e.report.outcome.Unsent?
    && m.batch != [] && m.batch[0].id == id
  }

  /** The answer is not one of success. */
  predicate Refused(outcome: Outcome) {
    outcome.NoReply? || (outcome.Reply? && !(200 <= outcome.code < 300))
  }

  /** Thirty seconds, doubled with each attempt. */
  function Delay(n: nat): int {
    if n == 1 then 30 * 1_000_000_000
    else if n == 2 then 60 * 1_000_000_000
    else if n == 3 then 120 * 1_000_000_000
    else 240 * 1_000_000_000
  }

  lemma DelayIs(n: nat)
    requires 1 <= n <= 4
    ensures Delay(n) == 30 * SECOND * Pow2(n - 1)
  {
    assert Pow2(0) == 1 && Pow2(1) == 2 && Pow2(2) == 4 && Pow2(3) == 8;
  }

  /** The delivery is not among those still to be attempted. */
  predicate Idle(m: Machine, id: nat) {
    forall c :: c in m.batch ==> c.id != id
  }

  lemma HeadGone(m: Machine, r: Report)
    requires Inv(m) && m.batch != []
    ensures Idle(Step(m, Tried(r)), m.batch[0].id)
  {
    var rest := m.batch[1..];
    forall c | c in rest
      ensures c.id != m.batch[0].id
    {
      var i :| 0 <= i < |rest| && rest[i] == c;
      assert c == m.batch[i + 1];
    }
  }

  /** The row after a recorded attempt that did not succeed. */
  lemma RefusedRow(m: Machine, r: Report)
    requires Inv(m) && m.batch != [] && m.batch[0].id in m.rows && r.committed && Refused(r.outcome)
    ensures var id, m' := m.batch[0].id, Step(m, Tried(r));
            && id in m'.rows && m'.rows[id].status == Failed && 1 <= m'.rows[id].attempts <= 5 && Idle(m', id)
            && m'.rows[id].nextRetry ==
               (if m'.rows[id].attempts <= 4 then Some(r.now + Delay(m'.rows[id].attempts)) else None)
  {
    RetryIsScheduled(m, r);
    HeadGone(m, r);
    assert ClaimOk(m.rows, m.next, m.batch[0]);
    if m.rows[m.batch[0].id].attempts < 4 {
      DelayIs(m.rows[m.batch[0].id].attempts + 1);
    }
  }

  /* ----- no attempt before its time ----- */

  /** The event selects the delivery. */
  predicate Selects(e: Event, id: nat) {
    e.Found? && id in ClaimIds(e.batch)
  }

  lemma StepKeepsRow(m: Machine, e: Event, id: nat)
    requires Inv(m) && Enabled(m, e) && id in m.rows && !Records(m, e, id)
    ensures id in Step(m, e).rows ==> Step(m, e).rows[id] == m.rows[id]
  {
    if e.Enqueued? {
      InsertedRows(m.rows, m.next, m.pairs, e.now);
    }
  }

  /** The row is as it was, if it is there at all. */
  ghost predicate StillThere(m: Machine, id: nat, was: Delivery) {
    id < m.next && (id in m.rows ==> m.rows[id] == was)
  }

  lemma StillThereStep(m: Machine, e: Event, id: nat, was: Delivery)
    requires Inv(m) && Enabled(m, e) && StillThere(m, id, was) && !Records(m, e, id)
    ensures StillThere(Step(m, e), id, was)
  {
    StepRow(m, e, id);
    if id in m.rows {
      StepKeepsRow(m, e, id);
    }
  }

  /** Between recorded attempts it stays so. */
  lemma {:induction false} RowStays(es: seq<Event>, ms: seq<Machine>, i: nat, k: nat, id: nat)
    requires Trace(es, ms) && i <= k <= |es| && id in ms[i].rows
    requires forall j :: i <= j < k ==> !Records(ms[j], es[j], id)
    ensures StillThere(ms[k], id, ms[i].rows[id])
    decreases k
  {
    TraceKeeps(es, ms, i);
    if i < k {
      RowStays(es, ms, i, k - 1, id);
      TraceStep(es, ms, k - 1);
      assert !Records(ms[k - 1], es[k - 1], id);
      StillThereStep(ms[k - 1], es[k - 1], id, ms[i].rows[id]);
    }
  }

  /** A selected row is pending, or failed and its retry time has come. */
  lemma SelectedRow(m: Machine, e: Event, id: nat)
    requires Enabled(m, e) && Selects(e, id)
    ensures id in m.rows
    ensures m.rows[id].status == Pending || (m.rows[id].status == Failed && m.rows[id].nextRetry.Some?
                                             && m.rows[id].nextRetry.value <= e.now)
  {
    var i :| 0 <= i < |e.batch| && e.batch[i].id == id;
    assert e.batch[i].id in EligibleIds(m.rows, e.now);
  }

  /** Over every run: a delivery that is selected after its `n`-th attempt was refused,
      with none recorded in between, has waited for the `n`-th delay; after the fifth it is
      never selected. */
  lemma RetryWaits(es: seq<Event>, ms: seq<Machine>, i: nat, j: nat, id: nat)
    requires Trace(es, ms) && i < j < |es| && Selects(es[j], id)
    requires Records(ms[i], es[i], id) && Refused(es[i].report.outcome) && id in ms[i].rows
    requires forall k :: i < k < j ==> !Records(ms[k], es[k], id)
    ensures id in ms[i + 1].rows
    ensures var n := ms[i + 1].rows[id].attempts; 1 <= n <= 4 && es[j].now >= es[i].report.now + Delay(n)
  {
    TraceStep(es, ms, i);
    RefusedRow(ms[i], es[i].report);
    RowStays(es, ms, i + 1, j, id);
    TraceStep(es, ms, j);
    SelectedRow(ms[j], es[j], id);
  }

  /* ----- with a clock that does not run backwards ----- */

  function TimeOf(e: Event): Option<int> {
    match e
    case Found(now, _) => Some(now)
    case Tried(r) => Some(r.now)
    case _ => None
  }

  /** Selections and attempts have times that never decrease. */
  predicate Forwards(es: seq<Event>) {
    forall i, j :: 0 <= i < j < |es| && TimeOf(es[i]).Some? && TimeOf(es[j]).Some? ==>
      TimeOf(es[i]).value <= TimeOf(es[j]).value
  }

  /** The delivery has been selected between `i` and `k`, at or after `due`. */
  ghost predicate SelectedLate(es: seq<Event>, i: nat, k: nat, id: nat, due: int)
    requires k <= |es|
  {
    exists f :: i <= f < k && Selects(es[f], id) && es[f].now >= due
  }

  /** The delivery has not been selected since, or it was after its delay. */
  ghost predicate Waited(es: seq<Event>, ms: seq<Machine>, i: nat, k: nat, id: nat, was: Delivery, due: int)
    requires k <= |es| && |ms| == |es| + 1
  {
    SelectedLate(es, i, k, id, due) || (StillThere(ms[k], id, was) && Idle(ms[k], id))
  }

  lemma NotSelected(m: Machine, e: Event, id: nat)
    requires Inv(m) && Enabled(m, e) && Idle(m, id) && !Selects(e, id)
    ensures Idle(Step(m, e), id)
  {
    if e.Found? {
      forall c | c in e.batch
        ensures c.id != id
      {
        var i :| 0 <= i < |e.batch| && e.batch[i] == c;
        assert e.batch[i].id in ClaimIds(e.batch);
      }
    }
  }

  lemma WaitedStep(es: seq<Event>, ms: seq<Machine>, i: nat, k: nat, id: nat, was: Delivery, due: int)
    requires Trace(es, ms) && i <= k < |es| && was.status == Failed && was.nextRetry == Some(due)
    requires Waited(es, ms, i, k, id, was, due)
    ensures Waited(es, ms, i, k + 1, id, was, due)
  {
    var m, e := ms[k], es[k];
    TraceStep(es, ms, k);
    if SelectedLate(es, i, k, id, due) {
      var f :| i <= f < k && Selects(es[f], id) && es[f].now >= due;
      assert i <= f < k + 1;
    } else if Selects(e, id) {
      SelectedRow(m, e, id);
      assert i <= k < k + 1;
    } else {
      if e.Tried? {
        assert m.batch[0] in m.batch;
      }
      StillThereStep(m, e, id, was);
      NotSelected(m, e, id);
    }
  }

  lemma {:induction false} WaitedUntil(es: seq<Event>, ms: seq<Machine>, i: nat, k: nat, id: nat, was: Delivery,
                                       due: int)
    requires Trace(es, ms) && i <= k <= |es| && was.status == Failed && was.nextRetry == Some(due)
    requires StillThere(ms[i], id, was) && Idle(ms[i], id)
    ensures Waited(es, ms, i, k, id, was, due)
    decreases k
  {
    if i < k {
      WaitedUntil(es, ms, i, k - 1, id, was, due);
      WaitedStep(es, ms, i, k - 1, id, was, due);
    }
  }

  /** With such a clock every later attempt comes after the delay, recorded or not. */
  lemma AttemptWaits(es: seq<Event>, ms: seq<Machine>, i: nat, j: nat, id: nat)
    requires Trace(es, ms) && Forwards(es) && i < j < |es|
    requires Records(ms[i], es[i], id) && Refused(es[i].report.outcome) && id in ms[i].rows
    requires es[j].Tried? && ms[j].batch != [] && ms[j].batch[0].id == id
    ensures id in ms[i + 1].rows
    ensures var n := ms[i + 1].rows[id].attempts; n <= 4 ==> es[j].report.now >= es[i].report.now + Delay(n)
  {
    TraceStep(es, ms, i);
    RefusedRow(ms[i], es[i].report);
    var was := ms[i + 1].rows[id];
    if was.attempts <= 4 {
      var due := es[i].report.now + Delay(was.attempts);
      WaitedUntil(es, ms, i + 1, j, id, was, due);
      assert ms[j].batch[0] in ms[j].batch;
      var f :| i + 1 <= f < j && Selects(es[f], id) && es[f].now >= due;
      assert TimeOf(es[f]) == Some(es[f].now) && TimeOf(es[j]) == Some(es[j].report.now);
    }
  }

  /* ----- from the first attempt to the last ----- */

  /** A row that is there now was there at any time since its identifier was used. */
  lemma {:induction false} WasThere(es: seq<Event>, ms: seq<Machine>, k: nat, j: nat, id: nat)
    requires Trace(es, ms) && k <= j <= |es| && id < ms[k].next && id in ms[j].rows
    ensures id in ms[k].rows
    decreases j - k
  {
    if k < j {
      TraceStep(es, ms, k);
      StepRow(ms[k], es[k], id);
      WasThere(es, ms, k + 1, j, id);
    }
  }

  lemma {:induction false} FinalStays(es: seq<Event>, ms: seq<Machine>, k: nat, j: nat, id: nat)
    requires Trace(es, ms) && k <= j <= |es| && id in ms[k].rows && Final(ms[k].rows[id])
    ensures StillThere(ms[j], id, ms[k].rows[id])
    decreases j
  {
    TraceKeeps(es, ms, k);
    if k < j {
      FinalStays(es, ms, k, j - 1, id);
      TraceStep(es, ms, j - 1);
      StepRow(ms[j - 1], es[j - 1], id);
    }
  }

  /** A row that an attempt leaves was there before it. */
  lemma RowBefore(es: seq<Event>, ms: seq<Machine>, k: nat, j: nat, id: nat)
    requires Trace(es, ms) && k <= j < |es| && Records(ms[k], es[k], id) && id in ms[j + 1].rows
    ensures id in ms[k].rows && id in ms[k + 1].rows
  {
    TraceStep(es, ms, k);
    assert ClaimOk(ms[k].rows, ms[k].next, ms[k].batch[0]);
    StepRow(ms[k], es[k], id);
    WasThere(es, ms, k + 1, j + 1, id);
  }

  /** The last recorded attempt before event `j`. */
  lemma {:induction false} LastRecorded(es: seq<Event>, ms: seq<Machine>, i: nat, j: nat, id: nat) returns (k: nat)
    requires Trace(es, ms) && i < j <= |es| && Records(ms[i], es[i], id)
    ensures i <= k < j && Records(ms[k], es[k], id) && forall x :: k < x < j ==> !Records(ms[x], es[x], id)
    decreases j
  {
    if Records(ms[j - 1], es[j - 1], id) {
      k := j - 1;
    } else {
      k := LastRecorded(es, ms, i, j - 1, id);
    }
  }

  /** An attempt that is followed by another one was refused. */
  lemma FollowedIsRefused(es: seq<Event>, ms: seq<Machine>, k: nat, j: nat, id: nat)
    requires Trace(es, ms) && k < j < |es| && Records(ms[k], es[k], id) && Records(ms[j], es[j], id)
    requires id in ms[k].rows && id in ms[k + 1].rows && id in ms[j].rows
    ensures Refused(es[k].report.outcome) && ms[k + 1].rows[id].attempts <= 4
  {
    TraceStep(es, ms, k);
    TraceStep(es, ms, j);
    RetryIsScheduled(ms[k], es[k].report);
    assert ClaimOk(ms[j].rows, ms[j].next, ms[j].batch[0]);
    if Final(ms[k + 1].rows[id]) {
      FinalStays(es, ms, k + 1, j, id);
    }
  }

  /** The delays before the `n`-th attempt. */
  function Total(n: nat): int {
    if n <= 1 then 0 else Total(n - 1) + Delay(n - 1)
  }

  /** Two recorded attempts with none between. */
  lemma NextAttempt(es: seq<Event>, ms: seq<Machine>, k: nat, j: nat, id: nat)
    requires Trace(es, ms) && Forwards(es) && k < j < |es| && Records(ms[k], es[k], id) && Records(ms[j], es[j], id)
    requires id in ms[j + 1].rows && forall x :: k < x < j ==> !Records(ms[x], es[x], id)
    ensures id in ms[k + 1].rows && 1 <= ms[k + 1].rows[id].attempts == ms[j + 1].rows[id].attempts - 1
    ensures es[j].report.now >= es[k].report.now + Delay(ms[k + 1].rows[id].attempts)
  {
    RowBefore(es, ms, k, j, id);
    RowBefore(es, ms, j, j, id);
    FollowedIsRefused(es, ms, k, j, id);
    AttemptWaits(es, ms, k, j, id);
    RowStays(es, ms, k + 1, j, id);
    TraceStep(es, ms, k);
    TraceStep(es, ms, j);
    RetryIsScheduled(ms[j], es[j].report);
    RetryIsScheduled(ms[k], es[k].report);
  }

  lemma {:induction false} LateBy(es: seq<Event>, ms: seq<Machine>, i: nat, j: nat, id: nat)
    requires Trace(es, ms) && Forwards(es) && i < j < |es| && Records(ms[i], es[i], id) && Records(ms[j], es[j], id)
    requires id in ms[j + 1].rows
    ensures id in ms[i + 1].rows
    ensures var n, n' := ms[i + 1].rows[id].attempts, ms[j + 1].rows[id].attempts;
            n < n' && es[j].report.now - es[i].report.now >= Total(n') - Total(n)
    decreases j
  {
    var k := LastRecorded(es, ms, i, j, id);
    NextAttempt(es, ms, k, j, id);
    if i < k {
      LateBy(es, ms, i, k, id);
    }
  }

  /** So a delivery is given up no sooner than 450 seconds after its first attempt. */
  lemma ExhaustedLate(es: seq<Event>, ms: seq<Machine>, i: nat, j: nat, id: nat)
    requires Trace(es, ms) && Forwards(es) && i < j < |es| && Records(ms[i], es[i], id) && Records(ms[j], es[j], id)
    requires id in ms[j + 1].rows && ms[j + 1].rows[id].status == Failed && ms[j + 1].rows[id].nextRetry == None
    requires id in ms[i + 1].rows ==> ms[i + 1].rows[id].attempts == 1
    ensures es[j].report.now >= es[i].report.now + 450 * 1_000_000_000
  {
    LateBy(es, ms, i, j, id);
    TraceKeeps(es, ms, j + 1);
    assert RowOk(ms[j + 1].rows[id]);
    assert Total(2) == 30 * 1_000_000_000 && Total(3) == 90 * 1_000_000_000 && Total(4) == 210 * 1_000_000_000;
  }

  /* ----- what the queries select ----- */

  /** Selected are pending rows and failed ones whose retry time has come, each once: all
      of them if they are fewer than fifty, and otherwise fifty, none of them younger than
      one that is left out. */
  lemma SelectsDue(m: Machine, now: int, batch: seq<Claim>, id: nat)
    requires Enabled(m, Found(now, batch)) && id in m.rows
    ensures var row := m.rows[id];
            var due := row.status == Pending
                       || (row.status == Failed && row.nextRetry.Some? && row.nextRetry.value <= now);
            && |batch| <= 50 && (forall i, j :: 0 <= i < j < |batch| ==> batch[i].id != batch[j].id)
            && (id in ClaimIds(batch) ==> due)
            && (due && id !in ClaimIds(batch) ==>
                  |batch| == 50 && forall c :: c in batch ==> c.id in m.rows && m.rows[c.id].created <= row.created)
  {
    if id in ClaimIds(batch) {
      var i :| 0 <= i < |batch| && batch[i].id == id;
      assert batch[i].id in EligibleIds(m.rows, now);
    } else if id in EligibleIds(m.rows, now) {
      LeftOut(m.rows, now, batch, id);
      forall c | c in batch
        ensures c.id in m.rows && m.rows[c.id].created <= m.rows[id].created
      {
        var i :| 0 <= i < |batch| && batch[i] == c;
        assert batch[i].id in EligibleIds(m.rows, now);
      }
    }
  }

  lemma LeftOut(rows: Rows, now: int, batch: seq<Claim>, id: nat)
    requires IsBatch(rows, now, DISPATCH_BATCH, batch) && id in EligibleIds(rows, now) && id !in ClaimIds(batch)
    ensures |batch| == 50
  {
    forall x | x in ClaimIds(batch)
      ensures x in EligibleIds(rows, now) - {id}
    {
      var i :| 0 <= i < |batch| && batch[i].id == x;
      assert batch[i].id in EligibleIds(rows, now);
    }
    assert ClaimIds(batch) <= EligibleIds(rows, now) - {id};
    WebhookProgress.Smaller(ClaimIds(batch), EligibleIds(rows, now) - {id});
    WebhookProgress.ClaimIdsCount(batch);
  }

  /** Listed are the pairs of an audit entry of the last 24 hours and an active
      subscription of its system that have no delivery: all of them if they are fewer than
      a hundred. */
  lemma ListsUndelivered(m: Machine, now: int, pairs: seq<Pair>, p: Pair)
    requires Enabled(m, Listed(now, pairs))
    ensures var missing :=
              && p.audit in m.audits && p.sub in m.subs
              && m.audits[p.audit].system == Some(m.subs[p.sub].system) && m.subs[p.sub].active
              && now - 24 * 3600 * 1_000_000_000 < m.audits[p.audit].timestamp
              && forall id :: id in m.rows ==> !(m.rows[id].audit == p.audit && m.rows[id].sub == p.sub);
            && |pairs| <= 100 && (p in pairs ==> missing) && (missing && p !in pairs ==> |pairs| == 100)
  {
    assert Undelivered(m.rows, m.audits, m.subs, now, p.audit, p.sub) ==> Pair(p.audit, p.sub) == p;
  }

  /** A recorded attempt: delivered exactly if the answer is one of success, with its
      code; the row's pair and age stay. */
  lemma AttemptWrites(m: Machine, r: Report)
    requires Inv(m) && m.batch != [] && m.batch[0].id in m.rows && r.committed && !r.outcome.Unsent?
    ensures var id := m.batch[0].id;
            var was, row := m.rows[id], Step(m, Tried(r)).rows[id];
            && row.sub == was.sub && row.audit == was.audit && row.created == was.created
            && row.attempts == was.attempts + 1
            && row.status == (if r.outcome.Reply? && 200 <= r.outcome.code < 300 then Delivered else Failed)
            && row.lastCode == (if r.outcome.Reply? then Some(r.outcome.code) else None)
  {
    assert ClaimOk(m.rows, m.next, m.batch[0]);
  }
}
