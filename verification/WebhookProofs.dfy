/** The dispatcher's rows over every run, and its progress. */
module WebhookProofs {
  import opened Text
  import opened Placeholders
  import opened Webhook

  /** The database, and what the one dispatcher holds in memory: the pairs it is
      about to enqueue, or the deliveries it has still to attempt. */
  datatype Machine = Machine(rows: Rows, next: nat, audits: map<nat, AuditEntry>, subs: map<nat, Subscription>,
                             pairs: seq<Pair>, batch: seq<Claim>)

  datatype Event =
    | Listed(now: int, pairs: seq<Pair>)
    | Enqueued(now: int, committed: bool)
    | Found(now: int, batch: seq<Claim>)
    | Tried(report: Report)
    | AuditAdded(audit: nat, entry: AuditEntry)
    | SubscriptionSet(sub: nat, value: Subscription)
    | SubscriptionRemoved(sub: nat)
    | Restarted

  const START := Machine(map[], 0, map[], map[], [], [])

  /** Deleting a subscription deletes its deliveries. */
  function Cascade(rows: Rows, sub: nat): Rows {
    map id | id in rows && rows[id].sub != sub :: rows[id]
  }

  /** Inserting needs every subscription still to be there. */
  predicate Present(m: Machine, pairs: seq<Pair>) {
    forall p :: p in pairs ==> p.sub in m.subs
  }

  ghost predicate Enabled(m: Machine, e: Event) {
    match e
    case Listed(now, pairs) => m.pairs == [] && m.batch == [] && IsUndelivered(m.rows, m.audits, m.subs, now, pairs)
    case Enqueued(_, committed) => committed ==> Present(m, m.pairs)
    case Found(now, batch) => m.pairs == [] && m.batch == [] && IsBatch(m.rows, now, DISPATCH_BATCH, batch)
    case Tried(_) => m.batch != []
    case AuditAdded(audit, _) => audit !in m.audits
    case _ => true
  }

  ghost function Step(m: Machine, e: Event): Machine
    requires Enabled(m, e)
  {
    match e
    case Listed(_, pairs) => m.(pairs := pairs)
    case Enqueued(now, committed) =>
      m.(rows := if committed then Inserted(m.rows, m.next, m.pairs, now)
         else m.rows, next := m.next + |m.pairs|, pairs := [])
    case Found(_, batch) => m.(batch := batch)
    case Tried(r) => m.(rows := Attempted(m.rows, m.batch[0], r.outcome, r.committed, r.now), batch := m.batch[1..])
    case AuditAdded(audit, entry) => m.(audits := m.audits[audit := entry])
    case SubscriptionSet(sub, value) => m.(subs := m.subs[sub := value])
    case SubscriptionRemoved(sub) => m.(subs := m.subs - {sub}, rows := Cascade(m.rows, sub))
    case Restarted => m.(pairs := [], batch := [])
  }

  /** The machine after a run, if every event was possible. */
  ghost function Run(m: Machine, es: seq<Event>): Option<Machine> {
    if es == [] then Some(m)
    else
      var before := Run(m, es[..|es| - 1]);
      if before.Some? && Enabled(before.value, es[|es| - 1]) then Some(Step(before.value, es[|es| - 1])) else None
  }

  /* ----- what every run keeps ----- */

  /** The life cycle of one row. */
  predicate RowOk(row: Delivery) {
    match row.status
    case Pending => row.attempts == 0 && row.nextRetry.None?
    case Failed => if row.nextRetry.Some? then 1 <= row.attempts <= 4 else row.attempts == 5
    case Delivered => 1 <= row.attempts <= 5 && row.nextRetry.None?
  }

  /** Delivered, or failed for good. */
  predicate Final(row: Delivery) {
    row.status.Delivered? || (row.status.Failed? && row.nextRetry.None?)
  }

  predicate RowsOk(m: Machine) {
    forall id :: id in m.rows ==>
        id < m.next && RowOk(m.rows[id]) && m.rows[id].sub in m.subs && m.rows[id].audit in m.audits
  }

  /** At most one delivery per audit entry and subscription. */
  predicate OnePerPair(rows: Rows) {
    forall a, b {:trigger rows[a], rows[b]} ::
      a in rows && b in rows && rows[a].audit == rows[b].audit && rows[a].sub == rows[b].sub ==> a == b
  }

  predicate NoRow(rows: Rows, p: Pair) {
    forall id :: id in rows ==> rows[id].audit != p.audit || rows[id].sub != p.sub
  }

  predicate PairsOk(m: Machine) {
    && (forall i, j :: 0 <= i < j < |m.pairs| ==> m.pairs[i] != m.pairs[j])
    && forall p :: p in m.pairs ==> NoRow(m.rows, p) && p.audit in m.audits
  }

  /** A selected delivery is, if it still exists, as it was when selected. */
  predicate ClaimOk(rows: Rows, next: nat, c: Claim) {
    && c.id < next && c.attempts < MAX_RETRIES
    && (c.id in rows ==> rows[c.id].attempts == c.attempts && !Final(rows[c.id]))
  }

  predicate BatchOk(m: Machine) {
    && (forall i, j :: 0 <= i < j < |m.batch| ==> m.batch[i].id != m.batch[j].id)
    && forall i :: 0 <= i < |m.batch| ==> ClaimOk(m.rows, m.next, m.batch[i])
  }

  predicate Inv(m: Machine) {
    RowsOk(m) && OnePerPair(m.rows) && PairsOk(m) && BatchOk(m)
  }

  /** The rows that `Inserted` adds. */
  lemma {:induction false} InsertedRows(rows: Rows, next: nat, pairs: seq<Pair>, now: int)
    requires forall id :: id in rows ==> id < next
    ensures var r := Inserted(rows, next, pairs, now);
            && (forall id :: id in rows ==> id in r && r[id] == rows[id])
            && (forall id :: id in r && id !in rows ==>
                next <= id < next + |pairs| && r[id] == NewDelivery(pairs[id - next].sub, pairs[id - next].audit, now))
            && (forall id :: next <= id < next + |pairs| ==> id in r)
  {
    if pairs != [] {
      InsertedRows(rows, next, pairs[..|pairs| - 1], now);
    }
  }

  lemma NewRowsOk(m: Machine, now: int, r: Rows, id: nat)
    requires Inv(m) && Enabled(m, Enqueued(now, true)) && r == Inserted(m.rows, m.next, m.pairs, now) && id in r
             && id !in m.rows
    ensures m.next <= id < m.next + |m.pairs| && m.pairs[id - m.next] == Pair(r[id].audit, r[id].sub)
    ensures RowOk(r[id]) && r[id].sub in m.subs && r[id].audit in m.audits
            && NoRow(m.rows, Pair(r[id].audit, r[id].sub))
  {
    InsertedRows(m.rows, m.next, m.pairs, now);
    assert m.pairs[id - m.next] in m.pairs;
  }

  lemma EnqueueKeeps(m: Machine, now: int, committed: bool)
    requires Inv(m) && Enabled(m, Enqueued(now, committed))
    ensures Inv(Step(m, Enqueued(now, committed)))
  {
    var r := Inserted(m.rows, m.next, m.pairs, now);
    if committed {
      InsertedRows(m.rows, m.next, m.pairs, now);
      forall id | id in r && id !in m.rows
        ensures id < m.next + |m.pairs| && RowOk(r[id]) && r[id].sub in m.subs && r[id].audit in m.audits
      {
        NewRowsOk(m, now, r, id);
      }
      forall a, b | a in r && b in r && r[a].audit == r[b].audit && r[a].sub == r[b].sub
        ensures a == b
      {
        if a !in m.rows {
          NewRowsOk(m, now, r, a);
        }
        if b !in m.rows {
          NewRowsOk(m, now, r, b);
        }
      }
    }
  }

  lemma TriedKeeps(m: Machine, r: Report)
    requires Inv(m) && m.batch != []
    ensures Inv(Step(m, Tried(r)))
  {
    var c := m.batch[0];
    var m' := Step(m, Tried(r));
    assert ClaimOk(m.rows, m.next, c);
    forall i | 0 <= i < |m'.batch|
      ensures ClaimOk(m'.rows, m.next, m'.batch[i])
    {
      assert m'.batch[i] == m.batch[i + 1];
    }
  }

  lemma StepKeeps(m: Machine, e: Event)
    requires Inv(m) && Enabled(m, e)
    ensures Inv(Step(m, e))
  {
    match e
    case Enqueued(now, committed) => EnqueueKeeps(m, now, committed);
    case Tried(r) => TriedKeeps(m, r);
    case Found(now, batch) =>
      forall i | 0 <= i < |batch|
        ensures ClaimOk(m.rows, m.next, batch[i])
      {
        assert batch[i].id in EligibleIds(m.rows, now);
      }
    case Listed(now, pairs) =>
      forall p | p in pairs
        ensures NoRow(m.rows, p) && p.audit in m.audits
      {
        assert Undelivered(m.rows, m.audits, m.subs, now, p.audit, p.sub);
      }
    case _ =>
  }

  lemma {:induction false} RunKeeps(m: Machine, es: seq<Event>)
    requires Inv(m) && Run(m, es).Some?
    ensures Inv(Run(m, es).value)
  {
    if es != [] {
      RunKeeps(m, es[..|es| - 1]);
      StepKeeps(Run(m, es[..|es| - 1]).value, es[|es| - 1]);
    }
  }

  /** The life cycle, over every run: one row per audit entry and subscription;
      pending means no attempts, failed with a retry time 1 to 4, failed without
      one exactly 5. */
  lemma EveryRun(es: seq<Event>)
    requires Run(START, es).Some?
    ensures var m := Run(START, es).value;
            && OnePerPair(m.rows)
            && forall id :: id in m.rows ==> RowOk(m.rows[id])
  {
    RunKeeps(START, es);
  }

  /* ----- what happens to one row ----- */

  /** The recorded attempts of one delivery in a run. */
  ghost function Recorded(m: Machine, es: seq<Event>, id: nat): nat
    requires Run(m, es).Some?
  {
    if es == [] then 0
    else
      var before := Run(m, es[..|es| - 1]).value;
      var e := es[|es| - 1];
      Recorded(m, es[..|es| - 1], id)
        + if e.Tried? && before.batch[0].id == id && e.report.committed && !e.report.outcome.Unsent? then 1 else 0
  }

  lemma StepRow(m: Machine, e: Event, id: nat)
    requires Inv(m) && Enabled(m, e) && id < m.next
    ensures var m' := Step(m, e);
            && id < m'.next
            && (id in m'.rows ==>
                id in m.rows && (m'.rows[id] == m.rows[id] || (e.Tried? && m.batch[0].id == id && !Final(m.rows[id]))))
  {
    if e.Enqueued? {
      InsertedRows(m.rows, m.next, m.pairs, e.now);
    }
  }

  /** Delivered and exhausted deliveries never change again, whatever updates
      were lost and whenever the dispatcher restarted. */
  lemma {:induction false} FinalIsAbsorbing(m: Machine, es: seq<Event>, id: nat)
    requires Inv(m) && Run(m, es).Some? && id in m.rows && Final(m.rows[id])
    ensures var m' := Run(m, es).value;
            id < m'.next && (id in m'.rows ==> m'.rows[id] == m.rows[id])
  {
    if es != [] {
      var before := Run(m, es[..|es| - 1]).value;
      RunKeeps(m, es[..|es| - 1]);
      FinalIsAbsorbing(m, es[..|es| - 1], id);
      StepRow(before, es[|es| - 1], id);
    }
  }

  lemma RecordStep(m: Machine, e: Event, id: nat)
    requires Inv(m) && Enabled(m, e) && id in Step(m, e).rows
    ensures var m' := Step(m, e);
            var one := if e.Tried? && m.batch[0].id == id && e.report.committed && !e.report.outcome.Unsent? then 1
                       else 0;
            m'.rows[id].attempts == (if id in m.rows then m.rows[id].attempts else 0) + one
  {
    if e.Enqueued? {
      InsertedRows(m.rows, m.next, m.pairs, e.now);
    }
    if e.Tried? {
      assert ClaimOk(m.rows, m.next, m.batch[0]);
    }
  }

  /** The stored counter of a delivery is the number of its recorded attempts;
      so no delivery is recorded more than five times. */
  lemma {:induction false} CounterIsExact(es: seq<Event>, id: nat)
    requires Run(START, es).Some?
    ensures var m := Run(START, es).value;
            && (id in m.rows ==> m.rows[id].attempts == Recorded(START, es, id) <= 5)
            && (id >= m.next ==> Recorded(START, es, id) == 0)
  {
    RunKeeps(START, es);
    if es != [] {
      var before := Run(START, es[..|es| - 1]).value;
      var e := es[|es| - 1];
      RunKeeps(START, es[..|es| - 1]);
      CounterIsExact(es[..|es| - 1], id);
      if id in Step(before, e).rows {
        RecordStep(before, e, id);
        if id < before.next {
          StepRow(before, e, id);
        }
      }
      if e.Tried? {
        assert ClaimOk(before.rows, before.next, before.batch[0]);
      }
    }
  }

  /* ----- backoff ----- */

  lemma {:induction false} Pow2Bound(n: nat, k: nat)
    requires n <= k
    ensures 1 <= Pow2(n) <= Pow2(k)
  {
    if n < k {
      Pow2Bound(n, k - 1);
    } else if n > 0 {
      Pow2Bound(n - 1, n - 1);
    }
  }

  lemma PowersOfTwo()
    ensures Pow2(4) == 16 && Pow2(11) == 2048 && Pow2(12) == 4096 && Pow2(28) == 0x1000_0000 && Pow2(29) == 0x2000_0000
  {
    assert Pow2(4) == 16;
    assert Pow2(8) == 256;
    assert Pow2(12) == 4096;
    assert Pow2(16) == 0x1_0000;
    assert Pow2(20) == 0x10_0000;
    assert Pow2(24) == 0x100_0000;
  }

  lemma NoWrap(x: nat)
    requires x < TWO_63
    ensures Wrap(x) == x
  {
  }

  lemma SmallPower(n: nat)
    requires n <= 28
    ensures Pow2(n) <= 0x1000_0000
  {
    PowersOfTwo();
    Pow2Bound(n, 28);
  }

  /** Up to attempt 29 nothing overflows. */
  lemma NoOverflow(n: nat)
    requires 1 <= n <= 29
    ensures Wrap(30 * SECOND * Wrap(Pow2(n - 1))) == 30 * SECOND * Pow2(n - 1)
  {
    var p := Pow2(n - 1);
    SmallPower(n - 1);
    NoWrap(p);
    NoWrap(30 * SECOND * p);
  }

  /** The twelfth delay is the last below 24 hours. */
  lemma DelayBound(n: nat)
    requires 1 <= n
    ensures n <= 12 ==> Pow2(n - 1) <= 2048
    ensures n > 12 ==> Pow2(n - 1) >= 4096
  {
    PowersOfTwo();
    if n <= 12 {
      Pow2Bound(n - 1, 11);
    } else {
      Pow2Bound(12, n - 1);
    }
  }

  lemma Capped(n: nat, backoff: int)
    requires 1 <= n && backoff == 30 * SECOND * Pow2(n - 1)
    ensures (if backoff < 24 * 3600 * SECOND then backoff else 24 * 3600 * SECOND) == if n <= 12 then backoff
            else 24 * 3600 * SECOND
  {
    DelayBound(n);
  }

  /** Up to attempt 29 the machine arithmetic gives the exact delay: thirty
      seconds doubled per attempt, at most 24 hours. */
  lemma BackoffExact(n: nat)
    requires 1 <= n <= 29
    ensures Backoff(n) == if n <= 12 then 30 * SECOND * Pow2(n - 1) else 24 * 3600 * SECOND
  {
    NoOverflow(n);
    Capped(n, Wrap(30 * SECOND * Wrap(Pow2(n - 1))));
  }

  /** One attempt more and the product overflows: the retry would lie in the past. */
  lemma BackoffOverflows()
    ensures Backoff(30) == 30 * SECOND * Pow2(29) - TWO_64 < 0
  {
    PowersOfTwo();
    var product := 30 * SECOND * Pow2(29);
    assert Wrap(product) == Wrap(product - TWO_64) == product - TWO_64;
  }

  /** The product in machine arithmetic. */
  function Product(n: nat): int
    requires 1 <= n <= 63
  {
    Wrap(30 * SECOND * Wrap(Pow2(n - 1)))
  }

  lemma ScaleWrap(c: int, x: int)
    ensures Wrap(c * Wrap(x)) == Wrap(c * x)
  {
    var k := WrapMultiple(x);
    assert c * Wrap(x) == c * x + (c * k) * TWO_64;
    WrapSame(c * Wrap(x), c * x, c * k);
  }

  lemma ProductIs(n: nat, x: int)
    requires 1 <= n <= 63 && x == 30 * SECOND * Pow2(n - 1)
    ensures Product(n) == Wrap(x)
  {
    ScaleWrap(30 * SECOND, Pow2(n - 1));
  }

  lemma DoubledWrap(x: int, y: int, p: int, q: int)
    requires y == 2 * x && p == Wrap(x) && q == Wrap(y)
    ensures q == Wrap(2 * p)
  {
    ScaleWrap(2, x);
  }

  lemma NextPower(n: nat)
    requires n >= 1
    ensures 30 * SECOND * Pow2(n) == 2 * (30 * SECOND * Pow2(n - 1))
  {
  }

  lemma ProductDoubles(n: nat)
    requires 1 <= n <= 62
    ensures Product(n + 1) == Wrap(2 * Product(n))
  {
    var x, y := 30 * SECOND * Pow2(n - 1), 30 * SECOND * Pow2(n);
    NextPower(n);
    ProductIs(n, x);
    ProductIs(n + 1, y);
    DoubledWrap(x, y, Product(n), Product(n + 1));
  }

  /** Doubling within the machine's range. */
  function Twice(x: int): int {
    if 2 * x >= TWO_63 then 2 * x - TWO_64 else if 2 * x < -TWO_63 then 2 * x + TWO_64 else 2 * x
  }

  lemma Next(n: nat, x: int)
    requires 2 <= n <= 63 && x == Twice(Product(n - 1))
    ensures Product(n) == x
  {
    ProductDoubles(n - 1);
  }

  lemma Product29()
    ensures Product(29) == 8_053_063_680_000_000_000
  {
    NoOverflow(29);
    PowersOfTwo();
  }

  /** The attempts after 29 at which the delay is capped all the same. */
  predicate CappedAgain(n: nat) {
    n == 32 || 39 <= n <= 42 || 44 <= n <= 46 || n == 50 || n == 52
  }

  lemma Products30()
    ensures Product(30) == -2_340_616_713_709_551_616
    ensures Product(31) == -4_681_233_427_419_103_232
    ensures Product(32) == 9_084_277_218_871_345_152
    ensures Product(33) == -278_189_635_966_861_312
    ensures Product(34) == -556_379_271_933_722_624
  {
    Product29();
    Next(30, -2_340_616_713_709_551_616);
    Next(31, -4_681_233_427_419_103_232);
    Next(32, 9_084_277_218_871_345_152);
    Next(33, -278_189_635_966_861_312);
    Next(34, -556_379_271_933_722_624);
  }

  lemma Products35()
    ensures Product(35) == -1_112_758_543_867_445_248
    ensures Product(36) == -2_225_517_087_734_890_496
    ensures Product(37) == -4_451_034_175_469_780_992
    ensures Product(38) == -8_902_068_350_939_561_984
    ensures Product(39) == 642_607_371_830_427_648
  {
    Products30();
    Next(35, -1_112_758_543_867_445_248);
    Next(36, -2_225_517_087_734_890_496);
    Next(37, -4_451_034_175_469_780_992);
    Next(38, -8_902_068_350_939_561_984);
    Next(39, 642_607_371_830_427_648);
  }

  lemma Products40()
    ensures Product(40) == 1_285_214_743_660_855_296
    ensures Product(41) == 2_570_429_487_321_710_592
    ensures Product(42) == 5_140_858_974_643_421_184
    ensures Product(43) == -8_165_026_124_422_709_248
    ensures Product(44) == 2_116_691_824_864_133_120
  {
    Products35();
    Next(40, 1_285_214_743_660_855_296);
    Next(41, 2_570_429_487_321_710_592);
    Next(42, 5_140_858_974_643_421_184);
    Next(43, -8_165_026_124_422_709_248);
    Next(44, 2_116_691_824_864_133_120);
  }

  lemma Products45()
    ensures Product(45) == 4_233_383_649_728_266_240
    ensures Product(46) == 8_466_767_299_456_532_480
    ensures Product(47) == -1_513_209_474_796_486_656
    ensures Product(48) == -3_026_418_949_592_973_312
    ensures Product(49) == -6_052_837_899_185_946_624
  {
    Products40();
    Next(45, 4_233_383_649_728_266_240);
    Next(46, 8_466_767_299_456_532_480);
    Next(47, -1_513_209_474_796_486_656);
    Next(48, -3_026_418_949_592_973_312);
    Next(49, -6_052_837_899_185_946_624);
  }

  lemma Products50()
    ensures Product(50) == 6_341_068_275_337_658_368
    ensures Product(51) == -5_764_607_523_034_234_880
    ensures Product(52) == 6_917_529_027_641_081_856
    ensures Product(53) == -4_611_686_018_427_387_904
    ensures Product(54) == -9_223_372_036_854_775_808
    ensures Product(55) == 0
  {
    Products45();
    Next(50, 6_341_068_275_337_658_368);
    Next(51, -5_764_607_523_034_234_880);
    Next(52, 6_917_529_027_641_081_856);
    Next(53, -4_611_686_018_427_387_904);
    Next(54, -9_223_372_036_854_775_808);
    Next(55, 0);
  }

  lemma {:induction false} LastProducts(n: nat)
    requires 55 <= n <= 63
    ensures Product(n) == 0
  {
    if n == 55 {
      Products50();
    } else {
      LastProducts(n - 1);
      Next(n, 0);
    }
  }

  predicate Signed(n: nat)
    requires 1 <= n <= 63
  {
    if CappedAgain(n) then Product(n) >= 24 * 3600 * SECOND else Product(n) <= 0
  }

  lemma Signs30(n: nat)
    requires 30 <= n <= 34
    ensures Signed(n)
  {
    Products30();
  }

  lemma Signs35(n: nat)
    requires 35 <= n <= 39
    ensures Signed(n)
  {
    Products35();
  }

  lemma Signs40(n: nat)
    requires 40 <= n <= 44
    ensures Signed(n)
  {
    Products40();
  }

  lemma Signs45(n: nat)
    requires 45 <= n <= 49
    ensures Signed(n)
  {
    Products45();
  }

  lemma Signs50(n: nat)
    requires 50 <= n <= 55
    ensures Signed(n)
  {
    Products50();
  }

  lemma ProductSign(n: nat)
    requires 30 <= n <= 63
    ensures Signed(n)
  {
    if n < 35 {
      Signs30(n);
    } else if n < 40 {
      Signs35(n);
    } else if n < 45 {
      Signs40(n);
    } else if n < 50 {
      Signs45(n);
    } else if n < 55 {
      Signs50(n);
    } else {
      LastProducts(n);
    }
  }

  /** What becomes of the delay after that: ten times it is the cap again, and at every
      other attempt there is no delay at all. */
  lemma BackoffBeyond(n: nat)
    requires 30 <= n <= 63
    ensures if CappedAgain(n) then Backoff(n) == 24 * 3600 * SECOND else Backoff(n) <= 0
  {
    ProductSign(n);
    assert Backoff(n) == if Product(n) < 24 * 3600 * SECOND then Product(n) else 24 * 3600 * SECOND;
  }

  /** A recorded attempt of a selected delivery: what the row says afterwards. */
  lemma RetryIsScheduled(m: Machine, r: Report)
    requires Inv(m) && m.batch != [] && m.batch[0].id in m.rows && r.committed && !r.outcome.Unsent?
    ensures var row := Step(m, Tried(r)).rows[m.batch[0].id];
            var n := m.rows[m.batch[0].id].attempts + 1;
            && row.attempts == n
            && (row.status.Delivered? <==> Succeeded(r.outcome))
            && (row.status.Failed? <==> !Succeeded(r.outcome))
            && (row.nextRetry.Some? <==> !Succeeded(r.outcome) && n <= 4)
            && (row.nextRetry.Some? ==> row.nextRetry.value == r.now + 30 * SECOND * Pow2(n - 1))
  {
    assert ClaimOk(m.rows, m.next, m.batch[0]);
    if m.batch[0].attempts < 4 {
      BackoffExact(m.batch[0].attempts + 1);
    }
  }

  /* ----- enqueueing and whole batches ----- */

  /** After a committed enqueue, what is still without a delivery row did not fit
      into the batch and is no older than anything in it. */
  lemma EnqueueCovers(m: Machine, now: int, pairs: seq<Pair>, later: int, audit: nat, sub: nat)
    requires Inv(m) && Enabled(m, Listed(now, pairs)) && Present(m, pairs)
    requires var m' := Step(Step(m, Listed(now, pairs)), Enqueued(later, true));
             Undelivered(m'.rows, m'.audits, m'.subs, now, audit, sub)
    ensures |pairs| == ENQUEUE_BATCH
    ensures forall p :: p in pairs ==> m.audits[p.audit].timestamp <= m.audits[audit].timestamp
  {
    InsertedRows(m.rows, m.next, pairs, later);
    var m' := Step(Step(m, Listed(now, pairs)), Enqueued(later, true));
    forall id | id in m.rows
      ensures m.rows[id].audit != audit || m.rows[id].sub != sub
    {
      assert m'.rows[id] == m.rows[id];
    }
    assert Pair(audit, sub) !in pairs by {
      if i :| 0 <= i < |pairs| && pairs[i] == Pair(audit, sub) {
        assert !NoRow(m'.rows, pairs[i]) by {
          InsertedHas(m.rows, m.next, pairs, later, i);
        }
        assert false;
      }
    }
  }

  /** Each inserted pair has its row. */
  lemma InsertedHas(rows: Rows, next: nat, pairs: seq<Pair>, now: int, i: nat)
    requires i < |pairs| && forall id :: id in rows ==> id < next
    ensures !NoRow(Inserted(rows, next, pairs, now), pairs[i])
  {
    InsertedRows(rows, next, pairs, now);
    var r := Inserted(rows, next, pairs, now);
    assert next + i in r && r[next + i] == NewDelivery(pairs[i].sub, pairs[i].audit, now);
  }

  function Tries(results: seq<Report>): seq<Event> {
    seq(|results|, i requires 0 <= i < |results| => Tried(results[i]))
  }

  /** `dispatch` over a whole batch is its attempts as single events. */
  lemma {:induction false} DispatchIsTries(m: Machine, results: seq<Report>)
    requires |results| <= |m.batch|
    ensures Run(m, Tries(results)) ==
            Some(m.(rows := AttemptedAll(m.rows, m.batch[..|results|], results), batch := m.batch[|results|..]))
  {
    if results == [] {
      assert m.batch[0..] == m.batch;
    } else {
      var n := |results| - 1;
      assert Tries(results)[..n] == Tries(results[..n]);
      DispatchIsTries(m, results[..n]);
      assert m.batch[..n + 1][..n] == m.batch[..n];
      assert m.batch[n..][1..] == m.batch[n + 1..];
    }
  }
}
