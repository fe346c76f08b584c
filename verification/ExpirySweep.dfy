/** The proactive expiry sweep and its starvation bound (apps/worker/src/expiry-sweep.ts). */
module ExpirySweep {
  import opened Basics
  import opened StateMachine
  import opened Payments
  import opened Pipeline
  import opened PipelineInvariant
  import opened PipelineSteps

  predicate Sweepable(s: Status) {
    s == PENDING || s == UNDERPAID
  }

  /** The rows the sweep's query selects. */
  predicate Candidate(db: Db, id: InvoiceId, now: Time) {
    id in db.invoices && Sweepable(db.invoices[id].status) && db.invoices[id].expiresAt <= now
  }

  /** An answer of the query: oldest deadlines first, at most `size` rows, ties broken in any way. */
  ghost predicate IsBatch(db: Db, now: Time, size: nat, ids: seq<InvoiceId>) {
    && Distinct(ids) && |ids| <= size
    && (forall i :: 0 <= i < |ids| ==> Candidate(db, ids[i], now))
    && (forall i, j :: 0 <= i < j < |ids| ==> db.invoices[ids[i]].expiresAt <= db.invoices[ids[j]].expiresAt)
    && (forall c :: Candidate(db, c, now) && c !in ids ==>
          |ids| == size && forall i :: 0 <= i < |ids| ==> db.invoices[ids[i]].expiresAt <= db.invoices[c].expiresAt)
  }

  function ExpireAll(db: Db, ids: seq<InvoiceId>, now: Time): Db {
    if ids == [] then db else Next(ExpireAll(db, ids[..|ids| - 1], now), Expire(ids[|ids| - 1], now))
  }

  /** The re-check inside a row's own transaction. */
  predicate Expirable(db: Db, id: InvoiceId, now: Time) {
    id in db.invoices && IsActorAllowed(db.invoices[id].status, EXPIRED, SYSTEM) && Expired(db.invoices[id].expiresAt, now)
  }

  /** The sweep with the steps other actors take just before each of its rows. */
  function SweepAmong(db: Db, ids: seq<InvoiceId>, others: seq<seq<Step>>, now: Time): Db
    requires |others| == |ids|
  {
    if ids == [] then db
    else
      var n := |ids| - 1;
      Next(Run(SweepAmong(db, ids[..n], others[..n], now), others[n]), Expire(ids[n], now))
  }

  /** How many rows still qualified when the sweep came to them. */
  function SweptCount(db: Db, ids: seq<InvoiceId>, others: seq<seq<Step>>, now: Time): nat
    requires |others| == |ids|
  {
    if ids == [] then 0
    else
      var n := |ids| - 1;
      SweptCount(db, ids[..n], others[..n], now) +
      if Expirable(Run(SweepAmong(db, ids[..n], others[..n], now), others[n]), ids[n], now) then 1 else 0
  }

  /** `sweepExpiredInvoices`: one transaction per row of the batch, counting those it expired. */
  class Sweeper {
    var db: Db

    constructor (db: Db)
      ensures this.db == db
    {
      this.db := db;
    }

    /** `others[i]` is what other actors commit before row i; a row that no longer exists throws. */
    method Sweep(batch: seq<InvoiceId>, others: seq<seq<Step>>, now: Time) returns (threw: bool, expired: nat, ghost done: nat)
      requires |others| == |batch|
      modifies this
      ensures done <= |batch| && (threw <==> done < |batch|)
      // A throw at row `done` leaves the rows before it swept and the rest alone.
      ensures threw ==> db == Run(SweepAmong(old(db), batch[..done], others[..done], now), others[done]) && batch[done] !in db.invoices
      ensures expired == SweptCount(old(db), batch[..done], others[..done], now)
      ensures !threw ==> db == SweepAmong(old(db), batch, others, now) && expired == SweptCount(old(db), batch, others, now)
    {
      hide FindRule, Run;
      expired := 0;
      for i := 0 to |batch|
        invariant db == SweepAmong(old(db), batch[..i], others[..i], now)
        invariant expired == SweptCount(old(db), batch[..i], others[..i], now)
      {
        var id := batch[i];
        assert batch[..i + 1][..i] == batch[..i] && others[..i + 1][..i] == others[..i];
        db := Run(db, others[i]);
        if id !in db.invoices { return true, expired, i; }
        ExpireStep(db, id, now);
        if IsActorAllowed(db.invoices[id].status, EXPIRED, SYSTEM) && Expired(db.invoices[id].expiresAt, now) {
          db := Move(db, id, EXPIRED, SYSTEM);
          expired := expired + 1;
        }
      }
      assert batch[..|batch|] == batch && others[..|others|] == others;
      threw, done := false, |batch|;
    }
  }

  lemma ExpireStep(db: Db, id: InvoiceId, now: Time)
    requires id in db.invoices
    ensures Next(db, Expire(id, now)) == if Expirable(db, id, now) then Move(db, id, EXPIRED, SYSTEM) else db
  {
  }

  /** Left alone, the sweep is the plain one and counts its whole batch. */
  lemma {:induction false} AloneExpiresAll(db: Db, size: nat, batch: seq<InvoiceId>, now: Time, i: nat)
    requires IsBatch(db, now, size, batch) && i <= |batch|
    ensures var quiet := seq(i, _ => []);
            SweepAmong(db, batch[..i], quiet, now) == ExpireAll(db, batch[..i], now) && SweptCount(db, batch[..i], quiet, now) == i
  {
    hide FindRule, Next;
    if i > 0 {
      AloneExpiresAll(db, size, batch, now, i - 1);
      SweepRow(db, size, batch, now, i - 1);
      var quiet: seq<seq<Step>> := seq(i, _ => []);
      assert quiet[..i - 1] == seq(i - 1, _ => []) && batch[..i][..i - 1] == batch[..i - 1];
      assert Run(ExpireAll(db, batch[..i - 1], now), []) == ExpireAll(db, batch[..i - 1], now);
    }
  }

  /** Sweeping a batch expires exactly its rows and leaves every other invoice alone. */
  lemma {:induction false} ExpireAllEffect(db: Db, ids: seq<InvoiceId>, now: Time)
    requires Distinct(ids) && forall i :: 0 <= i < |ids| ==> Candidate(db, ids[i], now)
    ensures ExpireAll(db, ids, now).invoices.Keys == db.invoices.Keys
    ensures forall c :: c in db.invoices ==>
              ExpireAll(db, ids, now).invoices[c] == if c in ids then db.invoices[c].(status := EXPIRED) else db.invoices[c]
  {
    hide FindRule, ExpireOne, Next;
    if ids != [] {
      var init, id := ids[..|ids| - 1], ids[|ids| - 1];
      ExpireAllEffect(db, init, now);
      assert ids == init + [id];
      assert id !in init;
      assert Candidate(db, id, now);
      var mid := ExpireAll(db, init, now);
      assert mid.invoices[id] == db.invoices[id];
      ExpireCandidate(mid, id, now);
    }
  }

  lemma ExpireCandidate(db: Db, id: InvoiceId, now: Time)
    requires Candidate(db, id, now)
    ensures IsActorAllowed(db.invoices[id].status, EXPIRED, SYSTEM) && Expired(db.invoices[id].expiresAt, now)
    ensures Next(db, Expire(id, now)) == Move(db, id, EXPIRED, SYSTEM)
  {
  }

  /** When the sweep reaches a row of its batch, the row still qualifies. */
  lemma SweepRow(db: Db, size: nat, batch: seq<InvoiceId>, now: Time, i: nat)
    requires IsBatch(db, now, size, batch) && i < |batch|
    ensures var mid := ExpireAll(db, batch[..i], now);
            && batch[i] in mid.invoices
            && IsActorAllowed(mid.invoices[batch[i]].status, EXPIRED, SYSTEM) && Expired(mid.invoices[batch[i]].expiresAt, now)
            && ExpireAll(db, batch[..i + 1], now) == Move(mid, batch[i], EXPIRED, SYSTEM)
  {
    hide FindRule, ExpireOne, Next;
    var mid := ExpireAll(db, batch[..i], now);
    ExpireAllEffect(db, batch[..i], now);
    assert batch[i] !in batch[..i];
    assert Candidate(db, batch[i], now);
    assert mid.invoices[batch[i]] == db.invoices[batch[i]];
    ExpireCandidate(mid, batch[i], now);
    assert batch[..i + 1][..i] == batch[..i];
  }

  /** The sweep keeps the pipeline's invariant. */
  lemma {:induction false} ExpireAllKeepsInv(db: Db, ids: seq<InvoiceId>, now: Time)
    requires Inv(db)
    ensures Inv(ExpireAll(db, ids, now))
  {
    hide Inv;
    if ids != [] {
      ExpireAllKeepsInv(db, ids[..|ids| - 1], now);
      NextKeepsInv(ExpireAll(db, ids[..|ids| - 1], now), Expire(ids[|ids| - 1], now));
    }
  }

  // ---------------------------------------------------------------- the bound

  /** The other sweepable invoices whose deadline is no later than x's. */
  ghost function Older(db: Db, x: InvoiceId): set<InvoiceId>
    requires x in db.invoices
  {
    set id | id in db.invoices && id != x && Sweepable(db.invoices[id].status) && db.invoices[id].expiresAt <= db.invoices[x].expiresAt
  }

  /** Between sweeps anything may happen except to x, and no invoice with an earlier deadline (re-)enters. */
  ghost predicate Between(a: Db, b: Db, x: InvoiceId) {
    && x in a.invoices && x in b.invoices && b.invoices[x] == a.invoices[x]
    && Older(b, x) <= Older(a, x)
  }

  ghost function Elements(ids: seq<InvoiceId>): set<InvoiceId> {
    set id | id in ids
  }

  /** A batch that passes over x consists of older candidates only. */
  lemma BatchIsOlder(db: Db, x: InvoiceId, size: nat, batch: seq<InvoiceId>, now: Time)
    requires Candidate(db, x, now) && IsBatch(db, now, size, batch) && x !in batch
    ensures Elements(batch) <= Older(db, x) && |batch| == size
  {
    forall id | id in Elements(batch)
      ensures id in Older(db, x)
    {
      var i :| 0 <= i < |batch| && batch[i] == id;
      assert Candidate(db, batch[i], now);
    }
  }

  /** One round either expires x or consumes a full batch of the older candidates. */
  lemma OneSweep(db: Db, x: InvoiceId, size: nat, batch: seq<InvoiceId>, now: Time)
    requires Candidate(db, x, now) && IsBatch(db, now, size, batch)
    ensures var db' := ExpireAll(db, batch, now);
            && db'.invoices.Keys == db.invoices.Keys && x in db'.invoices
            && (x in batch ==> db'.invoices[x].status == EXPIRED)
            && (x !in batch ==> db'.invoices[x] == db.invoices[x] && |Older(db', x)| + size <= |Older(db, x)|)
  {
    ExpireAllEffect(db, batch, now);
    var db' := ExpireAll(db, batch, now);
    if x !in batch {
      hide IsBatch;
      BatchIsOlder(db, x, size, batch, now);
      DistinctCardinality(batch);
      assert Older(db', x) <= Older(db, x) - Elements(batch);
      SubsetCardinality(Older(db', x), Older(db, x) - Elements(batch));
    }
  }

  lemma {:induction false} DistinctCardinality(ids: seq<InvoiceId>)
    requires Distinct(ids)
    ensures |Elements(ids)| == |ids|
  {
    if ids == [] {
      assert Elements(ids) == {};
    } else {
      var init, last := ids[..|ids| - 1], ids[|ids| - 1];
      DistinctCardinality(init);
      assert ids == init + [last] && last !in init;
      assert Elements(ids) == Elements(init) + {last};
    }
  }

  lemma SubsetCardinality(a: set<InvoiceId>, b: set<InvoiceId>)
    requires a <= b
    ensures |a| <= |b|
  {
    assert b == a + (b - a);
  }

  /** A history of sweeps: before[i] is swept with batches[i] at times[i], then the system moves on. */
  ghost predicate History(before: seq<Db>, batches: seq<seq<InvoiceId>>, times: seq<Time>, size: nat, x: InvoiceId) {
    && |before| == |batches| == |times|
    && (forall i :: 0 <= i < |before| ==> IsBatch(before[i], times[i], size, batches[i]))
    && (forall i :: 0 <= i < |before| ==> x in before[i].invoices && before[i].invoices[x].expiresAt <= times[i])
    && (forall i :: 0 <= i < |before| - 1 ==> Between(ExpireAll(before[i], batches[i], times[i]), before[i + 1], x))
  }

  ghost predicate ExpiredInRound(before: seq<Db>, batches: seq<seq<InvoiceId>>, times: seq<Time>, x: InvoiceId, i: nat)
    requires |before| == |batches| == |times| && i < |before|
  {
    var after := ExpireAll(before[i], batches[i], times[i]);
    x in after.invoices && after.invoices[x].status == EXPIRED
  }

  /**
   * An overdue invoice with k older candidates is expired within floor(k / size) + 1 sweeps,
   * however many newer candidates arrive meanwhile.
   */
  lemma ExpiredWithinBound(before: seq<Db>, batches: seq<seq<InvoiceId>>, times: seq<Time>, size: nat, x: InvoiceId)
    requires size > 0 && History(before, batches, times, size, x) && |before| > 0
    requires before[0].invoices[x].status in {PENDING, UNDERPAID}
    requires |before| == |Older(before[0], x)| / size + 1
    ensures exists i: nat :: i < |before| && ExpiredInRound(before, batches, times, x, i)
  {
    var k := |Older(before[0], x)|;
    assert k < (k / size + 1) * size;
    var _ := ExpiredEventually(before, batches, times, size, x);
  }

  lemma {:induction false} ExpiredEventually(before: seq<Db>, batches: seq<seq<InvoiceId>>, times: seq<Time>, size: nat, x: InvoiceId) returns (i: nat)
    requires |before| == |batches| == |times| && History(before, batches, times, size, x) && |before| > 0
    requires before[0].invoices[x].status in {PENDING, UNDERPAID}
    requires |before| * size > |Older(before[0], x)|
    ensures i < |before| && ExpiredInRound(before, batches, times, x, i)
    decreases |before|
  {
    hide IsBatch, Older, ExpireAll, History, Candidate;
    var db := before[0];
    HistoryHead(before, batches, times, size, x);
    OneSweep(db, x, size, batches[0], times[0]);
    i := 0;
    if x !in batches[0] {
      var db' := ExpireAll(db, batches[0], times[0]);
      assert (|before| - 1) * size == |before| * size - size;
      assert |before| > 1;
      SubsetCardinality(Older(before[1], x), Older(db', x));
      HistoryTail(before, batches, times, size, x);
      i := ExpiredEventually(before[1..], batches[1..], times[1..], size, x);
      assert before[1..][i] == before[i + 1] && batches[1..][i] == batches[i + 1] && times[1..][i] == times[i + 1];
      i := i + 1;
    }
  }

  lemma HistoryHead(before: seq<Db>, batches: seq<seq<InvoiceId>>, times: seq<Time>, size: nat, x: InvoiceId)
    requires History(before, batches, times, size, x) && |before| > 0 && Sweepable(before[0].invoices[x].status)
    ensures Candidate(before[0], x, times[0]) && IsBatch(before[0], times[0], size, batches[0])
    ensures |before| > 1 ==> x in before[1].invoices && Between(ExpireAll(before[0], batches[0], times[0]), before[1], x)
  {
    hide IsBatch, Between, ExpireAll;
  }

  lemma HistoryTail(before: seq<Db>, batches: seq<seq<InvoiceId>>, times: seq<Time>, size: nat, x: InvoiceId)
    requires History(before, batches, times, size, x) && |before| > 1
    ensures History(before[1..], batches[1..], times[1..], size, x)
  {
    hide IsBatch, Between, ExpireAll;
    forall i | 0 <= i < |before[1..]| - 1
      ensures Between(ExpireAll(before[1..][i], batches[1..][i], times[1..][i]), before[1..][i + 1], x)
    {
      assert before[1..][i] == before[i + 1] && batches[1..][i] == batches[i + 1] && times[1..][i] == times[i + 1];
      assert before[1..][i + 1] == before[i + 2];
    }
  }
}
