/**
 * The confirmation pass that never ends again (monitor.service.ts:227-248): a confirmed transfer of an
 * invoice under reconciliation throws, and the throw ends the loop for every row behind it.
 */
module PipelineStuck {
  import opened Basics
  import opened StateMachine
  import opened Ledger
  import opened Payments
  import opened Pipeline
  import opened PipelineInvariant
  import opened PipelineSteps
  import opened PipelineTheorems
  import opened PipelinePass

  /** One `updateConfirmations`: what the chain reports then, and when. */
  datatype Visit = Visit(report: TransferKey -> nat, now: Time)

  function PassAll(db: Db, n: Network, visits: seq<Visit>): Db {
    if visits == [] then db
    else
      var last := visits[|visits| - 1];
      Pass(PassAll(db, n, visits[..|visits| - 1]), n, last.report, last.now).db
  }

  /** A pending transfer of an invoice that waits for a human. */
  ghost predicate Stuck(db: Db, n: Network, k: TransferKey, id: InvoiceId) {
    && k in db.transfers && k.network == n && db.transfers[k].matchStatus == PENDING_CONFIRMATION
    && db.transfers[k].invoiceId == Some(id) && Frozen(db, Some(id))
  }

  /** q was inserted after k. */
  ghost predicate Behind(order: seq<TransferKey>, k: TransferKey, q: TransferKey) {
    exists i, j :: 0 <= i < j < |order| && order[i] == k && order[j] == q
  }

  // ---------------------------------------------------------------- a frozen invoice takes no credit

  lemma {:induction false} SumGrows(order: seq<TransferKey>, m: map<TransferKey, Transfer>, m': map<TransferKey, Transfer>, id: InvoiceId, k: TransferKey)
    requires forall q :: q in order ==> Contribution(m, q, id) <= Contribution(m', q, id)
    ensures CreditedSum(order, m, id) <= CreditedSum(order, m', id)
    ensures k in order && Contribution(m, k, id) < Contribution(m', k, id) ==> CreditedSum(order, m, id) < CreditedSum(order, m', id)
  {
    hide Contribution;
    if order != [] {
      var init, last := order[..|order| - 1], order[|order| - 1];
      assert order == init + [last];
      SumGrows(init, m, m', id, k);
    }
  }

  lemma ContributionsGrow(a: Db, b: Db, id: InvoiceId, q: TransferKey)
    requires Extends(a, b) && TablesOk(b)
    ensures Contribution(a.transfers, q, id) <= Contribution(b.transfers, q, id)
  {
  }

  lemma FrozenTakesNoCredit(a: Db, b: Db, id: InvoiceId, k: TransferKey)
    requires Inv(a) && Inv(b) && Extends(a, b) && b.transferOrder == a.transferOrder && Frozen(a, Some(id))
    requires k in a.transfers && a.transfers[k].matchStatus != CREDITED && k in b.transfers && b.transfers[k].invoiceId == Some(id)
    ensures b.transfers[k].matchStatus != CREDITED
  {
    assert InvoiceSettled(a, id) && InvoiceExtends(a.invoices[id], b.invoices[id]) && InvoiceSettled(b, id);
    TablesOf(b);
    hide Inv;
    forall q | q in a.transferOrder ensures Contribution(a.transfers, q, id) <= Contribution(b.transfers, q, id) { ContributionsGrow(a, b, id, q); }
    SumGrows(a.transferOrder, a.transfers, b.transfers, id, k);
  }

  // ---------------------------------------------------------------- one pass

  lemma StuckThrows(db: Db, n: Network, p: Pending, c: nat, id: InvoiceId)
    requires Current(db, p) && Stuck(db, n, p.key, id) && c >= db.invoices[id].requiredConfirmations
    ensures Throws(db, p, c)
  {
    hide TotalAt, RefusedAt, Verdict;
  }

  /** Another row's transaction leaves the stuck row stuck. */
  lemma StaysStuck(db: Db, db': Db, n: Network, p: Pending, c: nat, k: TransferKey, id: InvoiceId)
    requires Inv(db) && Inv(db') && Extends(db, db') && db'.transferOrder == db.transferOrder
    requires Stuck(db, n, k, id) && Processed(db, db', p, c)
    ensures Stuck(db', n, k, id) && db'.invoices[id] == db.invoices[id]
  {
    hide Inv;
    assert InvoiceExtends(db.invoices[id], db'.invoices[id]);
    FrozenTakesNoCredit(db, db', id, k);
  }

  lemma RowExtends(db: Db, p: Pending, c: nat, now: Time)
    requires Inv(db)
    ensures var r := ConfirmTransfer(db, p.key, p.invoiceId, c, now); r.Commit? ==> Extends(db, r.value)
  {
    hide ConfirmTransfer, Inv, Extends;
    NextKeepsInv(db, Confirm(p.key, p.invoiceId, c, now));
  }

  /** A pass that meets the stuck row at j throws there or before; rows behind it keep their count. */
  lemma {:induction false} StopsByThen(db: Db, n: Network, pending: seq<Pending>, answers: seq<nat>, now: Time, j: nat, id: InvoiceId, q: TransferKey)
    requires Inv(db) && Snapshot(db, pending) && j < |answers| == |pending| && Stuck(db, n, pending[j].key, id)
    requires answers[j] >= db.invoices[id].requiredConfirmations
    requires q in db.transfers && forall i :: 0 <= i <= j ==> pending[i].key != q
    ensures var r := ConfirmAll(db, pending, answers, now);
            && !r.completed && Inv(r.db) && r.db.transferOrder == db.transferOrder
            && Stuck(r.db, n, pending[j].key, id) && r.db.invoices[id] == db.invoices[id]
            && q in r.db.transfers && r.db.transfers[q].confirmations == db.transfers[q].confirmations
    decreases j
  {
    hide ConfirmTransfer, Throws, Rests, Wrote, Processed, Snapshot, Current, Inv, ConfirmAll, Stuck, Extends;
    PassStep(db, pending, answers, now);
    var p, c := pending[0], answers[0];
    var r := ConfirmTransfer(db, p.key, p.invoiceId, c, now);
    if j == 0 {
      StuckThrows(db, n, p, c, id);
    } else if r.Commit? {
      OrderKept(db, p, c, now);
      RowExtends(db, p, c, now);
      StaysStuck(db, r.value, n, p, c, pending[j].key, id);
      ProcessedOther(db, r.value, p, c, q);
      assert pending[1..][j - 1] == pending[j] && answers[1..][j - 1] == answers[j];
      StopsByThen(r.value, n, pending[1..], answers[1..], now, j - 1, id, q);
    }
  }

  lemma {:induction false} BehindInPending(order: seq<TransferKey>, transfers: map<TransferKey, Transfer>, n: Network, k: TransferKey, q: TransferKey) returns (j: nat)
    requires Distinct(order) && Behind(order, k, q) && k in transfers && k.network == n
    requires transfers[k].matchStatus == PENDING_CONFIRMATION && transfers[k].creditedAt.None?
    ensures j < |PendingRows(order, transfers, n)| && PendingRows(order, transfers, n)[j].key == k
    ensures forall i :: 0 <= i <= j ==> PendingRows(order, transfers, n)[i].key != q
    decreases |order|
  {
    var init, last := order[..|order| - 1], order[|order| - 1];
    assert order == init + [last];
    if last == q {
      var i, l :| 0 <= i < l < |order| && order[i] == k && order[l] == q;
      assert k == init[i];
      j := PendingIndex(init, transfers, n, k);
      assert q !in init;
      hide IsPendingRow;
      var ps := PendingRows(init, transfers, n);
      forall i | 0 <= i <= j ensures ps[i].key != q { PendingRowIs(init, transfers, n, i); RowInOrder(init, transfers, n, ps[i]); }
    } else {
      var i, l :| 0 <= i < l < |order| && order[i] == k && order[l] == q;
      assert init[i] == k && init[l] == q;
      j := BehindInPending(init, transfers, n, k, q);
    }
  }

  lemma RowInOrder(order: seq<TransferKey>, transfers: map<TransferKey, Transfer>, n: Network, p: Pending)
    requires IsPendingRow(order, transfers, n, p)
    ensures p.key in order
  {
  }

  /** While the chain reports the stuck transfer confirmed, a pass does not complete and no row behind it is updated. */
  lemma StuckPass(db: Db, n: Network, visit: Visit, k: TransferKey, id: InvoiceId, q: TransferKey)
    requires Inv(db) && Stuck(db, n, k, id) && visit.report(k) >= db.invoices[id].requiredConfirmations
    requires Behind(db.transferOrder, k, q)
    ensures var r := Pass(db, n, visit.report, visit.now);
            && !r.completed && Inv(r.db) && r.db.transferOrder == db.transferOrder
            && Stuck(r.db, n, k, id) && r.db.invoices[id] == db.invoices[id]
            && q in db.transfers && q in r.db.transfers && r.db.transfers[q].confirmations == db.transfers[q].confirmations
  {
    TablesOf(db);
    SnapshotOf(db, n);
    hide Inv, Snapshot, ConfirmAll, CreditsOk, PendingRows;
    assert db.transfers[k].creditedAt.None? by { NotCredited(db, k); }
    var j := BehindInPending(db.transferOrder, db.transfers, n, k, q);
    var pending := PendingRows(db.transferOrder, db.transfers, n);
    StopsByThen(db, n, pending, Answers(visit.report, pending), visit.now, j, id, q);
  }

  lemma NotCredited(db: Db, k: TransferKey)
    requires CreditsOk(db.transfers, db.book.txs) && k in db.transfers && db.transfers[k].matchStatus != CREDITED
    ensures db.transfers[k].creditedAt.None?
  {
  }

  // ---------------------------------------------------------------- for good

  /**
   * A pending transfer of a frozen invoice, reported as confirmed, stops every pass there or earlier:
   * whatever is reported for all other transfers, no pass ever completes, and the rows behind it keep
   * the count they had.
   */
  lemma {:induction false} StoppedForEver(db: Db, n: Network, visits: seq<Visit>, k: TransferKey, id: InvoiceId, q: TransferKey)
    requires Inv(db) && Stuck(db, n, k, id) && Behind(db.transferOrder, k, q)
    requires forall v :: v in visits ==> v.report(k) >= db.invoices[id].requiredConfirmations
    ensures var db' := PassAll(db, n, visits);
            && Inv(db') && db'.transferOrder == db.transferOrder && Stuck(db', n, k, id) && db'.invoices[id] == db.invoices[id]
            && q in db.transfers && q in db'.transfers && db'.transfers[q].confirmations == db.transfers[q].confirmations
    ensures forall i :: 0 <= i < |visits| ==> !Pass(PassAll(db, n, visits[..i]), n, visits[i].report, visits[i].now).completed
  {
    hide Inv, Stuck, Behind, Pass;
    if visits == [] {
      TablesOf(db);
      assert q in db.transfers by { BehindIsRow(db, k, q); }
    } else {
      var init, last := visits[..|visits| - 1], visits[|visits| - 1];
      assert last in visits && forall v :: v in init ==> v in visits;
      StoppedForEver(db, n, init, k, id, q);
      StuckPass(PassAll(db, n, init), n, last, k, id, q);
      forall i | 0 <= i < |visits| ensures !Pass(PassAll(db, n, visits[..i]), n, visits[i].report, visits[i].now).completed {
        if i < |init| { assert visits[..i] == init[..i] && visits[i] == init[i]; }
      }
    }
  }

  /** Any other row that throws, with nothing due before it, stops every pass for as long as it is reported so. */
  lemma {:induction false} StoppedUnchanged(db: Db, n: Network, visits: seq<Visit>, j: nat)
    requires Inv(db) && forall v :: v in visits ==> StopsAtRow(db, n, v.report, j)
    ensures PassAll(db, n, visits) == db
    ensures forall i :: 0 <= i < |visits| ==> !Pass(PassAll(db, n, visits[..i]), n, visits[i].report, visits[i].now).completed
  {
    hide Inv, StopsAtRow, Pass;
    if visits != [] {
      var init, last := visits[..|visits| - 1], visits[|visits| - 1];
      assert last in visits && forall v :: v in init ==> v in visits;
      StoppedUnchanged(db, n, init, j);
      StopsUnchanged(db, n, last.report, j, last.now);
      forall i | 0 <= i < |visits| ensures !Pass(PassAll(db, n, visits[..i]), n, visits[i].report, visits[i].now).completed {
        if i < |init| { assert visits[..i] == init[..i] && visits[i] == init[i]; }
      }
    }
  }

  lemma BehindIsRow(db: Db, k: TransferKey, q: TransferKey)
    requires TablesOk(db) && Behind(db.transferOrder, k, q)
    ensures q in db.transfers
  {
  }
}
