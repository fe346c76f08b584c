/** What every step of the payment pipeline keeps, stated table by table. */
module PipelineInvariant {
  import opened Basics
  import opened StateMachine
  import opened Ledger
  import opened Payments
  import opened Pipeline

  // ---------------------------------------------------------------- sums of credited transfers

  function Contribution(transfers: map<TransferKey, Transfer>, k: TransferKey, id: InvoiceId): int {
    if k in transfers && transfers[k].matchStatus == CREDITED && transfers[k].invoiceId == Some(id) then transfers[k].amount else 0
  }

  /** Total of the credited transfers of one invoice. */
  function CreditedSum(order: seq<TransferKey>, transfers: map<TransferKey, Transfer>, id: InvoiceId): int {
    if order == [] then 0
    else CreditedSum(order[..|order| - 1], transfers, id) + Contribution(transfers, order[|order| - 1], id)
  }

  lemma {:induction false} CreditedSumAgrees(order: seq<TransferKey>, m: map<TransferKey, Transfer>, m': map<TransferKey, Transfer>, id: InvoiceId)
    requires forall k :: k in order ==> Contribution(m, k, id) == Contribution(m', k, id)
    ensures CreditedSum(order, m, id) == CreditedSum(order, m', id)
  {
    if order != [] {
      assert order[|order| - 1] in order;
      CreditedSumAgrees(order[..|order| - 1], m, m', id);
    }
  }

  lemma CreditedSumAppend(order: seq<TransferKey>, k: TransferKey, m: map<TransferKey, Transfer>, id: InvoiceId)
    ensures CreditedSum(order + [k], m, id) == CreditedSum(order, m, id) + Contribution(m, k, id)
  {
    assert (order + [k])[..|order|] == order;
  }

  /** Rewriting one row changes the total by exactly the change of that row's contribution. */
  lemma {:induction false} CreditedSumUpdate(order: seq<TransferKey>, m: map<TransferKey, Transfer>, k: TransferKey, row: Transfer, id: InvoiceId)
    requires Distinct(order)
    ensures CreditedSum(order, m[k := row], id) ==
            CreditedSum(order, m, id) + if k in order then Contribution(m[k := row], k, id) - Contribution(m, k, id) else 0
  {
    if order != [] {
      var init, last := order[..|order| - 1], order[|order| - 1];
      assert order == init + [last];
      CreditedSumUpdate(init, m, k, row, id);
      if last == k { assert k !in init; }
    }
  }

  lemma {:induction false} CreditedSumPositive(order: seq<TransferKey>, m: map<TransferKey, Transfer>, id: InvoiceId)
    requires forall k :: k in m ==> m[k].amount > 0
    ensures CreditedSum(order, m, id) >= 0
    ensures CreditedSum(order, m, id) > 0 <==> exists k :: k in order && k in m && m[k].matchStatus == CREDITED && m[k].invoiceId == Some(id)
  {
    if order != [] {
      var init, last := order[..|order| - 1], order[|order| - 1];
      assert order == init + [last];
      CreditedSumPositive(init, m, id);
    }
  }

  // ---------------------------------------------------------------- the invariant

  /** Keys and orders agree, amounts are positive, references resolve. */
  ghost predicate TablesOk(db: Db) {
    && Distinct(db.transferOrder)
    && (forall k :: k in db.transferOrder <==> k in db.transfers)
    && (forall k :: k in db.transfers ==> db.transfers[k].amount > 0)
    && (forall k :: k in db.transfers ==> db.transfers[k].invoiceId.Some? ==> db.transfers[k].invoiceId.value in db.invoices)
  }

  /** Chain transaction keys and order agree, and every transfer belongs to a recorded transaction. */
  ghost predicate TxTableOk(db: Db) {
    && Distinct(db.txOrder)
    && (forall k :: k in db.txOrder <==> k in db.txs)
    && (forall k :: k in db.transfers ==> TxKey(k.network, k.txHash) in db.txs)
  }

  /** CREDITED, creditedAt and a ledger transaction coincide; no transfer has two ledger transactions. */
  ghost predicate CreditsOk(transfers: map<TransferKey, Transfer>, ltxs: seq<LedgerTx>) {
    && (forall k :: k in transfers ==> (transfers[k].matchStatus == CREDITED <==> transfers[k].creditedAt.Some?))
    && (forall k :: k in transfers ==> (transfers[k].matchStatus == CREDITED <==> Posted(ltxs, k)))
    && (forall i :: 0 <= i < |ltxs| ==> ltxs[i].key in transfers && transfers[ltxs[i].key].invoiceId == Some(ltxs[i].invoiceId))
    && (forall i, j :: 0 <= i < j < |ltxs| ==> ltxs[i].key != ltxs[j].key)
  }

  /** Per invoice, debits and credits in the ledger both equal the credited transfers. */
  ghost predicate SidesOk(order: seq<TransferKey>, transfers: map<TransferKey, Transfer>, entries: seq<Entry>) {
    forall id: InvoiceId, side: Direction :: SideOf(entries, id, side) == CreditedSum(order, transfers, id)
  }

  /** Per transfer, debits and credits in the ledger both equal its amount once credited, else nothing. */
  ghost predicate KeySidesOk(transfers: map<TransferKey, Transfer>, entries: seq<Entry>) {
    forall k: TransferKey, side: Direction ::
      SideOfKey(entries, k, side) == if k in transfers && transfers[k].matchStatus == CREDITED then transfers[k].amount else 0
  }

  function LastStatus(events: seq<Event>, id: InvoiceId): Option<Status> {
    if events == [] then None
    else if events[|events| - 1].invoiceId == id then Some(events[|events| - 1].to)
    else LastStatus(events[..|events| - 1], id)
  }

  /** An event continues its invoice's trail: next number, starting status, permitted edge. */
  ghost predicate Continues(events: seq<Event>, e: Event) {
    && e.sequence == EventCount(events, e.invoiceId) + 1
    && e.from == LastStatus(events, e.invoiceId)
    && (if e.from.None? then e.to == CREATED else IsActorAllowed(e.from.value, e.to, e.actor))
  }

  /** Every event of the log continued the trail of its invoice when it was written. */
  ghost predicate Trail(events: seq<Event>) {
    events == [] || (Trail(events[..|events| - 1]) && Continues(events[..|events| - 1], events[|events| - 1]))
  }

  ghost predicate EventsOk(events: seq<Event>, invoices: map<InvoiceId, Invoice>) {
    && Trail(events)
    && (forall id: InvoiceId :: LastStatus(events, id) == if id in invoices then Some(invoices[id].status) else None)
  }

  function DiscrepancyCount(ds: seq<Discrepancy>, id: InvoiceId): nat {
    if ds == [] then 0
    else DiscrepancyCount(ds[..|ds| - 1], id) + if ds[|ds| - 1].invoiceId == id then 1 else 0
  }

  /** Exactly the invoices under reconciliation have a recorded discrepancy, and they have one. */
  ghost predicate DiscrepanciesOk(ds: seq<Discrepancy>, invoices: map<InvoiceId, Invoice>) {
    forall id: InvoiceId :: DiscrepancyCount(ds, id) ==
                            if id in invoices && invoices[id].status == RECONCILIATION_REQUIRED then 1 else 0
  }

  /** Money was credited for the invoice iff its status is settled, and then the amounts agree. */
  ghost predicate InvoiceSettled(db: Db, id: InvoiceId)
    requires id in db.invoices
  {
    var credited := CreditedSum(db.transferOrder, db.transfers, id);
    && (Settled(db.invoices[id].status) <==> credited > 0)
    && (Settled(db.invoices[id].status) ==> db.invoices[id].confirmedAmount == credited)
  }

  /** The statuses automated steps and a merchant's cancellation can leave an invoice in. */
  const AUTOMATED: set<Status> := {PENDING, DETECTED, CONFIRMING, PAID, UNDERPAID, OVERPAID, EXPIRED, CANCELLED,
                                   LATE_PAYMENT_REVIEW, RECONCILIATION_REQUIRED}

  ghost predicate InvoicesOk(invoices: map<InvoiceId, Invoice>) {
    forall id :: id in invoices ==>
      && invoices[id].status in AUTOMATED
      && invoices[id].cryptoAmount > 0 && invoices[id].requiredConfirmations >= 1
      && ValidBps(invoices[id].underBps) && ValidBps(invoices[id].overBps)
  }

  /** Everything except the settlement of invoices. */
  ghost predicate Core(db: Db) {
    && TablesOk(db)
    && TxTableOk(db)
    && InvoicesOk(db.invoices)
    && CreditsOk(db.transfers, db.book.txs)
    && SidesOk(db.transferOrder, db.transfers, db.book.entries)
    && KeySidesOk(db.transfers, db.book.entries)
    && WellFormed(db.book)
    && Balanced(db.book)
    && EventsOk(db.events, db.invoices)
    && DiscrepanciesOk(db.discrepancies, db.invoices)
  }

  ghost predicate SettledExcept(db: Db, except: Option<InvoiceId>) {
    forall id :: id in db.invoices && except != Some(id) ==> InvoiceSettled(db, id)
  }

  ghost predicate Inv(db: Db) {
    Core(db) && SettledExcept(db, None)
  }

  // ---------------------------------------------------------------- what a step may change

  /** A credited row is final, an invoice's terms are frozen, reconciliation is left by no automated step. */
  ghost predicate Extends(a: Db, b: Db) {
    && (forall k :: k in a.transfers ==> k in b.transfers)
    && (forall k :: k in a.transfers && a.transfers[k].matchStatus == CREDITED ==>
          b.transfers[k].(confirmations := 0) == a.transfers[k].(confirmations := 0))
    && (forall id :: id in a.invoices ==> id in b.invoices)
    && (forall id :: id in a.invoices ==> InvoiceExtends(a.invoices[id], b.invoices[id]))
    && a.book.txs <= b.book.txs
    && a.book.entries <= b.book.entries
    && a.events <= b.events
  }

  ghost predicate InvoiceExtends(i: Invoice, j: Invoice) {
    && j.(status := i.status, receivedAmount := i.receivedAmount, confirmedAmount := i.confirmedAmount) == i
    && (i.status == RECONCILIATION_REQUIRED ==> j == i)
    && (i.status == PAID ==> Settled(j.status) && j.(status := PAID) == i)
  }

  lemma ExtendsTransitive(a: Db, b: Db, c: Db)
    requires Extends(a, b) && Extends(b, c)
    ensures Extends(a, c)
  {
    forall k | k in a.transfers && a.transfers[k].matchStatus == CREDITED
      ensures c.transfers[k].(confirmations := 0) == a.transfers[k].(confirmations := 0)
    {
      assert b.transfers[k].matchStatus == CREDITED;
    }
  }
}
