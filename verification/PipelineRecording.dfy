/**
 * What recording a transfer decides (monitor.service.ts:115-216, packages/payments/src/matcher.ts):
 * every match status by its exact condition, and the invoice's move.
 */
module PipelineRecording {
  import opened Basics
  import opened StateMachine
  import opened Ledger
  import opened Payments
  import opened Pipeline
  import opened PipelineInvariant

  /** The address was handed to this invoice. */
  predicate Owns(db: Db, a: AddressKey, id: InvoiceId) {
    a in db.addresses && db.addresses[a].invoiceId == Some(id) && id in db.invoices
  }

  /** The token is on the network's allowlist and the amount reaches its minimum. */
  predicate ListedEnough(cfg: Config, n: Network, t: ParsedTransfer) {
    (n, t.token) in cfg.assets && t.amount >= cfg.assets[(n, t.token)].minDeposit
  }

  /** Past the deadline and its grace, or no longer payable. */
  predicate TooLate(inv: Invoice, cfg: Config, now: Time) {
    now > inv.expiresAt + cfg.graceSeconds * 1000 || inv.status !in {PENDING, DETECTED, CONFIRMING, UNDERPAID}
  }

  /** The whole decision, one condition per match status. */
  ghost predicate Matches(db: Db, cfg: Config, n: Network, tx: ChainTx, t: ParsedTransfer, now: Time, row: Transfer) {
    var good := tx.status != TX_REVERTED && ListedEnough(cfg, n, t);
    var a := AddressKey(n, t.to);
    && row.amount == t.amount && row.confirmations == tx.confirmations && row.creditedAt == None
    && row.asset == (if (n, t.token) in cfg.assets then Some(cfg.assets[(n, t.token)].asset) else None)
    && (forall id: InvoiceId :: row.invoiceId == Some(id) <==> Owns(db, a, id))
    && (row.matchStatus == UNSUPPORTED_ASSET <==> tx.status != TX_REVERTED && (n, t.token) !in cfg.assets)
    && (row.matchStatus == BELOW_MINIMUM <==>
          tx.status != TX_REVERTED && (n, t.token) in cfg.assets && t.amount < cfg.assets[(n, t.token)].minDeposit)
    && (row.matchStatus == UNMATCHED <==> tx.status == TX_REVERTED || (good && forall id :: !Owns(db, a, id)))
    && (row.matchStatus == LATE_REVIEW <==> good && exists id :: Owns(db, a, id) && TooLate(db.invoices[id], cfg, now))
    && (row.matchStatus == PENDING_CONFIRMATION <==> good && exists id :: Owns(db, a, id) && !TooLate(db.invoices[id], cfg, now))
  }

  lemma OwnerIs(db: Db, a: AddressKey, id: InvoiceId)
    ensures InvoiceAt(db, a) == Some(id) <==> Owns(db, a, id)
  {
  }

  lemma MatchExactly(db: Db, cfg: Config, n: Network, tx: ChainTx, t: ParsedTransfer, now: Time)
    ensures Matches(db, cfg, n, tx, t, now, ClassifiedRow(db, cfg, n, tx, t, now))
  {
    var a := AddressKey(n, t.to);
    forall id: InvoiceId ensures InvoiceAt(db, a) == Some(id) <==> Owns(db, a, id) { OwnerIs(db, a, id); }
    var owner := InvoiceAt(db, a);
    if owner.Some? { assert Owns(db, a, owner.value); }
    hide InvoiceAt, Owns;
  }

  /** The status a sighting leaves its invoice in. */
  function StatusAfter(status: Status, decision: MatchStatus): Status {
    if decision == PENDING_CONFIRMATION && status in {PENDING, CONFIRMING} then DETECTED
    else if decision == LATE_REVIEW && status in {EXPIRED, CANCELLED} then LATE_PAYMENT_REVIEW
    else status
  }

  /** The table rows a recorded transfer leaves: its own row, and its invoice's status. */
  ghost predicate Recorded(db: Db, k: TransferKey, row: Transfer, db': Db) {
    && db' == db.(transferOrder := db'.transferOrder, transfers := db'.transfers, invoices := db'.invoices, events := db'.events)
    && db'.transfers == db.transfers[k := row]
    && db'.transferOrder == (if k in db.transfers then db.transferOrder else db.transferOrder + [k])
    && db'.invoices.Keys == db.invoices.Keys
    && forall id :: id in db.invoices ==>
         db'.invoices[id] == db.invoices[id].(status := if row.invoiceId == Some(id) then StatusAfter(db.invoices[id].status, row.matchStatus)
                                                        else db.invoices[id].status)
  }

  /** The monitor's edges a sighting may take. */
  lemma SightingEdges(s: Status)
    ensures CanTransition(s, DETECTED) <==> s in {PENDING, CONFIRMING}
    ensures CanTransition(s, LATE_PAYMENT_REVIEW) <==> s in {EXPIRED, CANCELLED}
    ensures CanTransition(s, LATE_PAYMENT_REVIEW) ==> AssertTransition(s, LATE_PAYMENT_REVIEW, MONITOR)
    ensures CanTransition(s, DETECTED) ==> AssertTransition(s, DETECTED, MONITOR)
  {
  }

  lemma GuardedTo(db: Db, id: InvoiceId, to: Status)
    requires id in db.invoices && to in {DETECTED, LATE_PAYMENT_REVIEW}
    ensures var r := Guarded(db, id, to);
            && r.Commit?
            && r.value == db.(invoices := db.invoices[id := db.invoices[id].(status := if CanTransition(db.invoices[id].status, to) then to else db.invoices[id].status)],
                              events := r.value.events)
  {
    SightingEdges(db.invoices[id].status);
    hide FindRule, EventCount, AssertTransition;
    assert db.invoices[id := db.invoices[id]] == db.invoices;
  }

  /**
   * Recording a transfer: a credited row is never touched; otherwise it throws exactly for a negative
   * grace, a non-positive amount or an index out of range, and else stores the decision and moves the
   * invoice to DETECTED for money in time and to LATE_PAYMENT_REVIEW for late money on a closed one.
   */
  lemma RecordExactly(db: Db, cfg: Config, n: Network, tx: ChainTx, t: ParsedTransfer, now: Time)
    ensures var k := TransferKey(n, tx.hash, t.index);
            var r := RecordTransfer(db, cfg, n, tx, t, now);
            if k in db.transfers && db.transfers[k].creditedAt.Some? then r == Commit(db)
            else
              && (r.Abort? <==> t.amount <= 0 || t.index < -1 || (cfg.graceSeconds < 0 && exists id :: Owns(db, AddressKey(n, t.to), id)))
              && (r.Commit? ==> k in r.value.transfers && Matches(db, cfg, n, tx, t, now, r.value.transfers[k])
                                && Recorded(db, k, r.value.transfers[k], r.value))
  {
    var k := TransferKey(n, tx.hash, t.index);
    var row := ClassifiedRow(db, cfg, n, tx, t, now);
    MatchExactly(db, cfg, n, tx, t, now);
    OwnedRow(db, cfg, n, tx, t, now);
    hide ClassifiedRow, Matches, Owns, Guarded, FindRule, CanTransition;
    var put := PutTransfer(db, k, row);
    if row.invoiceId.Some? {
      var id := row.invoiceId.value;
      GuardedTo(put, id, DETECTED);
      GuardedTo(put, id, LATE_PAYMENT_REVIEW);
      SightingEdges(db.invoices[id].status);
    }
  }

  lemma OwnedRow(db: Db, cfg: Config, n: Network, tx: ChainTx, t: ParsedTransfer, now: Time)
    ensures var row := ClassifiedRow(db, cfg, n, tx, t, now);
            && (row.invoiceId.Some? <==> exists id :: Owns(db, AddressKey(n, t.to), id))
            && (row.invoiceId.Some? ==> row.invoiceId.value in db.invoices)
  {
    var row := ClassifiedRow(db, cfg, n, tx, t, now);
    if row.invoiceId.Some? { assert Owns(db, AddressKey(n, t.to), row.invoiceId.value); }
  }

  /** A listed, unreverted deposit at an invoice's address is never dropped: late, it opens the review of a closed invoice. */
  lemma LateMoneyIsReviewed(db: Db, cfg: Config, n: Network, tx: ChainTx, t: ParsedTransfer, now: Time, id: InvoiceId)
    requires RecordTransfer(db, cfg, n, tx, t, now).Commit? && tx.status != TX_REVERTED && ListedEnough(cfg, n, t)
    requires Owns(db, AddressKey(n, t.to), id)
    ensures var db' := RecordTransfer(db, cfg, n, tx, t, now).value;
            var k := TransferKey(n, tx.hash, t.index);
            && k in db'.transfers && id in db'.invoices
            && (db'.transfers[k].creditedAt.None? ==>
                  && db'.transfers[k].invoiceId == Some(id)
                  && db'.transfers[k].matchStatus == (if TooLate(db.invoices[id], cfg, now) then LATE_REVIEW else PENDING_CONFIRMATION)
                  && (db.invoices[id].status in {EXPIRED, CANCELLED} ==> db'.invoices[id].status == LATE_PAYMENT_REVIEW)
                  && (db.invoices[id].status == PENDING ==>
                        db'.invoices[id].status == if now > db.invoices[id].expiresAt + cfg.graceSeconds * 1000 then PENDING else DETECTED))
  {
    RecordExactly(db, cfg, n, tx, t, now);
    OneOwner(db, AddressKey(n, t.to), id);
    hide RecordTransfer, ListedEnough;
  }

  lemma OneOwner(db: Db, a: AddressKey, id: InvoiceId)
    requires Owns(db, a, id)
    ensures forall i :: Owns(db, a, i) ==> i == id
  {
  }

  /** A transaction of one transfer is recorded by recording that transfer. */
  lemma OneTransfer(db: Db, cfg: Config, n: Network, tx: ChainTx, t: ParsedTransfer, now: Time)
    requires RecordTransfer(RecordChainTransaction(db, n, tx), cfg, n, tx, t, now).Commit?
    ensures Next(db, Process(cfg, n, tx, [t], now)) == RecordTransfer(RecordChainTransaction(db, n, tx), cfg, n, tx, t, now).value
  {
    hide RecordTransfer, RecordChainTransaction;
    assert [t][1..] == [];
    var r := RecordTransfer(RecordChainTransaction(db, n, tx), cfg, n, tx, t, now);
    assert RecordTransfers(r.value, cfg, n, tx, [], now) == r;
  }
}
