/**
 * One transfer's confirmation transaction: what repeating it does and when it throws. The whole pass
 * over all pending transfers is in module PipelinePass.
 */
module PipelineConfirm {
  import opened Basics
  import opened StateMachine
  import opened Ledger
  import opened Payments
  import opened Rounding
  import opened Pipeline
  import opened PipelineInvariant
  import opened PipelineSteps

  // ---------------------------------------------------------------- what settlement leaves alone

  /** Crediting keeps every row except for its status and credit time, and every invoice. */
  ghost predicate SameButCredited(a: Db, b: Db) {
    && a.transferOrder == b.transferOrder && a.invoices == b.invoices && a.merchants == b.merchants
    && (forall k :: k in a.transfers <==> k in b.transfers)
    && (forall k :: k in a.transfers ==> b.transfers[k].confirmations == a.transfers[k].confirmations)
  }

  lemma {:induction false} CreditAllSame(db: Db, id: InvoiceId, feeBps: int, keys: seq<TransferKey>, now: Time)
    requires id in db.invoices && forall k :: k in keys ==> k in db.transfers
    requires CreditAll(db, id, feeBps, keys, now).Commit?
    ensures SameButCredited(db, CreditAll(db, id, feeBps, keys, now).value)
    decreases |keys|
  {
    if keys != [] {
      var db1 := CreditOne(db, id, feeBps, keys[0], now).value;
      CreditAllSame(db1, id, feeBps, keys[1..], now);
    }
  }

  /** Settlement ends in PAID, or in the evaluated status with nothing credited. */
  lemma SettleEnds(db: Db, id: InvoiceId, m: Merchant, target: Status, keys: seq<TransferKey>, total: int, now: Time)
    requires id in db.invoices && forall k :: k in keys ==> k in db.transfers
    requires Settle(db, id, m, target, keys, total, now).Commit? && target in {PAID, UNDERPAID, OVERPAID}
    ensures var db' := Settle(db, id, m, target, keys, total, now).value;
            && id in db'.invoices && db'.merchants == db.merchants && db'.transferOrder == db.transferOrder
            && (forall k :: k in db.transfers <==> k in db'.transfers)
            && (forall k :: k in db.transfers ==> db'.transfers[k].confirmations == db.transfers[k].confirmations)
            && (if AutoAccept(m, target) then db'.invoices[id].status == PAID
                else db'.invoices[id].status == target && db'.transfers == db.transfers)
            && db'.invoices[id] == db.invoices[id].(status := db'.invoices[id].status, receivedAmount := total, confirmedAmount := total)
  {
    var db1 := Evaluated(db, id, target, total);
    if AutoAccept(m, target) {
      CreditAllSame(if target == PAID then db1 else Move(db1, id, PAID, MONITOR), id, m.feeBps, keys, now);
    }
  }

  // ---------------------------------------------------------------- finalisation by status

  /** The total `finalizeInvoice` evaluates. */
  function ConfirmedTotal(db: Db, id: InvoiceId): int
    requires id in db.invoices
  {
    SumAmounts(EligibleKeys(db.transferOrder, db.transfers, id, db.invoices[id].requiredConfirmations), db.transfers)
  }

  /** The move `finalizeInvoice` makes, if it makes one. */
  predicate Moves(db: Db, id: InvoiceId, target: Status)
    requires id in db.invoices
  {
    && ConfirmedTotal(db, id) != 0
    && TargetFor(db.invoices[id], ConfirmedTotal(db, id)) == Commit(Some(target))
    && CanTransition(db.invoices[id].status, target)
  }

  /** Finalisation either changes nothing or settles towards its one target. */
  lemma FinalizeCases(db: Db, id: InvoiceId, now: Time) returns (target: Option<Status>)
    requires id in db.invoices && FinalizeInvoice(db, id, now).Commit?
    ensures target.None? ==> FinalizeInvoice(db, id, now).value == db && forall t :: !Moves(db, id, t)
    ensures target.Some? ==>
              var inv := db.invoices[id];
              var keys := EligibleKeys(db.transferOrder, db.transfers, id, inv.requiredConfirmations);
              && target.value in {PAID, UNDERPAID, OVERPAID} && Moves(db, id, target.value)
              && inv.merchantId in db.merchants
              && FinalizeInvoice(db, id, now) == Settle(db, id, db.merchants[inv.merchantId], target.value, keys, ConfirmedTotal(db, id), now)
  {
    var inv := db.invoices[id];
    if !CanTransition(inv.status, PAID) && !CanTransition(inv.status, UNDERPAID) && !CanTransition(inv.status, OVERPAID) {
      target := None;
    } else if ConfirmedTotal(db, id) == 0 {
      target := None;
    } else {
      var t := TargetFor(inv, ConfirmedTotal(db, id)).value;
      target := if t.None? || !CanTransition(inv.status, t.value) then None else t;
    }
  }

  /** Nothing to move means nothing happens, whenever it is asked. */
  lemma FinalizeNoMove(db: Db, id: InvoiceId, now: Time)
    requires id in db.invoices && InvoicesOk(db.invoices) && db.invoices[id].merchantId in db.merchants
    requires forall t :: !Moves(db, id, t)
    ensures FinalizeInvoice(db, id, now) == Commit(db)
  {
    var inv := db.invoices[id];
    var total := ConfirmedTotal(db, id);
    if total != 0 {
      assert TargetFor(inv, total).Commit?;
      var t := TargetFor(inv, total).value;
      if t.Some? { assert !Moves(db, id, t.value); }
    }
  }

  // ---------------------------------------------------------------- calling again

  /** The state just before finalisation: confirmations written, CONFIRMING entered where possible. */
  function Advanced(db: Db, key: TransferKey, id: InvoiceId, confirmations: nat): Outcome<Db>
    requires key in db.transfers && id in db.invoices
  {
    AdvanceConfirming(SetConfirmations(db, key, confirmations), id, confirmations)
  }

  /** Confirming again from the advanced state goes straight back to finalisation. */
  lemma AdvancedAgain(db: Db, key: TransferKey, id: InvoiceId, c: nat)
    requires key in db.transfers && id in db.invoices && Advanced(db, key, id, c).Commit?
    ensures var db2 := Advanced(db, key, id, c).value;
            && key in db2.transfers && id in db2.invoices && db2.transfers[key].confirmations == c
            && db2.invoices[id].requiredConfirmations == db.invoices[id].requiredConfirmations
            && db2.merchants == db.merchants && db2.transferOrder == db.transferOrder
            && Advanced(db2, key, id, c) == Commit(db2)
  {
    var db2 := Advanced(db, key, id, c).value;
    assert SetConfirmations(db2, key, c) == db2 by {
      assert db2.transfers[key := db2.transfers[key].(confirmations := c)] == db2.transfers;
    }
  }

  lemma ConfirmUnfolds(db: Db, key: TransferKey, id: InvoiceId, c: nat, now: Time)
    requires InvoicesOk(db.invoices) && key in db.transfers && id in db.invoices
    ensures ConfirmTransfer(db, key, Some(id), c, now) ==
            match Advanced(db, key, id, c)
            case Abort => Abort
            case Commit(db2) => if c >= db.invoices[id].requiredConfirmations then FinalizeInvoice(db2, id, now) else Commit(db2)
  {
    hide FinalizeInvoice, FindRule;
  }

  /** The repeated call, whatever its outcome. */
  function Again(db: Db, key: TransferKey, id: InvoiceId, c: nat, later: Time): Db {
    Next(db, Confirm(key, Some(id), c, later))
  }

  lemma AgainStandsStill(db: Db, key: TransferKey, id: InvoiceId, c: nat, later: Time)
    requires InvoicesOk(db.invoices) && key in db.transfers && id in db.invoices
    requires Advanced(db, key, id, c) == Commit(db)
    requires c < db.invoices[id].requiredConfirmations || FinalizeInvoice(db, id, later) == Commit(db)
    ensures Again(db, key, id, c, later) == db
  {
    hide FinalizeInvoice, Advanced, ConfirmTransfer;
    ConfirmUnfolds(db, key, id, c, later);
  }

  /** After advancing with at least one confirmation the invoice is not UNDERPAID. */
  lemma AdvancedIsNotUnderpaid(db: Db, key: TransferKey, id: InvoiceId, c: nat)
    requires key in db.transfers && id in db.invoices && Advanced(db, key, id, c).Commit? && c >= 1
    ensures Advanced(db, key, id, c).value.invoices[id].status != UNDERPAID
  {
  }

  lemma AdvancedKeepsInvoicesOk(db: Db, key: TransferKey, id: InvoiceId, c: nat)
    requires key in db.transfers && id in db.invoices && Advanced(db, key, id, c).Commit? && InvoicesOk(db.invoices)
    ensures InvoicesOk(Advanced(db, key, id, c).value.invoices)
    ensures Advanced(db, key, id, c).value.invoices[id].merchantId == db.invoices[id].merchantId
  {
  }

  lemma InvParts(db: Db)
    requires Inv(db)
    ensures InvoicesOk(db.invoices)
  {
  }

  /**
   * Repeating a committed confirmation with unchanged chain state changes nothing exactly when the
   * transfer is unconfirmed or the first call did not leave the invoice UNDERPAID.
   */
  lemma ConfirmAgain(db: Db, key: TransferKey, id: InvoiceId, c: nat, now: Time, later: Time)
    requires Inv(db) && id in db.invoices && db.invoices[id].merchantId in db.merchants
    requires ConfirmTransfer(db, key, Some(id), c, now).Commit?
    ensures var once := ConfirmTransfer(db, key, Some(id), c, now).value;
            && id in once.invoices
            && (Again(once, key, id, c, later) == once <==> c < 1 || once.invoices[id].status != UNDERPAID)
            && (c >= 1 && once.invoices[id].status == UNDERPAID ==> |Again(once, key, id, c, later).events| == |once.events| + 2)
  {
    hide Inv, Extends, FinalizeInvoice, Moves, Settle, Advanced, Again, FindRule;
    assert key in db.transfers;
    InvParts(db);
    ConfirmUnfolds(db, key, id, c, now);
    var once := ConfirmTransfer(db, key, Some(id), c, now).value;
    var db2 := Advanced(db, key, id, c).value;
    AdvancedAgain(db, key, id, c);
    AdvancedKeepsInvoicesOk(db, key, id, c);
    if c >= 1 { AdvancedIsNotUnderpaid(db, key, id, c); }
    if c < db.invoices[id].requiredConfirmations {
      AgainStandsStill(db2, key, id, c, later);
    } else {
      var target := FinalizeCases(db2, id, now);
      if target.None? {
        FinalizeNoMove(db2, id, later);
        AgainStandsStill(db2, key, id, c, later);
      } else {
        ConfirmKeepsInv(db, key, Some(id), c, now);
        InvParts(once);
        SettledAgain(db2, once, key, id, c, target.value, now, later);
      }
    }
  }

  lemma PaidAgain(db: Db, key: TransferKey, id: InvoiceId, c: nat, later: Time)
    requires key in db.transfers && id in db.invoices && InvoicesOk(db.invoices) && SetConfirmations(db, key, c) == db
    requires db.invoices[id].status == PAID
    ensures Again(db, key, id, c, later) == db
  {
    hide Again, InvoicesOk;
    assert FinalizeInvoice(db, id, later) == Commit(db);
    AgainStandsStill(db, key, id, c, later);
  }

  lemma OverpaidAgain(db: Db, key: TransferKey, id: InvoiceId, c: nat, later: Time)
    requires key in db.transfers && id in db.invoices && InvoicesOk(db.invoices) && SetConfirmations(db, key, c) == db
    requires db.invoices[id].status == OVERPAID && db.invoices[id].merchantId in db.merchants
    requires TargetFor(db.invoices[id], ConfirmedTotal(db, id)) == Commit(Some(OVERPAID))
    ensures Again(db, key, id, c, later) == db
  {
    hide Again, InvoicesOk, TargetFor, ConfirmedTotal, FinalizeInvoice;
    assert forall t :: !Moves(db, id, t);
    FinalizeNoMove(db, id, later);
    AgainStandsStill(db, key, id, c, later);
  }

  /** After a settlement, the repeated call stands still unless the invoice was left UNDERPAID. */
  lemma SettledAgain(db2: Db, once: Db, key: TransferKey, id: InvoiceId, c: nat, target: Status, now: Time, later: Time)
    requires key in db2.transfers && id in db2.invoices && db2.transfers[key].confirmations == c
    requires InvoicesOk(db2.invoices) && InvoicesOk(once.invoices) && c >= db2.invoices[id].requiredConfirmations
    requires db2.invoices[id].merchantId in db2.merchants && target in {PAID, UNDERPAID, OVERPAID} && Moves(db2, id, target)
    requires var keys := EligibleKeys(db2.transferOrder, db2.transfers, id, db2.invoices[id].requiredConfirmations);
             Settle(db2, id, db2.merchants[db2.invoices[id].merchantId], target, keys, ConfirmedTotal(db2, id), now) == Commit(once)
    ensures id in once.invoices
    ensures Again(once, key, id, c, later) == once <==> once.invoices[id].status != UNDERPAID
    ensures once.invoices[id].status == UNDERPAID ==> |Again(once, key, id, c, later).events| == |once.events| + 2
  {
    hide FindRule, Settle, InvoicesOk, EligibleKeys, Again, EvaluatePayment;
    var m := db2.merchants[db2.invoices[id].merchantId];
    var keys := EligibleKeys(db2.transferOrder, db2.transfers, id, db2.invoices[id].requiredConfirmations);
    SettleEnds(db2, id, m, target, keys, ConfirmedTotal(db2, id), now);
    assert SetConfirmations(once, key, c) == once by {
      assert once.transfers[key := once.transfers[key].(confirmations := c)] == once.transfers;
    }
    if once.invoices[id].status == UNDERPAID {
      UnderpaidBounces(db2, once, key, id, c, later);
      AgainIsConfirm(once, key, id, c, later);
    } else if once.invoices[id].status == OVERPAID {
      assert ConfirmedTotal(once, id) == ConfirmedTotal(db2, id);
      OverpaidAgain(once, key, id, c, later);
    } else {
      PaidAgain(once, key, id, c, later);
    }
  }

  lemma AgainIsConfirm(db: Db, key: TransferKey, id: InvoiceId, c: nat, later: Time)
    requires ConfirmTransfer(db, key, Some(id), c, later).Commit?
    ensures Again(db, key, id, c, later) == ConfirmTransfer(db, key, Some(id), c, later).value
  {
    hide ConfirmTransfer;
  }

  /** UNDERPAID -> CONFIRMING -> UNDERPAID: two more events for the same chain state. */
  lemma UnderpaidBounces(db2: Db, once: Db, key: TransferKey, id: InvoiceId, c: nat, later: Time)
    requires key in once.transfers && id in once.invoices && id in db2.invoices && SetConfirmations(once, key, c) == once
    requires InvoicesOk(once.invoices) && c >= once.invoices[id].requiredConfirmations
    requires once.transfers == db2.transfers && once.transferOrder == db2.transferOrder && once.merchants == db2.merchants
    requires once.invoices[id].status == UNDERPAID && Moves(db2, id, UNDERPAID)
    requires once.invoices[id] == db2.invoices[id].(status := UNDERPAID, receivedAmount := ConfirmedTotal(db2, id), confirmedAmount := ConfirmedTotal(db2, id))
    requires db2.invoices[id].merchantId in db2.merchants && !AutoAccept(db2.merchants[db2.invoices[id].merchantId], UNDERPAID)
    ensures ConfirmTransfer(once, key, Some(id), c, later).Commit?
    ensures |ConfirmTransfer(once, key, Some(id), c, later).value.events| == |once.events| + 2
  {
    hide EvaluatePayment, ConfirmTransfer;
    ConfirmUnfolds(once, key, id, c, later);
    var confirming := Move(once, id, CONFIRMING, MONITOR);
    assert Advanced(once, key, id, c) == Commit(confirming);
    assert ConfirmedTotal(confirming, id) == ConfirmedTotal(db2, id);
    assert Moves(confirming, id, UNDERPAID);
    var keys := EligibleKeys(confirming.transferOrder, confirming.transfers, id, confirming.invoices[id].requiredConfirmations);
    assert FinalizeInvoice(confirming, id, later) ==
           Settle(confirming, id, once.merchants[once.invoices[id].merchantId], UNDERPAID, keys, ConfirmedTotal(confirming, id), later);
  }

  // ---------------------------------------------------------------- the loop that stops

  /**
   * For an invoice under reconciliation the transaction throws exactly when the transfer is
   * confirmed: the table has the edge, but not for the monitor. The throw ends the whole loop.
   */
  lemma ReconciliationStopsLoop(db: Db, key: TransferKey, id: InvoiceId, c: nat, now: Time)
    requires Inv(db) && key in db.transfers && id in db.invoices && db.invoices[id].merchantId in db.merchants
    requires db.invoices[id].status == RECONCILIATION_REQUIRED
    requires db.transfers[key].invoiceId == Some(id) && db.transfers[key].matchStatus == PENDING_CONFIRMATION
    ensures ConfirmTransfer(db, key, Some(id), c, now).Abort? <==> c >= db.invoices[id].requiredConfirmations
  {
    hide Extends, Balanced, WellFormed, SidesOk, KeySidesOk, CreditsOk, SettledExcept, DiscrepanciesOk, EventsOk, TxTableOk;
    ConfirmUnfolds(db, key, id, c, now);
    var db1 := SetConfirmations(db, key, c);
    assert Advanced(db, key, id, c) == Commit(db1);
    if c >= db.invoices[id].requiredConfirmations {
      ReconciliationThrows(db1, key, id, now);
    }
  }

  lemma ReconciliationThrows(db: Db, key: TransferKey, id: InvoiceId, now: Time)
    requires TablesOk(db) && InvoicesOk(db.invoices) && key in db.transfers && id in db.invoices
    requires db.invoices[id].merchantId in db.merchants && db.invoices[id].status == RECONCILIATION_REQUIRED
    requires Eligible(db.transfers[key], id, db.invoices[id].requiredConfirmations)
    ensures FinalizeInvoice(db, id, now).Abort?
  {
    hide Settle, TargetFor, EligibleKeys;
    var required := db.invoices[id].requiredConfirmations;
    EligibleComplete(db.transferOrder, db.transfers, id, required, key);
    SumNonNegative(EligibleKeys(db.transferOrder, db.transfers, id, required), db.transfers);
    TargetExists(db.invoices[id], ConfirmedTotal(db, id));
    hide TablesOk, InvoicesOk, SumAmounts;
  }

  lemma TargetExists(inv: Invoice, total: int)
    requires inv.cryptoAmount > 0 && ValidBps(inv.underBps) && ValidBps(inv.overBps) && total > 0
    ensures TargetFor(inv, total).Commit? && TargetFor(inv, total).value.Some?
  {
    hide BpsFloor;
  }

  lemma {:induction false} EligibleComplete(order: seq<TransferKey>, m: map<TransferKey, Transfer>, id: InvoiceId, required: int, k: TransferKey)
    requires k in order && k in m && Eligible(m[k], id, required)
    ensures k in EligibleKeys(order, m, id, required)
  {
    var init, last := order[..|order| - 1], order[|order| - 1];
    assert order == init + [last];
    if k != last { EligibleComplete(init, m, id, required, k); }
  }
}
