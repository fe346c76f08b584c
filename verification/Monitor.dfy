/**
 * MonitorService as it runs: a transaction client whose tables are updated row by row, and the
 * service that commits or discards it (apps/blockchain-monitor/src/monitor.service.ts).
 * Every method is proved equal to the step function of `Pipeline` that the theorems are about.
 */
module Monitor {
  import opened Basics
  import opened Rounding
  import opened StateMachine
  import opened Ledger
  import opened LedgerStore
  import opened Payments
  import opened Pipeline
  import opened PipelineInvariant
  import opened PipelineTheorems

  /** The `tx` handed to a transaction body. A method returning false has thrown. */
  class TransactionClient {
    var merchants: map<MerchantId, Merchant>
    var addresses: map<AddressKey, AddressRow>
    var invoices: map<InvoiceId, Invoice>
    var txOrder: seq<TxKey>
    var txs: map<TxKey, TxRow>
    var transferOrder: seq<TransferKey>
    var transfers: map<TransferKey, Transfer>
    var events: seq<Event>
    const ledger: LedgerTables
    var discrepancies: seq<Discrepancy>

    constructor (db: Db)
      ensures View() == db && fresh(ledger)
    {
      merchants, addresses, invoices := db.merchants, db.addresses, db.invoices;
      txOrder, txs := db.txOrder, db.txs;
      transferOrder, transfers := db.transferOrder, db.transfers;
      events, discrepancies := db.events, db.discrepancies;
      ledger := new LedgerTables(db.book);
    }

    function View(): Db
      reads this, ledger
    {
      Db(merchants, addresses, invoices, txOrder, txs, transferOrder, transfers, events, ledger.View(), discrepancies)
    }

    method CountEvents(id: InvoiceId) returns (n: nat)
      ensures n == EventCount(events, id)
    {
      n := 0;
      for i := 0 to |events|
        invariant n == EventCount(events[..i], id)
      {
        assert events[..i + 1][..i] == events[..i];
        if events[i].invoiceId == id { n := n + 1; }
      }
      assert events[..|events|] == events;
    }

    method MoveInvoice(id: InvoiceId, to: Status, actor: Actor)
      requires id in invoices
      modifies this
      ensures View() == Move(old(View()), id, to, actor)
    {
      var fromStatus := invoices[id].status;
      invoices := invoices[id := invoices[id].(status := to)];
      var count := CountEvents(id);
      events := events + [Event(id, Some(fromStatus), to, count + 1, actor)];
    }

    method GuardedMove(id: InvoiceId, to: Status) returns (ok: bool)
      requires id in invoices
      modifies this
      ensures ok <==> Guarded(old(View()), id, to).Commit?
      ensures ok ==> Guarded(old(View()), id, to) == Commit(View())
    {
      var status := invoices[id].status;
      if !CanTransition(status, to) { return true; }
      if !AssertTransition(status, to, MONITOR) { return false; }
      MoveInvoice(id, to, MONITOR);
      ok := true;
    }

    method RecordTx(n: Network, tx: ChainTx)
      modifies this
      ensures View() == RecordChainTransaction(old(View()), n, tx)
    {
      var key := TxKey(n, tx.hash);
      var status := if tx.status == TX_REVERTED then REVERTED else if tx.blockNumber.None? then MEMPOOL else MINED;
      if key !in txs { txOrder := txOrder + [key]; }
      txs := txs[key := TxRow(status, tx.blockNumber)];
    }

    method RecordOne(cfg: Config, n: Network, tx: ChainTx, t: ParsedTransfer, now: Time) returns (ok: bool)
      modifies this
      ensures ok <==> RecordTransfer(old(View()), cfg, n, tx, t, now).Commit?
      ensures ok ==> RecordTransfer(old(View()), cfg, n, tx, t, now) == Commit(View())
    {
      var key := TransferKey(n, tx.hash, t.index);
      if key in transfers && transfers[key].creditedAt.Some? { return true; }

      var row := Classify(cfg, n, tx, t, now);
      hide ClassifiedRow;
      if row.invoiceId.Some? && cfg.graceSeconds < 0 { return false; }
      if t.amount <= 0 || t.index < -1 { return false; }
      if key !in transfers { transferOrder := transferOrder + [key]; }
      transfers := transfers[key := row];

      ok := true;
      if row.invoiceId.Some? && row.matchStatus == PENDING_CONFIRMATION {
        ok := GuardedMove(row.invoiceId.value, DETECTED);
      }
      if ok && row.invoiceId.Some? && row.matchStatus == LATE_REVIEW {
        ok := GuardedMove(row.invoiceId.value, LATE_PAYMENT_REVIEW);
      }
    }

    /** The row for an uncredited transfer: asset, invoice by address, and the match decision. */
    method Classify(cfg: Config, n: Network, tx: ChainTx, t: ParsedTransfer, now: Time) returns (row: Transfer)
      ensures row == ClassifiedRow(View(), cfg, n, tx, t, now)
      ensures row.invoiceId.Some? ==> row.invoiceId.value in invoices
    {
      var asset := if (n, t.token) in cfg.assets then Some(cfg.assets[(n, t.token)]) else None;
      var meetsMinimum := asset.Some? && t.amount >= asset.value.minDeposit;
      var address := AddressKey(n, t.to);
      var invoiceId := None;
      if address in addresses && addresses[address].invoiceId.Some? && addresses[address].invoiceId.value in invoices {
        invoiceId := addresses[address].invoiceId;
      }
      var status := None;
      var expired := false;
      if invoiceId.Some? {
        status := Some(invoices[invoiceId.value].status);
        expired := !WithinGrace(invoices[invoiceId.value].expiresAt, now, cfg.graceSeconds);
      }
      var decision := EvaluateMatch(asset.Some?, meetsMinimum, tx.status, status, expired);
      row := Transfer(if asset.Some? then Some(asset.value.asset) else None, t.amount, invoiceId, decision, tx.confirmations, None);
    }

    method RecordAll(cfg: Config, n: Network, tx: ChainTx, ts: seq<ParsedTransfer>, now: Time) returns (ok: bool)
      modifies this
      ensures ok <==> RecordTransfers(old(View()), cfg, n, tx, ts, now).Commit?
      ensures ok ==> RecordTransfers(old(View()), cfg, n, tx, ts, now) == Commit(View())
    {
      for i := 0 to |ts|
        invariant RecordTransfers(old(View()), cfg, n, tx, ts, now) == RecordTransfers(View(), cfg, n, tx, ts[i..], now)
      {
        assert ts[i..][1..] == ts[i + 1..];
        ok := RecordOne(cfg, n, tx, ts[i], now);
        if !ok { return; }
      }
      ok := true;
    }

    /** The rows of the invoice that have reached their threshold, and their total. */
    method ConfirmedTransfers(id: InvoiceId, required: int) returns (keys: seq<TransferKey>, total: int)
      ensures keys == EligibleKeys(transferOrder, transfers, id, required)
      ensures total == SumAmounts(keys, transfers)
    {
      keys, total := [], 0;
      for i := 0 to |transferOrder|
        invariant keys == EligibleKeys(transferOrder[..i], transfers, id, required)
        invariant total == SumAmounts(keys, transfers)
      {
        var k := transferOrder[i];
        assert transferOrder[..i + 1][..i] == transferOrder[..i];
        if k in transfers && Eligible(transfers[k], id, required) {
          assert (keys + [k])[..|keys|] == keys;
          keys := keys + [k];
          total := total + transfers[k].amount;
        }
      }
      assert transferOrder[..|transferOrder|] == transferOrder;
    }

    method CreditTransfer(id: InvoiceId, feeBps: int, key: TransferKey, now: Time) returns (ok: bool)
      requires id in invoices && key in transfers
      modifies this`transfers, ledger
      ensures ok <==> CreditOne(old(View()), id, feeBps, key, now).Commit?
      ensures ok ==> CreditOne(old(View()), id, feeBps, key, now) == Commit(View())
    {
      var t := transfers[key];
      var result := ledger.PostPaymentCredit(CreditFor(invoices[id], id, feeBps, key, t.amount));
      if result.Abort? { return false; }
      if !result.value {
        transfers := transfers[key := t.(matchStatus := CREDITED, creditedAt := Some(now))];
      }
      ok := true;
    }

    method CreditTransfers(id: InvoiceId, feeBps: int, keys: seq<TransferKey>, now: Time) returns (ok: bool)
      requires id in invoices && forall k :: k in keys ==> k in transfers
      modifies this`transfers, ledger
      ensures ok <==> CreditAll(old(View()), id, feeBps, keys, now).Commit?
      ensures ok ==> CreditAll(old(View()), id, feeBps, keys, now) == Commit(View())
    {
      for i := 0 to |keys|
        invariant id in View().invoices && forall k :: k in keys ==> k in View().transfers
        invariant CreditAll(old(View()), id, feeBps, keys, now) == CreditAll(View(), id, feeBps, keys[i..], now)
      {
        assert keys[i..][1..] == keys[i + 1..];
        assert keys[i] in keys;
        ok := CreditTransfer(id, feeBps, keys[i], now);
        if !ok { return; }
      }
      ok := true;
    }

    method Settlement(id: InvoiceId, m: Merchant, target: Status, keys: seq<TransferKey>, total: int, now: Time) returns (ok: bool)
      requires id in invoices && forall k :: k in keys ==> k in transfers
      modifies this, ledger
      ensures ok <==> Settle(old(View()), id, m, target, keys, total, now).Commit?
      ensures ok ==> Settle(old(View()), id, m, target, keys, total, now) == Commit(View())
    {
      MoveInvoice(id, target, MONITOR);
      invoices := invoices[id := invoices[id].(receivedAmount := total, confirmedAmount := total)];
      assert View() == Evaluated(old(View()), id, target, total);
      if !AutoAccept(m, target) { return true; }
      if target != PAID {
        if !AssertTransition(target, PAID, MONITOR) { return false; }
        MoveInvoice(id, PAID, MONITOR);
      }
      ok := CreditTransfers(id, m.feeBps, keys, now);
    }

    method Finalize(id: InvoiceId, now: Time) returns (ok: bool)
      modifies this, ledger
      ensures ok <==> FinalizeInvoice(old(View()), id, now).Commit?
      ensures ok ==> FinalizeInvoice(old(View()), id, now) == Commit(View())
    {
      if id !in invoices { return false; }
      var inv := invoices[id];
      if !CanTransition(inv.status, PAID) && !CanTransition(inv.status, UNDERPAID) && !CanTransition(inv.status, OVERPAID) {
        return true;
      }
      var keys, total := ConfirmedTransfers(id, inv.requiredConfirmations);
      if total == 0 { return true; }
      if inv.merchantId !in merchants { return false; }
      var target := TargetFor(inv, total);
      if target.Abort? { return false; }
      if target.value.None? || !CanTransition(inv.status, target.value.value) { return true; }
      if !AssertTransition(inv.status, target.value.value, MONITOR) { return false; }
      ok := Settlement(id, merchants[inv.merchantId], target.value.value, keys, total, now);
    }

    /** The body `updateConfirmations` runs for one pending transfer. */
    method ConfirmOne(p: Pending, confirmations: nat, now: Time) returns (ok: bool)
      modifies this, ledger
      ensures ok <==> ConfirmTransfer(old(View()), p.key, p.invoiceId, confirmations, now).Commit?
      ensures ok ==> ConfirmTransfer(old(View()), p.key, p.invoiceId, confirmations, now) == Commit(View())
    {
      if p.key !in transfers { return false; }
      transfers := transfers[p.key := transfers[p.key].(confirmations := confirmations)];
      if p.invoiceId.None? { return true; }
      var id := p.invoiceId.value;
      if id !in invoices { return false; }
      var required := invoices[id].requiredConfirmations;
      if confirmations >= 1 {
        var moved := GuardedMove(id, CONFIRMING);
        if !moved { return false; }
      }
      if required < 1 { return false; }
      if !IsConfirmed(confirmations, required) { return true; }
      ok := Finalize(id, now);
    }

    method CountPending(id: InvoiceId) returns (n: nat)
      ensures n == PendingCount(transferOrder, transfers, id)
    {
      n := 0;
      for i := 0 to |transferOrder|
        invariant n == PendingCount(transferOrder[..i], transfers, id)
      {
        var k := transferOrder[i];
        assert transferOrder[..i + 1][..i] == transferOrder[..i];
        if k in transfers && transfers[k].invoiceId == Some(id) && transfers[k].matchStatus == PENDING_CONFIRMATION { n := n + 1; }
      }
      assert transferOrder[..|transferOrder|] == transferOrder;
    }

    method OrphanOne(key: TransferKey) returns (ok: bool)
      modifies this
      ensures ok <==> OrphanTransfer(old(View()), key).Commit?
      ensures ok ==> OrphanTransfer(old(View()), key) == Commit(View())
    {
      if key !in transfers { return false; }
      var t := transfers[key];
      if t.creditedAt.Some? {
        if t.invoiceId.None? { return true; }
        var id := t.invoiceId.value;
        if id !in invoices { return false; }
        if !CanTransition(invoices[id].status, RECONCILIATION_REQUIRED) { return true; }
        if !AssertTransition(invoices[id].status, RECONCILIATION_REQUIRED, MONITOR) { return false; }
        MoveInvoice(id, RECONCILIATION_REQUIRED, MONITOR);
        discrepancies := discrepancies + [Discrepancy(key, id)];
        return true;
      }
      transfers := transfers[key := t.(matchStatus := ORPHANED)];
      if t.invoiceId.None? { return true; }
      var id := t.invoiceId.value;
      if id !in invoices { return false; }
      var remaining := CountPending(id);
      ok := GuardedMove(id, if remaining > 0 then DETECTED else PENDING);
    }

    /** The body `handleReorg` runs for one orphaned transaction. */
    method OrphanTransaction(tx: TxKey) returns (ok: bool)
      modifies this
      ensures ok <==> OrphanTx(old(View()), tx).Commit?
      ensures ok ==> OrphanTx(old(View()), tx) == Commit(View())
    {
      if tx !in txs { return false; }
      txs := txs[tx := txs[tx].(status := ORPHANED_TX)];
      var keys := TransfersOf(transferOrder, tx);
      label updated:
      for i := 0 to |keys|
        invariant OrphanTransfers(old@updated(View()), keys) == OrphanTransfers(View(), keys[i..])
      {
        assert keys[i..][1..] == keys[i + 1..];
        ok := OrphanOne(keys[i]);
        if !ok { return; }
      }
      ok := true;
    }
  }

  /** The service: each public method is a loop of transactions over the committed tables. */
  class MonitorService {
    var db: Db
    const cfg: Config
    /** The steps that led here, of this service and of everyone else. */
    ghost var trace: seq<Step>

    /** The tables are a state some run reaches, so every result about runs holds of them. */
    ghost predicate Valid()
      reads this
    {
      db == Reached(trace)
    }

    constructor (cfg: Config)
      ensures Valid() && db == EMPTY_DB && this.cfg == cfg
    {
      db, this.cfg, trace := EMPTY_DB, cfg, [];
    }

    /** What every caller may rely on after any method. */
    lemma Sound()
      requires Valid()
      ensures Inv(db)
    {
      ReachedInv(trace);
    }

    /** `chainTx` and `transfers` are the adapter's answers; None means the hash is unknown to it. */
    method Process(n: Network, chainTx: Option<ChainTx>, transfers: seq<ParsedTransfer>, now: Time) returns (threw: bool)
      requires Valid()
      modifies this
      ensures Valid() && old(trace) <= trace && Extends(old(db), db)
      ensures chainTx.None? ==> db == old(db) && !threw
      ensures chainTx.Some? ==> db == Next(old(db), Step.Process(cfg, n, chainTx.value, transfers, now))
      ensures chainTx.Some? ==> (threw <==> ProcessTransaction(old(db), cfg, n, chainTx.value, transfers, now).Abort?)
    {
      hide Extends;
      CreditsAreFinal(trace, []);
      assert trace + [] == trace;
      if chainTx.None? { return false; }
      ghost var step := Step.Process(cfg, n, chainTx.value, transfers, now);
      CreditsAreFinal(trace, [step]);
      OneMoreStep(trace, step);
      trace := trace + [step];
      if transfers == [] { return false; }
      var tx := new TransactionClient(db);
      tx.RecordTx(n, chainTx.value);
      var ok := tx.RecordAll(cfg, n, chainTx.value, transfers, now);
      if ok { db := tx.View(); }
      threw := !ok;
    }

    method PendingTransfers(n: Network) returns (pending: seq<Pending>)
      ensures pending == PendingRows(db.transferOrder, db.transfers, n)
    {
      pending := [];
      for i := 0 to |db.transferOrder|
        invariant pending == PendingRows(db.transferOrder[..i], db.transfers, n)
      {
        var k := db.transferOrder[i];
        assert db.transferOrder[..i + 1][..i] == db.transferOrder[..i];
        if k in db.transfers && k.network == n && db.transfers[k].matchStatus == PENDING_CONFIRMATION && db.transfers[k].creditedAt.None? {
          pending := pending + [Pending(k, db.transfers[k].invoiceId)];
        }
      }
      assert db.transferOrder[..|db.transferOrder|] == db.transferOrder;
    }

    /** `answers` are the confirmation counts the adapter reports, in the order it is asked. */
    method UpdateConfirmations(n: Network, answers: seq<nat>, now: Time) returns (threw: bool)
      requires Valid() && |answers| == |PendingRows(db.transferOrder, db.transfers, n)|
      modifies this
      ensures Valid() && old(trace) <= trace && Extends(old(db), db)
      ensures Loop(db, !threw) == ConfirmAll(old(db), PendingRows(old(db).transferOrder, old(db).transfers, n), answers, now)
    {
      hide Extends, ConfirmAll, Run;
      ghost var steps := ConfirmationPassIsRun(db, PendingRows(db.transferOrder, db.transfers, n), answers, now);
      CreditsAreFinal(trace, steps);
      RunSplits(EMPTY_DB, trace, steps);
      threw := ConfirmPending(n, answers, now);
      trace := trace + steps;
    }

    /** The loop over the snapshot, one transaction per row. */
    method ConfirmPending(n: Network, answers: seq<nat>, now: Time) returns (threw: bool)
      requires |answers| == |PendingRows(db.transferOrder, db.transfers, n)|
      modifies this`db
      ensures Loop(db, !threw) == ConfirmAll(old(db), PendingRows(old(db).transferOrder, old(db).transfers, n), answers, now)
    {
      var pending := PendingTransfers(n);
      for i := 0 to |pending|
        invariant ConfirmAll(old(db), pending, answers, now) == ConfirmAll(db, pending[i..], answers[i..], now)
      {
        assert pending[i..][1..] == pending[i + 1..] && answers[i..][1..] == answers[i + 1..];
        var tx := new TransactionClient(db);
        var ok := tx.ConfirmOne(pending[i], answers[i], now);
        if !ok { return true; }
        db := tx.View();
      }
      threw := false;
    }

    method Reorg(n: Network, fromBlock: nat) returns (threw: bool)
      requires Valid()
      modifies this
      ensures Valid() && old(trace) <= trace && Extends(old(db), db)
      ensures !threw && db.book == old(db).book
      ensures forall k :: k in db.txs && k.network == n ==> !InReorg(db.txs[k], fromBlock)
      ensures Loop(db, !threw) == HandleReorg(old(db), n, fromBlock)
    {
      ReorgHandled(trace, n, fromBlock);
      hide Extends, OrphanAll, Run, Inv, OrphanedRow;
      ghost var steps := ReorgPassIsRun(db, ReorgKeys(db.txOrder, db.txs, n, fromBlock));
      CreditsAreFinal(trace, steps);
      RunSplits(EMPTY_DB, trace, steps);
      threw := OrphanFrom(n, fromBlock);
      trace := trace + steps;
    }

    /** The loop over the orphaned transactions, one transaction each. */
    method OrphanFrom(n: Network, fromBlock: nat) returns (threw: bool)
      modifies this`db
      ensures Loop(db, !threw) == HandleReorg(old(db), n, fromBlock)
    {
      var orphaned := ReorgKeys(db.txOrder, db.txs, n, fromBlock);
      for i := 0 to |orphaned|
        invariant OrphanAll(old(db), orphaned) == OrphanAll(db, orphaned[i..])
      {
        assert orphaned[i..][1..] == orphaned[i + 1..];
        var tx := new TransactionClient(db);
        var ok := tx.OrphanTransaction(orphaned[i]);
        if !ok { return true; }
        db := tx.View();
      }
      threw := false;
    }
  }

  lemma OneMoreStep(trace: seq<Step>, step: Step)
    ensures Reached(trace + [step]) == Next(Reached(trace), step)
  {
    hide Next;
    assert (trace + [step])[..|trace|] == trace;
  }
}
