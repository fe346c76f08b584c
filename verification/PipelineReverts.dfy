/**
 * What a reorganisation does to the invoices (monitor.service.ts:373-437): a frozen one for each lost
 * credit, and for each lost uncredited transfer the status its remaining transfers call for.
 */
module PipelineReverts {
  import opened Basics
  import opened StateMachine
  import opened Ledger
  import opened Payments
  import opened Pipeline
  import opened PipelineInvariant
  import opened PipelineSteps
  import opened PipelineTheorems
  import opened PipelineRecording

  // ---------------------------------------------------------------- PENDING means nothing is pending

  predicate Waits(t: Transfer, id: InvoiceId) {
    t.invoiceId == Some(id) && t.matchStatus == PENDING_CONFIRMATION
  }

  /** No PENDING invoice has a transfer awaiting confirmations. */
  ghost predicate NoneWaits(db: Db) {
    forall k, id: InvoiceId :: k in db.transfers && id in db.invoices && Waits(db.transfers[k], id) ==> db.invoices[id].status != PENDING
  }

  /** No invoice became PENDING and no transfer began to wait. */
  ghost predicate Quieter(a: Db, b: Db) {
    && (forall id :: id in b.invoices && b.invoices[id].status == PENDING ==> id in a.invoices && a.invoices[id].status == PENDING)
    && (forall k, id: InvoiceId :: k in b.transfers && Waits(b.transfers[k], id) ==> k in a.transfers && Waits(a.transfers[k], id))
  }

  lemma QuieterKeeps(a: Db, b: Db)
    requires NoneWaits(a) && Quieter(a, b)
    ensures NoneWaits(b)
  {
  }

  lemma QuieterTwice(a: Db, b: Db, c: Db)
    requires Quieter(a, b) && Quieter(b, c)
    ensures Quieter(a, c)
  {
    hide Waits;
  }

  lemma QuieterMove(db: Db, id: InvoiceId, to: Status, actor: Actor)
    requires id in db.invoices && to != PENDING
    ensures Quieter(db, Move(db, id, to, actor))
  {
    hide EventCount;
  }

  lemma {:induction false} QuieterCredits(db: Db, id: InvoiceId, feeBps: int, keys: seq<TransferKey>, now: Time)
    requires id in db.invoices && (forall k :: k in keys ==> k in db.transfers) && CreditAll(db, id, feeBps, keys, now).Commit?
    ensures Quieter(db, CreditAll(db, id, feeBps, keys, now).value)
    decreases |keys|
  {
    hide PostCredit, Quieter;
    if keys == [] {
      QuieterSame(db);
    } else {
      assert keys[0] in keys;
      var db1 := CreditOne(db, id, feeBps, keys[0], now).value;
      QuieterCredit(db, id, feeBps, keys[0], now);
      hide CreditOne;
      QuieterCredits(db1, id, feeBps, keys[1..], now);
      QuieterTwice(db, db1, CreditAll(db, id, feeBps, keys, now).value);
    }
  }

  lemma QuieterSame(db: Db)
    ensures Quieter(db, db)
  {
  }

  lemma QuieterCredit(db: Db, id: InvoiceId, feeBps: int, key: TransferKey, now: Time)
    requires id in db.invoices && key in db.transfers && CreditOne(db, id, feeBps, key, now).Commit?
    ensures Quieter(db, CreditOne(db, id, feeBps, key, now).value)
  {
    hide PostCredit;
  }

  lemma QuieterSettle(db: Db, id: InvoiceId, m: Merchant, target: Status, keys: seq<TransferKey>, total: int, now: Time)
    requires id in db.invoices && (forall k :: k in keys ==> k in db.transfers) && target != PENDING
    requires Settle(db, id, m, target, keys, total, now).Commit?
    ensures Quieter(db, Settle(db, id, m, target, keys, total, now).value)
  {
    hide CreditAll, AssertTransition, EventCount;
    var db1 := Evaluated(db, id, target, total);
    assert Quieter(db, db1);
    if AutoAccept(m, target) {
      var db2 := if target == PAID then db1 else Move(db1, id, PAID, MONITOR);
      assert Quieter(db, db2);
      hide Quieter;
      QuieterCredits(db2, id, m.feeBps, keys, now);
      QuieterTwice(db, db2, Settle(db, id, m, target, keys, total, now).value);
    }
  }

  lemma QuieterFinalize(db: Db, id: InvoiceId, now: Time)
    requires FinalizeInvoice(db, id, now).Commit?
    ensures Quieter(db, FinalizeInvoice(db, id, now).value)
  {
    hide Settle, TargetFor, FindRule, CanTransition, AssertTransition, EligibleKeys, SumAmounts, Quieter;
    QuieterSame(db);
    var inv := db.invoices[id];
    var keys := EligibleKeys(db.transferOrder, db.transfers, id, inv.requiredConfirmations);
    var total := SumAmounts(keys, db.transfers);
    if FinalizeInvoice(db, id, now).value != db {
      QuieterSettle(db, id, db.merchants[inv.merchantId], TargetFor(inv, total).value.value, keys, total, now);
    }
  }

  lemma QuieterConfirm(db: Db, key: TransferKey, id: Option<InvoiceId>, c: nat, now: Time)
    requires ConfirmTransfer(db, key, id, c, now).Commit?
    ensures Quieter(db, ConfirmTransfer(db, key, id, c, now).value)
  {
    hide FinalizeInvoice, FindRule, CanTransition, AssertTransition, Move;
    var db1 := SetConfirmations(db, key, c);
    assert Quieter(db, db1);
    hide Quieter, SetConfirmations;
    if id.Some? {
      var db2 := AdvanceConfirming(db1, id.value, c).value;
      QuieterSame(db1);
      QuieterMove(db1, id.value, CONFIRMING, MONITOR);
      QuieterTwice(db, db1, db2);
      if IsConfirmed(c, db1.invoices[id.value].requiredConfirmations) {
        QuieterFinalize(db2, id.value, now);
        QuieterTwice(db, db2, FinalizeInvoice(db2, id.value, now).value);
      }
    }
  }

  lemma RecordKeepsWaits(db: Db, cfg: Config, n: Network, tx: ChainTx, t: ParsedTransfer, now: Time)
    requires NoneWaits(db) && RecordTransfer(db, cfg, n, tx, t, now).Commit?
    ensures NoneWaits(RecordTransfer(db, cfg, n, tx, t, now).value)
  {
    RecordExactly(db, cfg, n, tx, t, now);
    hide RecordTransfer, Matches;
  }

  lemma {:induction false} RecordsKeepWaits(db: Db, cfg: Config, n: Network, tx: ChainTx, ts: seq<ParsedTransfer>, now: Time)
    requires NoneWaits(db) && RecordTransfers(db, cfg, n, tx, ts, now).Commit?
    ensures NoneWaits(RecordTransfers(db, cfg, n, tx, ts, now).value)
    decreases |ts|
  {
    hide RecordTransfer, NoneWaits;
    if ts != [] {
      RecordKeepsWaits(db, cfg, n, tx, ts[0], now);
      RecordsKeepWaits(RecordTransfer(db, cfg, n, tx, ts[0], now).value, cfg, n, tx, ts[1..], now);
    }
  }

  // ---------------------------------------------------------------- losing one transfer

  ghost predicate SomeWaits(db: Db, id: InvoiceId) {
    exists k :: k in db.transfers && Waits(db.transfers[k], id)
  }

  lemma {:induction false} CountMeansSome(order: seq<TransferKey>, rows: map<TransferKey, Transfer>, id: InvoiceId)
    ensures PendingCount(order, rows, id) > 0 <==> exists k :: k in order && k in rows && Waits(rows[k], id)
  {
    if order != [] {
      var init, last := order[..|order| - 1], order[|order| - 1];
      assert order == init + [last];
      CountMeansSome(init, rows, id);
    }
  }

  /** An uncredited transfer of the invoice is among the lost ones. */
  ghost predicate LosesMoney(db: Db, lost: set<TransferKey>, id: InvoiceId) {
    exists k :: k in lost && k in db.transfers && db.transfers[k].creditedAt.None? && db.transfers[k].invoiceId == Some(id)
  }

  ghost predicate LosesCredit(db: Db, lost: set<TransferKey>, id: InvoiceId) {
    exists k :: k in lost && k in db.transfers && db.transfers[k].creditedAt.Some? && db.transfers[k].invoiceId == Some(id)
  }

  /** The lost rows that were not credited are orphaned; no other row changes. */
  ghost predicate LostRows(db: Db, db': Db, lost: set<TransferKey>) {
    && db'.transfers.Keys == db.transfers.Keys
    && forall k :: k in db.transfers ==>
         db'.transfers[k] == if k in lost && db.transfers[k].creditedAt.None? then db.transfers[k].(matchStatus := ORPHANED) else db.transfers[k]
  }

  ghost function StatusAfterLoss(db: Db, db': Db, lost: set<TransferKey>, id: InvoiceId): Status
    requires id in db.invoices
  {
    var s := db.invoices[id].status;
    if s == PAID && LosesCredit(db, lost, id) then RECONCILIATION_REQUIRED
    else if s in {DETECTED, CONFIRMING} && LosesMoney(db, lost, id) then if SomeWaits(db', id) then DETECTED else PENDING
    else s
  }

  /** The invoices after the loss: frozen, reverted by what still waits, or as they were. */
  ghost predicate LostInvoices(db: Db, db': Db, lost: set<TransferKey>) {
    && db'.invoices.Keys == db.invoices.Keys
    && forall id :: id in db.invoices ==> db'.invoices[id] == db.invoices[id].(status := StatusAfterLoss(db, db', lost, id))
  }

  lemma RevertEdges(s: Status)
    requires s in AUTOMATED
    ensures CanTransition(s, PENDING) <==> s in {DETECTED, CONFIRMING}
    ensures CanTransition(s, DETECTED) <==> s in {PENDING, CONFIRMING}
    ensures forall to :: to in {PENDING, DETECTED} && CanTransition(s, to) ==> AssertTransition(s, to, MONITOR)
  {
  }

  lemma RevertsTo(db: Db, id: InvoiceId)
    requires TablesOk(db) && InvoicesOk(db.invoices) && id in db.invoices && NoneWaits(db)
    ensures var s := db.invoices[id].status;
            var r := RevertInvoice(db, id);
            && r.Commit?
            && r.value == db.(invoices := db.invoices[id := db.invoices[id].(status :=
                                            if s in {DETECTED, CONFIRMING} then if SomeWaits(db, id) then DETECTED else PENDING else s)],
                              events := r.value.events)
  {
    var s := db.invoices[id].status;
    CountMeansSome(db.transferOrder, db.transfers, id);
    RevertEdges(s);
    assert SomeWaits(db, id) <==> PendingCount(db.transferOrder, db.transfers, id) > 0;
    hide FindRule, CanTransition, AssertTransition, EventCount, PendingCount, Waits, InvoicesOk, TablesOk;
    assert db.invoices[id := db.invoices[id]] == db.invoices;
    if s == PENDING { assert !SomeWaits(db, id) by { NoneWaitsFor(db, id); } }
  }

  lemma NoneWaitsFor(db: Db, id: InvoiceId)
    requires NoneWaits(db) && id in db.invoices && db.invoices[id].status == PENDING
    ensures !SomeWaits(db, id)
  {
  }

  lemma LosingOne(db: Db, key: TransferKey)
    requires Inv(db) && NoneWaits(db) && key in db.transfers
    ensures OrphanTransfer(db, key).Commit?
    ensures var db' := OrphanTransfer(db, key).value; LostRows(db, db', {key}) && LostInvoices(db, db', {key}) && NoneWaits(db')
  {
    hide Inv, NoneWaits, LostRows, LostInvoices, RevertInvoice, FlagOrphanedCredit;
    var t := db.transfers[key];
    if t.creditedAt.Some? {
      CreditedInvoiceIsSettled(db, key);
      FlagCases(db, key, t.invoiceId.value);
      LosingCredit(db, key, t.invoiceId.value);
    } else {
      var db1 := db.(transfers := db.transfers[key := t.(matchStatus := ORPHANED)]);
      TablesAre(db, db1);
      OrphanedAlone(db, db1, key);
      if t.invoiceId.Some? {
        TablesHold(db1, key);
        RevertsTo(db1, t.invoiceId.value);
        LosingMoney(db, db1, RevertInvoice(db1, t.invoiceId.value).value, key, t.invoiceId.value);
      }
    }
  }

  lemma TablesHold(db: Db, key: TransferKey)
    requires TablesOk(db) && key in db.transfers && db.transfers[key].invoiceId.Some?
    ensures db.transfers[key].invoiceId.value in db.invoices
  {
  }

  lemma OrphanedAlone(db: Db, db1: Db, key: TransferKey)
    requires NoneWaits(db) && key in db.transfers && db.transfers[key].creditedAt.None?
    requires db1 == db.(transfers := db.transfers[key := db.transfers[key].(matchStatus := ORPHANED)])
    ensures NoneWaits(db1) && LostRows(db, db1, {key})
    ensures db.transfers[key].invoiceId.None? ==> LostInvoices(db, db1, {key})
  {
    assert forall id: InvoiceId :: db.transfers[key].invoiceId.None? ==> !LosesMoney(db, {key}, id) && !LosesCredit(db, {key}, id);
  }

  lemma TablesAre(db: Db, db1: Db)
    requires Inv(db) && db1 == db.(transfers := db1.transfers) && db1.transfers.Keys == db.transfers.Keys
    requires forall k :: k in db.transfers ==> db1.transfers[k].(matchStatus := db.transfers[k].matchStatus) == db.transfers[k]
    ensures TablesOk(db1) && InvoicesOk(db1.invoices)
  {
    assert forall k :: k in db1.transfers <==> k in db1.transfers.Keys;
  }

  lemma LosingCredit(db: Db, key: TransferKey, id: InvoiceId)
    requires key in db.transfers && id in db.invoices && db.transfers[key].creditedAt.Some? && db.transfers[key].invoiceId == Some(id)
    requires Settled(db.invoices[id].status) && NoneWaits(db)
    ensures var db' := if db.invoices[id].status == PAID then Flagged(db, key, id) else db;
            LostRows(db, db', {key}) && LostInvoices(db, db', {key}) && NoneWaits(db')
  {
    hide EventCount;
    assert LosesCredit(db, {key}, id);
    assert forall i: InvoiceId :: !LosesMoney(db, {key}, i);
    assert forall i: InvoiceId :: LosesCredit(db, {key}, i) ==> i == id;
  }

  lemma LosingMoney(db: Db, db1: Db, db': Db, key: TransferKey, id: InvoiceId)
    requires key in db.transfers && id in db.invoices && db.transfers[key].creditedAt.None? && db.transfers[key].invoiceId == Some(id)
    requires LostRows(db, db1, {key}) && db1.invoices == db.invoices && NoneWaits(db1) && db'.transfers == db1.transfers
    requires var s := db.invoices[id].status;
             db'.invoices == db.invoices[id := db.invoices[id].(status := if s in {DETECTED, CONFIRMING} then if SomeWaits(db1, id) then DETECTED else PENDING else s)]
    ensures LostRows(db, db', {key}) && LostInvoices(db, db', {key}) && NoneWaits(db')
  {
    hide LosesMoney, LosesCredit, SomeWaits, NoneWaits;
    LosesOnly(db, key, id);
    SameWaits(db1, db', id);
    if db.invoices[id].status == PENDING { NoneWaitsFor(db1, id); }
    StatusOnly(db1, db', id);
  }

  lemma LosesOnly(db: Db, key: TransferKey, id: InvoiceId)
    requires key in db.transfers && db.transfers[key].creditedAt.None? && db.transfers[key].invoiceId == Some(id)
    ensures forall i: InvoiceId :: !LosesCredit(db, {key}, i) && (LosesMoney(db, {key}, i) <==> i == id)
  {
    assert key in {key};
  }

  lemma SameWaits(a: Db, b: Db, id: InvoiceId)
    requires b.transfers == a.transfers
    ensures SomeWaits(b, id) == SomeWaits(a, id)
  {
  }

  /** A new status keeps the rule if it is not PENDING while something waits. */
  lemma StatusOnly(db: Db, db': Db, id: InvoiceId)
    requires NoneWaits(db) && db'.transfers == db.transfers && id in db.invoices && db'.invoices.Keys == db.invoices.Keys
    requires forall i :: i in db.invoices && i != id ==> db'.invoices[i] == db.invoices[i]
    requires db'.invoices[id].status == PENDING ==> !SomeWaits(db, id)
    ensures NoneWaits(db')
  {
  }

  // ---------------------------------------------------------------- losing many

  lemma LostKept(a: Db, b: Db, lost1: set<TransferKey>, lost2: set<TransferKey>, id: InvoiceId)
    requires LostRows(a, b, lost1)
    ensures LosesMoney(b, lost2, id) <==> LosesMoney(a, lost2, id)
    ensures LosesCredit(b, lost2, id) <==> LosesCredit(a, lost2, id)
    ensures LosesMoney(a, lost1 + lost2, id) <==> LosesMoney(a, lost1, id) || LosesMoney(a, lost2, id)
    ensures LosesCredit(a, lost1 + lost2, id) <==> LosesCredit(a, lost1, id) || LosesCredit(a, lost2, id)
    ensures SomeWaits(b, id) ==> SomeWaits(a, id)
    ensures !LosesMoney(a, lost1, id) ==> (SomeWaits(b, id) <==> SomeWaits(a, id))
  {
    if SomeWaits(a, id) && !LosesMoney(a, lost1, id) {
      var k :| k in a.transfers && Waits(a.transfers[k], id);
      assert k in b.transfers;
      assert b.transfers[k] == a.transfers[k];
    }
    assert forall k :: k in b.transfers <==> k in b.transfers.Keys;
  }

  lemma LosingTwice(a: Db, b: Db, c: Db, lost1: set<TransferKey>, lost2: set<TransferKey>)
    requires LostRows(a, b, lost1) && LostInvoices(a, b, lost1) && LostRows(b, c, lost2) && LostInvoices(b, c, lost2)
    ensures LostRows(a, c, lost1 + lost2) && LostInvoices(a, c, lost1 + lost2)
  {
    hide StatusAfterLoss;
    assert LostRows(a, c, lost1 + lost2) by { hide LostInvoices; }
    hide LostRows;
    forall id | id in a.invoices ensures id in c.invoices && c.invoices[id] == a.invoices[id].(status := StatusAfterLoss(a, c, lost1 + lost2, id)) {
      assert id in b.invoices.Keys && id in c.invoices.Keys;
      StatusTwice(a, b, c, lost1, lost2, id);
    }
  }

  lemma StatusTwice(a: Db, b: Db, c: Db, lost1: set<TransferKey>, lost2: set<TransferKey>, id: InvoiceId)
    requires LostRows(a, b, lost1) && LostRows(b, c, lost2) && id in a.invoices && id in b.invoices
    requires b.invoices[id].status == StatusAfterLoss(a, b, lost1, id)
    ensures StatusAfterLoss(b, c, lost2, id) == StatusAfterLoss(a, c, lost1 + lost2, id)
  {
    hide LosesMoney, LosesCredit, SomeWaits, LostRows;
    LostKept(a, b, lost1, lost2, id);
    LostKept(b, c, lost2, lost1, id);
  }

  lemma LosingNone(db: Db)
    ensures LostRows(db, db, {}) && LostInvoices(db, db, {})
  {
  }

  lemma {:induction false} LosingTransfers(db: Db, keys: seq<TransferKey>)
    requires Inv(db) && NoneWaits(db) && forall k :: k in keys ==> k in db.transfers
    ensures OrphanTransfers(db, keys).Commit?
    ensures var db' := OrphanTransfers(db, keys).value;
            var lost := set k | k in keys;
            Inv(db') && NoneWaits(db') && LostRows(db, db', lost) && LostInvoices(db, db', lost)
    decreases |keys|
  {
    hide Inv, Extends, NoneWaits, LostInvoices, OrphanTransfer;
    if keys == [] {
      LosingNone(db);
      assert (set k | k in keys) == {};
    } else {
      assert keys[0] in keys;
      LosingOne(db, keys[0]);
      OrphanTransferKeepsInv(db, keys[0]);
      var db1 := OrphanTransfer(db, keys[0]).value;
      assert forall k :: k in keys[1..] ==> k in db.transfers.Keys && k in db1.transfers.Keys;
      hide LostRows;
      LosingTransfers(db1, keys[1..]);
      LosingTwice(db, db1, OrphanTransfers(db, keys).value, {keys[0]}, set k | k in keys[1..]);
      FirstAndRest(keys);
    }
  }

  lemma FirstAndRest(keys: seq<TransferKey>)
    requires keys != []
    ensures (set k | k in keys) == {keys[0]} + set k | k in keys[1..]
  {
    assert keys == [keys[0]] + keys[1..];
  }

  /** The transfers of a transaction. */
  ghost function Carried(db: Db, txs: set<TxKey>): set<TransferKey> {
    set k | k in db.transfers && TxKey(k.network, k.txHash) in txs
  }

  lemma LosingTx(db: Db, tx: TxKey)
    requires Inv(db) && NoneWaits(db) && tx in db.txs
    ensures OrphanTx(db, tx).Commit?
    ensures var db' := OrphanTx(db, tx).value;
            && Inv(db') && NoneWaits(db') && LostRows(db, db', Carried(db, {tx})) && LostInvoices(db, db', Carried(db, {tx}))
            && db'.txs.Keys == db.txs.Keys
  {
    hide Extends, NoneWaits, LostRows, LostInvoices, OrphanTransfers;
    OrphanTxEffect(db, tx);
    OrphanedTxTable(db, tx);
    var db1 := db.(txs := db.txs[tx := db.txs[tx].(status := ORPHANED_TX)]);
    TxRowKeepsInv(db, db1);
    var keys := TransfersOf(db.transferOrder, tx);
    OnlyTxs(db, db1, keys, tx);
    hide Inv;
    LosingTransfers(db1, keys);
    SameLoss(db, db1, OrphanTx(db, tx).value, Carried(db, {tx}));
  }

  lemma OnlyTxs(db: Db, db1: Db, keys: seq<TransferKey>, tx: TxKey)
    requires Inv(db) && db1 == db.(txs := db1.txs) && keys == TransfersOf(db.transferOrder, tx)
    ensures NoneWaits(db1) <==> NoneWaits(db)
    ensures (set k | k in keys) == Carried(db, {tx}) && forall k :: k in keys ==> k in db1.transfers
  {
  }

  lemma SameLoss(db: Db, db1: Db, db': Db, lost: set<TransferKey>)
    requires db1.transfers == db.transfers && db1.invoices == db.invoices && LostRows(db1, db', lost) && LostInvoices(db1, db', lost)
    ensures LostRows(db, db', lost) && LostInvoices(db, db', lost)
  {
    hide LosesMoney, LosesCredit, SomeWaits;
    forall id: InvoiceId ensures (LosesMoney(db1, lost, id) <==> LosesMoney(db, lost, id)) && (LosesCredit(db1, lost, id) <==> LosesCredit(db, lost, id)) {
      SameHits(db, db1, lost, id);
    }
  }

  lemma SameHits(db: Db, db1: Db, lost: set<TransferKey>, id: InvoiceId)
    requires db1.transfers == db.transfers
    ensures (LosesMoney(db1, lost, id) <==> LosesMoney(db, lost, id)) && (LosesCredit(db1, lost, id) <==> LosesCredit(db, lost, id))
  {
  }

  lemma {:induction false} LosingTxs(db: Db, txs: seq<TxKey>)
    requires Inv(db) && NoneWaits(db) && forall x :: x in txs ==> x in db.txs
    ensures var r := OrphanAll(db, txs);
            var lost := Carried(db, set x | x in txs);
            r.completed && NoneWaits(r.db) && LostRows(db, r.db, lost) && LostInvoices(db, r.db, lost)
    decreases |txs|
  {
    hide Inv, NoneWaits, LostInvoices, OrphanTx;
    if txs == [] {
      LosingNone(db);
      assert Carried(db, set x | x in txs) == {};
    } else {
      assert txs[0] in txs;
      LosingTx(db, txs[0]);
      var db1 := OrphanTx(db, txs[0]).value;
      assert forall x :: x in txs[1..] ==> x in db.txs.Keys && x in db1.txs.Keys;
      LosingTxs(db1, txs[1..]);
      var rest := set x | x in txs[1..];
      CarriedJoins(db, db1, txs, rest);
      hide LostRows, Carried;
      LosingTwice(db, db1, OrphanAll(db, txs).db, Carried(db, {txs[0]}), Carried(db1, rest));
    }
  }

  lemma CarriedJoins(db: Db, db1: Db, txs: seq<TxKey>, rest: set<TxKey>)
    requires db1.transfers.Keys == db.transfers.Keys && txs != [] && rest == set x | x in txs[1..]
    ensures Carried(db, set x | x in txs) == Carried(db, {txs[0]}) + Carried(db1, rest)
  {
    assert txs == [txs[0]] + txs[1..];
    assert forall k :: k in db1.transfers <==> k in db1.transfers.Keys;
  }

  // ---------------------------------------------------------------- over every run

  lemma StepKeepsWaits(db: Db, s: Step)
    requires Inv(db) && NoneWaits(db)
    ensures NoneWaits(Next(db, s))
  {
    hide ProcessTransaction, ConfirmTransfer, OrphanTx, CreateInvoice, ExpireOne, CancelInvoice, NoneWaits, Inv, Quieter;
    if Attempt(db, s).Commit? {
      match s
      case Process(cfg, n, tx, ts, now) => ProcessWaits(db, cfg, n, tx, ts, now);
      case Confirm(key, id, c, now) =>
        QuieterConfirm(db, key, id, c, now);
        QuieterKeeps(db, Next(db, s));
      case Orphan(tx) =>
        OrphansRow(db, tx);
        LosingTx(db, tx);
      case Create(id, terms) => CreateWaits(db, id, terms);
      case _ =>
        QuieterOther(db, s);
        QuieterKeeps(db, Next(db, s));
    }
  }

  lemma ProcessWaits(db: Db, cfg: Config, n: Network, tx: ChainTx, ts: seq<ParsedTransfer>, now: Time)
    requires NoneWaits(db) && ProcessTransaction(db, cfg, n, tx, ts, now).Commit?
    ensures NoneWaits(ProcessTransaction(db, cfg, n, tx, ts, now).value)
  {
    hide RecordTransfers;
    if ts != [] {
      var seen := RecordChainTransaction(db, n, tx);
      assert NoneWaits(seen);
      hide NoneWaits;
      RecordsKeepWaits(seen, cfg, n, tx, ts, now);
    }
  }

  lemma OrphansRow(db: Db, tx: TxKey)
    requires OrphanTx(db, tx).Commit?
    ensures tx in db.txs
  {
    hide OrphanTransfers;
  }

  lemma QuieterOther(db: Db, s: Step)
    requires s.AddMerchant? || s.AddAddress? || s.Expire? || s.Cancel?
    ensures Quieter(db, Next(db, s))
  {
    hide FindRule, Waits, EventCount, AssertTransition, IsActorAllowed, Expired;
    if s.Expire? && s.id in db.invoices { QuieterMove(db, s.id, EXPIRED, SYSTEM); }
    if s.Cancel? && s.id in db.invoices { QuieterMove(db, s.id, CANCELLED, MERCHANT); }
  }

  lemma CreateWaits(db: Db, id: InvoiceId, terms: Invoice)
    requires Inv(db) && NoneWaits(db) && CreateInvoice(db, id, terms).Commit?
    ensures NoneWaits(CreateInvoice(db, id, terms).value)
  {
  }

  /** In every reached state a PENDING invoice has no transfer awaiting confirmations. */
  lemma {:induction false} PendingMeansNoneWaits(steps: seq<Step>)
    ensures NoneWaits(Reached(steps))
  {
    hide Next, Inv;
    if steps != [] {
      PendingMeansNoneWaits(steps[..|steps| - 1]);
      ReachedInv(steps[..|steps| - 1]);
      StepKeepsWaits(Reached(steps[..|steps| - 1]), steps[|steps| - 1]);
    }
  }

  /** The transfers mined on the network at or above the block. */
  ghost function MinedFrom(db: Db, n: Network, fromBlock: nat): set<TransferKey> {
    set k | k in db.transfers && k.network == n && TxKey(n, k.txHash) in db.txs
            && db.txs[TxKey(n, k.txHash)].status in {MINED, CONFIRMED}
            && db.txs[TxKey(n, k.txHash)].blockNumber.Some? && db.txs[TxKey(n, k.txHash)].blockNumber.value >= fromBlock
  }

  /**
   * In every reached state a reorg does exactly this to transfers and invoices: the uncredited
   * transfers mined from the block on are orphaned; a PAID invoice that lost a credit is frozen; a
   * DETECTED or CONFIRMING one that lost a transfer is DETECTED if another still waits, else PENDING.
   */
  lemma ReorgReverts(steps: seq<Step>, n: Network, fromBlock: nat)
    ensures var db := Reached(steps);
            var r := HandleReorg(db, n, fromBlock);
            var lost := MinedFrom(db, n, fromBlock);
            r.completed && LostRows(db, r.db, lost) && LostInvoices(db, r.db, lost) && NoneWaits(r.db)
  {
    hide Inv, Reached, LostRows, LostInvoices, NoneWaits, OrphanAll;
    ReachedInv(steps);
    PendingMeansNoneWaits(steps);
    var db := Reached(steps);
    var keys := ReorgKeys(db.txOrder, db.txs, n, fromBlock);
    LosingTxs(db, keys);
    TxsAreListed(db);
    assert Carried(db, set x | x in keys) == MinedFrom(db, n, fromBlock);
  }

  lemma TxsAreListed(db: Db)
    requires Inv(db)
    ensures forall x :: x in db.txOrder <==> x in db.txs
  {
  }
}
