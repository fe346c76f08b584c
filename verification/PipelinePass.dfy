/**
 * The whole confirmation pass (monitor.service.ts:227-248): exactly when it completes, and exactly
 * when repeating it with unchanged chain state changes nothing, as its comment (222-226) promises.
 */
module PipelinePass {
  import opened Basics
  import opened StateMachine
  import opened Ledger
  import opened Payments
  import opened Rounding
  import opened Pipeline
  import opened PipelineInvariant
  import opened PipelineSteps
  import opened PipelineTheorems
  import opened PipelineConfirm

  function Answers(report: TransferKey -> nat, pending: seq<Pending>): (answers: seq<nat>)
    ensures |answers| == |pending| && forall i :: 0 <= i < |pending| ==> answers[i] == report(pending[i].key)
  {
    seq<nat>(|pending|, i requires 0 <= i < |pending| => report(pending[i].key))
  }

  /** One `updateConfirmations`, with what the chain reports for each transfer. */
  function Pass(db: Db, n: Network, report: TransferKey -> nat, now: Time): Loop {
    var pending := PendingRows(db.transferOrder, db.transfers, n);
    ConfirmAll(db, pending, Answers(report, pending), now)
  }

  // ---------------------------------------------------------------- conditions a caller can check

  /** The status once a report of c confirmations has been noted. */
  function StatusAt(status: Status, c: nat): Status {
    if c >= 1 && (status == DETECTED || status == UNDERPAID) then CONFIRMING else status
  }

  /** What a positive total means for the invoice. */
  function Verdict(inv: Invoice, total: int): Status {
    if total < MinimumAccepted(inv.cryptoAmount, inv.underBps) then UNDERPAID
    else if total > MaximumAccepted(inv.cryptoAmount, inv.overBps) then OVERPAID
    else PAID
  }

  /** The invoice's confirmed total with this row at c confirmations. */
  function TotalAt(db: Db, key: TransferKey, id: InvoiceId, c: nat): int
    requires key in db.transfers && id in db.invoices
  {
    ConfirmedTotal(SetConfirmations(db, key, c), id)
  }

  /** The ledger would refuse the credit of one of the invoice's confirmed transfers. */
  predicate Refused(db: Db, id: InvoiceId, feeBps: int, keys: seq<TransferKey>)
    requires id in db.invoices && forall k :: k in keys ==> k in db.transfers
  {
    keys != [] &&
    (feeBps < 0 || feeBps > 10000 ||
     exists k :: k in keys && !Posted(db.book.txs, k) &&
       (feeBps == 10000 || !PrecisionsAgree(db.book, CreditFor(db.invoices[id], id, feeBps, k, db.transfers[k].amount))))
  }

  predicate RefusedAt(db: Db, key: TransferKey, id: InvoiceId, c: nat, feeBps: int)
    requires key in db.transfers && id in db.invoices
  {
    var db1 := SetConfirmations(db, key, c);
    Refused(db1, id, feeBps, EligibleKeys(db1.transferOrder, db1.transfers, id, db1.invoices[id].requiredConfirmations))
  }

  /** The statuses, once advanced, from which the table has an edge to PAID, so that `finalizeInvoice` goes on. */
  predicate Open(status: Status) {
    status == CONFIRMING || status == OVERPAID || status == LATE_PAYMENT_REVIEW || status == RECONCILIATION_REQUIRED
  }

  /** A row of the snapshot: it still counts for the invoice it was read with. */
  ghost predicate Current(db: Db, p: Pending) {
    && p.key in db.transfers && db.transfers[p.key].invoiceId == p.invoiceId
    && (db.transfers[p.key].matchStatus == PENDING_CONFIRMATION || db.transfers[p.key].matchStatus == CREDITED)
  }

  /** The monitor may move an invoice in status s to the judged status v. */
  predicate Settles(s: Status, v: Status) {
    s == CONFIRMING || (s == OVERPAID && v == PAID)
  }

  /** Only a human may take the edge from s to the judged status v. */
  predicate HumanOnly(s: Status, v: Status) {
    s == RECONCILIATION_REQUIRED || (s == LATE_PAYMENT_REVIEW && v == PAID)
  }

  /**
   * The row's transaction throws: the transfer has its confirmations, and the merchant is unknown,
   * the due edge is a human's, or the ledger refuses a credit that is due.
   */
  ghost predicate Throws(db: Db, p: Pending, c: nat)
    requires Current(db, p)
  {
    p.invoiceId.Some? && p.invoiceId.value in db.invoices &&
    var id := p.invoiceId.value;
    var inv := db.invoices[id];
    var s := StatusAt(inv.status, c);
    var v := Verdict(inv, TotalAt(db, p.key, id, c));
    c >= inv.requiredConfirmations && Open(s) &&
    (|| inv.merchantId !in db.merchants
     || HumanOnly(s, v)
     || (Settles(s, v) && AutoAccept(db.merchants[inv.merchantId], v) &&
         RefusedAt(db, p.key, id, c, db.merchants[inv.merchantId].feeBps)))
  }

  /** The row's transaction has nothing to write: the report is stored and no move is due. */
  ghost predicate Rests(db: Db, p: Pending, c: nat)
    requires Current(db, p)
  {
    && db.transfers[p.key].confirmations == c
    && (p.invoiceId.Some? && p.invoiceId.value in db.invoices ==>
          var inv := db.invoices[p.invoiceId.value];
          && StatusAt(inv.status, c) == inv.status
          && (c >= inv.requiredConfirmations ==> !Settles(inv.status, Verdict(inv, TotalAt(db, p.key, p.invoiceId.value, c)))))
  }

  // ---------------------------------------------------------------- when a credit is refused

  lemma PrecisionStays(b: Book, p: CreditParams, q: CreditParams)
    requires PostCredit(b, p).Commit?
    requires q.merchantId == p.merchantId && q.network == p.network && q.asset == p.asset && q.decimals == p.decimals
    ensures PrecisionsAgree(PostCredit(b, p).value.book, q) <==> PrecisionsAgree(b, q)
  {
    hide Fee, Legs, Posted;
    var b' := PostCredit(b, p).value.book;
    assert forall c :: c in b.accounts ==> c in b'.accounts && b'.accounts[c] == b.accounts[c];
    assert forall c :: c in b'.accounts && c !in b.accounts ==> b'.accounts[c].decimals == p.decimals;
  }

  lemma PostedStays(b: Book, p: CreditParams, k: TransferKey)
    requires PostCredit(b, p).Commit?
    ensures Posted(PostCredit(b, p).value.book.txs, k) <==> Posted(b.txs, k) || k == p.key
  {
    hide Legs, LegsAccepted, WithAccounts, BpsFloor;
    var b' := PostCredit(b, p).value.book;
    if !Posted(b.txs, p.key) {
      assert b'.txs == b.txs + [LedgerTx(p.key, p.invoiceId)];
      assert b'.txs[|b.txs|].key == p.key;
      if Posted(b.txs, k) {
        var i :| 0 <= i < |b.txs| && b.txs[i].key == k;
        assert b'.txs[i].key == k;
      }
    }
  }

  /** The credit loop throws exactly when one posting, judged on the book before the loop, is refused. */
  lemma {:induction false} CreditAllAborts(db: Db, id: InvoiceId, feeBps: int, keys: seq<TransferKey>, now: Time)
    requires id in db.invoices && (forall k :: k in keys ==> k in db.transfers)
    requires forall k :: k in db.transfers ==> db.transfers[k].amount > 0
    ensures CreditAll(db, id, feeBps, keys, now).Abort? <==> Refused(db, id, feeBps, keys)
    decreases |keys|
  {
    hide PostCredit, PrecisionsAgree, Posted;
    if keys != [] {
      var k := keys[0];
      assert k in keys;
      assert forall j :: j in keys <==> j == k || j in keys[1..];
      var p := CreditFor(db.invoices[id], id, feeBps, k, db.transfers[k].amount);
      PostCreditAborts(db.book, p);
      if PostCredit(db.book, p).Commit? {
        var db' := CreditOne(db, id, feeBps, k, now).value;
        CreditStepBook(db, id, feeBps, k, now);
        CreditAllAborts(db', id, feeBps, keys[1..], now);
        forall j | j in keys[1..]
          ensures !Posted(db'.book.txs, j) <==> !Posted(db.book.txs, j) && j != k
          ensures db'.transfers[j].amount == db.transfers[j].amount
          ensures PrecisionsAgree(db'.book, CreditFor(db'.invoices[id], id, feeBps, j, db.transfers[j].amount)) <==>
                  PrecisionsAgree(db.book, CreditFor(db.invoices[id], id, feeBps, j, db.transfers[j].amount))
        {
          PostedStays(db.book, p, j);
          PrecisionStays(db.book, p, CreditFor(db.invoices[id], id, feeBps, j, db.transfers[j].amount));
        }
      }
    }
  }

  lemma CreditStepBook(db: Db, id: InvoiceId, feeBps: int, k: TransferKey, now: Time)
    requires id in db.invoices && k in db.transfers
    requires CreditOne(db, id, feeBps, k, now).Commit?
    ensures var p := CreditFor(db.invoices[id], id, feeBps, k, db.transfers[k].amount);
            var db' := CreditOne(db, id, feeBps, k, now).value;
            && PostCredit(db.book, p).Commit? && db'.book == PostCredit(db.book, p).value.book && db'.invoices == db.invoices
            && (forall j :: j in db.transfers <==> j in db'.transfers)
            && (forall j :: j in db.transfers ==> db'.transfers[j].amount == db.transfers[j].amount)
  {
    hide Legs, LegsAccepted, WithAccounts, BpsFloor;
  }

  // ---------------------------------------------------------------- one row, exactly

  lemma VerdictIsTarget(inv: Invoice, total: int)
    requires inv.cryptoAmount > 0 && ValidBps(inv.underBps) && ValidBps(inv.overBps) && total > 0
    ensures TargetFor(inv, total) == Commit(Some(Verdict(inv, total)))
  {
    hide BpsFloor;
  }

  /** What the table says about the judged statuses, for invoices automated steps can leave behind. */
  lemma EdgesOut(s: Status, v: Status)
    requires s in AUTOMATED && s != UNDERPAID && v in {PAID, UNDERPAID, OVERPAID}
    ensures Open(s) <==> CanTransition(s, PAID) || CanTransition(s, UNDERPAID) || CanTransition(s, OVERPAID)
    ensures Settles(s, v) <==> CanTransition(s, v) && AssertTransition(s, v, MONITOR)
    ensures HumanOnly(s, v) <==> CanTransition(s, v) && !AssertTransition(s, v, MONITOR)
    ensures v != PAID ==> AssertTransition(v, PAID, MONITOR)
  {
  }

  lemma SettleOutcome(db: Db, id: InvoiceId, m: Merchant, v: Status, keys: seq<TransferKey>, total: int, now: Time)
    requires id in db.invoices && (forall k :: k in keys ==> k in db.transfers)
    requires (forall k :: k in db.transfers ==> db.transfers[k].amount > 0) && (v != PAID ==> AssertTransition(v, PAID, MONITOR))
    ensures Settle(db, id, m, v, keys, total, now).Abort? <==> AutoAccept(m, v) && Refused(db, id, m.feeBps, keys)
    ensures Settle(db, id, m, v, keys, total, now).Commit? ==> |Settle(db, id, m, v, keys, total, now).value.events| > |db.events|
  {
    hide FindRule, CreditAll, PrecisionsAgree, Posted, EventCount, AssertTransition, Refused;
    var db1 := Evaluated(db, id, v, total);
    var db2 := if v == PAID then db1 else Move(db1, id, PAID, MONITOR);
    assert db2.transfers == db.transfers && |db2.events| > |db.events|;
    if AutoAccept(m, v) {
      CreditAllAborts(db2, id, m.feeBps, keys, now);
      SameRefusalAt(db, db2, id, m.feeBps, keys);
      if CreditAll(db2, id, m.feeBps, keys, now).Commit? { CreditAllEvents(db2, id, m.feeBps, keys, now); }
    }
  }

  lemma SameRefusalAt(db: Db, db2: Db, id: InvoiceId, feeBps: int, keys: seq<TransferKey>)
    requires id in db.invoices && id in db2.invoices && db2.transfers == db.transfers && db2.book == db.book
    requires db2.invoices[id].merchantId == db.invoices[id].merchantId && db2.invoices[id].network == db.invoices[id].network
    requires db2.invoices[id].asset == db.invoices[id].asset && db2.invoices[id].decimals == db.invoices[id].decimals
    requires forall k :: k in keys ==> k in db.transfers
    ensures Refused(db2, id, feeBps, keys) <==> Refused(db, id, feeBps, keys)
  {
    hide PrecisionsAgree, Posted;
  }

  lemma {:induction false} CreditAllEvents(db: Db, id: InvoiceId, feeBps: int, keys: seq<TransferKey>, now: Time)
    requires id in db.invoices && (forall k :: k in keys ==> k in db.transfers) && CreditAll(db, id, feeBps, keys, now).Commit?
    ensures CreditAll(db, id, feeBps, keys, now).value.events == db.events
    decreases |keys|
  {
    hide PostCredit;
    if keys != [] { CreditAllEvents(CreditOne(db, id, feeBps, keys[0], now).value, id, feeBps, keys[1..], now); }
  }

  /** `finalizeInvoice` throws on an invoice that is not UNDERPAID and has something confirmed. */
  predicate FinalThrows(db: Db, id: InvoiceId)
    requires id in db.invoices
  {
    var inv := db.invoices[id];
    var v := Verdict(inv, ConfirmedTotal(db, id));
    var keys := EligibleKeys(db.transferOrder, db.transfers, id, inv.requiredConfirmations);
    Open(inv.status) &&
    (|| inv.merchantId !in db.merchants
     || HumanOnly(inv.status, v)
     || (Settles(inv.status, v) && AutoAccept(db.merchants[inv.merchantId], v) && Refused(db, id, db.merchants[inv.merchantId].feeBps, keys)))
  }

  /** Finalisation, once advanced and with something confirmed: throws, stands still, or records an event. */
  lemma FinalizeOutcome(db: Db, id: InvoiceId, now: Time)
    requires TablesOk(db) && InvoicesOk(db.invoices) && id in db.invoices && db.invoices[id].status != UNDERPAID
    requires ConfirmedTotal(db, id) > 0
    ensures FinalizeInvoice(db, id, now).Abort? <==> FinalThrows(db, id)
    ensures var r := FinalizeInvoice(db, id, now);
            r.Commit? ==>
              if Settles(db.invoices[id].status, Verdict(db.invoices[id], ConfirmedTotal(db, id))) then |r.value.events| > |db.events|
              else r.value == db
  {
    hide Settle, TargetFor, EligibleKeys, Refused, FindRule, Verdict, SumAmounts, AssertTransition, CanTransition, TablesOk, InvoicesOk, Settles, HumanOnly, Open;
    var inv := db.invoices[id];
    var total := ConfirmedTotal(db, id);
    var v := Verdict(inv, total);
    RowFacts(db, id, total);
    VerdictIsTarget(inv, total);
    EdgesOut(inv.status, v);
    if inv.merchantId in db.merchants {
      var keys := EligibleKeys(db.transferOrder, db.transfers, id, inv.requiredConfirmations);
      SettleOutcome(db, id, db.merchants[inv.merchantId], v, keys, total, now);
    }
  }

  lemma RowFacts(db: Db, id: InvoiceId, total: int)
    requires TablesOk(db) && InvoicesOk(db.invoices) && id in db.invoices
    ensures forall k :: k in db.transfers ==> db.transfers[k].amount > 0
    ensures var inv := db.invoices[id];
            && inv.status in AUTOMATED && inv.cryptoAmount > 0 && ValidBps(inv.underBps) && ValidBps(inv.overBps)
            && Verdict(inv, total) in {PAID, UNDERPAID, OVERPAID}
  {
  }

  // ---------------------------------------------------------------- what one row's transaction leaves alone

  /** Rows differ at most by having been credited. */
  ghost predicate RowsKept(a: map<TransferKey, Transfer>, b: map<TransferKey, Transfer>) {
    && (forall k :: k in a <==> k in b)
    && (forall k :: k in a ==> b[k].confirmations == a[k].confirmations && b[k].invoiceId == a[k].invoiceId)
    && (forall k :: k in a ==> b[k].matchStatus == a[k].matchStatus || b[k].matchStatus == CREDITED)
  }

  lemma {:induction false} CreditAllKeepsRows(db: Db, id: InvoiceId, feeBps: int, keys: seq<TransferKey>, now: Time)
    requires id in db.invoices && (forall k :: k in keys ==> k in db.transfers) && CreditAll(db, id, feeBps, keys, now).Commit?
    ensures RowsKept(db.transfers, CreditAll(db, id, feeBps, keys, now).value.transfers)
    decreases |keys|
  {
    hide CreditOne, RowsKept;
    if keys == [] {
      RowsKeptSame(db.transfers);
    } else {
      assert keys[0] in keys;
      CreditOneKeepsRows(db, id, feeBps, keys[0], now);
      var db1 := CreditOne(db, id, feeBps, keys[0], now).value;
      CreditAllKeepsRows(db1, id, feeBps, keys[1..], now);
      RowsKeptTwice(db.transfers, db1.transfers, CreditAll(db, id, feeBps, keys, now).value.transfers);
    }
  }

  lemma CreditOneKeepsRows(db: Db, id: InvoiceId, feeBps: int, k: TransferKey, now: Time)
    requires id in db.invoices && k in db.transfers && CreditOne(db, id, feeBps, k, now).Commit?
    ensures RowsKept(db.transfers, CreditOne(db, id, feeBps, k, now).value.transfers)
  {
    hide PostCredit;
  }

  lemma RowsKeptTwice(a: map<TransferKey, Transfer>, b: map<TransferKey, Transfer>, c: map<TransferKey, Transfer>)
    requires RowsKept(a, b) && RowsKept(b, c)
    ensures RowsKept(a, c)
  {
  }

  lemma FinalizeKeepsRows(db: Db, id: InvoiceId, now: Time)
    requires id in db.invoices && FinalizeInvoice(db, id, now).Commit?
    ensures RowsKept(db.transfers, FinalizeInvoice(db, id, now).value.transfers)
  {
    hide FindRule, TargetFor, Moves;
    var target := FinalizeCases(db, id, now);
    if target.Some? {
      hide FinalizeInvoice, CreditAll, ConfirmedTotal;
      var inv := db.invoices[id];
      var m := db.merchants[inv.merchantId];
      var keys := EligibleKeys(db.transferOrder, db.transfers, id, inv.requiredConfirmations);
      var db1 := Evaluated(db, id, target.value, ConfirmedTotal(db, id));
      if AutoAccept(m, target.value) {
        CreditAllKeepsRows(if target.value == PAID then db1 else Move(db1, id, PAID, MONITOR), id, m.feeBps, keys, now);
      }
    }
  }

  /** Noting the report: the count is written and the status advanced, with one event if it changes. */
  lemma AdvancedShape(db: Db, key: TransferKey, id: InvoiceId, c: nat)
    requires key in db.transfers && id in db.invoices && db.invoices[id].status in AUTOMATED
    ensures Advanced(db, key, id, c).Commit?
    ensures var db1 := SetConfirmations(db, key, c);
            var db2 := Advanced(db, key, id, c).value;
            var s := StatusAt(db.invoices[id].status, c);
            && db2.transfers == db1.transfers && db2.transferOrder == db.transferOrder && db2.book == db.book && db2.merchants == db.merchants
            && id in db2.invoices && db2.invoices[id] == db.invoices[id].(status := s)
            && (forall i :: i in db2.invoices <==> i in db.invoices)
            && (if s == db.invoices[id].status then db2 == db1 else |db2.events| == |db.events| + 1)
  {
  }

  lemma {:induction false} PositiveTotal(keys: seq<TransferKey>, transfers: map<TransferKey, Transfer>, k: TransferKey)
    requires (forall j :: j in keys ==> j in transfers) && (forall j :: j in transfers ==> transfers[j].amount > 0) && k in keys
    ensures SumAmounts(keys, transfers) > 0
  {
    var init := keys[..|keys| - 1];
    assert keys == init + [keys[|keys| - 1]];
    assert transfers[keys[|keys| - 1]].amount > 0;
    if k in init { PositiveTotal(init, transfers, k); } else { SumNotNegative(init, transfers); }
  }

  lemma {:induction false} SumNotNegative(keys: seq<TransferKey>, transfers: map<TransferKey, Transfer>)
    requires (forall j :: j in keys ==> j in transfers) && (forall j :: j in transfers ==> transfers[j].amount > 0)
    ensures SumAmounts(keys, transfers) >= 0
  {
    if keys != [] { SumNotNegative(keys[..|keys| - 1], transfers); }
  }

  /** A confirmed current row makes its invoice's total positive. */
  lemma TotalPositive(db: Db, p: Pending, c: nat)
    requires TablesOk(db) && Current(db, p) && p.invoiceId.Some? && p.invoiceId.value in db.invoices
    requires c >= db.invoices[p.invoiceId.value].requiredConfirmations
    ensures TotalAt(db, p.key, p.invoiceId.value, c) > 0
  {
    var id := p.invoiceId.value;
    var db1 := SetConfirmations(db, p.key, c);
    var required := db1.invoices[id].requiredConfirmations;
    assert p.key in db1.transferOrder;
    EligibleComplete(db1.transferOrder, db1.transfers, id, required, p.key);
    PositiveTotal(EligibleKeys(db1.transferOrder, db1.transfers, id, required), db1.transfers, p.key);
  }

  /** After a row's transaction: its own count is the reported one, other rows are at most credited. */
  ghost predicate Processed(db: Db, db': Db, p: Pending, c: nat) {
    && p.key in db.transfers
    && RowsKept(db.transfers[p.key := db.transfers[p.key].(confirmations := c)], db'.transfers)
    && |db'.events| >= |db.events|
  }

  /** The transaction wrote something: an event, or a new count for its own row. */
  ghost predicate Wrote(db: Db, db': Db, p: Pending) {
    |db'.events| > |db.events| ||
    (p.key in db.transfers && p.key in db'.transfers && db'.transfers[p.key].confirmations != db.transfers[p.key].confirmations)
  }

  lemma SameCount(db: Db, key: TransferKey, c: nat)
    requires key in db.transfers
    ensures SetConfirmations(db, key, c) == db <==> db.transfers[key].confirmations == c
    ensures SetConfirmations(db, key, c).transfers == db.transfers[key := db.transfers[key].(confirmations := c)]
  {
    if db.transfers[key].confirmations == c {
      assert db.transfers[key := db.transfers[key].(confirmations := c)] == db.transfers;
    }
  }

  lemma RowsKeptSame(m: map<TransferKey, Transfer>)
    ensures RowsKept(m, m)
  {
  }

  /** The transaction of one row, exactly: it throws, has nothing to write, or writes. */
  lemma RowOutcome(db: Db, p: Pending, c: nat, now: Time)
    requires Inv(db) && Current(db, p)
    ensures var r := ConfirmTransfer(db, p.key, p.invoiceId, c, now);
            && (r.Abort? <==> Throws(db, p, c))
            && (r.Commit? ==> Processed(db, r.value, p, c))
            && (r.Commit? ==> if Rests(db, p, c) then r.value == db else Wrote(db, r.value, p))
  {
    hide RowsKept;
    SameCount(db, p.key, c);
    RowsKeptSame(SetConfirmations(db, p.key, c).transfers);
    if p.invoiceId.Some? {
      InvoiceRow(db, p);
      InvoiceRowOutcome(db, p, c, now);
    }
  }

  lemma InvoiceRow(db: Db, p: Pending)
    requires Inv(db) && Current(db, p) && p.invoiceId.Some?
    ensures p.invoiceId.value in db.invoices && db.invoices[p.invoiceId.value].status in AUTOMATED
    ensures db.invoices[p.invoiceId.value].requiredConfirmations >= 1
    ensures TablesOk(db) && InvoicesOk(db.invoices)
  {
  }

  lemma InvoiceRowOutcome(db: Db, p: Pending, c: nat, now: Time)
    requires Inv(db) && Current(db, p) && p.invoiceId.Some?
    ensures var r := ConfirmTransfer(db, p.key, p.invoiceId, c, now);
            && (r.Abort? <==> Throws(db, p, c))
            && (r.Commit? ==> Processed(db, r.value, p, c))
            && (r.Commit? ==> if Rests(db, p, c) then r.value == db else Wrote(db, r.value, p))
  {
    InvoiceRow(db, p);
    hide Inv, TablesOk, InvoicesOk, FinalizeInvoice, ConfirmTransfer, RowsKept, Advanced, Verdict, Refused, Open, HumanOnly, EligibleKeys, SumAmounts;
    var id := p.invoiceId.value;
    ConfirmUnfolds(db, p.key, id, c, now);
    AdvancedShape(db, p.key, id, c);
    SameCount(db, p.key, c);
    RowsKeptSame(SetConfirmations(db, p.key, c).transfers);
    var db2 := Advanced(db, p.key, id, c).value;
    if c >= db.invoices[id].requiredConfirmations {
      ConfirmedRowOutcome(db, db2, p, c, now);
    }
  }

  lemma ConfirmedRowOutcome(db: Db, db2: Db, p: Pending, c: nat, now: Time)
    requires Inv(db) && Current(db, p) && p.invoiceId.Some? && p.invoiceId.value in db.invoices
    requires c >= db.invoices[p.invoiceId.value].requiredConfirmations
    requires Advanced(db, p.key, p.invoiceId.value, c) == Commit(db2)
    ensures p.invoiceId.value in db2.invoices
    ensures var id := p.invoiceId.value;
            var r := FinalizeInvoice(db2, id, now);
            && (r.Abort? <==> Throws(db, p, c))
            && (r.Commit? ==> RowsKept(db2.transfers, r.value.transfers))
            && (r.Commit? ==> if Settles(StatusAt(db.invoices[id].status, c), Verdict(db.invoices[id], TotalAt(db, p.key, id, c)))
                              then |r.value.events| > |db2.events| else r.value == db2)
  {
    InvoiceRow(db, p);
    TotalPositive(db, p, c);
    var id := p.invoiceId.value;
    AdvancedShape(db, p.key, id, c);
    AdvancedTables(db, db2, p.key, id, c);
    AdvancedKeepsInvoicesOk(db, p.key, id, c);
    hide Inv, TablesOk, InvoicesOk, FinalizeInvoice, RowsKept, Advanced, EligibleKeys, SumAmounts, FinalThrows, Throws, Settles, Verdict, MinimumAccepted;
    SameJudgement(db, db2, p, c);
    FinalizeOutcome(db2, id, now);
    if FinalizeInvoice(db2, id, now).Commit? { FinalizeKeepsRows(db2, id, now); }
  }

  /** The conditions read off before the transaction are those finalisation meets. */
  lemma SameJudgement(db: Db, db2: Db, p: Pending, c: nat)
    requires Current(db, p) && p.invoiceId.Some? && p.invoiceId.value in db.invoices && p.invoiceId.value in db2.invoices
    requires c >= db.invoices[p.invoiceId.value].requiredConfirmations
    requires db2.transfers == SetConfirmations(db, p.key, c).transfers && db2.transferOrder == db.transferOrder
    requires db2.book == db.book && db2.merchants == db.merchants
    requires db2.invoices[p.invoiceId.value] ==
             db.invoices[p.invoiceId.value].(status := StatusAt(db.invoices[p.invoiceId.value].status, c))
    ensures var id := p.invoiceId.value;
            && ConfirmedTotal(db2, id) == TotalAt(db, p.key, id, c)
            && Verdict(db2.invoices[id], ConfirmedTotal(db2, id)) == Verdict(db.invoices[id], TotalAt(db, p.key, id, c))
            && (FinalThrows(db2, id) <==> Throws(db, p, c))
  {
    hide EligibleKeys, SumAmounts, PrecisionsAgree, Posted, Open, HumanOnly, Settles, StatusAt, MinimumAccepted, MaximumAccepted;
    var id := p.invoiceId.value;
    assert ConfirmedTotal(db2, id) == TotalAt(db, p.key, id, c);
    assert Verdict(db2.invoices[id], ConfirmedTotal(db2, id)) == Verdict(db.invoices[id], TotalAt(db, p.key, id, c));
    SameRefusal(SetConfirmations(db, p.key, c), db2, id);
    hide Verdict, Refused;
  }

  lemma SameRefusal(db1: Db, db2: Db, id: InvoiceId)
    requires id in db1.invoices && id in db2.invoices && db2.invoices[id] == db1.invoices[id].(status := db2.invoices[id].status)
    requires db2.transfers == db1.transfers && db2.transferOrder == db1.transferOrder && db2.book == db1.book
    ensures var keys := EligibleKeys(db1.transferOrder, db1.transfers, id, db1.invoices[id].requiredConfirmations);
            forall bps :: Refused(db2, id, bps, keys) <==> Refused(db1, id, bps, keys)
  {
    hide EligibleKeys, PrecisionsAgree, Posted;
    var keys := EligibleKeys(db1.transferOrder, db1.transfers, id, db1.invoices[id].requiredConfirmations);
    forall bps ensures Refused(db2, id, bps, keys) <==> Refused(db1, id, bps, keys) {
      assert forall k, a :: CreditFor(db2.invoices[id], id, bps, k, a) == CreditFor(db1.invoices[id], id, bps, k, a);
    }
  }

  lemma AdvancedTables(db: Db, db2: Db, key: TransferKey, id: InvoiceId, c: nat)
    requires TablesOk(db) && key in db.transfers && id in db.invoices && db.invoices[id].status in AUTOMATED
    requires Advanced(db, key, id, c) == Commit(db2)
    ensures TablesOk(db2)
  {
    AdvancedShape(db, key, id, c);
    hide Advanced;
  }

  // ---------------------------------------------------------------- the pass

  /** Rows read together: each once, each still counting for the invoice it was read with. */
  ghost predicate Snapshot(db: Db, pending: seq<Pending>) {
    && (forall i :: 0 <= i < |pending| ==> Current(db, pending[i]))
    && (forall i, j :: 0 <= i < j < |pending| ==> pending[i].key != pending[j].key)
  }

  ghost predicate IsPendingRow(order: seq<TransferKey>, transfers: map<TransferKey, Transfer>, n: Network, p: Pending) {
    && p.key in order && p.key in transfers && p.key.network == n && p.invoiceId == transfers[p.key].invoiceId
    && transfers[p.key].matchStatus == PENDING_CONFIRMATION && transfers[p.key].creditedAt.None?
  }

  lemma {:induction false} PendingRowIs(order: seq<TransferKey>, transfers: map<TransferKey, Transfer>, n: Network, i: nat)
    requires i < |PendingRows(order, transfers, n)|
    ensures IsPendingRow(order, transfers, n, PendingRows(order, transfers, n)[i])
    decreases |order|
  {
    var init, k := order[..|order| - 1], order[|order| - 1];
    assert order == init + [k];
    if i < |PendingRows(init, transfers, n)| { PendingRowIs(init, transfers, n, i); }
  }

  lemma {:induction false} PendingRowsDiffer(order: seq<TransferKey>, transfers: map<TransferKey, Transfer>, n: Network, i: nat, j: nat)
    requires Distinct(order) && i < j < |PendingRows(order, transfers, n)|
    ensures PendingRows(order, transfers, n)[i].key != PendingRows(order, transfers, n)[j].key
    decreases |order|
  {
    var init, k := order[..|order| - 1], order[|order| - 1];
    assert order == init + [k];
    assert k !in init;
    PendingRowIs(init, transfers, n, i);
    if j < |PendingRows(init, transfers, n)| { PendingRowsDiffer(init, transfers, n, i, j); }
  }

  lemma PendingRowsAre(order: seq<TransferKey>, transfers: map<TransferKey, Transfer>, n: Network)
    requires Distinct(order)
    ensures var ps := PendingRows(order, transfers, n);
            && (forall i :: 0 <= i < |ps| ==> IsPendingRow(order, transfers, n, ps[i]))
            && (forall i, j :: 0 <= i < j < |ps| ==> ps[i].key != ps[j].key)
  {
    hide PendingRows, IsPendingRow, Distinct;
    var ps := PendingRows(order, transfers, n);
    forall i | 0 <= i < |ps| ensures IsPendingRow(order, transfers, n, ps[i]) { PendingRowIs(order, transfers, n, i); }
    forall i, j | 0 <= i < j < |ps| ensures ps[i].key != ps[j].key { PendingRowsDiffer(order, transfers, n, i, j); }
  }

  lemma SnapshotOf(db: Db, n: Network)
    requires TablesOk(db)
    ensures Snapshot(db, PendingRows(db.transferOrder, db.transfers, n))
  {
    PendingRowsAre(db.transferOrder, db.transfers, n);
  }

  lemma SnapshotStays(db: Db, db': Db, p: Pending, c: nat, pending: seq<Pending>)
    requires Processed(db, db', p, c) && Snapshot(db, pending)
    ensures Snapshot(db', pending)
  {
  }

  lemma SnapshotTail(db: Db, pending: seq<Pending>)
    requires Snapshot(db, pending) && pending != []
    ensures Snapshot(db, pending[1..]) && Current(db, pending[0])
    ensures forall i :: 0 <= i < |pending[1..]| ==> pending[1..][i].key != pending[0].key
  {
  }

  /** The next row's transaction and what remains of the pass. */
  lemma PassStep(db: Db, pending: seq<Pending>, answers: seq<nat>, now: Time)
    requires Inv(db) && Snapshot(db, pending) && |answers| == |pending| && pending != []
    ensures var p, c := pending[0], answers[0];
            var r := ConfirmTransfer(db, p.key, p.invoiceId, c, now);
            && Current(db, p) && (r.Abort? <==> Throws(db, p, c))
            && ConfirmAll(db, pending, answers, now) ==
               (if r.Abort? then Loop(db, false) else ConfirmAll(r.value, pending[1..], answers[1..], now))
            && (r.Commit? ==> Inv(r.value) && Snapshot(r.value, pending[1..]) && Processed(db, r.value, p, c))
            && (r.Commit? ==> if Rests(db, p, c) then r.value == db else Wrote(db, r.value, p))
  {
    var p, c := pending[0], answers[0];
    SnapshotTail(db, pending);
    RowOutcome(db, p, c, now);
    var r := ConfirmTransfer(db, p.key, p.invoiceId, c, now);
    hide ConfirmTransfer, Throws, Rests, Wrote, Processed, Snapshot, Current, Inv;
    if r.Commit? {
      ConfirmKeepsInv(db, p.key, p.invoiceId, c, now);
      SnapshotStays(db, r.value, p, c, pending[1..]);
    }
  }

  lemma ProcessedOther(db: Db, db': Db, p: Pending, c: nat, k: TransferKey)
    requires Processed(db, db', p, c) && k in db.transfers && k != p.key
    ensures k in db'.transfers && db'.transfers[k].confirmations == db.transfers[k].confirmations && |db'.events| >= |db.events|
  {
  }

  /** Rows the pass has done with, or never lists, keep their count; the event log never shrinks. */
  lemma {:induction false} PassKeeps(db: Db, pending: seq<Pending>, answers: seq<nat>, now: Time, k: TransferKey)
    requires Inv(db) && Snapshot(db, pending) && |answers| == |pending|
    requires k in db.transfers && forall i :: 0 <= i < |pending| ==> pending[i].key != k
    ensures var r := ConfirmAll(db, pending, answers, now);
            k in r.db.transfers && r.db.transfers[k].confirmations == db.transfers[k].confirmations && |r.db.events| >= |db.events|
    decreases |pending|
  {
    if pending != [] {
      PassStep(db, pending, answers, now);
      var r := ConfirmTransfer(db, pending[0].key, pending[0].invoiceId, answers[0], now);
      hide ConfirmTransfer, Throws, Rests, Wrote, Processed, Snapshot, Current, Inv, ConfirmAll;
      if r.Commit? {
        ProcessedOther(db, r.value, pending[0], answers[0], k);
        PassKeeps(r.value, pending[1..], answers[1..], now, k);
      }
    }
  }

  /** Row i throws on the state it is given. */
  ghost predicate ThrowsOn(db: Db, pending: seq<Pending>, answers: seq<nat>, i: nat)
    requires i < |pending| == |answers|
  {
    Current(db, pending[i]) && Throws(db, pending[i], answers[i])
  }

  ghost predicate RestsOn(db: Db, pending: seq<Pending>, answers: seq<nat>, i: nat)
    requires i < |pending| == |answers|
  {
    Current(db, pending[i]) && Rests(db, pending[i], answers[i])
  }

  /** Some row up to i throws, so that row i is never reached or throws itself. */
  ghost predicate StoppedBy(db: Db, pending: seq<Pending>, answers: seq<nat>, i: nat)
    requires i < |pending| == |answers|
  {
    exists j: nat :: j <= i && ThrowsOn(db, pending, answers, j)
  }

  /** A pass changes nothing exactly when every row rests or is stopped by a throw. */
  lemma {:induction false} StandsStillExactly(db: Db, pending: seq<Pending>, answers: seq<nat>, now: Time)
    requires Inv(db) && Snapshot(db, pending) && |answers| == |pending|
    ensures ConfirmAll(db, pending, answers, now).db == db <==>
            forall i: nat :: i < |pending| ==> RestsOn(db, pending, answers, i) || StoppedBy(db, pending, answers, i)
    decreases |pending|
  {
    if pending != [] {
      PassStep(db, pending, answers, now);
      var p := pending[0];
      var r := ConfirmTransfer(db, p.key, p.invoiceId, answers[0], now);
      ShiftedRows(db, pending, answers);
      if r.Commit? {
        if Rests(db, p, answers[0]) {
          StandsStillExactly(db, pending[1..], answers[1..], now);
        } else {
          WrittenForGood(db, r.value, pending, answers, now);
        }
      }
      hide ConfirmTransfer, Throws, Rests, Wrote, Processed, Snapshot, Current, Inv, ConfirmAll, ThrowsOn, RestsOn;
      if r.Abort? {
        assert ThrowsOn(db, pending, answers, 0);
      } else if RestsOn(db, pending, answers, 0) {
        RestLater(db, pending, answers);
      } else {
        assert !StoppedBy(db, pending, answers, 0);
      }
    }
  }

  lemma ShiftedRows(db: Db, pending: seq<Pending>, answers: seq<nat>)
    requires |answers| == |pending| > 0 && Current(db, pending[0])
    ensures ThrowsOn(db, pending, answers, 0) <==> Throws(db, pending[0], answers[0])
    ensures RestsOn(db, pending, answers, 0) <==> Rests(db, pending[0], answers[0])
  {
    hide Throws, Rests;
  }

  lemma RestLater(db: Db, pending: seq<Pending>, answers: seq<nat>)
    requires |answers| == |pending| > 0 && RestsOn(db, pending, answers, 0) && !ThrowsOn(db, pending, answers, 0)
    ensures (forall i: nat :: i < |pending| ==> RestsOn(db, pending, answers, i) || StoppedBy(db, pending, answers, i)) <==>
            (forall i: nat :: i < |pending[1..]| ==> RestsOn(db, pending[1..], answers[1..], i) || StoppedBy(db, pending[1..], answers[1..], i))
  {
    hide Throws, Rests, Current;
    var ps, cs := pending[1..], answers[1..];
    forall i: nat | i < |ps|
      ensures RestsOn(db, ps, cs, i) <==> RestsOn(db, pending, answers, i + 1)
      ensures StoppedBy(db, ps, cs, i) <==> StoppedBy(db, pending, answers, i + 1)
    {
      RowShift(db, pending, answers, i);
      StoppedShift(db, pending, answers, i);
    }
    if forall i: nat :: i < |ps| ==> RestsOn(db, ps, cs, i) || StoppedBy(db, ps, cs, i) {
      forall i: nat | i < |pending| ensures RestsOn(db, pending, answers, i) || StoppedBy(db, pending, answers, i) {
        if i > 0 { assert RestsOn(db, ps, cs, i - 1) || StoppedBy(db, ps, cs, i - 1); }
      }
    }
  }

  lemma StoppedShift(db: Db, pending: seq<Pending>, answers: seq<nat>, i: nat)
    requires |answers| == |pending| > 0 && !ThrowsOn(db, pending, answers, 0) && i + 1 < |pending|
    ensures StoppedBy(db, pending[1..], answers[1..], i) <==> StoppedBy(db, pending, answers, i + 1)
  {
    hide Throws, Current;
    var ps, cs := pending[1..], answers[1..];
    assert forall j: nat :: j < |ps| ==> ps[j] == pending[j + 1] && cs[j] == answers[j + 1];
    if StoppedBy(db, ps, cs, i) {
      var j: nat :| j <= i && ThrowsOn(db, ps, cs, j);
      assert ThrowsOn(db, pending, answers, j + 1);
    }
    if StoppedBy(db, pending, answers, i + 1) {
      var j: nat :| j <= i + 1 && ThrowsOn(db, pending, answers, j);
      assert j > 0 && ThrowsOn(db, ps, cs, j - 1);
    }
  }

  /** What a row wrote is still there when the pass ends. */
  lemma WrittenForGood(db: Db, db1: Db, pending: seq<Pending>, answers: seq<nat>, now: Time)
    requires Snapshot(db, pending) && |answers| == |pending| > 0 && Inv(db1) && Snapshot(db1, pending[1..])
    requires Processed(db, db1, pending[0], answers[0]) && Wrote(db, db1, pending[0])
    ensures ConfirmAll(db1, pending[1..], answers[1..], now).db != db
  {
    SnapshotTail(db, pending);
    hide Inv, Snapshot, ConfirmAll;
    PassKeeps(db1, pending[1..], answers[1..], now, pending[0].key);
  }

  /** The state row i meets. */
  function StateAt(db: Db, pending: seq<Pending>, answers: seq<nat>, now: Time, i: nat): Db
    requires i <= |pending| == |answers|
  {
    ConfirmAll(db, pending[..i], answers[..i], now).db
  }

  /** A pass runs to its end exactly when no row throws on the state it meets; otherwise the rest is left alone. */
  lemma {:induction false} CompletesExactly(db: Db, pending: seq<Pending>, answers: seq<nat>, now: Time)
    requires Inv(db) && Snapshot(db, pending) && |answers| == |pending|
    ensures ConfirmAll(db, pending, answers, now).completed <==>
            forall i: nat :: i < |pending| ==> !ThrowsOn(StateAt(db, pending, answers, now, i), pending, answers, i)
    decreases |pending|
  {
    if pending != [] {
      PassStep(db, pending, answers, now);
      var r := ConfirmTransfer(db, pending[0].key, pending[0].invoiceId, answers[0], now);
      assert StateAt(db, pending, answers, now, 0) == db;
      ShiftedRows(db, pending, answers);
      if r.Commit? {
        var ps, cs := pending[1..], answers[1..];
        CompletesExactly(r.value, ps, cs, now);
        forall i: nat | i < |ps|
          ensures ThrowsOn(StateAt(r.value, ps, cs, now, i), ps, cs, i) <==> ThrowsOn(StateAt(db, pending, answers, now, i + 1), pending, answers, i + 1)
        {
          StateShift(db, r.value, pending, answers, now, i);
        }
        hide ConfirmTransfer, Throws, Rests, Wrote, Processed, Snapshot, Current, Inv, ConfirmAll, ThrowsOn, RestsOn, StateAt;
        AllShifted(db, r.value, pending, answers, now);
      }
    }
  }

  lemma AllShifted(db: Db, db1: Db, pending: seq<Pending>, answers: seq<nat>, now: Time)
    requires |answers| == |pending| > 0 && !ThrowsOn(StateAt(db, pending, answers, now, 0), pending, answers, 0)
    requires forall i: nat :: i < |pending| - 1 ==>
               (ThrowsOn(StateAt(db1, pending[1..], answers[1..], now, i), pending[1..], answers[1..], i) <==>
                ThrowsOn(StateAt(db, pending, answers, now, i + 1), pending, answers, i + 1))
    ensures (forall i: nat :: i < |pending[1..]| ==> !ThrowsOn(StateAt(db1, pending[1..], answers[1..], now, i), pending[1..], answers[1..], i)) <==>
            (forall i: nat :: i < |pending| ==> !ThrowsOn(StateAt(db, pending, answers, now, i), pending, answers, i))
  {
    hide ThrowsOn, StateAt;
    if forall i: nat :: i < |pending[1..]| ==> !ThrowsOn(StateAt(db1, pending[1..], answers[1..], now, i), pending[1..], answers[1..], i) {
      forall i: nat | i < |pending| ensures !ThrowsOn(StateAt(db, pending, answers, now, i), pending, answers, i) {
        if i > 0 { assert !ThrowsOn(StateAt(db1, pending[1..], answers[1..], now, i - 1), pending[1..], answers[1..], i - 1); }
      }
    }
  }

  lemma StateShift(db: Db, db1: Db, pending: seq<Pending>, answers: seq<nat>, now: Time, i: nat)
    requires |answers| == |pending| > 0 && i < |pending| - 1
    requires ConfirmTransfer(db, pending[0].key, pending[0].invoiceId, answers[0], now) == Commit(db1)
    ensures StateAt(db1, pending[1..], answers[1..], now, i) == StateAt(db, pending, answers, now, i + 1)
    ensures pending[1..][i] == pending[i + 1] && answers[1..][i] == answers[i + 1]
  {
    hide ConfirmTransfer;
    assert pending[..i + 1][1..] == pending[1..][..i] && answers[..i + 1][1..] == answers[1..][..i];
    assert pending[..i + 1][0] == pending[0] && answers[..i + 1][0] == answers[0];
  }

  // ---------------------------------------------------------------- calling again

  /** A move is due for the invoice of a row whose report is already stored. */
  ghost predicate MoveDue(db: Db, p: Pending, c: nat) {
    && p.key in db.transfers && p.invoiceId.Some? && p.invoiceId.value in db.invoices
    && var inv := db.invoices[p.invoiceId.value];
       || (c >= 1 && (inv.status == DETECTED || inv.status == UNDERPAID))
       || (c >= inv.requiredConfirmations && inv.status == CONFIRMING)
       || (c >= inv.requiredConfirmations && inv.status == OVERPAID && Verdict(inv, TotalAt(db, p.key, p.invoiceId.value, c)) == PAID)
  }

  lemma RestsUnlessDue(db: Db, p: Pending, c: nat)
    requires Inv(db) && Current(db, p) && db.transfers[p.key].confirmations == c
    ensures Rests(db, p, c) <==> !MoveDue(db, p, c)
  {
    if p.invoiceId.Some? { InvoiceRow(db, p); }
    hide Inv, Verdict, TotalAt;
  }

  /** After a completed pass the rows still pending were in it and hold the reported count. */
  lemma {:induction false} ReportStored(db: Db, pending: seq<Pending>, answers: seq<nat>, now: Time, i: nat)
    requires Inv(db) && Snapshot(db, pending) && i < |answers| == |pending| && ConfirmAll(db, pending, answers, now).completed
    ensures var db' := ConfirmAll(db, pending, answers, now).db;
            pending[i].key in db'.transfers && db'.transfers[pending[i].key].confirmations == answers[i]
    decreases |pending|
  {
    hide ConfirmTransfer, Throws, Rests, Wrote, Processed, Snapshot, Current, Inv, ConfirmAll;
    PassStep(db, pending, answers, now);
    SnapshotTail(db, pending);
    var r := ConfirmTransfer(db, pending[0].key, pending[0].invoiceId, answers[0], now);
    if i == 0 {
      ProcessedOwn(db, r.value, pending[0], answers[0]);
      PassKeeps(r.value, pending[1..], answers[1..], now, pending[0].key);
    } else {
      ReportStored(r.value, pending[1..], answers[1..], now, i - 1);
    }
  }

  lemma ProcessedOwn(db: Db, db': Db, p: Pending, c: nat)
    requires Processed(db, db', p, c)
    ensures p.key in db'.transfers && db'.transfers[p.key].confirmations == c
  {
  }

  /** A pass never makes a row pending again. */
  lemma {:induction false} StillPending(db: Db, pending: seq<Pending>, answers: seq<nat>, now: Time, k: TransferKey)
    requires Inv(db) && Snapshot(db, pending) && |answers| == |pending|
    ensures var db' := ConfirmAll(db, pending, answers, now).db;
            && Inv(db') && db'.transferOrder == db.transferOrder
            && (k in db'.transfers && db'.transfers[k].matchStatus == PENDING_CONFIRMATION ==>
                  k in db.transfers && db.transfers[k].matchStatus == PENDING_CONFIRMATION && db.transfers[k].invoiceId == db'.transfers[k].invoiceId)
    decreases |pending|
  {
    if pending != [] {
      PassStep(db, pending, answers, now);
      var p, c := pending[0], answers[0];
      hide ConfirmTransfer, Throws, Rests, Wrote, Processed, Snapshot, Current, Inv, ConfirmAll;
      var r := ConfirmTransfer(db, p.key, p.invoiceId, c, now);
      if r.Commit? {
        OrderKept(db, p, c, now);
        if k in r.value.transfers && r.value.transfers[k].matchStatus == PENDING_CONFIRMATION { PendingBefore(db, r.value, p, c, k); }
        StillPending(r.value, pending[1..], answers[1..], now, k);
      }
    }
  }

  lemma PendingBefore(db: Db, db': Db, p: Pending, c: nat, k: TransferKey)
    requires Processed(db, db', p, c) && k in db'.transfers && db'.transfers[k].matchStatus == PENDING_CONFIRMATION
    ensures k in db.transfers && db.transfers[k].matchStatus == PENDING_CONFIRMATION && db.transfers[k].invoiceId == db'.transfers[k].invoiceId
  {
  }

  lemma OrderKept(db: Db, p: Pending, c: nat, now: Time)
    requires Inv(db) && Current(db, p) && ConfirmTransfer(db, p.key, p.invoiceId, c, now).Commit?
    ensures ConfirmTransfer(db, p.key, p.invoiceId, c, now).value.transferOrder == db.transferOrder
  {
    if p.invoiceId.Some? {
      InvoiceRow(db, p);
      var id := p.invoiceId.value;
      ConfirmUnfolds(db, p.key, id, c, now);
      AdvancedShape(db, p.key, id, c);
      hide Inv, TablesOk, InvoicesOk, ConfirmTransfer, Advanced, FindRule, TargetFor, Moves;
      var db2 := Advanced(db, p.key, id, c).value;
      if c >= db.invoices[id].requiredConfirmations {
        var target := FinalizeCases(db2, id, now);
        hide FinalizeInvoice;
        if target.Some? {
          var m := db2.merchants[db2.invoices[id].merchantId];
          var keys := EligibleKeys(db2.transferOrder, db2.transfers, id, db2.invoices[id].requiredConfirmations);
          SettleEnds(db2, id, m, target.value, keys, ConfirmedTotal(db2, id), now);
        }
      }
    }
  }

  /** Row i of the pending rows of db has a move due that no throw keeps it from. */
  ghost predicate DueAt(db: Db, n: Network, report: TransferKey -> nat, i: nat) {
    var pending := PendingRows(db.transferOrder, db.transfers, n);
    i < |pending| && MoveDue(db, pending[i], report(pending[i].key)) && !StoppedBy(db, pending, Answers(report, pending), i)
  }

  lemma StoredAfter(db: Db, n: Network, report: TransferKey -> nat, now: Time)
    requires Inv(db) && Pass(db, n, report, now).completed
    ensures var db' := Pass(db, n, report, now).db;
            var pending := PendingRows(db'.transferOrder, db'.transfers, n);
            && Inv(db') && Snapshot(db', pending)
            && forall i :: 0 <= i < |pending| ==> db'.transfers[pending[i].key].confirmations == report(pending[i].key)
  {
    hide Inv, TablesOk, Snapshot, ConfirmAll, PendingRows, CreditsOk, IsPendingRow;
    TablesOf(db);
    var before := PendingRows(db.transferOrder, db.transfers, n);
    var answers := Answers(report, before);
    SnapshotOf(db, n);
    var db' := Pass(db, n, report, now).db;
    StillPending(db, before, answers, now, TransferKey(0, 0, 0));
    TablesOf(db');
    SnapshotOf(db', n);
    var pending := PendingRows(db'.transferOrder, db'.transfers, n);
    forall i | 0 <= i < |pending| ensures pending[i].key in db'.transfers && db'.transfers[pending[i].key].confirmations == report(pending[i].key) {
      StoredRow(db, n, report, now, i);
    }
  }

  lemma StoredRow(db: Db, n: Network, report: TransferKey -> nat, now: Time, i: nat)
    requires Inv(db) && Pass(db, n, report, now).completed && i < |PendingRows(Pass(db, n, report, now).db.transferOrder, Pass(db, n, report, now).db.transfers, n)|
    ensures var db' := Pass(db, n, report, now).db;
            var k := PendingRows(db'.transferOrder, db'.transfers, n)[i].key;
            k in db'.transfers && db'.transfers[k].confirmations == report(k)
  {
    hide Inv, Snapshot, ConfirmAll, PendingRows, CreditsOk;
    TablesOf(db);
    var before := PendingRows(db.transferOrder, db.transfers, n);
    var answers := Answers(report, before);
    SnapshotOf(db, n);
    var db' := Pass(db, n, report, now).db;
    var pending := PendingRows(db'.transferOrder, db'.transfers, n);
    PendingRowIs(db'.transferOrder, db'.transfers, n, i);
    var k := pending[i].key;
    StillPending(db, before, answers, now, k);
    var j := ListedAsPending(db, n, k);
    hide TablesOk;
    ReportStored(db, before, answers, now, j);
  }

  lemma TablesOf(db: Db)
    requires Inv(db)
    ensures TablesOk(db) && CreditsOk(db.transfers, db.book.txs)
  {
  }

  lemma ListedAsPending(db: Db, n: Network, k: TransferKey) returns (j: nat)
    requires Inv(db) && k in db.transferOrder && k in db.transfers && k.network == n && db.transfers[k].matchStatus == PENDING_CONFIRMATION
    ensures j < |PendingRows(db.transferOrder, db.transfers, n)| && PendingRows(db.transferOrder, db.transfers, n)[j].key == k
  {
    TablesOf(db);
    assert db.transfers[k].creditedAt.None?;
    j := PendingIndex(db.transferOrder, db.transfers, n, k);
  }

  lemma {:induction false} PendingIndex(order: seq<TransferKey>, transfers: map<TransferKey, Transfer>, n: Network, k: TransferKey) returns (j: nat)
    requires k in order && k in transfers && k.network == n && transfers[k].matchStatus == PENDING_CONFIRMATION && transfers[k].creditedAt.None?
    ensures j < |PendingRows(order, transfers, n)| && PendingRows(order, transfers, n)[j].key == k
    decreases |order|
  {
    var init, last := order[..|order| - 1], order[|order| - 1];
    assert order == init + [last];
    if last == k {
      j := |PendingRows(init, transfers, n)|;
    } else {
      j := PendingIndex(init, transfers, n, k);
    }
  }

  /**
   * Repeating a completed pass with unchanged chain state changes nothing exactly when no row has a
   * move due: none reported at all of a DETECTED or UNDERPAID invoice, none confirmed of a CONFIRMING
   * one, none confirmed of an OVERPAID one whose confirmed total is by now within the accepted band;
   * rows behind a throwing one are never reached.
   */
  lemma RepeatedPass(steps: seq<Step>, n: Network, report: TransferKey -> nat, now: Time, later: Time)
    requires Pass(Reached(steps), n, report, now).completed
    ensures var once := Pass(Reached(steps), n, report, now).db;
            Pass(once, n, report, later).db == once <==> forall i :: !DueAt(once, n, report, i)
  {
    ReachedInv(steps);
    hide Reached, Inv;
    StoredAfter(Reached(steps), n, report, now);
    var once := Pass(Reached(steps), n, report, now).db;
    var pending := PendingRows(once.transferOrder, once.transfers, n);
    var answers := Answers(report, pending);
    StandsStillExactly(once, pending, answers, later);
    forall i: nat | i < |pending|
      ensures RestsOn(once, pending, answers, i) <==> !MoveDue(once, pending[i], report(pending[i].key))
    {
      assert Current(once, pending[i]);
      RestsUnlessDue(once, pending[i], report(pending[i].key));
      hide Rests, MoveDue;
    }
    hide Snapshot, ConfirmAll, RestsOn, MoveDue, StoppedBy;
    assert forall i: nat :: i < |pending| ==> (DueAt(once, n, report, i) <==> !RestsOn(once, pending, answers, i) && !StoppedBy(once, pending, answers, i));
    assert Pass(once, n, report, later) == ConfirmAll(once, pending, answers, later);
  }

  /** Row j throws with nothing due before it. */
  ghost predicate StopsAtRow(db: Db, n: Network, report: TransferKey -> nat, j: nat) {
    var pending := PendingRows(db.transferOrder, db.transfers, n);
    && j < |pending| && ThrowsOn(db, pending, Answers(report, pending), j)
    && forall i: nat :: i < j ==> RestsOn(db, pending, Answers(report, pending), i)
  }

  lemma StopsUnchanged(db: Db, n: Network, report: TransferKey -> nat, j: nat, later: Time)
    requires Inv(db) && StopsAtRow(db, n, report, j)
    ensures Pass(db, n, report, later) == Loop(db, false)
  {
    TablesOf(db);
    SnapshotOf(db, n);
    var pending := PendingRows(db.transferOrder, db.transfers, n);
    var answers := Answers(report, pending);
    StandsStillExactly(db, pending, answers, later);
    hide Inv, TablesOk, Snapshot, ThrowsOn, RestsOn, ConfirmAll, CreditsOk;
    forall i: nat | i < |pending| ensures RestsOn(db, pending, answers, i) || StoppedBy(db, pending, answers, i) {
      if i >= j { assert ThrowsOn(db, pending, answers, j); }
    }
    StopsAt(db, pending, answers, later, j);
  }

  lemma {:induction false} StopsAt(db: Db, pending: seq<Pending>, answers: seq<nat>, now: Time, j: nat)
    requires Inv(db) && Snapshot(db, pending) && j < |answers| == |pending| && ThrowsOn(db, pending, answers, j)
    requires forall i: nat :: i < j ==> RestsOn(db, pending, answers, i)
    ensures !ConfirmAll(db, pending, answers, now).completed
    decreases |pending|
  {
    hide Inv, Snapshot, ThrowsOn, RestsOn, ConfirmTransfer, Throws, Rests, Wrote, Processed, ConfirmAll;
    PassStep(db, pending, answers, now);
    ShiftedRows(db, pending, answers);
    if j > 0 {
      assert RestsOn(db, pending, answers, 0);
      if !ThrowsOn(db, pending, answers, 0) {
        forall i: nat | i < j - 1 ensures RestsOn(db, pending[1..], answers[1..], i) { RowShift(db, pending, answers, i); }
        RowShift(db, pending, answers, j - 1);
        StopsAt(db, pending[1..], answers[1..], now, j - 1);
      }
    }
  }

  lemma RowShift(db: Db, pending: seq<Pending>, answers: seq<nat>, i: nat)
    requires |answers| == |pending| && i + 1 < |pending|
    ensures RestsOn(db, pending[1..], answers[1..], i) <==> RestsOn(db, pending, answers, i + 1)
    ensures ThrowsOn(db, pending[1..], answers[1..], i) <==> ThrowsOn(db, pending, answers, i + 1)
  {
    hide Throws, Rests;
    assert pending[1..][i] == pending[i + 1] && answers[1..][i] == answers[i + 1];
  }
}
