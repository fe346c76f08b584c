/** The main results about the payment pipeline, over every run from an empty database. */
module PipelineTheorems {
  import opened Basics
  import opened StateMachine
  import opened Ledger
  import opened Payments
  import opened Pipeline
  import opened PipelineInvariant
  import opened PipelineSteps

  /** The state any run, with any mix of committed and aborted steps, has reached. */
  function Reached(steps: seq<Step>): Db {
    Run(EMPTY_DB, steps)
  }

  lemma ReachedInv(steps: seq<Step>)
    ensures Inv(Reached(steps))
  {
    InitialInv();
    RunKeepsInv(EMPTY_DB, steps);
  }

  // ---------------------------------------------------------------- exactly-once credit

  /** Each transfer has at most one ledger transaction, and it has one exactly when it is credited. */
  lemma ExactlyOnceCredit(steps: seq<Step>, i: nat, j: nat, k: TransferKey)
    ensures var db := Reached(steps);
            && (i < j < |db.book.txs| ==> db.book.txs[i].key != db.book.txs[j].key)
            && (k in db.transfers ==>
                  && (db.transfers[k].creditedAt.Some? <==> db.transfers[k].matchStatus == CREDITED)
                  && (db.transfers[k].creditedAt.Some? <==> Posted(db.book.txs, k)))
            && (k !in db.transfers ==> !Posted(db.book.txs, k))
  {
    ReachedInv(steps);
  }

  /** The ledger holds, on both sides, a credited transfer's amount once and nothing for any other transfer. */
  lemma LedgerHoldsEachTransferOnce(steps: seq<Step>, k: TransferKey)
    ensures var db := Reached(steps);
            var expected := if k in db.transfers && db.transfers[k].matchStatus == CREDITED then db.transfers[k].amount else 0;
            SideOfKey(db.book.entries, k, DEBIT) == expected && SideOfKey(db.book.entries, k, CREDIT) == expected
  {
    ReachedInv(steps);
    var db := Reached(steps);
    assert KeySidesOk(db.transfers, db.book.entries);
  }

  lemma {:induction false} RunSplits(db: Db, a: seq<Step>, b: seq<Step>)
    ensures Run(db, a + b) == Run(Run(db, a), b)
  {
    if b == [] {
      assert a + b == a;
    } else {
      var init := b[..|b| - 1];
      assert (a + b)[..|a + b| - 1] == a + init;
      RunSplits(db, a, init);
    }
  }

  /** Whatever happens later, a credited row keeps its amount and invoice and the ledger only grows. */
  lemma CreditsAreFinal(before: seq<Step>, after: seq<Step>)
    ensures Extends(Reached(before), Reached(before + after))
  {
    ReachedInv(before);
    RunSplits(EMPTY_DB, before, after);
    RunKeepsInv(Reached(before), after);
  }

  // ---------------------------------------------------------------- conservation

  /** Money credited, money posted and the invoice's own amount agree, and exist exactly for settled invoices. */
  lemma Conservation(steps: seq<Step>, id: InvoiceId)
    requires id in Reached(steps).invoices
    ensures var db := Reached(steps);
            var credited := CreditedSum(db.transferOrder, db.transfers, id);
            && (Settled(db.invoices[id].status) <==>
                  exists k :: k in db.transfers && db.transfers[k].matchStatus == CREDITED && db.transfers[k].invoiceId == Some(id))
            && (Settled(db.invoices[id].status) ==> db.invoices[id].confirmedAmount == credited)
            && SideOf(db.book.entries, id, DEBIT) == credited
            && SideOf(db.book.entries, id, CREDIT) == credited
  {
    ReachedInv(steps);
    var db := Reached(steps);
    assert InvoiceSettled(db, id);
    CreditedSumPositive(db.transferOrder, db.transfers, id);
    assert SidesOk(db.transferOrder, db.transfers, db.book.entries);
  }

  /** The ledger balances per network and asset in every reached state. */
  lemma BooksBalance(steps: seq<Step>, n: Network, a: Asset)
    ensures var b := Reached(steps).book;
            NormalTotal(b.order, b.entries, n, a, true) == NormalTotal(b.order, b.entries, n, a, false)
  {
    ReachedInv(steps);
  }

  // ---------------------------------------------------------------- the event trail

  function EventsOf(events: seq<Event>, id: InvoiceId): seq<Event> {
    if events == [] then []
    else EventsOf(events[..|events| - 1], id) + if events[|events| - 1].invoiceId == id then [events[|events| - 1]] else []
  }

  /** The j-th event of an invoice: numbered j + 1, beginning where the previous one ended, its edge permitted. */
  ghost predicate TrailStep(es: seq<Event>, j: nat)
    requires j < |es|
  {
    && es[j].sequence == j + 1
    && es[j].from == (if j == 0 then None else Some(es[j - 1].to))
    && (if j == 0 then es[j].to == CREATED else IsActorAllowed(es[j - 1].to, es[j].to, es[j].actor))
  }

  ghost predicate WellTrailed(es: seq<Event>) {
    forall j: nat :: j < |es| ==> TrailStep(es, j)
  }

  lemma WellTrailedAppend(es: seq<Event>, e: Event)
    requires WellTrailed(es) && e.sequence == |es| + 1
    requires e.from == (if es == [] then None else Some(es[|es| - 1].to))
    requires if es == [] then e.to == CREATED else IsActorAllowed(es[|es| - 1].to, e.to, e.actor)
    ensures WellTrailed(es + [e])
  {
    forall j: nat | j < |es + [e]|
      ensures TrailStep(es + [e], j)
    {
      if j < |es| { assert TrailStep(es, j); }
    }
  }

  lemma {:induction false} TrailOfInvoice(events: seq<Event>, id: InvoiceId)
    requires Trail(events)
    ensures |EventsOf(events, id)| == EventCount(events, id)
    ensures LastStatus(events, id) ==
            if EventsOf(events, id) == [] then None else Some(EventsOf(events, id)[|EventsOf(events, id)| - 1].to)
    ensures WellTrailed(EventsOf(events, id))
  {
    if events != [] {
      var init, e := events[..|events| - 1], events[|events| - 1];
      TrailOfInvoice(init, id);
      if e.invoiceId == id {
        assert Continues(init, e);
        WellTrailedAppend(EventsOf(init, id), e);
      } else {
        assert EventsOf(events, id) == EventsOf(init, id);
      }
    }
  }

  /** Every invoice's events tell its whole history and end at its current status. */
  lemma EventTrail(steps: seq<Step>, id: InvoiceId)
    ensures var db := Reached(steps);
            var es := EventsOf(db.events, id);
            && WellTrailed(es)
            && (id in db.invoices <==> es != [])
            && (id in db.invoices ==> |es| >= 2 && es[|es| - 1].to == db.invoices[id].status)
  {
    hide FindRule, Balanced, WellFormed, SidesOk, KeySidesOk, CreditsOk, TablesOk, TxTableOk, SettledExcept, DiscrepanciesOk, WellTrailed;
    ReachedInv(steps);
    var db := Reached(steps);
    TrailOfInvoice(db.events, id);
    assert LastStatus(db.events, id) == if id in db.invoices then Some(db.invoices[id].status) else None;
    var es := EventsOf(db.events, id);
    if id in db.invoices {
      assert TrailStep(es, 0);
      assert db.invoices[id].status != CREATED;
    }
  }

  // ---------------------------------------------------------------- reorganisations

  /** In a consistent state the reversal of an uncredited transfer never throws. */
  lemma RevertCommits(db: Db, id: InvoiceId)
    requires InvoicesOk(db.invoices) && id in db.invoices
    ensures RevertInvoice(db, id).Commit?
    ensures var db' := RevertInvoice(db, id).value;
            db' == db.(invoices := db'.invoices, events := db'.events)
  {
  }

  lemma OrphanTransferEffect(db: Db, key: TransferKey)
    requires Inv(db) && key in db.transfers
    ensures OrphanTransfer(db, key).Commit?
    ensures var db' := OrphanTransfer(db, key).value;
            && db'.book == db.book && db'.txs == db.txs && db'.txOrder == db.txOrder && db'.transferOrder == db.transferOrder
            && db'.transfers == (if db.transfers[key].creditedAt.Some? then db.transfers
                                 else db.transfers[key := db.transfers[key].(matchStatus := ORPHANED)])
            && (db.transfers[key].creditedAt.Some? ==> Frozen(db', db.transfers[key].invoiceId))
  {
    var t := db.transfers[key];
    if t.creditedAt.Some? {
      CreditedInvoiceIsSettled(db, key);
      FlagCases(db, key, t.invoiceId.value);
    } else if t.invoiceId.Some? {
      var db1 := db.(transfers := db.transfers[key := t.(matchStatus := ORPHANED)]);
      RevertCommits(db1, t.invoiceId.value);
    }
  }

  /** The invoice exists and waits for a human. */
  ghost predicate Frozen(db: Db, id: Option<InvoiceId>) {
    id.Some? && id.value in db.invoices && db.invoices[id.value].status == RECONCILIATION_REQUIRED
  }

  lemma FrozenStays(a: Db, b: Db, id: Option<InvoiceId>)
    requires Extends(a, b) && Frozen(a, id)
    ensures Frozen(b, id)
  {
    assert InvoiceExtends(a.invoices[id.value], b.invoices[id.value]);
  }

  /** What orphaning a list of transfers leaves behind. */
  ghost predicate OrphanedKeys(a: Db, b: Db, keys: seq<TransferKey>) {
    && (forall k :: k in b.transfers <==> k in a.transfers)
    && (forall k :: k in a.transfers ==> OrphanedRow(a, b, k, k in keys))
  }

  ghost predicate OrphanedRow(a: Db, b: Db, k: TransferKey, hit: bool)
    requires k in a.transfers && k in b.transfers
  {
    if !hit then b.transfers[k] == a.transfers[k]
    else if a.transfers[k].creditedAt.Some? then b.transfers[k] == a.transfers[k] && Frozen(b, a.transfers[k].invoiceId)
    else b.transfers[k] == a.transfers[k].(matchStatus := ORPHANED)
  }

  lemma {:induction false} OrphanTransfersEffect(db: Db, keys: seq<TransferKey>)
    requires Inv(db) && forall k :: k in keys ==> k in db.transfers
    ensures OrphanTransfers(db, keys).Commit?
    ensures var db' := OrphanTransfers(db, keys).value;
            && db'.book == db.book && db'.txs == db.txs && db'.txOrder == db.txOrder && db'.transferOrder == db.transferOrder
            && OrphanedKeys(db, db', keys)
    decreases |keys|
  {
    hide Inv, Extends;
    if keys != [] {
      var key := keys[0];
      assert key in keys;
      OrphanTransferEffect(db, key);
      OrphanTransferKeepsInv(db, key);
      var db1 := OrphanTransfer(db, key).value;
      OrphanTransfersEffect(db1, keys[1..]);
      OrphanTransfersKeepsInv(db1, keys[1..]);
      var db' := OrphanTransfers(db, keys).value;
      assert forall k :: k in keys <==> k == key || k in keys[1..];
      forall k | k in db.transfers
        ensures OrphanedRow(db, db', k, k in keys)
      {
        assert OrphanedRow(db1, db', k, k in keys[1..]);
        if k == key && db.transfers[key].creditedAt.Some? {
          FrozenStays(db1, db', db.transfers[key].invoiceId);
        }
      }
    }
  }

  lemma OrphanedTxTable(db: Db, tx: TxKey)
    requires Inv(db) && tx in db.txs
    ensures TxTableOk(db.(txs := db.txs[tx := db.txs[tx].(status := ORPHANED_TX)]))
    ensures forall k :: k in TransfersOf(db.transferOrder, tx) ==> k in db.transfers
    ensures TablesOk(db)
  {
  }

  lemma OrphanTxEffect(db: Db, tx: TxKey)
    requires Inv(db) && tx in db.txs
    ensures OrphanTx(db, tx).Commit?
    ensures var db' := OrphanTx(db, tx).value;
            && Inv(db') && Extends(db, db')
            && db'.book == db.book && db'.txs == db.txs[tx := db.txs[tx].(status := ORPHANED_TX)] && db'.txOrder == db.txOrder
            && db'.transferOrder == db.transferOrder
            && OrphanedKeys(db, db', TransfersOf(db.transferOrder, tx))
  {
    hide Extends, Inv, TablesOk, TxTableOk, OrphanedRow, OrphanTransfers, OrphanedKeys;
    var db1 := db.(txs := db.txs[tx := db.txs[tx].(status := ORPHANED_TX)]);
    OrphanedTxTable(db, tx);
    TxRowKeepsInv(db, db1);
    OrphanTransfersEffect(db1, TransfersOf(db1.transferOrder, tx));
    OrphanKeepsInv(db, tx);
    SameTransfers(db, db1, OrphanTx(db, tx).value, TransfersOf(db.transferOrder, tx));
  }

  lemma SameTransfers(a: Db, b: Db, after: Db, keys: seq<TransferKey>)
    requires a.transfers == b.transfers && OrphanedKeys(b, after, keys)
    ensures OrphanedKeys(a, after, keys)
  {
    forall k | k in a.transfers
      ensures OrphanedRow(a, after, k, k in keys)
    {
      assert OrphanedRow(b, after, k, k in keys);
    }
  }

  predicate Belongs(k: TransferKey, txs: seq<TxKey>) {
    TxKey(k.network, k.txHash) in txs
  }

  /** What the whole loop over orphaned transactions leaves behind. */
  ghost predicate ReorgEffect(a: Db, b: Db, keys: seq<TxKey>) {
    && b.book == a.book && b.transferOrder == a.transferOrder
    && (forall k :: k in b.txs <==> k in a.txs)
    && (forall k :: k in a.txs ==> b.txs[k] == if k in keys then a.txs[k].(status := ORPHANED_TX) else a.txs[k])
    && (forall k :: k in b.transfers <==> k in a.transfers)
    && (forall k :: k in a.transfers ==> OrphanedRow(a, b, k, Belongs(k, keys)))
  }

  lemma {:induction false} OrphanAllEffect(db: Db, keys: seq<TxKey>)
    requires Inv(db) && forall k :: k in keys ==> k in db.txs
    ensures var r := OrphanAll(db, keys);
            r.completed && Inv(r.db) && Extends(db, r.db) && ReorgEffect(db, r.db, keys)
    decreases |keys|
  {
    hide Inv, Extends, OrphanedKeys, ReorgEffect;
    if keys == [] {
      ExtendsReflexive(db);
      ReorgNothing(db);
    } else {
      var tx := keys[0];
      assert tx in keys;
      OrphanTxEffect(db, tx);
      OrphanedTxTable(db, tx);
      var db1 := OrphanTx(db, tx).value;
      OrphanAllEffect(db1, keys[1..]);
      var db' := OrphanAll(db, keys).db;
      ExtendsTransitive(db, db1, db');
      ReorgCompose(db, db1, db', tx, keys);
    }
  }

  lemma ReorgNothing(db: Db)
    ensures ReorgEffect(db, db, [])
  {
  }

  lemma ReorgCompose(db: Db, db1: Db, db': Db, tx: TxKey, keys: seq<TxKey>)
    requires TablesOk(db) && keys != [] && keys[0] == tx && tx in db.txs && Extends(db1, db')
    requires db1.book == db.book && db1.transferOrder == db.transferOrder && db1.txs == db.txs[tx := db.txs[tx].(status := ORPHANED_TX)]
    requires OrphanedKeys(db, db1, TransfersOf(db.transferOrder, tx)) && ReorgEffect(db1, db', keys[1..])
    ensures ReorgEffect(db, db', keys)
  {
    hide Extends, TablesOk;
    assert forall k :: k in keys <==> k == tx || k in keys[1..];
    forall k | k in db.transfers
      ensures OrphanedRow(db, db', k, Belongs(k, keys))
    {
      ReorgRowStep(db, db1, db', tx, keys, k);
    }
  }

  lemma ReorgRowStep(db: Db, db1: Db, db': Db, tx: TxKey, keys: seq<TxKey>, k: TransferKey)
    requires TablesOk(db) && k in db.transfers && keys != [] && keys[0] == tx
    requires OrphanedKeys(db, db1, TransfersOf(db.transferOrder, tx)) && Extends(db1, db')
    requires ReorgEffect(db1, db', keys[1..])
    ensures k in db'.transfers && OrphanedRow(db, db', k, Belongs(k, keys))
  {
    var hit := k in TransfersOf(db.transferOrder, tx);
    assert hit <==> TxKey(k.network, k.txHash) == tx;
    assert OrphanedRow(db, db1, k, hit);
    assert OrphanedRow(db1, db', k, Belongs(k, keys[1..]));
    assert Belongs(k, keys) <==> hit || Belongs(k, keys[1..]);
    if hit && db.transfers[k].creditedAt.Some? {
      FrozenStays(db1, db', db.transfers[k].invoiceId);
    }
  }

  /**
   * In every reached state `handleReorg` runs to completion, leaves the ledger untouched and no
   * MINED or CONFIRMED transaction at or above the block, orphans their uncredited transfers and
   * freezes the invoice of every credited one.
   */
  lemma ReorgHandled(steps: seq<Step>, n: Network, fromBlock: nat)
    ensures var db := Reached(steps);
            var r := HandleReorg(db, n, fromBlock);
            && r.completed && Inv(r.db)
            && r.db.book == db.book
            && (forall k :: k in r.db.txs && k.network == n ==> !InReorg(r.db.txs[k], fromBlock))
            && (forall k :: k in db.transfers ==>
                  k in r.db.transfers && TxKey(k.network, k.txHash) in db.txs &&
                  OrphanedRow(db, r.db, k, k.network == n && InReorg(db.txs[TxKey(k.network, k.txHash)], fromBlock)))
  {
    hide Inv, HandleReorg, OrphanedRow;
    ReachedInv(steps);
    ReorgOn(Reached(steps), n, fromBlock);
  }

  lemma ReorgOn(db: Db, n: Network, fromBlock: nat)
    requires Inv(db)
    ensures var r := HandleReorg(db, n, fromBlock);
            && r.completed && Inv(r.db)
            && r.db.book == db.book
            && (forall k :: k in r.db.txs && k.network == n ==> !InReorg(r.db.txs[k], fromBlock))
            && (forall k :: k in db.transfers ==>
                  k in r.db.transfers && TxKey(k.network, k.txHash) in db.txs &&
                  OrphanedRow(db, r.db, k, k.network == n && InReorg(db.txs[TxKey(k.network, k.txHash)], fromBlock)))
  {
    hide Extends, Balanced, WellFormed, SidesOk, KeySidesOk, CreditsOk, SettledExcept, DiscrepanciesOk, EventsOk, TablesOk;
    var keys := ReorgKeys(db.txOrder, db.txs, n, fromBlock);
    OrphanAllEffect(db, keys);
    var r := HandleReorg(db, n, fromBlock);
    forall k | k in r.db.txs && k.network == n
      ensures !InReorg(r.db.txs[k], fromBlock)
    {
      assert k in db.txOrder;
    }
    forall k | k in db.transfers
      ensures k in r.db.transfers && TxKey(k.network, k.txHash) in db.txs
      ensures OrphanedRow(db, r.db, k, k.network == n && InReorg(db.txs[TxKey(k.network, k.txHash)], fromBlock))
    {
      assert TxKey(k.network, k.txHash) in db.txOrder;
      assert OrphanedRow(db, r.db, k, Belongs(k, keys));
    }
  }

  /** No automated step takes an invoice out of reconciliation. */
  lemma ReconciliationIsSticky(before: seq<Step>, after: seq<Step>, id: InvoiceId)
    requires Frozen(Reached(before), Some(id))
    ensures Frozen(Reached(before + after), Some(id))
    ensures Reached(before + after).invoices[id] == Reached(before).invoices[id]
  {
    CreditsAreFinal(before, after);
    assert InvoiceExtends(Reached(before).invoices[id], Reached(before + after).invoices[id]);
  }

  // ---------------------------------------------------------------- the service's loops are runs

  lemma RunCons(db: Db, s: Step, rest: seq<Step>)
    ensures Run(db, [s] + rest) == Run(Next(db, s), rest)
  {
    assert [s][..0] == [];
    assert Run(db, [s]) == Next(Run(db, []), s);
    RunSplits(db, [s], rest);
  }

  /** A confirmation pass, completed or stopped by a throw, is a run of confirmation steps. */
  lemma {:induction false} ConfirmationPassIsRun(db: Db, pending: seq<Pending>, answers: seq<nat>, now: Time) returns (steps: seq<Step>)
    requires |answers| == |pending|
    ensures ConfirmAll(db, pending, answers, now).db == Run(db, steps)
    decreases |pending|
  {
    hide ConfirmTransfer;
    steps := [];
    if pending != [] {
      var s := Confirm(pending[0].key, pending[0].invoiceId, answers[0], now);
      if Attempt(db, s).Commit? {
        var rest := ConfirmationPassIsRun(Next(db, s), pending[1..], answers[1..], now);
        RunCons(db, s, rest);
        steps := [s] + rest;
      }
    }
  }

  lemma {:induction false} ReorgPassIsRun(db: Db, keys: seq<TxKey>) returns (steps: seq<Step>)
    ensures OrphanAll(db, keys).db == Run(db, steps)
    decreases |keys|
  {
    hide OrphanTx;
    steps := [];
    if keys != [] {
      var s := Orphan(keys[0]);
      if Attempt(db, s).Commit? {
        var rest := ReorgPassIsRun(Next(db, s), keys[1..]);
        RunCons(db, s, rest);
        steps := [s] + rest;
      }
    }
  }

  /** So every state the service's methods leave behind is a reached state, and all results apply to it. */
  lemma ServiceStaysReached(steps: seq<Step>, n: Network, answers: seq<nat>, now: Time, fromBlock: nat)
    requires |answers| == |PendingRows(Reached(steps).transferOrder, Reached(steps).transfers, n)|
    ensures var db := Reached(steps);
            var confirmed := ConfirmAll(db, PendingRows(db.transferOrder, db.transfers, n), answers, now).db;
            exists more :: confirmed == Reached(steps + more)
    ensures exists more :: HandleReorg(Reached(steps), n, fromBlock).db == Reached(steps + more)
  {
    hide ConfirmAll, OrphanAll;
    var db := Reached(steps);
    var more := ConfirmationPassIsRun(db, PendingRows(db.transferOrder, db.transfers, n), answers, now);
    RunSplits(EMPTY_DB, steps, more);
    var orphans := ReorgPassIsRun(db, ReorgKeys(db.txOrder, db.txs, n, fromBlock));
    RunSplits(EMPTY_DB, steps, orphans);
  }

  // ---------------------------------------------------------------- discrepancies

  /** In every reached state an invoice has one recorded discrepancy if it is frozen, and none otherwise. */
  lemma OneDiscrepancyPerInvoice(steps: seq<Step>, id: InvoiceId)
    ensures DiscrepancyCount(Reached(steps).discrepancies, id) == if Frozen(Reached(steps), Some(id)) then 1 else 0
  {
    ReachedInv(steps);
  }

  /** Orphaning a credit records a discrepancy if and only if its invoice is still PAID. */
  lemma RecordedIffPaid(db: Db, key: TransferKey)
    requires Inv(db) && key in db.transfers && db.transfers[key].creditedAt.Some?
    ensures db.transfers[key].invoiceId.Some? && db.transfers[key].invoiceId.value in db.invoices && OrphanTransfer(db, key).Commit?
    ensures var id := db.transfers[key].invoiceId.value;
            OrphanTransfer(db, key).value.discrepancies ==
              if db.invoices[id].status == PAID then db.discrepancies + [Discrepancy(key, id)] else db.discrepancies
  {
    CreditedInvoiceIsSettled(db, key);
    FlagCases(db, key, db.transfers[key].invoiceId.value);
    hide Inv, FindRule;
  }

  /** Of two orphaned credits of one PAID invoice only the first is recorded. */
  lemma SecondCreditUnrecorded(db: Db, a: TransferKey, b: TransferKey, id: InvoiceId)
    requires Inv(db) && a in db.transfers && b in db.transfers && id in db.invoices && db.invoices[id].status == PAID
    requires db.transfers[a].creditedAt.Some? && db.transfers[b].creditedAt.Some?
    requires db.transfers[a].invoiceId == Some(id) && db.transfers[b].invoiceId == Some(id)
    ensures OrphanTransfers(db, [a, b]).Commit?
    ensures OrphanTransfers(db, [a, b]).value.discrepancies == db.discrepancies + [Discrepancy(a, id)]
  {
    hide Inv, Extends;
    RecordedIffPaid(db, a);
    OrphanTransferEffect(db, a);
    OrphanTransferKeepsInv(db, a);
    var db1 := OrphanTransfer(db, a).value;
    assert db1.transfers == db.transfers && Frozen(db1, Some(id));
    RecordedIffPaid(db1, b);
    hide OrphanTransfer;
    assert [a, b][1..] == [b] && [b][1..] == [];
    assert OrphanTransfers(db1, [b]) == OrphanTransfers(OrphanTransfer(db1, b).value, []);
  }
}
