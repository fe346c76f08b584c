/** Every step of the payment pipeline keeps the invariant. */
module PipelineSteps {
  import opened Basics
  import opened Rounding
  import opened StateMachine
  import opened Ledger
  import opened Payments
  import opened Pipeline
  import opened PipelineInvariant

  lemma ExtendsReflexive(db: Db)
    ensures Extends(db, db)
  {
  }

  // ---------------------------------------------------------------- status moves

  lemma EventsAppend(events: seq<Event>, invoices: map<InvoiceId, Invoice>, e: Event, invoices': map<InvoiceId, Invoice>)
    requires EventsOk(events, invoices) && Continues(events, e)
    requires e.invoiceId in invoices' && invoices'[e.invoiceId].status == e.to
    requires forall id :: id != e.invoiceId ==>
               ((id in invoices <==> id in invoices') && (id in invoices ==> invoices'[id].status == invoices[id].status))
    ensures EventsOk(events + [e], invoices')
  {
    var es := events + [e];
    assert es[..|events|] == events;
    assert Trail(es);
    forall id: InvoiceId
      ensures LastStatus(es, id) == if id in invoices' then Some(invoices'[id].status) else None
    {
      assert LastStatus(events, id) == if id in invoices then Some(invoices[id].status) else None;
    }
  }

  lemma MoveEvents(db: Db, id: InvoiceId, to: Status, actor: Actor)
    requires EventsOk(db.events, db.invoices) && id in db.invoices
    requires IsActorAllowed(db.invoices[id].status, to, actor)
    ensures var db' := Move(db, id, to, actor); EventsOk(db'.events, db'.invoices)
  {
    var e := Event(id, Some(db.invoices[id].status), to, EventCount(db.events, id) + 1, actor);
    assert LastStatus(db.events, id) == Some(db.invoices[id].status);
    assert Continues(db.events, e);
    EventsAppend(db.events, db.invoices, e, Move(db, id, to, actor).invoices);
  }

  lemma MoveDiscrepancies(db: Db, id: InvoiceId, to: Status, actor: Actor)
    requires DiscrepanciesOk(db.discrepancies, db.invoices) && id in db.invoices
    requires db.invoices[id].status != RECONCILIATION_REQUIRED && to != RECONCILIATION_REQUIRED
    ensures var db' := Move(db, id, to, actor); DiscrepanciesOk(db'.discrepancies, db'.invoices)
  {
  }

  /** The move keeps the core whenever the edge is the actor's and reconciliation is not involved. */
  lemma MoveKeepsCore(db: Db, id: InvoiceId, to: Status, actor: Actor)
    requires Core(db) && id in db.invoices
    requires IsActorAllowed(db.invoices[id].status, to, actor)
    requires db.invoices[id].status != RECONCILIATION_REQUIRED && to != RECONCILIATION_REQUIRED && to in AUTOMATED
    ensures Core(Move(db, id, to, actor))
  {
    hide Balanced, WellFormed, SidesOk, KeySidesOk, CreditsOk, TxTableOk, EventsOk, TablesOk, FindRule, DiscrepanciesOk;
    MoveEvents(db, id, to, actor);
    MoveDiscrepancies(db, id, to, actor);
    CoreFromParts(db, Move(db, id, to, actor));
  }

  /** The parts of the core that do not read invoices, events or discrepancies carry over. */
  lemma CoreFromParts(db: Db, db': Db)
    requires Core(db)
    requires db'.(invoices := db.invoices, events := db.events, discrepancies := db.discrepancies) == db
    requires forall id :: id in db.invoices ==> id in db'.invoices
    requires InvoicesOk(db'.invoices) && EventsOk(db'.events, db'.invoices) && DiscrepanciesOk(db'.discrepancies, db'.invoices)
    ensures Core(db')
  {
  }

  lemma MoveKeepsSettled(db: Db, id: InvoiceId, to: Status, actor: Actor, except: Option<InvoiceId>)
    requires id in db.invoices && SettledExcept(db, except)
    requires except == Some(id) || (Settled(db.invoices[id].status) == Settled(to))
    ensures SettledExcept(Move(db, id, to, actor), except)
  {
    var db' := Move(db, id, to, actor);
    forall i | i in db'.invoices && except != Some(i)
      ensures InvoiceSettled(db', i)
    {
      assert InvoiceSettled(db, i);
    }
  }

  lemma MoveExtends(db: Db, id: InvoiceId, to: Status, actor: Actor)
    requires id in db.invoices && !Settled(db.invoices[id].status)
    ensures Extends(db, Move(db, id, to, actor))
  {
  }

  /** An automated, unsettling-neutral move keeps everything. */
  lemma MoveKeepsInv(db: Db, id: InvoiceId, to: Status, actor: Actor)
    requires Inv(db) && id in db.invoices
    requires IsActorAllowed(db.invoices[id].status, to, actor)
    requires !Settled(db.invoices[id].status) && !Settled(to) && to in AUTOMATED
    ensures Inv(Move(db, id, to, actor)) && Extends(db, Move(db, id, to, actor))
  {
    hide Extends;
    MoveKeepsCore(db, id, to, actor);
    MoveKeepsSettled(db, id, to, actor, None);
    MoveExtends(db, id, to, actor);
  }

  /** The monitor's guarded moves never leave a settled status. */
  lemma GuardedKeepsInv(db: Db, id: InvoiceId, to: Status)
    requires Inv(db) && id in db.invoices && Guarded(db, id, to).Commit?
    requires to in {DETECTED, PENDING, CONFIRMING, LATE_PAYMENT_REVIEW}
    ensures Inv(Guarded(db, id, to).value) && Extends(db, Guarded(db, id, to).value)
  {
    hide Inv, Extends;
    ExtendsReflexive(db);
    if CanTransition(db.invoices[id].status, to) {
      MoveKeepsInv(db, id, to, MONITOR);
    }
  }

  // ---------------------------------------------------------------- writing transfer rows

  /** Replacing or adding an uncredited row by an uncredited row changes no total. */
  lemma PutKeepsSums(db: Db, key: TransferKey, row: Transfer, id: InvoiceId)
    requires TablesOk(db) && row.matchStatus != CREDITED
    requires key in db.transfers ==> db.transfers[key].matchStatus != CREDITED
    ensures var db' := PutTransfer(db, key, row);
            CreditedSum(db'.transferOrder, db'.transfers, id) == CreditedSum(db.transferOrder, db.transfers, id)
  {
    var db' := PutTransfer(db, key, row);
    CreditedSumAgrees(db.transferOrder, db.transfers, db'.transfers, id);
    if key !in db.transfers {
      CreditedSumAppend(db.transferOrder, key, db'.transfers, id);
    }
  }

  lemma PutTables(db: Db, key: TransferKey, row: Transfer)
    requires TablesOk(db) && row.amount > 0
    requires row.invoiceId.Some? ==> row.invoiceId.value in db.invoices
    ensures TablesOk(PutTransfer(db, key, row))
  {
    var db' := PutTransfer(db, key, row);
    if key !in db.transfers {
      assert key !in db.transferOrder;
    }
    assert Distinct(db'.transferOrder);
  }

  lemma KeySidesKept(m: map<TransferKey, Transfer>, m': map<TransferKey, Transfer>, entries: seq<Entry>)
    requires KeySidesOk(m, entries)
    requires forall k :: (k in m && m[k].matchStatus == CREDITED) <==> (k in m' && m'[k].matchStatus == CREDITED)
    requires forall k :: k in m && m[k].matchStatus == CREDITED ==> m'[k].amount == m[k].amount
    ensures KeySidesOk(m', entries)
  {
    forall k: TransferKey, side: Direction
      ensures SideOfKey(entries, k, side) == if k in m' && m'[k].matchStatus == CREDITED then m'[k].amount else 0
    {
      assert SideOfKey(entries, k, side) == if k in m && m[k].matchStatus == CREDITED then m[k].amount else 0;
    }
  }

  lemma PutSides(db: Db, key: TransferKey, row: Transfer)
    requires TablesOk(db) && SidesOk(db.transferOrder, db.transfers, db.book.entries) && KeySidesOk(db.transfers, db.book.entries)
    requires row.matchStatus != CREDITED
    requires key in db.transfers ==> db.transfers[key].matchStatus != CREDITED
    ensures var db' := PutTransfer(db, key, row);
            SidesOk(db'.transferOrder, db'.transfers, db'.book.entries) && KeySidesOk(db'.transfers, db'.book.entries)
  {
    var db' := PutTransfer(db, key, row);
    forall id: InvoiceId, side: Direction
      ensures SideOf(db'.book.entries, id, side) == CreditedSum(db'.transferOrder, db'.transfers, id)
    {
      PutKeepsSums(db, key, row, id);
      assert SideOf(db.book.entries, id, side) == CreditedSum(db.transferOrder, db.transfers, id);
    }
    KeySidesKept(db.transfers, db'.transfers, db.book.entries);
  }

  lemma PutCredits(m: map<TransferKey, Transfer>, ltxs: seq<LedgerTx>, key: TransferKey, row: Transfer)
    requires CreditsOk(m, ltxs) && row.matchStatus != CREDITED && row.creditedAt.None?
    requires key in m ==> m[key].matchStatus != CREDITED
    ensures CreditsOk(m[key := row], ltxs)
  {
    assert !Posted(ltxs, key);
  }

  lemma PutKeepsCore(db: Db, key: TransferKey, row: Transfer)
    requires Core(db) && row.matchStatus != CREDITED && row.creditedAt.None? && row.amount > 0
    requires row.invoiceId.Some? ==> row.invoiceId.value in db.invoices
    requires key in db.transfers ==> db.transfers[key].matchStatus != CREDITED
    requires TxKey(key.network, key.txHash) in db.txs
    ensures Core(PutTransfer(db, key, row))
  {
    PutTables(db, key, row);
    PutSides(db, key, row);
    PutCredits(db.transfers, db.book.txs, key, row);
    var db' := PutTransfer(db, key, row);
    assert db'.events == db.events && db'.discrepancies == db.discrepancies && db'.invoices == db.invoices;
  }

  lemma PutExtends(db: Db, key: TransferKey, row: Transfer)
    requires key in db.transfers ==> db.transfers[key].matchStatus != CREDITED
    ensures Extends(db, PutTransfer(db, key, row))
  {
  }

  lemma PutKeepsSettled(db: Db, key: TransferKey, row: Transfer)
    requires TablesOk(db) && SettledExcept(db, None) && row.matchStatus != CREDITED
    requires key in db.transfers ==> db.transfers[key].matchStatus != CREDITED
    ensures SettledExcept(PutTransfer(db, key, row), None)
  {
    var db' := PutTransfer(db, key, row);
    forall i | i in db'.invoices
      ensures InvoiceSettled(db', i)
    {
      assert InvoiceSettled(db, i);
      PutKeepsSums(db, key, row, i);
    }
  }

  lemma PutKeepsInv(db: Db, key: TransferKey, row: Transfer)
    requires Inv(db) && row.matchStatus != CREDITED && row.creditedAt.None? && row.amount > 0
    requires row.invoiceId.Some? ==> row.invoiceId.value in db.invoices
    requires key in db.transfers ==> db.transfers[key].matchStatus != CREDITED
    requires TxKey(key.network, key.txHash) in db.txs
    ensures Inv(PutTransfer(db, key, row)) && Extends(db, PutTransfer(db, key, row))
  {
    hide Extends, TablesOk, CreditsOk, SidesOk, KeySidesOk, EventsOk, DiscrepanciesOk, Balanced, WellFormed;
    PutKeepsCore(db, key, row);
    PutKeepsSettled(db, key, row);
    PutExtends(db, key, row);
  }

  // ---------------------------------------------------------------- detection

  lemma UncreditedStatus(db: Db, key: TransferKey)
    requires Inv(db) && key in db.transfers
    ensures db.transfers[key].creditedAt.None? <==> db.transfers[key].matchStatus != CREDITED
  {
  }

  lemma RecordTransferKeepsInv(db: Db, cfg: Config, n: Network, tx: ChainTx, t: ParsedTransfer, now: Time)
    requires Inv(db) && RecordTransfer(db, cfg, n, tx, t, now).Commit? && TxKey(n, tx.hash) in db.txs
    ensures var db' := RecordTransfer(db, cfg, n, tx, t, now).value; Inv(db') && Extends(db, db') && db'.txs == db.txs
  {
    hide Inv, Extends, FindRule;
    ExtendsReflexive(db);
    var key := TransferKey(n, tx.hash, t.index);
    if key in db.transfers { UncreditedStatus(db, key); }
    if key in db.transfers && db.transfers[key].creditedAt.Some? {
    } else {
      var row := ClassifiedRow(db, cfg, n, tx, t, now);
      PutKeepsInv(db, key, row);
      var db1 := PutTransfer(db, key, row);
      if row.invoiceId.Some? && row.matchStatus == PENDING_CONFIRMATION {
        GuardedKeepsInv(db1, row.invoiceId.value, DETECTED);
        ExtendsTransitive(db, db1, Guarded(db1, row.invoiceId.value, DETECTED).value);
      } else if row.invoiceId.Some? && row.matchStatus == LATE_REVIEW {
        GuardedKeepsInv(db1, row.invoiceId.value, LATE_PAYMENT_REVIEW);
        ExtendsTransitive(db, db1, Guarded(db1, row.invoiceId.value, LATE_PAYMENT_REVIEW).value);
      }
    }
  }

  lemma {:induction false} RecordTransfersKeepsInv(db: Db, cfg: Config, n: Network, tx: ChainTx, ts: seq<ParsedTransfer>, now: Time)
    requires Inv(db) && RecordTransfers(db, cfg, n, tx, ts, now).Commit? && TxKey(n, tx.hash) in db.txs
    ensures var db' := RecordTransfers(db, cfg, n, tx, ts, now).value; Inv(db') && Extends(db, db')
    decreases |ts|
  {
    hide Inv, Extends;
    ExtendsReflexive(db);
    if ts != [] {
      RecordTransferKeepsInv(db, cfg, n, tx, ts[0], now);
      var db1 := RecordTransfer(db, cfg, n, tx, ts[0], now).value;
      RecordTransfersKeepsInv(db1, cfg, n, tx, ts[1..], now);
      ExtendsTransitive(db, db1, RecordTransfers(db, cfg, n, tx, ts, now).value);
    }
  }

  /** Writing a chain transaction row touches nothing the invariant reads besides its own table. */
  lemma TxRowKeepsInv(db: Db, db': Db)
    requires Inv(db) && TxTableOk(db') && db'.(txs := db.txs, txOrder := db.txOrder) == db
    ensures Inv(db') && Extends(db, db')
  {
    forall i | i in db'.invoices
      ensures InvoiceSettled(db', i)
    {
      assert InvoiceSettled(db, i);
    }
  }

  lemma RecordedTxTable(db: Db, n: Network, tx: ChainTx)
    requires Inv(db)
    ensures TxTableOk(RecordChainTransaction(db, n, tx))
  {
  }

  lemma ProcessKeepsInv(db: Db, cfg: Config, n: Network, tx: ChainTx, ts: seq<ParsedTransfer>, now: Time)
    requires Inv(db) && ProcessTransaction(db, cfg, n, tx, ts, now).Commit?
    ensures var db' := ProcessTransaction(db, cfg, n, tx, ts, now).value; Inv(db') && Extends(db, db')
  {
    hide Inv, Extends;
    ExtendsReflexive(db);
    if ts != [] {
      var db1 := RecordChainTransaction(db, n, tx);
      RecordedTxTable(db, n, tx);
      TxRowKeepsInv(db, db1);
      RecordTransfersKeepsInv(db1, cfg, n, tx, ts, now);
      ExtendsTransitive(db, db1, ProcessTransaction(db, cfg, n, tx, ts, now).value);
    }
  }

  // ---------------------------------------------------------------- crediting

  /** Within the credit loop of `id`: posting one pending transfer adds its amount to the invoice's credits. */
  lemma CreditOneSums(db: Db, id: InvoiceId, feeBps: int, key: TransferKey, now: Time, i: InvoiceId)
    requires TablesOk(db) && id in db.invoices && key in db.transfers
    requires db.transfers[key].matchStatus != CREDITED && db.transfers[key].invoiceId == Some(id)
    requires !Posted(db.book.txs, key) && CreditOne(db, id, feeBps, key, now).Commit?
    ensures var db' := CreditOne(db, id, feeBps, key, now).value;
            CreditedSum(db'.transferOrder, db'.transfers, i) ==
            CreditedSum(db.transferOrder, db.transfers, i) + if i == id then db.transfers[key].amount else 0
  {
    var row := db.transfers[key].(matchStatus := CREDITED, creditedAt := Some(now));
    CreditedSumUpdate(db.transferOrder, db.transfers, key, row, i);
  }

  lemma CreditOneCredits(transfers: map<TransferKey, Transfer>, ltxs: seq<LedgerTx>, key: TransferKey, id: InvoiceId, now: Time)
    requires CreditsOk(transfers, ltxs) && key in transfers
    requires transfers[key].matchStatus != CREDITED && transfers[key].invoiceId == Some(id)
    ensures CreditsOk(transfers[key := transfers[key].(matchStatus := CREDITED, creditedAt := Some(now))], ltxs + [LedgerTx(key, id)])
  {
    var l' := ltxs + [LedgerTx(key, id)];
    assert !Posted(ltxs, key);
    forall k
      ensures Posted(l', k) <==> Posted(ltxs, k) || k == key
    {
      if Posted(ltxs, k) {
        var i :| 0 <= i < |ltxs| && ltxs[i].key == k;
        assert l'[i].key == k;
      }
      assert l'[|ltxs|].key == key;
    }
  }

  lemma CreditOneSides(db: Db, id: InvoiceId, feeBps: int, key: TransferKey, now: Time)
    requires TablesOk(db) && SidesOk(db.transferOrder, db.transfers, db.book.entries) && KeySidesOk(db.transfers, db.book.entries)
    requires id in db.invoices && key in db.transfers && !Posted(db.book.txs, key)
    requires db.transfers[key].matchStatus != CREDITED && db.transfers[key].invoiceId == Some(id)
    requires CreditOne(db, id, feeBps, key, now).Commit?
    ensures var db' := CreditOne(db, id, feeBps, key, now).value;
            SidesOk(db'.transferOrder, db'.transfers, db'.book.entries) && KeySidesOk(db'.transfers, db'.book.entries)
  {
    var db' := CreditOne(db, id, feeBps, key, now).value;
    var p := CreditFor(db.invoices[id], id, feeBps, key, db.transfers[key].amount);
    assert db'.book.entries == db.book.entries + Legs(p, db.book.nextSequence);
    forall i: InvoiceId, side: Direction
      ensures SideOf(db'.book.entries, i, side) == CreditedSum(db'.transferOrder, db'.transfers, i)
    {
      PostingBalanced(db.book.entries, p, db.book.nextSequence, i, key, side);
      CreditOneSums(db, id, feeBps, key, now, i);
      assert SideOf(db.book.entries, i, side) == CreditedSum(db.transferOrder, db.transfers, i);
    }
    forall k: TransferKey, side: Direction
      ensures SideOfKey(db'.book.entries, k, side) ==
              if k in db'.transfers && db'.transfers[k].matchStatus == CREDITED then db'.transfers[k].amount else 0
    {
      PostingBalanced(db.book.entries, p, db.book.nextSequence, id, k, side);
      assert SideOfKey(db.book.entries, k, side) ==
             if k in db.transfers && db.transfers[k].matchStatus == CREDITED then db.transfers[k].amount else 0;
    }
  }

  lemma CreditOneKeepsCore(db: Db, id: InvoiceId, feeBps: int, key: TransferKey, now: Time)
    requires Core(db) && id in db.invoices && key in db.transfers
    requires db.transfers[key].matchStatus != CREDITED && db.transfers[key].invoiceId == Some(id)
    requires CreditOne(db, id, feeBps, key, now).Commit?
    ensures Core(CreditOne(db, id, feeBps, key, now).value)
  {
    var db' := CreditOne(db, id, feeBps, key, now).value;
    var p := CreditFor(db.invoices[id], id, feeBps, key, db.transfers[key].amount);
    assert !Posted(db.book.txs, key);
    assert db'.book == PostCredit(db.book, p).value.book;
    PostCreditKeepsBalance(db.book, p);
    CreditOneCredits(db.transfers, db.book.txs, key, id, now);
    assert db'.book.entries == db.book.entries + Legs(p, db.book.nextSequence);
    assert TablesOk(db');
    CreditOneSides(db, id, feeBps, key, now);
  }

  lemma CreditOneExtends(db: Db, id: InvoiceId, feeBps: int, key: TransferKey, now: Time)
    requires id in db.invoices && key in db.transfers && db.transfers[key].matchStatus != CREDITED
    requires CreditOne(db, id, feeBps, key, now).Commit?
    ensures Extends(db, CreditOne(db, id, feeBps, key, now).value)
  {
  }

  lemma CreditOneKeepsSettled(db: Db, id: InvoiceId, feeBps: int, key: TransferKey, now: Time)
    requires Core(db) && SettledExcept(db, Some(id)) && id in db.invoices && key in db.transfers
    requires db.transfers[key].matchStatus != CREDITED && db.transfers[key].invoiceId == Some(id)
    requires CreditOne(db, id, feeBps, key, now).Commit?
    ensures SettledExcept(CreditOne(db, id, feeBps, key, now).value, Some(id))
  {
    var db' := CreditOne(db, id, feeBps, key, now).value;
    assert !Posted(db.book.txs, key);
    forall i | i in db'.invoices && i != id
      ensures InvoiceSettled(db', i)
    {
      assert InvoiceSettled(db, i);
      CreditOneSums(db, id, feeBps, key, now, i);
    }
  }

  /** Keys that the credit loop may still process. */
  ghost predicate Creditable(db: Db, id: InvoiceId, keys: seq<TransferKey>) {
    Distinct(keys) && forall k :: k in keys ==> k in db.transfers && db.transfers[k].matchStatus != CREDITED && db.transfers[k].invoiceId == Some(id)
  }

  lemma {:induction false} SumFromFront(keys: seq<TransferKey>, m: map<TransferKey, Transfer>)
    requires keys != [] && forall k :: k in keys ==> k in m
    ensures SumAmounts(keys, m) == m[keys[0]].amount + SumAmounts(keys[1..], m)
  {
    var init, last := keys[..|keys| - 1], keys[|keys| - 1];
    if init != [] {
      SumFromFront(init, m);
      assert keys[1..][..|keys[1..]| - 1] == init[1..];
      assert init[0] == keys[0];
    } else {
      assert keys[1..] == [];
    }
  }

  lemma {:induction false} SumAgrees(keys: seq<TransferKey>, m: map<TransferKey, Transfer>, m': map<TransferKey, Transfer>)
    requires forall k :: k in keys ==> k in m && k in m' && m[k].amount == m'[k].amount
    ensures SumAmounts(keys, m) == SumAmounts(keys, m')
  {
    if keys != [] {
      assert keys[|keys| - 1] in keys;
      SumAgrees(keys[..|keys| - 1], m, m');
    }
  }

  /** The credit loop keeps the core and adds exactly the sum of the listed transfers to the invoice. */
  lemma {:induction false} CreditAllKeeps(db: Db, id: InvoiceId, feeBps: int, keys: seq<TransferKey>, now: Time)
    requires Core(db) && SettledExcept(db, Some(id)) && id in db.invoices && Creditable(db, id, keys)
    requires CreditAll(db, id, feeBps, keys, now).Commit?
    ensures var db' := CreditAll(db, id, feeBps, keys, now).value;
            && Core(db') && SettledExcept(db', Some(id)) && Extends(db, db') && db'.invoices == db.invoices
            && CreditedSum(db'.transferOrder, db'.transfers, id) ==
               CreditedSum(db.transferOrder, db.transfers, id) + SumAmounts(keys, db.transfers)
    decreases |keys|
  {
    if keys != [] {
      var k := keys[0];
      assert k in keys;
      var db1 := CreditOne(db, id, feeBps, k, now).value;
      CreditOneKeepsCore(db, id, feeBps, k, now);
      CreditOneExtends(db, id, feeBps, k, now);
      CreditOneKeepsSettled(db, id, feeBps, k, now);
      assert !Posted(db.book.txs, k);
      CreditOneSums(db, id, feeBps, k, now, id);
      CreditableTail(db, id, feeBps, keys, now);
      CreditAllKeeps(db1, id, feeBps, keys[1..], now);
      ExtendsTransitive(db, db1, CreditAll(db, id, feeBps, keys, now).value);
      SumFromFront(keys, db.transfers);
      SumAgrees(keys[1..], db.transfers, db1.transfers);
    }
  }

  lemma CreditableTail(db: Db, id: InvoiceId, feeBps: int, keys: seq<TransferKey>, now: Time)
    requires id in db.invoices && Creditable(db, id, keys) && keys != []
    requires keys[0] in db.transfers && CreditOne(db, id, feeBps, keys[0], now).Commit?
    ensures Creditable(CreditOne(db, id, feeBps, keys[0], now).value, id, keys[1..])
    ensures forall k :: k in keys[1..] ==> k in db.transfers && CreditOne(db, id, feeBps, keys[0], now).value.transfers[k] == db.transfers[k]
  {
    forall k | k in keys[1..]
      ensures k in keys && k != keys[0]
    {
      var j :| 0 <= j < |keys[1..]| && keys[1..][j] == k;
      assert keys[j + 1] == k;
    }
  }

  // ---------------------------------------------------------------- settlement

  lemma {:induction false} EligibleDistinct(order: seq<TransferKey>, m: map<TransferKey, Transfer>, id: InvoiceId, required: int)
    requires Distinct(order)
    ensures Distinct(EligibleKeys(order, m, id, required))
  {
    if order != [] {
      var init, last := order[..|order| - 1], order[|order| - 1];
      EligibleDistinct(init, m, id, required);
      assert last !in init;
    }
  }

  /** An unsettled invoice has no credited transfer, so everything eligible is still creditable. */
  lemma EligibleIsCreditable(db: Db, id: InvoiceId)
    requires Inv(db) && id in db.invoices && !Settled(db.invoices[id].status)
    ensures Creditable(db, id, EligibleKeys(db.transferOrder, db.transfers, id, db.invoices[id].requiredConfirmations))
    ensures CreditedSum(db.transferOrder, db.transfers, id) == 0
  {
    EligibleDistinct(db.transferOrder, db.transfers, id, db.invoices[id].requiredConfirmations);
    assert InvoiceSettled(db, id);
    CreditedSumPositive(db.transferOrder, db.transfers, id);
  }

  lemma {:induction false} SumNonNegative(keys: seq<TransferKey>, m: map<TransferKey, Transfer>)
    requires forall k :: k in keys ==> k in m && m[k].amount > 0
    ensures SumAmounts(keys, m) >= 0 && (keys != [] ==> SumAmounts(keys, m) > 0)
  {
    if keys != [] {
      assert keys[|keys| - 1] in keys;
      SumNonNegative(keys[..|keys| - 1], m);
    }
  }

  lemma AmountsKeepCore(db: Db, id: InvoiceId, total: int)
    requires Core(db) && id in db.invoices
    ensures Core(db.(invoices := db.invoices[id := db.invoices[id].(receivedAmount := total, confirmedAmount := total)]))
  {
    hide Balanced, WellFormed, SidesOk, KeySidesOk, CreditsOk, TxTableOk, TablesOk, FindRule;
    var db' := db.(invoices := db.invoices[id := db.invoices[id].(receivedAmount := total, confirmedAmount := total)]);
    CoreFromParts(db, db');
  }

  lemma EvaluatedSettled(db: Db, id: InvoiceId, target: Status, total: int)
    requires SettledExcept(db, None) && id in db.invoices
    ensures SettledExcept(Evaluated(db, id, target, total), Some(id))
  {
    var db' := Evaluated(db, id, target, total);
    forall i | i in db'.invoices && i != id
      ensures InvoiceSettled(db', i)
    {
      assert InvoiceSettled(db, i);
    }
  }

  lemma EvaluatedCore(db: Db, id: InvoiceId, target: Status, total: int)
    requires Core(db) && id in db.invoices && IsActorAllowed(db.invoices[id].status, target, MONITOR)
    requires db.invoices[id].status != RECONCILIATION_REQUIRED && target in {PAID, UNDERPAID, OVERPAID}
    ensures Core(Evaluated(db, id, target, total))
  {
    MoveKeepsCore(db, id, target, MONITOR);
    AmountsKeepCore(Move(db, id, target, MONITOR), id, total);
  }

  lemma EvaluatedExtends(db: Db, id: InvoiceId, target: Status, total: int)
    requires id in db.invoices && !Settled(db.invoices[id].status)
    ensures Extends(db, Evaluated(db, id, target, total))
  {
  }

  lemma EvaluatedKeeps(db: Db, id: InvoiceId, target: Status, total: int)
    requires Core(db) && SettledExcept(db, None) && id in db.invoices
    requires IsActorAllowed(db.invoices[id].status, target, MONITOR) && target in {PAID, UNDERPAID, OVERPAID}
    requires !Settled(db.invoices[id].status)
    ensures var db' := Evaluated(db, id, target, total);
            Core(db') && SettledExcept(db', Some(id)) && Extends(db, db')
    ensures Evaluated(db, id, target, total).invoices[id].status == target
    ensures Evaluated(db, id, target, total).invoices[id].confirmedAmount == total
  {
    EvaluatedCore(db, id, target, total);
    EvaluatedSettled(db, id, target, total);
    EvaluatedExtends(db, id, target, total);
  }

  /** Crediting the eligible transfers of a PAID invoice restores its settlement. */
  lemma CreditAllSettles(db: Db, id: InvoiceId, feeBps: int, keys: seq<TransferKey>, now: Time)
    requires Core(db) && SettledExcept(db, Some(id)) && id in db.invoices && Creditable(db, id, keys)
    requires db.invoices[id].status == PAID && CreditedSum(db.transferOrder, db.transfers, id) == 0
    requires db.invoices[id].confirmedAmount == SumAmounts(keys, db.transfers) > 0
    requires CreditAll(db, id, feeBps, keys, now).Commit?
    ensures var db' := CreditAll(db, id, feeBps, keys, now).value; Inv(db') && Extends(db, db')
  {
    CreditAllKeeps(db, id, feeBps, keys, now);
    var db' := CreditAll(db, id, feeBps, keys, now).value;
    assert InvoiceSettled(db', id);
  }

  /** The monitor settles only from CONFIRMING, UNDERPAID or OVERPAID. */
  lemma MonitorSettlesFrom(from: Status, target: Status)
    requires target in {PAID, UNDERPAID, OVERPAID} && AssertTransition(from, target, MONITOR)
    ensures from in {CONFIRMING, UNDERPAID, OVERPAID} && !Settled(from)
  {
  }

  lemma SettleKeepsInv(db: Db, id: InvoiceId, m: Merchant, target: Status, keys: seq<TransferKey>, total: int, now: Time)
    requires Inv(db) && id in db.invoices && Creditable(db, id, keys) && total == SumAmounts(keys, db.transfers) > 0
    requires target in {PAID, UNDERPAID, OVERPAID} && AssertTransition(db.invoices[id].status, target, MONITOR)
    requires Settle(db, id, m, target, keys, total, now).Commit?
    ensures var db' := Settle(db, id, m, target, keys, total, now).value; Inv(db') && Extends(db, db')
  {
    hide Extends, FindRule, Balanced, WellFormed, SidesOk, KeySidesOk, CreditsOk, EventsOk, TxTableOk;
    MonitorSettlesFrom(db.invoices[id].status, target);
    assert InvoiceSettled(db, id);
    CreditedSumPositive(db.transferOrder, db.transfers, id);
    EvaluatedKeeps(db, id, target, total);
    var db1 := Evaluated(db, id, target, total);
    assert db1.transfers == db.transfers && db1.transferOrder == db.transferOrder;
    if !AutoAccept(m, target) {
      assert InvoiceSettled(db1, id);
    } else if target == PAID {
      CreditAllSettles(db1, id, m.feeBps, keys, now);
      ExtendsTransitive(db, db1, Settle(db, id, m, target, keys, total, now).value);
    } else {
      AcceptKeeps(db1, id);
      var db2 := Move(db1, id, PAID, MONITOR);
      CreditAllSettles(db2, id, m.feeBps, keys, now);
      ExtendsTransitive(db, db1, db2);
      ExtendsTransitive(db, db2, Settle(db, id, m, target, keys, total, now).value);
    }
  }

  lemma AcceptKeeps(db: Db, id: InvoiceId)
    requires Core(db) && SettledExcept(db, Some(id)) && id in db.invoices && AssertTransition(db.invoices[id].status, PAID, MONITOR)
    requires db.invoices[id].status != RECONCILIATION_REQUIRED && db.invoices[id].status != PAID
    ensures var db' := Move(db, id, PAID, MONITOR); Core(db') && SettledExcept(db', Some(id)) && Extends(db, db')
  {
    MoveKeepsCore(db, id, PAID, MONITOR);
    MoveKeepsSettled(db, id, PAID, MONITOR, Some(id));
    MoveExtends(db, id, PAID, MONITOR);
  }

  lemma FinalizeTargetKeepsInv(db: Db, id: InvoiceId, m: Merchant, target: Status, now: Time)
    requires Inv(db) && id in db.invoices
    requires target in {PAID, UNDERPAID, OVERPAID} && AssertTransition(db.invoices[id].status, target, MONITOR)
    requires var keys := EligibleKeys(db.transferOrder, db.transfers, id, db.invoices[id].requiredConfirmations);
             && SumAmounts(keys, db.transfers) != 0
             && Settle(db, id, m, target, keys, SumAmounts(keys, db.transfers), now).Commit?
    ensures var keys := EligibleKeys(db.transferOrder, db.transfers, id, db.invoices[id].requiredConfirmations);
            var db' := Settle(db, id, m, target, keys, SumAmounts(keys, db.transfers), now).value;
            Inv(db') && Extends(db, db')
  {
    hide Extends, FindRule;
    var keys := EligibleKeys(db.transferOrder, db.transfers, id, db.invoices[id].requiredConfirmations);
    MonitorSettlesFrom(db.invoices[id].status, target);
    EligibleIsCreditable(db, id);
    SumNonNegative(keys, db.transfers);
    SettleKeepsInv(db, id, m, target, keys, SumAmounts(keys, db.transfers), now);
  }

  lemma FinalizeKeepsInv(db: Db, id: InvoiceId, now: Time)
    requires Inv(db) && FinalizeInvoice(db, id, now).Commit?
    ensures var db' := FinalizeInvoice(db, id, now).value; Inv(db') && Extends(db, db')
  {
    hide Inv, Extends, FindRule;
    ExtendsReflexive(db);
    var db' := FinalizeInvoice(db, id, now).value;
    if db' != db {
      var inv := db.invoices[id];
      var keys := EligibleKeys(db.transferOrder, db.transfers, id, inv.requiredConfirmations);
      var total := SumAmounts(keys, db.transfers);
      var target := TargetFor(inv, total).value.value;
      assert db' == Settle(db, id, db.merchants[inv.merchantId], target, keys, total, now).value;
      FinalizeTargetKeepsInv(db, id, db.merchants[inv.merchantId], target, now);
    }
  }

  // ---------------------------------------------------------------- confirmation

  lemma SetConfirmationsSums(db: Db, key: TransferKey, confirmations: nat, id: InvoiceId)
    requires key in db.transfers
    ensures var db' := SetConfirmations(db, key, confirmations);
            CreditedSum(db'.transferOrder, db'.transfers, id) == CreditedSum(db.transferOrder, db.transfers, id)
  {
    CreditedSumAgrees(db.transferOrder, db.transfers, SetConfirmations(db, key, confirmations).transfers, id);
  }

  lemma SetConfirmationsKeepsCore(db: Db, key: TransferKey, confirmations: nat)
    requires Core(db) && key in db.transfers
    ensures Core(SetConfirmations(db, key, confirmations))
  {
    hide Balanced, WellFormed, EventsOk, DiscrepanciesOk, InvoicesOk;
    var db' := SetConfirmations(db, key, confirmations);
    assert TablesOk(db') by { hide CreditsOk, SidesOk, KeySidesOk, TxTableOk; }
    assert TxTableOk(db') by { hide CreditsOk, SidesOk, KeySidesOk, TablesOk; }
    assert CreditsOk(db'.transfers, db'.book.txs) by { hide SidesOk, KeySidesOk, TxTableOk, TablesOk; }
    hide CreditsOk, TxTableOk;
    forall id: InvoiceId, side: Direction
      ensures SideOf(db'.book.entries, id, side) == CreditedSum(db'.transferOrder, db'.transfers, id)
    {
      SetConfirmationsSums(db, key, confirmations, id);
      assert SideOf(db.book.entries, id, side) == CreditedSum(db.transferOrder, db.transfers, id);
    }
    KeySidesKept(db.transfers, db'.transfers, db.book.entries);
  }

  lemma SetConfirmationsKeepsInv(db: Db, key: TransferKey, confirmations: nat)
    requires Inv(db) && key in db.transfers
    ensures Inv(SetConfirmations(db, key, confirmations)) && Extends(db, SetConfirmations(db, key, confirmations))
  {
    hide Balanced, WellFormed, EventsOk, CreditsOk, SidesOk, KeySidesOk, DiscrepanciesOk, TablesOk, TxTableOk, InvoicesOk;
    var db' := SetConfirmations(db, key, confirmations);
    SetConfirmationsKeepsCore(db, key, confirmations);
    forall i | i in db'.invoices
      ensures InvoiceSettled(db', i)
    {
      assert InvoiceSettled(db, i);
      SetConfirmationsSums(db, key, confirmations, i);
    }
  }

  lemma ConfirmKeepsInv(db: Db, key: TransferKey, invoiceId: Option<InvoiceId>, confirmations: nat, now: Time)
    requires Inv(db) && ConfirmTransfer(db, key, invoiceId, confirmations, now).Commit?
    ensures var db' := ConfirmTransfer(db, key, invoiceId, confirmations, now).value; Inv(db') && Extends(db, db')
  {
    hide Inv, Extends, FindRule;
    ExtendsReflexive(db);
    var db1 := SetConfirmations(db, key, confirmations);
    SetConfirmationsKeepsInv(db, key, confirmations);
    if invoiceId.Some? {
      var id := invoiceId.value;
      var db2 := AdvanceConfirming(db1, id, confirmations).value;
      if confirmations >= 1 {
        GuardedKeepsInv(db1, id, CONFIRMING);
        ExtendsTransitive(db, db1, db2);
      }
      if IsConfirmed(confirmations, db1.invoices[id].requiredConfirmations) {
        FinalizeKeepsInv(db2, id, now);
        ExtendsTransitive(db, db2, FinalizeInvoice(db2, id, now).value);
      }
    }
  }

  // ---------------------------------------------------------------- reorganisation

  lemma DiscrepancyAppend(ds: seq<Discrepancy>, d: Discrepancy, id: InvoiceId)
    ensures DiscrepancyCount(ds + [d], id) == DiscrepancyCount(ds, id) + if d.invoiceId == id then 1 else 0
  {
    assert (ds + [d])[..|ds|] == ds;
  }

  /** A credited transfer's invoice is PAID or already under reconciliation. */
  lemma CreditedInvoiceIsSettled(db: Db, key: TransferKey)
    requires Inv(db) && key in db.transfers && db.transfers[key].creditedAt.Some?
    ensures db.transfers[key].invoiceId.Some? && db.transfers[key].invoiceId.value in db.invoices
    ensures Settled(db.invoices[db.transfers[key].invoiceId.value].status)
  {
    var ltxs := db.book.txs;
    assert Posted(ltxs, key);
    var i :| 0 <= i < |ltxs| && ltxs[i].key == key;
    var id := db.transfers[key].invoiceId.value;
    assert InvoiceSettled(db, id);
    CreditedSumPositive(db.transferOrder, db.transfers, id);
  }

  /** PAID -> RECONCILIATION_REQUIRED with its discrepancy. */
  function Flagged(db: Db, key: TransferKey, id: InvoiceId): Db
    requires id in db.invoices
  {
    Move(db, id, RECONCILIATION_REQUIRED, MONITOR).(discrepancies := db.discrepancies + [Discrepancy(key, id)])
  }

  lemma FlaggedCore(db: Db, key: TransferKey, id: InvoiceId)
    requires Core(db) && id in db.invoices && db.invoices[id].status == PAID
    ensures Core(Flagged(db, key, id))
  {
    hide Balanced, WellFormed, SidesOk, KeySidesOk, CreditsOk, TxTableOk, EventsOk, TablesOk, EventCount;
    var db' := Flagged(db, key, id);
    MoveEvents(db, id, RECONCILIATION_REQUIRED, MONITOR);
    forall i: InvoiceId
      ensures DiscrepancyCount(db'.discrepancies, i) ==
              if i in db'.invoices && db'.invoices[i].status == RECONCILIATION_REQUIRED then 1 else 0
    {
      DiscrepancyAppend(db.discrepancies, Discrepancy(key, id), i);
      assert DiscrepancyCount(db.discrepancies, i) ==
             if i in db.invoices && db.invoices[i].status == RECONCILIATION_REQUIRED then 1 else 0;
    }
    CoreFromParts(db, db');
  }

  lemma FlaggedSettled(db: Db, key: TransferKey, id: InvoiceId)
    requires SettledExcept(db, None) && id in db.invoices && db.invoices[id].status == PAID
    ensures SettledExcept(Flagged(db, key, id), None) && Extends(db, Flagged(db, key, id))
  {
    var db' := Flagged(db, key, id);
    forall i | i in db'.invoices
      ensures InvoiceSettled(db', i)
    {
      assert InvoiceSettled(db, i);
    }
  }

  /** Flagging an orphaned credit always commits: it is a no-op exactly when the invoice is already flagged. */
  lemma FlagCases(db: Db, key: TransferKey, id: InvoiceId)
    requires id in db.invoices && Settled(db.invoices[id].status)
    ensures FlagOrphanedCredit(db, key, Some(id)) ==
            Commit(if db.invoices[id].status == PAID then Flagged(db, key, id) else db)
  {
  }

  lemma FlagKeepsInv(db: Db, key: TransferKey)
    requires Inv(db) && key in db.transfers && db.transfers[key].creditedAt.Some?
    ensures FlagOrphanedCredit(db, key, db.transfers[key].invoiceId).Commit?
    ensures var db' := FlagOrphanedCredit(db, key, db.transfers[key].invoiceId).value; Inv(db') && Extends(db, db')
  {
    hide Extends, FindRule;
    ExtendsReflexive(db);
    CreditedInvoiceIsSettled(db, key);
    var id := db.transfers[key].invoiceId.value;
    FlagCases(db, key, id);
    if db.invoices[id].status == PAID {
      FlaggedCore(db, key, id);
      FlaggedSettled(db, key, id);
    }
  }

  lemma OrphanTransferKeepsInv(db: Db, key: TransferKey)
    requires Inv(db) && OrphanTransfer(db, key).Commit?
    ensures var db' := OrphanTransfer(db, key).value; Inv(db') && Extends(db, db')
  {
    hide Extends, FindRule, Balanced, SidesOk, KeySidesOk, EventsOk;
    ExtendsReflexive(db);
    var t := db.transfers[key];
    if t.creditedAt.Some? {
      FlagKeepsInv(db, key);
    } else {
      var row := t.(matchStatus := ORPHANED);
      PutKeepsInv(db, key, row);
      var db1 := PutTransfer(db, key, row);
      assert db1 == db.(transfers := db.transfers[key := row]);
      if t.invoiceId.Some? {
        var id := t.invoiceId.value;
        var to := if PendingCount(db1.transferOrder, db1.transfers, id) > 0 then DETECTED else PENDING;
        GuardedKeepsInv(db1, id, to);
        ExtendsTransitive(db, db1, Guarded(db1, id, to).value);
      }
    }
  }

  lemma {:induction false} OrphanTransfersKeepsInv(db: Db, keys: seq<TransferKey>)
    requires Inv(db) && OrphanTransfers(db, keys).Commit?
    ensures var db' := OrphanTransfers(db, keys).value; Inv(db') && Extends(db, db')
    decreases |keys|
  {
    hide Inv, Extends;
    ExtendsReflexive(db);
    if keys != [] {
      OrphanTransferKeepsInv(db, keys[0]);
      var db1 := OrphanTransfer(db, keys[0]).value;
      OrphanTransfersKeepsInv(db1, keys[1..]);
      ExtendsTransitive(db, db1, OrphanTransfers(db, keys).value);
    }
  }

  lemma OrphanKeepsInv(db: Db, tx: TxKey)
    requires Inv(db) && OrphanTx(db, tx).Commit?
    ensures var db' := OrphanTx(db, tx).value; Inv(db') && Extends(db, db')
  {
    var db1 := db.(txs := db.txs[tx := db.txs[tx].(status := ORPHANED_TX)]);
    assert TxTableOk(db1);
    TxRowKeepsInv(db, db1);
    OrphanTransfersKeepsInv(db1, TransfersOf(db1.transferOrder, tx));
    ExtendsTransitive(db, db1, OrphanTx(db, tx).value);
  }

  // ---------------------------------------------------------------- creation, expiry, cancellation

  /** No transfer refers to an invoice that does not exist yet. */
  lemma NoCreditsBeforeCreation(db: Db, id: InvoiceId)
    requires TablesOk(db) && id !in db.invoices
    ensures CreditedSum(db.transferOrder, db.transfers, id) == 0
  {
    CreditedSumPositive(db.transferOrder, db.transfers, id);
  }

  lemma {:induction false} NoEventsBeforeCreation(events: seq<Event>, id: InvoiceId)
    requires LastStatus(events, id).None?
    ensures EventCount(events, id) == 0
  {
    if events != [] { NoEventsBeforeCreation(events[..|events| - 1], id); }
  }

  lemma CreateEvents(events: seq<Event>, invoices: map<InvoiceId, Invoice>, id: InvoiceId, inv: Invoice)
    requires EventsOk(events, invoices) && id !in invoices && inv.status == PENDING
    ensures EventsOk(events + [Event(id, None, CREATED, 1, SYSTEM)] + [Event(id, Some(CREATED), PENDING, 2, SYSTEM)], invoices[id := inv])
  {
    assert LastStatus(events, id).None?;
    NoEventsBeforeCreation(events, id);
    var e1, e2 := Event(id, None, CREATED, 1, SYSTEM), Event(id, Some(CREATED), PENDING, 2, SYSTEM);
    var mid := invoices[id := inv.(status := CREATED)];
    assert Continues(events, e1);
    EventsAppend(events, invoices, e1, mid);
    assert Continues(events + [e1], e2) by {
      assert (events + [e1])[..|events|] == events;
    }
    EventsAppend(events + [e1], mid, e2, invoices[id := inv]);
  }

  lemma CreateKeepsInv(db: Db, id: InvoiceId, terms: Invoice)
    requires Inv(db) && CreateInvoice(db, id, terms).Commit?
    ensures var db' := CreateInvoice(db, id, terms).value; Inv(db') && Extends(db, db')
  {
    hide Balanced, WellFormed, SidesOk, KeySidesOk, CreditsOk, EventsOk, FindRule, Distinct;
    var db' := CreateInvoice(db, id, terms).value;
    NoCreditsBeforeCreation(db, id);
    CreateEvents(db.events, db.invoices, id, db'.invoices[id]);
    assert TablesOk(db');
    assert DiscrepanciesOk(db'.discrepancies, db'.invoices) by {
      assert DiscrepancyCount(db.discrepancies, id) == 0;
    }
    forall i | i in db'.invoices
      ensures InvoiceSettled(db', i)
    {
      if i != id { assert InvoiceSettled(db, i); }
    }
  }

  lemma AddressesIrrelevant(db: Db, db': Db)
    requires Inv(db) && db'.(addresses := db.addresses, merchants := db.merchants) == db
    ensures Inv(db') && Extends(db, db')
  {
    forall i | i in db'.invoices
      ensures InvoiceSettled(db', i)
    {
      assert InvoiceSettled(db, i);
    }
  }

  lemma CancelKeepsInv(db: Db, id: InvoiceId)
    requires Inv(db) && CancelInvoice(db, id).Commit?
    ensures var db' := CancelInvoice(db, id).value; Inv(db') && Extends(db, db')
  {
    hide Inv, Extends;
    ExtendsReflexive(db);
    var db1 := Move(db, id, CANCELLED, MERCHANT);
    MoveKeepsInv(db, id, CANCELLED, MERCHANT);
    AddressesIrrelevant(db1, CancelInvoice(db, id).value);
    ExtendsTransitive(db, db1, CancelInvoice(db, id).value);
  }

  lemma ExpireKeepsInv(db: Db, id: InvoiceId, now: Time)
    requires Inv(db) && ExpireOne(db, id, now).Commit?
    ensures var db' := ExpireOne(db, id, now).value; Inv(db') && Extends(db, db')
  {
    hide Inv, Extends;
    ExtendsReflexive(db);
    var status := db.invoices[id].status;
    if IsActorAllowed(status, EXPIRED, SYSTEM) {
      assert status == PENDING || status == UNDERPAID;
      MoveKeepsInv(db, id, EXPIRED, SYSTEM);
    }
  }

  // ---------------------------------------------------------------- every step, every run

  lemma NextKeepsInv(db: Db, s: Step)
    requires Inv(db)
    ensures Inv(Next(db, s)) && Extends(db, Next(db, s))
  {
    hide Inv, Extends;
    ExtendsReflexive(db);
    if Attempt(db, s).Commit? {
      match s
      case AddMerchant(m, merchant) => AddressesIrrelevant(db, Next(db, s));
      case AddAddress(a) => AddressesIrrelevant(db, Next(db, s));
      case Create(id, terms) => CreateKeepsInv(db, id, terms);
      case Process(cfg, n, tx, ts, now) => ProcessKeepsInv(db, cfg, n, tx, ts, now);
      case Confirm(key, invoiceId, confirmations, now) => ConfirmKeepsInv(db, key, invoiceId, confirmations, now);
      case Orphan(tx) => OrphanKeepsInv(db, tx);
      case Expire(id, now) => ExpireKeepsInv(db, id, now);
      case Cancel(id) => CancelKeepsInv(db, id);
    }
  }

  lemma {:induction false} RunKeepsInv(db: Db, steps: seq<Step>)
    requires Inv(db)
    ensures Inv(Run(db, steps)) && Extends(db, Run(db, steps))
  {
    hide Inv, Extends;
    ExtendsReflexive(db);
    if steps != [] {
      var mid := Run(db, steps[..|steps| - 1]);
      RunKeepsInv(db, steps[..|steps| - 1]);
      NextKeepsInv(mid, steps[|steps| - 1]);
      ExtendsTransitive(db, mid, Run(db, steps));
    }
  }

  lemma InitialInv()
    ensures Inv(EMPTY_DB)
  {
  }
}
