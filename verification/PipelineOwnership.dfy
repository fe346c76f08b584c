/**
 * Addresses and terms over every run: an address serves one invoice for good, so a transfer is matched
 * to the invoice it was sent to, and an invoice keeps the terms it was created with.
 */
module PipelineOwnership {
  import opened Basics
  import opened StateMachine
  import opened Ledger
  import opened Payments
  import opened Pipeline
  import opened PipelineInvariant
  import opened PipelineSteps
  import opened PipelineTheorems
  import opened PipelineRecording

  /** An address is free or belongs to the one invoice that names it, and every invoice has its own. */
  ghost predicate Owned(db: Db) {
    && (forall id :: id in db.invoices ==> Owns(db, db.invoices[id].address, id))
    && (forall a, id: InvoiceId :: Owns(db, a, id) ==> db.invoices[id].address == a)
    && (forall a :: a in db.addresses ==>
          && (db.addresses[a].state == AVAILABLE <==> db.addresses[a].invoiceId == None)
          && (db.addresses[a].invoiceId.Some? ==> db.addresses[a].invoiceId.value in db.invoices))
  }

  // ---------------------------------------------------------------- steps that leave addresses alone

  /** No address changed, no invoice appeared, and each kept its address; the events added are the monitor's. */
  ghost predicate SameOwners(a: Db, b: Db) {
    && b.addresses == a.addresses && b.invoices.Keys == a.invoices.Keys
    && (forall id :: id in a.invoices ==> b.invoices[id].address == a.invoices[id].address)
    && AddedBy(a.events, b.events, MONITOR)
  }

  ghost predicate AddedBy(a: seq<Event>, b: seq<Event>, actor: Actor) {
    a <= b && forall i :: |a| <= i < |b| ==> b[i].actor == actor && b[i].from.Some?
  }

  lemma SameKeeps(a: Db, b: Db)
    requires Owned(a) && SameOwners(a, b)
    ensures Owned(b)
  {
    assert forall id :: id in b.invoices <==> id in b.invoices.Keys;
    assert forall id :: id in b.invoices <==> id in a.invoices;
    forall x, id: InvoiceId ensures Owns(b, x, id) <==> Owns(a, x, id) {}
  }

  lemma SameTwice(a: Db, b: Db, c: Db)
    requires SameOwners(a, b) && SameOwners(b, c)
    ensures SameOwners(a, c)
  {
    assert forall id :: id in a.invoices ==> id in b.invoices.Keys;
  }

  lemma SameItself(db: Db)
    ensures SameOwners(db, db)
  {
  }

  lemma MoveSame(db: Db, id: InvoiceId, to: Status)
    requires id in db.invoices
    ensures SameOwners(db, Move(db, id, to, MONITOR))
  {
    hide EventCount;
  }

  lemma GuardedSame(db: Db, id: InvoiceId, to: Status)
    requires id in db.invoices && Guarded(db, id, to).Commit?
    ensures SameOwners(db, Guarded(db, id, to).value)
  {
    hide FindRule, CanTransition, AssertTransition, SameOwners, Move;
    SameItself(db);
    MoveSame(db, id, to);
  }

  lemma RecordSame(db: Db, cfg: Config, n: Network, tx: ChainTx, t: ParsedTransfer, now: Time)
    requires RecordTransfer(db, cfg, n, tx, t, now).Commit?
    ensures SameOwners(db, RecordTransfer(db, cfg, n, tx, t, now).value)
  {
    var row := ClassifiedRow(db, cfg, n, tx, t, now);
    OwnedRow(db, cfg, n, tx, t, now);
    hide ClassifiedRow, Guarded;
    var put := PutTransfer(db, TransferKey(n, tx.hash, t.index), row);
    assert SameOwners(db, put);
    hide SameOwners;
    SameItself(db);
    if row.invoiceId.Some? {
      var id := row.invoiceId.value;
      if Guarded(put, id, DETECTED).Commit? {
        GuardedSame(put, id, DETECTED);
        SameTwice(db, put, Guarded(put, id, DETECTED).value);
      }
      if Guarded(put, id, LATE_PAYMENT_REVIEW).Commit? {
        GuardedSame(put, id, LATE_PAYMENT_REVIEW);
        SameTwice(db, put, Guarded(put, id, LATE_PAYMENT_REVIEW).value);
      }
    }
  }

  lemma {:induction false} RecordsSame(db: Db, cfg: Config, n: Network, tx: ChainTx, ts: seq<ParsedTransfer>, now: Time)
    requires RecordTransfers(db, cfg, n, tx, ts, now).Commit?
    ensures SameOwners(db, RecordTransfers(db, cfg, n, tx, ts, now).value)
    decreases |ts|
  {
    hide RecordTransfer, SameOwners;
    if ts == [] {
      SameItself(db);
    } else {
      RecordSame(db, cfg, n, tx, ts[0], now);
      var db1 := RecordTransfer(db, cfg, n, tx, ts[0], now).value;
      RecordsSame(db1, cfg, n, tx, ts[1..], now);
      SameTwice(db, db1, RecordTransfers(db, cfg, n, tx, ts, now).value);
    }
  }

  lemma {:induction false} CreditsSame(db: Db, id: InvoiceId, feeBps: int, keys: seq<TransferKey>, now: Time)
    requires id in db.invoices && (forall k :: k in keys ==> k in db.transfers) && CreditAll(db, id, feeBps, keys, now).Commit?
    ensures SameOwners(db, CreditAll(db, id, feeBps, keys, now).value)
    decreases |keys|
  {
    hide PostCredit;
    if keys != [] { CreditsSame(CreditOne(db, id, feeBps, keys[0], now).value, id, feeBps, keys[1..], now); }
  }

  lemma SettleSame(db: Db, id: InvoiceId, m: Merchant, target: Status, keys: seq<TransferKey>, total: int, now: Time)
    requires id in db.invoices && (forall k :: k in keys ==> k in db.transfers) && Settle(db, id, m, target, keys, total, now).Commit?
    ensures SameOwners(db, Settle(db, id, m, target, keys, total, now).value)
  {
    hide CreditAll, AssertTransition, EventCount;
    var db1 := Evaluated(db, id, target, total);
    if AutoAccept(m, target) {
      CreditsSame(if target == PAID then db1 else Move(db1, id, PAID, MONITOR), id, m.feeBps, keys, now);
    }
  }

  lemma FinalizeSame(db: Db, id: InvoiceId, now: Time)
    requires FinalizeInvoice(db, id, now).Commit?
    ensures SameOwners(db, FinalizeInvoice(db, id, now).value)
  {
    hide Settle, TargetFor, FindRule, CanTransition, AssertTransition, EligibleKeys, SumAmounts, SameOwners;
    SameItself(db);
    var inv := db.invoices[id];
    var keys := EligibleKeys(db.transferOrder, db.transfers, id, inv.requiredConfirmations);
    var total := SumAmounts(keys, db.transfers);
    if FinalizeInvoice(db, id, now).value != db {
      SettleSame(db, id, db.merchants[inv.merchantId], TargetFor(inv, total).value.value, keys, total, now);
    }
  }

  lemma ConfirmSame(db: Db, key: TransferKey, id: Option<InvoiceId>, c: nat, now: Time)
    requires ConfirmTransfer(db, key, id, c, now).Commit?
    ensures SameOwners(db, ConfirmTransfer(db, key, id, c, now).value)
  {
    hide FinalizeInvoice, Guarded;
    var db1 := SetConfirmations(db, key, c);
    assert SameOwners(db, db1);
    hide SameOwners, SetConfirmations;
    if id.Some? {
      var db2 := AdvanceConfirming(db1, id.value, c).value;
      SameItself(db1);
      if c >= 1 { GuardedSame(db1, id.value, CONFIRMING); }
      SameTwice(db, db1, db2);
      if IsConfirmed(c, db1.invoices[id.value].requiredConfirmations) {
        FinalizeSame(db2, id.value, now);
        SameTwice(db, db2, FinalizeInvoice(db2, id.value, now).value);
      }
    }
  }

  lemma OrphanSame(db: Db, key: TransferKey)
    requires OrphanTransfer(db, key).Commit?
    ensures SameOwners(db, OrphanTransfer(db, key).value)
  {
    hide FindRule, CanTransition, AssertTransition, EventCount, PendingCount;
  }

  lemma {:induction false} OrphansSame(db: Db, keys: seq<TransferKey>)
    requires OrphanTransfers(db, keys).Commit?
    ensures SameOwners(db, OrphanTransfers(db, keys).value)
    decreases |keys|
  {
    hide OrphanTransfer, SameOwners;
    if keys == [] {
      SameItself(db);
    } else {
      OrphanSame(db, keys[0]);
      var db1 := OrphanTransfer(db, keys[0]).value;
      OrphansSame(db1, keys[1..]);
      SameTwice(db, db1, OrphanTransfers(db, keys).value);
    }
  }

  lemma MonitorStepsSame(db: Db, s: Step)
    requires s.AddMerchant? || s.Process? || s.Confirm? || s.Orphan?
    ensures SameOwners(db, Next(db, s))
  {
    hide RecordTransfers, ConfirmTransfer, OrphanTransfers, FindRule, EventCount;
    if Attempt(db, s).Commit? {
      match s
      case Process(cfg, n, tx, ts, now) => if ts != [] { RecordsSame(RecordChainTransaction(db, n, tx), cfg, n, tx, ts, now); }
      case Confirm(key, id, c, now) => ConfirmSame(db, key, id, c, now);
      case Orphan(tx) =>
        OrphansSame(db.(txs := db.txs[tx := db.txs[tx].(status := ORPHANED_TX)]), TransfersOf(db.transferOrder, tx));
      case _ =>
    }
  }

  // ---------------------------------------------------------------- creation and cancellation

  /** Creation takes a free id and a free address at terms in range, and changes nothing else. */
  lemma CreateExactly(db: Db, id: InvoiceId, terms: Invoice)
    ensures CreateInvoice(db, id, terms).Commit? <==>
            && id !in db.invoices && terms.address in db.addresses && db.addresses[terms.address].state == AVAILABLE
            && terms.cryptoAmount > 0 && terms.requiredConfirmations >= 1 && 0 <= terms.underBps <= 10000 && 0 <= terms.overBps <= 10000
    ensures CreateInvoice(db, id, terms).Commit? ==>
              var db' := CreateInvoice(db, id, terms).value;
              && db' == db.(invoices := db'.invoices, addresses := db'.addresses, events := db'.events)
              && db'.invoices == db.invoices[id := terms.(status := PENDING, receivedAmount := 0, confirmedAmount := 0)]
              && db'.addresses == db.addresses[terms.address := AddressRow(ASSIGNED, Some(id))]
  {
  }

  lemma CreateKeepsOwned(db: Db, id: InvoiceId, terms: Invoice)
    requires Owned(db) && CreateInvoice(db, id, terms).Commit?
    ensures Owned(CreateInvoice(db, id, terms).value)
  {
    CreateExactly(db, id, terms);
    hide CreateInvoice;
    var db' := CreateInvoice(db, id, terms).value;
    forall a, i: InvoiceId ensures Owns(db', a, i) <==> if a == terms.address then i == id else Owns(db, a, i) {}
  }

  /** In a reached state a merchant cancels exactly a PENDING or UNDERPAID invoice; its address is retired and stays its own. */
  lemma CancelExactly(steps: seq<Step>, id: InvoiceId)
    ensures var db := Reached(steps);
            var r := CancelInvoice(db, id);
            && (r.Commit? <==> id in db.invoices && db.invoices[id].status in {PENDING, UNDERPAID})
            && (r.Commit? ==>
                  && db.invoices[id].address in db.addresses
                  && r.value == db.(invoices := db.invoices[id := db.invoices[id].(status := CANCELLED)],
                                    addresses := db.addresses[db.invoices[id].address := AddressRow(RETIRED, Some(id))], events := r.value.events))
  {
    AddressesAreOwned(steps);
    ReachedInv(steps);
    var db := Reached(steps);
    hide Reached, EventCount, FindRule;
    if id in db.invoices {
      MerchantMoves(db.invoices[id].status, CANCELLED);
      assert db.invoices[id].status in AUTOMATED;
      assert Owns(db, db.invoices[id].address, id);
    }
  }

  lemma CancelKeepsOwned(db: Db, id: InvoiceId)
    requires Owned(db) && CancelInvoice(db, id).Commit?
    ensures Owned(CancelInvoice(db, id).value)
  {
    hide FindRule, EventCount, AssertTransition;
    var db' := CancelInvoice(db, id).value;
    assert Owns(db, db.invoices[id].address, id);
    assert db'.addresses == db.addresses[db.invoices[id].address := AddressRow(RETIRED, Some(id))];
    assert db'.invoices == db.invoices[id := db.invoices[id].(status := CANCELLED)];
    hide CancelInvoice;
    forall a, i: InvoiceId ensures Owns(db', a, i) <==> Owns(db, a, i) {}
  }

  /** In a reached state expiry takes exactly a PENDING or UNDERPAID invoice whose deadline has come, and only its status. */
  lemma ExpireExactly(steps: seq<Step>, id: InvoiceId, now: Time)
    ensures var db := Reached(steps);
            var r := ExpireOne(db, id, now);
            && (r.Commit? <==> id in db.invoices)
            && (r.Commit? ==>
                  if db.invoices[id].status in {PENDING, UNDERPAID} && db.invoices[id].expiresAt <= now
                  then r.value == db.(invoices := db.invoices[id := db.invoices[id].(status := EXPIRED)], events := r.value.events)
                  else r.value == db)
  {
    hide EventCount, FindRule;
    var db := Reached(steps);
    if id in db.invoices { ExpiryEdge(db.invoices[id].status); }
    hide Reached, IsActorAllowed;
  }

  lemma ExpiryEdge(s: Status)
    ensures IsActorAllowed(s, EXPIRED, SYSTEM) <==> s in {PENDING, UNDERPAID}
    ensures IsActorAllowed(s, EXPIRED, SYSTEM) ==> AssertTransition(s, EXPIRED, SYSTEM)
  {
  }

  // ---------------------------------------------------------------- over every run

  lemma StepKeepsOwned(db: Db, s: Step)
    requires Owned(db)
    ensures Owned(Next(db, s))
  {
    hide CreateInvoice, CancelInvoice, SameOwners, ProcessTransaction, ConfirmTransfer, OrphanTx, ExpireOne;
    match s
    case AddAddress(a) => AddKeepsOwned(db, a);
    case Create(id, terms) => if CreateInvoice(db, id, terms).Commit? { CreateKeepsOwned(db, id, terms); }
    case Cancel(id) => if CancelInvoice(db, id).Commit? { CancelKeepsOwned(db, id); }
    case Expire(id, now) => ExpireKeepsOwned(db, id, now);
    case _ =>
      MonitorStepsSame(db, s);
      SameKeeps(db, Next(db, s));
  }

  lemma ExpireKeepsOwned(db: Db, id: InvoiceId, now: Time)
    requires Owned(db)
    ensures Owned(Next(db, Expire(id, now)))
  {
    hide FindRule, EventCount, AssertTransition, IsActorAllowed;
    var db' := Next(db, Expire(id, now));
    assert db'.addresses == db.addresses && db'.invoices.Keys == db.invoices.Keys;
    assert forall i :: i in db.invoices ==> db'.invoices[i].address == db.invoices[i].address;
    hide Next;
    assert forall i :: i in db'.invoices <==> i in db'.invoices.Keys;
    assert forall i :: i in db'.invoices <==> i in db.invoices;
    forall x, i: InvoiceId ensures Owns(db', x, i) <==> Owns(db, x, i) {}
  }

  lemma AddKeepsOwned(db: Db, a: AddressKey)
    requires Owned(db)
    ensures Owned(Next(db, AddAddress(a)))
  {
    var db' := Next(db, AddAddress(a));
    assert db' == if a in db.addresses then db else db.(addresses := db.addresses[a := AddressRow(AVAILABLE, None)]);
    hide Next;
    forall b, i: InvoiceId ensures Owns(db', b, i) <==> Owns(db, b, i) {}
  }

  /** In every reached state each invoice owns its address, and no address is owned by two. */
  lemma {:induction false} AddressesAreOwned(steps: seq<Step>)
    ensures Owned(Reached(steps))
  {
    hide Next;
    if steps != [] {
      AddressesAreOwned(steps[..|steps| - 1]);
      StepKeepsOwned(Reached(steps[..|steps| - 1]), steps[|steps| - 1]);
    }
  }

  /** So a sighting in a reached state is matched to the invoice whose address it was sent to, or to none. */
  lemma MatchedByAddress(steps: seq<Step>, cfg: Config, n: Network, tx: ChainTx, t: ParsedTransfer, now: Time, id: InvoiceId)
    ensures var db := Reached(steps);
            var k := TransferKey(n, tx.hash, t.index);
            var r := RecordTransfer(db, cfg, n, tx, t, now);
            r.Commit? ==>
              && k in r.value.transfers
              && (!(k in db.transfers && db.transfers[k].creditedAt.Some?) ==>
                    (r.value.transfers[k].invoiceId == Some(id) <==> id in db.invoices && db.invoices[id].address == AddressKey(n, t.to)))
  {
    AddressesAreOwned(steps);
    RecordExactly(Reached(steps), cfg, n, tx, t, now);
    hide RecordTransfer, Reached, Recorded;
    OwnedByAddress(Reached(steps), AddressKey(n, t.to), id);
  }

  lemma OwnedByAddress(db: Db, a: AddressKey, id: InvoiceId)
    requires Owned(db)
    ensures Owns(db, a, id) <==> id in db.invoices && db.invoices[id].address == a
  {
  }

  /** An invoice keeps, through every later step, the terms it was created with. */
  lemma TermsAreKept(before: seq<Step>, id: InvoiceId, terms: Invoice, after: seq<Step>)
    requires Attempt(Reached(before), Create(id, terms)).Commit?
    ensures var db := Reached(before + [Create(id, terms)] + after);
            id in db.invoices &&
            db.invoices[id] == terms.(status := db.invoices[id].status, receivedAmount := db.invoices[id].receivedAmount, confirmedAmount := db.invoices[id].confirmedAmount)
  {
    var upto := before + [Create(id, terms)];
    assert upto[..|upto| - 1] == before;
    CreateExactly(Reached(before), id, terms);
    CreditsAreFinal(upto, after);
    assert Reached(upto) == CreateInvoice(Reached(before), id, terms).value;
    assert InvoiceExtends(Reached(upto).invoices[id], Reached(upto + after).invoices[id]);
  }

  // ---------------------------------------------------------------- who did what

  /** The merchant cancels, the system opens and expires, and every other move is the monitor's. */
  ghost predicate ActorIs(e: Event) {
    && (e.actor == MERCHANT <==> e.to == CANCELLED)
    && (e.actor == SYSTEM <==> e.to in {CREATED, EXPIRED} || e.from == Some(CREATED))
    && e.actor in {MERCHANT, SYSTEM, MONITOR}
  }

  ghost predicate ActorsTold(events: seq<Event>) {
    forall i :: 0 <= i < |events| ==> ActorIs(events[i])
  }

  lemma {:induction false} TrailPermits(events: seq<Event>, i: nat)
    requires Trail(events) && i < |events|
    ensures if events[i].from.None? then events[i].to == CREATED else IsActorAllowed(events[i].from.value, events[i].to, events[i].actor)
  {
    if i < |events| - 1 {
      TrailPermits(events[..|events| - 1], i);
    } else {
      assert Continues(events[..|events| - 1], events[|events| - 1]);
    }
  }

  lemma MonitorEvent(e: Event)
    requires e.actor == MONITOR && e.from.Some? && IsActorAllowed(e.from.value, e.to, MONITOR)
    ensures ActorIs(e)
  {
    assert e.from.value != e.to;
    MonitorMoves(e.from.value, e.to);
    hide IsActorAllowed;
  }

  lemma AddedEvents(a: seq<Event>, b: seq<Event>)
    requires ActorsTold(a) && AddedBy(a, b, MONITOR) && Trail(b)
    ensures ActorsTold(b)
  {
    hide ActorIs, Trail;
    forall i | 0 <= i < |b| ensures ActorIs(b[i]) {
      if i < |a| {
        assert b[i] == a[i];
      } else {
        TrailPermits(b, i);
        MonitorEvent(b[i]);
      }
    }
  }

  lemma StepTellsActor(db: Db, s: Step)
    requires ActorsTold(db.events) && Trail(Next(db, s).events)
    requires forall id :: id in db.invoices ==> db.invoices[id].status != CREATED
    ensures ActorsTold(Next(db, s).events)
  {
    hide FindRule, EventCount, Trail, ActorIs, ProcessTransaction, ConfirmTransfer, OrphanTx, AssertTransition, IsActorAllowed;
    match s
    case Create(id, _) =>
      assert ActorIs(Event(id, None, CREATED, 1, SYSTEM)) && ActorIs(Event(id, Some(CREATED), PENDING, 2, SYSTEM)) by { OpeningEvents(id); }
    case Expire(id, _) => if id in db.invoices { ClosingEvents(id, db.invoices[id].status, EventCount(db.events, id) + 1); }
    case Cancel(id) => if id in db.invoices { ClosingEvents(id, db.invoices[id].status, EventCount(db.events, id) + 1); }
    case AddAddress(_) =>
    case _ =>
      MonitorStepsSame(db, s);
      AddedEvents(db.events, Next(db, s).events);
  }

  lemma OpeningEvents(id: InvoiceId)
    ensures ActorIs(Event(id, None, CREATED, 1, SYSTEM)) && ActorIs(Event(id, Some(CREATED), PENDING, 2, SYSTEM))
  {
  }

  lemma ClosingEvents(id: InvoiceId, from: Status, sequence: nat)
    ensures ActorIs(Event(id, Some(from), EXPIRED, sequence, SYSTEM))
    ensures from != CREATED ==> ActorIs(Event(id, Some(from), CANCELLED, sequence, MERCHANT))
  {
  }

  /** In every run each event names its actor: the merchant for a cancellation, the system for opening and expiry, the monitor else. */
  lemma {:induction false} EventActors(steps: seq<Step>)
    ensures ActorsTold(Reached(steps).events)
  {
    hide Next, Trail, Inv, ActorIs;
    if steps != [] {
      EventActors(steps[..|steps| - 1]);
      ReachedTrail(steps);
      NoneCreated(steps[..|steps| - 1]);
      StepTellsActor(Reached(steps[..|steps| - 1]), steps[|steps| - 1]);
    }
  }

  lemma ReachedTrail(steps: seq<Step>)
    ensures Trail(Reached(steps).events)
  {
    ReachedInv(steps);
  }

  lemma NoneCreated(steps: seq<Step>)
    ensures forall id :: id in Reached(steps).invoices ==> Reached(steps).invoices[id].status != CREATED
  {
    ReachedInv(steps);
  }

  // ---------------------------------------------------------------- a sighting and the next reorg

  /** A committed sighting is hit by a reorg exactly when it was mined, did not revert, and lies at or above the block. */
  lemma SightingMeetsReorg(db: Db, cfg: Config, n: Network, tx: ChainTx, ts: seq<ParsedTransfer>, now: Time, fromBlock: nat)
    requires ts != [] && ProcessTransaction(db, cfg, n, tx, ts, now).Commit?
    ensures var db' := ProcessTransaction(db, cfg, n, tx, ts, now).value;
            && TxKey(n, tx.hash) in db'.txs && db'.txs[TxKey(n, tx.hash)].blockNumber == tx.blockNumber
            && (TxKey(n, tx.hash) in ReorgKeys(db'.txOrder, db'.txs, n, fromBlock) <==>
                  TxKey(n, tx.hash) in db'.txOrder && tx.status != TX_REVERTED && tx.blockNumber.Some? && tx.blockNumber.value >= fromBlock)
            && (forall k :: k in db.txs && k != TxKey(n, tx.hash) ==> k in db'.txs && db'.txs[k] == db.txs[k])
  {
    RecordsKeepTxs(RecordChainTransaction(db, n, tx), cfg, n, tx, ts, now);
    hide RecordTransfers;
  }

  lemma {:induction false} RecordsKeepTxs(db: Db, cfg: Config, n: Network, tx: ChainTx, ts: seq<ParsedTransfer>, now: Time)
    requires RecordTransfers(db, cfg, n, tx, ts, now).Commit?
    ensures RecordTransfers(db, cfg, n, tx, ts, now).value.txs == db.txs
    decreases |ts|
  {
    hide RecordTransfer, Matches;
    if ts != [] {
      RecordExactly(db, cfg, n, tx, ts[0], now);
      RecordsKeepTxs(RecordTransfer(db, cfg, n, tx, ts[0], now).value, cfg, n, tx, ts[1..], now);
    }
  }
}
