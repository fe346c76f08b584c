/** A run in which a reorg freezes an invoice: what is not recorded about it, and what it holds up for good. */
module FrozenInputs {
  import opened Basics
  import opened StateMachine
  import opened Ledger
  import opened Payments
  import opened Rounding
  import opened Pipeline
  import opened PipelineInvariant
  import opened PipelineSteps
  import opened PipelineTheorems
  import opened PipelineConfirm
  import opened PipelinePass
  import opened PipelineStuck
  import opened PipelineInputs
  import opened PipelineRecording

  // The same merchant; two invoices of 100 units that ask for two confirmations. The first is
  // paid by transfers of 60 and 40 in block 10 and receives 10 more in block 5; then the second is paid.

  const NEXT_TILL: AddressKey := AddressKey(0, 6)
  const OTHER: Invoice := TERMS.(address := NEXT_TILL)
  const C: TransferKey := TransferKey(0, 3, -1)
  const D: TransferKey := TransferKey(0, 4, -1)

  function Row(id: InvoiceId, amount: int, confirmations: nat): Transfer {
    Transfer(Some(0), amount, Some(id), PENDING_CONFIRMATION, confirmations, None)
  }

  function Sighting(hash: Hash, block: nat, to: nat, amount: int, confirmations: nat): Step {
    Process(COIN, 0, ChainTx(hash, Some(block), TX_SUCCESS, confirmations), [ParsedTransfer(-1, None, to, amount)], 0)
  }

  /** The tables before any credit. */
  ghost predicate Shape(db: Db, first: Status, second: Status, order: seq<TransferKey>, rows: map<TransferKey, Transfer>, txs: map<TxKey, TxRow>) {
    && db.merchants == map[0 := SHOP]
    && db.addresses == map[TILL := AddressRow(ASSIGNED, Some(7)), NEXT_TILL := AddressRow(ASSIGNED, Some(8))]
    && db.invoices == map[7 := TERMS.(status := first), 8 := OTHER.(status := second)]
    && db.transferOrder == order && db.transfers == rows && db.txs == txs && db.book == EMPTY_BOOK
  }

  lemma RunSnoc(steps: seq<Step>, s: Step)
    ensures Reached(steps + [s]) == Next(Reached(steps), s)
  {
    assert (steps + [s])[..|steps|] == steps;
  }

  const OPENING: seq<Step> := [AddMerchant(0, SHOP)] + [AddAddress(TILL)] + [AddAddress(NEXT_TILL)] + [Create(7, TERMS)] + [Create(8, OTHER)]

  lemma Opens()
    ensures Shape(Reached(OPENING), PENDING, PENDING, [], map[], map[])
  {
    var s1 := [AddMerchant(0, SHOP)];
    var s2 := s1 + [AddAddress(TILL)];
    var s3 := s2 + [AddAddress(NEXT_TILL)];
    var s4 := s3 + [Create(7, TERMS)];
    assert [] + s1 == s1;
    RunSnoc([], AddMerchant(0, SHOP));
    RunSnoc(s1, AddAddress(TILL));
    RunSnoc(s2, AddAddress(NEXT_TILL));
    RunSnoc(s3, Create(7, TERMS));
    RunSnoc(s4, Create(8, OTHER));
    hide Reached, Run;
    assert Reached([]) == EMPTY_DB by { Start(); }
    assert Reached(s1).merchants == map[0 := SHOP];
    assert Reached(s3).addresses == map[TILL := AddressRow(AVAILABLE, None), NEXT_TILL := AddressRow(AVAILABLE, None)];
    assert Reached(s4).invoices == map[7 := TERMS];
    assert Reached(s4).addresses == map[TILL := AddressRow(ASSIGNED, Some(7)), NEXT_TILL := AddressRow(AVAILABLE, None)];
  }

  lemma Start()
    ensures Reached([]) == EMPTY_DB
  {
  }

  /** A transfer to the address of an invoice that is PENDING or DETECTED. */
  lemma Spotted(db: Db, first: Status, second: Status, order: seq<TransferKey>, rows: map<TransferKey, Transfer>, txs: map<TxKey, TxRow>,
                hash: Hash, block: nat, id: InvoiceId, amount: int, confirmations: nat)
    requires Shape(db, first, second, order, rows, txs) && amount > 0 && TransferKey(0, hash, -1) !in rows && id in {7, 8}
    requires (if id == 7 then first else second) in {PENDING, DETECTED}
    ensures Shape(Next(db, Sighting(hash, block, id - 2, amount, confirmations)),
                  if id == 7 then DETECTED else first, if id == 8 then DETECTED else second, order + [TransferKey(0, hash, -1)],
                  rows[TransferKey(0, hash, -1) := Row(id, amount, confirmations)], txs[TxKey(0, hash) := TxRow(MINED, Some(block))])
  {
    hide EventCount, Guarded, FindRule, Next, CanTransition, AssertTransition, ClassifiedRow;
    var tx, t := ChainTx(hash, Some(block), TX_SUCCESS, confirmations), ParsedTransfer(-1, None, id - 2, amount);
    var seen := RecordChainTransaction(db, 0, tx);
    var k, row := TransferKey(0, hash, -1), Row(id, amount, confirmations);
    Classified(seen, id, hash, block, amount, confirmations);
    var put := PutTransfer(seen, k, row);
    assert RecordTransfer(seen, COIN, 0, tx, t, 0) == Guarded(put, id, DETECTED);
    Detects(put, id);
    hide RecordTransfer;
    OneTransfer(db, COIN, 0, tx, t, 0);
    var shaped := Guarded(put, id, DETECTED).value;
    assert Next(db, Sighting(hash, block, id - 2, amount, confirmations)) == shaped;
    assert shaped.invoices == map[7 := TERMS.(status := if id == 7 then DETECTED else first), 8 := OTHER.(status := if id == 8 then DETECTED else second)];
  }

  lemma Classified(db: Db, id: InvoiceId, hash: Hash, block: nat, amount: int, confirmations: nat)
    requires id in {7, 8} && amount > 0 && AddressKey(0, id - 2) in db.addresses && db.addresses[AddressKey(0, id - 2)].invoiceId == Some(id)
    requires id in db.invoices && db.invoices[id].status in {PENDING, DETECTED} && db.invoices[id].expiresAt == 1000
    ensures ClassifiedRow(db, COIN, 0, ChainTx(hash, Some(block), TX_SUCCESS, confirmations), ParsedTransfer(-1, None, id - 2, amount), 0) ==
            Row(id, amount, confirmations)
  {
  }

  lemma Detects(db: Db, id: InvoiceId)
    requires id in db.invoices && db.invoices[id].status in {PENDING, DETECTED}
    ensures var r := Guarded(db, id, DETECTED);
            r.Commit? && r.value == db.(invoices := db.invoices[id := db.invoices[id].(status := DETECTED)], events := r.value.events)
  {
    hide EventCount;
    assert db.invoices[id].status == DETECTED ==> db.invoices[id := db.invoices[id]] == db.invoices;
  }

  const SEEN: seq<Step> := OPENING + [Sighting(1, 10, 5, 60, 2)] + [Sighting(2, 10, 5, 40, 0)] + [Sighting(3, 5, 5, 10, 0)] + [Sighting(4, 5, 6, 100, 0)]

  function Rows(b: nat): map<TransferKey, Transfer> {
    map[A := Row(7, 60, 2), B := Row(7, 40, b), C := Row(7, 10, 0), D := Row(8, 100, 0)]
  }

  const MINED_TXS: map<TxKey, TxRow> :=
    map[TxKey(0, 1) := TxRow(MINED, Some(10)), TxKey(0, 2) := TxRow(MINED, Some(10)),
        TxKey(0, 3) := TxRow(MINED, Some(5)), TxKey(0, 4) := TxRow(MINED, Some(5))]

  lemma AllSeen()
    ensures Shape(Reached(SEEN), DETECTED, DETECTED, [A, B, C, D], Rows(0), MINED_TXS)
  {
    hide Reached, Next;
    Opens();
    var s1 := OPENING + [Sighting(1, 10, 5, 60, 2)];
    var s2 := s1 + [Sighting(2, 10, 5, 40, 0)];
    var s3 := s2 + [Sighting(3, 5, 5, 10, 0)];
    RunSnoc(OPENING, Sighting(1, 10, 5, 60, 2));
    RunSnoc(s1, Sighting(2, 10, 5, 40, 0));
    RunSnoc(s2, Sighting(3, 5, 5, 10, 0));
    RunSnoc(s3, Sighting(4, 5, 6, 100, 0));
    var m1, t1 := map[A := Row(7, 60, 2)], map[TxKey(0, 1) := TxRow(MINED, Some(10))];
    var m2, t2 := m1[B := Row(7, 40, 0)], t1[TxKey(0, 2) := TxRow(MINED, Some(10))];
    var m3, t3 := m2[C := Row(7, 10, 0)], t2[TxKey(0, 3) := TxRow(MINED, Some(5))];
    assert map[][A := Row(7, 60, 2)] == m1 && map[][TxKey(0, 1) := TxRow(MINED, Some(10))] == t1;
    Spotted(Reached(OPENING), PENDING, PENDING, [], map[], map[], 1, 10, 7, 60, 2);
    Spotted(Reached(s1), DETECTED, PENDING, [A], m1, t1, 2, 10, 7, 40, 0);
    Spotted(Reached(s2), DETECTED, PENDING, [A, B], m2, t2, 3, 5, 7, 10, 0);
    Spotted(Reached(s3), DETECTED, PENDING, [A, B, C], m3, t3, 4, 5, 8, 100, 0);
  }

  // ---------------------------------------------------------------- paid in two transfers

  lemma CountsFirstTwo(m: map<TransferKey, Transfer>)
    requires m == Rows(2)
    ensures EligibleKeys([A, B, C, D], m, 7, 2) == [A, B] && SumAmounts([A, B], m) == 100
  {
    assert [A, B, C, D][..3] == [A, B, C] && [A, B, C][..2] == [A, B] && [A, B][..1] == [A] && [A][..0] == [];
    assert EligibleKeys([A], m, 7, 2) == [A];
    assert EligibleKeys([A, B], m, 7, 2) == [A, B];
    assert EligibleKeys([A, B, C], m, 7, 2) == [A, B];
    assert SumAmounts([A], m) == 60;
  }

  function Credited(rows: map<TransferKey, Transfer>, k: TransferKey, now: Time): map<TransferKey, Transfer>
    requires k in rows
  {
    rows[k := rows[k].(matchStatus := CREDITED, creditedAt := Some(now))]
  }

  lemma BothCredited(db: Db, now: Time)
    requires 7 in db.invoices && db.transfers == Rows(2) && db.book == EMPTY_BOOK
    ensures var r := CreditAll(db, 7, 0, [A, B], now);
            r.Commit? && r.value.transfers == Credited(Credited(Rows(2), A, now), B, now) && r.value.txs == db.txs && r.value.invoices == db.invoices
            && r.value.transferOrder == db.transferOrder && r.value.merchants == db.merchants
  {
    CreditAllAborts(db, 7, 0, [A, B], now);
    assert !Refused(db, 7, 0, [A, B]) by { Accepted(db); }
    hide PostCredit, Refused, CreditOne;
    assert [A, B][1..] == [B] && [B][1..] == [];
    var db1 := CreditOne(db, 7, 0, A, now).value;
    CreditsNew(db, A, now, B);
    assert CreditAll(db, 7, 0, [A, B], now) == CreditAll(db1, 7, 0, [B], now);
    CreditsNew(db1, B, now, A);
    assert CreditAll(db1, 7, 0, [B], now) == CreditOne(db1, 7, 0, B, now);
  }

  lemma CreditsNew(db: Db, k: TransferKey, now: Time, other: TransferKey)
    requires 7 in db.invoices && k in db.transfers && !Posted(db.book.txs, k)
    ensures var r := CreditOne(db, 7, 0, k, now);
            r.Commit? ==>
              && r.value == db.(book := r.value.book, transfers := Credited(db.transfers, k, now))
              && (other != k && !Posted(db.book.txs, other) ==> !Posted(r.value.book.txs, other))
  {
    var p := CreditFor(db.invoices[7], 7, 0, k, db.transfers[k].amount);
    if PostCredit(db.book, p).Commit? {
      PostedStays(db.book, p, other);
      assert !PostCredit(db.book, p).value.alreadyPosted;
      hide PostCredit, Posted;
    }
  }

  lemma Accepted(db: Db)
    requires 7 in db.invoices && db.transfers == Rows(2) && db.book == EMPTY_BOOK
    ensures !Refused(db, 7, 0, [A, B])
  {
  }

  const PAID_UP: seq<Step> := SEEN + [Confirm(B, Some(7), 2, 0)]

  lemma PaidInTwo(db: Db)
    requires Shape(db, DETECTED, DETECTED, [A, B, C, D], Rows(0), MINED_TXS)
    ensures var db' := Next(db, Confirm(B, Some(7), 2, 0));
            && 7 in db'.invoices && db'.invoices[7].status == PAID && db'.invoices[7].requiredConfirmations == 2
            && db'.transfers == Credited(Credited(Rows(2), A, 0), B, 0) && db'.txs == MINED_TXS && db'.transferOrder == [A, B, C, D]
  {
    hide EventCount, CreditAll, FinalizeInvoice, Guarded, CanTransition, AssertTransition, FindRule;
    var db1 := SetConfirmations(db, B, 2);
    assert db1.transfers == Rows(2);
    Confirms(db1);
    var db2 := Guarded(db1, 7, CONFIRMING).value;
    FinalizesPaid(db2);
    BothCredited(Evaluated(db2, 7, PAID, 100), 0);
    assert ConfirmTransfer(db, B, Some(7), 2, 0) == FinalizeInvoice(db2, 7, 0);
  }

  lemma Confirms(db: Db)
    requires 7 in db.invoices && db.invoices[7].status == DETECTED
    ensures var r := Guarded(db, 7, CONFIRMING);
            r.Commit? && r.value == db.(invoices := db.invoices[7 := db.invoices[7].(status := CONFIRMING)], events := r.value.events)
  {
    hide EventCount;
  }

  lemma FinalizesPaid(db: Db)
    requires 7 in db.invoices && db.invoices[7] == TERMS.(status := CONFIRMING) && db.merchants == map[0 := SHOP]
    requires db.transferOrder == [A, B, C, D] && db.transfers == Rows(2)
    ensures FinalizeInvoice(db, 7, 0) == CreditAll(Evaluated(db, 7, PAID, 100), 7, 0, [A, B], 0)
  {
    hide CreditAll, EligibleKeys, SumAmounts, EventCount, TargetFor, CanTransition, AssertTransition, FindRule;
    CountsFirstTwo(db.transfers);
    FullyPaid();
    PaidEdge();
    assert Settle(db, 7, SHOP, PAID, [A, B], 100, 0) == CreditAll(Evaluated(db, 7, PAID, 100), 7, 0, [A, B], 0);
  }

  lemma FullyPaid()
    ensures TargetFor(TERMS.(status := CONFIRMING), 100) == Commit(Some(PAID))
  {
    hide BpsFloor;
    BpsBounds(100, 0);
  }

  lemma PaidEdge()
    ensures CanTransition(CONFIRMING, PAID) && AssertTransition(CONFIRMING, PAID, MONITOR)
  {
  }

  // ---------------------------------------------------------------- the reorg

  /** After the replacement of block 10. */
  function Frozen10(): Db {
    HandleReorg(Reached(PAID_UP), 0, 10).db
  }

  lemma AfterPayment()
    ensures var db := Reached(PAID_UP);
            && Inv(db) && 7 in db.invoices && db.invoices[7].status == PAID && db.invoices[7].requiredConfirmations == 2
            && db.transfers == Credited(Credited(Rows(2), A, 0), B, 0) && db.txs == MINED_TXS && db.transferOrder == [A, B, C, D]
  {
    hide Reached, Next, Inv;
    ReachedInv(PAID_UP);
    AllSeen();
    RunSnoc(SEEN, Confirm(B, Some(7), 2, 0));
    PaidInTwo(Reached(SEEN));
  }

  /** Both credits of the invoice lie in orphaned transactions; one discrepancy is recorded. */
  lemma TwoCreditsOneDiscrepancy()
    ensures var db := Frozen10();
            && A in db.transfers && db.transfers[A].creditedAt.Some? && db.transfers[A].invoiceId == Some(7)
            && B in db.transfers && db.transfers[B].creditedAt.Some? && db.transfers[B].invoiceId == Some(7)
            && TxKey(0, 1) in db.txs && db.txs[TxKey(0, 1)].status == ORPHANED_TX
            && TxKey(0, 2) in db.txs && db.txs[TxKey(0, 2)].status == ORPHANED_TX
            && Frozen(db, Some(7)) && DiscrepancyCount(db.discrepancies, 7) == 1
  {
    hide Reached, Inv, HandleReorg, Extends;
    AfterPayment();
    var before, after := Reached(PAID_UP), Frozen10();
    ReorgOn(before, 0, 10);
    Orphans(before);
    assert OrphanedRow(before, after, A, true) && OrphanedRow(before, after, B, true);
    OneDiscrepancy(after);
  }

  lemma Orphans(db: Db)
    requires Inv(db) && db.txs == MINED_TXS
    ensures var after := HandleReorg(db, 0, 10).db;
            && TxKey(0, 1) in after.txs && after.txs[TxKey(0, 1)].status == ORPHANED_TX
            && TxKey(0, 2) in after.txs && after.txs[TxKey(0, 2)].status == ORPHANED_TX
  {
    hide Inv, Extends, OrphanAll, ReorgEffect;
    TxsListed(db);
    var keys := ReorgKeys(db.txOrder, db.txs, 0, 10);
    assert TxKey(0, 1) in keys && TxKey(0, 2) in keys;
    OrphanAllEffect(db, keys);
    OrphanedIn(db, OrphanAll(db, keys).db, keys, TxKey(0, 1));
    OrphanedIn(db, OrphanAll(db, keys).db, keys, TxKey(0, 2));
  }

  lemma OrphanedIn(a: Db, b: Db, keys: seq<TxKey>, k: TxKey)
    requires ReorgEffect(a, b, keys) && k in keys && k in a.txs
    ensures k in b.txs && b.txs[k].status == ORPHANED_TX && b.transferOrder == a.transferOrder
  {
    hide OrphanedRow;
  }

  lemma TxsListed(db: Db)
    requires Inv(db)
    ensures forall k :: k in db.txOrder <==> k in db.txs
  {
  }

  lemma OneDiscrepancy(db: Db)
    requires Inv(db) && Frozen(db, Some(7))
    ensures DiscrepancyCount(db.discrepancies, 7) == 1
  {
  }

  /** The third transfer of the invoice is still pending, and the other invoice's transfer is behind it. */
  lemma ThirdIsStuck()
    ensures var db := Frozen10();
            && Inv(db) && Stuck(db, 0, C, 7) && db.invoices[7].requiredConfirmations == 2 && Behind(db.transferOrder, C, D)
            && D in db.transfers && db.transfers[D] == Row(8, 100, 0)
  {
    hide Reached, Inv, HandleReorg, Extends, ReorgEffect;
    AfterPayment();
    TwoCreditsOneDiscrepancy();
    var before, after := Reached(PAID_UP), Frozen10();
    ReorgOn(before, 0, 10);
    assert OrphanedRow(before, after, C, false) && OrphanedRow(before, after, D, false);
    SameTerms(before);
    assert after.transferOrder[2] == C && after.transferOrder[3] == D;
  }

  lemma SameTerms(db: Db)
    requires Inv(db) && db.txs == MINED_TXS && 7 in db.invoices
    ensures var after := HandleReorg(db, 0, 10).db;
            && 7 in after.invoices && after.invoices[7].requiredConfirmations == db.invoices[7].requiredConfirmations
            && after.transferOrder == db.transferOrder
  {
    hide Inv, OrphanAll, ReorgEffect;
    TxsListed(db);
    var keys := ReorgKeys(db.txOrder, db.txs, 0, 10);
    assert TxKey(0, 1) in keys;
    OrphanAllEffect(db, keys);
    OrphanedIn(db, OrphanAll(db, keys).db, keys, TxKey(0, 1));
    assert InvoiceExtends(db.invoices[7], OrphanAll(db, keys).db.invoices[7]);
  }

  /**
   * The third transfer then confirms: from that report on every pass throws, and the transfer that pays
   * the other invoice, listed behind it, never gets a confirmation.
   */
  lemma OtherInvoiceHeldUp(visits: seq<Visit>)
    requires forall v :: v in visits ==> v.report(C) >= 2
    ensures D in Frozen10().transfers && Frozen10().transfers[D] == Row(8, 100, 0)
    ensures var db := PassAll(Frozen10(), 0, visits); D in db.transfers && db.transfers[D].confirmations == 0
    ensures forall i :: 0 <= i < |visits| ==> !Pass(PassAll(Frozen10(), 0, visits[..i]), 0, visits[i].report, visits[i].now).completed
  {
    hide Frozen10, Inv, Stuck, Behind, Pass, PassAll;
    ThirdIsStuck();
    StoppedForEver(Frozen10(), 0, visits, C, 7, D);
  }
}
