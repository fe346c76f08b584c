/** Concrete runs on which the pipeline does not do what its comments say. */
module PipelineInputs {
  import opened Basics
  import opened StateMachine
  import opened Ledger
  import opened Payments
  import opened Rounding
  import opened Pipeline
  import opened PipelineInvariant
  import opened PipelineTheorems
  import opened PipelineConfirm
  import opened PipelinePass
  import opened PipelineRecording

  // One merchant without a fee who accepts no partial payment; one invoice of 100 units that asks for
  // two confirmations; a transfer of 40 units and then one of 30 to its address.

  const SHOP: Merchant := Merchant(0, false, false)
  const TILL: AddressKey := AddressKey(0, 5)
  const TERMS: Invoice := Invoice(0, 0, 0, 6, 100, 0, 0, 2, 1000, TILL, PENDING, 0, 0)
  const COIN: Config := Config(map[(0, None) := AssetConfig(0, 1)], 0)
  const A: TransferKey := TransferKey(0, 1, -1)
  const B: TransferKey := TransferKey(0, 2, -1)

  function Row(amount: int, confirmations: nat): Transfer {
    Transfer(Some(0), amount, Some(7), PENDING_CONFIRMATION, confirmations, None)
  }

  function Sighting(hash: Hash, amount: int): Step {
    Process(COIN, 0, ChainTx(hash, Some(10), TX_SUCCESS, 0), [ParsedTransfer(-1, None, 5, amount)], 0)
  }

  /** The tables with the invoice in a given status and both transfers seen. */
  function Seen(invoice: Invoice, a: nat, b: nat, events: seq<Event>): Db {
    Db(map[0 := SHOP], map[TILL := AddressRow(ASSIGNED, Some(7))], map[7 := invoice],
       [TxKey(0, 1), TxKey(0, 2)], map[TxKey(0, 1) := TxRow(MINED, Some(10)), TxKey(0, 2) := TxRow(MINED, Some(10))],
       [A, B], map[A := Row(40, a), B := Row(30, b)], events, EMPTY_BOOK, [])
  }

  const BORN: seq<Event> := [Event(7, None, CREATED, 1, SYSTEM), Event(7, Some(CREATED), PENDING, 2, SYSTEM)]
  const DETECTED_ONCE: seq<Event> := BORN + [Event(7, Some(PENDING), DETECTED, 3, MONITOR)]

  function Opened(): Db {
    EMPTY_DB.(merchants := map[0 := SHOP], addresses := map[TILL := AddressRow(ASSIGNED, Some(7))], invoices := map[7 := TERMS], events := BORN)
  }

  function FirstSeen(): Db {
    Opened().(invoices := map[7 := TERMS.(status := DETECTED)], txOrder := [TxKey(0, 1)], txs := map[TxKey(0, 1) := TxRow(MINED, Some(10))],
              transferOrder := [A], transfers := map[A := Row(40, 0)], events := DETECTED_ONCE)
  }

  lemma OpensAs()
    ensures Run(EMPTY_DB, [AddMerchant(0, SHOP), AddAddress(TILL), Create(7, TERMS)]) == Opened()
  {
    var s1, s2, s3 := AddMerchant(0, SHOP), AddAddress(TILL), Create(7, TERMS);
    assert [s1, s2, s3][..2] == [s1, s2] && [s1, s2][..1] == [s1] && [s1][..0] == [];
    var d1 := EMPTY_DB.(merchants := map[0 := SHOP]);
    assert Next(EMPTY_DB, s1) == d1;
    var d2 := d1.(addresses := map[TILL := AddressRow(AVAILABLE, None)]);
    assert Next(d1, s2) == d2;
    assert d2.addresses[TILL := AddressRow(ASSIGNED, Some(7))] == Opened().addresses;
    assert d2.invoices[7 := TERMS] == Opened().invoices;
    assert [] + [BORN[0]] + [BORN[1]] == BORN;
    assert CreateInvoice(d2, 7, TERMS).value == Opened();
    assert Run(EMPTY_DB, [s1]) == d1;
    assert Run(EMPTY_DB, [s1, s2]) == d2;
  }

  lemma FirstSighting()
    ensures Next(Opened(), Sighting(1, 40)) == FirstSeen()
  {
    var db := RecordChainTransaction(Opened(), 0, ChainTx(1, Some(10), TX_SUCCESS, 0));
    var t := ParsedTransfer(-1, None, 5, 40);
    assert InvoiceAt(db, TILL) == Some(7);
    assert ClassifiedRow(db, COIN, 0, ChainTx(1, Some(10), TX_SUCCESS, 0), t, 0) == Row(40, 0);
    CountBorn();
    var put := PutTransfer(db, A, Row(40, 0));
    assert put.transfers == FirstSeen().transfers && put.txs == FirstSeen().txs && put.transferOrder == [A] && put.txOrder == FirstSeen().txOrder;
    assert put.invoices[7 := TERMS.(status := DETECTED)] == FirstSeen().invoices;
    assert Guarded(put, 7, DETECTED).value == FirstSeen();
    assert RecordTransfer(db, COIN, 0, ChainTx(1, Some(10), TX_SUCCESS, 0), t, 0) == Guarded(put, 7, DETECTED);
    assert [t][1..] == [];
  }

  lemma CountBorn()
    ensures EventCount(BORN, 7) == 2
  {
    assert BORN[..1] == [BORN[0]] && BORN[..1][..0] == [];
  }

  lemma SecondSighting()
    ensures Next(FirstSeen(), Sighting(2, 30)) == Seen(TERMS.(status := DETECTED), 0, 0, DETECTED_ONCE)
  {
    var db := RecordChainTransaction(FirstSeen(), 0, ChainTx(2, Some(10), TX_SUCCESS, 0));
    var t := ParsedTransfer(-1, None, 5, 30);
    assert InvoiceAt(db, TILL) == Some(7);
    assert ClassifiedRow(db, COIN, 0, ChainTx(2, Some(10), TX_SUCCESS, 0), t, 0) == Row(30, 0);
    var seen := Seen(TERMS.(status := DETECTED), 0, 0, DETECTED_ONCE);
    var put := PutTransfer(db, B, Row(30, 0));
    assert put.transfers == seen.transfers && put.txs == seen.txs && put.transferOrder == [A, B] && put.txOrder == seen.txOrder;
    assert put == seen;
    assert Guarded(put, 7, DETECTED) == Commit(seen);
    assert RecordTransfer(db, COIN, 0, ChainTx(2, Some(10), TX_SUCCESS, 0), t, 0) == Guarded(put, 7, DETECTED);
    assert [t][1..] == [];
  }

  function BothSeen(): seq<Step> {
    [AddMerchant(0, SHOP), AddAddress(TILL), Create(7, TERMS)] + [Sighting(1, 40), Sighting(2, 30)]
  }

  lemma BothSeenReached()
    ensures Reached(BothSeen()) == Seen(TERMS.(status := DETECTED), 0, 0, DETECTED_ONCE)
  {
    hide Next;
    OpensAs();
    FirstSighting();
    SecondSighting();
    var opening, sightings := [AddMerchant(0, SHOP), AddAddress(TILL), Create(7, TERMS)], [Sighting(1, 40), Sighting(2, 30)];
    RunSplits(EMPTY_DB, opening, sightings);
    assert sightings[..1] == [Sighting(1, 40)] && sightings[..1][..0] == [];
    assert Run(Opened(), []) == Opened();
    assert Run(Opened(), sightings[..1]) == FirstSeen();
  }

  // ---------------------------------------------------------------- a pass that is left CONFIRMING

  /** The chain reports two confirmations of the first transfer and one of the second. */
  function Reported(k: TransferKey): nat {
    if k == A then 2 else 1
  }

  function Invoiced(status: Status): Invoice {
    TERMS.(status := status, receivedAmount := 40, confirmedAmount := 40)
  }

  lemma Moved(invoice: Invoice, a: nat, b: nat, events: seq<Event>, to: Status)
    ensures Move(Seen(invoice, a, b, events), 7, to, MONITOR) ==
            Seen(invoice.(status := to), a, b, events + [Event(7, Some(invoice.status), to, EventCount(events, 7) + 1, MONITOR)])
  {
    var invoices := map[7 := invoice];
    assert invoices[7 := invoice.(status := to)] == map[7 := invoice.(status := to)];
  }

  lemma Counted(invoice: Invoice, a: nat, b: nat, events: seq<Event>, c: nat)
    ensures SetConfirmations(Seen(invoice, a, b, events), A, c) == Seen(invoice, c, b, events)
    ensures SetConfirmations(Seen(invoice, a, b, events), B, c) == Seen(invoice, a, c, events)
  {
    var db := Seen(invoice, a, b, events);
    assert db.transfers[A := Row(40, c)] == map[A := Row(40, c), B := Row(30, b)];
    assert db.transfers[B := Row(30, c)] == map[A := Row(40, a), B := Row(30, c)];
  }

  /** Only the first transfer counts: 40 of 100, which this merchant does not accept. */
  lemma Underpaid(invoice: Invoice, events: seq<Event>, b: nat, now: Time)
    requires b < 2 && invoice == TERMS.(status := CONFIRMING, receivedAmount := invoice.receivedAmount, confirmedAmount := invoice.confirmedAmount)
    ensures FinalizeInvoice(Seen(invoice, 2, b, events), 7, now) ==
            Commit(Seen(Invoiced(UNDERPAID), 2, b, events + [Event(7, Some(CONFIRMING), UNDERPAID, EventCount(events, 7) + 1, MONITOR)]))
  {
    hide EventCount, BpsFloor;
    var db := Seen(invoice, 2, b, events);
    OnlyFirst(db.transfers);
    BpsBounds(100, 0);
    assert TargetFor(invoice, 40) == Commit(Some(UNDERPAID));
    hide TargetFor, EligibleKeys, SumAmounts;
    Moved(invoice, 2, b, events, UNDERPAID);
    var moved := Move(db, 7, UNDERPAID, MONITOR);
    assert moved.invoices[7 := Invoiced(UNDERPAID)] == map[7 := Invoiced(UNDERPAID)];
    assert Evaluated(db, 7, UNDERPAID, 40) == moved.(invoices := map[7 := Invoiced(UNDERPAID)]);
    assert Settle(db, 7, SHOP, UNDERPAID, [A], 40, now) == Commit(Evaluated(db, 7, UNDERPAID, 40));
  }

  lemma OnlyFirst(m: map<TransferKey, Transfer>)
    requires A in m && B in m && m[A] == Row(40, 2) && m[B].confirmations < 2
    ensures EligibleKeys([A, B], m, 7, 2) == [A] && SumAmounts([A], m) == 40
  {
    assert [A, B][..1] == [A] && [A][..0] == [];
    assert EligibleKeys([A], m, 7, 2) == [A];
  }

  lemma PendingBoth(invoice: Invoice, a: nat, b: nat, events: seq<Event>)
    ensures PendingRows([A, B], Seen(invoice, a, b, events).transfers, 0) == [Pending(A, Some(7)), Pending(B, Some(7))]
  {
    assert [A, B][..1] == [A] && [A][..0] == [];
    assert PendingRows([A], Seen(invoice, a, b, events).transfers, 0) == [Pending(A, Some(7))];
  }

  function SixEvents(): seq<Event> {
    DETECTED_ONCE + [Event(7, Some(DETECTED), CONFIRMING, 4, MONITOR)] + [Event(7, Some(CONFIRMING), UNDERPAID, 5, MONITOR)] +
    [Event(7, Some(UNDERPAID), CONFIRMING, 6, MONITOR)]
  }

  lemma {:induction false} CountAll(events: seq<Event>)
    requires forall i :: 0 <= i < |events| ==> events[i].invoiceId == 7
    ensures EventCount(events, 7) == |events|
  {
    if events != [] { CountAll(events[..|events| - 1]); }
  }

  /** One confirmed row by its three writes. */
  lemma ThreeWrites(db: Db, db1: Db, db2: Db, db3: Db, key: TransferKey, c: nat, now: Time)
    requires key in db.transfers && SetConfirmations(db, key, c) == db1 && 7 in db1.invoices && c >= 1
    requires Guarded(db1, 7, CONFIRMING) == Commit(db2) && 1 <= db1.invoices[7].requiredConfirmations <= c
    requires FinalizeInvoice(db2, 7, now) == Commit(db3)
    ensures ConfirmTransfer(db, key, Some(7), c, now) == Commit(db3)
  {
    hide SetConfirmations, Guarded, FinalizeInvoice;
  }

  lemma FirstRow(now: Time)
    ensures ConfirmTransfer(Seen(TERMS.(status := DETECTED), 0, 0, DETECTED_ONCE), A, Some(7), 2, now) ==
            Commit(Seen(Invoiced(UNDERPAID), 2, 0, SixEvents()[..5]))
  {
    hide FinalizeInvoice, ConfirmTransfer, SetConfirmations, EventCount, Move;
    CountAll(DETECTED_ONCE);
    CountAll(SixEvents()[..4]);
    Counted(TERMS.(status := DETECTED), 0, 0, DETECTED_ONCE, 2);
    Moved(TERMS.(status := DETECTED), 2, 0, DETECTED_ONCE, CONFIRMING);
    assert SixEvents()[..4] == DETECTED_ONCE + [Event(7, Some(DETECTED), CONFIRMING, 4, MONITOR)];
    assert SixEvents()[..5] == SixEvents()[..4] + [Event(7, Some(CONFIRMING), UNDERPAID, 5, MONITOR)];
    Underpaid(TERMS.(status := CONFIRMING), SixEvents()[..4], 0, now);
    var db1 := Seen(TERMS.(status := DETECTED), 2, 0, DETECTED_ONCE);
    var db2 := Seen(TERMS.(status := CONFIRMING), 2, 0, SixEvents()[..4]);
    assert Guarded(db1, 7, CONFIRMING) == Commit(db2);
    ThreeWrites(Seen(TERMS.(status := DETECTED), 0, 0, DETECTED_ONCE), db1, db2, Seen(Invoiced(UNDERPAID), 2, 0, SixEvents()[..5]), A, 2, now);
  }

  lemma SecondRow(now: Time)
    ensures ConfirmTransfer(Seen(Invoiced(UNDERPAID), 2, 0, SixEvents()[..5]), B, Some(7), 1, now) ==
            Commit(Seen(Invoiced(CONFIRMING), 2, 1, SixEvents()))
  {
    CountAll(SixEvents()[..5]);
    Counted(Invoiced(UNDERPAID), 2, 0, SixEvents()[..5], 1);
    Moved(Invoiced(UNDERPAID), 2, 1, SixEvents()[..5], CONFIRMING);
    assert SixEvents() == SixEvents()[..5] + [Event(7, Some(UNDERPAID), CONFIRMING, 6, MONITOR)];
    hide FinalizeInvoice, Move, SetConfirmations, EventCount, SixEvents;
  }

  /** The pass goes UNDERPAID at the first transfer and back to CONFIRMING at the second. */
  lemma LeftConfirming(now: Time)
    ensures Pass(Reached(BothSeen()), 0, Reported, now) == Loop(Seen(Invoiced(CONFIRMING), 2, 1, SixEvents()), true)
  {
    hide ConfirmTransfer, Reached, BothSeen, PendingRows, ConfirmAll;
    BothSeenReached();
    FirstRow(now);
    SecondRow(now);
    PendingBoth(TERMS.(status := DETECTED), 0, 0, DETECTED_ONCE);
    var ps := [Pending(A, Some(7)), Pending(B, Some(7))];
    assert Answers(Reported, ps) == [2, 1];
    TwoRows(Reached(BothSeen()), Seen(Invoiced(UNDERPAID), 2, 0, SixEvents()[..5]), Seen(Invoiced(CONFIRMING), 2, 1, SixEvents()), ps, [2, 1], now);
  }

  lemma TwoRows(db: Db, db1: Db, db2: Db, ps: seq<Pending>, cs: seq<nat>, now: Time)
    requires |ps| == |cs| == 2
    requires ConfirmTransfer(db, ps[0].key, ps[0].invoiceId, cs[0], now) == Commit(db1)
    requires ConfirmTransfer(db1, ps[1].key, ps[1].invoiceId, cs[1], now) == Commit(db2)
    ensures ConfirmAll(db, ps, cs, now) == Loop(db2, true)
  {
    hide ConfirmTransfer;
    assert ps[1..] == [ps[1]] && cs[1..] == [cs[1]] && ps[1..][1..] == [] && cs[1..][1..] == [];
    assert ConfirmAll(db1, ps[1..], cs[1..], now) == ConfirmAll(db2, [], [], now);
  }

  /** Left CONFIRMING and not UNDERPAID, the same report moves the invoice again on every repetition. */
  lemma RepeatedPassMoves(now: Time, later: Time)
    ensures var once := Pass(Reached(BothSeen()), 0, Reported, now);
            && once.completed && 7 in once.db.invoices && once.db.invoices[7].status == CONFIRMING
            && Pass(once.db, 0, Reported, later).db != once.db
  {
    hide Reached, BothSeen, PendingRows, SixEvents, Pass, TotalAt, Verdict, RefusedAt;
    LeftConfirming(now);
    RepeatedPass(BothSeen(), 0, Reported, now, later);
    var once := Seen(Invoiced(CONFIRMING), 2, 1, SixEvents());
    PendingBoth(Invoiced(CONFIRMING), 2, 1, SixEvents());
    var ps := [Pending(A, Some(7)), Pending(B, Some(7))];
    FirstTotal(once);
    assert !ThrowsOn(once, ps, Answers(Reported, ps), 0);
    assert DueAt(once, 0, Reported, 0);
  }

  lemma FirstTotal(once: Db)
    requires once == Seen(Invoiced(CONFIRMING), 2, 1, SixEvents())
    ensures TotalAt(once, A, 7, 2) == 40 && Verdict(Invoiced(CONFIRMING), 40) == UNDERPAID
  {
    Counted(Invoiced(CONFIRMING), 2, 1, SixEvents(), 2);
    OnlyFirst(once.transfers);
    BpsBounds(100, 0);
  }

  // ---------------------------------------------------------------- a second sighting

  /** Both transfers seen, the first with one of its two confirmations: the invoice is CONFIRMING. */
  lemma HalfConfirmed(now: Time)
    ensures Next(Seen(TERMS.(status := DETECTED), 0, 0, DETECTED_ONCE), Confirm(A, Some(7), 1, now)) ==
            Seen(TERMS.(status := CONFIRMING), 1, 0, SixEvents()[..4])
  {
    CountAll(DETECTED_ONCE);
    Counted(TERMS.(status := DETECTED), 0, 0, DETECTED_ONCE, 1);
    Moved(TERMS.(status := DETECTED), 1, 0, DETECTED_ONCE, CONFIRMING);
    assert SixEvents()[..4] == DETECTED_ONCE + [Event(7, Some(DETECTED), CONFIRMING, 4, MONITOR)];
    hide FinalizeInvoice, Move, SetConfirmations, EventCount, SixEvents;
  }

  /** One more transfer in time then takes the invoice from CONFIRMING back to DETECTED. */
  lemma SecondSightingFallsBack(now: Time)
    ensures var steps := BothSeen() + [Confirm(A, Some(7), 1, now)];
            && 7 in Reached(steps).invoices && Reached(steps).invoices[7].status == CONFIRMING
            && 7 in Reached(steps + [Sighting(3, 50)]).invoices && Reached(steps + [Sighting(3, 50)]).invoices[7].status == DETECTED
  {
    var steps := BothSeen() + [Confirm(A, Some(7), 1, now)];
    BothSeenReached();
    HalfConfirmed(now);
    assert steps[..|steps| - 1] == BothSeen();
    assert (steps + [Sighting(3, 50)])[..|steps|] == steps;
    var db := Seen(TERMS.(status := CONFIRMING), 1, 0, SixEvents()[..4]);
    assert Reached(steps) == db;
    hide Next, Run, Reached, BothSeen, SixEvents;
    FallsBack(db);
    assert Reached(steps + [Sighting(3, 50)]) == Next(db, Sighting(3, 50)) by { LastStep(steps, Sighting(3, 50)); }
  }

  lemma LastStep(steps: seq<Step>, s: Step)
    ensures Reached(steps + [s]) == Next(Reached(steps), s)
  {
    hide Next;
    assert (steps + [s])[..|steps|] == steps;
  }

  lemma FallsBack(db: Db)
    requires db == Seen(TERMS.(status := CONFIRMING), 1, 0, SixEvents()[..4])
    ensures 7 in Next(db, Sighting(3, 50)).invoices && Next(db, Sighting(3, 50)).invoices[7].status == DETECTED
  {
    hide SixEvents, RecordTransfer, Next;
    var tx, t := ChainTx(3, Some(10), TX_SUCCESS, 0), ParsedTransfer(-1, None, 5, 50);
    var seen := RecordChainTransaction(db, 0, tx);
    assert Owns(seen, TILL, 7) && TransferKey(0, 3, -1) !in seen.transfers && seen.invoices[7] == TERMS.(status := CONFIRMING);
    hide Seen, RecordChainTransaction;
    InTime(seen, tx, t);
    OneTransfer(db, COIN, 0, tx, t, 0);
  }

  lemma InTime(db: Db, tx: ChainTx, t: ParsedTransfer)
    requires Owns(db, TILL, 7) && db.invoices[7] == TERMS.(status := CONFIRMING) && TransferKey(0, tx.hash, t.index) !in db.transfers
    requires tx.status == TX_SUCCESS && t == ParsedTransfer(-1, None, 5, 50)
    ensures var r := RecordTransfer(db, COIN, 0, tx, t, 0); r.Commit? && 7 in r.value.invoices && r.value.invoices[7].status == DETECTED
  {
    hide RecordTransfer;
    RecordExactly(db, COIN, 0, tx, t, 0);
  }
}
