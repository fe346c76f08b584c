/**
 * What a confirmation decides, stated on amounts, tolerances and the merchant's two policies
 * (monitor.service.ts:250-358): who is paid, who is held, and what is credited.
 */
module PipelineSettlement {
  import opened Basics
  import opened StateMachine
  import opened Ledger
  import opened Payments
  import opened Rounding
  import opened Pipeline
  import opened PipelineInvariant
  import opened PipelineSteps
  import opened PipelineConfirm

  // ---------------------------------------------------------------- the question

  /** A transfer of the invoice that counts and has its confirmations. */
  predicate Confirmed(t: Transfer, id: InvoiceId, required: int) {
    t.invoiceId == Some(id) && t.matchStatus in {CREDITED, PENDING_CONFIRMATION} && t.confirmations >= required
  }

  /** The confirmed money of an invoice. */
  function ConfirmedSum(order: seq<TransferKey>, rows: map<TransferKey, Transfer>, id: InvoiceId, required: int): int {
    if order == [] then 0
    else
      var k := order[|order| - 1];
      ConfirmedSum(order[..|order| - 1], rows, id, required) + if k in rows && Confirmed(rows[k], id, required) then rows[k].amount else 0
  }

  /** Short by more than the underpayment tolerance. */
  predicate TooLittle(inv: Invoice, total: int) {
    10000 * (inv.cryptoAmount - total) > inv.cryptoAmount * inv.underBps
  }

  /** Over by more than the overpayment tolerance. */
  predicate TooMuch(inv: Invoice, total: int) {
    10000 * (total - inv.cryptoAmount) > inv.cryptoAmount * inv.overBps
  }

  /** Within tolerance, or outside it on a side the merchant accepts. */
  predicate Acceptable(m: Merchant, inv: Invoice, total: int) {
    if TooLittle(inv, total) then m.acceptPartial else if TooMuch(inv, total) then m.acceptFull else true
  }

  // ---------------------------------------------------------------- the answer

  /** The credits of the invoice's confirmed transfers, each once, at the merchant's fee. */
  ghost predicate CreditsOf(ps: seq<CreditParams>, inv: Invoice, id: InvoiceId, feeBps: int, rows: map<TransferKey, Transfer>) {
    && (forall i, j :: 0 <= i < j < |ps| ==> ps[i].key != ps[j].key)
    && (forall i :: 0 <= i < |ps| ==>
          && ps[i].key in rows && Confirmed(rows[ps[i].key], id, inv.requiredConfirmations)
          && ps[i] == CreditParams(inv.merchantId, id, ps[i].key, inv.network, inv.asset, inv.decimals, rows[ps[i].key].amount, feeBps))
    && (forall k :: k in rows && Confirmed(rows[k], id, inv.requiredConfirmations) ==> exists i :: 0 <= i < |ps| && ps[i].key == k)
  }

  /** The invoice is PAID by its confirmed transfers: each credited and posted once, no other row touched. */
  ghost predicate PaidUp(db: Db, rows: map<TransferKey, Transfer>, db': Db, id: InvoiceId, total: int, now: Time)
    requires id in db.invoices && db.invoices[id].merchantId in db.merchants
  {
    var inv := db.invoices[id];
    && db' == db.(invoices := db'.invoices, transfers := db'.transfers, events := db'.events, book := db'.book)
    && db'.invoices == db.invoices[id := inv.(status := PAID, receivedAmount := total, confirmedAmount := total)]
    && db'.transfers.Keys == rows.Keys
    && (forall k :: k in rows ==>
          db'.transfers[k] == if Confirmed(rows[k], id, inv.requiredConfirmations)
                              then rows[k].(matchStatus := CREDITED, creditedAt := Some(now)) else rows[k])
    && exists ps :: CreditsOf(ps, inv, id, db.merchants[inv.merchantId].feeBps, rows) && db'.book == PostAll(db.book, ps)
  }

  /** The invoice is left in this status with the total noted, and nothing is credited or posted. */
  ghost predicate Held(db: Db, rows: map<TransferKey, Transfer>, db': Db, id: InvoiceId, status: Status, total: int)
    requires id in db.invoices
  {
    var inv := db.invoices[id];
    db' == db.(invoices := db.invoices[id := inv.(status := status, receivedAmount := total, confirmedAmount := total)],
               transfers := rows, events := db'.events)
  }

  /** Confirmed money on an invoice under confirmation: paid exactly when acceptable, held otherwise. */
  ghost predicate Decided(db: Db, rows: map<TransferKey, Transfer>, db': Db, id: InvoiceId, total: int, now: Time)
    requires id in db.invoices
  {
    var inv := db.invoices[id];
    && inv.merchantId in db.merchants
    && if Acceptable(db.merchants[inv.merchantId], inv, total) then PaidUp(db, rows, db', id, total, now)
       else Held(db, rows, db', id, if TooLittle(inv, total) then UNDERPAID else OVERPAID, total)
  }

  // ---------------------------------------------------------------- the total

  lemma {:induction false} EligibleAre(order: seq<TransferKey>, rows: map<TransferKey, Transfer>, id: InvoiceId, required: int, k: TransferKey)
    ensures k in EligibleKeys(order, rows, id, required) <==> k in order && k in rows && Confirmed(rows[k], id, required)
  {
    hide Confirmed, Eligible;
    if order != [] {
      var init, last := order[..|order| - 1], order[|order| - 1];
      EligibleAre(init, rows, id, required, k);
      assert order == init + [last];
      if k in rows { ConfirmedIsEligible(rows[k], id, required); }
    }
  }

  lemma {:induction false} EligibleSum(order: seq<TransferKey>, rows: map<TransferKey, Transfer>, id: InvoiceId, required: int)
    ensures SumAmounts(EligibleKeys(order, rows, id, required), rows) == ConfirmedSum(order, rows, id, required)
  {
    hide Confirmed, Eligible;
    if order != [] {
      var init, k := order[..|order| - 1], order[|order| - 1];
      EligibleSum(init, rows, id, required);
      var ks := EligibleKeys(init, rows, id, required);
      if k in rows && Eligible(rows[k], id, required) {
        ConfirmedIsEligible(rows[k], id, required);
        assert EligibleKeys(order, rows, id, required) == ks + [k];
        assert (ks + [k])[..|ks|] == ks;
      } else {
        if k in rows { ConfirmedIsEligible(rows[k], id, required); }
        assert EligibleKeys(order, rows, id, required) == ks;
      }
    }
  }

  lemma TotalIsSum(order: seq<TransferKey>, rows: map<TransferKey, Transfer>, id: InvoiceId, required: int)
    ensures SumAmounts(EligibleKeys(order, rows, id, required), rows) == ConfirmedSum(order, rows, id, required)
    ensures forall k :: k in EligibleKeys(order, rows, id, required) <==> k in order && k in rows && Confirmed(rows[k], id, required)
  {
    hide Confirmed, ConfirmedSum, EligibleKeys, SumAmounts;
    EligibleSum(order, rows, id, required);
    forall k ensures k in EligibleKeys(order, rows, id, required) <==> k in order && k in rows && Confirmed(rows[k], id, required) {
      EligibleAre(order, rows, id, required, k);
    }
  }

  lemma ConfirmedIsEligible(t: Transfer, id: InvoiceId, required: int)
    ensures Confirmed(t, id, required) <==> Eligible(t, id, required)
  {
  }

  /** The accepted band, as products: below it is too little, above it too much. */
  lemma BandMeaning(inv: Invoice, total: int)
    requires inv.cryptoAmount > 0 && ValidBps(inv.underBps) && ValidBps(inv.overBps)
    ensures total < MinimumAccepted(inv.cryptoAmount, inv.underBps) <==> TooLittle(inv, total)
    ensures total > MaximumAccepted(inv.cryptoAmount, inv.overBps) <==> TooMuch(inv, total)
    ensures !(TooLittle(inv, total) && TooMuch(inv, total))
  {
    BpsBounds(inv.cryptoAmount, inv.underBps);
    BpsBounds(inv.cryptoAmount, inv.overBps);
    FloorBrackets(inv.cryptoAmount * inv.underBps, 10000);
    FloorBrackets(inv.cryptoAmount * inv.overBps, 10000);
  }

  lemma TargetMeaning(inv: Invoice, total: int)
    requires inv.cryptoAmount > 0 && ValidBps(inv.underBps) && ValidBps(inv.overBps) && total > 0
    ensures TargetFor(inv, total) ==
            Commit(Some(if TooLittle(inv, total) then UNDERPAID else if TooMuch(inv, total) then OVERPAID else PAID))
  {
    BandMeaning(inv, total);
    hide MinimumAccepted, MaximumAccepted, TooLittle, TooMuch;
  }

  // ---------------------------------------------------------------- the credits

  lemma CreditOneExactly(db: Db, id: InvoiceId, feeBps: int, k: TransferKey, now: Time)
    requires id in db.invoices && k in db.transfers && !Posted(db.book.txs, k) && CreditOne(db, id, feeBps, k, now).Commit?
    ensures var db' := CreditOne(db, id, feeBps, k, now).value;
            var p := CreditFor(db.invoices[id], id, feeBps, k, db.transfers[k].amount);
            && PostCredit(db.book, p).Commit? && db'.book == PostCredit(db.book, p).value.book
            && db' == db.(book := db'.book, transfers := db.transfers[k := db.transfers[k].(matchStatus := CREDITED, creditedAt := Some(now))])
  {
    hide Legs, LegsAccepted, WithAccounts, Posted;
  }

  lemma {:induction false} PostAllCons(b: Book, p: CreditParams, ps: seq<CreditParams>)
    requires PostCredit(b, p).Commit?
    ensures PostAll(b, [p] + ps) == PostAll(PostCredit(b, p).value.book, ps)
    decreases |ps|
  {
    hide PostCredit;
    if ps == [] {
      assert [p] + ps == [p] && [p][..0] == [];
    } else {
      var init := ps[..|ps| - 1];
      assert ([p] + ps)[..|ps|] == [p] + init;
      PostAllCons(b, p, init);
    }
  }

  function Params(inv: Invoice, id: InvoiceId, feeBps: int, keys: seq<TransferKey>, rows: map<TransferKey, Transfer>): (ps: seq<CreditParams>)
    requires forall k :: k in keys ==> k in rows
    ensures |ps| == |keys| && forall i :: 0 <= i < |keys| ==> ps[i] == CreditFor(inv, id, feeBps, keys[i], rows[keys[i]].amount)
  {
    seq(|keys|, i requires 0 <= i < |keys| => CreditFor(inv, id, feeBps, keys[i], rows[keys[i]].amount))
  }

  /** Exactly the listed rows became credited. */
  ghost predicate CreditedRows(a: map<TransferKey, Transfer>, b: map<TransferKey, Transfer>, keys: seq<TransferKey>, now: Time) {
    && b.Keys == a.Keys
    && forall k :: k in a ==> b[k] == if k in keys then a[k].(matchStatus := CREDITED, creditedAt := Some(now)) else a[k]
  }

  lemma CreditedFirst(a: map<TransferKey, Transfer>, b: map<TransferKey, Transfer>, keys: seq<TransferKey>, now: Time)
    requires Distinct(keys) && keys != [] && keys[0] in a
    requires CreditedRows(a[keys[0] := a[keys[0]].(matchStatus := CREDITED, creditedAt := Some(now))], b, keys[1..], now)
    ensures CreditedRows(a, b, keys, now)
  {
    assert keys == [keys[0]] + keys[1..];
    assert keys[0] !in keys[1..];
  }

  lemma ParamsFirst(inv: Invoice, id: InvoiceId, feeBps: int, keys: seq<TransferKey>, rows: map<TransferKey, Transfer>, rows': map<TransferKey, Transfer>)
    requires keys != [] && (forall k :: k in keys ==> k in rows) && forall k :: k in keys[1..] ==> k in rows' && rows'[k] == rows[k]
    ensures keys[0] in rows
    ensures Params(inv, id, feeBps, keys, rows) ==
            [CreditFor(inv, id, feeBps, keys[0], rows[keys[0]].amount)] + Params(inv, id, feeBps, keys[1..], rows')
  {
    hide CreditFor;
    assert keys[0] in keys;
    var all, rest := Params(inv, id, feeBps, keys, rows), Params(inv, id, feeBps, keys[1..], rows');
    hide Params;
    forall i | 0 <= i < |keys| - 1 ensures all[i + 1] == rest[i] {
      assert keys[1..][i] in keys[1..] && keys[i + 1] == keys[1..][i];
    }
  }

  /** Exactly the listed rows are credited, and exactly their credits are posted. */
  lemma {:induction false} CreditAllExactly(db: Db, id: InvoiceId, feeBps: int, keys: seq<TransferKey>, now: Time)
    requires Core(db) && id in db.invoices && Creditable(db, id, keys) && CreditAll(db, id, feeBps, keys, now).Commit?
    ensures var db' := CreditAll(db, id, feeBps, keys, now).value;
            && db' == db.(book := db'.book, transfers := db'.transfers)
            && db'.book == PostAll(db.book, Params(db.invoices[id], id, feeBps, keys, db.transfers))
            && CreditedRows(db.transfers, db'.transfers, keys, now)
    decreases |keys|
  {
    hide Core, PostCredit, CreditFor, CreditOne, CreditedRows;
    if keys == [] {
      assert Params(db.invoices[id], id, feeBps, keys, db.transfers) == [];
      assert CreditedRows(db.transfers, db.transfers, [], now) by { NoneCredited(db.transfers, now); }
    } else {
      var k := keys[0];
      assert k in keys;
      assert !Posted(db.book.txs, k) by { NotPosted(db, k); }
      CreditOneExactly(db, id, feeBps, k, now);
      CreditOneKeepsCore(db, id, feeBps, k, now);
      CreditableTail(db, id, feeBps, keys, now);
      var db1 := CreditOne(db, id, feeBps, k, now).value;
      hide Creditable;
      CreditAllExactly(db1, id, feeBps, keys[1..], now);
      ParamsFirst(db.invoices[id], id, feeBps, keys, db.transfers, db1.transfers);
      PostAllCons(db.book, CreditFor(db.invoices[id], id, feeBps, k, db.transfers[k].amount), Params(db.invoices[id], id, feeBps, keys[1..], db1.transfers));
      hide PostAll;
      CreditedFirst(db.transfers, CreditAll(db, id, feeBps, keys, now).value.transfers, keys, now) by { CreditableDistinct(db, id, keys); }
    }
  }

  lemma CreditableDistinct(db: Db, id: InvoiceId, keys: seq<TransferKey>)
    requires Creditable(db, id, keys)
    ensures Distinct(keys)
  {
  }

  lemma NoneCredited(rows: map<TransferKey, Transfer>, now: Time)
    ensures CreditedRows(rows, rows, [], now)
  {
  }

  lemma NotPosted(db: Db, k: TransferKey)
    requires Core(db) && k in db.transfers && db.transfers[k].matchStatus != CREDITED
    ensures !Posted(db.book.txs, k)
  {
  }

  // ---------------------------------------------------------------- finalisation

  lemma CreditsAre(db: Db, id: InvoiceId, feeBps: int, keys: seq<TransferKey>)
    requires id in db.invoices && Distinct(keys)
    requires forall k :: k in keys <==> k in db.transfers && Confirmed(db.transfers[k], id, db.invoices[id].requiredConfirmations)
    ensures CreditsOf(Params(db.invoices[id], id, feeBps, keys, db.transfers), db.invoices[id], id, feeBps, db.transfers)
  {
    var ps := Params(db.invoices[id], id, feeBps, keys, db.transfers);
    hide Confirmed;
    forall k | k in db.transfers && Confirmed(db.transfers[k], id, db.invoices[id].requiredConfirmations) ensures exists i :: 0 <= i < |ps| && ps[i].key == k {
      var i :| 0 <= i < |keys| && keys[i] == k;
      assert ps[i].key == k;
    }
    assert forall i :: 0 <= i < |ps| ==> keys[i] in keys;
  }

  lemma TablesListed(db: Db, id: InvoiceId)
    requires Inv(db) && id in db.invoices
    ensures Distinct(db.transferOrder) && forall k :: k in db.transferOrder <==> k in db.transfers
    ensures db.invoices[id].cryptoAmount > 0 && ValidBps(db.invoices[id].underBps) && ValidBps(db.invoices[id].overBps)
    ensures db.invoices[id].requiredConfirmations >= 1 && db.invoices[id].status in AUTOMATED
  {
  }

  /** The credit loop after the move to PAID. */
  lemma PaysUp(db: Db, paid: Db, id: InvoiceId, keys: seq<TransferKey>, total: int, now: Time)
    requires Core(paid) && id in db.invoices && Creditable(paid, id, keys) && db.invoices[id].merchantId in db.merchants
    requires Distinct(keys) && forall k :: k in keys <==> k in db.transfers && Confirmed(db.transfers[k], id, db.invoices[id].requiredConfirmations)
    requires paid == db.(invoices := db.invoices[id := db.invoices[id].(status := PAID, receivedAmount := total, confirmedAmount := total)], events := paid.events)
    requires CreditAll(paid, id, db.merchants[db.invoices[id].merchantId].feeBps, keys, now).Commit?
    ensures PaidUp(db, db.transfers, CreditAll(paid, id, db.merchants[db.invoices[id].merchantId].feeBps, keys, now).value, id, total, now)
  {
    hide Core, Confirmed, CreditsOf, Creditable;
    var fee := db.merchants[db.invoices[id].merchantId].feeBps;
    CreditAllExactly(paid, id, fee, keys, now) by { CreditableKeys(paid, id, keys); }
    CreditableKeys(paid, id, keys);
    CreditsAre(db, id, fee, keys);
    hide CreditAll;
    assert Params(paid.invoices[id], id, fee, keys, paid.transfers) == Params(db.invoices[id], id, fee, keys, db.transfers);
  }

  lemma CreditableKeys(db: Db, id: InvoiceId, keys: seq<TransferKey>)
    requires Creditable(db, id, keys)
    ensures forall k :: k in keys ==> k in db.transfers
  {
  }

  /** The monitor's moves out of CONFIRMING and OVERPAID. */
  lemma SettlingEdges(v: Status)
    requires v in {PAID, UNDERPAID, OVERPAID}
    ensures CanTransition(CONFIRMING, v) && AssertTransition(CONFIRMING, v, MONITOR)
    ensures CanTransition(OVERPAID, v) <==> v == PAID
    ensures AssertTransition(OVERPAID, PAID, MONITOR) && CanTransition(OVERPAID, PAID) && AssertTransition(UNDERPAID, PAID, MONITOR)
  {
  }

  /** Settlement towards a judged status. */
  lemma SettleExactly(db: Db, id: InvoiceId, v: Status, keys: seq<TransferKey>, total: int, now: Time)
    requires Inv(db) && id in db.invoices && db.invoices[id].merchantId in db.merchants
    requires keys == EligibleKeys(db.transferOrder, db.transfers, id, db.invoices[id].requiredConfirmations) && total == SumAmounts(keys, db.transfers) > 0
    requires db.invoices[id].status in {CONFIRMING, OVERPAID} && v in {PAID, UNDERPAID, OVERPAID} && (db.invoices[id].status == OVERPAID ==> v == PAID)
    requires Settle(db, id, db.merchants[db.invoices[id].merchantId], v, keys, total, now).Commit?
    ensures var m := db.merchants[db.invoices[id].merchantId];
            var db' := Settle(db, id, m, v, keys, total, now).value;
            if v == PAID || (v == OVERPAID && m.acceptFull) || (v == UNDERPAID && m.acceptPartial) then PaidUp(db, db.transfers, db', id, total, now)
            else Held(db, db.transfers, db', id, v, total)
  {
    hide Confirmed, EligibleKeys, SumAmounts, Inv, Core, FindRule, CanTransition, AssertTransition, CreditAll, Creditable;
    var m := db.merchants[db.invoices[id].merchantId];
    TablesListed(db, id);
    TotalIsSum(db.transferOrder, db.transfers, id, db.invoices[id].requiredConfirmations);
    SettlingEdges(v);
    EligibleIsCreditable(db, id);
    JudgedCore(db, id, v, total, keys);
    var db1 := Evaluated(db, id, v, total);
    var db2 := if v == PAID then db1 else Move(db1, id, PAID, MONITOR);
    hide EventCount;
    assert Evaluated(db, id, v, total).invoices == db.invoices[id := db.invoices[id].(status := v, receivedAmount := total, confirmedAmount := total)];
    if AutoAccept(m, v) {
      EligibleDistinct(db.transferOrder, db.transfers, id, db.invoices[id].requiredConfirmations);
      assert db2.invoices == db.invoices[id := db.invoices[id].(status := PAID, receivedAmount := total, confirmedAmount := total)];
      PaysUp(db, db2, id, keys, total, now);
    }
  }

  lemma JudgedCore(db: Db, id: InvoiceId, v: Status, total: int, keys: seq<TransferKey>)
    requires Inv(db) && id in db.invoices && Creditable(db, id, keys)
    requires db.invoices[id].status in {CONFIRMING, OVERPAID} && v in {PAID, UNDERPAID, OVERPAID} && (db.invoices[id].status == OVERPAID ==> v == PAID)
    ensures var db1 := Evaluated(db, id, v, total);
            var db2 := if v == PAID then db1 else Move(db1, id, PAID, MONITOR);
            Core(db2) && Creditable(db2, id, keys)
  {
    hide FindRule, Core, Extends, SettledExcept, CanTransition, Creditable, EventCount, MinimumAccepted;
    SettlingEdges(v);
    EvaluatedKeeps(db, id, v, total);
    var db1 := Evaluated(db, id, v, total);
    SameCreditable(db, db1, id, keys);
    if v != PAID {
      PaidFromJudged(db1, id);
      SameCreditable(db1, Move(db1, id, PAID, MONITOR), id, keys);
    }
  }

  lemma PaidFromJudged(db: Db, id: InvoiceId)
    requires Core(db) && id in db.invoices && db.invoices[id].status in {UNDERPAID, OVERPAID}
    ensures Core(Move(db, id, PAID, MONITOR))
  {
    hide Core, Move;
    MoveKeepsCore(db, id, PAID, MONITOR);
  }

  lemma SameCreditable(a: Db, b: Db, id: InvoiceId, keys: seq<TransferKey>)
    requires Creditable(a, id, keys) && b.transfers == a.transfers
    ensures Creditable(b, id, keys)
  {
  }

  /** Finalisation of an invoice under confirmation with confirmed money: paid exactly when acceptable, held otherwise. */
  lemma FinalizeExactly(db: Db, id: InvoiceId, now: Time)
    requires Inv(db) && id in db.invoices && db.invoices[id].status == CONFIRMING && FinalizeInvoice(db, id, now).Commit?
    requires ConfirmedSum(db.transferOrder, db.transfers, id, db.invoices[id].requiredConfirmations) > 0
    ensures Decided(db, db.transfers, FinalizeInvoice(db, id, now).value, id,
                    ConfirmedSum(db.transferOrder, db.transfers, id, db.invoices[id].requiredConfirmations), now)
  {
    hide Inv, PaidUp, Held, TooLittle, TooMuch, Settle, TargetFor, EligibleKeys, SumAmounts, ConfirmedSum, FindRule, CanTransition, AssertTransition, Confirmed;
    var inv := db.invoices[id];
    var keys := EligibleKeys(db.transferOrder, db.transfers, id, inv.requiredConfirmations);
    var total := SumAmounts(keys, db.transfers);
    TotalIsSum(db.transferOrder, db.transfers, id, inv.requiredConfirmations);
    TablesListed(db, id);
    TargetMeaning(inv, total);
    var v := if TooLittle(inv, total) then UNDERPAID else if TooMuch(inv, total) then OVERPAID else PAID;
    SettlingEdges(v);
    SettlingEdges(PAID);
    SettleExactly(db, id, v, keys, total, now);
  }

  /** The other statuses: an OVERPAID invoice back within tolerance is paid, everything else is left alone. */
  lemma FinalizeElsewhere(db: Db, id: InvoiceId, now: Time)
    requires Inv(db) && id in db.invoices && db.invoices[id].status !in {CONFIRMING, UNDERPAID} && FinalizeInvoice(db, id, now).Commit?
    requires ConfirmedSum(db.transferOrder, db.transfers, id, db.invoices[id].requiredConfirmations) > 0
    ensures var inv := db.invoices[id];
            var total := ConfirmedSum(db.transferOrder, db.transfers, id, inv.requiredConfirmations);
            var db' := FinalizeInvoice(db, id, now).value;
            if inv.status == OVERPAID && !TooLittle(inv, total) && !TooMuch(inv, total)
            then inv.merchantId in db.merchants && PaidUp(db, db.transfers, db', id, total, now)
            else db' == db
  {
    hide Inv, PaidUp, Held, TooLittle, TooMuch, Settle, TargetFor, EligibleKeys, SumAmounts, ConfirmedSum, FindRule, CanTransition, AssertTransition, Confirmed;
    var inv := db.invoices[id];
    var keys := EligibleKeys(db.transferOrder, db.transfers, id, inv.requiredConfirmations);
    var total := SumAmounts(keys, db.transfers);
    TotalIsSum(db.transferOrder, db.transfers, id, inv.requiredConfirmations);
    TablesListed(db, id);
    TargetMeaning(inv, total);
    var v := if TooLittle(inv, total) then UNDERPAID else if TooMuch(inv, total) then OVERPAID else PAID;
    SettlingEdges(PAID);
    if inv.status == OVERPAID {
      SettlingEdges(v);
      if v == PAID { SettleExactly(db, id, v, keys, total, now); }
    } else {
      NoMonitorEdge(inv.status, v);
    }
  }

  lemma NoMonitorEdge(s: Status, v: Status)
    requires s in AUTOMATED && s !in {CONFIRMING, UNDERPAID, OVERPAID} && v in {PAID, UNDERPAID, OVERPAID}
    ensures !AssertTransition(s, v, MONITOR)
  {
  }

  // ---------------------------------------------------------------- one transfer's confirmation

  /** Where a first confirmation takes the invoice. */
  function UnderConfirmation(status: Status, c: nat): Status {
    if c >= 1 && status in {DETECTED, UNDERPAID} then CONFIRMING else status
  }

  lemma ConfirmingEdge(s: Status)
    requires s in AUTOMATED
    ensures CanTransition(s, CONFIRMING) <==> s in {DETECTED, UNDERPAID}
    ensures s in {DETECTED, UNDERPAID} ==> AssertTransition(s, CONFIRMING, MONITOR)
  {
  }

  lemma AdvancesTo(db: Db, id: InvoiceId, c: nat)
    requires id in db.invoices && db.invoices[id].status in AUTOMATED
    ensures var r := AdvanceConfirming(db, id, c);
            && r.Commit?
            && r.value == db.(invoices := db.invoices[id := db.invoices[id].(status := UnderConfirmation(db.invoices[id].status, c))], events := r.value.events)
  {
    hide FindRule, CanTransition, AssertTransition, EventCount;
    ConfirmingEdge(db.invoices[id].status);
    assert db.invoices[id := db.invoices[id]] == db.invoices;
  }

  /** What one committed confirmation of a matched transfer does to the tables, by the reported count. */
  ghost predicate ConfirmEffect(db: Db, key: TransferKey, id: InvoiceId, c: nat, now: Time, db': Db)
    requires key in db.transfers && id in db.invoices
  {
    var inv := db.invoices[id];
    var rows := db.transfers[key := db.transfers[key].(confirmations := c)];
    var status := UnderConfirmation(inv.status, c);
    var total := ConfirmedSum(db.transferOrder, rows, id, inv.requiredConfirmations);
    if c >= inv.requiredConfirmations && status == CONFIRMING then Decided(db, rows, db', id, total, now)
    else if c >= inv.requiredConfirmations && status == OVERPAID && !TooLittle(inv, total) && !TooMuch(inv, total) then
      inv.merchantId in db.merchants && PaidUp(db, rows, db', id, total, now)
    else db' == db.(transfers := rows, invoices := db.invoices[id := inv.(status := status)], events := db'.events)
  }

  lemma {:induction false} SumCounts(order: seq<TransferKey>, rows: map<TransferKey, Transfer>, id: InvoiceId, required: int, key: TransferKey)
    requires forall k :: k in rows ==> rows[k].amount > 0
    ensures ConfirmedSum(order, rows, id, required) >= 0
    ensures key in order && key in rows && Confirmed(rows[key], id, required) ==> ConfirmedSum(order, rows, id, required) > 0
  {
    if order != [] {
      assert order == order[..|order| - 1] + [order[|order| - 1]];
      SumCounts(order[..|order| - 1], rows, id, required, key);
    }
  }

  /** The state a decision is taken in stands for the one the transaction began with. */
  lemma SameDecision(db: Db, db2: Db, id: InvoiceId, total: int, now: Time, db': Db, key: TransferKey, c: nat)
    requires key in db.transfers && id in db.invoices && id in db2.invoices
    requires db2 == db.(transfers := db.transfers[key := db.transfers[key].(confirmations := c)],
                        invoices := db.invoices[id := db.invoices[id].(status := db2.invoices[id].status)], events := db2.events)
    ensures Decided(db2, db2.transfers, db', id, total, now) ==> Decided(db, db2.transfers, db', id, total, now)
    ensures db.invoices[id].merchantId in db.merchants && PaidUp(db2, db2.transfers, db', id, total, now) ==> PaidUp(db, db2.transfers, db', id, total, now)
  {
    hide PostAll, TooLittle, TooMuch, CreditsOf, Confirmed;
    var inv, inv2 := db.invoices[id], db2.invoices[id];
    var fee := if inv.merchantId in db.merchants then db.merchants[inv.merchantId].feeBps else 0;
    forall ps ensures CreditsOf(ps, inv2, id, fee, db2.transfers) <==> CreditsOf(ps, inv, id, fee, db2.transfers) { SameCredits(ps, inv, inv2, id, fee, db2.transfers); }
    assert TooLittle(inv2, total) == TooLittle(inv, total) && TooMuch(inv2, total) == TooMuch(inv, total) by { SameBand(inv, inv2, total); }
  }

  lemma SameBand(inv: Invoice, inv2: Invoice, total: int)
    requires inv2 == inv.(status := inv2.status)
    ensures TooLittle(inv2, total) == TooLittle(inv, total) && TooMuch(inv2, total) == TooMuch(inv, total)
  {
  }

  lemma SameCredits(ps: seq<CreditParams>, inv: Invoice, inv2: Invoice, id: InvoiceId, fee: int, rows: map<TransferKey, Transfer>)
    requires inv2 == inv.(status := inv2.status)
    ensures CreditsOf(ps, inv2, id, fee, rows) <==> CreditsOf(ps, inv, id, fee, rows)
  {
    hide Confirmed;
  }

  /**
   * In every consistent state a committed confirmation notes the count, takes a DETECTED or UNDERPAID
   * invoice to CONFIRMING, and once the count suffices decides: PAID with all its confirmed transfers
   * credited if the confirmed money is within tolerance, or over it and the merchant accepts
   * overpayments, or under it and the merchant accepts partial ones; otherwise held with nothing posted.
   */
  lemma ConfirmDecides(db: Db, key: TransferKey, id: InvoiceId, c: nat, now: Time)
    requires Inv(db) && key in db.transfers && id in db.invoices
    requires db.transfers[key].invoiceId == Some(id) && db.transfers[key].matchStatus in {PENDING_CONFIRMATION, CREDITED}
    requires ConfirmTransfer(db, key, Some(id), c, now).Commit?
    ensures ConfirmEffect(db, key, id, c, now, ConfirmTransfer(db, key, Some(id), c, now).value)
  {
    hide FinalizeInvoice, AdvanceConfirming, Decided, PaidUp, TooLittle, TooMuch, ConfirmedSum;
    TablesListed(db, id);
    var db1 := SetConfirmations(db, key, c);
    SetConfirmationsKeepsInv(db, key, c);
    hide Inv, Extends;
    AdvancesTo(db1, id, c);
    var db2 := AdvanceConfirming(db1, id, c).value;
    if c >= db.invoices[id].requiredConfirmations {
      AdvancedInv(db1, id, c);
      ConfirmsMoney(db2, id, key);
      ConfirmedDecides(db, db2, key, id, c, now);
    }
  }

  lemma ConfirmedDecides(db: Db, db2: Db, key: TransferKey, id: InvoiceId, c: nat, now: Time)
    requires Inv(db2) && key in db.transfers && id in db.invoices && id in db2.invoices && c >= db.invoices[id].requiredConfirmations
    requires db2 == db.(transfers := db.transfers[key := db.transfers[key].(confirmations := c)],
                        invoices := db.invoices[id := db.invoices[id].(status := UnderConfirmation(db.invoices[id].status, c))], events := db2.events)
    requires c >= 1 && ConfirmedSum(db2.transferOrder, db2.transfers, id, db2.invoices[id].requiredConfirmations) > 0
    requires FinalizeInvoice(db2, id, now).Commit?
    ensures ConfirmEffect(db, key, id, c, now, FinalizeInvoice(db2, id, now).value)
  {
    hide FinalizeInvoice, Decided, PaidUp, TooLittle, TooMuch, ConfirmedSum, Inv;
    var total := ConfirmedSum(db2.transferOrder, db2.transfers, id, db2.invoices[id].requiredConfirmations);
    SameDecision(db, db2, id, total, now, FinalizeInvoice(db2, id, now).value, key, c);
    SameBand(db.invoices[id], db2.invoices[id], total);
    if db2.invoices[id].status == CONFIRMING {
      FinalizeExactly(db2, id, now);
    } else {
      FinalizeElsewhere(db2, id, now);
    }
  }

  lemma AdvancedInv(db: Db, id: InvoiceId, c: nat)
    requires Inv(db) && id in db.invoices && AdvanceConfirming(db, id, c).Commit?
    ensures Inv(AdvanceConfirming(db, id, c).value)
  {
    hide Inv, Extends, FindRule, Guarded;
    if c >= 1 { GuardedKeepsInv(db, id, CONFIRMING); }
  }

  lemma ConfirmsMoney(db: Db, id: InvoiceId, key: TransferKey)
    requires Inv(db) && id in db.invoices && key in db.transfers && Confirmed(db.transfers[key], id, db.invoices[id].requiredConfirmations)
    ensures ConfirmedSum(db.transferOrder, db.transfers, id, db.invoices[id].requiredConfirmations) > 0
  {
    SumCounts(db.transferOrder, db.transfers, id, db.invoices[id].requiredConfirmations, key);
  }
}
