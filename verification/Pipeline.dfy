/**
 * The payment pipeline as steps over the database tables
 * (apps/blockchain-monitor/src/monitor.service.ts, apps/worker/src/expiry-sweep.ts and the
 * transactions of apps/api/src/invoices/invoices.service.ts).
 *
 * Each function below is one `runInTransaction` body: it commits a new `Db` or aborts.
 */
module Pipeline {
  import opened Basics
  import opened Rounding
  import opened StateMachine
  import opened Ledger
  import opened Payments

  datatype Merchant = Merchant(feeBps: int, acceptPartial: bool, acceptFull: bool)

  datatype AddressKey = AddressKey(network: Network, address: nat)

  datatype AddressState = AVAILABLE | ASSIGNED | RETIRED

  datatype AddressRow = AddressRow(state: AddressState, invoiceId: Option<InvoiceId>)

  datatype Invoice = Invoice(merchantId: MerchantId, network: Network, asset: Asset, decimals: int,
                             cryptoAmount: int, underBps: int, overBps: int, requiredConfirmations: int,
                             expiresAt: Time, address: AddressKey,
                             status: Status, receivedAmount: int, confirmedAmount: int)

  datatype TxKey = TxKey(network: Network, hash: Hash)

  datatype TxStatus = MEMPOOL | MINED | CONFIRMED | REVERTED | ORPHANED_TX

  datatype TxRow = TxRow(status: TxStatus, blockNumber: Option<nat>)

  datatype Transfer = Transfer(asset: Option<Asset>, amount: int, invoiceId: Option<InvoiceId>,
                               matchStatus: MatchStatus, confirmations: nat, creditedAt: Option<Time>)

  datatype Event = Event(invoiceId: InvoiceId, from: Option<Status>, to: Status, sequence: nat, actor: Actor)

  datatype Discrepancy = Discrepancy(key: TransferKey, invoiceId: InvoiceId)

  /** The tables. `txOrder` and `transferOrder` list the keys of their tables in insertion order. */
  datatype Db = Db(merchants: map<MerchantId, Merchant>,
                   addresses: map<AddressKey, AddressRow>,
                   invoices: map<InvoiceId, Invoice>,
                   txOrder: seq<TxKey>, txs: map<TxKey, TxRow>,
                   transferOrder: seq<TransferKey>, transfers: map<TransferKey, Transfer>,
                   events: seq<Event>,
                   book: Book,
                   discrepancies: seq<Discrepancy>)

  /** What the adapter answers about one transaction and about one transfer inside it. */
  datatype ChainTx = ChainTx(hash: Hash, blockNumber: Option<nat>, status: ChainStatus, confirmations: nat)

  datatype ParsedTransfer = ParsedTransfer(index: int, token: Option<nat>, to: nat, amount: int)

  datatype AssetConfig = AssetConfig(asset: Asset, minDeposit: int)

  /** The allowlist by (network, contract) and the service's late-arrival grace. */
  datatype Config = Config(assets: map<(Network, Option<nat>), AssetConfig>, graceSeconds: int)

  // ---------------------------------------------------------------- events and status moves

  function EventCount(events: seq<Event>, id: InvoiceId): nat {
    if events == [] then 0
    else EventCount(events[..|events| - 1], id) + if events[|events| - 1].invoiceId == id then 1 else 0
  }

  /** The status update together with its `recordEvent`. */
  function Move(db: Db, id: InvoiceId, to: Status, actor: Actor): Db
    requires id in db.invoices
  {
    var inv := db.invoices[id];
    db.(invoices := db.invoices[id := inv.(status := to)],
        events := db.events + [Event(id, Some(inv.status), to, EventCount(db.events, id) + 1, actor)])
  }

  /** The monitor's idiom: return when the table has no edge, throw when the monitor may not take it. */
  function Guarded(db: Db, id: InvoiceId, to: Status): Outcome<Db>
    requires id in db.invoices
  {
    var from := db.invoices[id].status;
    if !CanTransition(from, to) then Commit(db)
    else if !AssertTransition(from, to, MONITOR) then Abort
    else Commit(Move(db, id, to, MONITOR))
  }

  // ---------------------------------------------------------------- detection and matching

  function RecordChainTransaction(db: Db, n: Network, tx: ChainTx): Db {
    var key := TxKey(n, tx.hash);
    var status := if tx.status == TX_REVERTED then REVERTED else if tx.blockNumber.None? then MEMPOOL else MINED;
    db.(txOrder := if key in db.txs then db.txOrder else db.txOrder + [key],
        txs := db.txs[key := TxRow(status, tx.blockNumber)])
  }

  /** The invoice that claims the destination address, if any. */
  function InvoiceAt(db: Db, a: AddressKey): Option<InvoiceId> {
    if a in db.addresses && db.addresses[a].invoiceId.Some? && db.addresses[a].invoiceId.value in db.invoices
    then db.addresses[a].invoiceId else None
  }

  function PutTransfer(db: Db, key: TransferKey, row: Transfer): Db {
    db.(transferOrder := if key in db.transfers then db.transferOrder else db.transferOrder + [key],
        transfers := db.transfers[key := row])
  }

  /** The row `recordTransfer` writes for an uncredited transfer. */
  function ClassifiedRow(db: Db, cfg: Config, n: Network, tx: ChainTx, t: ParsedTransfer, now: Time): Transfer {
    var asset := if (n, t.token) in cfg.assets then Some(cfg.assets[(n, t.token)]) else None;
    var invoiceId := InvoiceAt(db, AddressKey(n, t.to));
    var status := if invoiceId.Some? then Some(db.invoices[invoiceId.value].status) else None;
    var expired := invoiceId.Some? && !WithinGrace(db.invoices[invoiceId.value].expiresAt, now, cfg.graceSeconds);
    var decision := EvaluateMatch(asset.Some?, asset.Some? && t.amount >= asset.value.minDeposit, tx.status, status, expired);
    Transfer(if asset.Some? then Some(asset.value.asset) else None, t.amount, invoiceId, decision, tx.confirmations, None)
  }

  function RecordTransfer(db: Db, cfg: Config, n: Network, tx: ChainTx, t: ParsedTransfer, now: Time): Outcome<Db> {
    var key := TransferKey(n, tx.hash, t.index);
    if key in db.transfers && db.transfers[key].creditedAt.Some? then Commit(db)
    else
      var row := ClassifiedRow(db, cfg, n, tx, t, now);
      if row.invoiceId.Some? && cfg.graceSeconds < 0 then Abort
      else if t.amount <= 0 || t.index < -1 then Abort
      else
        var db' := PutTransfer(db, key, row);
        if row.invoiceId.None? then Commit(db')
        else if row.matchStatus == PENDING_CONFIRMATION then Guarded(db', row.invoiceId.value, DETECTED)
        else if row.matchStatus == LATE_REVIEW then Guarded(db', row.invoiceId.value, LATE_PAYMENT_REVIEW)
        else Commit(db')
  }

  function RecordTransfers(db: Db, cfg: Config, n: Network, tx: ChainTx, ts: seq<ParsedTransfer>, now: Time): Outcome<Db>
    decreases |ts|
  {
    if ts == [] then Commit(db)
    else
      var db' :- RecordTransfer(db, cfg, n, tx, ts[0], now);
      RecordTransfers(db', cfg, n, tx, ts[1..], now)
  }

  /** `processTransaction` once the adapter has answered with a transaction and its transfers. */
  function ProcessTransaction(db: Db, cfg: Config, n: Network, tx: ChainTx, ts: seq<ParsedTransfer>, now: Time): Outcome<Db> {
    if ts == [] then Commit(db)
    else RecordTransfers(RecordChainTransaction(db, n, tx), cfg, n, tx, ts, now)
  }

  // ---------------------------------------------------------------- confirmation and settlement

  /** A row that `finalizeInvoice` counts: matched to the invoice and past its confirmation threshold. */
  predicate Eligible(t: Transfer, id: InvoiceId, required: int) {
    t.invoiceId == Some(id) && (t.matchStatus == CREDITED || t.matchStatus == PENDING_CONFIRMATION) &&
    t.confirmations >= required
  }

  function EligibleKeys(order: seq<TransferKey>, transfers: map<TransferKey, Transfer>, id: InvoiceId, required: int): (ks: seq<TransferKey>)
    ensures forall k :: k in ks ==> k in order && k in transfers && Eligible(transfers[k], id, required)
  {
    if order == [] then []
    else
      var k := order[|order| - 1];
      EligibleKeys(order[..|order| - 1], transfers, id, required) +
      if k in transfers && Eligible(transfers[k], id, required) then [k] else []
  }

  function SumAmounts(ks: seq<TransferKey>, transfers: map<TransferKey, Transfer>): int
    requires forall k :: k in ks ==> k in transfers
  {
    if ks == [] then 0 else SumAmounts(ks[..|ks| - 1], transfers) + transfers[ks[|ks| - 1]].amount
  }

  function CreditFor(inv: Invoice, id: InvoiceId, feeBps: int, key: TransferKey, amount: int): CreditParams {
    CreditParams(inv.merchantId, id, key, inv.network, inv.asset, inv.decimals, amount, feeBps)
  }

  /** Post one transfer's credit and mark its row, unless the ledger already holds it. */
  function CreditOne(db: Db, id: InvoiceId, feeBps: int, key: TransferKey, now: Time): (r: Outcome<Db>)
    requires id in db.invoices && key in db.transfers
    ensures r.Commit? ==> r.value.invoices == db.invoices && r.value.transfers.Keys == db.transfers.Keys
  {
    var t := db.transfers[key];
    var posting :- PostCredit(db.book, CreditFor(db.invoices[id], id, feeBps, key, t.amount));
    if posting.alreadyPosted then Commit(db)
    else Commit(db.(book := posting.book,
                    transfers := db.transfers[key := t.(matchStatus := CREDITED, creditedAt := Some(now))]))
  }

  function CreditAll(db: Db, id: InvoiceId, feeBps: int, keys: seq<TransferKey>, now: Time): Outcome<Db>
    requires id in db.invoices && forall k :: k in keys ==> k in db.transfers
    decreases |keys|
  {
    if keys == [] then Commit(db)
    else
      var db' :- CreditOne(db, id, feeBps, keys[0], now);
      CreditAll(db', id, feeBps, keys[1..], now)
  }

  predicate AutoAccept(m: Merchant, target: Status) {
    target == PAID || (target == OVERPAID && m.acceptFull) || (target == UNDERPAID && m.acceptPartial)
  }

  /** The first half of settlement: the move to PAID, UNDERPAID or OVERPAID with the amounts written. */
  function Evaluated(db: Db, id: InvoiceId, target: Status, total: int): Db
    requires id in db.invoices
  {
    var db' := Move(db, id, target, MONITOR);
    db'.(invoices := db'.invoices[id := db'.invoices[id].(receivedAmount := total, confirmedAmount := total)])
  }

  function Settle(db: Db, id: InvoiceId, m: Merchant, target: Status, keys: seq<TransferKey>, total: int, now: Time): Outcome<Db>
    requires id in db.invoices && forall k :: k in keys ==> k in db.transfers
  {
    var db1 := Evaluated(db, id, target, total);
    if !AutoAccept(m, target) then Commit(db1)
    else if target == PAID then CreditAll(db1, id, m.feeBps, keys, now)
    else if !AssertTransition(target, PAID, MONITOR) then Abort
    else CreditAll(Move(db1, id, PAID, MONITOR), id, m.feeBps, keys, now)
  }

  /** The status the received total calls for, if any. */
  function TargetFor(inv: Invoice, total: int): (r: Outcome<Option<Status>>)
    ensures r.Commit? && r.value.Some? ==> r.value.value in {PAID, UNDERPAID, OVERPAID}
  {
    var outcome :- EvaluatePayment(inv.cryptoAmount, total, inv.underBps, inv.overBps);
    Commit(StatusForOutcome(outcome))
  }

  function FinalizeInvoice(db: Db, id: InvoiceId, now: Time): Outcome<Db> {
    if id !in db.invoices then Abort
    else
      var inv := db.invoices[id];
      if !CanTransition(inv.status, PAID) && !CanTransition(inv.status, UNDERPAID) && !CanTransition(inv.status, OVERPAID)
      then Commit(db)
      else
        var keys := EligibleKeys(db.transferOrder, db.transfers, id, inv.requiredConfirmations);
        var total := SumAmounts(keys, db.transfers);
        if total == 0 then Commit(db)
        else if inv.merchantId !in db.merchants then Abort
        else
          var target :- TargetFor(inv, total);
          if target.None? || !CanTransition(inv.status, target.value) then Commit(db)
          else if !AssertTransition(inv.status, target.value, MONITOR) then Abort
          else Settle(db, id, db.merchants[inv.merchantId], target.value, keys, total, now)
  }

  function SetConfirmations(db: Db, key: TransferKey, confirmations: nat): Db
    requires key in db.transfers
  {
    db.(transfers := db.transfers[key := db.transfers[key].(confirmations := confirmations)])
  }

  function AdvanceConfirming(db: Db, id: InvoiceId, confirmations: nat): Outcome<Db>
    requires id in db.invoices
  {
    if confirmations < 1 then Commit(db) else Guarded(db, id, CONFIRMING)
  }

  /**
   * The transaction `updateConfirmations` runs for one pending transfer. `invoiceId` comes from
   * the snapshot taken before the transaction, so it is an argument and may be stale.
   */
  function ConfirmTransfer(db: Db, key: TransferKey, invoiceId: Option<InvoiceId>, confirmations: nat, now: Time): Outcome<Db> {
    if key !in db.transfers then Abort
    else
      var db1 := SetConfirmations(db, key, confirmations);
      if invoiceId.None? then Commit(db1)
      else if invoiceId.value !in db1.invoices then Abort
      else
        var id := invoiceId.value;
        var db2 :- AdvanceConfirming(db1, id, confirmations);
        var required := db1.invoices[id].requiredConfirmations;
        if required < 1 then Abort
        else if !IsConfirmed(confirmations, required) then Commit(db2)
        else FinalizeInvoice(db2, id, now)
  }

  // ---------------------------------------------------------------- reorganisations

  function PendingCount(order: seq<TransferKey>, transfers: map<TransferKey, Transfer>, id: InvoiceId): nat {
    if order == [] then 0
    else
      var k := order[|order| - 1];
      PendingCount(order[..|order| - 1], transfers, id) +
      if k in transfers && transfers[k].invoiceId == Some(id) && transfers[k].matchStatus == PENDING_CONFIRMATION then 1 else 0
  }

  function RevertInvoice(db: Db, id: InvoiceId): Outcome<Db> {
    if id !in db.invoices then Abort
    else Guarded(db, id, if PendingCount(db.transferOrder, db.transfers, id) > 0 then DETECTED else PENDING)
  }

  function FlagOrphanedCredit(db: Db, key: TransferKey, invoiceId: Option<InvoiceId>): Outcome<Db> {
    if invoiceId.None? then Commit(db)
    else if invoiceId.value !in db.invoices then Abort
    else
      var id := invoiceId.value;
      if !CanTransition(db.invoices[id].status, RECONCILIATION_REQUIRED) then Commit(db)
      else if !AssertTransition(db.invoices[id].status, RECONCILIATION_REQUIRED, MONITOR) then Abort
      else Commit(Move(db, id, RECONCILIATION_REQUIRED, MONITOR).(discrepancies := db.discrepancies + [Discrepancy(key, id)]))
  }

  function OrphanTransfer(db: Db, key: TransferKey): Outcome<Db> {
    if key !in db.transfers then Abort
    else
      var t := db.transfers[key];
      if t.creditedAt.Some? then FlagOrphanedCredit(db, key, t.invoiceId)
      else
        var db' := db.(transfers := db.transfers[key := t.(matchStatus := ORPHANED)]);
        if t.invoiceId.Some? then RevertInvoice(db', t.invoiceId.value) else Commit(db')
  }

  function OrphanTransfers(db: Db, keys: seq<TransferKey>): Outcome<Db>
    decreases |keys|
  {
    if keys == [] then Commit(db)
    else
      var db' :- OrphanTransfer(db, keys[0]);
      OrphanTransfers(db', keys[1..])
  }

  function TransfersOf(order: seq<TransferKey>, tx: TxKey): (ks: seq<TransferKey>)
    ensures forall k :: k in ks <==> k in order && k.network == tx.network && k.txHash == tx.hash
  {
    if order == [] then []
    else
      var k := order[|order| - 1];
      assert order == order[..|order| - 1] + [k];
      TransfersOf(order[..|order| - 1], tx) + if k.network == tx.network && k.txHash == tx.hash then [k] else []
  }

  /** The transaction `handleReorg` runs for one orphaned chain transaction. */
  function OrphanTx(db: Db, tx: TxKey): Outcome<Db> {
    if tx !in db.txs then Abort
    else
      var db' := db.(txs := db.txs[tx := db.txs[tx].(status := ORPHANED_TX)]);
      OrphanTransfers(db', TransfersOf(db'.transferOrder, tx))
  }

  predicate InReorg(row: TxRow, fromBlock: nat) {
    row.blockNumber.Some? && row.blockNumber.value >= fromBlock && (row.status == MINED || row.status == CONFIRMED)
  }

  /** How far a loop of transactions came: a throw ends it with everything committed so far kept. */
  datatype Loop = Loop(db: Db, completed: bool)

  function ReorgKeys(order: seq<TxKey>, txs: map<TxKey, TxRow>, n: Network, fromBlock: nat): (ks: seq<TxKey>)
    ensures forall k :: k in ks <==> k in order && k in txs && k.network == n && InReorg(txs[k], fromBlock)
  {
    if order == [] then []
    else
      var k := order[|order| - 1];
      assert order == order[..|order| - 1] + [k];
      ReorgKeys(order[..|order| - 1], txs, n, fromBlock) +
      if k in txs && k.network == n && InReorg(txs[k], fromBlock) then [k] else []
  }

  function OrphanAll(db: Db, keys: seq<TxKey>): Loop
    decreases |keys|
  {
    if keys == [] then Loop(db, true)
    else match OrphanTx(db, keys[0])
      case Abort => Loop(db, false)
      case Commit(db') => OrphanAll(db', keys[1..])
  }

  function HandleReorg(db: Db, n: Network, fromBlock: nat): Loop {
    OrphanAll(db, ReorgKeys(db.txOrder, db.txs, n, fromBlock))
  }

  // ---------------------------------------------------------------- the confirmation loop

  datatype Pending = Pending(key: TransferKey, invoiceId: Option<InvoiceId>)

  /** The snapshot `updateConfirmations` iterates over. */
  function PendingRows(order: seq<TransferKey>, transfers: map<TransferKey, Transfer>, n: Network): seq<Pending> {
    if order == [] then []
    else
      var k := order[|order| - 1];
      PendingRows(order[..|order| - 1], transfers, n) +
      if k in transfers && k.network == n && transfers[k].matchStatus == PENDING_CONFIRMATION && transfers[k].creditedAt.None?
      then [Pending(k, transfers[k].invoiceId)] else []
  }

  /** `answers[i]` is what the adapter reports for the i-th pending transfer. */
  function ConfirmAll(db: Db, pending: seq<Pending>, answers: seq<nat>, now: Time): Loop
    requires |answers| == |pending|
    decreases |pending|
  {
    if pending == [] then Loop(db, true)
    else match ConfirmTransfer(db, pending[0].key, pending[0].invoiceId, answers[0], now)
      case Abort => Loop(db, false)
      case Commit(db') => ConfirmAll(db', pending[1..], answers[1..], now)
  }

  // ---------------------------------------------------------------- creation, expiry, cancellation

  /** The invoice-creation transaction; `terms` carries everything priced before it. */
  function CreateInvoice(db: Db, id: InvoiceId, terms: Invoice): Outcome<Db> {
    if id in db.invoices then Abort
    else if terms.address !in db.addresses || db.addresses[terms.address].state != AVAILABLE then Abort
    else if terms.cryptoAmount <= 0 || terms.requiredConfirmations <= 0 || !ValidBps(terms.underBps) || !ValidBps(terms.overBps) then Abort
    else if !AssertTransition(CREATED, PENDING, SYSTEM) then Abort
    else Commit(db.(invoices := db.invoices[id := terms.(status := PENDING, receivedAmount := 0, confirmedAmount := 0)],
                    addresses := db.addresses[terms.address := AddressRow(ASSIGNED, Some(id))],
                    events := db.events + [Event(id, None, CREATED, 1, SYSTEM)] + [Event(id, Some(CREATED), PENDING, 2, SYSTEM)]))
  }

  function ExpireOne(db: Db, id: InvoiceId, now: Time): Outcome<Db> {
    if id !in db.invoices then Abort
    else if !IsActorAllowed(db.invoices[id].status, EXPIRED, SYSTEM) || !Expired(db.invoices[id].expiresAt, now) then Commit(db)
    else if !AssertTransition(db.invoices[id].status, EXPIRED, SYSTEM) then Abort
    else Commit(Move(db, id, EXPIRED, SYSTEM))
  }

  /** `cancelInvoice`, taken as one atomic step. */
  function CancelInvoice(db: Db, id: InvoiceId): Outcome<Db> {
    if id !in db.invoices || !AssertTransition(db.invoices[id].status, CANCELLED, MERCHANT) then Abort
    else
      var db' := Move(db, id, CANCELLED, MERCHANT);
      var a := db.invoices[id].address;
      Commit(if a in db.addresses then db'.(addresses := db.addresses[a := db.addresses[a].(state := RETIRED)]) else db')
  }

  // ---------------------------------------------------------------- steps and runs

  datatype Step =
    | AddMerchant(m: MerchantId, merchant: Merchant)
    | AddAddress(a: AddressKey)
    | Create(id: InvoiceId, terms: Invoice)
    | Process(cfg: Config, n: Network, tx: ChainTx, ts: seq<ParsedTransfer>, now: Time)
    | Confirm(key: TransferKey, invoiceId: Option<InvoiceId>, confirmations: nat, now: Time)
    | Orphan(txKey: TxKey)
    | Expire(id: InvoiceId, now: Time)
    | Cancel(id: InvoiceId)

  function Attempt(db: Db, s: Step): Outcome<Db> {
    match s
    case AddMerchant(m, merchant) => Commit(db.(merchants := db.merchants[m := merchant]))
    case AddAddress(a) => if a in db.addresses then Abort else Commit(db.(addresses := db.addresses[a := AddressRow(AVAILABLE, None)]))
    case Create(id, terms) => CreateInvoice(db, id, terms)
    case Process(cfg, n, tx, ts, now) => ProcessTransaction(db, cfg, n, tx, ts, now)
    case Confirm(key, invoiceId, confirmations, now) => ConfirmTransfer(db, key, invoiceId, confirmations, now)
    case Orphan(tx) => OrphanTx(db, tx)
    case Expire(id, now) => ExpireOne(db, id, now)
    case Cancel(id) => CancelInvoice(db, id)
  }

  /** A throw rolls the transaction back. */
  function Next(db: Db, s: Step): Db {
    match Attempt(db, s)
    case Commit(db') => db'
    case Abort => db
  }

  function Run(db: Db, steps: seq<Step>): Db {
    if steps == [] then db else Next(Run(db, steps[..|steps| - 1]), steps[|steps| - 1])
  }

  const EMPTY_DB := Db(map[], map[], map[], [], map[], [], map[], [], EMPTY_BOOK, [])
}
