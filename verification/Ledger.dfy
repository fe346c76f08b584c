/**
 * Double-entry posting (packages/ledger/src/posting.ts) over the chart of accounts
 * (packages/database/src/ledger-accounts.ts).
 *
 * A `Book` is the value of the ledger tables. The database constraints of
 * 20260908000100_financial_integrity that a posting can violate (positive leg
 * amounts, an account's fixed precision) are part of the posting: they abort it.
 */
module Ledger {
  import opened Basics
  import opened Rounding

  datatype Kind =
    | GATEWAY_HOLDINGS | MERCHANT_HOLDINGS | MERCHANT_PAYABLE | CUSTOMER_INFLOW
    | CUSTOMER_REFUND | FEE_REVENUE | NETWORK_FEE_EXPENSE | SUSPENSE

  datatype AccountType = ASSET | LIABILITY | EQUITY | REVENUE | EXPENSE

  function TypeOf(kind: Kind): AccountType {
    match kind
    case GATEWAY_HOLDINGS => ASSET
    case MERCHANT_HOLDINGS => ASSET
    case MERCHANT_PAYABLE => LIABILITY
    case CUSTOMER_INFLOW => EQUITY
    case CUSTOMER_REFUND => EQUITY
    case FEE_REVENUE => REVENUE
    case NETWORK_FEE_EXPENSE => EXPENSE
    case SUSPENSE => LIABILITY
  }

  predicate DebitIncreases(t: AccountType) {
    t == ASSET || t == EXPENSE
  }

  /** A ledger account code: kind, merchant scope, network and asset. */
  datatype Code = Code(kind: Kind, merchant: Option<MerchantId>, network: Network, asset: Asset)

  predicate DebitNormal(c: Code) {
    DebitIncreases(TypeOf(c.kind))
  }

  /** The unique key (network, txHash, transferIndex) of a transfer and of the credit posted for it. */
  datatype TransferKey = TransferKey(network: Network, txHash: Hash, index: int)

  datatype Direction = DEBIT | CREDIT

  datatype Entry = Entry(sequence: nat, key: TransferKey, invoiceId: InvoiceId,
                         account: Code, direction: Direction, amount: int)

  datatype Account = Account(decimals: int, cachedBalance: int, cachedThroughSeq: Option<nat>)

  datatype LedgerTx = LedgerTx(key: TransferKey, invoiceId: InvoiceId)

  /** The ledger tables; `order` lists the account codes in creation order. */
  datatype Book = Book(order: seq<Code>, accounts: map<Code, Account>,
                       txs: seq<LedgerTx>, entries: seq<Entry>, nextSequence: nat)

  const EMPTY_BOOK := Book([], map[], [], [], 0)

  predicate Posted(txs: seq<LedgerTx>, key: TransferKey) {
    exists i :: 0 <= i < |txs| && txs[i].key == key
  }

  function EnsureAccount(b: Book, code: Code, decimals: int): Book {
    if code in b.accounts then b
    else b.(order := b.order + [code], accounts := b.accounts[code := Account(decimals, 0, None)])
  }

  datatype CreditParams = CreditParams(merchantId: MerchantId, invoiceId: InvoiceId, key: TransferKey,
                                       network: Network, asset: Asset, decimals: int, gross: int, feeBps: int)

  function Fee(p: CreditParams): int { BpsFloor(p.gross, p.feeBps) }

  function Net(p: CreditParams): int { p.gross - Fee(p) }

  function HoldingsCode(p: CreditParams): Code {
    Code(MERCHANT_HOLDINGS, Some(p.merchantId), p.network, p.asset)
  }

  function PayableCode(p: CreditParams): Code {
    Code(MERCHANT_PAYABLE, Some(p.merchantId), p.network, p.asset)
  }

  function FeeCode(p: CreditParams): Code {
    Code(FEE_REVENUE, None, p.network, p.asset)
  }

  /** The balanced legs: gross = net + fee, the fee leg left out when it is zero. */
  function Legs(p: CreditParams, sequence: nat): seq<Entry> {
    [Entry(sequence, p.key, p.invoiceId, HoldingsCode(p), DEBIT, p.gross),
     Entry(sequence + 1, p.key, p.invoiceId, PayableCode(p), CREDIT, Net(p))] +
    if Fee(p) > 0 then [Entry(sequence + 2, p.key, p.invoiceId, FeeCode(p), CREDIT, Fee(p))] else []
  }

  function WithAccounts(b: Book, p: CreditParams): Book {
    var b1 := EnsureAccount(b, HoldingsCode(p), p.decimals);
    var b2 := EnsureAccount(b1, PayableCode(p), p.decimals);
    if Fee(p) > 0 then EnsureAccount(b2, FeeCode(p), p.decimals) else b2
  }

  /** Every leg passes the table constraints: positive amount, the account's own precision. */
  predicate LegsAccepted(b: Book, legs: seq<Entry>, decimals: int) {
    forall i :: 0 <= i < |legs| ==>
      legs[i].amount > 0 && legs[i].account in b.accounts && b.accounts[legs[i].account].decimals == decimals
  }

  datatype Posting = Posting(book: Book, alreadyPosted: bool)

  function PostCredit(b: Book, p: CreditParams): Outcome<Posting> {
    if p.gross <= 0 || p.feeBps < 0 || p.feeBps > 10000 then Abort
    else if Posted(b.txs, p.key) then Commit(Posting(b, true))
    else
      var b' := WithAccounts(b, p);
      var legs := Legs(p, b.nextSequence);
      if !LegsAccepted(b', legs, p.decimals) then Abort
      else Commit(Posting(b'.(txs := b.txs + [LedgerTx(p.key, p.invoiceId)],
                              entries := b.entries + legs,
                              nextSequence := b.nextSequence + |legs|), false))
  }

  // ---------------------------------------------------------------- balances

  /** An entry's signed effect on its own account, positive on the account's normal side. */
  function Signed(e: Entry): int {
    if (e.direction == DEBIT) == DebitNormal(e.account) then e.amount else -e.amount
  }

  function Balance(entries: seq<Entry>, code: Code): int {
    if entries == [] then 0
    else
      var e := entries[|entries| - 1];
      Balance(entries[..|entries| - 1], code) + if e.account == code then Signed(e) else 0
  }

  /** Total of the balances of the debit-normal (or credit-normal) accounts of one network and asset. */
  function NormalTotal(order: seq<Code>, entries: seq<Entry>, n: Network, a: Asset, debitSide: bool): int {
    if order == [] then 0
    else
      var c := order[|order| - 1];
      NormalTotal(order[..|order| - 1], entries, n, a, debitSide) +
      if c.network == n && c.asset == a && DebitNormal(c) == debitSide then Balance(entries, c) else 0
  }

  /** Sum of the legs in one direction recorded for one invoice. */
  function SideOf(entries: seq<Entry>, id: InvoiceId, side: Direction): int {
    if entries == [] then 0
    else
      var e := entries[|entries| - 1];
      SideOf(entries[..|entries| - 1], id, side) + if e.invoiceId == id && e.direction == side then e.amount else 0
  }

  /** Sum of the legs in one direction recorded for one transfer. */
  function SideOfKey(entries: seq<Entry>, key: TransferKey, side: Direction): int {
    if entries == [] then 0
    else
      var e := entries[|entries| - 1];
      SideOfKey(entries[..|entries| - 1], key, side) + if e.key == key && e.direction == side then e.amount else 0
  }

  lemma BalanceAppend(entries: seq<Entry>, e: Entry, code: Code)
    ensures Balance(entries + [e], code) == Balance(entries, code) + if e.account == code then Signed(e) else 0
  {
    assert (entries + [e])[..|entries|] == entries;
  }

  lemma SideAppend(entries: seq<Entry>, e: Entry, id: InvoiceId, side: Direction)
    ensures SideOf(entries + [e], id, side) ==
            SideOf(entries, id, side) + if e.invoiceId == id && e.direction == side then e.amount else 0
  {
    assert (entries + [e])[..|entries|] == entries;
  }

  lemma SideKeyAppend(entries: seq<Entry>, e: Entry, key: TransferKey, side: Direction)
    ensures SideOfKey(entries + [e], key, side) ==
            SideOfKey(entries, key, side) + if e.key == key && e.direction == side then e.amount else 0
  {
    assert (entries + [e])[..|entries|] == entries;
  }

  /** The legs appended one at a time. */
  lemma LegsAsAppends(entries: seq<Entry>, p: CreditParams, s: nat) returns (e1: seq<Entry>, e2: seq<Entry>)
    ensures e1 == entries + [Legs(p, s)[0]] && e2 == e1 + [Legs(p, s)[1]]
    ensures Fee(p) > 0 ==> |Legs(p, s)| == 3 && entries + Legs(p, s) == e2 + [Legs(p, s)[2]]
    ensures Fee(p) <= 0 ==> |Legs(p, s)| == 2 && entries + Legs(p, s) == e2
  {
    e1 := entries + [Legs(p, s)[0]];
    e2 := e1 + [Legs(p, s)[1]];
  }

  /** A posting adds the gross amount to both sides of its invoice and transfer, and to no other. */
  lemma PostingBalanced(entries: seq<Entry>, p: CreditParams, s: nat, id: InvoiceId, key: TransferKey, side: Direction)
    requires p.gross > 0 && 0 <= p.feeBps <= 10000
    ensures SideOf(entries + Legs(p, s), id, side) == SideOf(entries, id, side) + if p.invoiceId == id then p.gross else 0
    ensures SideOfKey(entries + Legs(p, s), key, side) == SideOfKey(entries, key, side) + if p.key == key then p.gross else 0
  {
    BpsBounds(p.gross, p.feeBps);
    var e1, e2 := LegsAsAppends(entries, p, s);
    var legs := Legs(p, s);
    SideAppend(entries, legs[0], id, side);
    SideAppend(e1, legs[1], id, side);
    SideKeyAppend(entries, legs[0], key, side);
    SideKeyAppend(e1, legs[1], key, side);
    if Fee(p) > 0 {
      SideAppend(e2, legs[2], id, side);
      SideKeyAppend(e2, legs[2], key, side);
    }
  }

  /** Who gets what: holdings rise by the gross, the merchant's payable by the net, the platform by the floored fee. */
  lemma PostingMovesBalances(b: Book, p: CreditParams, c: Code)
    requires PostCredit(b, p).Commit? && !PostCredit(b, p).value.alreadyPosted
    ensures Balance(PostCredit(b, p).value.book.entries, c) == Balance(b.entries, c) +
            (if c == Code(MERCHANT_HOLDINGS, Some(p.merchantId), p.network, p.asset) then p.gross else 0) +
            (if c == Code(MERCHANT_PAYABLE, Some(p.merchantId), p.network, p.asset) then p.gross - Fee(p) else 0) +
            (if c == Code(FEE_REVENUE, None, p.network, p.asset) then Fee(p) else 0)
    ensures 10000 * Fee(p) <= p.gross * p.feeBps < 10000 * (Fee(p) + 1)
  {
    hide Fee, LegsAccepted, WithAccounts, Legs, Balance, Posted;
    FeeIsFloor(p);
    LegsMoveBalances(b.entries, p, b.nextSequence, c);
  }

  lemma FeeIsFloor(p: CreditParams)
    requires p.gross > 0 && 0 <= p.feeBps <= 10000
    ensures 10000 * Fee(p) <= p.gross * p.feeBps < 10000 * (Fee(p) + 1)
    ensures Fee(p) >= 0
  {
    BpsBounds(p.gross, p.feeBps);
    FloorBrackets(p.gross * p.feeBps, 10000);
  }

  lemma LegsMoveBalances(entries: seq<Entry>, p: CreditParams, s: nat, c: Code)
    requires Fee(p) >= 0
    ensures Balance(entries + Legs(p, s), c) == Balance(entries, c) +
            (if c == HoldingsCode(p) then p.gross else 0) + (if c == PayableCode(p) then p.gross - Fee(p) else 0) +
            (if c == FeeCode(p) then Fee(p) else 0)
  {
    hide Fee, Balance;
    var e1, e2 := LegsAsAppends(entries, p, s);
    var legs := Legs(p, s);
    BalanceAppend(entries, legs[0], c);
    BalanceAppend(e1, legs[1], c);
    if Fee(p) > 0 { BalanceAppend(e2, legs[2], c); }
  }

  // ---------------------------------------------------------------- the books balance

  ghost predicate WellFormed(b: Book) {
    && Distinct(b.order)
    && (forall c :: c in b.order <==> c in b.accounts)
    && (forall i :: 0 <= i < |b.entries| ==> b.entries[i].account in b.accounts)
  }

  ghost predicate Balanced(b: Book) {
    forall n: Network, a: Asset :: NormalTotal(b.order, b.entries, n, a, true) == NormalTotal(b.order, b.entries, n, a, false)
  }

  lemma {:induction false} TotalAppend(order: seq<Code>, entries: seq<Entry>, e: Entry, n: Network, a: Asset, debitSide: bool)
    requires Distinct(order)
    ensures NormalTotal(order, entries + [e], n, a, debitSide) == NormalTotal(order, entries, n, a, debitSide) +
            if e.account in order && e.account.network == n && e.account.asset == a && DebitNormal(e.account) == debitSide
            then Signed(e) else 0
  {
    if order != [] {
      var init, c := order[..|order| - 1], order[|order| - 1];
      TotalAppend(init, entries, e, n, a, debitSide);
      BalanceAppend(entries, e, c);
      assert order == init + [c];
      assert c !in init;
    }
  }

  /** A fresh account holds no entries, so opening it changes no total. */
  lemma {:induction false} UnusedAccountIsEmpty(entries: seq<Entry>, c: Code)
    requires forall i :: 0 <= i < |entries| ==> entries[i].account != c
    ensures Balance(entries, c) == 0
  {
    if entries != [] {
      UnusedAccountIsEmpty(entries[..|entries| - 1], c);
    }
  }

  lemma EnsureAccountKeepsTotals(b: Book, c: Code, decimals: int)
    requires WellFormed(b) && Balanced(b)
    ensures WellFormed(EnsureAccount(b, c, decimals)) && Balanced(EnsureAccount(b, c, decimals))
    ensures c in EnsureAccount(b, c, decimals).accounts
    ensures forall c' :: c' in b.accounts ==> c' in EnsureAccount(b, c, decimals).accounts
  {
    if c !in b.accounts {
      var b' := EnsureAccount(b, c, decimals);
      UnusedAccountIsEmpty(b.entries, c);
      assert b'.order[..|b.order|] == b.order;
      forall n: Network, a: Asset
        ensures NormalTotal(b'.order, b'.entries, n, a, true) == NormalTotal(b'.order, b'.entries, n, a, false)
      {
        assert NormalTotal(b.order, b.entries, n, a, true) == NormalTotal(b.order, b.entries, n, a, false);
      }
    }
  }

  lemma LegsKeepTotals(b: Book, p: CreditParams, n: Network, a: Asset)
    requires WellFormed(b) && Balanced(b) && p.gross > 0 && 0 <= p.feeBps <= 10000
    requires LegsAccepted(b, Legs(p, b.nextSequence), p.decimals)
    ensures var entries := b.entries + Legs(p, b.nextSequence);
            NormalTotal(b.order, entries, n, a, true) == NormalTotal(b.order, entries, n, a, false)
  {
    BpsBounds(p.gross, p.feeBps);
    var e1, e2 := LegsAsAppends(b.entries, p, b.nextSequence);
    var legs := Legs(p, b.nextSequence);
    assert legs[0].account in b.order && legs[1].account in b.order;
    assert NormalTotal(b.order, b.entries, n, a, true) == NormalTotal(b.order, b.entries, n, a, false);
    TotalAppend(b.order, b.entries, legs[0], n, a, true);
    TotalAppend(b.order, b.entries, legs[0], n, a, false);
    TotalAppend(b.order, e1, legs[1], n, a, true);
    TotalAppend(b.order, e1, legs[1], n, a, false);
    if Fee(p) > 0 {
      assert legs[2].account in b.order;
      TotalAppend(b.order, e2, legs[2], n, a, true);
      TotalAppend(b.order, e2, legs[2], n, a, false);
    }
  }

  /** Posting keeps debit-normal balances equal to credit-normal ones on every network and asset. */
  lemma PostCreditKeepsBalance(b: Book, p: CreditParams)
    requires WellFormed(b) && Balanced(b) && PostCredit(b, p).Commit?
    ensures var b' := PostCredit(b, p).value.book; WellFormed(b') && Balanced(b')
  {
    if !Posted(b.txs, p.key) {
      var b1 := EnsureAccount(b, HoldingsCode(p), p.decimals);
      var b2 := EnsureAccount(b1, PayableCode(p), p.decimals);
      var b3 := WithAccounts(b, p);
      EnsureAccountKeepsTotals(b, HoldingsCode(p), p.decimals);
      EnsureAccountKeepsTotals(b1, PayableCode(p), p.decimals);
      EnsureAccountKeepsTotals(b2, FeeCode(p), p.decimals);
      assert b3.entries == b.entries && b3.nextSequence == b.nextSequence;
      var b' := PostCredit(b, p).value.book;
      forall n: Network, a: Asset
        ensures NormalTotal(b'.order, b'.entries, n, a, true) == NormalTotal(b'.order, b'.entries, n, a, false)
      {
        LegsKeepTotals(b3, p, n, a);
      }
    }
  }

  /** Posting the same credit again finds it and changes nothing. */
  lemma PostTwice(b: Book, p: CreditParams)
    requires PostCredit(b, p).Commit?
    ensures var b' := PostCredit(b, p).value.book; PostCredit(b', p) == Commit(Posting(b', true))
    ensures PostCredit(b, p).value.alreadyPosted <==> Posted(b.txs, p.key)
  {
    hide Legs, LegsAccepted, WithAccounts;
    var b' := PostCredit(b, p).value.book;
    if !Posted(b.txs, p.key) { assert b'.txs[|b.txs|].key == p.key; }
  }

  /** Holdings and expenses grow by debits, all other accounts by credits. */
  lemma NormalSides(c: Code)
    ensures DebitNormal(c) <==> c.kind in {GATEWAY_HOLDINGS, MERCHANT_HOLDINGS, NETWORK_FEE_EXPENSE}
  {
  }

  /** The posting is refused exactly when an argument is out of range, the net leg is zero, or a precision differs. */
  lemma PostCreditAborts(b: Book, p: CreditParams)
    ensures PostCredit(b, p).Abort? <==>
            p.gross <= 0 || p.feeBps < 0 || p.feeBps > 10000 ||
            (!Posted(b.txs, p.key) && (p.feeBps == 10000 || !PrecisionsAgree(b, p)))
  {
    if p.gross > 0 && 0 <= p.feeBps <= 10000 && !Posted(b.txs, p.key) {
      BpsBounds(p.gross, p.feeBps);
      var b' := WithAccounts(b, p);
      var legs := Legs(p, b.nextSequence);
      assert legs[1].amount == Net(p);
      if p.feeBps < 10000 && PrecisionsAgree(b, p) {
        assert LegsAccepted(b', legs, p.decimals);
      }
      if LegsAccepted(b', legs, p.decimals) {
        assert legs[0].account == HoldingsCode(p) && legs[1].account == PayableCode(p);
        if Fee(p) > 0 { assert legs[2].account == FeeCode(p); }
      }
    }
  }

  predicate PrecisionAgrees(b: Book, c: Code, decimals: int) {
    c in b.accounts ==> b.accounts[c].decimals == decimals
  }

  /** The accounts the posting would use, where they exist, already hold the asset at this precision. */
  predicate PrecisionsAgree(b: Book, p: CreditParams) {
    && PrecisionAgrees(b, HoldingsCode(p), p.decimals)
    && PrecisionAgrees(b, PayableCode(p), p.decimals)
    && (Fee(p) > 0 ==> PrecisionAgrees(b, FeeCode(p), p.decimals))
  }

  // ---------------------------------------------------------------- sequences of credits

  function PostAll(b: Book, ps: seq<CreditParams>): Book {
    if ps == [] then b
    else
      var b' := PostAll(b, ps[..|ps| - 1]);
      match PostCredit(b', ps[|ps| - 1])
      case Commit(posting) => posting.book
      case Abort => b'
  }

  /** Entries are numbered in the order they are written, without a gap. */
  ghost predicate Sequenced(b: Book) {
    b.nextSequence == |b.entries| && forall i :: 0 <= i < |b.entries| ==> b.entries[i].sequence == i
  }

  lemma {:induction false} CreditsAreSequenced(ps: seq<CreditParams>)
    ensures Sequenced(PostAll(EMPTY_BOOK, ps))
  {
    hide PostCredit;
    if ps != [] {
      CreditsAreSequenced(ps[..|ps| - 1]);
      PostKeepsSequence(PostAll(EMPTY_BOOK, ps[..|ps| - 1]), ps[|ps| - 1]);
    }
  }

  lemma PostKeepsSequence(b: Book, p: CreditParams)
    requires Sequenced(b)
    ensures PostCredit(b, p).Commit? ==> Sequenced(PostCredit(b, p).value.book)
  {
    hide LegsAccepted, Fee, Posted;
  }

  /** After any sequence of credits the books balance and every leg is strictly positive. */
  lemma {:induction false} CreditsKeepBooks(ps: seq<CreditParams>)
    ensures var b := PostAll(EMPTY_BOOK, ps);
            WellFormed(b) && Balanced(b) && forall i :: 0 <= i < |b.entries| ==> b.entries[i].amount > 0
  {
    if ps != [] {
      var b' := PostAll(EMPTY_BOOK, ps[..|ps| - 1]);
      var p := ps[|ps| - 1];
      CreditsKeepBooks(ps[..|ps| - 1]);
      if PostCredit(b', p).Commit? {
        PostCreditKeepsBalance(b', p);
      }
    }
  }
}
