/** The ledger tables as the mutable state that posting and reconciliation update step by step. */
module LedgerStore {
  import opened Basics
  import opened Rounding
  import opened Ledger
  import opened Reconciliation

  class LedgerTables {
    var order: seq<Code>
    var accounts: map<Code, Account>
    var txs: seq<LedgerTx>
    var entries: seq<Entry>
    var nextSequence: nat

    constructor (b: Book)
      ensures View() == b
    {
      order, accounts, txs, entries, nextSequence := b.order, b.accounts, b.txs, b.entries, b.nextSequence;
    }

    function View(): Book
      reads this
    {
      Book(order, accounts, txs, entries, nextSequence)
    }

    method FindOrCreateAccount(code: Code, decimals: int)
      modifies this
      ensures View() == EnsureAccount(old(View()), code, decimals)
    {
      if code !in accounts {
        order := order + [code];
        accounts := accounts[code := Account(decimals, 0, None)];
      }
    }

    method HasTransaction(key: TransferKey) returns (found: bool)
      ensures found <==> Posted(txs, key)
    {
      found := false;
      for i := 0 to |txs|
        invariant !found ==> forall j :: 0 <= j < i ==> txs[j].key != key
        invariant found ==> Posted(txs, key)
      {
        if txs[i].key == key { found := true; }
      }
    }

    /** The entry insert: each leg must pass the table constraints, otherwise the statement throws. */
    method InsertEntries(legs: seq<Entry>, decimals: int) returns (ok: bool)
      modifies this`entries, this`nextSequence
      ensures ok <==> LegsAccepted(old(View()), legs, decimals)
      ensures ok ==> entries == old(entries) + legs && nextSequence == old(nextSequence) + |legs|
    {
      ok := true;
      for i := 0 to |legs|
        invariant entries == old(entries) + legs[..i] && nextSequence == old(nextSequence) + i
        invariant forall j :: 0 <= j < i ==>
          legs[j].amount > 0 && legs[j].account in accounts && accounts[legs[j].account].decimals == decimals
      {
        var leg := legs[i];
        if leg.amount <= 0 || leg.account !in accounts || accounts[leg.account].decimals != decimals {
          return false;
        }
        entries := entries + [leg];
        nextSequence := nextSequence + 1;
      }
    }

    /** `postPaymentCredit`; Abort means it threw and the surrounding transaction must be rolled back. */
    method PostPaymentCredit(p: CreditParams) returns (result: Outcome<bool>)
      modifies this
      ensures result.Abort? <==> PostCredit(old(View()), p).Abort?
      ensures result.Commit? ==> PostCredit(old(View()), p) == Commit(Posting(View(), result.value))
    {
      hide BpsFloor, Posted;
      if p.gross <= 0 || p.feeBps < 0 || p.feeBps > 10000 { return Abort; }
      var existing := HasTransaction(p.key);
      if existing { return Commit(true); }

      var fee := BpsFloor(p.gross, p.feeBps);
      var net := p.gross - fee;
      FindOrCreateAccount(HoldingsCode(p), p.decimals);
      FindOrCreateAccount(PayableCode(p), p.decimals);
      txs := txs + [LedgerTx(p.key, p.invoiceId)];
      var legs := [Entry(nextSequence, p.key, p.invoiceId, HoldingsCode(p), DEBIT, p.gross),
                   Entry(nextSequence + 1, p.key, p.invoiceId, PayableCode(p), CREDIT, net)];
      if fee > 0 {
        FindOrCreateAccount(FeeCode(p), p.decimals);
        legs := legs + [Entry(nextSequence + 2, p.key, p.invoiceId, FeeCode(p), CREDIT, fee)];
      }
      assert legs == Legs(p, nextSequence);
      var ok := InsertEntries(legs, p.decimals);
      if !ok { return Abort; }
      result := Commit(false);
    }

    method ComputeAccountBalance(code: Code) returns (units: int, throughSequence: Option<nat>)
      ensures units == Balance(entries, code)
      ensures throughSequence == Watermark(Rows(entries, code, None), None)
    {
      var delta, through := ComputeBalanceDelta(code, None);
      units, throughSequence := delta, through;
      RowsSum(entries, code, None);
      SplitAtMark(entries, code, None);
    }

    method ComputeBalanceDelta(code: Code, since: Option<nat>) returns (delta: int, throughSequence: Option<nat>)
      ensures delta == SumSigned(Rows(entries, code, since))
      ensures throughSequence == Watermark(Rows(entries, code, since), since)
    {
      RowsMeaning(entries, code, since);
      var rows := Rows(entries, code, since);
      var normalIsDebit := DebitNormal(code);
      delta, throughSequence := 0, since;
      for i := 0 to |rows|
        invariant delta == SumSigned(rows[..i])
        invariant throughSequence == Watermark(rows[..i], since)
      {
        var e := rows[i];
        assert e in rows;
        assert rows[..i + 1][..i] == rows[..i];
        var matchesNormalSide := (e.direction == DEBIT) == normalIsDebit;
        delta := delta + if matchesNormalSide then e.amount else -e.amount;
        throughSequence := Some(e.sequence);
      }
      assert rows[..|rows|] == rows;
    }

    method ReconcileAccount(code: Code) returns (result: Result)
      requires code in accounts
      modifies this`accounts
      ensures result == Reconcile(old(accounts[code]), entries, code)
      ensures accounts == old(accounts)[code := result.account]
    {
      var account := accounts[code];
      var delta, throughSequence := ComputeBalanceDelta(code, account.cachedThroughSeq);
      var refreshed := account.cachedBalance + delta;
      var computed, _ := ComputeAccountBalance(code);
      ComputedIsBalance(account, entries, code);
      var matched := refreshed == computed;
      if matched {
        accounts := accounts[code := account.(cachedBalance := refreshed, cachedThroughSeq := throughSequence)];
      }
      result := Result(accounts[code], matched, refreshed, computed);
    }

    /** One reconciliation run over every account, listing the accounts reported as discrepancies. */
    method RunLedgerReconciliation() returns (checked: nat, discrepancies: seq<Code>)
      requires WellFormed(View())
      modifies this`accounts
      ensures checked == |order|
      ensures forall c :: c in discrepancies <==> c in old(accounts) && !Honest(old(accounts)[c], entries, c)
      ensures forall c :: c in accounts <==> c in old(accounts)
      ensures forall c :: c in accounts ==>
        if Honest(old(accounts)[c], entries, c) then accounts[c].cachedBalance == Balance(entries, c)
        else accounts[c] == old(accounts)[c]
    {
      hide Honest, Balance, Reconcile;
      discrepancies := [];
      for i := 0 to |order|
        invariant forall c :: c in accounts <==> c in old(accounts)
        invariant forall c :: c in discrepancies <==> c in order[..i] && !Honest(old(accounts)[c], entries, c)
        invariant forall j :: i <= j < |order| ==> accounts[order[j]] == old(accounts)[order[j]]
        invariant forall j :: 0 <= j < i ==>
          if Honest(old(accounts)[order[j]], entries, order[j]) then accounts[order[j]].cachedBalance == Balance(entries, order[j])
          else accounts[order[j]] == old(accounts)[order[j]]
      {
        var code := order[i];
        assert code in order;
        var result := ReconcileAccount(code);
        MatchedIffHonest(old(accounts)[code], entries, code);
        ReconcileKeepsHonesty(old(accounts)[code], entries, code);
        if !result.matched {
          discrepancies := discrepancies + [code];
        }
        assert order[..i + 1] == order[..i] + [code];
      }
      checked := |order|;
      assert order[..|order|] == order;
      forall c | c in accounts
        ensures if Honest(old(accounts)[c], entries, c) then accounts[c].cachedBalance == Balance(entries, c)
                else accounts[c] == old(accounts)[c]
      {
        assert c in order;
        var j :| 0 <= j < |order| && order[j] == c;
      }
    }
  }
}
