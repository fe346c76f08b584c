/** What the pipeline ever counts towards an invoice: allowlisted assets at or above their minimum. */
module PipelineMatching {
  import opened Basics
  import opened StateMachine
  import opened Ledger
  import opened Payments
  import opened Pipeline
  import opened PipelineTheorems

  predicate Countable(status: MatchStatus) {
    status == CREDITED || status == PENDING_CONFIRMATION
  }

  /** Some allowlisted token of the network carries the row's asset, and the amount reaches its minimum. */
  ghost predicate ListedDeposit(cfg: Config, n: Network, asset: Asset, amount: int) {
    exists token :: (n, token) in cfg.assets && cfg.assets[(n, token)].asset == asset && amount >= cfg.assets[(n, token)].minDeposit
  }

  ghost predicate Sound(cfg: Config, k: TransferKey, t: Transfer) {
    Countable(t.matchStatus) ==> t.invoiceId.Some? && t.asset.Some? && ListedDeposit(cfg, k.network, t.asset.value, t.amount)
  }

  ghost predicate AllSound(cfg: Config, transfers: map<TransferKey, Transfer>) {
    forall k :: k in transfers ==> Sound(cfg, k, transfers[k])
  }

  lemma ClassifiedSound(db: Db, cfg: Config, n: Network, tx: ChainTx, t: ParsedTransfer, now: Time)
    ensures Sound(cfg, TransferKey(n, tx.hash, t.index), ClassifiedRow(db, cfg, n, tx, t, now))
  {
    CountsExactly(db, cfg, n, tx, t, now);
    if (n, t.token) in cfg.assets && t.amount >= cfg.assets[(n, t.token)].minDeposit {
      assert ListedDeposit(cfg, n, cfg.assets[(n, t.token)].asset, t.amount);
    }
  }

  /**
   * A sighting counts towards an invoice exactly when the transaction did not revert, the token is
   * listed and the amount reaches its minimum, and the address belongs to a payable invoice in time.
   */
  lemma CountsExactly(db: Db, cfg: Config, n: Network, tx: ChainTx, t: ParsedTransfer, now: Time)
    ensures Countable(ClassifiedRow(db, cfg, n, tx, t, now).matchStatus) <==>
            && tx.status != TX_REVERTED
            && (n, t.token) in cfg.assets && t.amount >= cfg.assets[(n, t.token)].minDeposit
            && InvoiceAt(db, AddressKey(n, t.to)).Some?
            && var inv := db.invoices[InvoiceAt(db, AddressKey(n, t.to)).value];
               IsPayable(inv.status) && now <= inv.expiresAt + cfg.graceSeconds * 1000
    ensures ClassifiedRow(db, cfg, n, tx, t, now).invoiceId == InvoiceAt(db, AddressKey(n, t.to))
  {
  }

  lemma RecordSound(db: Db, cfg: Config, n: Network, tx: ChainTx, t: ParsedTransfer, now: Time)
    requires AllSound(cfg, db.transfers) && RecordTransfer(db, cfg, n, tx, t, now).Commit?
    ensures AllSound(cfg, RecordTransfer(db, cfg, n, tx, t, now).value.transfers)
  {
    ClassifiedSound(db, cfg, n, tx, t, now);
    hide ClassifiedRow, Sound, FindRule, ListedDeposit;
  }

  lemma {:induction false} RecordAllSound(db: Db, cfg: Config, n: Network, tx: ChainTx, ts: seq<ParsedTransfer>, now: Time)
    requires AllSound(cfg, db.transfers) && RecordTransfers(db, cfg, n, tx, ts, now).Commit?
    ensures AllSound(cfg, RecordTransfers(db, cfg, n, tx, ts, now).value.transfers)
    decreases |ts|
  {
    hide RecordTransfer, AllSound;
    if ts != [] {
      RecordSound(db, cfg, n, tx, ts[0], now);
      RecordAllSound(RecordTransfer(db, cfg, n, tx, ts[0], now).value, cfg, n, tx, ts[1..], now);
    }
  }

  ghost predicate AllCountable(transfers: map<TransferKey, Transfer>, keys: seq<TransferKey>) {
    forall k :: k in keys ==> k in transfers && Countable(transfers[k].matchStatus)
  }

  lemma CreditSound(db: Db, cfg: Config, id: InvoiceId, feeBps: int, keys: seq<TransferKey>, now: Time)
    requires id in db.invoices && keys != [] && AllCountable(db.transfers, keys) && AllSound(cfg, db.transfers)
    requires CreditOne(db, id, feeBps, keys[0], now).Commit?
    ensures var db' := CreditOne(db, id, feeBps, keys[0], now).value;
            AllSound(cfg, db'.transfers) && AllCountable(db'.transfers, keys[1..])
  {
    assert keys[0] in keys;
    hide PostCredit, ListedDeposit;
  }

  lemma {:induction false} CreditAllSound(db: Db, cfg: Config, id: InvoiceId, feeBps: int, keys: seq<TransferKey>, now: Time)
    requires id in db.invoices && AllCountable(db.transfers, keys) && AllSound(cfg, db.transfers)
    requires CreditAll(db, id, feeBps, keys, now).Commit?
    ensures AllSound(cfg, CreditAll(db, id, feeBps, keys, now).value.transfers)
    decreases |keys|
  {
    hide CreditOne, AllSound;
    if keys != [] {
      assert keys[0] in keys;
      CreditSound(db, cfg, id, feeBps, keys, now);
      CreditAllSound(CreditOne(db, id, feeBps, keys[0], now).value, cfg, id, feeBps, keys[1..], now);
    }
  }

  lemma SettleSound(db: Db, cfg: Config, id: InvoiceId, m: Merchant, target: Status, keys: seq<TransferKey>, total: int, now: Time)
    requires id in db.invoices && AllCountable(db.transfers, keys) && AllSound(cfg, db.transfers)
    requires Settle(db, id, m, target, keys, total, now).Commit?
    ensures AllSound(cfg, Settle(db, id, m, target, keys, total, now).value.transfers)
  {
    hide CreditAll, AllSound, FindRule, AllCountable;
    var db1 := Evaluated(db, id, target, total);
    assert db1.transfers == db.transfers;
    if AutoAccept(m, target) {
      CreditAllSound(if target == PAID then db1 else Move(db1, id, PAID, MONITOR), cfg, id, m.feeBps, keys, now);
    }
  }

  lemma FinalizeSound(db: Db, cfg: Config, id: InvoiceId, now: Time)
    requires AllSound(cfg, db.transfers) && FinalizeInvoice(db, id, now).Commit?
    ensures AllSound(cfg, FinalizeInvoice(db, id, now).value.transfers)
  {
    hide Settle, AllSound, FindRule, TargetFor;
    var inv := db.invoices[id];
    var keys := EligibleKeys(db.transferOrder, db.transfers, id, inv.requiredConfirmations);
    assert AllCountable(db.transfers, keys);
    var total := SumAmounts(keys, db.transfers);
    if inv.merchantId in db.merchants {
      var target := TargetFor(inv, total);
      if target.Commit? && target.value.Some? && Settle(db, id, db.merchants[inv.merchantId], target.value.value, keys, total, now).Commit? {
        SettleSound(db, cfg, id, db.merchants[inv.merchantId], target.value.value, keys, total, now);
      }
    }
  }

  lemma ConfirmSound(db: Db, cfg: Config, key: TransferKey, id: Option<InvoiceId>, c: nat, now: Time)
    requires AllSound(cfg, db.transfers) && ConfirmTransfer(db, key, id, c, now).Commit?
    ensures AllSound(cfg, ConfirmTransfer(db, key, id, c, now).value.transfers)
  {
    var db1 := SetConfirmations(db, key, c);
    ConfirmedRowSound(db, cfg, key, c);
    hide FinalizeInvoice, AllSound, FindRule, SetConfirmations;
    if id.Some? {
      var advanced := AdvanceConfirming(db1, id.value, c);
      assert advanced.value.transfers == db1.transfers;
      if IsConfirmed(c, db1.invoices[id.value].requiredConfirmations) {
        FinalizeSound(advanced.value, cfg, id.value, now);
      }
    }
  }

  lemma ConfirmedRowSound(db: Db, cfg: Config, key: TransferKey, c: nat)
    requires AllSound(cfg, db.transfers) && key in db.transfers
    ensures AllSound(cfg, SetConfirmations(db, key, c).transfers)
  {
    hide ListedDeposit;
  }

  lemma OrphanedSound(db: Db, cfg: Config, key: TransferKey)
    requires AllSound(cfg, db.transfers) && OrphanTransfer(db, key).Commit?
    ensures AllSound(cfg, OrphanTransfer(db, key).value.transfers)
  {
    hide FindRule, ListedDeposit;
  }

  lemma {:induction false} OrphansSound(db: Db, cfg: Config, keys: seq<TransferKey>)
    requires AllSound(cfg, db.transfers) && OrphanTransfers(db, keys).Commit?
    ensures AllSound(cfg, OrphanTransfers(db, keys).value.transfers)
    decreases |keys|
  {
    hide OrphanTransfer, AllSound;
    if keys != [] {
      OrphanedSound(db, cfg, keys[0]);
      OrphansSound(OrphanTransfer(db, keys[0]).value, cfg, keys[1..]);
    }
  }

  /** Every scan used this allowlist. */
  predicate UsesConfig(steps: seq<Step>, cfg: Config) {
    forall i :: 0 <= i < |steps| && steps[i].Process? ==> steps[i].cfg == cfg
  }

  lemma StepSound(db: Db, cfg: Config, s: Step)
    requires AllSound(cfg, db.transfers) && (s.Process? ==> s.cfg == cfg)
    ensures AllSound(cfg, Next(db, s).transfers)
  {
    hide AllSound, RecordTransfers, ConfirmTransfer, OrphanTransfers, FindRule;
    if Attempt(db, s).Commit? {
      match s
      case Process(_, n, tx, ts, now) =>
        if ts != [] { RecordAllSound(RecordChainTransaction(db, n, tx), cfg, n, tx, ts, now); }
      case Confirm(key, id, c, now) => ConfirmSound(db, cfg, key, id, c, now);
      case Orphan(tx) =>
        OrphansSound(db.(txs := db.txs[tx := db.txs[tx].(status := ORPHANED_TX)]), cfg, TransfersOf(db.transferOrder, tx));
      case _ =>
    }
  }

  /** In every run only transfers of an allowlisted asset, at or above its minimum, are counted or credited. */
  lemma {:induction false} OnlyListedDepositsCount(cfg: Config, steps: seq<Step>)
    requires UsesConfig(steps, cfg)
    ensures AllSound(cfg, Reached(steps).transfers)
  {
    hide Next, AllSound;
    if steps == [] {
      NoneUnsound(cfg);
    } else {
      OnlyListedDepositsCount(cfg, steps[..|steps| - 1]);
      StepSound(Reached(steps[..|steps| - 1]), cfg, steps[|steps| - 1]);
    }
  }

  lemma NoneUnsound(cfg: Config)
    ensures AllSound(cfg, EMPTY_DB.transfers)
  {
  }
}
