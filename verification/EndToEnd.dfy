/**
 * The scanner and the monitor together: what the scanner hands over, the pipeline records, a replaced
 * block's rows are orphaned, and what is handed over again is revived.
 */
module EndToEnd {
  import opened Basics
  import Discovery
  import Coverage
  import Ledger
  import Payments
  import StateMachine
  import Pipeline
  import PipelineInvariant
  import PipelineSteps
  import PipelineTheorems
  import PipelinePass

  /** What the monitor reads while it carries out one of the scanner's calls. */
  datatype World = World(
    chain: Coverage.Chain,
    cfg: Pipeline.Config,
    told: Hash -> Pipeline.ChainTx,
    report: Ledger.TransferKey -> nat,
    now: Time)

  /** A call of the scanner, the world that answered it, and after how many of its transactions it was cut short, if it was. */
  datatype Made = Made(call: Coverage.Call, world: World, cut: Option<nat>)

  function UpToCut<T>(s: seq<T>, cut: Option<nat>): (r: seq<T>)
    ensures r <= s && (cut.None? ==> r == s)
  {
    if cut.Some? && cut.value < |s| then s[..cut.value] else s
  }

  function Calls(made: seq<Made>): (calls: seq<Coverage.Call>)
    ensures |calls| == |made| && forall i :: 0 <= i < |made| ==> calls[i] == made[i].call
  {
    seq(|made|, i requires 0 <= i < |made| => made[i].call)
  }

  /** A parsed transfer with its addresses as the numbers they denote. */
  function Parsed(t: Discovery.Transfer): Pipeline.ParsedTransfer {
    Pipeline.ParsedTransfer(t.index, if t.contract.Some? then Some(Number(t.contract.value)) else None, Number(t.to), t.amount)
  }

  function Number(address: string): nat {
    if Discovery.IsAddress(address) then Discovery.NumberOf(address) else 0
  }

  function TransfersAt(chain: Coverage.Chain, h: Hash): seq<Discovery.Transfer> {
    if h !in chain.txs then []
    else
      match Discovery.TransfersOf(chain.txs[h], Coverage.ReceiptOf(chain, h))
      case Parsed(ts) => ts
      case _ => []
  }

  function ParsedAt(chain: Coverage.Chain, h: Hash): (ps: seq<Pipeline.ParsedTransfer>)
    ensures |ps| == |TransfersAt(chain, h)| && forall i :: 0 <= i < |ps| ==> ps[i] == Parsed(TransfersAt(chain, h)[i])
  {
    var ts := TransfersAt(chain, h);
    seq(|ts|, i requires 0 <= i < |ts| => Parsed(ts[i]))
  }

  function StepFor(n: Network, world: World, h: Hash): Pipeline.Step {
    Pipeline.Step.Process(world.cfg, n, world.told(h).(hash := h), ParsedAt(world.chain, h), world.now)
  }

  /** One call of the scanner, carried out by the monitor. */
  function Do(n: Network, db: Pipeline.Db, m: Made): Pipeline.Db {
    match m.call
    case Process(h) => Pipeline.Next(db, StepFor(n, m.world, h))
    case HandleReorg(c) => Pipeline.OrphanAll(db, UpToCut(Pipeline.ReorgKeys(db.txOrder, db.txs, n, c), m.cut)).db
    case UpdateConfirmations =>
      var pending := UpToCut(Pipeline.PendingRows(db.transferOrder, db.transfers, n), m.cut);
      Pipeline.ConfirmAll(db, pending, PipelinePass.Answers(m.world.report, pending), m.world.now).db
  }

  function DoAll(n: Network, db: Pipeline.Db, made: seq<Made>): Pipeline.Db {
    if made == [] then db else Do(n, DoAll(n, db, made[..|made| - 1]), made[|made| - 1])
  }

  /** Every transaction handed over was recorded without a throw. */
  predicate AllCommitted(n: Network, db: Pipeline.Db, made: seq<Made>) {
    made != [] ==>
      var init, last := made[..|made| - 1], made[|made| - 1];
      && AllCommitted(n, db, init)
      && (last.call.Process? ==> Pipeline.Attempt(DoAll(n, db, init), StepFor(n, last.world, last.call.hash)).Commit?)
  }

  lemma DoKeeps(n: Network, db: Pipeline.Db, m: Made)
    requires PipelineInvariant.Inv(db)
    ensures PipelineInvariant.Inv(Do(n, db, m)) && PipelineInvariant.Extends(db, Do(n, db, m))
  {
    hide PipelineInvariant.Inv, PipelineInvariant.Extends;
    match m.call
    case Process(h) => PipelineSteps.NextKeepsInv(db, StepFor(n, m.world, h));
    case HandleReorg(c) =>
      var steps := PipelineTheorems.ReorgPassIsRun(db, UpToCut(Pipeline.ReorgKeys(db.txOrder, db.txs, n, c), m.cut));
      PipelineSteps.RunKeepsInv(db, steps);
    case UpdateConfirmations =>
      var pending := UpToCut(Pipeline.PendingRows(db.transferOrder, db.transfers, n), m.cut);
      var steps := PipelineTheorems.ConfirmationPassIsRun(db, pending, PipelinePass.Answers(m.world.report, pending), m.world.now);
      PipelineSteps.RunKeepsInv(db, steps);
  }

  lemma {:induction false} DoAllKeeps(n: Network, db: Pipeline.Db, made: seq<Made>)
    requires PipelineInvariant.Inv(db)
    ensures PipelineInvariant.Inv(DoAll(n, db, made)) && PipelineInvariant.Extends(db, DoAll(n, db, made))
  {
    hide PipelineInvariant.Inv, PipelineInvariant.Extends, Do;
    if made == [] {
      PipelineSteps.ExtendsReflexive(db);
    } else {
      var before := DoAll(n, db, made[..|made| - 1]);
      DoAllKeeps(n, db, made[..|made| - 1]);
      DoKeeps(n, before, made[|made| - 1]);
      PipelineInvariant.ExtendsTransitive(db, before, DoAll(n, db, made));
    }
  }

  // ---------------------------------------------------------------- what a committed call records

  /** The row is there and not orphaned. */
  ghost predicate Stands(db: Pipeline.Db, k: Ledger.TransferKey) {
    k in db.transfers && db.transfers[k].matchStatus != Payments.ORPHANED
  }

  ghost predicate CreditsMarked(db: Pipeline.Db) {
    forall k :: k in db.transfers && db.transfers[k].creditedAt.Some? ==> db.transfers[k].matchStatus == Payments.CREDITED
  }

  lemma CreditsAreMarked(db: Pipeline.Db)
    requires PipelineInvariant.Inv(db)
    ensures CreditsMarked(db)
  {
  }

  lemma RowRecorded(db: Pipeline.Db, cfg: Pipeline.Config, n: Network, tx: Pipeline.ChainTx, t: Pipeline.ParsedTransfer, now: Time)
    requires CreditsMarked(db) && Pipeline.RecordTransfer(db, cfg, n, tx, t, now).Commit?
    ensures var db' := Pipeline.RecordTransfer(db, cfg, n, tx, t, now).value;
            && CreditsMarked(db') && db'.txs == db.txs
            && Stands(db', Ledger.TransferKey(n, tx.hash, t.index)) && forall k :: Stands(db, k) ==> Stands(db', k)
  {
    var row := Pipeline.ClassifiedRow(db, cfg, n, tx, t, now);
    assert row.matchStatus != Payments.ORPHANED && row.creditedAt.None?;
    hide Pipeline.ClassifiedRow, Pipeline.Guarded;
    var db' := Pipeline.PutTransfer(db, Ledger.TransferKey(n, tx.hash, t.index), row);
    if row.invoiceId.Some? && row.invoiceId.value in db'.invoices {
      GuardedKeepsRows(db', row.invoiceId.value, StateMachine.DETECTED);
      GuardedKeepsRows(db', row.invoiceId.value, StateMachine.LATE_PAYMENT_REVIEW);
    }
  }

  lemma GuardedKeepsRows(db: Pipeline.Db, id: InvoiceId, to: StateMachine.Status)
    requires id in db.invoices
    ensures var r := Pipeline.Guarded(db, id, to); r.Commit? ==> r.value.transfers == db.transfers && r.value.txs == db.txs
  {
    hide StateMachine.CanTransition, StateMachine.AssertTransition;
  }

  lemma {:induction false} RowsRecorded(db: Pipeline.Db, cfg: Pipeline.Config, n: Network, tx: Pipeline.ChainTx, ts: seq<Pipeline.ParsedTransfer>, now: Time)
    requires CreditsMarked(db) && Pipeline.RecordTransfers(db, cfg, n, tx, ts, now).Commit?
    ensures var db' := Pipeline.RecordTransfers(db, cfg, n, tx, ts, now).value;
            && db'.txs == db.txs && (forall k :: Stands(db, k) ==> Stands(db', k))
            && forall i :: 0 <= i < |ts| ==> Stands(db', Ledger.TransferKey(n, tx.hash, ts[i].index))
    decreases |ts|
  {
    hide Pipeline.RecordTransfer, Stands, CreditsMarked;
    if ts != [] {
      RowRecorded(db, cfg, n, tx, ts[0], now);
      RowsRecorded(Pipeline.RecordTransfer(db, cfg, n, tx, ts[0], now).value, cfg, n, tx, ts[1..], now);
      assert forall i :: 0 < i < |ts| ==> ts[i] == ts[1..][i - 1];
    }
  }

  /** The row stands and its transaction is recorded as mined at this height. */
  ghost predicate Alive(db: Pipeline.Db, k: Ledger.TransferKey, height: nat) {
    && Stands(db, k) && Pipeline.TxKey(k.network, k.txHash) in db.txs
    && db.txs[Pipeline.TxKey(k.network, k.txHash)].blockNumber == Some(height)
  }

  lemma CallRecorded(n: Network, world: World, db: Pipeline.Db, h: Hash, i: nat, height: nat)
    requires PipelineInvariant.Inv(db) && Pipeline.Attempt(db, StepFor(n, world, h)).Commit?
    requires i < |TransfersAt(world.chain, h)| && world.told(h).blockNumber == Some(height)
    ensures Alive(Pipeline.Next(db, StepFor(n, world, h)), Ledger.TransferKey(n, h, TransfersAt(world.chain, h)[i].index), height)
  {
    CreditsAreMarked(db);
    var tx := world.told(h).(hash := h);
    var ts := ParsedAt(world.chain, h);
    hide Pipeline.RecordTransfers, TransfersAt, ParsedAt, PipelineInvariant.Inv;
    var seen := Pipeline.RecordChainTransaction(db, n, tx);
    assert CreditsMarked(seen);
    hide CreditsMarked, Stands;
    RowsRecorded(seen, world.cfg, n, tx, ts, world.now);
    assert ts[i].index == TransfersAt(world.chain, h)[i].index;
  }

  // ---------------------------------------------------------------- what keeps a row alive

  lemma OtherCall(n: Network, world: World, db: Pipeline.Db, h: Hash, k: Ledger.TransferKey, height: nat)
    requires PipelineInvariant.Inv(db) && Alive(db, k, height) && k.txHash != h
    ensures Alive(Pipeline.Next(db, StepFor(n, world, h)), k, height)
  {
    CreditsAreMarked(db);
    var tx := world.told(h).(hash := h);
    var ts := ParsedAt(world.chain, h);
    hide Pipeline.RecordTransfers, ParsedAt, PipelineInvariant.Inv;
    var seen := Pipeline.RecordChainTransaction(db, n, tx);
    if Pipeline.Attempt(db, StepFor(n, world, h)).Commit? && ts != [] {
      assert Stands(seen, k);
      RowsRecorded(seen, world.cfg, n, tx, ts, world.now);
    }
  }

  lemma HigherReorg(n: Network, db: Pipeline.Db, b: nat, keys: seq<Pipeline.TxKey>, k: Ledger.TransferKey, height: nat)
    requires PipelineInvariant.Inv(db) && Alive(db, k, height) && b > height && keys <= Pipeline.ReorgKeys(db.txOrder, db.txs, n, b)
    ensures Alive(Pipeline.OrphanAll(db, keys).db, k, height)
  {
    hide PipelineInvariant.Inv, PipelineInvariant.Extends, Pipeline.OrphanAll;
    assert forall x :: x in keys ==> x in Pipeline.ReorgKeys(db.txOrder, db.txs, n, b);
    PipelineTheorems.OrphanAllEffect(db, keys);
    var after := Pipeline.OrphanAll(db, keys).db;
    assert !PipelineTheorems.Belongs(k, keys);
    assert PipelineTheorems.OrphanedRow(db, after, k, false);
  }

  lemma {:induction false} CreditingKeepsTxs(db: Pipeline.Db, id: InvoiceId, feeBps: int, keys: seq<Ledger.TransferKey>, now: Time)
    requires id in db.invoices && forall k :: k in keys ==> k in db.transfers
    ensures Pipeline.CreditAll(db, id, feeBps, keys, now).Commit? ==> Pipeline.CreditAll(db, id, feeBps, keys, now).value.txs == db.txs
    decreases |keys|
  {
    hide Ledger.PostCredit;
    if keys != [] {
      assert keys[0] in keys;
      var r := Pipeline.CreditOne(db, id, feeBps, keys[0], now);
      if r.Commit? { CreditingKeepsTxs(r.value, id, feeBps, keys[1..], now); }
    }
  }

  lemma SettlingKeepsTxs(db: Pipeline.Db, id: InvoiceId, m: Pipeline.Merchant, target: StateMachine.Status, keys: seq<Ledger.TransferKey>, total: int, now: Time)
    requires id in db.invoices && forall k :: k in keys ==> k in db.transfers
    ensures Pipeline.Settle(db, id, m, target, keys, total, now).Commit? ==> Pipeline.Settle(db, id, m, target, keys, total, now).value.txs == db.txs
  {
    hide Pipeline.CreditAll;
    var db1 := Pipeline.Evaluated(db, id, target, total);
    CreditingKeepsTxs(db1, id, m.feeBps, keys, now);
    CreditingKeepsTxs(Pipeline.Move(db1, id, StateMachine.PAID, StateMachine.MONITOR), id, m.feeBps, keys, now);
  }

  lemma ConfirmingKeepsTxs(db: Pipeline.Db, key: Ledger.TransferKey, id: Option<InvoiceId>, c: nat, now: Time)
    ensures Pipeline.ConfirmTransfer(db, key, id, c, now).Commit? ==> Pipeline.ConfirmTransfer(db, key, id, c, now).value.txs == db.txs
  {
    hide Pipeline.Settle, Pipeline.TargetFor, Pipeline.EligibleKeys, Pipeline.SumAmounts;
    if key in db.transfers && id.Some? && id.value in db.invoices {
      var advanced := Pipeline.AdvanceConfirming(Pipeline.SetConfirmations(db, key, c), id.value, c);
      if advanced.Commit? {
        var db2 := advanced.value;
        var inv := db2.invoices[id.value];
        var keys := Pipeline.EligibleKeys(db2.transferOrder, db2.transfers, id.value, inv.requiredConfirmations);
        var total := Pipeline.SumAmounts(keys, db2.transfers);
        var target := Pipeline.TargetFor(inv, total);
        if inv.merchantId in db2.merchants && target.Commit? && target.value.Some? {
          SettlingKeepsTxs(db2, id.value, db2.merchants[inv.merchantId], target.value.value, keys, total, now);
        }
      }
    }
  }

  lemma StandsOn(db: Pipeline.Db, db': Pipeline.Db, p: Pipeline.Pending, c: nat, k: Ledger.TransferKey)
    requires PipelinePass.Processed(db, db', p, c) && Stands(db, k)
    ensures Stands(db', k)
  {
  }

  lemma {:induction false} PassKeepsAlive(db: Pipeline.Db, pending: seq<Pipeline.Pending>, answers: seq<nat>, now: Time, k: Ledger.TransferKey, height: nat)
    requires PipelineInvariant.Inv(db) && PipelinePass.Snapshot(db, pending) && |answers| == |pending| && Alive(db, k, height)
    ensures Alive(Pipeline.ConfirmAll(db, pending, answers, now).db, k, height)
    decreases |pending|
  {
    hide Pipeline.ConfirmTransfer, PipelinePass.Throws, PipelinePass.Rests, PipelinePass.Wrote, PipelinePass.Processed, PipelinePass.Snapshot, PipelinePass.Current, PipelineInvariant.Inv, Stands;
    if pending != [] {
      PipelinePass.PassStep(db, pending, answers, now);
      var r := Pipeline.ConfirmTransfer(db, pending[0].key, pending[0].invoiceId, answers[0], now);
      if r.Commit? {
        StandsOn(db, r.value, pending[0], answers[0], k);
        ConfirmingKeepsTxs(db, pending[0].key, pending[0].invoiceId, answers[0], now);
        PassKeepsAlive(r.value, pending[1..], answers[1..], now, k, height);
      }
    }
  }

  lemma SnapshotPrefix(db: Pipeline.Db, all: seq<Pipeline.Pending>, pending: seq<Pipeline.Pending>)
    requires PipelinePass.Snapshot(db, all) && pending <= all
    ensures PipelinePass.Snapshot(db, pending)
  {
    hide PipelinePass.Current;
    assert forall i :: 0 <= i < |pending| ==> pending[i] == all[i];
  }

  /** Only a reorg at or below its height, or another sighting of its transaction, touches a live row's standing. */
  lemma CallKeepsAlive(n: Network, db: Pipeline.Db, m: Made, k: Ledger.TransferKey, height: nat)
    requires PipelineInvariant.Inv(db) && Alive(db, k, height)
    requires m.call != Coverage.Process(k.txHash) && (m.call.HandleReorg? ==> m.call.fromBlock > height)
    ensures Alive(Do(n, db, m), k, height)
  {
    hide PipelineInvariant.Inv, Alive, Pipeline.Next, Pipeline.OrphanAll, Pipeline.ConfirmAll;
    match m.call
    case Process(h) => OtherCall(n, m.world, db, h, k, height);
    case HandleReorg(b) => HigherReorg(n, db, b, UpToCut(Pipeline.ReorgKeys(db.txOrder, db.txs, n, b), m.cut), k, height);
    case UpdateConfirmations =>
      PipelinePass.TablesOf(db);
      PipelinePass.SnapshotOf(db, n);
      var all := Pipeline.PendingRows(db.transferOrder, db.transfers, n);
      var pending := UpToCut(all, m.cut);
      SnapshotPrefix(db, all, pending);
      PassKeepsAlive(db, pending, PipelinePass.Answers(m.world.report, pending), m.world.now, k, height);
  }

  // ---------------------------------------------------------------- from hand-over to row

  /** The transaction's latest hand-over, after which no reorg reaches down to its height. */
  ghost predicate LastLive(calls: seq<Coverage.Call>, h: Hash, height: nat, j: nat) {
    Coverage.LiveAt(calls, h, height, j) && forall i :: j < i < |calls| ==> calls[i] != Coverage.Process(h)
  }

  lemma {:induction false} LatestOf(calls: seq<Coverage.Call>, h: Hash, height: nat, j: nat) returns (last: nat)
    requires Coverage.LiveAt(calls, h, height, j)
    ensures LastLive(calls, h, height, last)
    decreases |calls| - j
  {
    if i :| j < i < |calls| && calls[i] == Coverage.Process(h) {
      assert calls[j + 1..] == calls[j + 1..i + 1] + calls[i + 1..];
      Coverage.QuietJoin(calls[j + 1..i + 1], calls[i + 1..], height);
      last := LatestOf(calls, h, height, i);
    } else {
      last := j;
    }
  }

  lemma LiveBefore(made: seq<Made>, h: Hash, height: nat, j: nat)
    requires LastLive(Calls(made), h, height, j) && j < |made| - 1
    ensures LastLive(Calls(made[..|made| - 1]), h, height, j)
    ensures var m := made[|made| - 1]; m.call != Coverage.Process(h) && (m.call.HandleReorg? ==> m.call.fromBlock > height)
  {
    var calls, init := Calls(made), Calls(made[..|made| - 1]);
    var later := calls[j + 1..];
    assert forall i :: 0 <= i < |init| ==> init[i] == calls[i];
    assert init[j + 1..] == later[..|later| - 1];
    assert later == later[..|later| - 1] + [later[|later| - 1]] && later[|later| - 1] == made[|made| - 1].call;
    Coverage.QuietJoin(later[..|later| - 1], [later[|later| - 1]], height);
    assert [later[|later| - 1]][0] == made[|made| - 1].call;
  }

  /** Each transfer of a transaction handed over, and not undone since, has a row that stands. */
  lemma {:induction false} HandedOverIsRecorded(n: Network, db: Pipeline.Db, made: seq<Made>, h: Hash, height: nat, j: nat, i: nat)
    requires PipelineInvariant.Inv(db) && AllCommitted(n, db, made) && LastLive(Calls(made), h, height, j)
    requires made[j].world.told(h).blockNumber == Some(height) && i < |TransfersAt(made[j].world.chain, h)|
    ensures Alive(DoAll(n, db, made), Ledger.TransferKey(n, h, TransfersAt(made[j].world.chain, h)[i].index), height)
    decreases |made|
  {
    hide PipelineInvariant.Inv, TransfersAt, Pipeline.Next, Pipeline.Attempt, Alive, LastLive, Coverage.LiveAt, Do, StepFor;
    LastIs(made, h, height, j);
    var init, last := made[..|made| - 1], made[|made| - 1];
    var before := DoAll(n, db, init);
    DoAllKeeps(n, db, init);
    if j == |made| - 1 {
      CallRecorded(n, last.world, before, h, i, height);
      DoProcess(n, before, last, h);
    } else {
      LiveBefore(made, h, height, j);
      HandedOverIsRecorded(n, db, init, h, height, j, i);
      CallKeepsAlive(n, before, last, Ledger.TransferKey(n, h, TransfersAt(made[j].world.chain, h)[i].index), height);
    }
  }

  lemma DoProcess(n: Network, db: Pipeline.Db, m: Made, h: Hash)
    requires m.call == Coverage.Process(h)
    ensures Do(n, db, m) == Pipeline.Next(db, StepFor(n, m.world, h))
  {
  }

  lemma LastIs(made: seq<Made>, h: Hash, height: nat, j: nat)
    requires LastLive(Calls(made), h, height, j)
    ensures j < |made| && made[j].call == Coverage.Process(h)
  {
  }

  /** The node, asked about the transaction, shows it as this chain has it and mined at this height. */
  ghost predicate ShownBy(world: World, chain: Coverage.Chain, h: Hash, height: nat) {
    && h in world.chain.txs && h in chain.txs && world.chain.txs[h] == chain.txs[h]
    && Coverage.ReceiptOf(world.chain, h) == Coverage.ReceiptOf(chain, h) && world.told(h).blockNumber == Some(height)
  }

  /**
   * End to end, for the invariant of any run of ticks: every payment in the coin or a listed token to a
   * watched address, at a height covered on this chain, has a row in the database that is not orphaned,
   * whatever blocks were replaced and rescanned before.
   */
  lemma PaymentsAreRecorded(
    n: Network, db: Pipeline.Db, made: seq<Made>, chain: Coverage.Chain, c: Coverage.Cursor, reported: bool,
    start: nat, watched: map<nat, set<string>>, contracts: seq<string>, height: nat, h: Hash) returns (a: string, i: nat)
    requires PipelineInvariant.Inv(db) && AllCommitted(n, db, made)
    requires Coverage.CoveredBy(chain, c, reported, start, watched, contracts, Calls(made))
    requires start < height <= (if reported then c.block - 1 else c.block) && Coverage.InBlock(chain, height, h)
    requires height in watched && Coverage.PaysIn(chain, h, contracts, watched[height])
    requires forall j: nat :: Coverage.LiveAt(Calls(made), h, height, j) ==> ShownBy(made[j].world, chain, h, height)
    ensures a in watched[height] && Discovery.IsAddress(a)
    ensures i < |TransfersAt(chain, h)| && Number(TransfersAt(chain, h)[i].to) == Number(a)
    ensures Stands(DoAll(n, db, made), Ledger.TransferKey(n, h, TransfersAt(chain, h)[i].index))
  {
    hide PipelineInvariant.Inv, DoAll, AllCommitted, Coverage.PaysIn, Coverage.LiveAt, Coverage.HashStands;
    assert Coverage.HandledAt(chain, height, watched, contracts, Calls(made));
    a, i := PaidTransfer(chain, h, contracts, watched[height]);
    var j: nat :| Coverage.LiveAt(Calls(made), h, height, j);
    var last := LatestOf(Calls(made), h, height, j);
    assert Coverage.LiveAt(Calls(made), h, height, last);
    LastIs(made, h, height, last);
    assert TransfersAt(made[last].world.chain, h) == TransfersAt(chain, h);
    HandedOverIsRecorded(n, db, made, h, height, last, i);
  }

  lemma PaidTransfer(chain: Coverage.Chain, h: Hash, contracts: seq<string>, tracked: set<string>) returns (a: string, i: nat)
    requires Coverage.PaysIn(chain, h, contracts, tracked)
    ensures a in tracked && i < |TransfersAt(chain, h)| && Discovery.IsAddress(a)
    ensures Number(TransfersAt(chain, h)[i].to) == Number(a)
  {
    var tx, receipt := chain.txs[h], Coverage.ReceiptOf(chain, h);
    hide Discovery.HexValue, Discovery.Pow16;
    a :| a in tracked && Discovery.PaysListed(tx, receipt, Discovery.NumberOf(a), contracts);
    assert Discovery.Pays(tx, receipt, Discovery.NumberOf(a));
    Discovery.AddressBound(a);
    Discovery.TransfersMeaning(tx, receipt, Discovery.NumberOf(a));
    var ts := Discovery.TransfersOf(tx, receipt).value;
    assert Discovery.SomeTo(ts, Discovery.NumberOf(a));
    i :| 0 <= i < |ts| && Discovery.NumberOf(ts[i].to) == Discovery.NumberOf(a);
  }

  // ---------------------------------------------------------------- a replaced block

  /**
   * End to end: when the scanner reports the replacement of block c, the rows recorded for
   * transactions mined at or above it are orphaned, or their invoices frozen if already credited.
   */
  lemma ReplacementOrphans(n: Network, db: Pipeline.Db, made: seq<Made>, c: nat)
    requires PipelineInvariant.Inv(db) && made != [] && made[|made| - 1].call == Coverage.HandleReorg(c) && made[|made| - 1].cut.None?
    ensures var before := DoAll(n, db, made[..|made| - 1]);
            var after := DoAll(n, db, made);
            && after.book == before.book
            && forall k :: k in before.transfers ==>
                 && k in after.transfers && Pipeline.TxKey(k.network, k.txHash) in before.txs
                 && PipelineTheorems.OrphanedRow(before, after, k,
                      k.network == n && Pipeline.InReorg(before.txs[Pipeline.TxKey(k.network, k.txHash)], c))
  {
    hide PipelineInvariant.Inv;
    var init := made[..|made| - 1];
    DoAllKeeps(n, db, init);
    PipelineTheorems.ReorgOn(DoAll(n, db, init), n, c);
    hide PipelineTheorems.OrphanedRow, DoAll;
    assert DoAll(n, db, made) == Do(n, DoAll(n, db, init), made[|made| - 1]) by { DoAllLast(n, db, made); }
  }

  lemma DoAllLast(n: Network, db: Pipeline.Db, made: seq<Made>)
    requires made != []
    ensures DoAll(n, db, made) == Do(n, DoAll(n, db, made[..|made| - 1]), made[|made| - 1])
  {
  }
}
