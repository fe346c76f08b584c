/** Runs in which the scanner loses a payment, call by call. */
module ScannerInputs {
  import opened Basics
  import opened Text
  import opened Discovery
  import opened Coverage
  import opened Scanner

  const ADDRESS: string := "0x" + Zeros(40)
  const PAYMENT: Hash := 7
  const OURS: set<string> := {ADDRESS}

  /** A chain of these blocks, on which the payment sends one unit of the coin to our address. */
  function ChainOf(blocks: map<nat, Block>, tip: nat): Chain {
    Chain(tip, blocks, map[PAYMENT := Tx(ADDRESS, Some(ADDRESS), 1)], map[PAYMENT := Receipt(true, [])])
  }

  lemma Address()
    ensures IsAddress(ADDRESS) && Tracking(ADDRESS) == ADDRESS && TrackedOf([ADDRESS]) == OURS && Canonical(OURS)
  {
    assert ADDRESS[2..] == Zeros(40) && ADDRESS[..2] == "0x";
    assert IsHex(Zeros(40));
    assert Lower(ADDRESS) == ADDRESS;
    assert [ADDRESS][0] == ADDRESS;
    hide Lower, IsAddress;
    assert forall a :: a in TrackedOf([ADDRESS]) <==> a == ADDRESS;
  }

  lemma Pays(blocks: map<nat, Block>, tip: nat)
    ensures PaysIn(ChainOf(blocks, tip), PAYMENT, [], OURS) && Finds(ChainOf(blocks, tip), PAYMENT, true, [], OURS)
  {
    Address();
    var chain := ChainOf(blocks, tip);
    assert ADDRESS in OURS && PaysListed(chain.txs[PAYMENT], ReceiptOf(chain, PAYMENT), NumberOf(ADDRESS), []) by { hide HexValue, Lower; }
    FindsPayments(chain, PAYMENT, true, [], OURS);
  }

  /** A scan of the one block at the tip hands over the payment if it is there. */
  lemma OneBlock(blocks: map<nat, Block>, tip: nat, r: Cursor, n: nat, hits: seq<Hash>)
    requires Complete(ChainOf(blocks, tip), r, n, 50, true, [], OURS, hits) && r.block + 1 == tip && tip in blocks
    requires blocks[tip].txs == [] || blocks[tip].txs == [PAYMENT]
    ensures n == 1 && hits == blocks[tip].txs && Forward(ChainOf(blocks, tip), r, n) == Cursor(tip, Some(blocks[tip].hash))
  {
    Pays(blocks, tip);
    hide Finds, Distinct;
    var chain := ChainOf(blocks, tip);
    forall h ensures InRange(chain, tip, 1, h) <==> h in blocks[tip].txs { assert InBlock(chain, tip, h) <==> h in blocks[tip].txs; }
    AtMostOnce(hits, blocks[tip].txs);
  }

  lemma AtMostOnce(hits: seq<Hash>, txs: seq<Hash>)
    requires Distinct(hits) && (txs == [] || txs == [PAYMENT]) && forall h :: h in hits <==> h in txs
    ensures hits == txs
  {
    FirstTwo(hits);
    if txs != [] { assert txs[0] in txs; }
  }

  lemma FirstTwo(hits: seq<Hash>)
    ensures |hits| > 0 ==> hits[0] in hits
    ensures |hits| > 1 ==> hits[1] in hits
  {
  }

  /** At the tip there is nothing to scan. */
  lemma NoBlock(blocks: map<nat, Block>, tip: nat, r: Cursor, n: nat, hits: seq<Hash>)
    requires Complete(ChainOf(blocks, tip), r, n, 50, true, [], OURS, hits) && r.block == tip
    ensures n == 0 && hits == [] && Forward(ChainOf(blocks, tip), r, n) == r
  {
    hide Finds;
    EmptyRange(ChainOf(blocks, tip), tip + 1);
    FirstTwo(hits);
  }

  predicate Ready(scanner: ChainScanner)
    reads scanner
  {
    scanner.fast && scanner.batchSize == 50 && scanner.contracts == [] && scanner.faults == []
  }

  /** A tick, no call of which fails, on a chain with one block to scan. */
  method ScanOne(scanner: ChainScanner, blocks: map<nat, Block>, tip: nat) returns (ok: bool)
    requires Ready(scanner) && tip in blocks && (blocks[tip].txs == [] || blocks[tip].txs == [PAYMENT])
    requires Resumed(ChainOf(blocks, tip), Loaded(scanner.cursor, tip)).block + 1 == tip
    modifies scanner
    ensures Ready(scanner) && ok && scanner.cursor == Some(Cursor(tip, Some(blocks[tip].hash)))
    ensures scanner.calls == old(scanner.calls) + Reports(ChainOf(blocks, tip), Loaded(old(scanner.cursor), tip))
                             + Processes(blocks[tip].txs) + [UpdateConfirmations]
  {
    hide Complete, Scanned, TrackedOf, HandledUpTo, Watching, MinedOnce, Canonical, Handled, Forward, HashStands;
    Address();
    ghost var r := Resumed(ChainOf(blocks, tip), Loaded(scanner.cursor, tip));
    var result: ScanResult;
    ghost var settled, n, more;
    ok, result, settled, n, more := scanner.Tick(ChainOf(blocks, tip), [ADDRESS]);
    OneBlock(blocks, tip, r, n, result.candidates);
  }

  /** A tick, no call of which fails, at the tip. */
  method ScanNone(scanner: ChainScanner, blocks: map<nat, Block>, tip: nat) returns (ok: bool)
    requires Ready(scanner) && scanner.cursor.Some? && scanner.cursor.value.block == tip && HashStands(ChainOf(blocks, tip), scanner.cursor.value)
    modifies scanner
    ensures Ready(scanner) && ok && scanner.cursor == old(scanner.cursor) && scanner.calls == old(scanner.calls) + [UpdateConfirmations]
  {
    hide Complete, Scanned, TrackedOf, HandledUpTo, Watching, MinedOnce, Canonical, Handled, Forward, HashStands;
    Address();
    var result: ScanResult;
    ghost var settled, n, more;
    ghost var c := scanner.cursor.value;
    ok, result, settled, n, more := scanner.Tick(ChainOf(blocks, tip), [ADDRESS]);
    NoBlock(blocks, tip, c, n, result.candidates);
  }

  // ---------------------------------------------------------------- a block that comes back

  const OURS_AT_1: map<nat, Block> := map[1 := Block(11, [PAYMENT])]
  const THEIRS_AT_1: map<nat, Block> := map[1 := Block(12, [])]

  /**
   * The payment's block is scanned; another takes its place, is reported, and the tick then fails; the
   * first is back. Its hash stands, so the completed tick does not scan it, and the payment stays undone.
   */
  method FlipBack() returns (cursor: Option<Cursor>, calls: seq<Call>, oks: seq<bool>)
    ensures oks == [true, false, true] && cursor == Some(Cursor(1, Some(11)))
    ensures calls == [Process(PAYMENT), UpdateConfirmations, HandleReorg(1), UpdateConfirmations]
    ensures InBlock(ChainOf(OURS_AT_1, 1), 1, PAYMENT) && PaysIn(ChainOf(OURS_AT_1, 1), PAYMENT, [], OURS)
    ensures !Live(calls, PAYMENT, 1)
  {
    hide Scanned, TrackedOf, HandledUpTo, Watching, MinedOnce, PaysIn, Handled, Live;
    Pays(OURS_AT_1, 1);
    var scanner := new ChainScanner(true, 50, [], []);
    var first := ScanOne(scanner, OURS_AT_1, 1);
    scanner.faults := [false, false, false, false, true];
    var second, result, settled, n, more := scanner.Tick(ChainOf(THEIRS_AT_1, 1), [ADDRESS]);
    var third := ScanNone(scanner, OURS_AT_1, 1);
    cursor, calls, oks := scanner.cursor, scanner.calls, [first, second, third];
    Undone();
  }

  lemma Undone()
    ensures !Live([Process(PAYMENT), UpdateConfirmations, HandleReorg(1), UpdateConfirmations], PAYMENT, 1)
  {
    var calls := [Process(PAYMENT), UpdateConfirmations, HandleReorg(1), UpdateConfirmations];
    assert calls[1..][1] == HandleReorg(1);
  }

  // ---------------------------------------------------------------- two blocks replaced

  const SHORT: map<nat, Block> := map[1 := Block(11, [])]
  const MIDDLE: map<nat, Block> := SHORT[2 := Block(21, [])]
  const LONG: map<nat, Block> := MIDDLE[3 := Block(31, [])]
  const REPLACED: map<nat, Block> := map[1 := Block(11, []), 2 := Block(22, [PAYMENT]), 3 := Block(32, [])]

  /**
   * Blocks 2 and 3 are replaced, and the payment is in the new block 2. One tick rewinds to it, stores
   * its hash and goes on from there; however often the scanner ticks afterwards, the payment is never
   * handed over.
   */
  method DeepReorg(later: nat) returns (cursor: Option<Cursor>, calls: seq<Call>, ok: bool)
    ensures ok && cursor == Some(Cursor(3, Some(32)))
    ensures InBlock(ChainOf(REPLACED, 3), 2, PAYMENT) && PaysIn(ChainOf(REPLACED, 3), PAYMENT, [], OURS)
    ensures HandleReorg(3) in calls && Process(PAYMENT) !in calls && |calls| == 5 + later
  {
    hide PaysIn;
    Pays(REPLACED, 3);
    var scanner := new ChainScanner(true, 50, [], []);
    ok := ScanOne(scanner, SHORT, 1);
    ok := ScanOne(scanner, MIDDLE, 2);
    ok := ScanOne(scanner, LONG, 3);
    ok := ScanOne(scanner, REPLACED, 3);
    assert scanner.calls == [UpdateConfirmations, UpdateConfirmations, UpdateConfirmations, HandleReorg(3), UpdateConfirmations];
    assert scanner.calls[3] == HandleReorg(3);
    for i := 0 to later
      invariant ok && Ready(scanner) && scanner.cursor == Some(Cursor(3, Some(32)))
      invariant HandleReorg(3) in scanner.calls && Process(PAYMENT) !in scanner.calls && |scanner.calls| == 5 + i
    {
      ok := ScanNone(scanner, REPLACED, 3);
    }
    cursor, calls := scanner.cursor, scanner.calls;
  }
}
