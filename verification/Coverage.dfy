/**
 * What the chain scanner owes (apps/blockchain-monitor/src/scanner.ts): every payment at a height it
 * has passed was handed to the monitor, and was not undone by a reorg reported afterwards.
 */
module Coverage {
  import opened Basics
  import opened Text
  import opened Discovery

  datatype Block = Block(hash: Hash, txs: seq<Hash>)
  /** What the node answers: a tip, the blocks it has, and the transactions and receipts in them. */
  datatype Chain = Chain(tip: nat, blocks: map<nat, Block>, txs: map<Hash, Tx>, receipts: map<Hash, Receipt>)
  datatype Cursor = Cursor(block: nat, hash: Option<Hash>)
  datatype Call = Process(hash: Hash) | HandleReorg(fromBlock: nat) | UpdateConfirmations

  function ReceiptOf(chain: Chain, h: Hash): Option<Receipt> {
    if h in chain.receipts then Some(chain.receipts[h]) else None
  }

  /** The node knows the transaction and prints it, and its receipt, in full width. */
  predicate NodeKnows(chain: Chain, h: Hash) {
    h in chain.txs && NodeAnswers(chain.txs[h], ReceiptOf(chain, h))
  }

  ghost predicate InBlock(chain: Chain, n: nat, h: Hash) {
    n in chain.blocks && h in chain.blocks[n].txs
  }

  /** The transaction stands in one of the n blocks from `from` on. */
  ghost predicate InRange(chain: Chain, from: nat, n: nat, h: Hash) {
    exists k :: from <= k < from + n && InBlock(chain, k, h)
  }

  ghost predicate Above(chain: Chain, from: nat, h: Hash) {
    exists k :: from <= k && InBlock(chain, k, h)
  }

  /** A transaction is mined at one height. */
  ghost predicate MinedOnce(chain: Chain) {
    forall h, j, k :: InBlock(chain, j, h) && InBlock(chain, k, h) ==> j == k
  }

  predicate Finds(chain: Chain, h: Hash, fast: bool, contracts: seq<string>, tracked: set<string>) {
    h in chain.txs &&
    if fast then FastFinds(chain.txs[h], ReceiptOf(chain, h), contracts, tracked)
    else Touches(chain.txs[h], ReceiptOf(chain, h), tracked)
  }

  ghost predicate PaysIn(chain: Chain, h: Hash, contracts: seq<string>, tracked: set<string>) {
    NodeKnows(chain, h) && Canonical(tracked) && PaysTrackedListed(chain.txs[h], ReceiptOf(chain, h), tracked, contracts)
  }

  ghost predicate Available(chain: Chain, from: nat, n: nat) {
    forall k :: from <= k < from + n ==> k in chain.blocks
  }

  // ---------------------------------------------------------------- live hand-overs

  /** No reorg at or below height k is reported in these calls. */
  predicate Quiet(calls: seq<Call>, k: nat) {
    forall i :: 0 <= i < |calls| && calls[i].HandleReorg? ==> calls[i].fromBlock > k
  }

  predicate LiveAt(calls: seq<Call>, h: Hash, k: nat, i: nat) {
    i < |calls| && calls[i] == Process(h) && Quiet(calls[i + 1..], k)
  }

  /** The transaction was handed over, and no reorg reported since reaches down to height k. */
  ghost predicate Live(calls: seq<Call>, h: Hash, k: nat) {
    exists i :: LiveAt(calls, h, k, i)
  }

  lemma QuietJoin(a: seq<Call>, b: seq<Call>, k: nat)
    ensures Quiet(a + b, k) <==> Quiet(a, k) && Quiet(b, k)
  {
    var both := a + b;
    assert forall i :: 0 <= i < |a| ==> both[i] == a[i];
    assert forall i :: 0 <= i < |b| ==> both[|a| + i] == b[i];
    if Quiet(a, k) && Quiet(b, k) {
      forall i | 0 <= i < |both| && both[i].HandleReorg? ensures both[i].fromBlock > k {
        assert i >= |a| ==> both[i] == b[i - |a|];
      }
    }
  }

  /** A hand-over is live after more calls exactly when it is repeated there for good, or was live and stays so. */
  lemma LiveJoin(a: seq<Call>, b: seq<Call>, h: Hash, k: nat)
    ensures Live(a + b, h, k) <==> Live(b, h, k) || (Live(a, h, k) && Quiet(b, k))
  {
    hide Quiet;
    if Live(a + b, h, k) {
      var i: nat :| LiveAt(a + b, h, k, i);
      if i < |a| {
        assert (a + b)[i + 1..] == a[i + 1..] + b;
        QuietJoin(a[i + 1..], b, k);
        assert LiveAt(a, h, k, i);
      } else {
        assert (a + b)[i + 1..] == b[i - |a| + 1..];
        assert LiveAt(b, h, k, i - |a|);
      }
    }
    if Live(b, h, k) {
      var i: nat :| LiveAt(b, h, k, i);
      assert (a + b)[|a| + i + 1..] == b[i + 1..];
      assert LiveAt(a + b, h, k, |a| + i);
    }
    if Live(a, h, k) && Quiet(b, k) {
      var i: nat :| LiveAt(a, h, k, i);
      assert (a + b)[i + 1..] == a[i + 1..] + b;
      QuietJoin(a[i + 1..], b, k);
      assert LiveAt(a + b, h, k, i);
    }
  }

  function Processes(hs: seq<Hash>): (r: seq<Call>)
    ensures |r| == |hs| && forall i :: 0 <= i < |hs| ==> r[i] == Process(hs[i])
  {
    seq(|hs|, i requires 0 <= i < |hs| => Process(hs[i]))
  }

  /** Calls of a scan: transactions from some height on, and confirmation updates. */
  ghost predicate ScanCalls(chain: Chain, from: nat, calls: seq<Call>) {
    forall i :: 0 <= i < |calls| ==> calls[i].UpdateConfirmations? || (calls[i].Process? && Above(chain, from, calls[i].hash))
  }

  lemma ScanCallsJoin(chain: Chain, from: nat, a: seq<Call>, b: seq<Call>)
    requires ScanCalls(chain, from, a) && ScanCalls(chain, from, b)
    ensures ScanCalls(chain, from, a + b)
  {
    hide Above;
  }

  /** A scan repeats no payment of a lower block and undoes none. */
  lemma ScanCallsElsewhere(chain: Chain, from: nat, calls: seq<Call>, h: Hash, k: nat)
    requires ScanCalls(chain, from, calls)
    ensures Quiet(calls, k)
    ensures MinedOnce(chain) && InBlock(chain, k, h) && k < from ==> !Live(calls, h, k)
  {
  }

  // ---------------------------------------------------------------- coverage

  /** Every payment of block n to a watched address is live with the monitor. */
  ghost predicate Handled(chain: Chain, n: nat, contracts: seq<string>, tracked: set<string>, calls: seq<Call>) {
    n in chain.blocks && forall h :: h in chain.blocks[n].txs && PaysIn(chain, h, contracts, tracked) ==> Live(calls, h, n)
  }

  ghost predicate HandledAt(chain: Chain, k: nat, watched: map<nat, set<string>>, contracts: seq<string>, calls: seq<Call>) {
    k in watched && Handled(chain, k, contracts, watched[k], calls)
  }

  /** Every height after the first start up to m is handled for the addresses watched when it was scanned. */
  ghost predicate HandledUpTo(chain: Chain, m: int, start: nat, watched: map<nat, set<string>>, contracts: seq<string>, calls: seq<Call>) {
    forall k: nat :: start < k <= m ==> HandledAt(chain, k, watched, contracts, calls)
  }

  /** Both discovery paths find every payment in the coin or a listed token. */
  lemma FindsPayments(chain: Chain, h: Hash, fast: bool, contracts: seq<string>, tracked: set<string>)
    requires PaysIn(chain, h, contracts, tracked)
    ensures Finds(chain, h, fast, contracts, tracked)
  {
    BothPathsFind(chain.txs[h], ReceiptOf(chain, h), tracked, contracts);
  }

  lemma ProcessedLive(hits: seq<Hash>, h: Hash, k: nat)
    requires h in hits
    ensures Live(Processes(hits), h, k)
  {
    var i :| 0 <= i < |hits| && hits[i] == h;
    assert LiveAt(Processes(hits), h, k, i);
  }

  /** Handing over exactly what a path finds in a range handles every block of the range. */
  lemma RangeHandled(chain: Chain, from: nat, n: nat, fast: bool, contracts: seq<string>, tracked: set<string>, hits: seq<Hash>, k: nat)
    requires Available(chain, from, n) && from <= k < from + n
    requires forall h :: h in hits <==> InRange(chain, from, n, h) && Finds(chain, h, fast, contracts, tracked)
    ensures Handled(chain, k, contracts, tracked, Processes(hits))
  {
    hide Finds, PaysIn, Live;
    forall h | h in chain.blocks[k].txs && PaysIn(chain, h, contracts, tracked) ensures Live(Processes(hits), h, k) {
      FindsPayments(chain, h, fast, contracts, tracked);
      assert InBlock(chain, k, h);
      ProcessedLive(hits, h, k);
    }
  }

  lemma HandledLater(chain: Chain, n: nat, contracts: seq<string>, tracked: set<string>, calls: seq<Call>, more: seq<Call>)
    requires Handled(chain, n, contracts, tracked, calls) && Quiet(more, n)
    ensures Handled(chain, n, contracts, tracked, calls + more)
  {
    hide PaysIn, Live, Quiet;
    forall h | h in chain.blocks[n].txs && PaysIn(chain, h, contracts, tracked) ensures Live(calls + more, h, n) { LiveJoin(calls, more, h, n); }
  }

  lemma HandledAfter(chain: Chain, n: nat, contracts: seq<string>, tracked: set<string>, calls: seq<Call>, more: seq<Call>)
    requires Handled(chain, n, contracts, tracked, more)
    ensures Handled(chain, n, contracts, tracked, calls + more)
  {
    hide PaysIn, Live, Quiet;
    forall h | h in chain.blocks[n].txs && PaysIn(chain, h, contracts, tracked) ensures Live(calls + more, h, n) { LiveJoin(calls, more, h, n); }
  }

  /** Scanning higher blocks does not help a lower one. */
  lemma HandledBefore(chain: Chain, n: nat, from: nat, contracts: seq<string>, tracked: set<string>, calls: seq<Call>, more: seq<Call>)
    requires MinedOnce(chain) && n < from && ScanCalls(chain, from, more)
    requires Handled(chain, n, contracts, tracked, calls + more)
    ensures Handled(chain, n, contracts, tracked, calls)
  {
    hide PaysIn, Live, Quiet, MinedOnce, ScanCalls;
    forall h | h in chain.blocks[n].txs && PaysIn(chain, h, contracts, tracked) ensures Live(calls, h, n) {
      LiveJoin(calls, more, h, n);
      assert InBlock(chain, n, h);
      ScanCallsElsewhere(chain, from, more, h, n);
    }
  }

  lemma HandledBeforeReport(chain: Chain, n: nat, c: nat, contracts: seq<string>, tracked: set<string>, calls: seq<Call>)
    requires Handled(chain, n, contracts, tracked, calls + [HandleReorg(c)])
    ensures Handled(chain, n, contracts, tracked, calls)
    ensures c <= n ==> forall h :: h in chain.blocks[n].txs ==> !PaysIn(chain, h, contracts, tracked)
  {
    hide PaysIn, Live, Quiet;
    forall h | h in chain.blocks[n].txs && PaysIn(chain, h, contracts, tracked) ensures Live(calls, h, n) && c > n {
      LiveJoin(calls, [HandleReorg(c)], h, n);
      OnlyReport(c, h, n);
    }
  }

  lemma OnlyReport(c: nat, h: Hash, k: nat)
    ensures !Live([HandleReorg(c)], h, k) && (Quiet([HandleReorg(c)], k) <==> c > k)
  {
    assert [HandleReorg(c)][0].fromBlock == c;
  }

  // ---------------------------------------------------------------- the cursor

  /** The stored hash is that of the block at the cursor, or there is nothing to compare. */
  predicate HashStands(chain: Chain, c: Cursor) {
    c.hash.Some? && c.block > 0 ==> c.block in chain.blocks && chain.blocks[c.block].hash == c.hash.value
  }

  /** First run: start below the tip. */
  function Loaded(cursor: Option<Cursor>, tip: nat): Cursor {
    if cursor.Some? then cursor.value else Cursor(if tip > 0 then tip - 1 else 0, None)
  }

  function Rewound(chain: Chain, block: nat): Cursor {
    var rewound := if block > 0 then block - 1 else 0;
    Cursor(rewound, if rewound > 0 && rewound in chain.blocks then Some(chain.blocks[rewound].hash) else None)
  }

  /** Where a tick goes on from. */
  function Resumed(chain: Chain, c: Cursor): Cursor {
    if HashStands(chain, c) then c else Rewound(chain, c.block)
  }

  function Reports(chain: Chain, c: Cursor): seq<Call> {
    if HashStands(chain, c) then [] else [HandleReorg(c.block)]
  }

  function UpTo(tip: nat, from: nat, batch: nat): int {
    if tip < from then from - 1 else if tip < from + batch - 1 then tip else from + batch - 1
  }

  ghost function Watching(watched: map<nat, set<string>>, from: nat, n: nat, tracked: set<string>): (r: map<nat, set<string>>)
    ensures forall k :: from <= k < from + n ==> k in r && r[k] == tracked
    ensures forall k :: !(from <= k < from + n) ==> (k in r <==> k in watched) && (k in watched ==> r[k] == watched[k])
  {
    if n == 0 then watched else Watching(watched, from, n - 1, tracked)[from + n - 1 := tracked]
  }

  function Forward(chain: Chain, r: Cursor, n: nat): Cursor {
    if n > 0 && r.block + n in chain.blocks then Cursor(r.block + n, Some(chain.blocks[r.block + n].hash)) else r
  }

  /** From r on, n blocks were scanned for the tracked addresses with these calls. */
  ghost predicate Scanned(chain: Chain, r: Cursor, n: nat, contracts: seq<string>, tracked: set<string>, calls: seq<Call>) {
    && Available(chain, r.block + 1, n) && ScanCalls(chain, r.block + 1, calls)
    && forall k :: r.block < k <= r.block + n ==> Handled(chain, k, contracts, tracked, calls)
  }

  /** The heights up to the scan's end are handled exactly when those up to its beginning were. */
  lemma ScannedExactly(chain: Chain, r: Cursor, n: nat, start: nat, watched: map<nat, set<string>>, contracts: seq<string>, tracked: set<string>, calls: seq<Call>, more: seq<Call>)
    requires Scanned(chain, r, n, contracts, tracked, more)
    ensures HandledUpTo(chain, r.block, start, watched, contracts, calls) ==>
              HandledUpTo(chain, r.block + n, start, Watching(watched, r.block + 1, n, tracked), contracts, calls + more)
    ensures MinedOnce(chain) && HandledUpTo(chain, r.block + n, start, Watching(watched, r.block + 1, n, tracked), contracts, calls + more) ==>
              HandledUpTo(chain, r.block, start, watched, contracts, calls)
  {
    hide Handled, ScanCalls, Available, MinedOnce, Watching;
    var watched' := Watching(watched, r.block + 1, n, tracked);
    if HandledUpTo(chain, r.block, start, watched, contracts, calls) {
      forall k: nat | start < k <= r.block + n ensures HandledAt(chain, k, watched', contracts, calls + more) {
        if k <= r.block {
          assert HandledAt(chain, k, watched, contracts, calls);
          ScanCallsElsewhere(chain, r.block + 1, more, 0, k);
          HandledLater(chain, k, contracts, watched[k], calls, more);
        } else {
          HandledAfter(chain, k, contracts, tracked, calls, more);
        }
      }
    }
    if MinedOnce(chain) && HandledUpTo(chain, r.block + n, start, watched', contracts, calls + more) {
      forall k: nat | start < k <= r.block ensures HandledAt(chain, k, watched, contracts, calls) {
        assert HandledAt(chain, k, watched', contracts, calls + more);
        HandledBefore(chain, k, r.block + 1, contracts, watched[k], calls, more);
      }
    }
  }

  /** What a report does: heights below it keep what they had, and from it on nothing but empty blocks is handled. */
  lemma ReportedExactly(chain: Chain, c: nat, m: int, start: nat, watched: map<nat, set<string>>, contracts: seq<string>, calls: seq<Call>)
    ensures HandledUpTo(chain, m, start, watched, contracts, calls + [HandleReorg(c)]) <==>
            && HandledUpTo(chain, m, start, watched, contracts, calls)
            && forall k: nat :: start < k <= m && c <= k ==> NothingPaid(chain, k, watched, contracts)
  {
    hide Handled, NothingPaid;
    var more := calls + [HandleReorg(c)];
    if HandledUpTo(chain, m, start, watched, contracts, more) {
      forall k: nat | start < k <= m
        ensures HandledAt(chain, k, watched, contracts, calls) && (c <= k ==> NothingPaid(chain, k, watched, contracts))
      {
        assert HandledAt(chain, k, watched, contracts, more);
        HandledBeforeReport(chain, k, c, contracts, watched[k], calls);
        if c <= k { NothingPaidIntro(chain, k, c, watched, contracts, calls); }
      }
    }
    if HandledUpTo(chain, m, start, watched, contracts, calls) && forall k: nat :: start < k <= m && c <= k ==> NothingPaid(chain, k, watched, contracts) {
      forall k: nat | start < k <= m ensures HandledAt(chain, k, watched, contracts, more) {
        assert HandledAt(chain, k, watched, contracts, calls);
        if c <= k {
          NothingPaidHandled(chain, k, watched, contracts, more);
        } else {
          HandledLater(chain, k, contracts, watched[k], calls, [HandleReorg(c)]);
        }
      }
    }
  }

  /** Block k is there and pays none of the addresses watched at it. */
  ghost predicate NothingPaid(chain: Chain, k: nat, watched: map<nat, set<string>>, contracts: seq<string>) {
    k in watched && k in chain.blocks && forall h :: h in chain.blocks[k].txs ==> !PaysIn(chain, h, contracts, watched[k])
  }

  lemma NothingPaidIntro(chain: Chain, k: nat, c: nat, watched: map<nat, set<string>>, contracts: seq<string>, calls: seq<Call>)
    requires HandledAt(chain, k, watched, contracts, calls + [HandleReorg(c)]) && c <= k
    ensures NothingPaid(chain, k, watched, contracts)
  {
    HandledBeforeReport(chain, k, c, contracts, watched[k], calls);
  }

  lemma NothingPaidHandled(chain: Chain, k: nat, watched: map<nat, set<string>>, contracts: seq<string>, calls: seq<Call>)
    requires NothingPaid(chain, k, watched, contracts)
    ensures HandledAt(chain, k, watched, contracts, calls)
  {
  }

  /**
   * A tick that gets past the reorg check: it covers the node's chain up to its new cursor exactly when
   * the heights up to where it resumed were already handled on that chain.
   */
  lemma TickExactly(chain: Chain, c: Cursor, n: nat, start: nat, watched: map<nat, set<string>>, contracts: seq<string>, tracked: set<string>, calls: seq<Call>, more: seq<Call>)
    requires Scanned(chain, Resumed(chain, c), n, contracts, tracked, more)
    ensures var r, watched', calls' := Resumed(chain, c), Watching(watched, Resumed(chain, c).block + 1, n, tracked), calls + Reports(chain, c) + more;
            && (HandledUpTo(chain, r.block, start, watched, contracts, calls) ==> HandledUpTo(chain, r.block + n, start, watched', contracts, calls'))
            && (MinedOnce(chain) && HandledUpTo(chain, r.block + n, start, watched', contracts, calls') ==>
                  HandledUpTo(chain, r.block, start, watched, contracts, calls))
  {
    var r := Resumed(chain, c);
    var mid := calls + Reports(chain, c);
    ScannedExactly(chain, r, n, start, watched, contracts, tracked, mid, more);
    if HashStands(chain, c) {
      assert mid == calls;
    } else {
      ReportedExactly(chain, c.block, r.block, start, watched, contracts, calls);
    }
    hide Scanned, HandledUpTo, Watching;
  }

  // ---------------------------------------------------------------- from chain to chain

  ghost predicate SameBlock(a: Chain, b: Chain, n: nat) {
    && n in a.blocks && n in b.blocks && a.blocks[n] == b.blocks[n]
    && forall h :: h in a.blocks[n].txs ==> (h in b.txs ==> h in a.txs && a.txs[h] == b.txs[h] && ReceiptOf(a, h) == ReceiptOf(b, h))
  }

  /** The chain only grew: what it had is still there. */
  ghost predicate GrewTo(before: Chain, after: Chain) {
    forall n :: n in before.blocks ==> SameBlock(before, after, n)
  }

  /** Below height n the two chains agree wherever the first has a block. */
  ghost predicate SameBelow(before: Chain, after: Chain, n: nat) {
    forall k :: k in before.blocks && k < n ==> SameBlock(before, after, k)
  }

  lemma GrowsToItself(chain: Chain)
    ensures GrewTo(chain, chain)
  {
  }

  lemma HandledElsewhere(a: Chain, b: Chain, n: nat, contracts: seq<string>, tracked: set<string>, calls: seq<Call>)
    requires Handled(a, n, contracts, tracked, calls) && SameBlock(a, b, n)
    ensures Handled(b, n, contracts, tracked, calls)
  {
    hide Live;
    forall h | h in b.blocks[n].txs && PaysIn(b, h, contracts, tracked) ensures Live(calls, h, n) {
      assert PaysIn(a, h, contracts, tracked);
    }
  }

  lemma HandledUpToElsewhere(a: Chain, b: Chain, m: int, start: nat, watched: map<nat, set<string>>, contracts: seq<string>, calls: seq<Call>)
    requires HandledUpTo(a, m, start, watched, contracts, calls)
    requires forall k: nat :: start < k <= m && k in a.blocks ==> SameBlock(a, b, k)
    ensures HandledUpTo(b, m, start, watched, contracts, calls)
  {
    hide SameBlock, Live, PaysIn;
    forall k: nat | start < k <= m ensures HandledAt(b, k, watched, contracts, calls) {
      assert HandledAt(a, k, watched, contracts, calls);
      HandledElsewhere(a, b, k, contracts, watched[k], calls);
    }
  }

  /**
   * The invariant of a run: the chain covered so far holds the cursor's block, and every height up to
   * the cursor is handled there; up to the one below, while a report of the cursor's block is open.
   */
  ghost predicate CoveredBy(chain: Chain, c: Cursor, reported: bool, start: nat, watched: map<nat, set<string>>, contracts: seq<string>, calls: seq<Call>) {
    && HashStands(chain, c) && (c.block > start ==> c.hash.Some?)
    && HandledUpTo(chain, if reported then c.block - 1 else c.block, start, watched, contracts, calls)
  }

  /**
   * What a tick needs of the node's chain: nothing changed below the cursor, and if a block with the
   * cursor's hash stands, it is the block scanned and no report of it is open.
   */
  ghost predicate Agrees(home: Chain, chain: Chain, c: Cursor, reported: bool, start: nat) {
    SameBelow(home, chain, c.block) && (HashStands(chain, c) && c.block > start ==> !reported && SameBlock(home, chain, c.block))
  }

  lemma HashesStand(chain: Chain, c: Cursor, n: nat)
    ensures HashStands(chain, Resumed(chain, c)) && HashStands(chain, Forward(chain, Resumed(chain, c), n))
  {
  }

  lemma AgreedResumes(home: Chain, chain: Chain, c: Cursor, reported: bool, start: nat, watched: map<nat, set<string>>, contracts: seq<string>, calls: seq<Call>)
    requires CoveredBy(home, c, reported, start, watched, contracts, calls) && Agrees(home, chain, c, reported, start)
    ensures var r := Resumed(chain, c); HandledUpTo(chain, r.block, start, watched, contracts, calls) && (r.block > start ==> r.hash.Some?)
  {
    hide Live, PaysIn, SameBlock;
    var r := Resumed(chain, c);
    assert HandledUpTo(home, r.block, start, watched, contracts, calls);
    HandledUpToElsewhere(home, chain, r.block, start, watched, contracts, calls);
    if r.block > start { assert HandledAt(chain, r.block, watched, contracts, calls); }
  }

  /** A tick past the reorg check on a chain that agrees so far covers it. */
  lemma AgreedCovers(
    home: Chain, chain: Chain, c: Cursor, reported: bool, n: nat, start: nat, watched: map<nat, set<string>>,
    contracts: seq<string>, tracked: set<string>, calls: seq<Call>, more: seq<Call>)
    requires CoveredBy(home, c, reported, start, watched, contracts, calls) && Agrees(home, chain, c, reported, start)
    requires Scanned(chain, Resumed(chain, c), n, contracts, tracked, more)
    ensures var r := Resumed(chain, c);
            CoveredBy(chain, Forward(chain, r, n), false, start, Watching(watched, r.block + 1, n, tracked), contracts, calls + Reports(chain, c) + more)
  {
    AgreedResumes(home, chain, c, reported, start, watched, contracts, calls);
    TickExactly(chain, c, n, start, watched, contracts, tracked, calls, more);
    HashesStand(chain, c, n);
    ForwardBlock(chain, Resumed(chain, c), n);
    hide Scanned, HandledUpTo, Watching, Agrees, Resumed, HashStands;
  }

  lemma ForwardBlock(chain: Chain, r: Cursor, n: nat)
    requires Available(chain, r.block + 1, n)
    ensures Forward(chain, r, n).block == r.block + n
    ensures n > 0 ==> Forward(chain, r, n).hash.Some?
  {
  }

  /** A tick that fails having reported the cursor's block leaves the heights below it handled. */
  lemma ReportKeepsBelow(home: Chain, c: Cursor, reported: bool, start: nat, watched: map<nat, set<string>>, contracts: seq<string>, calls: seq<Call>)
    requires CoveredBy(home, c, reported, start, watched, contracts, calls)
    ensures CoveredBy(home, c, true, start, watched, contracts, calls + [HandleReorg(c.block)])
  {
    ReportedExactly(home, c.block, c.block - 1, start, watched, contracts, calls);
  }

  /**
   * The next tick past the reorg check, on a chain that agrees up to the cursor, covers it exactly when
   * no report of the cursor's block is open, or the reported block no longer stands or held no payment.
   */
  lemma OpenReportDecides(
    home: Chain, chain: Chain, c: Cursor, reported: bool, n: nat, start: nat, watched: map<nat, set<string>>,
    contracts: seq<string>, tracked: set<string>, calls: seq<Call>, more: seq<Call>)
    requires CoveredBy(home, c, reported, start, watched, contracts, calls) && Agrees(home, chain, c, false, start)
    requires reported ==> calls != [] && calls[|calls| - 1] == HandleReorg(c.block)
    requires MinedOnce(chain) && Scanned(chain, Resumed(chain, c), n, contracts, tracked, more)
    ensures var r := Resumed(chain, c);
            HandledUpTo(chain, r.block + n, start, Watching(watched, r.block + 1, n, tracked), contracts, calls + Reports(chain, c) + more)
            <==> ReportHarmless(chain, c, reported, start, watched, contracts)
  {
    hide NothingPaid, Scanned, HandledUpTo, Watching, Agrees, MinedOnce, CoveredBy;
    TickExactly(chain, c, n, start, watched, contracts, tracked, calls, more);
    if Agrees(home, chain, c, reported, start) {
      AgreedResumes(home, chain, c, reported, start, watched, contracts, calls);
      AgreedOrOpen(home, chain, c, reported, start);
    } else {
      AgreedOrOpen(home, chain, c, reported, start);
      StandingReport(home, chain, c, start, watched, contracts, calls);
    }
  }

  ghost predicate ReportHarmless(chain: Chain, c: Cursor, reported: bool, start: nat, watched: map<nat, set<string>>, contracts: seq<string>) {
    !reported || !HashStands(chain, c) || c.block <= start || NothingPaid(chain, c.block, watched, contracts)
  }

  lemma AgreedOrOpen(home: Chain, chain: Chain, c: Cursor, reported: bool, start: nat)
    requires Agrees(home, chain, c, false, start)
    ensures Agrees(home, chain, c, reported, start) <==> !reported || !HashStands(chain, c) || c.block <= start
  {
  }

  /** With the reported block standing again, it is handled exactly when it held no payment. */
  lemma StandingReport(home: Chain, chain: Chain, c: Cursor, start: nat, watched: map<nat, set<string>>, contracts: seq<string>, calls: seq<Call>)
    requires CoveredBy(home, c, true, start, watched, contracts, calls) && Agrees(home, chain, c, false, start) && c.block > start
    requires calls != [] && calls[|calls| - 1] == HandleReorg(c.block)
    ensures HandledUpTo(chain, c.block, start, watched, contracts, calls) <==> NothingPaid(chain, c.block, watched, contracts)
  {
    hide NothingPaid, Handled, SameBlock;
    var earlier := calls[..|calls| - 1];
    assert calls == earlier + [HandleReorg(c.block)];
    ReportedExactly(chain, c.block, c.block, start, watched, contracts, earlier);
    HandledUpToElsewhere(home, chain, c.block - 1, start, watched, contracts, calls);
    if NothingPaid(chain, c.block, watched, contracts) { NothingPaidHandled(chain, c.block, watched, contracts, calls); }
  }

  lemma CoverGrows(home: Chain, chain: Chain, c: Cursor, start: nat, watched: map<nat, set<string>>, contracts: seq<string>, calls: seq<Call>)
    requires CoveredBy(home, c, false, start, watched, contracts, calls) && GrewTo(home, chain)
    ensures CoveredBy(chain, c, false, start, watched, contracts, calls) && Agrees(home, chain, c, false, start) && HashStands(chain, c)
  {
    hide Live, PaysIn;
    HandledUpToElsewhere(home, chain, c.block, start, watched, contracts, calls);
    assert c.block > start ==> HandledAt(home, c.block, watched, contracts, calls);
  }

  lemma FreshCover(chain: Chain, tip: nat, start: nat, watched: map<nat, set<string>>, contracts: seq<string>, calls: seq<Call>)
    requires start == Loaded(None, tip).block
    ensures var c := Loaded(None, tip); CoveredBy(chain, c, false, start, watched, contracts, calls) && Agrees(chain, chain, c, false, start)
  {
  }

  lemma WiderRange(chain: Chain, from: nat, n: nat)
    ensures forall h :: InRange(chain, from, n + 1, h) <==> InRange(chain, from, n, h) || InBlock(chain, from + n, h)
  {
    forall h ensures InRange(chain, from, n + 1, h) <==> InRange(chain, from, n, h) || InBlock(chain, from + n, h) {
      if InRange(chain, from, n + 1, h) {
        var k :| from <= k < from + n + 1 && InBlock(chain, k, h);
        if k < from + n { assert InRange(chain, from, n, h); }
      }
    }
  }
}
