/**
 * `ChainScanner` (apps/blockchain-monitor/src/scanner.ts:77-264): a persisted cursor over a chain
 * whose node may fail at any call. Ticks that fail part way leave what they wrote so far.
 */
module Scanner {
  import opened Basics
  import opened Text
  import opened Discovery
  import opened Coverage

  datatype ScanResult = ScanResult(scannedBlocks: nat, candidates: seq<Hash>, reorgDetected: bool, lastProcessedBlock: nat)

  /** What a run knows between ticks: the chain covered so far, the state, and whether a report is open. */
  datatype Moment = Moment(
    home: Chain, cursor: Option<Cursor>, start: nat, reported: bool, watched: map<nat, set<string>>, calls: seq<Call>)

  class ChainScanner {
    const fast: bool
    const batchSize: nat
    const contracts: seq<string>
    var cursor: Option<Cursor>
    /** The calls to the monitor: transactions it recorded; reports and updates also if they then failed, perhaps part way. */
    var calls: seq<Call>
    /** Which of the coming calls to the node, the database and the monitor fail; those beyond its end succeed. */
    var faults: seq<bool>
    /** The first start of this network, and the addresses watched when each height was last scanned. */
    ghost var start: nat
    ghost var watched: map<nat, set<string>>

    constructor (fast: bool, batchSize: nat, contracts: seq<string>, faults: seq<bool>)
      ensures this.fast == fast && this.batchSize == batchSize && this.contracts == contracts
      ensures cursor == None && calls == [] && this.faults == faults
    {
      this.fast, this.batchSize, this.contracts, this.faults := fast, batchSize, contracts, faults;
      cursor, calls, watched := None, [], map[];
    }

    method Answers() returns (ok: bool)
      modifies this`faults
      ensures ok == !(old(faults) != [] && old(faults)[0])
      ensures faults == if old(faults) == [] then [] else old(faults)[1..]
    {
      ok := true;
      if faults != [] {
        ok := !faults[0];
        faults := faults[1..];
      }
    }

    method HandOver(h: Hash) returns (ok: bool)
      modifies this`faults, this`calls
      ensures calls == if ok then old(calls) + [Process(h)] else old(calls)
      ensures old(faults) == [] ==> ok && faults == []
    {
      ok := Answers();
      if ok { calls := calls + [Process(h)]; }
    }

    /** `touchesTrackedAddress`, which fails when the receipt cannot be parsed. */
    method TouchesTracked(chain: Chain, h: Hash, tracked: set<string>) returns (ok: bool, touches: bool)
      modifies this`faults
      ensures ok ==> touches == Finds(chain, h, false, contracts, tracked)
      ensures old(faults) == [] ==> faults == []
    {
      if tracked == {} || h !in chain.txs { return true, false; }
      ok := Answers();
      if !ok { return false, false; }
      var transfers := GetTransfers(chain.txs[h], ReceiptOf(chain, h));
      if !transfers.Parsed? { return false, false; }
      touches := AnyTo(transfers.value, tracked);
    }

    method ScanBlock(chain: Chain, n: nat, tracked: set<string>) returns (ok: bool, hits: seq<Hash>)
      requires n in chain.blocks
      modifies this`faults, this`calls
      ensures calls == old(calls) + Processes(hits)
      ensures forall h :: h in hits ==> InBlock(chain, n, h)
      ensures ok ==> forall h :: h in hits <==> InBlock(chain, n, h) && Finds(chain, h, false, contracts, tracked)
      ensures old(faults) == [] ==> faults == []
    {
      hide Finds;
      hits := [];
      var txs := chain.blocks[n].txs;
      for i := 0 to |txs|
        invariant calls == old(calls) + Processes(hits)
        invariant forall h :: h in hits <==> h in txs[..i] && Finds(chain, h, false, contracts, tracked)
        invariant old(faults) == [] ==> faults == []
      {
        var touches: bool;
        ok, touches := TouchesTracked(chain, txs[i], tracked);
        if !ok { return; }
        if touches {
          ok := HandOver(txs[i]);
          if !ok { return; }
          hits := hits + [txs[i]];
        }
        assert txs[..i + 1] == txs[..i] + [txs[i]];
      }
      assert txs[..|txs|] == txs;
      ok := true;
    }

    method ScanRangeGeneric(chain: Chain, from: nat, to: int, tracked: set<string>)
      returns (ok: bool, scanned: nat, hits: seq<Hash>)
      modifies this`faults, this`calls
      ensures calls == old(calls) + Processes(hits) && AllAbove(chain, from, hits)
      ensures ok ==> Available(chain, from, scanned) && (from + scanned <= to ==> from + scanned !in chain.blocks)
      ensures ok ==> from + scanned <= (if to < from then from else to + 1)
      ensures ok ==> forall h :: h in hits <==> InRange(chain, from, scanned, h) && Finds(chain, h, false, contracts, tracked)
      ensures old(faults) == [] ==> faults == []
      ensures to < from ==> ok
    {
      hide Finds, InRange, InBlock, AllAbove;
      scanned, hits := 0, [];
      EmptyRange(chain, from);
      while from + scanned <= to
        invariant from + scanned <= (if to < from then from else to + 1)
        invariant Available(chain, from, scanned) && calls == old(calls) + Processes(hits)
        invariant forall h :: h in hits <==> InRange(chain, from, scanned, h) && Finds(chain, h, false, contracts, tracked)
        invariant old(faults) == [] ==> faults == []
      {
        InRangeAbove(chain, from, scanned, hits);
        ok := Answers();
        if !ok { return; }
        if from + scanned !in chain.blocks { break; }
        var found: seq<Hash>;
        ok, found := ScanBlock(chain, from + scanned, tracked);
        assert Processes(hits + found) == Processes(hits) + Processes(found);
        InBlockAbove(chain, from, from + scanned, found);
        AllAboveJoin(chain, from, hits, found);
        hits := hits + found;
        if !ok { return; }
        WiderRange(chain, from, scanned);
        scanned := scanned + 1;
      }
      InRangeAbove(chain, from, scanned, hits);
      ok := true;
    }

    /** The light block reads: transactions whose body names a tracked recipient and a positive value. */
    method CollectNative(chain: Chain, from: nat, to: int, tracked: set<string>)
      returns (ok: bool, scanned: nat, found: seq<Hash>)
      modifies this`faults
      ensures ok ==> Available(chain, from, scanned) && (from + scanned <= to ==> from + scanned !in chain.blocks)
      ensures ok ==> from + scanned <= (if to < from then from else to + 1)
      ensures ok ==> Distinct(found) && forall h :: h in found <==> InRange(chain, from, scanned, h) && NativeIn(chain, h, tracked)
      ensures old(faults) == [] ==> ok && faults == []
    {
      hide NativeIn;
      scanned, found := 0, [];
      while from + scanned <= to
        invariant from + scanned <= (if to < from then from else to + 1)
        invariant Available(chain, from, scanned)
        invariant Distinct(found) && forall h :: h in found <==> InRange(chain, from, scanned, h) && NativeIn(chain, h, tracked)
        invariant old(faults) == [] ==> faults == []
      {
        ok := Answers();
        if !ok { return; }
        if from + scanned !in chain.blocks { break; }
        found := CollectFromBlock(chain, from + scanned, tracked, found);
        WiderRange(chain, from, scanned);
        scanned := scanned + 1;
      }
      ok := true;
    }

    method ScanRangeFast(chain: Chain, from: nat, to: int, tracked: set<string>)
      returns (ok: bool, scanned: nat, hits: seq<Hash>, ghost handed: seq<Hash>)
      modifies this`faults, this`calls
      ensures calls == old(calls) + Processes(handed) && AllAbove(chain, from, handed)
      ensures ok ==> Available(chain, from, scanned) && (from + scanned <= to ==> from + scanned !in chain.blocks)
      ensures ok ==> from + scanned <= (if to < from then from else to + 1)
      ensures ok ==> handed == hits && Distinct(hits)
      ensures ok ==> forall h :: h in hits <==> InRange(chain, from, scanned, h) && Finds(chain, h, true, contracts, tracked)
      ensures old(faults) == [] ==> ok && faults == []
    {
      hide NativeIn, LoggedIn, Finds, InRange, AllAbove;
      FastFindsEither(chain, contracts, tracked);
      InRangeAbove(chain, from, 0, []);
      hits, handed := [], [];
      ok, scanned, hits := CollectNative(chain, from, to, tracked);
      if !ok { return; }
      EmptyRange(chain, from);
      if scanned > 0 {
        ok := Answers();
        if !ok { return; }
        var logged := TransferLogsTo(chain, from, scanned, contracts, tracked);
        hits := Union(hits, logged);
      }
      InRangeAbove(chain, from, scanned, hits);
      ghost var n: nat;
      ok, n := HandOverAll(hits);
      handed := hits[..n];
      AllAbovePrefix(chain, from, hits, n);
    }

    method HandOverAll(hits: seq<Hash>) returns (ok: bool, ghost handed: nat)
      modifies this`faults, this`calls
      ensures handed <= |hits| && calls == old(calls) + Processes(hits[..handed])
      ensures ok ==> hits[..handed] == hits
      ensures old(faults) == [] ==> ok && faults == []
    {
      handed := 0;
      for i := 0 to |hits|
        invariant handed == i && calls == old(calls) + Processes(hits[..i])
        invariant old(faults) == [] ==> faults == []
      {
        ok := HandOver(hits[i]);
        if !ok { return; }
        assert Processes(hits[..i + 1]) == Processes(hits[..i]) + [Process(hits[i])];
        handed := i + 1;
      }
      ok := true;
    }

    // -------------------------------------------------------------- one tick

    ghost predicate Covered(chain: Chain)
      reads this`cursor, this`calls, this`start, this`watched
    {
      cursor.Some? ==> CoveredBy(chain, cursor.value, false, start, watched, contracts, calls)
    }

    method LoadCursor(tip: nat) returns (ok: bool)
      modifies this`faults, this`cursor, this`start
      ensures !ok || old(cursor).Some? ==> cursor == old(cursor) && start == old(start)
      ensures ok ==> cursor == Some(Loaded(old(cursor), tip)) && (old(cursor).None? ==> start == cursor.value.block)
      ensures old(faults) == [] ==> ok && faults == []
      ensures old(cursor).Some? && old(faults) != [] && !old(faults)[0] ==> ok && faults == old(faults)[1..]
    {
      ok := Answers();
      if !ok || cursor.Some? { return; }
      ok := Answers();
      if !ok { return; }
      cursor := Some(Cursor(if tip > 0 then tip - 1 else 0, None));
      start := cursor.value.block;
    }

    method CheckForReorg(chain: Chain) returns (ok: bool, reorg: bool)
      requires cursor.Some?
      modifies this`faults
      ensures ok ==> reorg == !HashStands(chain, cursor.value)
      ensures cursor.value.hash.None? ==> ok
      ensures old(faults) == [] ==> ok && faults == []
      ensures !HashStands(chain, cursor.value) && old(faults) != [] && !old(faults)[0] ==> ok && faults == old(faults)[1..]
    {
      if cursor.value.hash.None? || cursor.value.block == 0 { return true, false; }
      ok := Answers();
      reorg := cursor.value.block !in chain.blocks || chain.blocks[cursor.value.block].hash != cursor.value.hash.value;
    }

    method RewindCursor(chain: Chain) returns (ok: bool)
      requires cursor.Some?
      modifies this`faults, this`cursor, this`calls
      ensures calls == old(calls) + [HandleReorg(old(cursor).value.block)] && (!ok ==> cursor == old(cursor))
      ensures ok ==> cursor == Some(Rewound(chain, old(cursor).value.block))
      ensures old(faults) == [] ==> ok && faults == []
      ensures old(faults) == [false, true] ==> !ok && faults == []
    {
      calls := calls + [HandleReorg(cursor.value.block)];
      ok := Answers();
      if !ok { return; }
      var rewound := if cursor.value.block > 0 then cursor.value.block - 1 else 0;
      var previous: Option<Hash> := None;
      if rewound > 0 {
        ok := Answers();
        if !ok { return; }
        previous := if rewound in chain.blocks then Some(chain.blocks[rewound].hash) else None;
      }
      ok := Answers();
      if !ok { return; }
      cursor := Some(Cursor(rewound, previous));
    }

    /** Load the cursor, compare its block with the node's and rewind if it was replaced. */
    method Settle(chain: Chain) returns (ok: bool, reorg: bool)
      modifies this`faults, this`cursor, this`calls, this`start
      ensures !ok ==> cursor == old(cursor) && start == old(start) && (calls == old(calls) || Reported(chain, old(cursor), old(calls), calls))
      ensures ok ==> var c := Loaded(old(cursor), chain.tip);
                && cursor == Some(Resumed(chain, c)) && calls == old(calls) + Reports(chain, c)
                && reorg == !HashStands(chain, c) && start == if old(cursor).Some? then old(start) else c.block
      ensures old(faults) == [] ==> ok && faults == []
      ensures old(faults) == [false, false, false, false, true] && old(cursor).Some? && !HashStands(chain, old(cursor).value) ==>
                !ok && faults == [] && Reported(chain, old(cursor), old(calls), calls)
    {
      hide HashStands, Rewound;
      NoHashStands(chain);
      reorg := false;
      ok := Answers();
      if !ok { return; }
      ok := LoadCursor(chain.tip);
      if !ok { return; }
      ok, reorg := CheckForReorg(chain);
      if !ok { return; }
      if reorg { ok := RewindCursor(chain); }
    }

    /** Scan from the cursor on and save how far it got. */
    method ScanAndSave(chain: Chain, tracked: set<string>) returns (ok: bool, scanned: nat, hits: seq<Hash>, ghost handed: seq<Hash>)
      requires cursor.Some?
      modifies this`faults, this`cursor, this`calls, this`watched
      ensures calls == old(calls) + Processes(handed) && AllAbove(chain, old(cursor).value.block + 1, handed)
      ensures !ok ==> cursor == old(cursor) && watched == old(watched)
      ensures ok ==> var r := old(cursor).value;
                && Available(chain, r.block + 1, scanned) && cursor == Some(Forward(chain, r, scanned))
                && watched == Watching(old(watched), r.block + 1, scanned, tracked)
                && handed == hits && Complete(chain, r, scanned, batchSize, fast, contracts, tracked, hits)
      ensures old(faults) == [] ==> faults == [] && (fast ==> ok)
    {
      hide Finds, InRange, AllAbove;
      var from := cursor.value.block + 1;
      var to := UpTo(chain.tip, from, batchSize);
      if fast && to >= from {
        ok, scanned, hits, handed := ScanRangeFast(chain, from, to, tracked);
      } else {
        ok, scanned, hits := ScanRangeGeneric(chain, from, to, tracked);
        handed := hits;
        EmptyRange(chain, from);
        assert ok && to < from ==> forall i :: 0 <= i < |hits| ==> hits[i] in hits;
      }
      if !ok { return; }
      ok := Answers();
      if !ok { return; }
      if scanned > 0 { cursor := Some(Cursor(from + scanned - 1, Some(chain.blocks[from + scanned - 1].hash))); }
      watched := Watching(watched, from, scanned, tracked);
    }

    /** Scan what is new with today's addresses, save the cursor and update the confirmations. */
    method Advance(chain: Chain, addresses: seq<string>)
      returns (ok: bool, result: ScanResult, ghost n: nat, ghost more: seq<Call>)
      requires cursor.Some?
      modifies this`faults, this`cursor, this`calls, this`watched
      ensures calls == old(calls) + more && Scanned(chain, old(cursor).value, n, contracts, TrackedOf(addresses), more)
      ensures cursor == Some(Forward(chain, old(cursor).value, n))
      ensures watched == Watching(old(watched), old(cursor).value.block + 1, n, TrackedOf(addresses))
      ensures ok ==>
                && result == ScanResult(n, result.candidates, false, cursor.value.block)
                && more == Processes(result.candidates) + [UpdateConfirmations]
                && Complete(chain, old(cursor).value, n, batchSize, fast, contracts, TrackedOf(addresses), result.candidates)
      ensures old(faults) == [] ==> faults == [] && (fast ==> ok)
    {
      hide Complete, Scanned, Available, Canonical, Watching, TrackedOf, AllAbove;
      result, n, more := ScanResult(0, [], false, 0), 0, [];
      ghost var r, w := cursor.value, watched;
      var tracked := LoadTrackedAddresses(addresses);
      NothingScanned(chain, r, w, contracts, tracked, []);
      ok := Answers();
      if !ok { return; }
      var scanned: nat, hits: seq<Hash>;
      ghost var handed: seq<Hash>;
      ok, scanned, hits, handed := ScanAndSave(chain, tracked);
      more := Processes(handed);
      if !ok {
        NothingScanned(chain, r, w, contracts, tracked, handed);
        return;
      }
      n := scanned;
      CompleteScanned(chain, r, n, batchSize, fast, contracts, tracked, hits);
      calls, more := calls + [UpdateConfirmations], more + [UpdateConfirmations];
      UpdateScanned(chain, r, n, contracts, tracked, Processes(hits));
      ok := Answers();
      if !ok { return; }
      result := ScanResult(scanned, hits, false, cursor.value.block);
    }

    method Tick(chain: Chain, addresses: seq<string>)
      returns (ok: bool, result: ScanResult, ghost settled: bool, ghost n: nat, ghost more: seq<Call>)
      modifies this`faults, this`cursor, this`calls, this`start, this`watched
      // Before the reorg check is over nothing moves, but a replaced block may have been reported.
      ensures !settled ==>
                && !ok && cursor == old(cursor) && start == old(start) && watched == old(watched)
                && (calls == old(calls) || Reported(chain, old(cursor), old(calls), calls))
      // After it, n blocks were scanned from where the tick resumed.
      ensures settled ==> var c := Loaded(old(cursor), chain.tip); var r := Resumed(chain, c);
                && start == (if old(cursor).Some? then old(start) else c.block)
                && calls == old(calls) + Reports(chain, c) + more && Scanned(chain, r, n, contracts, TrackedOf(addresses), more)
                && cursor == Some(Forward(chain, r, n)) && watched == Watching(old(watched), r.block + 1, n, TrackedOf(addresses))
      // The chain is covered exactly when it was up to where the tick resumed.
      ensures settled && MinedOnce(chain) ==>
                (HandledUpTo(chain, cursor.value.block, start, watched, contracts, calls) <==>
                 HandledUpTo(chain, Resumed(chain, Loaded(old(cursor), chain.tip)).block, start, old(watched), contracts, old(calls)))
      // A completed tick hands over exactly what it found, as far as the node and the batch go.
      ensures ok ==> settled && (var c := Loaded(old(cursor), chain.tip);
                && result == ScanResult(n, result.candidates, !HashStands(chain, c), cursor.value.block)
                && more == Processes(result.candidates) + [UpdateConfirmations]
                && Complete(chain, Resumed(chain, c), n, batchSize, fast, contracts, TrackedOf(addresses), result.candidates))
      // A replaced block is reported, and its successor's payments are handed over after the report.
      ensures ok && old(cursor).Some? && !HashStands(chain, old(cursor).value) ==> var c := old(cursor).value.block;
                && |old(calls)| < |calls| && calls[|old(calls)|] == HandleReorg(c)
                && (c <= chain.tip && c in chain.blocks && batchSize > 0 ==>
                      && c <= cursor.value.block && c in watched && watched[c] == TrackedOf(addresses)
                      && Handled(chain, c, contracts, TrackedOf(addresses), calls[|old(calls)| + 1..]))
      ensures old(faults) == [] ==> faults == [] && (fast ==> ok)
      ensures old(faults) == [false, false, false, false, true] && old(cursor).Some? && !HashStands(chain, old(cursor).value) ==>
                !settled && faults == [] && Reported(chain, old(cursor), old(calls), calls)
    {
      hide HashStands, Scanned, Complete, Watching, TrackedOf, HandledUpTo, MinedOnce, Forward, Resumed, Handled, UpTo;
      result, n, more := ScanResult(0, [], false, 0), 0, [];
      var reorg: bool;
      ok, reorg := Settle(chain);
      settled := ok;
      if !ok { return; }
      ghost var mid := calls;
      ghost var c := Loaded(old(cursor), chain.tip);
      ok, result, n, more := Advance(chain, addresses);
      result := result.(reorgDetected := reorg);
      TickExactly(chain, c, n, start, old(watched), contracts, TrackedOf(addresses), old(calls), more);
      ForwardScanned(chain, Resumed(chain, c), n, contracts, TrackedOf(addresses), more);
      if reorg {
        assert calls[|old(calls)|..] == [HandleReorg(c.block)] + more;
        assert calls[|old(calls)| + 1..] == more;
        if ok { Rescanned(chain, c, n, batchSize, fast, contracts, TrackedOf(addresses), old(watched), more, result.candidates); }
      }
    }

    /** The polling loop on a growing chain: whichever calls fail, coverage holds throughout. */
    method Poll(chains: seq<Chain>, addresses: seq<seq<string>>)
      requires cursor.None? && |chains| == |addresses| > 0
      requires forall i :: 0 < i < |chains| ==> GrewTo(chains[i - 1], chains[i])
      modifies this`faults, this`cursor, this`calls, this`start, this`watched
      ensures Covered(chains[|chains| - 1])
    {
      hide CoveredBy, GrewTo, Agrees, Scanned, Reported, HandledUpTo, Watching, Forward, Resumed, Complete, MinedOnce, TrackedOf;
      ghost var last := chains[0];
      GrowsToItself(last);
      for i := 0 to |chains|
        invariant GrewTo(last, last) && Covered(last) && last == chains[if i == 0 then 0 else i - 1]
      {
        ghost var before := Moment(last, cursor, start, false, watched, calls);
        if cursor.Some? { CoverGrows(last, chains[i], cursor.value, start, watched, contracts, calls); }
        var ok, result, settled, n, more := Tick(chains[i], addresses[i]);
        if settled {
          SettledCovers(before, chains[i], n, start, contracts, TrackedOf(addresses[i]), more);
        } else if calls != before.calls {
          ReportedNotStanding(chains[i], before.cursor, before.calls, calls);
        }
        last := chains[i];
        GrowsToItself(last);
      }
    }

    /**
     * Any series of ticks, each failing at any call or completing, on any chains. `moments` are the
     * run's states between the ticks.
     */
    method PollReorgs(chains: seq<Chain>, addresses: seq<seq<string>>, ghost first: Chain)
      returns (oks: seq<bool>, ghost moments: seq<Moment>)
      requires cursor.None? && |chains| == |addresses|
      modifies this`faults, this`cursor, this`calls, this`start, this`watched
      ensures |oks| == |chains| && |moments| == |chains| + 1
      ensures moments[0] == Moment(first, None, old(start), false, old(watched), old(calls)) && Now(moments[|chains|])
      ensures forall i :: 0 <= i < |chains| ==> Follows(moments[i], moments[i + 1], chains[i], oks[i])
      // While each chain agrees with the run so far, everything is covered but the block of an open report.
      ensures Tame(moments, chains) ==> Keeps(moments[|chains|], contracts)
      ensures Tame(moments, chains) && chains != [] && oks[|chains| - 1] ==> cursor.Some? && Covered(chains[|chains| - 1])
      // An open report costs the payments of its block exactly when that block stands again.
      ensures forall i :: 0 <= i < |chains| ==> Decides(moments[i], moments[i + 1], chains[i], oks[i], contracts)
    {
      hide CoveredBy, Agrees, HashStands, Scanned, Reported, HandledUpTo, Watching, Forward, Resumed, Complete, MinedOnce, TrackedOf, Follows, Keeps, Decides, OpenReport;
      oks, moments := [], [Moment(first, None, start, false, watched, calls)];
      FreshMoment(moments[0], contracts);
      for i := 0 to |chains|
        invariant |oks| == i && |moments| == i + 1 && moments[0] == Moment(first, None, old(start), false, old(watched), old(calls))
        invariant Now(moments[i]) && OpenReport(moments[i])
        invariant forall j :: 0 <= j < i ==> Follows(moments[j], moments[j + 1], chains[j], oks[j])
        invariant forall j :: 0 <= j < i ==> Decides(moments[j], moments[j + 1], chains[j], oks[j], contracts)
        invariant Tame(moments, chains[..i]) ==> Keeps(moments[i], contracts)
      {
        ghost var m := moments[i];
        var ok, next := RunTick(chains[i], addresses[i], m);
        assert chains[..i + 1][..i] == chains[..i];
        if Tame(moments + [next], chains[..i + 1]) { TamePrefix(moments, next, chains[..i + 1]); }
        oks, moments := oks + [ok], moments + [next];
      }
      assert chains[..|chains|] == chains;
      if chains != [] { FollowedOk(moments[|chains| - 1], moments[|chains|], chains[|chains| - 1], oks[|chains| - 1], contracts); }
    }

    ghost predicate Now(m: Moment)
      reads this`cursor, this`start, this`watched, this`calls
    {
      m.cursor == cursor && m.start == start && m.watched == watched && m.calls == calls
    }

    /** One tick of a run, from one moment to the next. */
    method RunTick(chain: Chain, addresses: seq<string>, ghost m: Moment) returns (ok: bool, ghost next: Moment)
      requires Now(m) && OpenReport(m)
      modifies this`faults, this`cursor, this`calls, this`start, this`watched
      ensures Now(next) && OpenReport(next) && Follows(m, next, chain, ok)
      ensures Keeps(m, contracts) && TameAt(m, chain) ==> Keeps(next, contracts)
      ensures Decides(m, next, chain, ok, contracts)
    {
      hide CoveredBy, Agrees, HashStands, Scanned, Reported, HandledUpTo, Watching, Forward, Resumed, Complete, MinedOnce, TrackedOf, Follows, Decides, OpenReport;
      var result: ScanResult;
      ghost var settled, n, more;
      ok, result, settled, n, more := Tick(chain, addresses);
      next := Moment(if settled then chain else m.home, cursor, start, !settled && (m.reported || calls != m.calls), watched, calls);
      StepFollows(m, next, chain, ok, settled, more);
      StepDecides(m, next, chain, ok, settled, n, contracts, TrackedOf(addresses), more);
      if Keeps(m, contracts) && TameAt(m, chain) {
        if settled {
          SettledCovers(m, chain, n, start, contracts, TrackedOf(addresses), more);
        } else if calls != m.calls {
          UnsettledCovers(m, chain, contracts, calls);
        }
      }
    }
  }

  // ---------------------------------------------------------------- one tick, stated

  /** The failed tick's only trace: the replaced block was reported. */
  ghost predicate Reported(chain: Chain, cursor: Option<Cursor>, before: seq<Call>, after: seq<Call>) {
    cursor.Some? && !HashStands(chain, cursor.value) && after == before + [HandleReorg(cursor.value.block)]
  }

  /** The scan went to the tip, the batch's end or the first block the node lacks, and hits are what it found. */
  ghost predicate Complete(chain: Chain, r: Cursor, n: nat, batch: nat, fast: bool, contracts: seq<string>, tracked: set<string>, hits: seq<Hash>) {
    var from := r.block + 1;
    && Available(chain, from, n) && n <= batch && (n > 0 ==> r.block + n <= chain.tip)
    && (n < batch && r.block + n < chain.tip ==> from + n !in chain.blocks) && (fast ==> Distinct(hits))
    && forall h :: h in hits <==> InRange(chain, from, n, h) && Finds(chain, h, fast, contracts, tracked)
  }

  ghost predicate AllAbove(chain: Chain, from: nat, hits: seq<Hash>) {
    forall h :: h in hits ==> Above(chain, from, h)
  }

  lemma InRangeAbove(chain: Chain, from: nat, n: nat, hits: seq<Hash>)
    requires forall h :: h in hits ==> InRange(chain, from, n, h)
    ensures AllAbove(chain, from, hits)
  {
  }

  lemma InBlockAbove(chain: Chain, from: nat, k: nat, hits: seq<Hash>)
    requires from <= k && forall h :: h in hits ==> InBlock(chain, k, h)
    ensures AllAbove(chain, from, hits)
  {
  }

  lemma AllAboveJoin(chain: Chain, from: nat, a: seq<Hash>, b: seq<Hash>)
    requires AllAbove(chain, from, a) && AllAbove(chain, from, b)
    ensures AllAbove(chain, from, a + b)
  {
    hide Above;
  }

  lemma AllAbovePrefix(chain: Chain, from: nat, hits: seq<Hash>, n: nat)
    requires AllAbove(chain, from, hits) && n <= |hits|
    ensures AllAbove(chain, from, hits[..n])
  {
    hide Above;
  }

  lemma EmptyRange(chain: Chain, from: nat)
    ensures forall h :: !InRange(chain, from, 0, h)
  {
  }

  lemma NoHashStands(chain: Chain)
    ensures forall c: Cursor :: c.hash.None? ==> HashStands(chain, c)
  {
  }

  lemma HitCalls(chain: Chain, from: nat, hits: seq<Hash>)
    requires AllAbove(chain, from, hits)
    ensures ScanCalls(chain, from, Processes(hits))
  {
    hide Above;
  }

  lemma NothingScanned(chain: Chain, r: Cursor, watched: map<nat, set<string>>, contracts: seq<string>, tracked: set<string>, handed: seq<Hash>)
    ensures AllAbove(chain, r.block + 1, handed) ==> Scanned(chain, r, 0, contracts, tracked, Processes(handed))
    ensures Scanned(chain, r, 0, contracts, tracked, [])
    ensures Forward(chain, r, 0) == r && Watching(watched, r.block + 1, 0, tracked) == watched
  {
    if AllAbove(chain, r.block + 1, handed) { HitCalls(chain, r.block + 1, handed); }
  }

  lemma CompleteScanned(chain: Chain, r: Cursor, n: nat, batch: nat, fast: bool, contracts: seq<string>, tracked: set<string>, hits: seq<Hash>)
    requires Complete(chain, r, n, batch, fast, contracts, tracked, hits)
    ensures Scanned(chain, r, n, contracts, tracked, Processes(hits))
  {
    hide Finds, InRange, Handled, AllAbove;
    InRangeAbove(chain, r.block + 1, n, hits);
    HitCalls(chain, r.block + 1, hits);
    forall k | r.block < k <= r.block + n ensures Handled(chain, k, contracts, tracked, Processes(hits)) {
      RangeHandled(chain, r.block + 1, n, fast, contracts, tracked, hits, k);
    }
  }

  lemma UpdateScanned(chain: Chain, r: Cursor, n: nat, contracts: seq<string>, tracked: set<string>, calls: seq<Call>)
    requires Scanned(chain, r, n, contracts, tracked, calls)
    ensures Scanned(chain, r, n, contracts, tracked, calls + [UpdateConfirmations])
  {
    hide Handled, Above;
    ScanCallsJoin(chain, r.block + 1, calls, [UpdateConfirmations]);
    forall k | r.block < k <= r.block + n ensures Handled(chain, k, contracts, tracked, calls + [UpdateConfirmations]) {
      HandledLater(chain, k, contracts, tracked, calls, [UpdateConfirmations]);
    }
  }

  lemma ForwardScanned(chain: Chain, r: Cursor, n: nat, contracts: seq<string>, tracked: set<string>, more: seq<Call>)
    requires Scanned(chain, r, n, contracts, tracked, more)
    ensures Forward(chain, r, n).block == r.block + n
  {
    hide Handled;
    ForwardBlock(chain, r, n);
  }

  /** If the replaced height is there and within reach, the completed tick scans it again with today's addresses. */
  lemma Rescanned(chain: Chain, c: Cursor, n: nat, batch: nat, fast: bool, contracts: seq<string>, tracked: set<string>, watched: map<nat, set<string>>, more: seq<Call>, hits: seq<Hash>)
    requires !HashStands(chain, c) && Complete(chain, Resumed(chain, c), n, batch, fast, contracts, tracked, hits)
    requires Scanned(chain, Resumed(chain, c), n, contracts, tracked, more)
    ensures var r := Resumed(chain, c);
            c.block <= chain.tip && c.block in chain.blocks && batch > 0 ==>
              && c.block <= Forward(chain, r, n).block
              && c.block in Watching(watched, r.block + 1, n, tracked) && Watching(watched, r.block + 1, n, tracked)[c.block] == tracked
              && Handled(chain, c.block, contracts, tracked, more)
  {
    hide Handled, Finds, InRange;
    ForwardBlock(chain, Resumed(chain, c), n);
  }

  // ---------------------------------------------------------------- runs

  /** Everything up to the cursor is covered, but for the block of an open report. */
  ghost predicate Keeps(m: Moment, contracts: seq<string>) {
    m.cursor.Some? ==> CoveredBy(m.home, m.cursor.value, m.reported, m.start, m.watched, contracts, m.calls)
  }

  /** An open report is the run's last call. */
  ghost predicate OpenReport(m: Moment) {
    m.reported ==> m.cursor.Some? && m.calls != [] && m.calls[|m.calls| - 1] == HandleReorg(m.cursor.value.block)
  }

  lemma FreshMoment(m: Moment, contracts: seq<string>)
    requires m.cursor.None? && !m.reported
    ensures Keeps(m, contracts) && OpenReport(m)
  {
  }

  /** One tick of a run: it settles on the node's chain, or leaves the cursor and may have reported its block. */
  ghost predicate Follows(m: Moment, next: Moment, chain: Chain, ok: bool) {
    || Settles(m, next, chain)
    || (!ok && next.home == m.home && next.cursor == m.cursor && next.start == m.start && next.watched == m.watched
        && next.reported == (m.reported || next.calls != m.calls)
        && (next.calls == m.calls || Reported(chain, m.cursor, m.calls, next.calls)))
  }

  ghost predicate Settles(m: Moment, next: Moment, chain: Chain) {
    && next.home == chain && !next.reported && next.cursor.Some? && (m.cursor.Some? ==> next.start == m.start)
    && m.calls + Reports(chain, Loaded(m.cursor, chain.tip)) <= next.calls
  }

  /** A completed tick on a chain that agrees up to the cursor covers it exactly when no open report does harm. */
  ghost predicate Decides(m: Moment, next: Moment, chain: Chain, ok: bool, contracts: seq<string>) {
    ok && m.cursor.Some? && Keeps(m, contracts) && Agrees(m.home, chain, m.cursor.value, false, m.start) && MinedOnce(chain) ==>
      && next.cursor.Some?
      && (HandledUpTo(chain, next.cursor.value.block, next.start, next.watched, contracts, next.calls) <==>
          ReportHarmless(chain, m.cursor.value, m.reported, m.start, m.watched, contracts))
  }

  lemma StepFollows(m: Moment, next: Moment, chain: Chain, ok: bool, settled: bool, more: seq<Call>)
    requires (ok ==> settled) && OpenReport(m)
    requires settled ==>
               && next.home == chain && !next.reported && next.cursor.Some? && (m.cursor.Some? ==> next.start == m.start)
               && next.calls == m.calls + Reports(chain, Loaded(m.cursor, chain.tip)) + more
    requires !settled ==>
               && next.home == m.home && next.cursor == m.cursor && next.start == m.start && next.watched == m.watched
               && next.reported == (m.reported || next.calls != m.calls)
               && (next.calls == m.calls || Reported(chain, m.cursor, m.calls, next.calls))
    ensures Follows(m, next, chain, ok) && OpenReport(next)
  {
    hide HashStands;
  }

  lemma StepDecides(m: Moment, next: Moment, chain: Chain, ok: bool, settled: bool, n: nat, contracts: seq<string>, tracked: set<string>, more: seq<Call>)
    requires (ok ==> settled) && OpenReport(m)
    requires settled ==> var c := Loaded(m.cursor, chain.tip); var r := Resumed(chain, c);
               && next.cursor == Some(Forward(chain, r, n)) && (m.cursor.Some? ==> next.start == m.start)
               && next.calls == m.calls + Reports(chain, c) + more && next.watched == Watching(m.watched, r.block + 1, n, tracked)
               && Scanned(chain, r, n, contracts, tracked, more)
    ensures Decides(m, next, chain, ok, contracts)
  {
    hide HashStands, Scanned, HandledUpTo, Watching, MinedOnce, Agrees, CoveredBy, ReportHarmless, Forward;
    if ok && m.cursor.Some? && Keeps(m, contracts) && Agrees(m.home, chain, m.cursor.value, false, m.start) && MinedOnce(chain) {
      var c := m.cursor.value;
      OpenReportDecides(m.home, chain, c, m.reported, n, m.start, m.watched, contracts, tracked, m.calls, more);
      ForwardScanned(chain, Resumed(chain, c), n, contracts, tracked, more);
    }
  }

  lemma FollowedOk(m: Moment, next: Moment, chain: Chain, ok: bool, contracts: seq<string>)
    requires Follows(m, next, chain, ok)
    ensures ok ==> next.cursor.Some?
    ensures ok && Keeps(next, contracts) ==> CoveredBy(chain, next.cursor.value, false, next.start, next.watched, contracts, next.calls)
  {
  }

  /** Before each tick the node's chain agreed with the run so far. */
  ghost predicate Tame(moments: seq<Moment>, chains: seq<Chain>)
    requires |moments| == |chains| + 1
  {
    forall i :: 0 <= i < |chains| ==> TameAt(moments[i], chains[i])
  }

  ghost predicate TameAt(m: Moment, chain: Chain) {
    m.cursor.Some? ==> Agrees(m.home, chain, m.cursor.value, m.reported, m.start)
  }

  lemma TamePrefix(moments: seq<Moment>, next: Moment, chains: seq<Chain>)
    requires |moments| == |chains| > 0 && Tame(moments + [next], chains)
    ensures Tame(moments, chains[..|chains| - 1]) && TameAt(moments[|chains| - 1], chains[|chains| - 1])
  {
    hide TameAt;
    var all := moments + [next];
    forall i | 0 <= i < |chains| ensures TameAt(moments[i], chains[i]) { assert all[i] == moments[i]; }
  }

  lemma SettledCovers(m: Moment, chain: Chain, n: nat, start: nat, contracts: seq<string>, tracked: set<string>, more: seq<Call>)
    requires Keeps(m, contracts) && TameAt(m, chain) && (m.cursor.Some? ==> m.start == start)
    requires m.cursor.None? ==> start == Loaded(None, chain.tip).block
    requires Scanned(chain, Resumed(chain, Loaded(m.cursor, chain.tip)), n, contracts, tracked, more)
    ensures var c := Loaded(m.cursor, chain.tip); var r := Resumed(chain, c);
            CoveredBy(chain, Forward(chain, r, n), false, start, Watching(m.watched, r.block + 1, n, tracked), contracts, m.calls + Reports(chain, c) + more)
  {
    hide CoveredBy, Scanned, Agrees;
    var c := Loaded(m.cursor, chain.tip);
    if m.cursor.Some? {
      AgreedCovers(m.home, chain, c, m.reported, n, start, m.watched, contracts, tracked, m.calls, more);
    } else {
      FreshCover(chain, chain.tip, start, m.watched, contracts, m.calls);
      AgreedCovers(chain, chain, c, false, n, start, m.watched, contracts, tracked, m.calls, more);
    }
  }

  lemma UnsettledCovers(m: Moment, chain: Chain, contracts: seq<string>, calls: seq<Call>)
    requires Keeps(m, contracts) && Reported(chain, m.cursor, m.calls, calls)
    ensures m.cursor.Some? && CoveredBy(m.home, m.cursor.value, true, m.start, m.watched, contracts, calls)
  {
    hide CoveredBy, HashStands;
    ReportKeepsBelow(m.home, m.cursor.value, m.reported, m.start, m.watched, contracts, m.calls);
  }

  lemma ReportedNotStanding(chain: Chain, cursor: Option<Cursor>, before: seq<Call>, after: seq<Call>)
    requires Reported(chain, cursor, before, after)
    ensures cursor.Some? && !HashStands(chain, cursor.value)
  {
  }

  // ---------------------------------------------------------------- addresses, block bodies and logs

  function TrackedOf(addresses: seq<string>): set<string> {
    set i | 0 <= i < |addresses| && IsAddress(Tracking(addresses[i])) :: Tracking(addresses[i])
  }

  /** Malformed rows are skipped; what remains is canonical. */
  method LoadTrackedAddresses(addresses: seq<string>) returns (tracked: set<string>)
    ensures tracked == TrackedOf(addresses) && Canonical(tracked)
  {
    tracked := {};
    for i := 0 to |addresses|
      invariant tracked == TrackedOf(addresses[..i])
    {
      var address := Tracking(addresses[i]);
      if IsAddress(address) { tracked := tracked + {address}; }
      TrackedSnoc(addresses, i);
    }
    assert addresses[..|addresses|] == addresses;
    TrackedCanonical(addresses);
  }

  lemma TrackedSnoc(addresses: seq<string>, i: nat)
    requires i < |addresses|
    ensures var a := Tracking(addresses[i]);
            TrackedOf(addresses[..i + 1]) == TrackedOf(addresses[..i]) + if IsAddress(a) then {a} else {}
  {
    hide Tracking, IsAddress;
    var longer, shorter := addresses[..i + 1], addresses[..i];
    assert forall k :: 0 <= k < i ==> longer[k] == shorter[k];
    forall a ensures a in TrackedOf(longer) <==> a in TrackedOf(shorter) || (a == Tracking(addresses[i]) && IsAddress(a)) {
      if a in TrackedOf(shorter) {
        var k :| 0 <= k < |shorter| && IsAddress(Tracking(shorter[k])) && a == Tracking(shorter[k]);
        assert a == Tracking(longer[k]);
      }
      if a in TrackedOf(longer) {
        var k :| 0 <= k < |longer| && IsAddress(Tracking(longer[k])) && a == Tracking(longer[k]);
        if k < i { assert a == Tracking(shorter[k]); }
      }
      assert longer[i] == addresses[i];
    }
  }

  lemma TrackedCanonical(addresses: seq<string>)
    ensures Canonical(TrackedOf(addresses))
  {
    forall a | a in TrackedOf(addresses) ensures IsAddress(a) && Lower(a) == a {
      var i :| 0 <= i < |addresses| && IsAddress(Tracking(addresses[i])) && a == Tracking(addresses[i]);
      LowerTwice(addresses[i]);
    }
  }

  predicate NativeIn(chain: Chain, h: Hash, tracked: set<string>) {
    h in chain.txs && NativeHit(chain.txs[h], tracked)
  }

  predicate LoggedIn(chain: Chain, h: Hash, contracts: seq<string>, tracked: set<string>) {
    h in chain.txs && AnyLogHit(ReceiptOf(chain, h), contracts, tracked)
  }

  lemma FastFindsEither(chain: Chain, contracts: seq<string>, tracked: set<string>)
    ensures forall h :: Finds(chain, h, true, contracts, tracked) <==>
                        NativeIn(chain, h, tracked) || LoggedIn(chain, h, contracts, tracked)
  {
    hide NativeHit, AnyLogHit;
  }

  method CollectFromBlock(chain: Chain, n: nat, tracked: set<string>, before: seq<Hash>) returns (found: seq<Hash>)
    requires n in chain.blocks && Distinct(before)
    ensures Distinct(found) && forall h :: h in found <==> h in before || (InBlock(chain, n, h) && NativeIn(chain, h, tracked))
  {
    hide NativeIn;
    found := before;
    var txs := chain.blocks[n].txs;
    for i := 0 to |txs|
      invariant Distinct(found) && forall h :: h in found <==> h in before || (h in txs[..i] && NativeIn(chain, h, tracked))
    {
      if NativeIn(chain, txs[i], tracked) && txs[i] !in found { found := found + [txs[i]]; }
      assert txs[..i + 1] == txs[..i] + [txs[i]];
    }
    assert txs[..|txs|] == txs;
  }

  /** `eth_getLogs` over the range: the transactions holding a matching log. */
  method TransferLogsTo(chain: Chain, from: nat, n: nat, contracts: seq<string>, tracked: set<string>) returns (found: seq<Hash>)
    requires Available(chain, from, n)
    ensures Distinct(found) && forall h :: h in found <==> InRange(chain, from, n, h) && LoggedIn(chain, h, contracts, tracked)
  {
    hide LoggedIn;
    found := [];
    for k := 0 to n
      invariant Distinct(found) && forall h :: h in found <==> InRange(chain, from, k, h) && LoggedIn(chain, h, contracts, tracked)
    {
      var txs := chain.blocks[from + k].txs;
      ghost var before := found;
      for i := 0 to |txs|
        invariant Distinct(found) && forall h :: h in found <==> h in before || (h in txs[..i] && LoggedIn(chain, h, contracts, tracked))
      {
        if LoggedIn(chain, txs[i], contracts, tracked) && txs[i] !in found { found := found + [txs[i]]; }
        assert txs[..i + 1] == txs[..i] + [txs[i]];
      }
      assert txs[..|txs|] == txs;
      WiderRange(chain, from, k);
    }
  }

  method Union(a: seq<Hash>, b: seq<Hash>) returns (r: seq<Hash>)
    requires Distinct(a)
    ensures Distinct(r) && forall h :: h in r <==> h in a || h in b
  {
    r := a;
    for i := 0 to |b|
      invariant Distinct(r) && forall h :: h in r <==> h in a || h in b[..i]
    {
      if b[i] !in r { r := r + [b[i]]; }
      assert b[..i + 1] == b[..i] + [b[i]];
    }
    assert b[..|b|] == b;
  }
}
