/**
 * How the two discovery paths recognise a transaction: parsing its receipt
 * (packages/blockchain/src/evm/transfer-log.ts, rpc-adapter.ts getTransfers) against matching block
 * bodies and log topics (getLightBlock, getTransferLogsTo). Both are compared with what the
 * transaction does on chain, stated on numbers instead of text.
 */
module Discovery {
  import opened Basics
  import opened Text
  import opened Rounding

  const TRANSFER_EVENT_TOPIC: string := "0xddf252ad1be2c89b69c2b068fc378daa952ba7f163c4a11628f55a4df523b3ef"

  // ---------------------------------------------------------------- hexadecimal text

  predicate IsHexChar(c: char) {
    '0' <= c <= '9' || 'a' <= c <= 'f' || 'A' <= c <= 'F'
  }

  function HexDigit(c: char): (d: nat)
    requires IsHexChar(c)
    ensures d < 16
  {
    if c <= '9' then c as int - '0' as int
    else if c <= 'F' then c as int - 'A' as int + 10
    else c as int - 'a' as int + 10
  }

  predicate IsHex(s: string) {
    forall i :: 0 <= i < |s| ==> IsHexChar(s[i])
  }

  function HexValue(s: string): nat
    requires IsHex(s)
  {
    if s == [] then 0 else HexValue(s[..|s| - 1]) * 16 + HexDigit(s[|s| - 1])
  }

  function Pow16(n: nat): nat {
    if n == 0 then 1 else 16 * Pow16(n - 1)
  }

  lemma DigitCase(c: char, d: char)
    requires IsHexChar(c) && IsHexChar(d)
    ensures HexDigit(c) == HexDigit(d) <==> LowerChar(c) == LowerChar(d)
    ensures IsHexChar(LowerChar(c))
  {
  }

  /** Texts of one length spell one number exactly when they differ at most in case. */
  lemma {:induction false} HexInjective(a: string, b: string)
    requires IsHex(a) && IsHex(b) && |a| == |b|
    ensures HexValue(a) == HexValue(b) <==> Lower(a) == Lower(b)
    decreases |a|
  {
    if a != [] {
      var n := |a| - 1;
      HexInjective(a[..n], b[..n]);
      DigitCase(a[n], b[n]);
      LowerSnoc(a);
      LowerSnoc(b);
      SnocEqual(Lower(a[..n]), Lower(b[..n]), LowerChar(a[n]), LowerChar(b[n]));
    }
  }

  lemma SnocEqual(a: string, b: string, c: char, d: char)
    requires |a| == |b|
    ensures a + [c] == b + [d] <==> a == b && c == d
  {
    if a + [c] == b + [d] {
      assert a == (a + [c])[..|a|] && b == (b + [d])[..|b|];
      assert c == (a + [c])[|a|] && d == (b + [d])[|b|];
    }
  }

  lemma LowerSnoc(a: string)
    requires a != []
    ensures Lower(a) == Lower(a[..|a| - 1]) + [LowerChar(a[|a| - 1])]
  {
  }

  lemma {:induction false} HexBound(s: string)
    requires IsHex(s)
    ensures HexValue(s) < Pow16(|s|)
  {
    if s != [] { HexBound(s[..|s| - 1]); }
  }

  lemma {:induction false} HexConcat(a: string, b: string)
    requires IsHex(a) && IsHex(b)
    ensures IsHex(a + b) && HexValue(a + b) == HexValue(a) * Pow16(|b|) + HexValue(b)
    decreases |b|
  {
    if b == [] {
      assert a + b == a;
    } else {
      var n := |b| - 1;
      HexConcat(a, b[..n]);
      assert (a + b)[..|a + b| - 1] == a + b[..n];
      assert Pow16(|b|) == 16 * Pow16(n) && HexValue(b) == HexValue(b[..n]) * 16 + HexDigit(b[n]);
      assert HexValue(a + b) == HexValue(a + b[..n]) * 16 + HexDigit(b[n]);
      hide Pow16, HexValue;
      ShiftDigit(HexValue(a), Pow16(n), HexValue(b[..n]));
    }
  }

  lemma ShiftDigit(v: nat, p: nat, w: nat)
    ensures (v * p + w) * 16 == v * (16 * p) + w * 16
  {
  }

  predicate AllZeros(s: string) {
    forall i :: 0 <= i < |s| ==> s[i] == '0'
  }

  lemma {:induction false} HexZero(s: string)
    requires IsHex(s)
    ensures HexValue(s) == 0 <==> AllZeros(s)
  {
    if s != [] {
      HexZero(s[..|s| - 1]);
      assert AllZeros(s) <==> AllZeros(s[..|s| - 1]) && s[|s| - 1] == '0';
    }
  }

  // ---------------------------------------------------------------- addresses and topics

  predicate Prefixed(s: string, digits: nat) {
    |s| == digits + 2 && s[..2] == "0x" && IsHex(s[2..])
  }

  /** `isStructurallyValidEvmAddress`. */
  predicate IsAddress(s: string) { Prefixed(s, 40) }

  predicate IsTopic(s: string) { Prefixed(s, 64) }

  /** The number behind a prefixed hexadecimal text. */
  function NumberOf(s: string): nat
    requires |s| >= 2 && IsHex(s[2..])
  {
    HexValue(s[2..])
  }

  /** `normalizeEvmAddress`, which throws on anything else. */
  function Normalize(s: string): Option<string> {
    if IsAddress(s) then Some(Lower(s)) else None
  }

  function AddressToTopic(address: string): (topic: string)
    requires IsAddress(address)
  {
    "0x" + Zeros(24) + Lower(address)[2..]
  }

  /** A parse that fails softly is skipped; a thrown error aborts the scan. */
  datatype Parse<T> = Parsed(value: T) | Malformed | Thrown

  function StripPrefix(s: string): string {
    if |s| >= 2 && s[0] == '0' && (s[1] == 'x' || s[1] == 'X') then s[2..] else s
  }

  function AddressFromTopic(topic: string): Parse<string> {
    var hex := StripPrefix(topic);
    if |hex| != 64 then Malformed
    else if !AllZeros(hex[..24]) then Malformed
    else match Normalize("0x" + hex[24..])
      case Some(address) => Parsed(address)
      case None => Thrown
  }

  function AmountFromData(data: string): Parse<nat> {
    var hex := StripPrefix(data);
    if |hex| == 0 || |hex| > 64 || !IsHex(hex) then Malformed else Parsed(HexValue(hex))
  }

  lemma LowerKeepsHex(s: string)
    requires IsHex(s)
    ensures IsHex(Lower(s)) && HexValue(Lower(s)) == HexValue(s) && Lower(Lower(s)) == Lower(s)
  {
    forall i | 0 <= i < |s| ensures IsHexChar(Lower(s)[i]) { DigitCase(s[i], s[i]); }
    assert Lower(Lower(s)) == Lower(s);
    HexInjective(Lower(s), s);
  }

  lemma LowerPrefixed(s: string, digits: nat)
    requires Prefixed(s, digits)
    ensures Prefixed(Lower(s), digits) && NumberOf(Lower(s)) == NumberOf(s)
    ensures Lower(s)[2..] == Lower(s[2..])
  {
    LowerKeepsHex(s[2..]);
    assert Lower(s)[2..] == Lower(s[2..]);
    assert s[0] == s[..2][0] && s[1] == s[..2][1];
    assert Lower(s)[..2] == "0x";
  }

  /** Prefixed texts of one width denote one number exactly when they agree up to case. */
  lemma SameNumber(s: string, t: string, digits: nat)
    requires Prefixed(s, digits) && Prefixed(t, digits)
    ensures NumberOf(s) == NumberOf(t) <==> Lower(s) == Lower(t)
  {
    HexInjective(s[2..], t[2..]);
    LowerPrefixed(s, digits);
    LowerPrefixed(t, digits);
    assert Lower(s) == "0x" + Lower(s)[2..] && Lower(t) == "0x" + Lower(t)[2..];
  }

  /** The topic of an address is a topic, denotes the same number, and reads back as the address. */
  lemma TopicOfAddress(address: string)
    requires IsAddress(address)
    ensures IsTopic(AddressToTopic(address)) && NumberOf(AddressToTopic(address)) == NumberOf(address)
    ensures AddressFromTopic(AddressToTopic(address)) == Parsed(Lower(address))
  {
    hide Lower, HexValue, Pow16;
    LowerPrefixed(address, 40);
    LowerTwice(address);
    PaddedTopic(Lower(address));
  }

  lemma LowerTwice(s: string)
    ensures Lower(Lower(s)) == Lower(s)
  {
  }

  lemma PaddedTopic(address: string)
    requires IsAddress(address)
    ensures var topic := "0x" + Zeros(24) + address[2..];
            IsTopic(topic) && NumberOf(topic) == NumberOf(address) && AddressFromTopic(topic) == Parsed(Lower(address))
  {
    hide Lower, HexValue, Pow16;
    var body := address[2..];
    var topic := "0x" + Zeros(24) + body;
    assert topic[2..] == Zeros(24) + body && topic[..2] == "0x";
    HexConcat(Zeros(24), body);
    HexZero(Zeros(24));
    assert HexValue(Zeros(24)) * Pow16(40) == 0;
    assert StripPrefix(topic) == Zeros(24) + body;
    assert (Zeros(24) + body)[..24] == Zeros(24) && (Zeros(24) + body)[24..] == body;
    assert "0x" + body == address;
  }

  /** Reading a 32-byte topic gives an address exactly when the number has no bits above 160. */
  lemma AddressOfTopic(topic: string)
    requires IsTopic(topic)
    ensures NumberOf(topic) < Pow16(40) ==>
              AddressFromTopic(topic).Parsed? && IsAddress(AddressFromTopic(topic).value)
              && NumberOf(AddressFromTopic(topic).value) == NumberOf(topic)
              && Lower(AddressFromTopic(topic).value) == AddressFromTopic(topic).value
    ensures NumberOf(topic) >= Pow16(40) ==> AddressFromTopic(topic) == Malformed
  {
    hide Lower, HexValue, Pow16;
    var hex := topic[2..];
    assert topic[0] == topic[..2][0] && topic[1] == topic[..2][1];
    assert StripPrefix(topic) == hex;
    var high, low := hex[..24], hex[24..];
    assert hex == high + low;
    HexConcat(high, low);
    HexBound(low);
    HexZero(high);
    if AllZeros(high) {
      var address := "0x" + low;
      assert address[2..] == low && address[..2] == "0x";
      LowerPrefixed(address, 40);
      LowerTwice(address);
      assert HexValue(high) * Pow16(40) == 0;
    } else {
      MulMono(1, HexValue(high), Pow16(40));
    }
  }

  // ---------------------------------------------------------------- the node's answers

  datatype Log = Log(address: string, topics: seq<string>, data: string, index: nat)
  datatype Receipt = Receipt(success: bool, logs: seq<Log>)
  datatype Tx = Tx(from: string, to: Option<string>, value: nat)
  datatype Transfer = Transfer(index: int, contract: Option<string>, from: string, to: string, amount: nat)

  /** A node prints addresses and topics as prefixed hexadecimal of their full width. */
  predicate NodeTx(tx: Tx) {
    IsAddress(tx.from) && (tx.to.Some? ==> IsAddress(tx.to.value))
  }

  predicate NodeLog(log: Log) {
    && IsAddress(log.address)
    && (forall i :: 0 <= i < |log.topics| ==> IsTopic(log.topics[i]))
    && |log.data| >= 2 && log.data[..2] == "0x" && IsHex(log.data[2..])
  }

  predicate NodeReceipt(receipt: Receipt) {
    forall i :: 0 <= i < |receipt.logs| ==> NodeLog(receipt.logs[i])
  }

  // ---------------------------------------------------------------- the receipt path

  function ParseTransferLog(log: Log): Parse<Transfer> {
    if |log.topics| != 3 || Lower(log.topics[0]) != TRANSFER_EVENT_TOPIC then Malformed
    else match AddressFromTopic(log.topics[1])
      case Malformed => Malformed
      case Thrown => Thrown
      case Parsed(from) =>
        match AddressFromTopic(log.topics[2])
        case Malformed => Malformed
        case Thrown => Thrown
        case Parsed(to) =>
          match AmountFromData(log.data)
          case Malformed => Malformed
          case Thrown => Thrown
          case Parsed(amount) =>
            if amount == 0 then Malformed
            else if !IsAddress(log.address) then Thrown
            else Parsed(Transfer(log.index, Some(Lower(log.address)), from, to, amount))
  }

  function NativeTransfer(tx: Tx): Parse<Transfer> {
    if tx.to.None? || tx.value == 0 then Malformed
    else if !IsAddress(tx.from) || !IsAddress(tx.to.value) then Thrown
    else Parsed(Transfer(-1, None, Lower(tx.from), Lower(tx.to.value), tx.value))
  }

  /** Keep what parsed; a thrown error wins. */
  function Push(sofar: Parse<seq<Transfer>>, next: Parse<Transfer>): Parse<seq<Transfer>> {
    if sofar.Parsed? && next.Parsed? then Parsed(sofar.value + [next.value])
    else if next.Thrown? then Thrown
    else sofar
  }

  function ParseLogs(start: seq<Transfer>, logs: seq<Log>): Parse<seq<Transfer>> {
    if logs == [] then Parsed(start)
    else Push(ParseLogs(start, logs[..|logs| - 1]), ParseTransferLog(logs[|logs| - 1]))
  }

  /** `getTransfers`: nothing for an unknown or reverted transaction. */
  function TransfersOf(tx: Tx, receipt: Option<Receipt>): Parse<seq<Transfer>> {
    if receipt.None? || !receipt.value.success then Parsed([])
    else match NativeTransfer(tx)
      case Thrown => Thrown
      case Malformed => ParseLogs([], receipt.value.logs)
      case Parsed(native) => ParseLogs([native], receipt.value.logs)
  }

  method GetTransfers(tx: Tx, receipt: Option<Receipt>) returns (r: Parse<seq<Transfer>>)
    ensures r == TransfersOf(tx, receipt)
  {
    hide ParseTransferLog, NativeTransfer;
    if receipt.None? || !receipt.value.success { return Parsed([]); }
    var transfers: seq<Transfer> := [];
    var native := NativeTransfer(tx);
    if native.Thrown? { return Thrown; }
    if native.Parsed? { transfers := [native.value]; }
    var logs := receipt.value.logs;
    ghost var start := transfers;
    for i := 0 to |logs|
      invariant ParseLogs(start, logs[..i]) == Parsed(transfers)
    {
      var transfer := ParseTransferLog(logs[i]);
      assert logs[..i + 1][..i] == logs[..i];
      if transfer.Thrown? {
        ThrownForever(start, logs, i + 1);
        return Thrown;
      }
      if transfer.Parsed? { transfers := transfers + [transfer.value]; }
    }
    assert logs[..|logs|] == logs;
    return Parsed(transfers);
  }

  lemma {:induction false} ThrownForever(start: seq<Transfer>, logs: seq<Log>, n: nat)
    requires n <= |logs| && ParseLogs(start, logs[..n]).Thrown?
    ensures ParseLogs(start, logs).Thrown?
    decreases |logs| - n
  {
    if n == |logs| {
      assert logs[..n] == logs;
    } else {
      assert logs[..n + 1][..n] == logs[..n];
      ThrownForever(start, logs, n + 1);
    }
  }

  function Tracking(address: string): string {
    if |address| >= 2 && address[..2] == "0x" then Lower(address) else address
  }

  predicate AnyTo(transfers: seq<Transfer>, tracked: set<string>) {
    exists i :: 0 <= i < |transfers| && Tracking(transfers[i].to) in tracked
  }

  /** `touchesTrackedAddress`. */
  predicate Touches(tx: Tx, receipt: Option<Receipt>, tracked: set<string>) {
    var transfers := TransfersOf(tx, receipt);
    tracked != {} && transfers.Parsed? && AnyTo(transfers.value, tracked)
  }

  // ---------------------------------------------------------------- the light path

  predicate NativeHit(tx: Tx, tracked: set<string>) {
    tx.to.Some? && tx.value > 0 && Lower(tx.to.value) in tracked
  }

  /** What `eth_getLogs` matches: contract, event and recipient, whatever else the log holds. */
  predicate LogHit(log: Log, contracts: seq<string>, tracked: set<string>) {
    && (exists c :: c in contracts && Lower(c) == Lower(log.address))
    && |log.topics| >= 3 && Lower(log.topics[0]) == Lower(TRANSFER_EVENT_TOPIC)
    && exists a :: a in tracked && IsAddress(a) && Lower(log.topics[2]) == Lower(AddressToTopic(a))
  }

  predicate AnyLogHit(receipt: Option<Receipt>, contracts: seq<string>, tracked: set<string>) {
    receipt.Some? && exists i :: 0 <= i < |receipt.value.logs| && LogHit(receipt.value.logs[i], contracts, tracked)
  }

  predicate FastFinds(tx: Tx, receipt: Option<Receipt>, contracts: seq<string>, tracked: set<string>) {
    NativeHit(tx, tracked) || AnyLogHit(receipt, contracts, tracked)
  }

  // ---------------------------------------------------------------- what happened on chain

  /** Validated, lower-cased addresses: what `loadTrackedAddresses` produces. */
  predicate Canonical(tracked: set<string>) {
    forall a :: a in tracked ==> IsAddress(a) && Lower(a) == a
  }

  predicate MovesCoin(tx: Tx, account: nat)
    requires NodeTx(tx)
  {
    tx.value > 0 && tx.to.Some? && NumberOf(tx.to.value) == account
  }

  /** A standard Transfer event of a positive amount to the account. */
  predicate MovesToken(log: Log, account: nat)
    requires NodeLog(log)
  {
    && |log.topics| == 3 && Lower(log.topics[0]) == TRANSFER_EVENT_TOPIC
    && NumberOf(log.topics[1]) < Pow16(40) && NumberOf(log.topics[2]) == account
    && 1 <= |log.data| - 2 <= 64 && NumberOf(log.data) > 0
  }

  predicate Listed(log: Log, contracts: seq<string>)
    requires NodeLog(log)
  {
    exists c :: c in contracts && IsAddress(c) && NumberOf(c) == NumberOf(log.address)
  }

  predicate NodeAnswers(tx: Tx, receipt: Option<Receipt>) {
    NodeTx(tx) && (receipt.Some? ==> NodeReceipt(receipt.value))
  }

  /** The transaction succeeded and moved a positive amount of some asset to the account. */
  predicate Pays(tx: Tx, receipt: Option<Receipt>, account: nat)
    requires NodeAnswers(tx, receipt)
  {
    receipt.Some? && receipt.value.success &&
    (MovesCoin(tx, account) || exists i :: 0 <= i < |receipt.value.logs| && MovesToken(receipt.value.logs[i], account))
  }

  /** The same for the coin and the listed token contracts only. */
  predicate PaysListed(tx: Tx, receipt: Option<Receipt>, account: nat, contracts: seq<string>)
    requires NodeAnswers(tx, receipt)
  {
    receipt.Some? && receipt.value.success &&
    (MovesCoin(tx, account) ||
     exists i :: 0 <= i < |receipt.value.logs| && MovesToken(receipt.value.logs[i], account) && Listed(receipt.value.logs[i], contracts))
  }

  // ---------------------------------------------------------------- both paths against the chain

  lemma AmountMeaning(log: Log)
    requires NodeLog(log)
    ensures AmountFromData(log.data).Parsed? <==> 1 <= |log.data| - 2 <= 64
    ensures AmountFromData(log.data).Parsed? ==> AmountFromData(log.data).value == NumberOf(log.data)
    ensures !AmountFromData(log.data).Thrown?
  {
    assert log.data[0] == log.data[..2][0] && log.data[1] == log.data[..2][1];
  }

  /** On a node's log the parser never throws, and yields exactly the standard positive transfers. */
  lemma LogMeaning(log: Log, account: nat)
    requires NodeLog(log) && account < Pow16(40)
    ensures !ParseTransferLog(log).Thrown?
    ensures ParseTransferLog(log).Parsed? ==>
              var to := ParseTransferLog(log).value.to; IsAddress(to) && Lower(to) == to && NumberOf(to) < Pow16(40)
    ensures ParseTransferLog(log).Parsed? && NumberOf(ParseTransferLog(log).value.to) == account <==> MovesToken(log, account)
  {
    hide HexValue, Pow16, Lower, AddressFromTopic, AmountFromData;
    if |log.topics| == 3 {
      AddressOfTopic(log.topics[1]);
      AddressOfTopic(log.topics[2]);
      AmountMeaning(log);
    }
  }

  lemma LogHitMeaning(log: Log, contracts: seq<string>, tracked: set<string>, a: string)
    requires NodeLog(log) && a in tracked && IsAddress(a) && MovesToken(log, NumberOf(a)) && Listed(log, contracts)
    ensures LogHit(log, contracts, tracked)
  {
    hide HexValue, Pow16;
    var c :| c in contracts && IsAddress(c) && NumberOf(c) == NumberOf(log.address);
    SameNumber(c, log.address, 40);
    TopicOfAddress(a);
    SameNumber(log.topics[2], AddressToTopic(a), 64);
    assert Lower(Lower(log.topics[0])) == Lower(log.topics[0]);
  }

  /** All recipients are canonical addresses. */
  predicate CanonicalTo(transfers: seq<Transfer>) {
    forall i :: 0 <= i < |transfers| ==> IsAddress(transfers[i].to) && Lower(transfers[i].to) == transfers[i].to
  }

  predicate SomeTo(transfers: seq<Transfer>, account: nat)
    requires CanonicalTo(transfers)
  {
    exists i :: 0 <= i < |transfers| && NumberOf(transfers[i].to) == account
  }

  predicate NodeLogs(logs: seq<Log>) {
    forall i :: 0 <= i < |logs| ==> NodeLog(logs[i])
  }

  predicate SomeLogMoves(logs: seq<Log>, account: nat)
    requires NodeLogs(logs)
  {
    exists i :: 0 <= i < |logs| && MovesToken(logs[i], account)
  }

  lemma SomeToSnoc(transfers: seq<Transfer>, t: Transfer, account: nat)
    requires CanonicalTo(transfers) && IsAddress(t.to) && Lower(t.to) == t.to
    ensures CanonicalTo(transfers + [t])
    ensures SomeTo(transfers + [t], account) <==> SomeTo(transfers, account) || NumberOf(t.to) == account
  {
    hide HexValue, Lower;
    var all := transfers + [t];
    if SomeTo(transfers, account) {
      var i :| 0 <= i < |transfers| && NumberOf(transfers[i].to) == account;
      assert all[i] == transfers[i];
    }
    assert all[|transfers|] == t;
  }

  lemma SomeLogSnoc(logs: seq<Log>, account: nat)
    requires NodeLogs(logs) && logs != []
    ensures SomeLogMoves(logs, account) <==> SomeLogMoves(logs[..|logs| - 1], account) || MovesToken(logs[|logs| - 1], account)
  {
    hide MovesToken, NodeLog;
    var init := logs[..|logs| - 1];
    if SomeLogMoves(init, account) {
      var i :| 0 <= i < |init| && MovesToken(init[i], account);
      assert logs[i] == init[i];
    }
    if SomeLogMoves(logs, account) {
      var i :| 0 <= i < |logs| && MovesToken(logs[i], account);
      if i < |init| { assert init[i] == logs[i]; }
    }
  }

  lemma {:induction false} ParseLogsMeaning(start: seq<Transfer>, logs: seq<Log>, account: nat)
    requires CanonicalTo(start) && NodeLogs(logs) && account < Pow16(40)
    ensures ParseLogs(start, logs).Parsed? && CanonicalTo(ParseLogs(start, logs).value)
    ensures SomeTo(ParseLogs(start, logs).value, account) <==> SomeTo(start, account) || SomeLogMoves(logs, account)
    decreases |logs|
  {
    if logs != [] {
      var init, last := logs[..|logs| - 1], logs[|logs| - 1];
      ParseLogsMeaning(start, init, account);
      LogMeaning(last, account);
      SomeLogSnoc(logs, account);
      assert ParseLogs(start, logs) == Push(ParseLogs(start, init), ParseTransferLog(last));
      hide ParseLogs, ParseTransferLog, MovesToken, SomeLogMoves, SomeTo, CanonicalTo, NodeLog, HexValue, Lower, IsAddress;
      if ParseTransferLog(last).Parsed? {
        SomeToSnoc(ParseLogs(start, init).value, ParseTransferLog(last).value, account);
      }
    }
  }

  /** What `getTransfers` returns: canonical recipients, and an account among them exactly when paid. */
  lemma TransfersMeaning(tx: Tx, receipt: Option<Receipt>, account: nat)
    requires NodeAnswers(tx, receipt) && account < Pow16(40)
    ensures TransfersOf(tx, receipt).Parsed? && CanonicalTo(TransfersOf(tx, receipt).value)
    ensures SomeTo(TransfersOf(tx, receipt).value, account) <==> Pays(tx, receipt, account)
  {
    if receipt.Some? && receipt.value.success {
      var logs := receipt.value.logs;
      var native := NativeTransfer(tx);
      NativeMeaning(tx, account);
      var start := if native.Parsed? then [native.value] else [];
      hide Lower, HexValue, NodeLog, MovesToken, ParseLogs, NativeTransfer, MovesCoin, IsAddress;
      ParseLogsMeaning(start, logs, account);
      assert SomeLogMoves(logs, account) <==> exists i :: 0 <= i < |logs| && MovesToken(logs[i], account);
      assert TransfersOf(tx, receipt) == ParseLogs(start, logs);
    }
  }

  lemma NativeMeaning(tx: Tx, account: nat)
    requires NodeTx(tx)
    ensures !NativeTransfer(tx).Thrown?
    ensures var start := if NativeTransfer(tx).Parsed? then [NativeTransfer(tx).value] else [];
            CanonicalTo(start) && (SomeTo(start, account) <==> MovesCoin(tx, account))
  {
    hide HexValue, Pow16;
    if tx.to.Some? && tx.value > 0 {
      LowerPrefixed(tx.to.value, 40);
      LowerTwice(tx.to.value);
      var start := [NativeTransfer(tx).value];
      assert start[0].to == Lower(tx.to.value);
      assert NumberOf(start[0].to) == NumberOf(tx.to.value);
    }
  }

  /** Some tracked address is paid. */
  ghost predicate PaysTracked(tx: Tx, receipt: Option<Receipt>, tracked: set<string>)
    requires NodeAnswers(tx, receipt) && Canonical(tracked)
  {
    exists a :: a in tracked && Pays(tx, receipt, NumberOf(a))
  }

  ghost predicate PaysTrackedListed(tx: Tx, receipt: Option<Receipt>, tracked: set<string>, contracts: seq<string>)
    requires NodeAnswers(tx, receipt) && Canonical(tracked)
  {
    exists a :: a in tracked && PaysListed(tx, receipt, NumberOf(a), contracts)
  }

  lemma AddressBound(a: string)
    requires IsAddress(a)
    ensures NumberOf(a) < Pow16(40)
  {
    HexBound(a[2..]);
  }

  lemma TrackedRecipient(transfers: seq<Transfer>, tracked: set<string>, a: string)
    requires CanonicalTo(transfers) && Canonical(tracked) && a in tracked
    ensures SomeTo(transfers, NumberOf(a)) <==> exists i :: 0 <= i < |transfers| && transfers[i].to == a
  {
    forall i | 0 <= i < |transfers| ensures NumberOf(transfers[i].to) == NumberOf(a) <==> transfers[i].to == a {
      SameNumber(transfers[i].to, a, 40);
    }
    hide HexValue, Lower;
  }

  lemma AnyToMeaning(transfers: seq<Transfer>, tracked: set<string>)
    requires CanonicalTo(transfers) && Canonical(tracked)
    ensures AnyTo(transfers, tracked) <==> exists a :: a in tracked && SomeTo(transfers, NumberOf(a))
  {
    forall a | a in tracked
      ensures SomeTo(transfers, NumberOf(a)) <==> exists i :: 0 <= i < |transfers| && transfers[i].to == a
    {
      TrackedRecipient(transfers, tracked, a);
    }
    hide HexValue, Lower, SomeTo;
    assert forall i :: 0 <= i < |transfers| ==> Tracking(transfers[i].to) == transfers[i].to;
    if AnyTo(transfers, tracked) {
      var i :| 0 <= i < |transfers| && Tracking(transfers[i].to) in tracked;
      assert SomeTo(transfers, NumberOf(transfers[i].to));
    }
  }

  /** The receipt path finds a transaction exactly when it pays a tracked address, in whatever asset. */
  lemma GenericFindsExactly(tx: Tx, receipt: Option<Receipt>, tracked: set<string>)
    requires NodeAnswers(tx, receipt) && Canonical(tracked)
    ensures Touches(tx, receipt, tracked) <==> PaysTracked(tx, receipt, tracked)
  {
    hide HexValue, Lower, Pow16, TransfersOf, Pays, SomeTo, AnyTo;
    Pow16Positive(40);
    TransfersMeaning(tx, receipt, 0);
    var transfers := TransfersOf(tx, receipt).value;
    AnyToMeaning(transfers, tracked);
    forall a | a in tracked ensures SomeTo(transfers, NumberOf(a)) <==> Pays(tx, receipt, NumberOf(a)) {
      AddressBound(a);
      TransfersMeaning(tx, receipt, NumberOf(a));
    }
  }

  lemma {:induction false} Pow16Positive(n: nat)
    ensures Pow16(n) >= 1
  {
    if n > 0 { Pow16Positive(n - 1); }
  }

  /** The light path misses no payment in the coin or a listed token. */
  lemma FastFindsListed(tx: Tx, receipt: Option<Receipt>, tracked: set<string>, contracts: seq<string>)
    requires NodeAnswers(tx, receipt) && Canonical(tracked) && PaysTrackedListed(tx, receipt, tracked, contracts)
    ensures FastFinds(tx, receipt, contracts, tracked)
  {
    hide HexValue, Pow16, Lower, LogHit;
    var a :| a in tracked && PaysListed(tx, receipt, NumberOf(a), contracts);
    if MovesCoin(tx, NumberOf(a)) {
      SameNumber(tx.to.value, a, 40);
    } else {
      var i :| 0 <= i < |receipt.value.logs| && MovesToken(receipt.value.logs[i], NumberOf(a)) && Listed(receipt.value.logs[i], contracts);
      LogHitMeaning(receipt.value.logs[i], contracts, tracked, a);
    }
  }

  /** What the light path looks for: coin in the body, or a Transfer event of a listed contract, to a tracked account. */
  ghost predicate LooksLikePayment(tx: Tx, receipt: Option<Receipt>, tracked: set<string>, contracts: seq<string>)
    requires NodeAnswers(tx, receipt) && Canonical(tracked)
  {
    exists a :: a in tracked &&
      (MovesCoin(tx, NumberOf(a)) ||
       (receipt.Some? && exists i :: 0 <= i < |receipt.value.logs| && NamesAccount(receipt.value.logs[i], contracts, NumberOf(a))))
  }

  predicate NamesAccount(log: Log, contracts: seq<string>, account: nat)
    requires NodeLog(log)
  {
    Listed(log, contracts) && |log.topics| >= 3 && Lower(log.topics[0]) == Lower(TRANSFER_EVENT_TOPIC) && NumberOf(log.topics[2]) == account
  }

  lemma LogHitExactly(log: Log, contracts: seq<string>, tracked: set<string>)
    requires NodeLog(log) && Canonical(tracked) && forall c :: c in contracts ==> IsAddress(c)
    ensures LogHit(log, contracts, tracked) <==> exists a :: a in tracked && NamesAccount(log, contracts, NumberOf(a))
  {
    hide HexValue, Pow16, Lower;
    assert (exists c :: c in contracts && Lower(c) == Lower(log.address)) <==> Listed(log, contracts) by {
      forall c | c in contracts ensures Lower(c) == Lower(log.address) <==> NumberOf(c) == NumberOf(log.address) { SameNumber(c, log.address, 40); }
    }
    if |log.topics| >= 3 {
      forall a | a in tracked ensures Lower(log.topics[2]) == Lower(AddressToTopic(a)) <==> NumberOf(log.topics[2]) == NumberOf(a) {
        TopicOfAddress(a);
        SameNumber(log.topics[2], AddressToTopic(a), 64);
      }
    }
    hide Listed, AddressToTopic;
  }

  /** The light path finds exactly the transactions that look like payments. */
  lemma FastFindsExactly(tx: Tx, receipt: Option<Receipt>, tracked: set<string>, contracts: seq<string>)
    requires NodeAnswers(tx, receipt) && Canonical(tracked) && forall c :: c in contracts ==> IsAddress(c)
    ensures FastFinds(tx, receipt, contracts, tracked) <==> LooksLikePayment(tx, receipt, tracked, contracts)
  {
    hide HexValue, Pow16, Lower, LogHit, NamesAccount, Listed;
    assert NativeHit(tx, tracked) <==> exists a :: a in tracked && MovesCoin(tx, NumberOf(a)) by { NativeHitExactly(tx, tracked); }
    if receipt.Some? {
      forall i | 0 <= i < |receipt.value.logs|
        ensures LogHit(receipt.value.logs[i], contracts, tracked) <==> exists a :: a in tracked && NamesAccount(receipt.value.logs[i], contracts, NumberOf(a))
      {
        LogHitExactly(receipt.value.logs[i], contracts, tracked);
      }
    }
    hide NativeHit, MovesCoin;
  }

  lemma NativeHitExactly(tx: Tx, tracked: set<string>)
    requires NodeTx(tx) && Canonical(tracked)
    ensures NativeHit(tx, tracked) <==> exists a :: a in tracked && MovesCoin(tx, NumberOf(a))
  {
    hide HexValue, Lower;
    if tx.to.Some? {
      LowerPrefixed(tx.to.value, 40);
      forall a | a in tracked ensures NumberOf(tx.to.value) == NumberOf(a) <==> Lower(tx.to.value) == a { SameNumber(tx.to.value, a, 40); }
    }
  }

  /** A payment in the coin or a listed token is found by both paths. */
  lemma BothPathsFind(tx: Tx, receipt: Option<Receipt>, tracked: set<string>, contracts: seq<string>)
    requires NodeAnswers(tx, receipt) && Canonical(tracked) && PaysTrackedListed(tx, receipt, tracked, contracts)
    ensures FastFinds(tx, receipt, contracts, tracked) && Touches(tx, receipt, tracked)
  {
    FastFindsListed(tx, receipt, tracked, contracts);
    GenericFindsExactly(tx, receipt, tracked);
    hide Touches, FastFinds, HexValue, Lower;
    var a :| a in tracked && PaysListed(tx, receipt, NumberOf(a), contracts);
    assert Pays(tx, receipt, NumberOf(a));
  }

  /** Where the paths differ no tracked money is missed: fast-only pays nobody tracked, and
      receipt-only pays in unlisted tokens alone. */
  lemma WherePathsDiffer(tx: Tx, receipt: Option<Receipt>, tracked: set<string>, contracts: seq<string>)
    requires NodeAnswers(tx, receipt) && Canonical(tracked)
    ensures FastFinds(tx, receipt, contracts, tracked) && !Touches(tx, receipt, tracked) ==> !PaysTracked(tx, receipt, tracked)
    ensures Touches(tx, receipt, tracked) && !FastFinds(tx, receipt, contracts, tracked) ==>
              PaysTracked(tx, receipt, tracked) && !PaysTrackedListed(tx, receipt, tracked, contracts)
  {
    GenericFindsExactly(tx, receipt, tracked);
    hide Touches, FastFinds, PaysTracked;
    if PaysTrackedListed(tx, receipt, tracked, contracts) {
      FastFindsListed(tx, receipt, tracked, contracts);
    }
  }
}
