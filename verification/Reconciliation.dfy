/**
 * Balances and incremental reconciliation (packages/ledger/src/balances.ts, reconciliation.ts).
 *
 * `entries` lists the rows in the order in which they became visible, which need not be
 * the order of their sequence numbers.
 */
module Reconciliation {
  import opened Basics
  import opened Ledger

  predicate After(s: nat, since: Option<nat>) {
    match since
    case None => true
    case Some(w) => s > w
  }

  /** Insertion into a list ordered by ascending sequence. */
  function InsertBySequence(rows: seq<Entry>, e: Entry): seq<Entry> {
    if rows == [] || rows[|rows| - 1].sequence <= e.sequence then rows + [e]
    else InsertBySequence(rows[..|rows| - 1], e) + [rows[|rows| - 1]]
  }

  /** `findMany` on one account, strictly after `since`, ordered by ascending sequence. */
  function Rows(entries: seq<Entry>, code: Code, since: Option<nat>): seq<Entry> {
    if entries == [] then []
    else
      var e := entries[|entries| - 1];
      var rest := Rows(entries[..|entries| - 1], code, since);
      if e.account == code && After(e.sequence, since) then InsertBySequence(rest, e) else rest
  }

  function SumSigned(rows: seq<Entry>): int {
    if rows == [] then 0 else SumSigned(rows[..|rows| - 1]) + Signed(rows[|rows| - 1])
  }

  /** The sum of the account's entries with sequence beyond (`beyond`) or up to the watermark. */
  function PartialSum(entries: seq<Entry>, code: Code, mark: Option<nat>, beyond: bool): int {
    if entries == [] then 0
    else
      var e := entries[|entries| - 1];
      PartialSum(entries[..|entries| - 1], code, mark, beyond) +
      if e.account == code && After(e.sequence, mark) == beyond then Signed(e) else 0
  }

  function Watermark(rows: seq<Entry>, since: Option<nat>): Option<nat> {
    if rows == [] then since else Some(rows[|rows| - 1].sequence)
  }

  datatype Result = Result(account: Account, matched: bool, refreshed: int, computed: int)

  /** One `reconcileAccount`: compare the advanced cache with the full sum, refresh only on agreement. */
  function Reconcile(account: Account, entries: seq<Entry>, code: Code): Result {
    var rows := Rows(entries, code, account.cachedThroughSeq);
    var refreshed := account.cachedBalance + SumSigned(rows);
    var computed := SumSigned(Rows(entries, code, None));
    var matched := refreshed == computed;
    Result(if matched then account.(cachedBalance := refreshed,
                                    cachedThroughSeq := Watermark(rows, account.cachedThroughSeq))
           else account,
           matched, refreshed, computed)
  }

  /** The cache tells the truth: it is the exact sum of the entries up to its watermark. */
  ghost predicate Honest(account: Account, entries: seq<Entry>, code: Code) {
    account.cachedBalance == PartialSum(entries, code, account.cachedThroughSeq, false)
  }

  // ---------------------------------------------------------------- sums of queries

  lemma {:induction false} InsertSum(rows: seq<Entry>, e: Entry)
    ensures SumSigned(InsertBySequence(rows, e)) == SumSigned(rows) + Signed(e)
  {
    if rows == [] || rows[|rows| - 1].sequence <= e.sequence {
      assert (rows + [e])[..|rows|] == rows;
    } else {
      var init, last := rows[..|rows| - 1], rows[|rows| - 1];
      InsertSum(init, e);
      assert (InsertBySequence(init, e) + [last])[..|InsertBySequence(init, e)|] == InsertBySequence(init, e);
    }
  }

  lemma {:induction false} InsertContents(rows: seq<Entry>, e: Entry)
    ensures InsertBySequence(rows, e) != []
    ensures forall x :: x in InsertBySequence(rows, e) <==> x in rows || x == e
    ensures var r := InsertBySequence(rows, e);
            r[|r| - 1].sequence == if rows == [] || rows[|rows| - 1].sequence <= e.sequence
                                   then e.sequence else rows[|rows| - 1].sequence
  {
    if rows != [] && rows[|rows| - 1].sequence > e.sequence {
      InsertContents(rows[..|rows| - 1], e);
      assert rows == rows[..|rows| - 1] + [rows[|rows| - 1]];
    }
  }

  /** The query returns exactly the account's later entries, and its last row carries the greatest sequence. */
  lemma {:induction false} RowsMeaning(entries: seq<Entry>, code: Code, since: Option<nat>)
    ensures forall x :: x in Rows(entries, code, since) <==> x in entries && x.account == code && After(x.sequence, since)
    ensures var r := Rows(entries, code, since);
            forall x :: x in r ==> x.sequence <= r[|r| - 1].sequence
  {
    if entries != [] {
      var init, e := entries[..|entries| - 1], entries[|entries| - 1];
      RowsMeaning(init, code, since);
      assert entries == init + [e];
      if e.account == code && After(e.sequence, since) {
        InsertContents(Rows(init, code, since), e);
      }
    }
  }

  lemma {:induction false} RowsSum(entries: seq<Entry>, code: Code, since: Option<nat>)
    ensures SumSigned(Rows(entries, code, since)) == PartialSum(entries, code, since, true)
  {
    if entries != [] {
      var init, e := entries[..|entries| - 1], entries[|entries| - 1];
      RowsSum(init, code, since);
      if e.account == code && After(e.sequence, since) {
        InsertSum(Rows(init, code, since), e);
      }
    }
  }

  lemma {:induction false} SplitAtMark(entries: seq<Entry>, code: Code, mark: Option<nat>)
    ensures PartialSum(entries, code, mark, true) + PartialSum(entries, code, mark, false) == Balance(entries, code)
    ensures mark == None ==> PartialSum(entries, code, mark, true) == Balance(entries, code)
  {
    if entries != [] {
      SplitAtMark(entries[..|entries| - 1], code, mark);
    }
  }

  /** A mark no entry lies beyond leaves nothing after it. */
  lemma {:induction false} NothingBeyond(entries: seq<Entry>, code: Code, mark: Option<nat>)
    requires forall x :: x in entries && x.account == code ==> !After(x.sequence, mark)
    ensures PartialSum(entries, code, mark, true) == 0
  {
    if entries != [] {
      assert entries[|entries| - 1] in entries;
      assert forall x :: x in entries[..|entries| - 1] ==> x in entries;
      NothingBeyond(entries[..|entries| - 1], code, mark);
    }
  }

  /** `computeAccountBalance` is the sum of all the account's entries. */
  lemma ComputedIsBalance(account: Account, entries: seq<Entry>, code: Code)
    ensures Reconcile(account, entries, code).computed == Balance(entries, code)
  {
    RowsSum(entries, code, None);
    SplitAtMark(entries, code, None);
  }

  // ---------------------------------------------------------------- exactness of the check

  /** A pass matches exactly when the cache is the true sum up to its watermark. */
  lemma MatchedIffHonest(account: Account, entries: seq<Entry>, code: Code)
    ensures Reconcile(account, entries, code).matched <==> Honest(account, entries, code)
  {
    RowsSum(entries, code, account.cachedThroughSeq);
    ComputedIsBalance(account, entries, code);
    SplitAtMark(entries, code, account.cachedThroughSeq);
  }

  /** A pass never changes an account's honesty; on a match the refreshed cache is the full balance. */
  lemma ReconcileKeepsHonesty(account: Account, entries: seq<Entry>, code: Code)
    ensures Honest(Reconcile(account, entries, code).account, entries, code) <==> Honest(account, entries, code)
    ensures Honest(account, entries, code) ==>
              Reconcile(account, entries, code).account.cachedBalance == Balance(entries, code)
    ensures !Honest(account, entries, code) ==> Reconcile(account, entries, code).account == account
  {
    MatchedIffHonest(account, entries, code);
    if Honest(account, entries, code) {
      var since := account.cachedThroughSeq;
      var rows := Rows(entries, code, since);
      var mark := Watermark(rows, since);
      RowsMeaning(entries, code, since);
      forall x | x in entries && x.account == code
        ensures !After(x.sequence, mark)
      {
        if After(x.sequence, since) { assert x in rows; }
        else if rows != [] { assert After(rows[|rows| - 1].sequence, since); }
      }
      NothingBeyond(entries, code, mark);
      SplitAtMark(entries, code, mark);
      ComputedIsBalance(account, entries, code);
    }
  }

  lemma PartialAppend(entries: seq<Entry>, e: Entry, code: Code, mark: Option<nat>, beyond: bool)
    ensures PartialSum(entries + [e], code, mark, beyond) == PartialSum(entries, code, mark, beyond) +
            if e.account == code && After(e.sequence, mark) == beyond then Signed(e) else 0
  {
    assert (entries + [e])[..|entries|] == entries;
  }

  /**
   * A newly visible entry keeps the account's honesty, both ways, exactly when it does not land
   * at or below the watermark: an honest cache behind which an entry surfaces late is misreported.
   */
  lemma LateEntryBreaksHonesty(account: Account, entries: seq<Entry>, e: Entry, code: Code)
    requires e.amount > 0
    ensures e.account == code && !After(e.sequence, account.cachedThroughSeq) ==>
              !(Honest(account, entries, code) && Honest(account, entries + [e], code))
    ensures e.account != code || After(e.sequence, account.cachedThroughSeq) ==>
              (Honest(account, entries + [e], code) <==> Honest(account, entries, code))
  {
    PartialAppend(entries, e, code, account.cachedThroughSeq, false);
  }

  // ---------------------------------------------------------------- whole runs

  datatype Op = Visible(e: Entry) | Pass(code: Code)

  datatype Books = Books(accounts: map<Code, Account>, entries: seq<Entry>)

  /** The entry surfaces beyond its account's watermark: visibility follows sequence order per account. */
  predicate InOrder(b: Books, op: Op) {
    match op
    case Visible(e) => e.amount > 0 && (e.account in b.accounts ==> After(e.sequence, b.accounts[e.account].cachedThroughSeq))
    case Pass(code) => code in b.accounts
  }

  function Apply(b: Books, op: Op): Books {
    match op
    case Visible(e) => b.(entries := b.entries + [e])
    case Pass(code) =>
      if code in b.accounts then b.(accounts := b.accounts[code := Reconcile(b.accounts[code], b.entries, code).account]) else b
  }

  function RunOps(b: Books, ops: seq<Op>): Books {
    if ops == [] then b else Apply(RunOps(b, ops[..|ops| - 1]), ops[|ops| - 1])
  }

  ghost predicate OrderedRun(b: Books, ops: seq<Op>) {
    forall i :: 0 <= i < |ops| ==> InOrder(RunOps(b, ops[..i]), ops[i])
  }

  lemma ApplyKeepsHonesty(b: Books, op: Op, code: Code)
    requires code in b.accounts && InOrder(b, op)
    ensures code in Apply(b, op).accounts
    ensures Honest(Apply(b, op).accounts[code], Apply(b, op).entries, code) <==> Honest(b.accounts[code], b.entries, code)
    ensures !Honest(b.accounts[code], b.entries, code) ==> Apply(b, op).accounts[code] == b.accounts[code]
  {
    match op
    case Visible(e) => LateEntryBreaksHonesty(b.accounts[code], b.entries, e, code);
    case Pass(c) => ReconcileKeepsHonesty(b.accounts[c], b.entries, c);
  }

  /**
   * Over any in-order mix of postings and passes: an honest account is reported clean by every
   * pass, and a tampered one is reported by every pass and its cache is never overwritten.
   */
  lemma {:induction false} PassesTellTheTruth(b: Books, ops: seq<Op>, code: Code)
    requires code in b.accounts && OrderedRun(b, ops)
    ensures code in RunOps(b, ops).accounts
    ensures var b' := RunOps(b, ops);
            && (Reconcile(b'.accounts[code], b'.entries, code).matched <==> Honest(b.accounts[code], b.entries, code))
            && (Honest(b'.accounts[code], b'.entries, code) <==> Honest(b.accounts[code], b.entries, code))
            && (!Honest(b.accounts[code], b.entries, code) ==> b'.accounts[code] == b.accounts[code])
  {
    if ops == [] {
      MatchedIffHonest(b.accounts[code], b.entries, code);
    } else {
      var init := ops[..|ops| - 1];
      assert OrderedRun(b, init) by {
        forall i | 0 <= i < |init| ensures InOrder(RunOps(b, init[..i]), init[i]) {
          assert init[..i] == ops[..i] && init[i] == ops[i];
        }
      }
      PassesTellTheTruth(b, init, code);
      ApplyKeepsHonesty(RunOps(b, init), ops[|ops| - 1], code);
      var b' := RunOps(b, ops);
      MatchedIffHonest(b'.accounts[code], b'.entries, code);
    }
  }

  // ---------------------------------------------------------------- out of order, exactly

  /** How far the cache is from the true sum up to its watermark; an honest cache has no drift. */
  function Drift(account: Account, entries: seq<Entry>, code: Code): int {
    account.cachedBalance - PartialSum(entries, code, account.cachedThroughSeq, false)
  }

  /** What the operation makes visible at or below the account's watermark. */
  function Late(b: Books, op: Op, code: Code): int {
    if op.Visible? && op.e.account == code && code in b.accounts && !After(op.e.sequence, b.accounts[code].cachedThroughSeq)
    then Signed(op.e) else 0
  }

  function LateSum(b: Books, ops: seq<Op>, code: Code): int {
    if ops == [] then 0
    else LateSum(b, ops[..|ops| - 1], code) + Late(RunOps(b, ops[..|ops| - 1]), ops[|ops| - 1], code)
  }

  lemma OpDrift(b: Books, op: Op, code: Code)
    requires code in b.accounts
    ensures code in Apply(b, op).accounts
    ensures Drift(Apply(b, op).accounts[code], Apply(b, op).entries, code) == Drift(b.accounts[code], b.entries, code) - Late(b, op, code)
  {
    match op
    case Visible(e) => PartialAppend(b.entries, e, code, b.accounts[code].cachedThroughSeq, false);
    case Pass(c) => if c == code { ReconcileKeepsHonesty(b.accounts[c], b.entries, c); }
  }

  /** Along any run, in order or not, the cache drifts by exactly what surfaced late; passes never change the drift. */
  lemma {:induction false} DriftLaw(b: Books, ops: seq<Op>, code: Code)
    requires code in b.accounts
    ensures code in RunOps(b, ops).accounts
    ensures Drift(RunOps(b, ops).accounts[code], RunOps(b, ops).entries, code) == Drift(b.accounts[code], b.entries, code) - LateSum(b, ops, code)
  {
    hide Apply, Drift, Late;
    if ops != [] {
      DriftLaw(b, ops[..|ops| - 1], code);
      OpDrift(RunOps(b, ops[..|ops| - 1]), ops[|ops| - 1], code);
    }
  }

  /** So a check after any run of an honest cache matches if and only if what surfaced late cancels out. */
  lemma MatchesExactly(b: Books, ops: seq<Op>, code: Code)
    requires code in b.accounts && Honest(b.accounts[code], b.entries, code)
    ensures code in RunOps(b, ops).accounts
    ensures Reconcile(RunOps(b, ops).accounts[code], RunOps(b, ops).entries, code).matched <==> LateSum(b, ops, code) == 0
  {
    DriftLaw(b, ops, code);
    MatchedIffHonest(RunOps(b, ops).accounts[code], RunOps(b, ops).entries, code);
    hide RunOps, Reconcile;
  }

  /** A fresh account (zero cache, no watermark) is honest whatever entries it already has. */
  lemma {:induction false} FreshIsHonest(entries: seq<Entry>, code: Code, decimals: int)
    ensures Honest(Account(decimals, 0, None), entries, code)
  {
    if entries != [] { FreshIsHonest(entries[..|entries| - 1], code, decimals); }
  }

  /** An out-of-order surfacing that makes a clean account look imbalanced. */
  lemma OutOfOrderCounterexample()
    ensures exists account: Account, entries: seq<Entry>, e: Entry, code: Code ::
              && Honest(account, entries, code) && e.account == code && e.amount > 0
              && Reconcile(account, entries, code).matched
              && !Reconcile(account, entries + [e], code).matched
  {
    var code := Code(MERCHANT_HOLDINGS, Some(0), 0, 0);
    var key := TransferKey(0, 0, 0);
    var late := Entry(1, key, 0, code, DEBIT, 5);
    var early := Entry(2, key, 0, code, DEBIT, 7);
    var account := Account(6, 7, Some(2));
    assert PartialSum([early], code, Some(2), false) == 7 by {
      assert [early][..0] == [];
    }
    MatchedIffHonest(account, [early], code);
    LateEntryBreaksHonesty(account, [early], late, code);
    MatchedIffHonest(account, [early] + [late], code);
  }

  // ---------------------------------------------------------------- the ledger's own postings

  datatype BookOp = Post(p: CreditParams) | Check(code: Code)

  function ApplyToBook(b: Book, op: BookOp): Book {
    match op
    case Post(p) => (match PostCredit(b, p) case Commit(posting) => posting.book case Abort => b)
    case Check(code) =>
      if code in b.accounts then b.(accounts := b.accounts[code := Reconcile(b.accounts[code], b.entries, code).account]) else b
  }

  function RunBook(ops: seq<BookOp>): Book {
    if ops == [] then EMPTY_BOOK else ApplyToBook(RunBook(ops[..|ops| - 1]), ops[|ops| - 1])
  }

  /** Sequence numbers so far, in entries and in watermarks, are below the next one. */
  ghost predicate Numbered(b: Book) {
    && (forall i :: 0 <= i < |b.entries| ==> b.entries[i].sequence < b.nextSequence)
    && (forall c :: c in b.accounts && b.accounts[c].cachedThroughSeq.Some? ==> b.accounts[c].cachedThroughSeq.value < b.nextSequence)
  }

  ghost predicate AllHonest(b: Book) {
    forall c :: c in b.accounts ==> Honest(b.accounts[c], b.entries, c)
  }

  lemma {:induction false} LaterEntriesKeepHonesty(account: Account, entries: seq<Entry>, more: seq<Entry>, code: Code)
    requires forall i :: 0 <= i < |more| ==> After(more[i].sequence, account.cachedThroughSeq)
    ensures Honest(account, entries + more, code) <==> Honest(account, entries, code)
    decreases |more|
  {
    if more == [] {
      assert entries + more == entries;
    } else {
      var init, e := more[..|more| - 1], more[|more| - 1];
      LaterEntriesKeepHonesty(account, entries, init, code);
      assert entries + more == (entries + init) + [e];
      PartialAppend(entries + init, e, code, account.cachedThroughSeq, false);
    }
  }

  lemma PostKeepsHonesty(b: Book, p: CreditParams)
    requires Numbered(b) && AllHonest(b) && PostCredit(b, p).Commit? && !Posted(b.txs, p.key)
    ensures var b' := PostCredit(b, p).value.book; Numbered(b') && AllHonest(b')
  {
    hide Honest, Fee, Posted, LegsAccepted;
    var b' := PostCredit(b, p).value.book;
    var legs := Legs(p, b.nextSequence);
    assert b'.entries == b.entries + legs && b'.nextSequence == b.nextSequence + |legs|;
    forall c | c in b'.accounts
      ensures Honest(b'.accounts[c], b'.entries, c)
      ensures b'.accounts[c].cachedThroughSeq.Some? ==> b'.accounts[c].cachedThroughSeq.value < b.nextSequence
    {
      if c in b.accounts {
        assert b'.accounts[c] == b.accounts[c];
        LaterEntriesKeepHonesty(b.accounts[c], b.entries, legs, c);
      } else {
        assert b'.accounts[c] == Account(p.decimals, 0, None);
        FreshIsHonest(b'.entries, c, p.decimals);
      }
    }
  }

  lemma CheckKeepsHonesty(b: Book, code: Code)
    requires Numbered(b) && AllHonest(b) && code in b.accounts
    ensures var b' := ApplyToBook(b, Check(code)); Numbered(b') && AllHonest(b')
  {
    ReconcileKeepsHonesty(b.accounts[code], b.entries, code);
    RowsMeaning(b.entries, code, b.accounts[code].cachedThroughSeq);
    var rows := Rows(b.entries, code, b.accounts[code].cachedThroughSeq);
    if rows != [] { assert rows[|rows| - 1] in b.entries; }
    hide Honest, Rows;
  }

  /** Any mix of the ledger's postings, refused ones included, and checks: every cache is honest and every check clean. */
  lemma {:induction false} LedgerChecksAreClean(ops: seq<BookOp>)
    ensures Numbered(RunBook(ops)) && AllHonest(RunBook(ops))
    ensures forall c :: c in RunBook(ops).accounts ==>
              var r := Reconcile(RunBook(ops).accounts[c], RunBook(ops).entries, c);
              r.matched && r.account.cachedBalance == Balance(RunBook(ops).entries, c)
  {
    if ops != [] {
      var b, op := RunBook(ops[..|ops| - 1]), ops[|ops| - 1];
      LedgerChecksAreClean(ops[..|ops| - 1]);
      hide Numbered, AllHonest, Reconcile;
      match op
      case Post(p) => if PostCredit(b, p).Commit? && !Posted(b.txs, p.key) { PostKeepsHonesty(b, p); }
      case Check(code) => if code in b.accounts { CheckKeepsHonesty(b, code); }
    }
    forall c | c in RunBook(ops).accounts
      ensures var r := Reconcile(RunBook(ops).accounts[c], RunBook(ops).entries, c);
              r.matched && r.account.cachedBalance == Balance(RunBook(ops).entries, c)
    {
      HonestIsClean(RunBook(ops), c);
    }
  }

  lemma HonestIsClean(b: Book, c: Code)
    requires AllHonest(b) && c in b.accounts
    ensures var r := Reconcile(b.accounts[c], b.entries, c);
            r.matched && r.account.cachedBalance == Balance(b.entries, c)
  {
    MatchedIffHonest(b.accounts[c], b.entries, c);
    ReconcileKeepsHonesty(b.accounts[c], b.entries, c);
  }
}
