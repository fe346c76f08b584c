/**
 * The signing policy engine (packages/signing/src/policy-signing-service.ts, spend-tracker.ts,
 * approval-store.ts): a rolling spend ceiling and an approval state machine in front of a signer.
 */
module Signing {
  import opened Basics
  import opened Text

  type RequestId = nat
  type User = nat

  datatype Request = Request(
    id: RequestId, merchant: MerchantId, network: Network, to: string, amount: int, requester: User, at: Time)

  /** Which spend tracker the service is built with. */
  datatype Tracker = InMemory | Database

  /** The policy, with `window` the trailing window in milliseconds, and the tracker beside it. */
  datatype Policy = Policy(allowed: set<string>, maxPerTx: int, maxPerWindow: int, window: int, required: int, tracker: Tracker)

  datatype Status = PENDING_APPROVAL | SIGNED | REJECTED
  datatype Pending = Pending(request: Request, status: Status, approvals: seq<User>)
  datatype Entry = Entry(merchant: MerchantId, network: Network, amount: int, at: Time)
  datatype AuditKind = Submitted | Approved | Rejected | Signed | ValidationFailed | SignFailed
  datatype Audit = Audit(id: RequestId, kind: AuditKind, actor: User)

  datatype Answer =
    | SignedNow
    | Waiting(pending: Pending)
    | Unknown
    | AlreadyDecided
    | SelfApproval
    | NotAllowed
    | OverCeiling
    | BackendFailed

  /** Spend log, approval store (with its insertion order) and audit trail. */
  datatype Desk = Desk(entries: seq<Entry>, order: seq<RequestId>, byId: map<RequestId, Pending>, audit: seq<Audit>)

  datatype Op =
    | Submit(request: Request, backendSigns: bool)
    | Approve(id: RequestId, approver: User, backendSigns: bool)
    | Reject(id: RequestId, actor: User)

  // ---------------------------------------------------------------- spend

  predicate Of(e: Entry, m: MerchantId, n: Network) {
    e.merchant == m && e.network == n
  }

  /** Everything signed later than the cutoff, however late. */
  function TotalAfter(entries: seq<Entry>, m: MerchantId, n: Network, cutoff: Time): int {
    if entries == [] then 0
    else
      var e := entries[|entries| - 1];
      TotalAfter(entries[..|entries| - 1], m, n, cutoff) + if Of(e, m, n) && e.at > cutoff then e.amount else 0
  }

  /** What was signed for the merchant and network in the interval (lo, hi]. */
  function SpentIn(entries: seq<Entry>, m: MerchantId, n: Network, lo: Time, hi: Time): int {
    if entries == [] then 0
    else
      var e := entries[|entries| - 1];
      SpentIn(entries[..|entries| - 1], m, n, lo, hi) + if Of(e, m, n) && lo < e.at <= hi then e.amount else 0
  }

  /** `windowTotal`: the in-memory tracker has no upper end, the database one ends at the request's date. */
  function WindowTotal(p: Policy, entries: seq<Entry>, m: MerchantId, n: Network, asOf: Time): int {
    match p.tracker
    case InMemory => TotalAfter(entries, m, n, asOf - p.window)
    case Database => SpentIn(entries, m, n, asOf - p.window, asOf)
  }

  predicate WithinCeilings(p: Policy, d: Desk, r: Request) {
    && r.amount <= p.maxPerTx
    && WindowTotal(p, d.entries, r.merchant, r.network, r.at) + r.amount <= p.maxPerWindow
  }

  predicate DestinationAllowed(p: Policy, r: Request) {
    Lower(r.to) in p.allowed
  }

  // ---------------------------------------------------------------- the operations

  function Log(d: Desk, id: RequestId, kind: AuditKind, actor: User): Desk {
    d.(audit := d.audit + [Audit(id, kind, actor)])
  }

  function Save(d: Desk, x: Pending): Desk {
    var id := x.request.id;
    d.(byId := d.byId[id := x], order := if id in d.byId then d.order else d.order + [id])
  }

  /** Sign, record the spend, store the decision; a failing backend leaves only an audit event. */
  function Finalize(d: Desk, r: Request, approvals: seq<User>, backendSigns: bool): (Desk, Answer) {
    if !backendSigns then (Log(d, r.id, SignFailed, r.requester), BackendFailed)
    else
      var spent := d.(entries := d.entries + [Entry(r.merchant, r.network, r.amount, r.at)]);
      (Log(Save(spent, Pending(r, SIGNED, approvals)), r.id, Signed, r.requester), SignedNow)
  }

  function SubmitTo(p: Policy, d: Desk, r: Request, backendSigns: bool): (Desk, Answer) {
    var noted := Log(d, r.id, Submitted, r.requester);
    if !DestinationAllowed(p, r) then (Log(noted, r.id, ValidationFailed, r.requester), NotAllowed)
    else if !WithinCeilings(p, d, r) then (Log(noted, r.id, ValidationFailed, r.requester), OverCeiling)
    else if p.required <= 1 then Finalize(noted, r, [r.requester], backendSigns)
    else var x := Pending(r, PENDING_APPROVAL, []); (Save(noted, x), Waiting(x))
  }

  function ApproveAt(p: Policy, d: Desk, id: RequestId, approver: User, backendSigns: bool): (Desk, Answer) {
    if id !in d.byId then (d, Unknown)
    else
      var x := d.byId[id];
      if x.status != PENDING_APPROVAL then (d, AlreadyDecided)
      else if x.request.requester == approver then (d, SelfApproval)
      else if approver in x.approvals then (d, Waiting(x))
      else
        var approvals := x.approvals + [approver];
        var noted := Log(d, id, Approved, approver);
        if |approvals| >= p.required then
          if !WithinCeilings(p, d, x.request) then (Log(noted, id, ValidationFailed, approver), OverCeiling)
          else Finalize(noted, x.request, approvals, backendSigns)
        else var y := x.(approvals := approvals); (Save(noted, y), Waiting(y))
  }

  function RejectAt(d: Desk, id: RequestId, actor: User): (Desk, Answer) {
    if id !in d.byId then (d, Unknown)
    else
      var x := d.byId[id];
      if x.status != PENDING_APPROVAL then (d, AlreadyDecided)
      else var y := x.(status := REJECTED); (Log(Save(d, y), id, Rejected, actor), Waiting(y))
  }

  function Apply(p: Policy, d: Desk, op: Op): Desk {
    match op
    case Submit(r, signs) => SubmitTo(p, d, r, signs).0
    case Approve(id, approver, signs) => ApproveAt(p, d, id, approver, signs).0
    case Reject(id, actor) => RejectAt(d, id, actor).0
  }

  function Run(p: Policy, ops: seq<Op>): Desk {
    if ops == [] then Desk([], [], map[], [])
    else Apply(p, Run(p, ops[..|ops| - 1]), ops[|ops| - 1])
  }

  class PolicyEnforcingSigningService {
    const policy: Policy
    var entries: seq<Entry>
    var order: seq<RequestId>
    var byId: map<RequestId, Pending>
    var audit: seq<Audit>

    function Value(): Desk
      reads this
    {
      Desk(entries, order, byId, audit)
    }

    constructor (policy: Policy)
      ensures this.policy == policy && Value() == Run(policy, [])
    {
      this.policy := policy;
      entries, order, byId, audit := [], [], map[], [];
    }

    method RecordAudit(id: RequestId, kind: AuditKind, actor: User)
      modifies this`audit
      ensures Value() == Log(old(Value()), id, kind, actor)
    {
      audit := audit + [Audit(id, kind, actor)];
    }

    method SaveApproval(x: Pending)
      modifies this`order, this`byId
      ensures Value() == Save(old(Value()), x)
    {
      if x.request.id !in byId { order := order + [x.request.id]; }
      byId := byId[x.request.id := x];
    }

    method FinalizeAndSign(r: Request, approvals: seq<User>, backendSigns: bool) returns (answer: Answer)
      modifies this
      ensures (Value(), answer) == Finalize(old(Value()), r, approvals, backendSigns)
    {
      if !backendSigns {
        RecordAudit(r.id, SignFailed, r.requester);
        return BackendFailed;
      }
      entries := entries + [Entry(r.merchant, r.network, r.amount, r.at)];
      SaveApproval(Pending(r, SIGNED, approvals));
      RecordAudit(r.id, Signed, r.requester);
      return SignedNow;
    }

    method SubmitRequest(r: Request, backendSigns: bool) returns (answer: Answer)
      modifies this
      ensures (Value(), answer) == SubmitTo(policy, old(Value()), r, backendSigns)
    {
      RecordAudit(r.id, Submitted, r.requester);
      if !DestinationAllowed(policy, r) {
        RecordAudit(r.id, ValidationFailed, r.requester);
        return NotAllowed;
      }
      if !WithinCeilings(policy, Value(), r) {
        RecordAudit(r.id, ValidationFailed, r.requester);
        return OverCeiling;
      }
      if policy.required <= 1 {
        answer := FinalizeAndSign(r, [r.requester], backendSigns);
        return;
      }
      var pending := Pending(r, PENDING_APPROVAL, []);
      SaveApproval(pending);
      return Waiting(pending);
    }

    method ApproveRequest(id: RequestId, approver: User, backendSigns: bool) returns (answer: Answer)
      modifies this
      ensures (Value(), answer) == ApproveAt(policy, old(Value()), id, approver, backendSigns)
    {
      if id !in byId { return Unknown; }
      var pending := byId[id];
      if pending.status != PENDING_APPROVAL { return AlreadyDecided; }
      if pending.request.requester == approver { return SelfApproval; }
      if approver in pending.approvals { return Waiting(pending); }
      var approvals := pending.approvals + [approver];
      RecordAudit(id, Approved, approver);
      if |approvals| >= policy.required {
        if !WithinCeilings(policy, Value(), pending.request) {
          RecordAudit(id, ValidationFailed, approver);
          return OverCeiling;
        }
        answer := FinalizeAndSign(pending.request, approvals, backendSigns);
        return;
      }
      var updated := pending.(approvals := approvals);
      SaveApproval(updated);
      return Waiting(updated);
    }

    method RejectRequest(id: RequestId, actor: User) returns (answer: Answer)
      modifies this
      ensures (Value(), answer) == RejectAt(old(Value()), id, actor)
    {
      if id !in byId { return Unknown; }
      var pending := byId[id];
      if pending.status != PENDING_APPROVAL { return AlreadyDecided; }
      var updated := pending.(status := REJECTED);
      SaveApproval(updated);
      RecordAudit(id, Rejected, actor);
      return Waiting(updated);
    }
  }

  // ---------------------------------------------------------------- the rolling window

  /** The operation appended one spend entry, that of a request within its ceilings, or none. */
  predicate SpendsAtMostOnce(p: Policy, d: Desk, d': Desk) {
    d'.entries == d.entries ||
    (|d'.entries| == |d.entries| + 1 && d'.entries[..|d.entries|] == d.entries &&
     var e := d'.entries[|d.entries|];
     e.amount <= p.maxPerTx && WindowTotal(p, d.entries, e.merchant, e.network, e.at) + e.amount <= p.maxPerWindow)
  }

  lemma OneEntryPerOp(p: Policy, d: Desk, op: Op)
    ensures SpendsAtMostOnce(p, d, Apply(p, d, op))
  {
    hide WindowTotal;
  }

  /** Amounts the API lets through are non-negative. */
  predicate NonNegative(ops: seq<Op>) {
    forall i :: 0 <= i < |ops| && ops[i].Submit? ==> ops[i].request.amount >= 0
  }

  predicate EntriesNonNegative(entries: seq<Entry>) {
    forall i :: 0 <= i < |entries| ==> entries[i].amount >= 0
  }

  predicate StoreNonNegative(d: Desk) {
    forall id :: id in d.byId ==> d.byId[id].request.amount >= 0
  }

  lemma OpKeepsNonNegative(p: Policy, d: Desk, op: Op)
    requires StoreNonNegative(d) && EntriesNonNegative(d.entries) && (op.Submit? ==> op.request.amount >= 0)
    ensures StoreNonNegative(Apply(p, d, op)) && EntriesNonNegative(Apply(p, d, op).entries)
  {
    hide TotalAfter;
  }

  lemma {:induction false} IntervalWithinTail(entries: seq<Entry>, m: MerchantId, n: Network, cutoff: Time, lo: Time, hi: Time)
    requires EntriesNonNegative(entries) && cutoff <= lo
    ensures SpentIn(entries, m, n, lo, hi) <= TotalAfter(entries, m, n, cutoff)
  {
    if entries != [] {
      IntervalWithinTail(entries[..|entries| - 1], m, n, cutoff, lo, hi);
    }
  }

  lemma {:induction false} RunNonNegative(p: Policy, ops: seq<Op>)
    requires NonNegative(ops)
    ensures StoreNonNegative(Run(p, ops)) && EntriesNonNegative(Run(p, ops).entries)
  {
    hide Apply;
    if ops != [] {
      RunNonNegative(p, ops[..|ops| - 1]);
      OpKeepsNonNegative(p, Run(p, ops[..|ops| - 1]), ops[|ops| - 1]);
    }
  }

  /**
   * In every window, sliding anywhere, the amount signed for a merchant and network stays within the
   * ceiling, in whatever order requests were dated, submitted and approved.
   */
  lemma {:induction false} WindowNeverExceeded(p: Policy, ops: seq<Op>, m: MerchantId, n: Network, t: Time)
    requires NonNegative(ops) && p.maxPerWindow >= 0 && p.tracker.InMemory?
    ensures SpentIn(Run(p, ops).entries, m, n, t - p.window, t) <= p.maxPerWindow
    decreases |ops|
  {
    hide Apply, TotalAfter;
    if ops != [] {
      var d := Run(p, ops[..|ops| - 1]);
      var d' := Run(p, ops);
      WindowNeverExceeded(p, ops[..|ops| - 1], m, n, t);
      RunNonNegative(p, ops[..|ops| - 1]);
      OneEntryPerOp(p, d, ops[|ops| - 1]);
      if d'.entries != d.entries {
        var e := d'.entries[|d.entries|];
        if e.at <= t {
          IntervalWithinTail(d.entries, m, n, e.at - p.window, t - p.window, t);
        }
      }
    }
  }

  /** The hypothesis matters: a negative amount dated later frees the ceiling for an earlier window. */
  lemma NegativeAmountBreaksWindow()
    ensures exists p: Policy, ops: seq<Op> ::
              p.tracker.InMemory? && p.maxPerWindow >= 0 && SpentIn(Run(p, ops).entries, 1, 1, 9 - p.window, 9) > p.maxPerWindow
  {
    var p := Policy({"a"}, 100, 10, 10, 1, InMemory);
    var r1 := Request(1, 1, 1, "a", 10, 7, 5);
    var r2 := Request(2, 1, 1, "a", -10, 7, 20);
    var r3 := Request(3, 1, 1, "a", 10, 7, 9);
    assert Lower("a") == "a";
    assert Run(p, []).entries == [];
    hide Lower, TotalAfter, SpentIn, Apply, Run;
    RefundedSpend();
    var d1 := SignsNext(p, [], r1);
    assert Run(p, d1).entries == [Entry(1, 1, 10, 5)];
    var d2 := SignsNext(p, d1, r2);
    assert Run(p, d2).entries == [Entry(1, 1, 10, 5), Entry(1, 1, -10, 20)];
    var d3 := SignsNext(p, d2, r3);
    assert Run(p, d3).entries == [Entry(1, 1, 10, 5), Entry(1, 1, -10, 20), Entry(1, 1, 10, 9)];
  }

  lemma SignsNext(p: Policy, ops: seq<Op>, r: Request) returns (longer: seq<Op>)
    requires p.required <= 1 && DestinationAllowed(p, r) && WithinCeilings(p, Run(p, ops), r)
    ensures Run(p, longer).entries == Run(p, ops).entries + [Entry(r.merchant, r.network, r.amount, r.at)]
  {
    longer := ops + [Submit(r, true)];
    assert longer[..|longer| - 1] == ops;
    SignsAtOnce(p, Run(p, ops), r);
  }

  lemma RefundedSpend()
    ensures var e1, e2, e3 := Entry(1, 1, 10, 5), Entry(1, 1, -10, 20), Entry(1, 1, 10, 9);
            && TotalAfter([], 1, 1, -5) == 0 && TotalAfter([e1], 1, 1, 10) == 0 && TotalAfter([e1, e2], 1, 1, -1) == 0
            && SpentIn([e1, e2, e3], 1, 1, -1, 9) == 20
  {
    var e1, e2, e3 := Entry(1, 1, 10, 5), Entry(1, 1, -10, 20), Entry(1, 1, 10, 9);
    assert [e1][..0] == [];
    assert [e1, e2][..1] == [e1];
    assert [e1, e2, e3][..2] == [e1, e2];
    assert TotalAfter([e1], 1, 1, -1) == 10;
    assert SpentIn([e1], 1, 1, -1, 9) == 10;
    assert SpentIn([e1, e2], 1, 1, -1, 9) == 10;
  }

  lemma SignsAtOnce(p: Policy, d: Desk, r: Request)
    ensures p.required <= 1 && DestinationAllowed(p, r) && WithinCeilings(p, d, r) ==>
              Apply(p, d, Submit(r, true)).entries == d.entries + [Entry(r.merchant, r.network, r.amount, r.at)]
  {
    hide DestinationAllowed, WithinCeilings;
  }

  // ---------------------------------------------------------------- the database tracker

  /** Every window of every merchant and network is within the ceiling. */
  ghost predicate AllWithin(p: Policy, entries: seq<Entry>) {
    forall m: MerchantId, n: Network, t: Time :: Within(p, entries, m, n, t)
  }

  /** The window ending at t is within the ceiling. */
  predicate Within(p: Policy, entries: seq<Entry>, m: MerchantId, n: Network, t: Time) {
    SpentIn(entries, m, n, t - p.window, t) <= p.maxPerWindow
  }

  /** The window ending at s has room for the amount of e. */
  predicate Room(p: Policy, entries: seq<Entry>, e: Entry, s: Time) {
    SpentIn(entries, e.merchant, e.network, s - p.window, s) + e.amount <= p.maxPerWindow
  }

  /** Spend already recorded with a later date, less than a window after e, leaves room for e too. */
  predicate LaterRoom(p: Policy, entries: seq<Entry>, e: Entry) {
    forall i :: 0 <= i < |entries| && Of(entries[i], e.merchant, e.network) && e.at < entries[i].at < e.at + p.window ==>
      Room(p, entries, e, entries[i].at)
  }

  /** Spend dated within (lo, hi] fits any interval reaching further back and up to its latest date. */
  lemma {:induction false} IntervalFits(entries: seq<Entry>, m: MerchantId, n: Network, lo: Time, hi: Time, lo': Time, hi': Time)
    requires EntriesNonNegative(entries) && lo' <= lo
    requires forall i :: 0 <= i < |entries| && Of(entries[i], m, n) && entries[i].at <= hi ==> entries[i].at <= hi'
    ensures SpentIn(entries, m, n, lo, hi) <= SpentIn(entries, m, n, lo', hi')
  {
    if entries != [] { IntervalFits(entries[..|entries| - 1], m, n, lo, hi, lo', hi'); }
  }

  /** The latest date up to t among e's own and the recorded ones of its merchant and network. */
  lemma {:induction false} Latest(entries: seq<Entry>, e: Entry, t: Time) returns (s: Time)
    requires e.at <= t
    ensures e.at <= s <= t
    ensures s == e.at || exists i :: 0 <= i < |entries| && Of(entries[i], e.merchant, e.network) && entries[i].at == s
    ensures forall i :: 0 <= i < |entries| && Of(entries[i], e.merchant, e.network) && entries[i].at <= t ==> entries[i].at <= s
  {
    s := e.at;
    if entries != [] {
      var init, last := entries[..|entries| - 1], entries[|entries| - 1];
      s := Latest(init, e, t);
      if Of(last, e.merchant, e.network) && s < last.at <= t { s := last.at; }
    }
  }

  lemma SpentSnoc(entries: seq<Entry>, e: Entry, m: MerchantId, n: Network, lo: Time, hi: Time)
    ensures SpentIn(entries + [e], m, n, lo, hi) == SpentIn(entries, m, n, lo, hi) + if Of(e, m, n) && lo < e.at <= hi then e.amount else 0
  {
    assert (entries + [e])[..|entries|] == entries;
  }

  lemma OwnWindow(p: Policy, entries: seq<Entry>, e: Entry, t: Time)
    requires EntriesNonNegative(entries) && Room(p, entries, e, e.at) && LaterRoom(p, entries, e) && t - p.window < e.at <= t
    ensures SpentIn(entries, e.merchant, e.network, t - p.window, t) + e.amount <= p.maxPerWindow
  {
    hide SpentIn;
    var s := Latest(entries, e, t);
    assert Room(p, entries, e, s);
    IntervalFits(entries, e.merchant, e.network, t - p.window, t, s - p.window, s);
  }

  /**
   * One more signature, exactly: every window stays within the ceiling if and only if there is room
   * at its own date and at every later date recorded less than a window after it.
   */
  lemma SignatureFitsExactly(p: Policy, entries: seq<Entry>, e: Entry)
    requires EntriesNonNegative(entries) && e.amount >= 0 && p.window > 0 && AllWithin(p, entries)
    ensures AllWithin(p, entries + [e]) <==> Room(p, entries, e, e.at) && LaterRoom(p, entries, e)
  {
    hide SpentIn;
    var m, n := e.merchant, e.network;
    if AllWithin(p, entries + [e]) {
      SpentSnoc(entries, e, m, n, e.at - p.window, e.at);
      assert Within(p, entries + [e], m, n, e.at);
      forall i | 0 <= i < |entries| && Of(entries[i], m, n) && e.at < entries[i].at < e.at + p.window
        ensures Room(p, entries, e, entries[i].at)
      {
        SpentSnoc(entries, e, m, n, entries[i].at - p.window, entries[i].at);
        assert Within(p, entries + [e], m, n, entries[i].at);
      }
    }
    if Room(p, entries, e, e.at) && LaterRoom(p, entries, e) {
      forall m': MerchantId, n': Network, t: Time ensures Within(p, entries + [e], m', n', t) {
        assert Within(p, entries, m', n', t);
        SpentSnoc(entries, e, m', n', t - p.window, t);
        if Of(e, m', n') && t - p.window < e.at <= t { OwnWindow(p, entries, e, t); }
      }
    }
  }

  lemma {:induction false} NothingInEmptyWindow(entries: seq<Entry>, m: MerchantId, n: Network, lo: Time, hi: Time)
    requires hi <= lo
    ensures SpentIn(entries, m, n, lo, hi) == 0
  {
    if entries != [] { NothingInEmptyWindow(entries[..|entries| - 1], m, n, lo, hi); }
  }

  /** Each signature of the run left room at the later dates already recorded when it was made. */
  predicate NeverCrowdsLater(p: Policy, ops: seq<Op>) {
    ops != [] ==>
      var d, d' := Run(p, ops[..|ops| - 1]).entries, Run(p, ops).entries;
      NeverCrowdsLater(p, ops[..|ops| - 1]) && (|d'| > |d| ==> LaterRoom(p, d, d'[|d|]))
  }

  /** With the database tracker the ceiling holds in every window if and only if no signature crowds a later date. */
  lemma {:induction false} DatabaseWindowExactly(p: Policy, ops: seq<Op>)
    requires NonNegative(ops) && p.maxPerWindow >= 0 && p.tracker.Database?
    ensures AllWithin(p, Run(p, ops).entries) <==> NeverCrowdsLater(p, ops)
    decreases |ops|
  {
    hide Apply, SpentIn, LaterRoom, EntriesNonNegative, StoreNonNegative;
    if ops == [] {
      assert AllWithin(p, Run(p, ops).entries) by { NoSpend(p); }
    } else {
      var init := ops[..|ops| - 1];
      var d, d' := Run(p, init), Run(p, ops);
      DatabaseWindowExactly(p, init);
      RunNonNegative(p, init);
      RunNonNegative(p, ops);
      OneEntryPerOp(p, d, ops[|ops| - 1]);
      if d'.entries != d.entries {
        var e := d'.entries[|d.entries|];
        assert d'.entries == d.entries + [e];
        LastAmount(d'.entries);
        if p.window > 0 {
          if AllWithin(p, d'.entries) { SmallerWithin(p, d.entries, e); }
          if AllWithin(p, d.entries) { SignatureFitsExactly(p, d.entries, e); }
        } else {
          EmptyWindows(p, d.entries, e);
        }
      }
    }
  }

  lemma NoSpend(p: Policy)
    requires p.maxPerWindow >= 0
    ensures AllWithin(p, [])
  {
  }

  lemma LastAmount(entries: seq<Entry>)
    requires EntriesNonNegative(entries) && entries != []
    ensures entries[|entries| - 1].amount >= 0
  {
  }

  lemma SmallerWithin(p: Policy, entries: seq<Entry>, e: Entry)
    requires AllWithin(p, entries + [e]) && e.amount >= 0
    ensures AllWithin(p, entries)
  {
    hide SpentIn;
    forall m: MerchantId, n: Network, t: Time ensures Within(p, entries, m, n, t) {
      assert Within(p, entries + [e], m, n, t);
      SpentSnoc(entries, e, m, n, t - p.window, t);
    }
  }

  lemma EmptyWindows(p: Policy, entries: seq<Entry>, e: Entry)
    requires p.window <= 0 && p.maxPerWindow >= 0
    ensures AllWithin(p, entries) && AllWithin(p, entries + [e]) && LaterRoom(p, entries, e)
  {
    hide SpentIn;
    forall m: MerchantId, n: Network, t: Time
      ensures Within(p, entries, m, n, t) && Within(p, entries + [e], m, n, t)
    {
      NothingInEmptyWindow(entries, m, n, t - p.window, t);
      NothingInEmptyWindow(entries + [e], m, n, t - p.window, t);
    }
  }

  /** Per merchant and network, spend was recorded in date order. */
  predicate InDateOrder(entries: seq<Entry>) {
    forall i, j :: 0 <= i < j < |entries| && Of(entries[i], entries[j].merchant, entries[j].network) ==> entries[i].at <= entries[j].at
  }

  /** In particular it holds when each merchant's signatures on a network come in date order. */
  lemma DatabaseWindow(p: Policy, ops: seq<Op>, m: MerchantId, n: Network, t: Time)
    requires NonNegative(ops) && p.maxPerWindow >= 0 && p.tracker.Database? && InDateOrder(Run(p, ops).entries)
    ensures SpentIn(Run(p, ops).entries, m, n, t - p.window, t) <= p.maxPerWindow
  {
    hide Run, NeverCrowdsLater, SpentIn, InDateOrder, NonNegative;
    OrderedNeverCrowds(p, ops);
    DatabaseWindowExactly(p, ops);
    assert Within(p, Run(p, ops).entries, m, n, t);
  }

  lemma {:induction false} OrderedNeverCrowds(p: Policy, ops: seq<Op>)
    requires InDateOrder(Run(p, ops).entries)
    ensures NeverCrowdsLater(p, ops)
    decreases |ops|
  {
    hide Apply, Room;
    if ops != [] {
      OneEntryPerOp(p, Run(p, ops[..|ops| - 1]), ops[|ops| - 1]);
      var d, d' := Run(p, ops[..|ops| - 1]).entries, Run(p, ops).entries;
      assert forall i :: 0 <= i < |d| ==> d[i] == d'[i];
      OrderedNeverCrowds(p, ops[..|ops| - 1]);
    }
  }

  /** Out of date order it can fail: the later-dated spend is invisible to the earlier-dated request. */
  lemma DatabaseWindowNeedsOrder()
    ensures exists p: Policy, ops: seq<Op> ::
              && p.tracker.Database? && NonNegative(ops) && p.maxPerWindow >= 0
              && SpentIn(Run(p, ops).entries, 1, 1, 9 - p.window, 9) > p.maxPerWindow
  {
    var p := Policy({"a"}, 100, 10, 10, 1, Database);
    var r1, r2 := Request(1, 1, 1, "a", 10, 7, 9), Request(2, 1, 1, "a", 10, 7, 5);
    assert Lower("a") == "a";
    BackdatedSpend();
    SignsAtOnce(p, Run(p, []), r1);
    var ops := [Submit(r1, true), Submit(r2, true)];
    assert ops[..1] == [Submit(r1, true)] && ops[..1][..0] == [];
    SignsAtOnce(p, Run(p, ops[..1]), r2);
    hide Apply, SpentIn, Lower;
    assert Run(p, []).entries == [];
    assert Run(p, ops[..1]).entries == [Entry(1, 1, 10, 9)];
    assert Run(p, ops).entries == [Entry(1, 1, 10, 9), Entry(1, 1, 10, 5)];
  }

  lemma BackdatedSpend()
    ensures var e1, e2 := Entry(1, 1, 10, 9), Entry(1, 1, 10, 5);
            SpentIn([], 1, 1, -1, 9) == 0 && SpentIn([e1], 1, 1, -5, 5) == 0 && SpentIn([e1, e2], 1, 1, -1, 9) == 20
  {
    var e1, e2 := Entry(1, 1, 10, 9), Entry(1, 1, 10, 5);
    assert [e1][..0] == [] && [e1, e2][..1] == [e1];
    assert SpentIn([e1], 1, 1, -1, 9) == 10;
  }

  // ---------------------------------------------------------------- recorded spend and signed requests

  predicate Counts(x: Pending, m: MerchantId, n: Network) {
    x.status == SIGNED && x.request.merchant == m && x.request.network == n
  }

  /** The sum over the SIGNED requests in the store. */
  function SignedTotal(order: seq<RequestId>, byId: map<RequestId, Pending>, m: MerchantId, n: Network): int {
    if order == [] then 0
    else
      var id := order[|order| - 1];
      SignedTotal(order[..|order| - 1], byId, m, n) + if id in byId && Counts(byId[id], m, n) then byId[id].request.amount else 0
  }

  function Recorded(entries: seq<Entry>, m: MerchantId, n: Network): int {
    if entries == [] then 0
    else
      var e := entries[|entries| - 1];
      Recorded(entries[..|entries| - 1], m, n) + if Of(e, m, n) then e.amount else 0
  }

  ghost predicate Ordered(d: Desk) {
    Distinct(d.order) && (forall id :: id in d.order <==> id in d.byId) && forall id :: id in d.byId ==> d.byId[id].request.id == id
  }

  /** Amount that replacing the stored entry takes out of the signed total. */
  function Share(byId: map<RequestId, Pending>, id: RequestId, m: MerchantId, n: Network): int {
    if id in byId && Counts(byId[id], m, n) then byId[id].request.amount else 0
  }

  lemma {:induction false} TotalAfterSave(order: seq<RequestId>, byId: map<RequestId, Pending>, id: RequestId, x: Pending, m: MerchantId, n: Network)
    requires Distinct(order)
    ensures SignedTotal(order, byId[id := x], m, n) == SignedTotal(order, byId, m, n) +
              if id in order then Share(byId[id := x], id, m, n) - Share(byId, id, m, n) else 0
  {
    if order != [] {
      TotalAfterSave(order[..|order| - 1], byId, id, x, m, n);
      assert order == order[..|order| - 1] + [order[|order| - 1]];
    }
  }

  lemma SaveOrdered(d: Desk, x: Pending)
    requires Ordered(d)
    ensures Ordered(Save(d, x))
  {
  }

  function Total(d: Desk, m: MerchantId, n: Network): int {
    SignedTotal(d.order, d.byId, m, n)
  }

  lemma SaveChangesTotal(d: Desk, x: Pending, m: MerchantId, n: Network)
    requires Ordered(d)
    ensures Total(Save(d, x), m, n) ==
            Total(d, m, n) + (if Counts(x, m, n) then x.request.amount else 0) - Share(d.byId, x.request.id, m, n)
  {
    var id := x.request.id;
    TotalAfterSave(d.order, d.byId, id, x, m, n);
    if id !in d.byId {
      var order := d.order + [id];
      assert order[..|order| - 1] == d.order && order[|order| - 1] == id;
      assert SignedTotal(order, d.byId[id := x], m, n) ==
             SignedTotal(d.order, d.byId[id := x], m, n) + if Counts(x, m, n) then x.request.amount else 0;
    }
    assert id in d.order <==> id in d.byId;
    hide SignedTotal, Ordered, Counts;
  }

  lemma RecordedOneMore(entries: seq<Entry>, e: Entry, m: MerchantId, n: Network)
    ensures Recorded(entries + [e], m, n) == Recorded(entries, m, n) + if Of(e, m, n) then e.amount else 0
  {
    assert (entries + [e])[..|entries|] == entries;
  }

  /** How far the spend log is ahead of the signed requests. */
  function Gap(d: Desk, m: MerchantId, n: Network): int {
    Recorded(d.entries, m, n) - Total(d, m, n)
  }

  /** What the operation overwrites: a submission may reuse the id of a stored request. */
  function Overwritten(p: Policy, d: Desk, op: Op, m: MerchantId, n: Network): int {
    if op.Submit? && DestinationAllowed(p, op.request) && WithinCeilings(p, d, op.request) && (p.required > 1 || op.backendSigns)
    then Share(d.byId, op.request.id, m, n) else 0
  }

  lemma FinalizeGap(d: Desk, r: Request, approvals: seq<User>, m: MerchantId, n: Network)
    requires Ordered(d)
    ensures Ordered(Finalize(d, r, approvals, true).0)
    ensures Gap(Finalize(d, r, approvals, true).0, m, n) == Gap(d, m, n) + Share(d.byId, r.id, m, n)
  {
    hide Total, Recorded, Ordered, Save;
    var x := Pending(r, SIGNED, approvals);
    var spent := d.(entries := d.entries + [Entry(r.merchant, r.network, r.amount, r.at)]);
    SameBooks(d, spent, m, n);
    SaveChangesTotal(spent, x, m, n);
    SaveOrdered(spent, x);
    SaveKeepsEntries(spent, x);
    SameBooks(Save(spent, x), Log(Save(spent, x), r.id, Signed, r.requester), m, n);
    RecordedOneMore(d.entries, Entry(r.merchant, r.network, r.amount, r.at), m, n);
  }

  lemma SaveKeepsEntries(d: Desk, x: Pending)
    ensures Save(d, x).entries == d.entries
  {
  }

  /** The store decides the total and the order; the log and the trail do not matter. */
  lemma SameBooks(d: Desk, d': Desk, m: MerchantId, n: Network)
    requires d'.order == d.order && d'.byId == d.byId
    ensures Total(d', m, n) == Total(d, m, n) && (Ordered(d') <==> Ordered(d))
  {
    hide SignedTotal;
  }

  /** Each operation widens the gap by exactly the signed amount it overwrites. */
  lemma OpChangesGap(p: Policy, d: Desk, op: Op, m: MerchantId, n: Network)
    requires Ordered(d)
    ensures Ordered(Apply(p, d, op))
    ensures Gap(Apply(p, d, op), m, n) == Gap(d, m, n) + Overwritten(p, d, op, m, n)
  {
    hide Gap, Ordered, TotalAfter, Lower, Save, Finalize, Log;
    match op
    case Submit(r, signs) =>
      var noted := Log(d, r.id, Submitted, r.requester);
      LogKeepsGap(d, r.id, Submitted, r.requester, m, n);
      LogKeepsGap(noted, r.id, ValidationFailed, r.requester, m, n);
      FinalizeChangesGap(noted, r, [r.requester], signs, m, n);
      SaveChangesGap(noted, Pending(r, PENDING_APPROVAL, []), m, n);
    case Approve(id, approver, signs) =>
      if id in d.byId && d.byId[id].status == PENDING_APPROVAL {
        var x := d.byId[id];
        var noted := Log(d, id, Approved, approver);
        OwnId(d, id);
        LogKeepsGap(d, id, Approved, approver, m, n);
        LogKeepsGap(noted, id, ValidationFailed, approver, m, n);
        FinalizeChangesGap(noted, x.request, x.approvals + [approver], signs, m, n);
        SaveChangesGap(noted, x.(approvals := x.approvals + [approver]), m, n);
      }
    case Reject(id, actor) =>
      if id in d.byId {
        var y := d.byId[id].(status := REJECTED);
        OwnId(d, id);
        SaveChangesGap(d, y, m, n);
        LogKeepsGap(Save(d, y), id, Rejected, actor, m, n);
      }
  }

  lemma OwnId(d: Desk, id: RequestId)
    requires Ordered(d) && id in d.byId
    ensures d.byId[id].request.id == id
  {
  }

  lemma LogKeepsGap(d: Desk, id: RequestId, kind: AuditKind, actor: User, m: MerchantId, n: Network)
    ensures Gap(Log(d, id, kind, actor), m, n) == Gap(d, m, n) && Log(d, id, kind, actor).byId == d.byId
    ensures Ordered(Log(d, id, kind, actor)) <==> Ordered(d)
  {
    hide Total, Recorded, Ordered;
    SameBooks(d, Log(d, id, kind, actor), m, n);
  }

  lemma SaveChangesGap(d: Desk, x: Pending, m: MerchantId, n: Network)
    requires Ordered(d) && x.status != SIGNED
    ensures Ordered(Save(d, x)) && Gap(Save(d, x), m, n) == Gap(d, m, n) + Share(d.byId, x.request.id, m, n)
  {
    hide Total, Recorded, Ordered, Save;
    SaveChangesTotal(d, x, m, n);
    SaveOrdered(d, x);
    SaveKeepsEntries(d, x);
  }

  lemma FinalizeChangesGap(d: Desk, r: Request, approvals: seq<User>, signs: bool, m: MerchantId, n: Network)
    requires Ordered(d)
    ensures Ordered(Finalize(d, r, approvals, signs).0)
    ensures Gap(Finalize(d, r, approvals, signs).0, m, n) == Gap(d, m, n) + if signs then Share(d.byId, r.id, m, n) else 0
  {
    hide Gap, Ordered;
    if signs {
      FinalizeGap(d, r, approvals, m, n);
    } else {
      LogKeepsGap(d, r.id, SignFailed, r.requester, m, n);
    }
  }

  lemma {:induction false} RunOrdered(p: Policy, ops: seq<Op>)
    ensures Ordered(Run(p, ops))
  {
    hide Apply;
    if ops != [] {
      RunOrdered(p, ops[..|ops| - 1]);
      OpChangesGap(p, Run(p, ops[..|ops| - 1]), ops[|ops| - 1], 0, 0);
    }
  }

  /** No accepted submission reuses the id of a request that was already signed for a nonzero amount. */
  predicate NeverReusesSigned(p: Policy, ops: seq<Op>, m: MerchantId, n: Network) {
    ops != [] ==>
      NeverReusesSigned(p, ops[..|ops| - 1], m, n) &&
      Overwritten(p, Run(p, ops[..|ops| - 1]), ops[|ops| - 1], m, n) == 0
  }

  /** Recorded spend is the sum over SIGNED requests as long as no signed request is overwritten. */
  lemma {:induction false} SpendIsSignedTotal(p: Policy, ops: seq<Op>, m: MerchantId, n: Network)
    requires NeverReusesSigned(p, ops, m, n)
    ensures Recorded(Run(p, ops).entries, m, n) == SignedTotal(Run(p, ops).order, Run(p, ops).byId, m, n)
  {
    hide Apply;
    if ops != [] {
      SpendIsSignedTotal(p, ops[..|ops| - 1], m, n);
      RunOrdered(p, ops[..|ops| - 1]);
      OpChangesGap(p, Run(p, ops[..|ops| - 1]), ops[|ops| - 1], m, n);
    }
  }

  lemma {:induction false} GapNonNegative(p: Policy, ops: seq<Op>, m: MerchantId, n: Network)
    requires NonNegative(ops)
    ensures Gap(Run(p, ops), m, n) >= 0
    ensures Gap(Run(p, ops), m, n) == 0 <==> NeverReusesSigned(p, ops, m, n)
  {
    hide Apply;
    if ops != [] {
      var d := Run(p, ops[..|ops| - 1]);
      GapNonNegative(p, ops[..|ops| - 1], m, n);
      RunOrdered(p, ops[..|ops| - 1]);
      RunNonNegative(p, ops[..|ops| - 1]);
      OpChangesGap(p, d, ops[|ops| - 1], m, n);
    }
  }

  /** With non-negative amounts the two agree exactly when no accepted submission overwrites a signed amount. */
  lemma SpendIsSignedTotalExactly(p: Policy, ops: seq<Op>, m: MerchantId, n: Network)
    requires NonNegative(ops)
    ensures Recorded(Run(p, ops).entries, m, n) == SignedTotal(Run(p, ops).order, Run(p, ops).byId, m, n) <==>
            NeverReusesSigned(p, ops, m, n)
  {
    GapNonNegative(p, ops, m, n);
  }

  function Withdrawal(amount: int): Request {
    Request(1, 1, 1, "a", amount, 7, 5)
  }

  const ONE_KEY: Policy := Policy({"a"}, 100, 100, 10, 1, InMemory)

  /** A second submission under a signed id: 15 spent, and the store knows of 5. */
  lemma ReusedIdHidesSpend()
    ensures var d := Run(ONE_KEY, [Submit(Withdrawal(10), true), Submit(Withdrawal(5), true)]);
            Recorded(d.entries, 1, 1) == 15 && SignedTotal(d.order, d.byId, 1, 1) == 5
  {
    hide Apply, TotalAfter, Recorded, SignedTotal, DestinationAllowed;
    var o1, o2 := Submit(Withdrawal(10), true), Submit(Withdrawal(5), true);
    RunTwo(ONE_KEY, o1, o2);
    hide Run;
    Allowed(10);
    Allowed(5);
    var d0 := Desk([], [], map[], []);
    var d1 := Apply(ONE_KEY, d0, o1);
    TwoSpends(Entry(1, 1, 10, 5), Entry(1, 1, 5, 5));
    SignsUnderId(ONE_KEY, d0, Withdrawal(10));
    assert d1.entries == [Entry(1, 1, 10, 5)] && d1.order == [1];
    SignsUnderId(ONE_KEY, d1, Withdrawal(5));
    var d2 := Apply(ONE_KEY, d1, o2);
    assert d2.entries == [Entry(1, 1, 10, 5), Entry(1, 1, 5, 5)] && d2.order == [1];
    OneSigned(d2.byId, Withdrawal(5));
  }

  lemma RunTwo(p: Policy, o1: Op, o2: Op)
    ensures Run(p, [o1, o2]) == Apply(p, Apply(p, Desk([], [], map[], []), o1), o2)
  {
    hide Apply;
    assert [o1, o2][..1] == [o1] && [o1][..0] == [];
    assert Run(p, [o1]) == Apply(p, Run(p, []), o1);
  }

  lemma Allowed(amount: int)
    ensures DestinationAllowed(ONE_KEY, Withdrawal(amount))
  {
    assert Lower("a") == "a";
  }

  lemma SignsUnderId(p: Policy, d: Desk, r: Request)
    requires p.required <= 1 && DestinationAllowed(p, r) && WithinCeilings(p, d, r)
    ensures var d' := Apply(p, d, Submit(r, true));
            && d'.entries == d.entries + [Entry(r.merchant, r.network, r.amount, r.at)]
            && d'.byId == d.byId[r.id := Pending(r, SIGNED, [r.requester])]
            && d'.order == if r.id in d.byId then d.order else d.order + [r.id]
  {
    hide DestinationAllowed, WithinCeilings;
  }

  lemma TwoSpends(e1: Entry, e2: Entry)
    requires e1 == Entry(1, 1, 10, 5) && e2 == Entry(1, 1, 5, 5)
    ensures TotalAfter([], 1, 1, -5) == 0 && TotalAfter([e1], 1, 1, -5) == 10 && Recorded([e1, e2], 1, 1) == 15
  {
    assert [e1, e2][..1] == [e1] && [e1][..0] == [];
    assert Recorded([e1], 1, 1) == 10;
  }

  lemma OneSigned(byId: map<RequestId, Pending>, r: Request)
    requires 1 in byId && byId[1].request == r && byId[1].status == SIGNED && r.merchant == 1 && r.network == 1
    ensures SignedTotal([1], byId, 1, 1) == r.amount
  {
    assert [1][..0] == [];
  }

  // ---------------------------------------------------------------- approvals

  /** Approvers are distinct and never the requester, and a signature had as many as the policy asks. */
  predicate EntryOk(p: Policy, x: Pending) {
    && (p.required <= 1 ==> x.approvals == [x.request.requester] && x.status == SIGNED)
    && (p.required > 1 ==> Distinct(x.approvals) && x.request.requester !in x.approvals)
    && (x.status == SIGNED ==> |x.approvals| >= p.required)
    && (p.required > 1 && x.status == PENDING_APPROVAL ==> |x.approvals| < p.required)
    && DestinationAllowed(p, x.request) && x.request.amount <= p.maxPerTx
  }

  predicate StoreOk(p: Policy, d: Desk) {
    forall id :: id in d.byId ==> EntryOk(p, d.byId[id])
  }

  lemma OpKeepsApprovals(p: Policy, d: Desk, op: Op)
    requires StoreOk(p, d) && Ordered(d)
    ensures StoreOk(p, Apply(p, d, op))
  {
    hide TotalAfter, Lower;
    match op
    case Submit(r, signs) =>
    case Approve(id, approver, signs) =>
      if id in d.byId && d.byId[id].status == PENDING_APPROVAL && d.byId[id].request.requester != approver && approver !in d.byId[id].approvals {
        ApprovalGrows(p, d.byId[id], approver);
      }
    case Reject(id, actor) =>
  }

  /** In every run: who approved, how many, and where to, for every stored request. */
  lemma {:induction false} ApprovalsRespected(p: Policy, ops: seq<Op>)
    ensures StoreOk(p, Run(p, ops))
  {
    hide Apply, EntryOk;
    if ops != [] {
      ApprovalsRespected(p, ops[..|ops| - 1]);
      RunOrdered(p, ops[..|ops| - 1]);
      OpKeepsApprovals(p, Run(p, ops[..|ops| - 1]), ops[|ops| - 1]);
    }
  }

  // ---------------------------------------------------------------- the audit trail

  /** The trail holds every event behind a stored entry: submission, approvals, decision. */
  ghost predicate Evidenced(p: Policy, audit: seq<Audit>, x: Pending) {
    && Audit(x.request.id, Submitted, x.request.requester) in audit
    && (p.required > 1 ==> forall u :: u in x.approvals ==> Audit(x.request.id, Approved, u) in audit)
    && (x.status == SIGNED ==> Audit(x.request.id, Signed, x.request.requester) in audit)
    && (x.status == REJECTED ==> exists actor :: Audit(x.request.id, Rejected, actor) in audit)
  }

  ghost predicate AllEvidenced(p: Policy, d: Desk) {
    forall id :: id in d.byId ==> Evidenced(p, d.audit, d.byId[id])
  }

  function SignedEvents(audit: seq<Audit>): nat {
    if audit == [] then 0 else SignedEvents(audit[..|audit| - 1]) + if audit[|audit| - 1].kind == Signed then 1 else 0
  }

  lemma LogEvidence(p: Policy, d: Desk, id: RequestId, kind: AuditKind, actor: User)
    requires AllEvidenced(p, d)
    ensures AllEvidenced(p, Log(d, id, kind, actor)) && Audit(id, kind, actor) in Log(d, id, kind, actor).audit
    ensures forall x :: Evidenced(p, d.audit, x) ==> Evidenced(p, Log(d, id, kind, actor).audit, x)
    ensures SignedEvents(Log(d, id, kind, actor).audit) == SignedEvents(d.audit) + if kind == Signed then 1 else 0
  {
    var audit := Log(d, id, kind, actor).audit;
    assert audit[..|d.audit|] == d.audit;
    assert audit[|d.audit|] == Audit(id, kind, actor);
    assert forall a :: a in d.audit ==> a in audit;
  }

  lemma FinalizeEvidence(p: Policy, d: Desk, r: Request, approvals: seq<User>, signs: bool)
    requires AllEvidenced(p, d) && Evidenced(p, d.audit, Pending(r, PENDING_APPROVAL, approvals))
    ensures var d' := Finalize(d, r, approvals, signs).0;
            AllEvidenced(p, d') && SignedEvents(d'.audit) - |d'.entries| == SignedEvents(d.audit) - |d.entries|
  {
    LogEvidence(p, d, r.id, SignFailed, r.requester);
    LogEvidence(p, d, r.id, Signed, r.requester);
    hide SignedEvents;
    var d' := Finalize(d, r, approvals, signs).0;
    if signs {
      assert d'.audit == Log(d, r.id, Signed, r.requester).audit;
      assert Evidenced(p, d'.audit, Pending(r, SIGNED, approvals));
    }
  }

  lemma OpKeepsEvidence(p: Policy, d: Desk, op: Op)
    requires AllEvidenced(p, d) && Ordered(d) && SignedEvents(d.audit) == |d.entries|
    ensures AllEvidenced(p, Apply(p, d, op)) && SignedEvents(Apply(p, d, op).audit) == |Apply(p, d, op).entries|
  {
    match op
    case Submit(r, signs) => SubmitEvidence(p, d, r, signs);
    case Approve(id, approver, signs) => ApproveEvidence(p, d, id, approver, signs);
    case Reject(id, actor) =>
      if id in d.byId {
        LogEvidence(p, d, id, Rejected, actor);
        hide SignedEvents;
      }
  }

  lemma SubmitEvidence(p: Policy, d: Desk, r: Request, signs: bool)
    requires AllEvidenced(p, d) && SignedEvents(d.audit) == |d.entries|
    ensures var d' := SubmitTo(p, d, r, signs).0; AllEvidenced(p, d') && SignedEvents(d'.audit) == |d'.entries|
  {
    var noted := Log(d, r.id, Submitted, r.requester);
    LogEvidence(p, d, r.id, Submitted, r.requester);
    LogEvidence(p, noted, r.id, ValidationFailed, r.requester);
    hide SignedEvents, WithinCeilings, DestinationAllowed, Finalize;
    if p.required <= 1 { FinalizeEvidence(p, noted, r, [r.requester], signs); }
  }

  lemma ApproveEvidence(p: Policy, d: Desk, id: RequestId, approver: User, signs: bool)
    requires AllEvidenced(p, d) && Ordered(d) && SignedEvents(d.audit) == |d.entries|
    ensures var d' := ApproveAt(p, d, id, approver, signs).0; AllEvidenced(p, d') && SignedEvents(d'.audit) == |d'.entries|
  {
    hide SignedEvents, WithinCeilings, Finalize, Ordered, Evidenced;
    if id in d.byId && d.byId[id].status == PENDING_APPROVAL {
      var x := d.byId[id];
      OwnId(d, id);
      var noted := Log(d, id, Approved, approver);
      LogEvidence(p, d, id, Approved, approver);
      LogEvidence(p, noted, id, ValidationFailed, approver);
      var y := x.(approvals := x.approvals + [approver]);
      OneMoreApproval(p, noted.audit, x, approver);
      FinalizeEvidence(p, noted, x.request, y.approvals, signs);
      SaveEvidence(p, noted, y);
    }
  }

  lemma OneMoreApproval(p: Policy, audit: seq<Audit>, x: Pending, approver: User)
    requires Evidenced(p, audit, x) && x.status == PENDING_APPROVAL && Audit(x.request.id, Approved, approver) in audit
    ensures Evidenced(p, audit, x.(approvals := x.approvals + [approver]))
    ensures Evidenced(p, audit, Pending(x.request, PENDING_APPROVAL, x.approvals + [approver]))
  {
  }

  lemma SaveEvidence(p: Policy, d: Desk, x: Pending)
    requires AllEvidenced(p, d) && Evidenced(p, d.audit, x)
    ensures AllEvidenced(p, Save(d, x)) && Save(d, x).audit == d.audit && Save(d, x).entries == d.entries
  {
    hide Evidenced;
  }

  /** In every run the trail backs every stored entry, and counts one signature per recorded spend. */
  lemma {:induction false} AuditTells(p: Policy, ops: seq<Op>)
    ensures AllEvidenced(p, Run(p, ops)) && SignedEvents(Run(p, ops).audit) == |Run(p, ops).entries|
  {
    hide Apply, Evidenced;
    if ops != [] {
      AuditTells(p, ops[..|ops| - 1]);
      RunOrdered(p, ops[..|ops| - 1]);
      OpKeepsEvidence(p, Run(p, ops[..|ops| - 1]), ops[|ops| - 1]);
    }
  }

  /** A decided request changes only if a submission reuses its id. */
  lemma DecisionsAreFinal(p: Policy, d: Desk, op: Op, id: RequestId)
    requires Ordered(d) && id in d.byId && d.byId[id].status != PENDING_APPROVAL && (op.Submit? ==> op.request.id != id)
    ensures id in Apply(p, d, op).byId && Apply(p, d, op).byId[id] == d.byId[id]
  {
    hide TotalAfter, Lower;
  }

  lemma ApprovalGrows(p: Policy, x: Pending, approver: User)
    requires EntryOk(p, x) && x.status == PENDING_APPROVAL && x.request.requester != approver && approver !in x.approvals
    ensures p.required > 1
    ensures var approvals := x.approvals + [approver];
            if |approvals| >= p.required then EntryOk(p, Pending(x.request, SIGNED, approvals)) else EntryOk(p, x.(approvals := approvals))
  {
  }
}
