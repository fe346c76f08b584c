/**
 * Every answer of the signing desk by its exact condition (policy-signing-service.ts:46-168), and what
 * a decision means for the rest of a run.
 */
module SigningDecisions {
  import opened Basics
  import opened Text
  import opened Signing

  // ---------------------------------------------------------------- the ceilings

  function SumIf(entries: seq<Entry>, counts: Entry -> bool): int {
    if entries == [] then 0
    else SumIf(entries[..|entries| - 1], counts) + if counts(entries[|entries| - 1]) then entries[|entries| - 1].amount else 0
  }

  /** The spend a tracker counts against a request: its merchant's and network's within the window, to its date or beyond. */
  predicate CountsAgainst(tracker: Tracker, window: int, r: Request, e: Entry) {
    e.merchant == r.merchant && e.network == r.network && e.at > r.at - window && (tracker.Database? ==> e.at <= r.at)
  }

  ghost function SpentAgainst(p: Policy, entries: seq<Entry>, r: Request): int {
    SumIf(entries, e => CountsAgainst(p.tracker, p.window, r, e))
  }

  lemma {:induction false} TrackerTotal(p: Policy, entries: seq<Entry>, r: Request)
    ensures WindowTotal(p, entries, r.merchant, r.network, r.at) == SpentAgainst(p, entries, r)
  {
    if entries != [] { TrackerTotal(p, entries[..|entries| - 1], r); }
  }

  /** Neither ceiling is passed by signing this request now. */
  ghost predicate Fits(p: Policy, entries: seq<Entry>, r: Request) {
    r.amount <= p.maxPerTx && SpentAgainst(p, entries, r) + r.amount <= p.maxPerWindow
  }

  lemma FitsExactly(p: Policy, d: Desk, r: Request)
    ensures WithinCeilings(p, d, r) <==> Fits(p, d.entries, r)
  {
    TrackerTotal(p, d.entries, r);
  }

  // ---------------------------------------------------------------- what an operation leaves

  /** The request was signed: spend recorded, decision stored, event logged. */
  ghost predicate SignedOff(d: Desk, d': Desk, r: Request, approvals: seq<User>) {
    && d'.entries == d.entries + [Entry(r.merchant, r.network, r.amount, r.at)]
    && d'.byId == d.byId[r.id := Pending(r, SIGNED, approvals)]
    && SignedFor(d'.audit, r.id) == SignedFor(d.audit, r.id) + 1
  }

  /** Nothing was spent and no signature logged; the store holds this under the id. */
  ghost predicate Stored(d: Desk, d': Desk, id: RequestId, x: Pending) {
    d'.entries == d.entries && d'.byId == d.byId[id := x] && SignedFor(d'.audit, id) == SignedFor(d.audit, id)
  }

  /** Nothing was spent, stored or signed. */
  ghost predicate Refused(d: Desk, d': Desk, id: RequestId) {
    d'.entries == d.entries && d'.byId == d.byId && SignedFor(d'.audit, id) == SignedFor(d.audit, id)
  }

  /** How many signatures the trail holds for the id. */
  function SignedFor(audit: seq<Audit>, id: RequestId): nat {
    if audit == [] then 0
    else SignedFor(audit[..|audit| - 1], id) + if audit[|audit| - 1].id == id && audit[|audit| - 1].kind == Signed then 1 else 0
  }

  lemma LogCounts(d: Desk, id: RequestId, kind: AuditKind, actor: User, i: RequestId)
    ensures SignedFor(Log(d, id, kind, actor).audit, i) == SignedFor(d.audit, i) + if id == i && kind == Signed then 1 else 0
  {
    assert (d.audit + [Audit(id, kind, actor)])[..|d.audit|] == d.audit;
  }

  lemma FinalizeDecides(d: Desk, r: Request, approvals: seq<User>, signs: bool)
    ensures var (d', answer) := Finalize(d, r, approvals, signs);
            if signs then answer == SignedNow && SignedOff(d, d', r, approvals) else answer == BackendFailed && Refused(d, d', r.id)
  {
    hide SignedFor;
    LogCounts(d, r.id, SignFailed, r.requester, r.id);
    var spent := d.(entries := d.entries + [Entry(r.merchant, r.network, r.amount, r.at)]);
    LogCounts(Save(spent, Pending(r, SIGNED, approvals)), r.id, Signed, r.requester, r.id);
  }

  /** A submission: refused off the allowlist or over a ceiling, else signed at once or stored to wait for approvals. */
  lemma SubmitDecides(p: Policy, d: Desk, r: Request, signs: bool)
    ensures var (d', answer) := SubmitTo(p, d, r, signs);
            if Lower(r.to) !in p.allowed then answer == NotAllowed && Refused(d, d', r.id)
            else if !Fits(p, d.entries, r) then answer == OverCeiling && Refused(d, d', r.id)
            else if p.required > 1 then answer == Waiting(Pending(r, PENDING_APPROVAL, [])) && Stored(d, d', r.id, Pending(r, PENDING_APPROVAL, []))
            else if signs then answer == SignedNow && SignedOff(d, d', r, [r.requester])
            else answer == BackendFailed && Refused(d, d', r.id)
  {
    FitsExactly(p, d, r);
    hide SignedFor, WithinCeilings, Finalize, Lower, Fits;
    var noted := Log(d, r.id, Submitted, r.requester);
    LogCounts(d, r.id, Submitted, r.requester, r.id);
    LogCounts(noted, r.id, ValidationFailed, r.requester, r.id);
    FinalizeDecides(noted, r, [r.requester], signs);
  }

  /**
   * An approval: unknown, decided and self-approved requests are refused and a repeated approval
   * changes nothing; otherwise it is added, and the last one needed signs if the ceilings still allow.
   */
  lemma ApproveDecides(p: Policy, d: Desk, id: RequestId, approver: User, signs: bool)
    requires Ordered(d)
    ensures var (d', answer) := ApproveAt(p, d, id, approver, signs);
            if id !in d.byId then answer == Unknown && d' == d
            else
              var x := d.byId[id];
              var approvals := x.approvals + [approver];
              if x.status != PENDING_APPROVAL then answer == AlreadyDecided && d' == d
              else if x.request.requester == approver then answer == SelfApproval && d' == d
              else if approver in x.approvals then answer == Waiting(x) && d' == d
              else if |approvals| < p.required then
                answer == Waiting(Pending(x.request, PENDING_APPROVAL, approvals)) && Stored(d, d', id, Pending(x.request, PENDING_APPROVAL, approvals))
              else if !Fits(p, d.entries, x.request) then answer == OverCeiling && Refused(d, d', id)
              else if signs then answer == SignedNow && SignedOff(d, d', x.request, approvals)
              else answer == BackendFailed && Refused(d, d', id)
  {
    if id in d.byId {
      var x := d.byId[id];
      OwnId(d, id);
      FitsExactly(p, d, x.request);
      hide SignedFor, WithinCeilings, Finalize, Fits, Ordered;
      var noted := Log(d, id, Approved, approver);
      LogCounts(d, id, Approved, approver, id);
      LogCounts(noted, id, ValidationFailed, approver, id);
      FinalizeDecides(noted, x.request, x.approvals + [approver], signs);
    }
  }

  /** A rejection: a pending request is stored REJECTED under its id, anything else is refused. */
  lemma RejectDecides(d: Desk, id: RequestId, actor: User)
    requires Ordered(d)
    ensures var (d', answer) := RejectAt(d, id, actor);
            if id !in d.byId then answer == Unknown && d' == d
            else if d.byId[id].status != PENDING_APPROVAL then answer == AlreadyDecided && d' == d
            else
              var x := Pending(d.byId[id].request, REJECTED, d.byId[id].approvals);
              answer == Waiting(x) && Stored(d, d', id, x) && Audit(id, Rejected, actor) in d'.audit
  {
    if id in d.byId {
      OwnId(d, id);
      hide SignedFor, Ordered;
      var y := d.byId[id].(status := REJECTED);
      LogCounts(Save(d, y), id, Rejected, actor, id);
    }
  }

  // ---------------------------------------------------------------- for the rest of the run

  predicate Names(op: Op, id: RequestId) {
    match op
    case Submit(r, _) => r.id == id
    case Approve(i, _, _) => i == id
    case Reject(i, _) => i == id
  }

  predicate NoSubmission(ops: seq<Op>, id: RequestId) {
    forall i :: 0 <= i < |ops| && ops[i].Submit? ==> ops[i].request.id != id
  }

  ghost predicate Decided(d: Desk, id: RequestId) {
    id in d.byId && d.byId[id].status != PENDING_APPROVAL
  }

  /** After a decision an operation that names the id changes nothing, and no other operation touches it. */
  lemma DecidedStep(p: Policy, d: Desk, op: Op, id: RequestId)
    requires Ordered(d) && Decided(d, id) && (op.Submit? ==> op.request.id != id)
    ensures var d' := Apply(p, d, op);
            && Ordered(d') && id in d'.byId && d'.byId[id] == d.byId[id] && SignedFor(d'.audit, id) == SignedFor(d.audit, id)
            && (Names(op, id) ==> d' == d)
  {
    OpChangesGap(p, d, op, 0, 0);
    DecisionsAreFinal(p, d, op, id);
    OthersUnlogged(p, d, op, id);
    hide TotalAfter, Lower, WithinCeilings, Ordered, SignedFor;
  }

  lemma OthersUnlogged(p: Policy, d: Desk, op: Op, id: RequestId)
    requires Ordered(d) && Decided(d, id) && (op.Submit? ==> op.request.id != id)
    ensures SignedFor(Apply(p, d, op).audit, id) == SignedFor(d.audit, id)
  {
    hide WithinCeilings, DestinationAllowed, SignedFor;
    match op
    case Submit(r, signs) =>
      var noted := Log(d, r.id, Submitted, r.requester);
      LogCounts(d, r.id, Submitted, r.requester, id);
      LogCounts(noted, r.id, ValidationFailed, r.requester, id);
      FinalizeUnlogged(noted, r, [r.requester], signs, id);
    case Approve(i, approver, signs) =>
      if i in d.byId && i != id {
        OwnId(d, i);
        var x := d.byId[i];
        var noted := Log(d, i, Approved, approver);
        LogCounts(d, i, Approved, approver, id);
        LogCounts(noted, i, ValidationFailed, approver, id);
        FinalizeUnlogged(noted, x.request, x.approvals + [approver], signs, id);
      }
    case Reject(i, actor) =>
      if i in d.byId { LogCounts(Save(d, d.byId[i].(status := REJECTED)), i, Rejected, actor, id); }
  }

  lemma FinalizeUnlogged(d: Desk, r: Request, approvals: seq<User>, signs: bool, id: RequestId)
    requires r.id != id
    ensures SignedFor(Finalize(d, r, approvals, signs).0.audit, id) == SignedFor(d.audit, id)
  {
    hide SignedFor;
    LogCounts(d, r.id, SignFailed, r.requester, id);
    var spent := d.(entries := d.entries + [Entry(r.merchant, r.network, r.amount, r.at)]);
    LogCounts(Save(spent, Pending(r, SIGNED, approvals)), r.id, Signed, r.requester, id);
  }

  /**
   * Over every run: once an id is decided, and until a submission reuses it, the decision stands, no
   * signature is logged for it, and no operation that names it stores or spends anything.
   */
  lemma {:induction false} DecidedForGood(p: Policy, before: seq<Op>, after: seq<Op>, id: RequestId)
    requires Decided(Run(p, before), id) && NoSubmission(after, id)
    ensures var d, d' := Run(p, before), Run(p, before + after);
            id in d'.byId && d'.byId[id] == d.byId[id] && SignedFor(d'.audit, id) == SignedFor(d.audit, id)
    ensures forall i :: 0 <= i < |after| && Names(after[i], id) ==> Run(p, before + after[..i + 1]) == Run(p, before + after[..i])
    decreases |after|
  {
    hide Apply, SignedFor, Names;
    if after == [] {
      assert before + after == before;
    } else {
      var init, last := after[..|after| - 1], after[|after| - 1];
      DecidedForGood(p, before, init, id);
      assert (before + after)[..|before + after| - 1] == before + init;
      RunOrdered(p, before + init);
      DecidedStep(p, Run(p, before + init), last, id);
      forall i | 0 <= i < |after| && Names(after[i], id) ensures Run(p, before + after[..i + 1]) == Run(p, before + after[..i]) {
        if i < |init| {
          assert after[..i + 1] == init[..i + 1] && after[..i] == init[..i] && after[i] == init[i];
        } else {
          assert after[..i + 1] == after && after[..i] == init;
        }
      }
    }
  }

  /** A rejected request is never signed: not by any later operation short of a new submission under its id. */
  lemma RejectedIsNeverSigned(p: Policy, before: seq<Op>, actor: User, after: seq<Op>, id: RequestId)
    requires id in Run(p, before).byId && Run(p, before).byId[id].status == PENDING_APPROVAL && NoSubmission(after, id)
    ensures var d, d' := Run(p, before), Run(p, before + [Reject(id, actor)] + after);
            && id in d'.byId && d'.byId[id] == Pending(d.byId[id].request, REJECTED, d.byId[id].approvals)
            && SignedFor(d'.audit, id) == SignedFor(d.audit, id)
    ensures var upto := before + [Reject(id, actor)];
            forall i :: 0 <= i < |after| && Names(after[i], id) ==> Run(p, upto + after[..i + 1]) == Run(p, upto + after[..i])
  {
    hide SignedFor, Names;
    var upto := before + [Reject(id, actor)];
    assert upto[..|upto| - 1] == before;
    RunOrdered(p, before);
    RejectDecides(Run(p, before), id, actor);
    DecidedForGood(p, upto, after, id);
  }
}
