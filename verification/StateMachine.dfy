/** The invoice transition table and its gate (packages/payments/src/state-machine.ts). */
module StateMachine {
  import opened Basics

  datatype Status =
    | CREATED | PENDING | DETECTED | CONFIRMING | PAID | UNDERPAID | OVERPAID
    | EXPIRED | CANCELLED | FAILED | REFUNDED
    | COMPLIANCE_REVIEW_REQUIRED | LATE_PAYMENT_REVIEW | RECONCILIATION_REQUIRED

  datatype Actor = SYSTEM | MONITOR | MERCHANT | ADMIN | COMPLIANCE

  const ANY_INTERNAL: set<Actor> := {SYSTEM, MONITOR}
  const HUMAN_REVIEW: set<Actor> := {ADMIN, COMPLIANCE}

  /** The actors of the edge `from -> to`, or None when the table has no such edge. */
  function FindRule(from: Status, to: Status): Option<set<Actor>> {
    match from
    case CREATED => (
      match to
      case PENDING => Some({SYSTEM})
      case CANCELLED => Some({MERCHANT, ADMIN})
      case FAILED => Some({SYSTEM})
      case COMPLIANCE_REVIEW_REQUIRED => Some(HUMAN_REVIEW + {SYSTEM})
      case _ => None)
    case PENDING => (
      match to
      case DETECTED => Some({MONITOR})
      case EXPIRED => Some({SYSTEM})
      case CANCELLED => Some({MERCHANT, ADMIN})
      case FAILED => Some({SYSTEM})
      case COMPLIANCE_REVIEW_REQUIRED => Some(HUMAN_REVIEW + {SYSTEM})
      case _ => None)
    case DETECTED => (
      match to
      case CONFIRMING => Some({MONITOR})
      case PENDING => Some({MONITOR})
      case FAILED => Some({SYSTEM})
      case COMPLIANCE_REVIEW_REQUIRED => Some(HUMAN_REVIEW + {MONITOR})
      case _ => None)
    case CONFIRMING => (
      match to
      case PAID => Some({MONITOR})
      case UNDERPAID => Some({MONITOR})
      case OVERPAID => Some({MONITOR})
      case DETECTED => Some({MONITOR})
      case PENDING => Some({MONITOR})
      case FAILED => Some({SYSTEM})
      case COMPLIANCE_REVIEW_REQUIRED => Some(HUMAN_REVIEW + {MONITOR})
      case RECONCILIATION_REQUIRED => Some(ANY_INTERNAL)
      case _ => None)
    case PAID => (
      match to
      case REFUNDED => Some({SYSTEM})
      case RECONCILIATION_REQUIRED => Some(ANY_INTERNAL)
      case COMPLIANCE_REVIEW_REQUIRED => Some(HUMAN_REVIEW)
      case _ => None)
    case UNDERPAID => (
      match to
      case CONFIRMING => Some({MONITOR})
      case PAID => Some({MONITOR, ADMIN})
      case EXPIRED => Some({SYSTEM})
      case CANCELLED => Some({MERCHANT, ADMIN})
      case REFUNDED => Some({SYSTEM})
      case FAILED => Some({SYSTEM})
      case RECONCILIATION_REQUIRED => Some(ANY_INTERNAL)
      case _ => None)
    case OVERPAID => (
      match to
      case PAID => Some({MONITOR, SYSTEM, ADMIN})
      case REFUNDED => Some({SYSTEM})
      case RECONCILIATION_REQUIRED => Some(ANY_INTERNAL)
      case FAILED => Some({SYSTEM})
      case _ => None)
    case EXPIRED => (
      match to
      case LATE_PAYMENT_REVIEW => Some({MONITOR})
      case _ => None)
    case CANCELLED => (
      match to
      case LATE_PAYMENT_REVIEW => Some({MONITOR})
      case _ => None)
    case FAILED => (
      match to
      case RECONCILIATION_REQUIRED => Some(ANY_INTERNAL)
      case PENDING => Some({ADMIN})
      case _ => None)
    case REFUNDED => (
      match to
      case RECONCILIATION_REQUIRED => Some(ANY_INTERNAL)
      case _ => None)
    case COMPLIANCE_REVIEW_REQUIRED => (
      match to
      case PENDING => Some({COMPLIANCE})
      case CONFIRMING => Some({COMPLIANCE})
      case PAID => Some({COMPLIANCE})
      case CANCELLED => Some(HUMAN_REVIEW)
      case REFUNDED => Some({SYSTEM})
      case FAILED => Some(HUMAN_REVIEW)
      case _ => None)
    case LATE_PAYMENT_REVIEW => (
      match to
      case PAID => Some({ADMIN})
      case REFUNDED => Some({SYSTEM})
      case RECONCILIATION_REQUIRED => Some(ANY_INTERNAL)
      case COMPLIANCE_REVIEW_REQUIRED => Some(HUMAN_REVIEW)
      case _ => None)
    case RECONCILIATION_REQUIRED => (
      match to
      case PAID => Some({ADMIN})
      case UNDERPAID => Some({ADMIN})
      case OVERPAID => Some({ADMIN})
      case EXPIRED => Some({ADMIN})
      case REFUNDED => Some({ADMIN})
      case FAILED => Some({ADMIN})
      case _ => None)
  }

  predicate CanTransition(from: Status, to: Status) {
    FindRule(from, to).Some?
  }

  predicate IsActorAllowed(from: Status, to: Status, actor: Actor) {
    match FindRule(from, to)
    case Some(actors) => actor in actors
    case None => false
  }

  /** `assertTransition`: true when it returns, false when it throws. */
  predicate AssertTransition(from: Status, to: Status, actor: Actor) {
    from != to && IsActorAllowed(from, to, actor)
  }

  const PAYABLE: set<Status> := {PENDING, DETECTED, CONFIRMING, UNDERPAID}

  predicate IsPayable(s: Status) {
    s in PAYABLE
  }

  /** The statuses in which money has been credited for the invoice. */
  predicate Settled(s: Status) {
    s == PAID || s == RECONCILIATION_REQUIRED
  }

  // ---------------------------------------------------------------- the table read by actor

  /** The statuses an invoice may be frozen from, and those it may be held for screening from. */
  const FUNDED: set<Status> := {CONFIRMING, PAID, UNDERPAID, OVERPAID, FAILED, REFUNDED, LATE_PAYMENT_REVIEW}
  const SCREENED: set<Status> := {CREATED, PENDING, DETECTED, CONFIRMING, PAID, LATE_PAYMENT_REVIEW}

  /** A merchant only cancels, and only before money is on its way. */
  lemma MerchantMoves(from: Status, to: Status)
    ensures AssertTransition(from, to, MERCHANT) <==> to == CANCELLED && from in {CREATED, PENDING, UNDERPAID}
  {
  }

  /** The monitor follows the chain: forward by confirmations, back by reorgs, to review for late or lost money. */
  lemma MonitorMoves(from: Status, to: Status)
    ensures AssertTransition(from, to, MONITOR) <==>
            match to
            case DETECTED => from in {PENDING, CONFIRMING}
            case CONFIRMING => from in {DETECTED, UNDERPAID}
            case PENDING => from in {DETECTED, CONFIRMING}
            case PAID => from in {CONFIRMING, UNDERPAID, OVERPAID}
            case UNDERPAID => from == CONFIRMING
            case OVERPAID => from == CONFIRMING
            case LATE_PAYMENT_REVIEW => from in {EXPIRED, CANCELLED}
            case RECONCILIATION_REQUIRED => from in FUNDED
            case COMPLIANCE_REVIEW_REQUIRED => from in {DETECTED, CONFIRMING}
            case _ => false
  {
  }

  /** The system opens, expires, fails, refunds and freezes. */
  lemma SystemMoves(from: Status, to: Status)
    ensures AssertTransition(from, to, SYSTEM) <==>
            match to
            case PENDING => from == CREATED
            case PAID => from == OVERPAID
            case EXPIRED => from in {PENDING, UNDERPAID}
            case FAILED => from in {CREATED, PENDING, DETECTED, CONFIRMING, UNDERPAID, OVERPAID}
            case REFUNDED => from in {PAID, UNDERPAID, OVERPAID, COMPLIANCE_REVIEW_REQUIRED, LATE_PAYMENT_REVIEW}
            case RECONCILIATION_REQUIRED => from in FUNDED
            case COMPLIANCE_REVIEW_REQUIRED => from in {CREATED, PENDING}
            case _ => false
  {
  }

  /** Compliance holds for screening and decides what it holds. */
  lemma ComplianceMoves(from: Status, to: Status)
    ensures AssertTransition(from, to, COMPLIANCE) <==>
            if from == COMPLIANCE_REVIEW_REQUIRED then to in {PENDING, CONFIRMING, PAID, CANCELLED, FAILED}
            else to == COMPLIANCE_REVIEW_REQUIRED && from in SCREENED
  {
  }

  /** Staff cancel, accept, screen, reopen, and alone end a reconciliation. */
  lemma AdminMoves(from: Status, to: Status)
    ensures AssertTransition(from, to, ADMIN) <==>
            match to
            case PENDING => from == FAILED
            case PAID => from in {UNDERPAID, OVERPAID, LATE_PAYMENT_REVIEW, RECONCILIATION_REQUIRED}
            case CANCELLED => from in {CREATED, PENDING, UNDERPAID, COMPLIANCE_REVIEW_REQUIRED}
            case FAILED => from in {COMPLIANCE_REVIEW_REQUIRED, RECONCILIATION_REQUIRED}
            case COMPLIANCE_REVIEW_REQUIRED => from in SCREENED
            case _ => from == RECONCILIATION_REQUIRED && to in {UNDERPAID, OVERPAID, EXPIRED, REFUNDED}
  {
  }

  /** An edge is there exactly when some actor may take it. */
  lemma EdgeHasActor(from: Status, to: Status)
    ensures CanTransition(from, to) <==> exists actor: Actor :: IsActorAllowed(from, to, actor)
  {
    assert CanTransition(from, to) ==> IsActorAllowed(from, to, SYSTEM) || IsActorAllowed(from, to, MONITOR) ||
                                       IsActorAllowed(from, to, MERCHANT) || IsActorAllowed(from, to, ADMIN) || IsActorAllowed(from, to, COMPLIANCE);
  }

  /**
   * The two rules the table is built on: a paid invoice never falls back to an open status, and a
   * closed one still accepts late money; only staff end a reconciliation.
   */
  lemma TableRules(to: Status, actor: Actor)
    ensures AssertTransition(PAID, to, actor) ==> to in {REFUNDED, RECONCILIATION_REQUIRED, COMPLIANCE_REVIEW_REQUIRED}
    ensures AssertTransition(EXPIRED, to, actor) <==> to == LATE_PAYMENT_REVIEW && actor == MONITOR
    ensures AssertTransition(CANCELLED, to, actor) <==> to == LATE_PAYMENT_REVIEW && actor == MONITOR
    ensures AssertTransition(RECONCILIATION_REQUIRED, to, actor) ==> actor == ADMIN
    ensures !CanTransition(to, CREATED) && !CanTransition(to, to)
  {
  }
}
