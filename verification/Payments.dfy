/** Pure payment decisions: matching, evaluation, expiry, confirmations (packages/payments/src). */
module Payments {
  import opened Basics
  import opened Rounding
  import opened StateMachine

  // ---------------------------------------------------------------- evaluation

  datatype PaymentOutcome = NONE | EXACT | UNDERPAYMENT | OVERPAYMENT

  predicate ValidBps(bps: int) {
    0 <= bps <= 10000
  }

  function MinimumAccepted(required: int, underBps: int): int {
    required - BpsFloor(required, underBps)
  }

  function MaximumAccepted(required: int, overBps: int): int {
    required + BpsFloor(required, overBps)
  }

  /** `evaluatePayment` on amounts of one asset; Abort is its throw. */
  function EvaluatePayment(required: int, received: int, underBps: int, overBps: int): Outcome<PaymentOutcome> {
    if required <= 0 || !ValidBps(underBps) || !ValidBps(overBps) then Abort
    else if received == 0 then Commit(NONE)
    else if received < MinimumAccepted(required, underBps) then Commit(UNDERPAYMENT)
    else if received > MaximumAccepted(required, overBps) then Commit(OVERPAYMENT)
    else Commit(EXACT)
  }

  function StatusForOutcome(o: PaymentOutcome): Option<Status> {
    match o
    case EXACT => Some(PAID)
    case UNDERPAYMENT => Some(UNDERPAID)
    case OVERPAYMENT => Some(OVERPAID)
    case NONE => None
  }

  /** The accepted band contains the invoiced amount and is exactly what the stated tolerances allow. */
  lemma AcceptedBand(required: int, underBps: int, overBps: int)
    requires required > 0 && ValidBps(underBps) && ValidBps(overBps)
    ensures 0 <= MinimumAccepted(required, underBps) <= required <= MaximumAccepted(required, overBps)
    ensures 10000 * (required - MinimumAccepted(required, underBps)) <= required * underBps
    ensures 10000 * (MaximumAccepted(required, overBps) - required) <= required * overBps
    // The band is as wide as the tolerances allow: one unit further is outside them.
    ensures 10000 * (required - MinimumAccepted(required, underBps) + 1) > required * underBps
    ensures 10000 * (MaximumAccepted(required, overBps) + 1 - required) > required * overBps
  {
    BpsBounds(required, underBps);
    BpsBounds(required, overBps);
    FloorBrackets(required * underBps, 10000);
    FloorBrackets(required * overBps, 10000);
  }

  // ---------------------------------------------------------------- expiry and confirmations

  /** `evaluateExpiry(...).expired` */
  predicate Expired(expiresAt: Time, now: Time) {
    expiresAt - now <= 0
  }

  /** `isWithinGrace` for a non-negative grace; a negative one throws. */
  predicate WithinGrace(expiresAt: Time, now: Time, graceSeconds: int) {
    now <= expiresAt + graceSeconds * 1000
  }

  predicate IsConfirmed(confirmations: int, required: int) {
    confirmations >= required
  }

  // ---------------------------------------------------------------- matching

  datatype MatchStatus =
    | CREDITED | PENDING_CONFIRMATION | LATE_REVIEW | UNSUPPORTED_ASSET
    | BELOW_MINIMUM | UNMATCHED | COMPLIANCE_HOLD | ORPHANED

  datatype ChainStatus = TX_PENDING | TX_SUCCESS | TX_REVERTED

  /** `evaluateTransferMatch`, as the monitor calls it: never already credited, no compliance hold. */
  function EvaluateMatch(assetRecognized: bool, meetsMinimum: bool, txStatus: ChainStatus,
                         invoiceStatus: Option<Status>, invoiceExpired: bool): MatchStatus {
    if txStatus == TX_REVERTED then UNMATCHED
    else if !assetRecognized then UNSUPPORTED_ASSET
    else if !meetsMinimum then BELOW_MINIMUM
    else match invoiceStatus
      case None => UNMATCHED
      case Some(s) => if invoiceExpired || !IsPayable(s) then LATE_REVIEW else PENDING_CONFIRMATION
  }
}
