# Payment gateway: verified model

A Dafny model of a crypto payment gateway's money path and of the protocols around it, with proofs.

* **Payment pipeline** (`StateMachine`, `Payments`, `Pipeline*`, `Monitor`, `ExpirySweep`): invoices,
  transfers, chain transactions, events and ledger rows, driven by scans, confirmation updates,
  reorgs, sweeps, creation and cancellation in any order. Each database transaction is one step that
  commits or, on a throw, leaves the tables as they were. `Pipeline` specifies the steps,
  `PipelineInvariant` states what they keep, `PipelineSteps` proves it, `PipelineTheorems`,
  `PipelineConfirm`, `PipelinePass`, `PipelineStuck` and `PipelineMatching` draw the conclusions,
  `PipelineRecording`, `PipelineSettlement`, `PipelineReverts` and `PipelineOwnership` say on rows,
  amounts and policies what each step decides,
  `PipelineInputs` and `FrozenInputs` hold concrete runs, and `Monitor` is the code in the service's own
  imperative form, proved equal to the specification and to stay in reached states.
* **Ledger** (`Rounding`, `Ledger`, `Reconciliation`, `LedgerStore`): rounding division, double-entry
  legs, and the incremental balance cache against the full recomputation.
* **Chain scanner** (`Text`, `Discovery`, `Coverage`, `Scanner`, `ScannerInputs`): the two discovery
  paths against what a transaction does on chain, stated on numbers instead of text, and a cursor
  whose ticks may fail at any call and go on at the next. A payment counts as covered while it was
  handed over after the last report that reaches its height. `EndToEnd` joins it to the pipeline.
* **Webhooks** (`Webhooks`, `WebhooksSolo`, `WebhookWorker`, `WebhookInputs`) and **idempotency**
  (`Idempotency`): state machines whose steps are single database accesses, with crashes between any
  two of them. The dispatcher's code carries its schedule as history, so every poll is a run of the
  machine.
* **Signing policy** (`Signing`, `SigningDecisions`): the rolling spend ceiling and the approval state
  machine.
* **Arithmetic and codecs** (`Decimal`, `Pricing`, `BitRegrouping`, `Checksum`, `Segwit`,
  `SegwitEncoding`).

## Where the code is weaker than its comments

The model follows the code.

* A repeated confirmation pass is not always a no-op. `PipelinePass.RepeatedPass` gives the exact
  condition: besides an invoice left UNDERPAID with a reported transfer, it fails for one left
  CONFIRMING with a confirmed transfer (`PipelineInputs.RepeatedPassMoves`: 40 of 100 units confirmed
  and 30 more half way), and it would for one left OVERPAID whose total has since come within the band.
* A sighting is not a no-op once the invoice is past DETECTED: the table has an edge from CONFIRMING
  back, so a further transfer takes it there. It happens exactly for money in time on a CONFIRMING
  invoice (`PipelineRecording.RecordExactly`; `PipelineInputs.SecondSightingFallsBack` is an input).
* One row can throw, and then every pass stops there: a confirmed transfer of an invoice under
  reconciliation (`PipelineStuck.StoppedForEver`, and `FrozenInputs.OtherInvoiceHeldUp` from the empty
  tables), of a late one judged PAID, of one whose merchant row is missing, or one whose credit the
  ledger refuses (`PipelineStuck.StoppedUnchanged`).
* A discrepancy is recorded only for an invoice's first orphaned credit
  (`PipelineTheorems.RecordedIffPaid`, `SecondCreditUnrecorded`; `FrozenInputs.TwoCreditsOneDiscrepancy`),
  so reorg results are stated per invoice.
* A reorg deeper than one block does not resolve over several ticks: a rewind stores the new chain's
  hash of the block below, which then stands. `Coverage.TickExactly` gives the exact condition (every
  height below the replaced one was already handled on the new chain), `ScannerInputs.DeepReorg` an input.
* A tick that fails between reporting a block and storing the rewound cursor leaves the report open: if
  that block stands again, its payments stay orphaned (`ScannerInputs.FlipBack`;
  `Coverage.OpenReportDecides` says exactly when).
* BIP-173 stops at witness version 16; the decoder accepts every version its five bits hold
  (`SegwitEncoding.ValidExactly`).
* A fee of 10000 basis points makes the payable leg zero, which the entry table refuses
  (`Ledger.PostCreditAborts`).
* The database spend tracker ignores spend dated after the request, so its ceiling holds exactly when
  no signature crowds a later date (`Signing.DatabaseWindowExactly`).
* The two writes of a delivered webhook stand inside the `try` around the call: if the second is
  rejected, the DELIVERED row becomes FAILED and is sent again (`WebhookInputs.RejectedResetResends`;
  `WebhooksSolo.TerminalExactly` says exactly when finished rows stay).
* A submission that reuses the id of a signed request overwrites it while its spend stays recorded
  (`Signing.SpendIsSignedTotalExactly`, `Signing.ReusedIdHidesSpend`).
* An entry that becomes visible below a cache's watermark is reported as a discrepancy though nobody
  tampered (`Reconciliation.OutOfOrderCounterexample`; `DriftLaw` says by how much).

## Assumptions

Transactions are atomic and unique keys hold. Chain answers, HTTP answers, clocks, query readiness
and failures are arguments. A node prints addresses and topics as prefixed hexadecimal of full width.
One tick of the scanner sees one chain: growth or replacement happens between ticks. A block is
identified by its hash, and where a result says so a transaction is mined at one height. A rejected
call has no effect, except that a reorg report or a confirmation pass may stop part way. A matched
transfer is valued in the invoice's asset. Identifiers and hashes are
natural numbers of which only equality is used; case folding is ASCII.

## Model

| member | source | states |
|---|---|---|
| PipelineTheorems.ExactlyOnceCredit | apps/blockchain-monitor/src/monitor.service.ts:270-358 | in every state reached by any mix of committed and aborted scan, confirmation, reorg, expiry, creation and cancel steps, a transfer has at most one ledger transaction, and posted, `creditedAt` set and CREDITED coincide |
| PipelineTheorems.LedgerHoldsEachTransferOnce | packages/ledger/src/posting.ts:98-187 | in every reached state the ledger's debits and its credits for a transfer each equal its amount if it is CREDITED and zero otherwise |
| PipelineTheorems.CreditsAreFinal | apps/blockchain-monitor/src/monitor.service.ts:115-187 | whatever steps follow, a credited row keeps its amount and invoice, an invoice keeps its terms, and ledger and event log only grow |
| PipelineTheorems.Conservation | apps/blockchain-monitor/src/monitor.service.ts:270-358 | an invoice has a credited transfer iff it is PAID or RECONCILIATION_REQUIRED; then its confirmed amount, its credited transfers, its debits and its credits in the ledger are one number |
| PipelineTheorems.BooksBalance | packages/ledger/src/balances.ts:25-53 | debit-normal and credit-normal balances agree per network and asset in every reached state |
| PipelineTheorems.EventTrail | apps/blockchain-monitor/src/monitor.service.ts:443-465 | each invoice's events are numbered 1..n without a gap, each starts where the previous ended, every edge is in the table with its actor permitted, and the last ends at the current status |
| PipelineTheorems.ReorgHandled | apps/blockchain-monitor/src/monitor.service.ts:373-394 | in every reached state a reorg runs to completion, leaves the ledger untouched and no MINED or CONFIRMED transaction at or above the block, orphans their uncredited transfers and freezes the invoice of each credited one |
| PipelineTheorems.OrphanAllEffect | apps/blockchain-monitor/src/monitor.service.ts:373-437 | the exact effect on every transfer and transaction row of orphaning a list of transactions in a consistent state, which never throws |
| PipelineReverts.ReorgReverts | apps/blockchain-monitor/src/monitor.service.ts:373-437 | the exact effect of a reorg in every reached state: the uncredited transfers mined from the block on are orphaned; a PAID invoice that lost a credit is frozen; a DETECTED or CONFIRMING one that lost a transfer is DETECTED if another of its transfers still awaits confirmations and PENDING otherwise; every other invoice is as it was |
| PipelineReverts.PendingMeansNoneWaits | apps/blockchain-monitor/src/monitor.service.ts:396-409 | in every reached state no PENDING invoice has a transfer awaiting confirmations |
| PipelineTheorems.ReconciliationIsSticky | packages/payments/src/state-machine.ts:355-386 | once frozen for reconciliation an invoice row is left unchanged by every later automated step |
| PipelineTheorems.ServiceStaysReached | apps/blockchain-monitor/src/monitor.service.ts:227-248 | the states left by a confirmation pass or a reorg pass, finished or stopped by a throw, are again reached states |
| PipelineTheorems.ConfirmationPassIsRun | apps/blockchain-monitor/src/monitor.service.ts:227-248 | a confirmation pass is a run of single confirmation steps |
| PipelineTheorems.ReorgPassIsRun | apps/blockchain-monitor/src/monitor.service.ts:373-394 | a reorg pass is a run of single orphaning steps |
| PipelineMatching.OnlyListedDepositsCount | apps/blockchain-monitor/src/monitor.service.ts:115-187 | in every run under one allowlist only transfers of a listed asset, at or above its minimum, are ever pending for or credited to an invoice |
| PipelineRecording.MatchExactly | packages/payments/src/matcher.ts:49-81 | the whole decision, one condition per match status, over chain status, allowlist, minimum, the address's invoice, its status and its deadline |
| PipelineRecording.RecordExactly | apps/blockchain-monitor/src/monitor.service.ts:115-216 | recording throws exactly for a negative grace, a non-positive amount or an index out of range; a credited row is never touched; otherwise the decision is stored and the invoice goes to DETECTED for money in time and to LATE_PAYMENT_REVIEW for late money on an EXPIRED or CANCELLED one |
| PipelineRecording.LateMoneyIsReviewed | packages/payments/src/matcher.ts:72-78 | a listed, unreverted deposit at an invoice's address is never UNMATCHED: it is late or awaits confirmations, and late it opens the review of a closed invoice |
| PipelineOwnership.AddressesAreOwned | apps/api/src/invoices/invoices.service.ts:136-254 | in every reached state each invoice owns its address, a free address has no owner, and no address has two |
| PipelineOwnership.MatchedByAddress | apps/blockchain-monitor/src/monitor.service.ts:130-140 | in every reached state a sighting is matched to the invoice whose address it was sent to, or to none |
| PipelineOwnership.TermsAreKept | apps/api/src/invoices/invoices.service.ts:136-254 | an invoice keeps, through every later step, the terms it was created with |
| PipelineOwnership.CreateExactly | apps/api/src/invoices/invoices.service.ts:136-254 | creation commits exactly for a free id, an available address and terms in range, and writes only the invoice and the address's owner |
| PipelineOwnership.CancelExactly | apps/api/src/invoices/invoices.service.ts:311-363 | in a reached state a merchant cancels exactly a PENDING or UNDERPAID invoice; its address is retired and stays its own |
| PipelineOwnership.ExpireExactly | apps/worker/src/expiry-sweep.ts:46-74 | in a reached state expiry takes exactly a PENDING or UNDERPAID invoice whose deadline has come, and only its status |
| PipelineOwnership.SightingMeetsReorg | apps/blockchain-monitor/src/monitor.service.ts:79-113 | a recorded transaction is hit by a later reorg exactly when it was mined at or above its block and did not revert |
| PipelineOwnership.EventActors | apps/blockchain-monitor/src/monitor.service.ts:443-465 | in every run each event names its actor: the merchant for a cancellation, the system for opening and expiry, the monitor for everything else |
| PipelineSteps.NextKeepsInv | apps/blockchain-monitor/src/monitor.service.ts:64-77 | every step, committed or rolled back, keeps the whole invariant and extends the state |
| PipelineSteps.ProcessKeepsInv | apps/blockchain-monitor/src/monitor.service.ts:64-187 | recording a transaction and its transfers keeps the invariant, whatever the adapter answered |
| PipelineSteps.ConfirmKeepsInv | apps/blockchain-monitor/src/monitor.service.ts:227-260 | the confirmation transaction of one transfer keeps the invariant, also when its snapshot is stale |
| PipelineSteps.FinalizeKeepsInv | apps/blockchain-monitor/src/monitor.service.ts:270-358 | settlement keeps the invariant: amounts written, events recorded and credits posted agree |
| PipelineSteps.SettleKeepsInv | apps/blockchain-monitor/src/monitor.service.ts:303-357 | the three endings (paid, auto-accepted, left for review) each restore the settled-invoice equation |
| PipelineSteps.CreditAllKeeps | apps/blockchain-monitor/src/monitor.service.ts:342-357 | crediting a list of eligible transfers posts each once and adds exactly their amounts |
| PipelineSteps.OrphanKeepsInv | apps/blockchain-monitor/src/monitor.service.ts:373-437 | orphaning one transaction keeps the invariant |
| PipelineSteps.CreateKeepsInv | apps/api/src/invoices/invoices.service.ts:136-254 | creating an invoice with its two events keeps the invariant |
| PipelineSteps.CancelKeepsInv | apps/api/src/invoices/invoices.service.ts:311-363 | cancelling, taken as one step, keeps the invariant |
| PipelineSteps.ExpireKeepsInv | apps/worker/src/expiry-sweep.ts:46-74 | expiring one invoice keeps the invariant |
| PipelineSteps.RunKeepsInv | apps/blockchain-monitor/src/monitor.service.ts:64-394 | the invariant holds along every run, and each state extends the earlier ones |
| PipelineSettlement.ConfirmDecides | apps/blockchain-monitor/src/monitor.service.ts:227-358 | in every consistent state a committed confirmation notes the count, takes a DETECTED or UNDERPAID invoice to CONFIRMING, and once the count suffices decides on the confirmed money: PAID with exactly its confirmed transfers credited and posted at the merchant's fee if it is within tolerance, over it and the merchant accepts overpayments, or under it and the merchant accepts partial ones; otherwise UNDERPAID or OVERPAID with nothing posted |
| PipelineSettlement.FinalizeExactly | apps/blockchain-monitor/src/monitor.service.ts:270-358 | the same decision for the finalisation of any CONFIRMING invoice with confirmed money |
| PipelineSettlement.CreditAllExactly | apps/blockchain-monitor/src/monitor.service.ts:342-357 | the credit loop credits exactly the listed rows and posts exactly their credits |
| PipelineSettlement.BandMeaning | packages/payments/src/payment-evaluation.ts:71-104 | below the accepted band is short by more than the underpayment tolerance, above it over by more than the overpayment tolerance, as products |
| PipelinePass.RepeatedPass | apps/blockchain-monitor/src/monitor.service.ts:222-248 | in every reached state, repeating a completed pass with unchanged reports changes nothing if and only if no row has a move due: none reported of a DETECTED or UNDERPAID invoice, none confirmed of a CONFIRMING one, none confirmed of an OVERPAID one whose total is now within the band (the comment promises a no-op) |
| PipelinePass.StandsStillExactly | apps/blockchain-monitor/src/monitor.service.ts:227-248 | from any consistent state a pass leaves the tables as they are if and only if every row has its report stored and no move due, or stands behind a throwing row |
| PipelinePass.CompletesExactly | apps/blockchain-monitor/src/monitor.service.ts:227-248 | a pass runs to its end if and only if no row throws on the state it meets |
| PipelinePass.RowOutcome | apps/blockchain-monitor/src/monitor.service.ts:227-358 | one row's transaction, exactly: it throws, has nothing to write or writes, by conditions read off the tables beforehand |
| PipelinePass.CreditAllAborts | apps/blockchain-monitor/src/monitor.service.ts:342-357 | the credit loop throws if and only if one posting is refused by the book as it was before the loop |
| PipelineStuck.StoppedForEver | apps/blockchain-monitor/src/monitor.service.ts:227-248 | a pending transfer of an invoice frozen for reconciliation, reported as confirmed, stops every later pass there or earlier: over any number of passes, whatever is reported for all other transfers, none completes and no row behind it gets a new confirmation count |
| PipelineStuck.StoppedUnchanged | apps/blockchain-monitor/src/monitor.service.ts:227-248 | any other throwing row with nothing due before it stops every later pass, with any reports behind it, and leaves the tables as they are |
| PipelineStuck.FrozenTakesNoCredit | apps/blockchain-monitor/src/monitor.service.ts:250-358 | no step extends the credits of a frozen invoice: its confirmed amount and its credited sum stay one number |
| PipelineInputs.RepeatedPassMoves | apps/blockchain-monitor/src/monitor.service.ts:222-260 | a concrete reached state: a pass leaves the invoice CONFIRMING, and the same reports move it again |
| PipelineInputs.SecondSightingFallsBack | apps/blockchain-monitor/src/monitor.service.ts:189-206 | a concrete run: a further transfer in time takes an invoice from CONFIRMING back to DETECTED |
| FrozenInputs.TwoCreditsOneDiscrepancy | apps/blockchain-monitor/src/monitor.service.ts:373-437 | a run from the empty tables: an invoice paid by two transfers of one block, that block replaced; both credits lie in orphaned transactions and one discrepancy is recorded |
| FrozenInputs.OtherInvoiceHeldUp | apps/blockchain-monitor/src/monitor.service.ts:227-248 | the same run goes on: a third transfer of the frozen invoice is reported confirmed, no pass completes any more, and the transfer that pays another invoice never gets a confirmation |
| PipelineConfirm.ConfirmAgain | apps/blockchain-monitor/src/monitor.service.ts:250-260 | repeating one transfer's own transaction changes nothing if and only if it reports no confirmation or did not leave the invoice UNDERPAID; otherwise exactly two events are added |
| PipelineConfirm.ReconciliationStopsLoop | apps/blockchain-monitor/src/monitor.service.ts:250-306 | on an invoice under reconciliation the transaction throws exactly when the transfer has its confirmations: the edge exists but not for the monitor |
| PipelineTheorems.OneDiscrepancyPerInvoice | apps/blockchain-monitor/src/monitor.service.ts:411-437 | in every reached state an invoice has one recorded discrepancy if it is frozen and none otherwise |
| PipelineTheorems.RecordedIffPaid | apps/blockchain-monitor/src/monitor.service.ts:411-437 | orphaning a credit records a discrepancy if and only if its invoice is still PAID |
| PipelineTheorems.SecondCreditUnrecorded | apps/blockchain-monitor/src/monitor.service.ts:411-437 | of two orphaned credits of one PAID invoice only the first is recorded |
| Monitor.MonitorService.Process | apps/blockchain-monitor/src/monitor.service.ts:64-77 | a scan commits the specified state or, on a throw, leaves the tables as they were; the service stays in a reached state |
| Monitor.MonitorService.UpdateConfirmations | apps/blockchain-monitor/src/monitor.service.ts:227-248 | the confirmation loop equals the specified pass, including where a throw stops it; the service stays in a reached state and only extends it |
| Monitor.MonitorService.Reorg | apps/blockchain-monitor/src/monitor.service.ts:373-394 | the reorg loop equals the specified pass, never throws, keeps the ledger and leaves no transaction to orphan |
| Monitor.TransactionClient.MoveInvoice | apps/blockchain-monitor/src/monitor.service.ts:443-465 | the status write and its numbered event together are the specified move |
| Monitor.TransactionClient.RecordOne | apps/blockchain-monitor/src/monitor.service.ts:115-187 | the row-by-row code records a transfer as specified, or reports the throw |
| Monitor.TransactionClient.RecordAll | apps/blockchain-monitor/src/monitor.service.ts:64-77 | the transfer loop refines the fold over transfers, stopping at the first throw |
| Monitor.TransactionClient.ConfirmedTransfers | apps/blockchain-monitor/src/monitor.service.ts:278-288 | the eligibility loop returns the eligible keys and their sum |
| Monitor.TransactionClient.CreditTransfers | apps/blockchain-monitor/src/monitor.service.ts:342-357 | the crediting loop refines the specified posting of each transfer |
| Monitor.TransactionClient.Settlement | apps/blockchain-monitor/src/monitor.service.ts:303-357 | the settlement branch as code refines its specification |
| Monitor.TransactionClient.Finalize | apps/blockchain-monitor/src/monitor.service.ts:270-358 | the in-place finalisation equals the specified one, throw for throw |
| Monitor.TransactionClient.ConfirmOne | apps/blockchain-monitor/src/monitor.service.ts:227-260 | one confirmation transaction equals the specified one, throw for throw |
| Monitor.TransactionClient.OrphanOne | apps/blockchain-monitor/src/monitor.service.ts:380-437 | orphaning one transfer in place equals the specification |
| Monitor.TransactionClient.OrphanTransaction | apps/blockchain-monitor/src/monitor.service.ts:373-394 | the orphaning transaction equals the specification |
| Payments.AcceptedBand | packages/payments/src/payment-evaluation.ts:71-104 | the accepted band contains the invoiced amount and is exactly as wide as the tolerances in basis points allow |
| StateMachine.MonitorMoves | packages/payments/src/state-machine.ts:58-386 | the table's edges for the monitor, target by target |
| StateMachine.SystemMoves | packages/payments/src/state-machine.ts:58-386 | the table's edges for the system |
| StateMachine.MerchantMoves | packages/payments/src/state-machine.ts:58-386 | a merchant only cancels, from CREATED, PENDING and UNDERPAID |
| StateMachine.AdminMoves | packages/payments/src/state-machine.ts:58-386 | the table's edges for staff |
| StateMachine.ComplianceMoves | packages/payments/src/state-machine.ts:58-386 | compliance holds for screening and decides what it holds |
| StateMachine.TableRules | packages/payments/src/state-machine.ts:11-26 | a PAID invoice never falls back to an open status, EXPIRED and CANCELLED accept exactly late money, only staff end a reconciliation, nothing enters CREATED |
| Ledger.PostingBalanced | packages/ledger/src/posting.ts:98-187 | a posting adds the gross amount to both sides of its invoice and of its transfer, and to no other |
| Ledger.PostingMovesBalances | packages/ledger/src/posting.ts:98-187 | who gets what, account by account: holdings rise by the gross, the merchant's payable by the net, the platform by the fee, which is the floor of the basis points |
| Ledger.PostCreditKeepsBalance | packages/ledger/src/posting.ts:98-187 | a posting keeps accounts well-formed and the books balanced for every network and asset |
| Ledger.PostCreditAborts | packages/ledger/src/posting.ts:98-187 | a posting is refused exactly for an argument out of range, a new posting with a 100% fee, or a precision clash |
| Ledger.PostTwice | packages/ledger/src/posting.ts:98-187 | posting the same credit again finds it and changes nothing |
| Ledger.NormalSides | packages/database/src/ledger-accounts.ts:14-80 | holdings and expenses grow by debits, all other accounts by credits |
| Ledger.CreditsKeepBooks | packages/ledger/src/posting.ts:98-187 | after any sequence of credits, refused ones included, the books balance and every leg is strictly positive |
| Ledger.CreditsAreSequenced | packages/ledger/src/posting.ts:98-187 | entries are numbered in the order they are written, without a gap |
| Reconciliation.DriftLaw | packages/ledger/src/reconciliation.ts:32-55 | along any run, in order or not, a cache drifts from the truth by exactly the signed sum of what surfaced at or below its watermark; passes never change the drift |
| Reconciliation.MatchesExactly | packages/ledger/src/reconciliation.ts:32-55 | a check after any run of an honest cache matches if and only if what surfaced late cancels out |
| Reconciliation.LedgerChecksAreClean | packages/ledger/src/reconciliation.ts:75-133 | after any mix of the ledger's own postings and checks every cache is honest, every check clean, and the refreshed cache is the balance |
| LedgerStore.LedgerTables.FindOrCreateAccount | packages/ledger/src/posting.ts:41-65 | the account lookup creates at most the missing account |
| LedgerStore.LedgerTables.InsertEntries | packages/database/prisma/migrations/20260908000100_financial_integrity/migration.sql:145-167 | entries are inserted exactly when every leg meets the table constraints |
| LedgerStore.LedgerTables.PostPaymentCredit | packages/ledger/src/posting.ts:98-187 | the posting code equals the specified posting, including the already-posted answer and the throws |
| LedgerStore.LedgerTables.ComputeAccountBalance | packages/ledger/src/balances.ts:25-53 | the balance loop returns the full signed sum and the last sequence |
| LedgerStore.LedgerTables.ComputeBalanceDelta | packages/ledger/src/balances.ts:64-89 | the incremental loop returns the sum and watermark of the rows after the mark |
| LedgerStore.LedgerTables.ReconcileAccount | packages/ledger/src/reconciliation.ts:32-55 | one account's check equals the specified one, writing the cache only on a match |
| LedgerStore.LedgerTables.RunLedgerReconciliation | packages/ledger/src/reconciliation.ts:75-133 | the run reports exactly the dishonest caches, refreshes the others and never overwrites a dishonest one |
| Reconciliation.RowsMeaning | packages/ledger/src/balances.ts:64-89 | the rows read after a mark are exactly the later entries of the account, the highest sequence last |
| Reconciliation.ComputedIsBalance | packages/ledger/src/balances.ts:25-53 | the recomputed balance is the balance of the whole entry log |
| Reconciliation.MatchedIffHonest | packages/ledger/src/reconciliation.ts:32-55 | a check matches if and only if the cached balance is the true sum up to its watermark |
| Reconciliation.ReconcileKeepsHonesty | packages/ledger/src/reconciliation.ts:32-55 | an honest cache stays honest and becomes current; a dishonest one is kept as it is |
| Reconciliation.PassesTellTheTruth | packages/ledger/src/reconciliation.ts:75-133 | after any mix of in-order postings and passes a check matches if and only if the cache was honest at the start, and a tampered cache is still there unchanged |
| Reconciliation.LateEntryBreaksHonesty | packages/ledger/src/reconciliation.ts:32-55 | an entry that becomes visible at or below the watermark ends a cache's honesty; any other entry leaves it as it was |
| Reconciliation.OutOfOrderCounterexample | packages/ledger/src/reconciliation.ts:32-55 | a concrete out-of-order posting that a pass reports although nobody tampered |
| Rounding.FloorBrackets | packages/shared/src/money/decimal.ts:106-112 | the quotient is the floor for every sign of numerator and denominator |
| Rounding.CeilBrackets | packages/shared/src/money/decimal.ts:115-121 | the quotient is the ceiling for every sign |
| Rounding.HalfUpNearest | packages/shared/src/money/decimal.ts:124-136 | the quotient is a nearest integer, ties away from zero |
| Rounding.BpsBounds | packages/shared/src/money/money.ts:85-88 | a fee below 100% of a positive amount leaves something, and the extremes are exact |
| Rounding.FeesOnPartsVersusTotal | packages/shared/src/money/money.ts:72-88 | floored fees on n transfers total between the fee on their sum minus (n-1) and that fee |
| ExpirySweep.Sweeper.Sweep | apps/worker/src/expiry-sweep.ts:24-74 | with any steps of other actors between its rows the sweep expires and counts exactly the rows that still qualify when it comes to them; it throws exactly at a row that no longer exists, with the rows before it swept and the rest left alone |
| ExpirySweep.AloneExpiresAll | apps/worker/src/expiry-sweep.ts:24-44 | left alone it expires and counts its whole batch |
| ExpirySweep.ExpireAllEffect | apps/worker/src/expiry-sweep.ts:46-74 | a sweep turns exactly the invoices of its batch EXPIRED and changes no other row |
| ExpirySweep.OneSweep | apps/worker/src/expiry-sweep.ts:24-44 | a sweep that does not reach an overdue invoice shrinks the set of older candidates by the batch size |
| ExpirySweep.ExpiredWithinBound | apps/worker/src/expiry-sweep.ts:24-44 | with k older candidates an overdue invoice is expired within floor(k/batchSize)+1 sweeps, however many newer ones arrive |
| ExpirySweep.ExpiredEventually | apps/worker/src/expiry-sweep.ts:24-44 | any n sweeps with n * batchSize above the number of older candidates contain the one that expires it |
| ExpirySweep.ExpireAllKeepsInv | apps/worker/src/expiry-sweep.ts:24-74 | a sweep keeps the pipeline invariant |
| Checksum.Polymod | packages/blockchain/src/address/bitcoin.ts:82-93 | the nested loops compute the fold of the checksum step |
| Checksum.StepLinear | packages/blockchain/src/address/bitcoin.ts:82-93 | the checksum step is linear over exclusive or, for all 32-bit states and symbols |
| Checksum.FoldLinear | packages/blockchain/src/address/bitcoin.ts:82-93 | the checksum of a sum is the sum of the checksums |
| Checksum.ZeroSymbol | packages/blockchain/src/address/bitcoin.ts:82-93 | on 30-bit states a zero symbol sends only zero to zero and stays within 30 bits |
| Checksum.BurstVisible | packages/blockchain/src/address/bitcoin.ts:82-93 | a nonzero difference confined to six adjacent symbols never vanishes |
| Segwit.ExpandHrp | packages/blockchain/src/address/bitcoin.ts:95-101 | the two loops produce high bits, zero, low bits |
| Segwit.Bech32Decode | packages/blockchain/src/address/bitcoin.ts:110-150 | the decoder as code equals its specification, refusal for refusal |
| Segwit.DecodeWitness | packages/blockchain/src/address/bitcoin.ts:133-149 | version, program length and variant rules as code |
| Segwit.ChecksumSeparates | packages/blockchain/src/address/bitcoin.ts:127-131 | words differing only within six adjacent positions have different checksums |
| Segwit.BurstChangesConstant | packages/blockchain/src/address/bitcoin.ts:110-131 | corrupting up to six adjacent data characters of a valid string never leaves it valid under the same constant |
| Segwit.AddressBurstChangesConstant | packages/blockchain/src/address/bitcoin.ts:177-181 | on addresses of one network this holds for arbitrary replacement characters, separators included |
| Segwit.AddressBurstRefused | packages/blockchain/src/address/bitcoin.ts:110-150 | after the version character such a corruption is always refused |
| SegwitEncoding.ValidExactly | packages/blockchain/src/address/bitcoin.ts:110-181 | a string is a valid address of the network exactly when it is in one case and spells some witness program with check words that bring the checksum to the variant's constant |
| SegwitEncoding.EncodedDecodes | packages/blockchain/test/bitcoin-address.test.ts:83-100 | an encoded witness program of any version and allowed length decodes to itself |
| SegwitEncoding.DecodedEncodes | packages/blockchain/src/address/bitcoin.ts:110-150 | whatever decodes is, case aside, the encoding of what it decodes to |
| SegwitEncoding.AddressExists | packages/blockchain/test/bitcoin-address.test.ts:83-100 | for every witness program on either network there are six check words, so every program has an address |
| BitRegrouping.ConvertBits | packages/blockchain/src/address/bitcoin.ts:152-175 | the loop with a 32-bit wrapping accumulator equals regrouping of the unbounded number, for every pair of widths summing to at most 32 |
| BitRegrouping.RoundTrip | packages/blockchain/src/address/bitcoin.ts:152-175 | 8-to-5 with padding then 5-to-8 without is the identity on byte strings of any length |
| BitRegrouping.AcceptsExactlyImages | packages/blockchain/src/address/bitcoin.ts:169-171 | 5-to-8 without padding accepts exactly the padded images of byte strings |
| BitRegrouping.Encoded | packages/blockchain/src/address/bitcoin.ts:152-175 | the padded image spells the same number shifted by fewer than five bits |
| BitRegrouping.DecodedBytes | packages/blockchain/src/address/bitcoin.ts:152-175 | accepted words are the decoded bytes shifted by fewer than five zero bits |
| Decimal.RoundTrip | packages/shared/src/money/decimal.ts:49-96 | for every integer and precision 0..36 parsing the printed form returns the original |
| Decimal.TrimmedRoundTrip | packages/shared/src/money/decimal.ts:99-103 | the same for the zero-trimmed printer |
| Decimal.ParsesTo | packages/shared/src/money/decimal.ts:49-75 | a text of sign, digits and fraction digits parses to the number it spells |
| Decimal.ParsesExactly | packages/shared/src/money/decimal.ts:49-75 | accepted is exactly a numeral with white space around it and no more fraction digits than places, at a precision of 0 to 36 |
| Decimal.TrimMeaning | packages/shared/src/money/decimal.ts:52-56 | trimming removes white space from both ends, all of it and nothing else |
| Decimal.Printed | packages/shared/src/money/decimal.ts:78-96 | the printed text has no needless leading zero, every decimal place, and spells the amount |
| Decimal.RefusesExtraDigits | packages/shared/src/money/decimal.ts:65-69 | more fraction digits than the asset has are refused, never cut off |
| Decimal.FinerPrecision | packages/shared/src/money/decimal.ts:49-75 | parsing is exact: one more decimal place gives exactly ten times the units |
| Decimal.TrimmedText | packages/shared/src/money/decimal.ts:99-103 | trimming removes exactly the fraction's trailing zeros, and the point with the last of them |
| Pricing.PriceIsLeast | packages/shared/src/money/exchange-rate.ts:101-137 | the price rounded up is the least amount whose value, rounded down, covers the request |
| Pricing.PriceBrackets | packages/shared/src/money/exchange-rate.ts:101-137 | the price at the quoted rate by cross-multiplication: one unit less falls short of the request |
| Pricing.WorthBrackets | packages/shared/src/money/exchange-rate.ts:101-137 | the value at the quoted rate: at most the exact one and less than one unit below it |
| Pricing.ConvertsExactly | packages/shared/src/money/exchange-rate.ts:101-137 | a conversion is refused exactly for an amount in another currency or a precision out of range |
| Pricing.FloorCeilAdjoint | packages/shared/src/money/exchange-rate.ts:101-137 | rounding the price up and the value down are adjoint |
| Pricing.PricePositive | apps/api/src/invoices/invoices.service.ts:105-106 | a positive request has a positive price |
| Pricing.JudgedByWorth | packages/payments/src/payment-evaluation.ts:71-113 | with no underpayment tolerance a payment is judged underpaid exactly when its value does not cover the request, so EXACT is worth at least the request |
| Discovery.GetTransfers | packages/blockchain/src/evm/rpc-adapter.ts:65-86 | the transfer list as code: native first, then parsed logs, nothing for a reverted transaction |
| Discovery.TopicOfAddress | packages/blockchain/src/evm/transfer-log.ts:38-53 | an address's topic denotes the same number and reads back as the lower-cased address |
| Discovery.AddressOfTopic | packages/blockchain/src/evm/transfer-log.ts:43-53 | a 32-byte topic reads as an address exactly when its number has at most 160 bits |
| Discovery.LogMeaning | packages/blockchain/src/evm/transfer-log.ts:70-94 | on a node's log the parser never throws and yields exactly the standard positive transfers |
| Discovery.TransfersMeaning | packages/blockchain/src/evm/rpc-adapter.ts:65-86 | the transfers name an account exactly when the transaction pays it on chain |
| Discovery.GenericFindsExactly | apps/blockchain-monitor/src/scanner.ts:186-190 | the receipt path finds a transaction if and only if it pays a tracked address |
| Discovery.FastFindsListed | packages/blockchain/src/evm/rpc-adapter.ts:119-152 | the light path misses no payment in the coin or a listed token |
| Discovery.FastFindsExactly | apps/blockchain-monitor/src/scanner.ts:130-146 | the light path finds exactly the transactions whose body sends coin to a tracked account or whose logs name one in a Transfer event of a listed contract |
| Discovery.BothPathsFind | apps/blockchain-monitor/src/scanner.ts:120-190 | a payment in the coin or a listed token to a tracked address is found by both paths |
| Discovery.WherePathsDiffer | apps/blockchain-monitor/src/scanner.ts:120-190 | found only by the fast path means no positive transfer to a tracked address; found only by the generic one means unlisted tokens alone |
| Scanner.ChainScanner.ScanRangeFast | apps/blockchain-monitor/src/scanner.ts:120-153 | hands over, once each, exactly the transactions of the scanned range the light path finds |
| Scanner.ChainScanner.ScanRangeGeneric | apps/blockchain-monitor/src/scanner.ts:159-184 | hands over exactly the transactions of the scanned range the receipt path finds, stopping at the first missing block |
| Scanner.ChainScanner.LoadCursor | apps/blockchain-monitor/src/scanner.ts:219-232 | a first run starts below the tip; a stored cursor is returned unchanged |
| Scanner.ChainScanner.CheckForReorg | apps/blockchain-monitor/src/scanner.ts:241-245 | reports a reorg exactly when the stored hash no longer stands |
| Scanner.ChainScanner.RewindCursor | apps/blockchain-monitor/src/scanner.ts:247-257 | hands the height to the monitor and steps back one block with the new chain's hash |
| Scanner.ChainScanner.ScanAndSave | apps/blockchain-monitor/src/scanner.ts:86-102 | the cursor moves to the last scanned block, and exactly what the path finds up to it was handed over; a scan cut short leaves the cursor |
| Scanner.ChainScanner.Tick | apps/blockchain-monitor/src/scanner.ts:77-114 | before the reorg check is over nothing moves except that a replaced block may have been reported; after it, the chain is covered up to the new cursor if and only if it was up to where the tick resumed; a completed tick hands over exactly what it found, and a replaced block's successor is scanned and handed over after the report |
| Coverage.TickExactly | apps/blockchain-monitor/src/scanner.ts:32-36 | a tick past the reorg check covers the node's chain if and only if every height up to where it resumed, one below a replaced block, was already handled on that chain: deeper replacements are missed |
| ScannerInputs.DeepReorg | apps/blockchain-monitor/src/scanner.ts:32-36 | a run: two blocks replaced, a payment in the lower one; one tick resumes above it, and however many ticks follow, it is never handed over |
| Scanner.ChainScanner.PollReorgs | apps/blockchain-monitor/src/scanner.ts:77-114 | over any series of ticks on any chains, each failing at any call or completing: while each chain agrees with the run so far, every height up to the cursor is covered, but for the block of a report left open by a failed tick; a completed tick covers its own chain; and an open report costs payments if and only if its block stands again and held some |
| Coverage.OpenReportDecides | apps/blockchain-monitor/src/scanner.ts:247-257 | after a tick that failed having reported the cursor's block, the next tick past the check covers an agreeing chain if and only if the block no longer stands or held no payment |
| Coverage.ReportedExactly | apps/blockchain-monitor/src/scanner.ts:247-257 | a report keeps what lies below it and leaves, from its height on, only blocks without payments handled |
| ScannerInputs.FlipBack | apps/blockchain-monitor/src/scanner.ts:247-257 | a run: a scanned block is replaced and reported, the tick fails, the block is back; its hash stands, it is not scanned again, and its payment stays undone |
| Coverage.LiveJoin | apps/blockchain-monitor/src/monitor.service.ts:373-394 | a hand-over counts after more calls exactly when it is repeated there for good, or counted before and no later report reaches its height |
| Scanner.ChainScanner.Poll | apps/blockchain-monitor/src/main.ts:128-156 | over any series of ticks on a growing chain, failing at any calls and recovering, every height from the first start to the cursor is covered |
| Coverage.RangeHandled | apps/blockchain-monitor/src/scanner.ts:120-184 | handing over what either path finds covers every payment of the range |
| EndToEnd.PaymentsAreRecorded | apps/blockchain-monitor/src/scanner.ts:120-184 | end to end, for the invariant every run keeps: a listed payment to a watched address at a covered height has a transfer row that is not orphaned, whatever was replaced, reported and scanned again before, each call answered by its own chain, clock and configuration |
| EndToEnd.HandedOverIsRecorded | apps/blockchain-monitor/src/monitor.service.ts:64-77 | each transfer of a transaction whose latest hand-over no later report reaches has a row that stands, its transaction recorded at that height |
| EndToEnd.CallKeepsAlive | apps/blockchain-monitor/src/monitor.service.ts:64-394 | no other sighting, no confirmation pass, finished or cut short, and no reorg above its height takes a row's standing |
| EndToEnd.ReplacementOrphans | apps/blockchain-monitor/src/scanner.ts:247-257 | end to end: when a replaced block is reported, the rows recorded at or above it are orphaned, or their invoices frozen if credited, and the ledger is untouched |
| Scanner.LoadTrackedAddresses | apps/blockchain-monitor/src/scanner.ts:196-217 | exactly the valid addresses, lower-cased, are tracked |
| Webhooks.StepKeepsInv | packages/webhooks/src/dispatcher.ts:137-357 | every database access of every worker, and every crash, keeps the protocol invariant |
| Webhooks.RunKeepsInv | packages/webhooks/src/dispatcher.ts:88-357 | the invariant holds along every interleaving of any number of workers |
| Webhooks.ClaimKeeps | packages/webhooks/src/dispatcher.ts:253-254 | the compare-and-set claim gives a row to one worker and never twice |
| Webhooks.SentAtMostOnce | packages/webhooks/src/dispatcher.ts:237-306 | with any number of workers and crashes each row is sent at most once |
| Webhooks.AttemptsWithoutGaps | packages/webhooks/src/dispatcher.ts:176-213 | a chain's attempts are exactly 1..k with k at most max(1, maxAttempts) |
| WebhooksSolo.StepKeepsSolo | packages/webhooks/src/dispatcher.ts:137-357 | with one worker each step keeps the chain shape, and finished rows too unless it is a failure's final write on a DELIVERED row |
| WebhooksSolo.OnlyLastIsOpen | packages/webhooks/src/dispatcher.ts:10-21 | with one worker crashing anywhere, and success writes rejected, every row before the last is FAILED or ABANDONED |
| WebhooksSolo.DeliveredOnce | packages/webhooks/src/dispatcher.ts:308-314 | in every state a chain has at most one DELIVERED row, and no later row beside it |
| WebhooksSolo.TerminalExactly | packages/webhooks/src/dispatcher.ts:274-306 | finished rows stay as they are throughout a run if and only if no failure overwrites a delivery, which takes a rejected reset |
| WebhooksSolo.TerminalForever | packages/webhooks/src/dispatcher.ts:308-357 | as long as no reset after a delivery is rejected, DELIVERED, EXHAUSTED and ABANDONED rows never change again |
| WebhookInputs.RejectedResetResends | packages/webhooks/src/dispatcher.ts:274-314 | a concrete run of one worker without a crash: a row is recorded DELIVERED, then FAILED, and its event is sent again |
| WebhookWorker.WebhookDispatcher.FinalizeSuccess | packages/webhooks/src/dispatcher.ts:308-314 | the row is delivered, then the counter reset; a rejected write throws with exactly the earlier one done |
| WebhookWorker.WebhookDispatcher.AttemptDelivery | packages/webhooks/src/dispatcher.ts:237-306 | skip, give up, send once, deliver or fail, with a rejected success write ending as a failure: the row's new status for each answer |
| WebhookWorker.WebhookDispatcher.SendDue | packages/webhooks/src/dispatcher.ts:94-105 | no selected row is left PENDING, and the delivered, failed and exhausted counters are the numbers of them that ended so |
| WebhookWorker.WebhookDispatcher.RunOnce | packages/webhooks/src/dispatcher.ts:88-109 | a poll, finished or crashed at any write, is a run of the protocol, so shape, budget and at-most-once sending hold after it; a finished poll went through its four phases in order, each over the rows the previous one left, and counted right |
| WebhookWorker.SelectMeaning | packages/webhooks/src/dispatcher.ts:95-99 | a query returns distinct matching rows, all of them when fewer than the batch size, and otherwise the earliest |
| WebhookWorker.TargetsExactly | packages/webhooks/src/dispatcher.ts:145-169 | an event fans out to exactly the enabled endpoints of its merchant that take its type |
| WebhookWorker.WebhookDispatcher.FinalizeFailure | packages/webhooks/src/dispatcher.ts:316-357 | the run of failures is one longer; the row is EXHAUSTED with no attempts left, else FAILED, or with the run at the limit ABANDONED together with every PENDING row of its endpoint, which goes off; a crash between the writes leaves a run of the protocol |
| WebhookWorker.WebhookDispatcher.RecoverStaleInFlight | packages/webhooks/src/dispatcher.ts:216-231 | every selected stale row is closed as a failed attempt |
| WebhookWorker.WebhookDispatcher.EnqueueNewDeliveries | packages/webhooks/src/dispatcher.ts:137-173 | exactly the owed rows are added, each PENDING, and no row changes: the first attempt at every enabled endpoint of the merchant that takes the type, for each event without a row whose merchant has an enabled endpoint and before which fewer than a batch of such events stand |
| WebhookWorker.UnfannedMeaning | packages/webhooks/src/dispatcher.ts:137-142 | the query for new events returns, in their order, exactly those without a row whose merchant has an enabled endpoint, up to the batch size |
| WebhookWorker.WebhookDispatcher.PromoteDueRetries | packages/webhooks/src/dispatcher.ts:176-213 | each selected retry is abandoned if its endpoint is off, else its next attempt is queued unless it exists; no other row changes or appears |
| Idempotency.StepKeepsInv | apps/api/src/common/idempotency.service.ts:36-120 | every access, handler outcome, failed write or crash of any caller keeps the protocol invariant |
| Idempotency.RunKeepsInv | apps/api/src/common/idempotency.service.ts:36-120 | the invariant holds along every interleaving |
| Idempotency.OneHandlerAtATime | apps/api/src/common/idempotency.service.ts:74-96 | at most one handler runs at a time for a key |
| Idempotency.OneSuccessEver | apps/api/src/common/idempotency.service.ts:98-119 | at most one handler ever succeeds for a key and none starts after it |
| Idempotency.ReplayIsTheSuccess | apps/api/src/common/idempotency.service.ts:52-66 | every answer, replayed or first, is the stored success for the same key and body hash |
| Idempotency.AnswersAgree | apps/api/src/common/idempotency.service.ts:9-21 | two callers answered for one key got the same response for the same body |
| Idempotency.OthersAreTurnedAway | apps/api/src/common/idempotency.service.ts:52-96 | over every interleaving, while one caller holds a key another that arrives is told it is in flight, or that the key was used for another body, and one that read before loses the insert; neither leaves a trace |
| Idempotency.StoredIsReplayed | apps/api/src/common/idempotency.service.ts:52-68 | once a success is stored every later caller is answered from it, or refused for another body |
| Idempotency.RetryAfterSuccess | apps/api/src/common/idempotency.service.ts:9-21 | after a success the same body is replayed, without touching the row, and another body is refused |
| Idempotency.RetryAfterFailure | apps/api/src/common/idempotency.service.ts:98-109 | after a failure the key is free and a repeat runs |
| Idempotency.IdempotencyService.Execute | apps/api/src/common/idempotency.service.ts:36-120 | a call nobody interleaves with takes exactly its own steps of the protocol, whatever the rows |
| Signing.PolicyEnforcingSigningService.SubmitRequest | packages/signing/src/policy-signing-service.ts:53-71 | submission as code equals its specification, audit included |
| Signing.PolicyEnforcingSigningService.ApproveRequest | packages/signing/src/policy-signing-service.ts:80-109 | approval as code equals its specification, refusals and re-check included |
| Signing.PolicyEnforcingSigningService.RejectRequest | packages/signing/src/policy-signing-service.ts:112-123 | rejection as code equals its specification |
| Signing.PolicyEnforcingSigningService.FinalizeAndSign | packages/signing/src/policy-signing-service.ts:155-168 | sign, record and store, or only an audit event when the backend fails |
| Signing.WindowNeverExceeded | packages/signing/src/spend-tracker.ts:24-33 | with the in-memory tracker, for any order of submissions and approvals, the amount signed in every interval (T-w, T] stays within the ceiling |
| Signing.NegativeAmountBreaksWindow | packages/signing/src/policy-signing-service.ts:133-153 | a negative amount, which the API refuses, would break it |
| Signing.SignatureFitsExactly | apps/api/src/signing/prisma-spend-tracker.ts:14-21 | one more signature keeps every window within the ceiling if and only if there is room at its own date and at every later date recorded less than a window after it |
| Signing.DatabaseWindowExactly | apps/api/src/signing/prisma-spend-tracker.ts:14-21 | over every run with the database tracker the ceiling holds in every window if and only if no signature crowds a later date already recorded |
| Signing.DatabaseWindow | apps/api/src/signing/prisma-spend-tracker.ts:14-21 | in particular it holds when each merchant's signatures on a network come in date order |
| Signing.DatabaseWindowNeedsOrder | apps/api/src/signing/prisma-spend-tracker.ts:17 | a run in which it fails: the later-dated spend is invisible to the earlier-dated request |
| Signing.OpChangesGap | packages/signing/src/policy-signing-service.ts:155-168 | each operation moves recorded spend away from the signed total by exactly the signed amount it overwrites |
| Signing.SpendIsSignedTotal | packages/signing/src/approval-store.ts:21-31 | recorded spend equals the sum over SIGNED requests while no signed request is overwritten |
| Signing.SpendIsSignedTotalExactly | packages/signing/src/approval-store.ts:21-31 | with non-negative amounts the two agree if and only if no accepted submission reuses the id of a nonzero signed request |
| Signing.ReusedIdHidesSpend | packages/signing/src/approval-store.ts:21-31 | a run from the empty desk: two submissions under one id, 15 spent and 5 on record as signed |
| Signing.ApprovalsRespected | packages/signing/src/policy-signing-service.ts:80-109 | in every run approvers are distinct and never the requester, a signature has the required number, and its destination and amount are allowed |
| Signing.AuditTells | packages/signing/src/policy-signing-service.ts:176-183 | in every run the trail holds the submission, approvals and decision behind each stored request, and one signature per recorded spend |
| Signing.DecisionsAreFinal | packages/signing/src/policy-signing-service.ts:80-123 | a signed or rejected request changes only if a submission reuses its id |
| SigningDecisions.SubmitDecides | packages/signing/src/policy-signing-service.ts:53-71 | every answer of a submission by its exact condition on allowlist, ceilings and required approvals, with what is spent, stored and logged |
| SigningDecisions.ApproveDecides | packages/signing/src/policy-signing-service.ts:80-109 | every answer of an approval by its exact condition, with what is spent, stored and logged |
| SigningDecisions.RejectDecides | packages/signing/src/policy-signing-service.ts:112-123 | rejecting a pending request stores it REJECTED under its id and logs it; anything else is refused unchanged |
| SigningDecisions.RejectedIsNeverSigned | packages/signing/src/policy-signing-service.ts:80-123 | over every run, once rejected and until a submission reuses its id, a request stays REJECTED, no signature is logged for it and no operation naming it stores or spends anything |
| SigningDecisions.DecidedForGood | packages/signing/src/policy-signing-service.ts:80-123 | the same for every decided request |
| SigningDecisions.TrackerTotal | packages/signing/src/spend-tracker.ts:24-29 | the tracker counts exactly the merchant's and network's spend later than the window's beginning, and for the database tracker not later than the request |

## Left out

- User interface, HTTP controllers, guards, DTOs and mappers: plumbing.
- SQL, isolation anomalies and connection failures beyond "the write happened or it did not".
- RPC and rate providers, DNS, HTTP bodies and signatures: arbitrary answers.
- SHA-256, keccak, HMAC, AES, ECDSA and EIP-55 checksums: no property here needs their internals.
- Base58Check decoding: its validity rests on SHA-256; the extra zero byte on an all-'1' input is not modelled.
- Admin steps on invoices (manual acceptance, refunds, reopening): conservation is claimed for automated steps and cancellation only.
- PipelineSteps.CancelKeepsInv: the code reads the status outside its transaction; cancelling is taken as one atomic step.
- LedgerStore.LedgerTables.RunLedgerReconciliation: the query's active-account and merchant filters are absent; every account is checked.
- Rows queried without an order are visited in insertion order in the pipeline.
- Account-code strings: formatting and splitting.
- Event metadata, webhook outbox rows, version counters and timestamp columns of the pipeline tables.
- Webhook progress: which retries come due, backoff jitter and anything past one batch; deliveries deleted with their event or endpoint; the signature-timestamp write, which changes no status.
- WebhookWorker.WebhookDispatcher.PromoteDueRetries: rows are taken in creation order, not by `nextRetryAt`; which due rows go first when there are more than a batch is not claimed.
- WebhookWorker.WebhookDispatcher.RunOnce: the abandoned counter, which adds rows swept with a disabled endpoint, is not specified.
- Idempotency.IdempotencyService.Execute: only a call whose writes succeed and that nobody interleaves with; the protocol around it covers the rest.
- Webhook chain shape with several workers: a slow worker may record success after another took its row for stale, so only at-most-once sending, the absence of gaps and the budget are claimed there.
- Expiry of idempotency keys: no code deletes them by age.
- Custody backends and key stores behind the signer: an arbitrary answer.
- Signing.PolicyEnforcingSigningService.FinalizeAndSign: signing, recording the spend and storing the decision are one atomic step; a tracker or store write rejected after the backend signed is not modelled, so the ceilings are claimed for recorded spend.
- Characters outside the basic plane in a Bech32 human-readable part: one code point stands for one character.
- Money operations that only add, compare or rescale: they would add easy members.
- BitRegrouping.ConvertBits: the bitwise `|`, `&` and shifts are written as the additions, remainders and products they equal on 32-bit values; widths whose sum exceeds 32 are not covered, as the accumulator would then lose pending bits.
- Scanner.ChainScanner.CheckForReorg: hashes are compared as identities, not as text in either case.
- Scanner.ChainScanner.Tick: one chain answers all calls of a tick; growth during it is taken to happen before or after.
