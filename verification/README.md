# Verification model of an electronic-invoicing platform

The platform issues Dominican electronic fiscal documents (e-CF). Each document
takes a fiscal number (eNCF) from a registered range, is charged against a quota,
travels through a signing and submission pipeline to the tax authority (DGII), and
carries totals whose arithmetic and text encoding are prescribed. This project
models that core in Dafny and proves what it keeps over whole runs.

* `Encf`, over `Digits`, is the number format: zero-padded decimals, and text order
  against numeric order. `Sequences` holds the sequence rows: registration,
  assignment, the planner of range annulments and the locked apply step. `Usage` is
  the quota meter of one billing cycle. `Pipeline` holds the processing job, the
  status-poll job, the contingency batch, manual poll and void, for every answer of
  DGII and for workers that die in an outside call.
* `Company` puts these together as one state machine. An annulment is two steps:
  the plan on a snapshot, and DGII's answer later, with anything in between.
  `CompanyInvariant` proves the invariant of all runs. `AllocatorRuns` (annulled
  numbers), `IssuedRuns` (issued numbers), `SerialRuns`, `UsedUpRows`,
  `OverlapExamples`, `AnnulableFacts`, `AnnulledInvoices`, `RefundedInvoices` (both over
  `Revival`), `PipelineRuns`, `ContingencyRuns` and `VerdictRuns` prove what follows
  for runs. `UsageConcurrency` refines the meter to single SQL statements that
  interleave.
* `Emissions`, `Registrations`, `AnnulmentRequests`, `AnswerRuns` and `JobOutcomes`
  start from the requests and from DGII's answers and state, with every status, code,
  limit and time spelled out, what is stored, written, queued or refused, and what
  stays of it over runs.
* `Database`, `UsageService`, `SequencesService`, `InvoicesService` and `Workers`
  are the services as classes that update tables in place, with a savepoint and
  rollback for the emission transaction; each method is proved against the function
  of the state machine. `Application` wires them: every event executed by the
  services takes the tables exactly one step of the state machine. That one result
  stands for the service methods whose branches are those of their function.
* `Rounding`, `Isc`, `Totals`, `TotalsFacts` and `TaxTableFacts` are the fiscal
  arithmetic over exact numbers, and `ExactTotals` compares it, column by column and
  taxes included, with sums written out from the items; `Anecf` is the annulment document; `EscapeXml` is
  the text encoding.

`dafny verify dfyconfig.toml` checks everything.

## Where the code differs from its documentation or from what one expects

* The writes that deactivate a row that has run out or expired are rolled back with
  the failing transaction (`src/sequences/sequences.service.ts:240-248`, `:269-278`),
  although the message at lines 124-128 advises to wait until the row is used up. Only
  DGII's acceptance of an annulment of all that is left takes a row out of use
  (`UsedUpRows.OnlyAcceptanceDeactivates`); until then an expired row blocks its type
  (`UsedUpRows.ExpiredRowBlocksItsType`). An active row stays active in every
  continuation exactly when it has no number left and no annulment already in flight
  would take it out of use or give it numbers back (`UsedUpRows.ActiveForGoodIff`),
  and every emission and registration of its type is then refused for good
  (`UsedUpRows.UsedUpRowBlocksItsType`). Two emissions reach such a state
  (`UsedUpRows.UsedUpIsReached`); in `UsedUpRows.StuckRowIsReplaced` an annulment in
  flight frees the row and a replacement is registered.
* Two annulments of one type in flight at once can undo each other, because the apply
  step writes the end number of its own snapshot: an annulled number is handed out
  again (`OverlapExamples.OverlapUndoesACut`). No row hands out a number annulled on
  it exactly when every apply passes a guard (`AllocatorRuns.AnnulledNumbersStayOutIff`),
  and no row of the company does exactly when registrations pass one as well
  (`AllocatorRuns.CompanyNeverReissuesIff`).
* Overlapping annulments can also let a range already issued be registered again, and
  only the unique index then stops the reuse (`OverlapExamples.OverlapReusesANumber`).
  The exact condition is that no registration of the run covers an issued number
  (`IssuedRuns.IssuedNumbersStayOutIff`, `IssuedRuns.FreshIff`).
* Annulments of a type made one at a time meet the apply guard and the issued-number
  condition (`SerialRuns.SerialRunsAreGuarded`, `SerialRuns.SerialRunsAreFresh`).
* A failed invoice whose number was annulled, with DGII's acceptance, can be marked for
  retry and end ACCEPTED, because no step of the pipeline reads annulments
  (`AnnulledInvoices.AnnulledInvoiceIsAccepted`); and a number handed out while its
  annulment is in flight becomes an annulled one by DGII's answer alone
  (`AnnulledInvoices.IssuedInFlight`). Both are excluded by checks made before the
  calls, against the ranges accepted or still in flight, and none of the checks is
  superfluous (`AnnulledInvoices.NoAnswerConflictsIff`); for the request itself the
  planner's own check is enough where no row has issued numbers ahead
  (`AnnulledInvoices.PlannerChecksEnough`).
* ACCEPTED documents are said to keep their quota
  (`src/billing/usage.service.ts:188-195`). One that DGII rejected first was refunded
  then, and a later poll that finds it accepted charges nothing
  (`RefundedInvoices.AcceptedFreeOfCharge`). The checks that exclude it, exact for each
  call, are those of `RefundedInvoices.NoAnswerFreesIff`.
* The list of annullable eNCFs says that all of its entries can be annulled; those
  that the active row does not span are refused (`AnnulableFacts.ListedPlansIff`, with
  a failed invoice of an earlier row in `AnnulableFacts.ListedAndRefused`).
* Top-up packs are described as first in, first out; the oldest one is charged without
  a cap of its own (`Usage.OldestPackCanExceedItsCap`). Packs stay within what they sold
  exactly when every charge to the top-up pool finds room in the oldest
  (`Usage.PacksWithinCapIff`).
* The flag EXHAUSTED misses the ceiling for a plan that includes nothing and for an
  empty pack bought at the ceiling (`Usage.ExhaustedFlagIsExact` gives the condition).
* When the statements of a charge and a refund interleave, the quota holds but the
  split into base and top-up does not; top-up use may even appear where nobody bought
  a pack (`UsageConcurrency.SplitIsExactIff`, `UsageConcurrency.TopupChargedWithoutPurchase`).
* The planner accepts ranges that overlap below the counter, and the annulment
  document then counts those numbers twice (`Anecf.CountIsDistinctIff`, and on a
  reachable row `AnnulableFacts.GapDeclaredTwice`).
* The escaping function keeps U+FFFE and U+FFFF, which XML 1.0 excludes
  (`EscapeXml.OutputIsXmlTextIff`).
* The 20 status polls of a job are said to take about 24 hours
  (`src/queue/status-poll.processor.ts:30`); their delays add up to 14 h 48 min 30 s
  (`Workers.PollingTime`).
* The balance check compares against a subtotal without the non-invoiceable lines, so
  it rejects a document exactly when those exceed one unit a line
  (`TaxTableFacts.CuadraturaVerdict`).

## Model

| member | source | states |
|---|---|---|
| `Encf.PaddedOrderIsNumericOrder` | src/sequences/sequences.service.ts:517-530 | on zero-padded decimals of any width, text order is numeric order, both directions |
| `Encf.PaddingIsFixedWidth` | src/xml-builder/ecf-types.ts:300-303 | a decimal padded on the left is the fixed-width text of the number, for every number that fits |
| `Encf.ParseOfFixed` | src/xml-builder/ecf-types.ts:305-308 | parsing inverts the fixed-width text |
| `Encf.FixedOfParse` | src/xml-builder/ecf-types.ts:310-322 | any digit string is the fixed-width text of the number it parses to |
| `Encf.ParseOfFormat` | src/xml-builder/ecf-types.ts:300-322 | a formatted eNCF is valid and gives back its type and number |
| `Encf.FormatOfParse` | src/xml-builder/ecf-types.ts:300-322 | a valid eNCF is the format of its own type and number |
| `Encf.FormatInjective` | src/xml-builder/ecf-types.ts:300-303 | two eNCFs are equal exactly when type and number are |
| `Encf.RangeQueryIsNumeric` | src/sequences/sequences.service.ts:517-530 | the text-range query of the blocking check selects exactly the eNCFs of that type with a number in the interval |
| `Sequences.OverlapQueryIsIntersection` | src/sequences/sequences.service.ts:91-105 | the three alternatives of the overlap query hold exactly when the ranges share a number |
| `Sequences.RegisterSucceedsIff` | src/sequences/sequences.service.ts:65-152 | registration succeeds exactly for a well-formed range that shares no number with a row of its type while no row of the type is active; the new row has its type and date and hands out exactly the range |
| `Sequences.AssignSucceedsIff` | src/sequences/sequences.service.ts:205-287 | an assignment succeeds exactly when the active row of the type is not expired and has its next number inside, and each of the three refusals is given exactly in its own case |
| `Sequences.MiddleSegmentIff` | src/sequences/sequences.service.ts:548-571 | the planner refuses a future segment exactly when assignable numbers would remain on both sides of it |
| `Sequences.PlanSimSucceedsIff` | src/sequences/sequences.service.ts:497-571 | one range is accepted exactly when it lies in the simulated row, no live invoice holds one of its consumed numbers, and what remains is one interval |
| `Sequences.PlanSimIsExact` | src/sequences/sequences.service.ts:510-571 | one accepted range takes exactly its own numbers away from the simulated row's future |
| `Sequences.PlanIsExact` | src/sequences/sequences.service.ts:449-572 | after a whole request each simulated row differs from its snapshot by exactly the numbers that the ranges name, and every range lies in its row |
| `Sequences.PlanSparesLiveInvoices` | src/sequences/sequences.service.ts:510-547 | no invoice outside REJECTED and ERROR sits at a planned number that the counter has passed |
| `SequencesService.SequencesService.AssignNextEncf` | src/sequences/sequences.service.ts:198-299 | inside the caller's transaction: the next number of the active row, or the refusal with isActive already written |
| `SequencesService.SequencesService.PlanOnRow` | src/sequences/sequences.service.ts:497-571 | the in-place adjustment of one simulated row is the planner's step |
| `SequencesService.SequencesService.PlanAnnulment` | src/sequences/sequences.service.ts:449-572 | the loop over the ranges, with its early failures, computes the plan of the request |
| `SequencesService.PlanFailsEarly` | src/sequences/sequences.service.ts:449-572 | a range that fails makes the request fail with its error, whatever follows |
| `SequencesService.SequencesService.ApplyPlan` | src/sequences/sequences.service.ts:654-685 | the locked loop writes each touched row against its live counter and no other row, in whatever order the types come |
| `SequencesService.SequencesService.SettleAnnulment` | src/sequences/sequences.service.ts:621-686 | network failure keeps the request pending, refusal marks it, acceptance marks it and applies it, as one step |
| `SequencesService.SequencesService.GapsOf` | src/sequences/sequences.service.ts:384-402 | on a row of at most 100000 consumed numbers, lists in order exactly those without an invoice |
| `AnnulmentRequests.ParseRangeIff` | src/sequences/sequences.service.ts:449-474 | the texts of a range are read as a type and two numbers exactly when they are the eNCFs of those numbers, in order |
| `AnnulmentRequests.ParseRangeErrors` | src/sequences/sequences.service.ts:450-474 | an end that is no eNCF, two types and reversed ends are each told exactly in their own case |
| `AnnulmentRequests.PlanNamesItsTexts` | src/sequences/sequences.service.ts:449-572 | a plan is about the ranges that the request names, all of them, in order |
| `AnnulmentRequests.RequestOutcome` | src/sequences/sequences.service.ts:601-616 | an accepted plan is recorded as pending, a refused one leaves everything as it was |
| `AnnulmentRequests.StatusTellsTheAnswer` | src/sequences/sequences.service.ts:621-652 | in every run a request is pending and awaits its answer, or was answered once, and its status tells acceptance, refusal and a failed call apart |
| `AnnulmentRequests.OnlyAcceptanceApplies` | src/sequences/sequences.service.ts:646-686 | rows change by registration, emission and acceptance only |
| `AnnulableFacts.GapsWereAnnulled` | src/sequences/sequences.service.ts:384-402 | in every reachable state a consumed number without an invoice lies in an accepted annulment of its row |
| `AnnulableFacts.OneNumberPlansIff` | src/sequences/sequences.service.ts:497-571 | a request for any one number is accepted exactly when the active row spans it, no live invoice holds it if it is consumed, and numbers would not remain on both sides |
| `AnnulableFacts.ListedPlansIff` | src/sequences/sequences.service.ts:343-402 | a listed eNCF, failed invoice of any row or gap, can be annulled exactly when the active row spans it and numbers would not remain on both sides; the span alone decides where no issued number is left to hand out |
| `AnnulableFacts.ListedAndRefused` | src/sequences/sequences.service.ts:371-380 | a reachable state in which a failed invoice of an earlier row, above the active counter, is listed and refused |
| `CompanyInvariant.RegisterKeeps` | src/sequences/sequences.service.ts:91-145 | registration keeps the allocator invariant, at most one active row a type among it |
| `CompanyInvariant.EmitKeepsAlloc` | src/invoices/invoices.service.ts:209-373 | an emission keeps it: no number is lost, eNCFs and idempotency keys stay distinct |
| `CompanyInvariant.RequestKeeps` | src/sequences/sequences.service.ts:449-616 | planning a request keeps it |
| `CompanyInvariant.AcceptRow` | src/sequences/sequences.service.ts:654-685 | a stale plan applied to a row that has moved on: bounds hold, and every number the row skips or loses is in an accepted range of that row |
| `CompanyInvariant.AcceptKeeps` | src/sequences/sequences.service.ts:646-686 | the accept transaction keeps the invariant |
| `CompanyInvariant.LedgerFrame` | src/queue/ecf-processing.processor.ts:63-426 | jobs that keep each invoice's identity keep the allocator invariant |
| `CompanyInvariant.RunBatchKeeps` | src/contingency/contingency.service.ts:188-369 | after any part of the batch every row was kept, the quota matches, and invoices outside that part are untouched |
| `CompanyInvariant.BatchCountsEveryInvoice` | src/contingency/contingency.service.ts:184-369 | a batch that no crash ends counts each of its invoices once, as processed or failed |
| `CompanyInvariant.RunKeepsValid` | src/sequences/sequences.service.ts:183-191 | the whole invariant holds in every state of every run |
| `AllocatorRuns.AcceptedForever` | src/sequences/sequences.service.ts:648-652 | a number in an accepted range of a row stays so for the rest of the run |
| `AllocatorRuns.RowSafeStep` | src/sequences/sequences.service.ts:657-684 | from a safe state a step is safe exactly when the apply step's guard holds |
| `AllocatorRuns.AnnulledNumbersStayOutIff` | src/sequences/sequences.service.ts:646-686 | for all runs with overlapping annulments in flight: no row can ever hand out a number annulled on it exactly when every apply is guarded |
| `AllocatorRuns.NoEmissionInsideAcceptedRange` | src/sequences/sequences.service.ts:267-287 | in a guarded run no emission after the accept transaction takes a number in the accepted range from that row |
| `AllocatorRuns.GuardedRunsAreDisjoint` | src/sequences/sequences.service.ts:91-113 | in a run with guarded applies and registrations the ranges ever registered for a type are disjoint |
| `AllocatorRuns.CompanyNeverReissuesIff` | src/sequences/sequences.service.ts:91-129 | no row of the company can hand out an annulled number, in any state of a run, exactly when every apply and every registration is guarded |
| `SerialRuns.SerialRunsStayApart` | src/sequences/sequences.service.ts:555-571 | with annulments of a type one at a time, no two rows of a type reach the same number, although a tail cut shrinks what the overlap check sees |
| `SerialRuns.SerialRunsAreFresh` | src/sequences/sequences.service.ts:91-113 | in such runs no registration covers an issued number and no row has one left to hand out |
| `SerialRuns.SerialRunsNeverReuse` | src/sequences/sequences.service.ts:198-299 | in such runs no emission ever finds its eNCF taken, across all successive rows |
| `SerialRuns.SerialRunsAreGuarded` | src/sequences/sequences.service.ts:646-686 | in such runs every apply is guarded, so annulled numbers stay out for good |
| `IssuedRuns.IssuedNumbersStayOutIff` | src/sequences/sequences.service.ts:91-113 | for all runs, whatever annulments overlap: no row ever has an issued number left to hand out exactly when no registration covered one |
| `IssuedRuns.FreshIff` | src/invoices/invoices.service.ts:222-291 | no row has an issued number left exactly when no sequence of emissions and purchases ends in an eNCF that is taken |
| `IssuedRuns.StaleReachesDuplicate` | src/invoices/invoices.service.ts:222-291 | from a state where a row still has an issued number, emissions run into it and are refused |
| `UsedUpRows.ActiveForGoodIff` | src/sequences/sequences.service.ts:240-278 | an active row, expired or not, stays active in every continuation exactly when it has no number left and no request in flight would take it out of use or give it numbers back |
| `UsedUpRows.StuckForGoodIff` | src/sequences/sequences.service.ts:269-278 | and exactly then it also stays without numbers to hand out in every continuation |
| `UsedUpRows.OnlyAcceptanceDeactivates` | src/sequences/sequences.service.ts:665-669 | a step takes a row out of use exactly when it is DGII's acceptance of a request that annuls all that was left of it |
| `UsedUpRows.ExpiredRowBlocksItsType` | src/sequences/sequences.service.ts:240-248 | until such an acceptance every emission after the date of an expired row and every registration of its type is refused, in every continuation |
| `UsedUpRows.UsedUpRowBlocksItsType` | src/sequences/sequences.service.ts:116-129 | from then on every emission and every registration of its type is refused, in every continuation |
| `UsedUpRows.UsedUpIsReached` | src/sequences/sequences.service.ts:269-287 | two numbers registered and both issued: such a state |
| `UsedUpRows.StuckRowIsReplaced` | src/sequences/sequences.service.ts:665-669 | a run in which a request in flight takes such a row out of use and a replacement is registered |
| `AnnulledInvoices.AnnulledInvoiceHistory` | src/sequences/sequences.service.ts:510-547 | over runs that register no issued number: an invoice in the ranges of a request was emitted after the request was planned, or was REJECTED or ERROR then |
| `AnnulledInvoices.AnnulledInvoiceIsAccepted` | src/contingency/contingency.service.ts:111-146 | a run in which a failed invoice is annulled with DGII's acceptance, marked for retry and accepted |
| `AnnulledInvoices.NoAnswerConflictsIff` | src/contingency/contingency.service.ts:111-146 | a check before each call, against ranges accepted or in flight, holds exactly when no answer to the call, followed by any answers to requests in flight, leads to a live invoice whose number is annulled |
| `AnnulledInvoices.NoAnswerThreatensIff` | src/queue/ecf-processing.processor.ts:89-155 | and exactly when no answer to the call puts a live invoice on a number accepted or in flight |
| `AnnulledInvoices.NoThreatIff` | src/sequences/sequences.service.ts:621-686 | no live invoice sits on such a number exactly when no answers to the requests in flight lead to one whose number is annulled |
| `AnnulledInvoices.PlannerChecksEnough` | src/sequences/sequences.service.ts:510-547 | where no row has issued numbers ahead, a request that the planner accepts passes its check |
| `AnnulledInvoices.IssuedInFlight` | src/sequences/sequences.service.ts:670-676 | a run in which a number is issued while its annulment is in flight, and DGII's answer alone makes the conflict |
| `AnnulledInvoices.GuardedRunsHaveNoConflict` | src/sequences/sequences.service.ts:648-684 | with those checks before every call, and none when an answer arrives, no run ever has a live invoice whose number is annulled |
| `Revival.LeavesDeadIff` | src/queue/ecf-processing.processor.ts:63-155 | for any set of rejected, voided or failed invoices, the check before a job or request holds exactly when no answer to it makes one of them stand |
| `RefundedInvoices.AcceptedFreeOfCharge` | src/invoices/invoices.service.ts:443-476 | a run in which a rejected and refunded invoice ends ACCEPTED while the meter reads 0 |
| `RefundedInvoices.NoAnswerFreesIff` | src/billing/usage.service.ts:188-214 | a check before each call holds exactly when no answer to it makes a refunded document stand |
| `RefundedInvoices.GuardedRunsChargeEveryDocument` | src/billing/usage.service.ts:188-195 | with those checks the documents that stand never outnumber the units in use, in any run |
| `OverlapExamples.OverlapUndoesACut` | src/sequences/sequences.service.ts:677-683 | a concrete run of overlapping annulments in which an annulled number becomes assignable again |
| `OverlapExamples.OverlapReusesANumber` | src/sequences/sequences.service.ts:665-684 | a concrete run in which an issued number is registered and assigned again, and only the unique index refuses it |
| `Registrations.NewRowHandsOutItsRange` | src/sequences/sequences.service.ts:133-145 | from the registration: the new row has its type, range and date and can hand out exactly the numbers of the range, from the first |
| `Registrations.RowIsAsRegistered` | src/sequences/sequences.service.ts:133-145 | in every continuation it keeps them, and never hands out a number outside the range |
| `Registrations.NoNumberAfterTheDate` | src/sequences/sequences.service.ts:239-248 | in every continuation no emission after the registered date takes its number from that row |
| `Registrations.ExpiredExactlyAfterTheDate` | src/sequences/sequences.service.ts:239-248 | while it is the active row, a new request of its type is refused as expired exactly after that date |
| `Registrations.EveryRowWasRegistered` | src/sequences/sequences.service.ts:133-145 | every row of every run was registered by a request |
| `Emissions.EmissionStores` | src/invoices/invoices.service.ts:245-291 | a request carried out adds one queued invoice with everything that was asked, at the next number of the active row, charges one unit, moves that row by one and changes nothing else |
| `Emissions.EmissionSucceedsIff` | src/invoices/invoices.service.ts:209-373 | it is carried out exactly with a new key, a row to serve it, a document and lines that can be written, a free number and room in the quota; an existing invoice is returned exactly for a known key; otherwise nothing changes |
| `Emissions.RefusalReason` | src/invoices/invoices.service.ts:222-364 | each refusal is given for its own reason, looked at in the order number, document, taken number, lines, quota |
| `Emissions.EveryInvoiceWasAskedFor` | src/invoices/invoices.service.ts:245-291 | in every run each invoice was created by a request, and its type, reference, RFCE mark, key and time of creation are those of that request for good |
| `Emissions.NoteWaitsForItsReference` | src/queue/ecf-processing.processor.ts:126-155 | for a note requested with a reference, every status but QUEUED and every submission come after a state in which that reference was ACCEPTED |
| `Emissions.RepeatedKeyReturnsItsInvoice` | src/invoices/invoices.service.ts:213-220 | repeating a key returns the invoice it created, in every later state, and changes nothing |
| `InvoicesService.InvoicesService.CreateInTransaction` | src/invoices/invoices.service.ts:222-364 | the transaction body gives the emission's result, and on success its whole new state |
| `InvoicesService.InvoicesService.Create` | src/invoices/invoices.service.ts:209-373 | the request is all or nothing: a refusal at any point leaves sequence, invoices and meter unchanged |
| `Usage.ConsumeKeepsValid` | src/billing/usage.service.ts:50-128 | a charge succeeds exactly while there is room, adds one, and keeps the split, the ledger and the flag |
| `Usage.RefundKeepsValid` | src/billing/usage.service.ts:148-185 | a refund takes one back, keeps split and ledger, and lowers the flag |
| `Usage.PurchaseKeepsValid` | src/billing/company-billing.service.ts:224-268 | a purchase raises the quota and leaves use as it was |
| `Usage.MeterRefinesCounter` | src/billing/usage.service.ts:50-116 | over every run the two counters and the pack ledger are one counter below one quota, split base first |
| `Usage.CanEmitMatchesConsume` | src/billing/company-billing.service.ts:104-133 | the pre-check allows an emission exactly when charging it now succeeds and the cycle is not over |
| `Usage.ExhaustedFlagIsExact` | src/billing/usage.service.ts:118-127 | EXHAUSTED means "used equals quota" throughout a run exactly when the plan includes something and no empty pack is bought at the ceiling |
| `Usage.PacksWithinCapIff` | src/billing/usage.service.ts:102-116 | over every run, no pack is ever charged more than it sold exactly when each charge to the top-up pool finds room in the oldest pack |
| `Usage.OldestPackCanExceedItsCap` | src/billing/usage.service.ts:102-116 | two packs of one invoice: the oldest ends with two charged to it |
| `UsageConcurrency.QuotaHoldsUnderInterleaving` | src/billing/usage.service.ts:50-83 | for every interleaving of single statements: the quota holds, each used unit belongs to one document, and no refund is lost |
| `UsageConcurrency.SplitIsExactIff` | src/billing/usage.service.ts:148-177 | base-first accounting holds throughout an interleaving exactly when no second statement of a request acts on counters that moved in between |
| `UsageConcurrency.RefundOvertakenByCharge` | src/billing/usage.service.ts:148-177 | a concrete interleaving that leaves top-up use beside free base quota |
| `UsageConcurrency.TopupChargedWithoutPurchase` | src/billing/usage.service.ts:52-83 | a concrete interleaving that charges top-up quota nobody bought |
| `UsageService.UsageService.IncrementUsage` | src/billing/usage.service.ts:34-128 | the conditional updates, statement by statement, are one charge of the meter |
| `UsageService.UsageService.RefundNewestPurchase` | src/billing/usage.service.ts:156-169 | takes one from the newest purchase that has something charged, if any |
| `UsageService.UsageService.DecrementUsage` | src/billing/usage.service.ts:137-186 | the statements are one refund of the meter |
| `UsageService.UsageService.RevertUsage` | src/billing/usage.service.ts:201-214 | the flag is claimed once and only the claim refunds |
| `Pipeline.ProcessKeeps` | src/queue/ecf-processing.processor.ts:63-426 | for every answer and crash point the job keeps the ledger invariant, track ids, and refunds once and only on rejection |
| `Pipeline.PollKeeps` | src/queue/status-poll.processor.ts:53-276 | so does one execution of a poll job |
| `Pipeline.RetryKeeps` | src/contingency/contingency.service.ts:188-369 | so does one invoice of the contingency batch |
| `Pipeline.VoidKeeps` | src/invoices/invoices.service.ts:565-640 | so does voiding, which refunds an invoice that was not refunded before |
| `Pipeline.PollStatusKeeps` | src/invoices/invoices.service.ts:420-487 | so does a manual poll, which may leave a final status again |
| `Pipeline.MarkAllForRetryKeeps` | src/contingency/contingency.service.ts:138-146 | so does marking every ERROR invoice for retry |
| `PipelineRuns.QuotaIsConserved` | src/billing/usage.service.ts:201-214 | in every reachable state the meter equals the number of invoices not refunded, within the quota, and every REJECTED or VOIDED invoice has been refunded |
| `PipelineRuns.RefundsAreEarned` | src/queue/ecf-processing.processor.ts:302-316 | nothing is refunded that was never REJECTED or VOIDED |
| `PipelineRuns.LeavingQueuedPassesGate` | src/queue/ecf-processing.processor.ts:126-155 | only the processing job takes an invoice out of QUEUED, and only past the reference gate |
| `PipelineRuns.NotQueuedMeansGatePassed` | src/queue/ecf-processing.processor.ts:126-155 | a note in any status but QUEUED had its referenced eNCF ACCEPTED at some moment before |
| `PipelineRuns.SubmissionFollowsAcceptance` | src/contingency/contingency.service.ts:280-304 | every submission of a note, by the job or by the batch that has no gate, comes after such a moment |
| `PipelineRuns.TrackIdIsWriteOnce` | src/queue/status-poll.processor.ts:76-101 | a recorded track id never changes, whichever worker recorded it |
| `PipelineRuns.TrackedIsNeverResubmitted` | src/queue/ecf-processing.processor.ts:89-103 | once a track id is recorded no later event submits the invoice |
| `PipelineRuns.ResubmissionMeansNoTrackId` | src/contingency/contingency.service.ts:223-278 | a second submission is possible only when the first left no track id |
| `PipelineRuns.ExecutionsSpendBudget` | src/queue/status-poll.processor.ts:122-186 | the executions of a queued poll job are bounded by what they take from its attempts and missing track id, whatever else happens |
| `PipelineRuns.PollRunsAtMost22Times` | src/queue/status-poll.processor.ts:122-139 | from attempt 1 a poll job runs at most 22 times under any answers |
| `PipelineRuns.CompletedPollIsSettled` | src/queue/status-poll.processor.ts:106-139 | when a poll job completes, its invoice is neither PROCESSING nor SENT |
| `ContingencyRuns.BatchTakesHead` | src/contingency/contingency.service.ts:156-369 | a batch without a crash takes exactly its items off the head of the pending list, whatever DGII answers |
| `ContingencyRuns.TicksDrainTheList` | src/contingency/contingency.service.ts:156-369 | after t such batches in a row the oldest 10 t invoices are off the list: none waits for ever behind others |
| `ContingencyRuns.FailedInvoiceIsServed` | src/contingency/contingency.service.ts:111-146 | an invoice whose attempt failed and that is marked for retry has a place on the list, and is off it after as many batches without a crash as its place calls for |
| `AnswerRuns.ItemWrites` | src/contingency/contingency.service.ts:231-245 | a batch item that hears a code ends with the status of that code, 2 giving REJECTED with the unit given back, and with the track id of its submission |
| `AnswerRuns.AnswerIsWritten` | src/queue/ecf-processing.processor.ts:276-316 | whatever code DGII gives about an invoice, in whichever call, the invoice holds its status after the event, the whole batch included, and is refunded when rejected |
| `AnswerRuns.JobQueues` | src/queue/ecf-processing.processor.ts:330-349 | the processing job queues a poll exactly when it finds a track id or is left without a verdict for a document that can be asked about |
| `AnswerRuns.BatchQueues` | src/contingency/contingency.service.ts:265-272 | the batch queues polls for exactly the items left without a verdict |
| `AnswerRuns.QueuedExactlyWhenLeftOpen` | src/contingency/contingency.service.ts:338-347 | no other event puts a poll into the queue, and each enters at its first attempt |
| `AnswerRuns.OpenAnswerIsFollowedUp` | src/queue/status-poll.processor.ts:53-276 | in every run an answer without a verdict leads to a queued poll that completes within 22 executions and leaves the invoice neither PROCESSING nor SENT |
| `JobOutcomes.JobSubmitsIff` | src/queue/ecf-processing.processor.ts:68-155 | a job submits exactly an invoice with a document, neither accepted nor voided, without track id, whose reference is accepted, once it is signed, not found invalid and a token was given |
| `JobOutcomes.UnreadyJobWritesNothing` | src/queue/ecf-processing.processor.ts:68-155 | a job of any other invoice changes no invoice and no meter |
| `JobOutcomes.JobWithoutAnswer` | src/queue/ecf-processing.processor.ts:384-425 | without an answer: CONTINGENCY after a network failure, ERROR after another or an invalid document, PROCESSING when the worker died after signing, and nothing else |
| `JobOutcomes.PollAsksIff` | src/queue/status-poll.processor.ts:68-139 | a poll asks exactly with a track id, before the verdict, up to its 20th attempt |
| `JobOutcomes.PollStaysIff` | src/queue/status-poll.processor.ts:176-186 | it stays queued exactly after a recovered track id, a network failure or an answer without a verdict, and only asking uses up an attempt |
| `JobOutcomes.PollWithoutAnswer` | src/queue/status-poll.processor.ts:234-275 | without an answer a network failure leaves the row, another failure turns PROCESSING and SENT into ERROR, and a row without track id or attempts ends in ERROR |
| `JobOutcomes.ManualPollWithoutAnswer` | src/invoices/invoices.service.ts:420-442 | a manual poll that cannot ask or is not answered changes nothing |
| `JobOutcomes.VoidOutcome` | src/invoices/invoices.service.ts:565-640 | exactly draft, failed, pending and rejected invoices are voided, so never one queued, in process, sent or accepted, and the unit is given back once |
| `JobOutcomes.MarkingOutcome` | src/contingency/contingency.service.ts:111-146 | marking moves exactly ERROR to CONTINGENCY, one by one or all at once |
| `JobOutcomes.ItemHearsIff` | src/contingency/contingency.service.ts:191-304 | a batch item is asked about or submitted exactly within 72 hours, with credentials, and for a submission with a document that could be signed |
| `JobOutcomes.ItemWithoutAnswer` | src/contingency/contingency.service.ts:191-209 | without an answer an item ends in ERROR and counts as failed, unless the worker died on it |
| `JobOutcomes.BatchIsTenOldest` | src/contingency/contingency.service.ts:156-161 | the batch is the ten oldest invoices in CONTINGENCY |
| `JobOutcomes.ItemOutcome` | src/contingency/contingency.service.ts:188-369 | what an item is after the whole batch is what its own turn made of it |
| `JobOutcomes.OthersUntouched` | src/contingency/contingency.service.ts:188-369 | an event changes no invoice that it is not about |
| `VerdictRuns.RetryJustifies` | src/contingency/contingency.service.ts:191-315 | a batch item sets a final status only from the code of the call it made inside the window: query with a track id, submission without |
| `VerdictRuns.VerdictsComeFromDgii` | src/xml-builder/ecf-types.ts:251-258 | in every run ACCEPTED, REJECTED and CONDITIONAL were set, from another status, by an event that called DGII about that invoice and got code 1, 2 or 4, VOIDED by a void request, and the status has stood since |
| `Workers.EcfProcessingProcessor.Submit` | src/queue/ecf-processing.processor.ts:157-425 | sign, validate, authenticate, submit and record in place, with every way to stop in between |
| `Workers.BackoffGrows` | src/queue/status-poll.processor.ts:326-337 | delays grow strictly up to the seventh attempt and stay the same from there |
| `Workers.PollingTime` | src/queue/status-poll.processor.ts:326-337 | the delays after 20 attempts add up to 14 h 48 min 30 s |
| `Workers.ContingencyService.MarkForRetry` | src/contingency/contingency.service.ts:111-133 | an ERROR invoice goes to CONTINGENCY, any other stays |
| `Workers.ContingencyService.MarkAllForRetry` | src/contingency/contingency.service.ts:138-146 | exactly the ERROR invoices go to CONTINGENCY, and the count is their number |
| `Workers.ContingencyService.ProcessQueue` | src/contingency/contingency.service.ts:152-379 | the loop over the oldest ten pending invoices, its two counters, and the number left afterwards |
| `Workers.DeadBatchStays` | src/contingency/contingency.service.ts:188-369 | nothing runs after a crash |
| `InvoicesService.InvoicesService.PollStatus` | src/invoices/invoices.service.ts:420-487 | writes whatever DGII answers and refunds a rejection |
| `InvoicesService.InvoicesService.VoidInvoice` | src/invoices/invoices.service.ts:565-640 | voids exactly the voidable statuses and refunds all but drafts |
| `Application.Application.Serve` | src/invoices/invoices.service.ts:209-373 | any event executed by the services takes the tables one step of the state machine and keeps the invariant |
| `Application.Application.EmitUnderGuard` | src/billing/guards/active-plan.guard.ts:39-50 | a request that the plan guard admits is never refused for its quota, one that it turns away changes nothing |
| `Rounding.Round2` | src/validation/validation.service.ts:341-343 | the result is a number of cents at most half a cent away, half up, and cents stay as they are |
| `Rounding.SumErrorBound` | src/xml-builder/xml-builder.service.ts:259-299 | errors of the terms of a sum add up to at most their number times the bound |
| `Rounding.SumPermutes` | src/xml-builder/xml-builder.service.ts:259-299 | a sum does not depend on the order of its terms |
| `Isc.SplitError` | src/validation/validation.service.ts:495-511 | base price, specific and ad-valorem tax add up to the price they were split from, up to the roundings of the steps |
| `Isc.AlcoholSplitInverts` | src/validation/validation.service.ts:475-512 | non-bulk alcohol: the unit amounts with ITBIS give the retail price back within 0.005 (1+t) (3+a) |
| `Isc.CigarrilloSplitInverts` | src/validation/validation.service.ts:518-542 | cigarettes: within 0.005 (1+t) (4+a) |
| `Totals.LineTax` | src/xml-builder/xml-builder.service.ts:301-346 | an additional tax goes to one of three columns in whole cents, and a line without a code has none |
| `Totals.AccumulateSubtotal` | src/xml-builder/xml-builder.service.ts:265-299 | the branches add the subtotal and its ITBIS to the columns of the line's indicator and nothing else |
| `Totals.AccumulateLine` | src/xml-builder/xml-builder.service.ts:259-346 | one pass of the loop adds the line's part to every column |
| `Totals.AccumulateLines` | src/xml-builder/xml-builder.service.ts:259-347 | after the loop every accumulator is its column's sum, and the table is that of the lines |
| `Totals.CalculateTotals` | src/xml-builder/xml-builder.service.ts:242-374 | the totals are plain sums: no final rounding changes anything but the discount |
| `TotalsFacts.TotalsIgnoreOrder` | src/xml-builder/xml-builder.service.ts:242-374 | every total is the same in whatever order the lines come |
| `TaxTableFacts.TableIgnoresOrder` | src/xml-builder/xml-builder.service.ts:301-346 | and the tax table has the same codes with the same amounts; only the order of its entries follows the lines |
| `TotalsFacts.ItbisGoesOnce` | src/xml-builder/itbis.util.ts:25-69 | the shared ITBIS of a line is what it adds to the two ITBIS columns |
| `TotalsFacts.SubtotalGoesOnce` | src/xml-builder/xml-builder.service.ts:265-299 | a subtotal reaches exactly one column when the indicator is 0 to 4 |
| `TotalsFacts.PersistedLinesAgree` | src/invoices/invoices.service.ts:293-325 | for every item list the stored ITBIS sums to the header's; the stored subtotals sum to the header's plus the non-invoiceable amount when the indicators are 0 to 4, the ones a request can carry, and otherwise plus what the others drop |
| `ExactTotals.TotalsAreExact` | src/xml-builder/xml-builder.service.ts:259-374 | every column is the sum, over exactly the items of its indicator or tax band, of quantity times price less discount plus surcharge, its ITBIS or its tax formula, up to the tolerance of each line; the header amounts are sums of columns |
| `ExactTotals.TotalIsExact` | src/xml-builder/xml-builder.service.ts:349-352 | the total is within 0.0109 a line and the tolerances of its taxes of the exact sum of amount, ITBIS and taxes |
| `ExactTotals.TotalIsNearExact` | src/xml-builder/xml-builder.service.ts:259-374 | without additional taxes that is 0.0109 a line, for any number of lines |
| `ExactTotals.ItemNear` | src/validation/validation.service.ts:449-565 | each item adds to each column its exact amount up to the stated tolerance: code bands 1 to 5, 6 to 18, 19 to 22, 23 to 35 and 36 to 39 with their formulas |
| `ExactTotals.StoredLineIsExact` | src/invoices/invoices.service.ts:293-325 | each stored line has its number, the rate of its indicator, and amounts within the rounding of the exact ones |
| `TaxTableFacts.TableIsRegrouping` | src/xml-builder/xml-builder.service.ts:301-346 | one entry per code that occurs, each holding its code's sums, and the columns add up to the totals despite rounding at each step |
| `TaxTableFacts.EntriesKeepFirstRate` | src/xml-builder/xml-builder.service.ts:303-314 | each entry of the table has the rate of the first line of its code |
| `TaxTableFacts.AdditionalTaxIsTableSum` | src/xml-builder/xml-builder.service.ts:884-892 | MontoImpuestoAdicional is the sum of the whole table |
| `TaxTableFacts.ValidateCuadratura` | src/validation/validation.service.ts:397-439 | the loop compares the rounded sum of the lines with the subtotal and judges the difference against one unit a line |
| `TaxTableFacts.CuadraturaVerdict` | src/validation/validation.service.ts:414-439 | on computed totals a document is rejected exactly when its non-invoiceable lines exceed one unit a line, and passes without warning exactly when they add up to 0 |
| `TaxTableFacts.CuadraturaExactly` | src/validation/validation.service.ts:414-422 | on computed totals the difference is the absolute non-invoiceable amount, and 0 when no line is non-invoiceable |
| `Anecf.GroupByType` | src/xml-builder/xml-builder.service.ts:185-194 | the map holds, for exactly the types that occur, their ranges in request order |
| `Anecf.BuildAnecf` | src/xml-builder/xml-builder.service.ts:176-217 | one numbered line per type that occurs, in code order, with its ranges and count; the header counts all lines |
| `Anecf.CountByType` | src/xml-builder/xml-builder.service.ts:196-204 | counting by type loses and repeats nothing |
| `Anecf.CountIsDistinctIff` | src/xml-builder/xml-builder.service.ts:192-196 | the declared count is the number of distinct eNCFs exactly when no two ranges overlap, and never less |
| `Anecf.AcceptedPlanCanCountTwice` | src/sequences/sequences.service.ts:517-546 | a request the planner accepts whose document counts one eNCF twice |
| `AnnulableFacts.GapDeclaredTwice` | src/sequences/sequences.service.ts:384-402 | the same on a reachable row, with a listed gap |
| `EscapeXml.ChainIsOnePass` | src/xml-builder/xml-builder.service.ts:1782-1797 | the chain of replacements is one substitution per character |
| `EscapeXml.OutputHasNoMarkup` | src/xml-builder/xml-builder.service.ts:1782-1797 | the output has no raw angle bracket, quote, apostrophe, tab, line feed or carriage return |
| `EscapeXml.OutputIsXmlTextIff` | src/xml-builder/xml-builder.service.ts:1784-1786 | every character of the output is one XML 1.0 allows exactly when the input has no U+FFFE or U+FFFF |
| `EscapeXml.DecodeOfEscape` | src/xml-builder/xml-builder.service.ts:1782-1797 | decoding references by sections 4.1 and 4.6 of XML 1.0 gives the input without the excluded control characters |
| `EscapeXml.EscapeInjective` | src/xml-builder/xml-builder.service.ts:1782-1797 | two inputs escape alike exactly when they agree after that removal |

## Left out

- Certification paths: `overrideNumber`, `emitterOverride` and declared totals that bypass the computed ones.
- DEV companies, companies without a plan and their tenant-level meter, a missing usage row, cycle renewal and a change of plan inside a cycle.
- The idempotency check before the transaction; the one inside it is modelled.
- HTTP, tokens, certificates, signing, XSD validation and DGII's responses: calls that may succeed, fail or die, with any status code and any track id.
- Audit, webhook and enqueue calls and the refund after a rejection are taken not to throw; jobs and requests are atomic, apart from a worker that dies in an outside call and the two halves of an annulment.
- A poll worker that dies and is run again by the queue: the 22 executions count those that end normally. A second poll job of an invoice is absorbed while the first is queued; the queue's memory of finished jobs is not modelled.
- One record per annulment request stands for its record per range; the snapshot and the authorised end number of a row are kept for the proofs only.
- The order and isolation of database rows: invoices and rows are stored in order of creation, and a query with a limit returns the first match.
- UsageConcurrency.QuotaHoldsUnderInterleaving: counters and documents only; the pack ledger and the EXHAUSTED flag are covered by the sequential runs of `Usage`, because a statement may see a plan status read before another one changed it.
- UsageConcurrency.SplitIsExactIff: a successful charge is one step with the rest of its transaction, which holds the lock on the row.
- PipelineRuns.ResubmissionMeansNoTrackId: whether DGII received a submission whose result was lost is outside the model.
- SerialRuns.SerialRunsNeverReuse: a sufficient condition; with overlapping annulments the exact one is that of `IssuedRuns.IssuedNumbersStayOutIff`.
- UsedUpRows.StuckForGoodIff: whether a replacement can then be registered depends on the ranges still free.
- AnnulledInvoices.AnnulledInvoiceHistory: the numbers of a range never registered again; a registration over issued numbers is the subject of `IssuedRuns`.
- Rounding.Round2: exact numbers instead of binary floating point, so the machine epsilon added before rounding is dropped.
- Totals.LineTax: a code is the number its three digits name, and one tax rate per line serves both as the specific amount and as the ad-valorem rate, as in the source.
- ContingencyRuns.TicksDrainTheList: batches in a row, on the list of one company; events in between may add invoices, and the source takes its ten oldest across a tenant or all tenants, so a place is one in that longer list.
- ContingencyRuns.FailedInvoiceIsServed: the place is one in the list of one company, as above.
- AnnulledInvoices.NoThreatIff: annulled means accepted as far as the platform was told; after a network failure DGII may have annulled a range whose request stays pending, and such a range is no longer counted as in flight.
- Totals.CalculateTotals: items are those that request validation lets through, with quantity above 0, an ITBIS rate of 0, 16 or 18 and no negative additional rate.
- Anecf.BuildAnecf: works on parsed ranges; the document is its lines and counts, not its tags.
- EscapeXml.ChainIsOnePass: characters are Unicode scalar values, so lone surrogates are not modelled.
- Which endpoint the contingency batch submits to, and the columns of an invoice that no other step reads.
- XML section builders, PDF and QR output, dashboards, controllers, webhooks, key rotation, buyer resolution and authentication.
