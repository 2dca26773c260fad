/** Documents that count against no quota: an invoice refunded when DGII rejected it
    and accepted after, and the checks that exclude it. */
module RefundedInvoices {
  import opened EcfTypes
  import opened Sequences
  import opened Pipeline
  import opened Company
  import opened CompanyInvariant
  import opened PipelineRuns
  import opened Revival
  import opened OverlapExamples

  // ----- an accepted invoice that the meter does not count -----

  const REJECTING: ProcessWorld := ProcessWorld(Done, XsdUnavailable, Done, Received(2, Some("track")))

  const FREE_OF_CHARGE: seq<Event> := [
    RegisterRow(E31, 1, 5, None),
    EmitInvoice(PLAIN),
    ProcessJob(0, REJECTING),
    ManualPoll(0, Answered(1))]

  lemma RejectedThenAccepted(l: Ledger)
    requires l.invoices == [NewInvoice(PLAIN, 1)] && l.meter.baseUsed == 1 && l.meter.topupUsed == 0
    ensures var after := PollStatus(Process(l, 0, REJECTING), 0, Answered(1));
            && after.invoices == [NewInvoice(PLAIN, 1).(status := ACCEPTED, trackId := Some("track"), usageReverted := true)]
            && after.meter.Used() == 0
  {
    assert ProcessProceeds(l, 0);
    assert Process(l, 0, REJECTING).invoices
        == [NewInvoice(PLAIN, 1).(status := REJECTED, trackId := Some("track"), usageReverted := true)];
  }

  /** DGII rejects with a track id and the unit is refunded; a manual poll then finds
      the document accepted. It is valid, and the meter reads 0. */
  lemma AcceptedFreeOfCharge()
    ensures var l := At(Init(3, 0), FREE_OF_CHARGE, 4).ledger;
            && |l.invoices| == 1 && l.invoices[0].status == ACCEPTED && l.meter.Used() == 0
  {
    hide At, Emit, Process, PollStatus;
    var s0, es := Init(3, 0), FREE_OF_CHARGE;
    var row := Row(E31, 1, 0, 5, None, true);
    RunUnfolds(s0, es, 0);
    var s1 := At(s0, es, 1);
    assert s1 == AddRow(s0, row);
    RunUnfolds(s0, es, 1);
    PlainEmission(s1, row);
    RunUnfolds(s0, es, 2);
    RunUnfolds(s0, es, 3);
    RejectedThenAccepted(At(s0, es, 2).ledger);
  }

  // ----- the checks that exclude it -----

  function Refunded(l: Ledger): set<nat> {
    set j: nat | j < |l.invoices| && l.invoices[j].usageReverted
  }

  /** No refunded document stands. */
  predicate AllCounted(l: Ledger) {
    forall j :: 0 <= j < |l.invoices| && Standing(l.invoices[j].status) ==> !l.invoices[j].usageReverted
  }

  /** No call that could revive is made for an invoice whose unit was given back. */
  predicate RefundGuard(s: State, e: Event) {
    OnLedger(e) ==> LeavesDead(s.ledger, e, Refunded(s.ledger))
  }

  /** A refund made by the step itself is of a rejected or voided invoice. */
  lemma CountedIff(before: Ledger, after: Ledger)
    requires Kept(before, after) && AllCounted(before)
    ensures AllCounted(after) <==> AllDead(after, Refunded(before))
  {
    forall j | 0 <= j < |after.invoices|
      ensures RowKept(before.invoices[j], after.invoices[j])
    {}
  }

  lemma CountedIsDead(l: Ledger)
    ensures AllCounted(l) <==> AllDead(l, Refunded(l))
  {}

  ghost predicate NoAnswerFrees(s: State, e: Event) {
    forall f :: SameCall(e, f) ==> AllCounted(Step(s, f).ledger)
  }

  lemma NumberingKeepsCounted(s: State, e: Event)
    requires Company.Valid(s) && AllCounted(s.ledger) && !OnLedger(e)
    ensures AllCounted(Step(s, e).ledger)
  {
    if e.EmitInvoice? {
      EmitAppends(s, e.request);
      forall j | 0 <= j < |Step(s, e).ledger.invoices| && j >= |s.ledger.invoices|
        ensures !Step(s, e).ledger.invoices[j].usageReverted
      {
        NewInvoiceIsPlain(s, e, j);
      }
    } else {
      assert Step(s, e).ledger == s.ledger;
    }
  }

  /** The checks are exact: a call passes exactly when no answer to it makes a refunded
      document stand. */
  lemma NoAnswerFreesIff(s: State, e: Event)
    requires Company.Valid(s) && AllCounted(s.ledger)
    ensures RefundGuard(s, e) <==> NoAnswerFrees(s, e)
  {
    hide Company.Valid, AllCounted, StepLedger, LeavesDead, AllDead, Refunded;
    if OnLedger(e) {
      LedgerPart(s);
      CountedIsDead(s.ledger);
      LeavesDeadIff(s.ledger, e, Refunded(s.ledger));
      forall f | SameCall(e, f)
        ensures AllCounted(Step(s, f).ledger) <==> AllDead(StepLedger(s.ledger, f), Refunded(s.ledger))
      {
        StepLedgerKeeps(s.ledger, f);
        CountedIff(s.ledger, StepLedger(s.ledger, f));
      }
    } else {
      hide Step;
      forall f | SameCall(e, f)
        ensures AllCounted(Step(s, f).ledger)
      {
        NumberingKeepsCounted(s, f);
      }
    }
  }

  // ----- runs -----

  function StandingCount(invoices: seq<Invoice>): nat {
    if invoices == [] then 0
    else StandingCount(invoices[..|invoices| - 1]) + if Standing(invoices[|invoices| - 1].status) then 1 else 0
  }

  lemma {:induction false} CountedAreOutstanding(invoices: seq<Invoice>)
    requires forall j :: 0 <= j < |invoices| && Standing(invoices[j].status) ==> !invoices[j].usageReverted
    ensures StandingCount(invoices) <= Outstanding(invoices)
  {
    if invoices != [] {
      CountedAreOutstanding(invoices[..|invoices| - 1]);
    }
  }

  ghost predicate AlwaysRefundGuard(s0: State, es: seq<Event>, k: nat)
    requires k <= |es|
  {
    k > 0 ==> RefundGuard(At(s0, es, k - 1), es[k - 1]) && AlwaysRefundGuard(s0, es, k - 1)
  }

  lemma {:induction false} GuardedRunsStayCounted(s0: State, es: seq<Event>, k: nat)
    requires IsInit(s0) && k <= |es| && AlwaysRefundGuard(s0, es, k)
    ensures AllCounted(At(s0, es, k).ledger)
  {
    hide Step, RefundGuard, AllCounted;
    if k > 0 {
      GuardedRunsStayCounted(s0, es, k - 1);
      RunKeepsValid(s0, es, k - 1);
      NoAnswerFreesIff(At(s0, es, k - 1), es[k - 1]);
      assert SameCall(es[k - 1], es[k - 1]);
    } else {
      assert AllCounted(s0.ledger) by {
        EmptyIsCounted(s0);
      }
    }
  }

  lemma EmptyIsCounted(s: State)
    requires IsInit(s)
    ensures AllCounted(s.ledger)
  {}

  /** With the checks before every call, the documents that stand never outnumber the
      units in use, so a plan of a given size never carries more valid documents. */
  lemma {:induction false} GuardedRunsChargeEveryDocument(s0: State, es: seq<Event>, k: nat)
    requires IsInit(s0) && k <= |es| && AlwaysRefundGuard(s0, es, k)
    ensures var l := At(s0, es, k).ledger; StandingCount(l.invoices) <= l.meter.Used() <= l.meter.totalQuota
  {
    hide Step;
    GuardedRunsStayCounted(s0, es, k);
    QuotaIsConserved(s0, es, k);
    CountedAreOutstanding(At(s0, es, k).ledger.invoices);
  }
}
