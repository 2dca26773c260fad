/** What holds of invoices, quota, submissions and polling over every run of the
    company, whatever DGII answers and wherever a worker dies. */
module PipelineRuns {
  import opened EcfTypes
  import opened Pipeline
  import opened Company
  import opened CompanyInvariant

  lemma StepKeepsRows(s: State, e: Event)
    requires Company.Valid(s)
    ensures |s.ledger.invoices| <= |Step(s, e).ledger.invoices|
    ensures forall i :: 0 <= i < |s.ledger.invoices| ==> RowKept(s.ledger.invoices[i], Step(s, e).ledger.invoices[i])
  {
    if e.EmitInvoice? {
      EmitAppends(s, e.request);
    } else if e.RegisterRow? || e.AskAnnulment? || e.SettleAnnulment? {
      assert Step(s, e).ledger == s.ledger;
    } else {
      assert Step(s, e).ledger == StepLedger(s.ledger, e);
      StepLedgerKeeps(s.ledger, e);
    }
  }

  lemma EmitAppends(s: State, q: EmitRequest)
    ensures s.ledger.invoices <= Emit(s, q).0.ledger.invoices
  {}

  lemma RunKeepsRows(s0: State, es: seq<Event>, k: nat)
    requires IsInit(s0) && 0 < k <= |es|
    ensures var before, after := At(s0, es, k - 1).ledger.invoices, At(s0, es, k).ledger.invoices;
            |before| <= |after| && forall i :: 0 <= i < |before| ==> RowKept(before[i], after[i])
  {
    hide Step;
    RunKeepsValid(s0, es, k - 1);
    StepKeepsRows(At(s0, es, k - 1), es[k - 1]);
  }

  lemma NewInvoiceIsPlain(s: State, e: Event, i: nat)
    requires Company.Valid(s) && |s.ledger.invoices| <= i < |Step(s, e).ledger.invoices|
    ensures var inv := Step(s, e).ledger.invoices[i];
            inv.status == QUEUED && inv.trackId.None? && !inv.usageReverted
  {
    if !(e.RegisterRow? || e.EmitInvoice? || e.AskAnnulment? || e.SettleAnnulment?) {
      StepLedgerKeeps(s.ledger, e);
    }
  }

  lemma RunAddsPlainInvoices(s0: State, es: seq<Event>, k: nat, i: nat)
    requires IsInit(s0) && 0 < k <= |es|
    requires |At(s0, es, k - 1).ledger.invoices| <= i < |At(s0, es, k).ledger.invoices|
    ensures var inv := At(s0, es, k).ledger.invoices[i];
            inv.status == QUEUED && inv.trackId.None? && !inv.usageReverted
  {
    hide Step;
    RunKeepsValid(s0, es, k - 1);
    NewInvoiceIsPlain(At(s0, es, k - 1), es[k - 1], i);
  }

  // ----- quota -----

  /** In every state of every run the meter equals the number of invoices not yet
      refunded, stays within the quota, and every invoice that DGII rejected or a
      user voided has been refunded. */
  lemma {:induction false} QuotaIsConserved(s0: State, es: seq<Event>, k: nat)
    requires IsInit(s0) && k <= |es|
    ensures var l := At(s0, es, k).ledger;
            && l.meter.baseUsed + l.meter.topupUsed == Outstanding(l.invoices) <= l.meter.totalQuota
            && (forall i :: 0 <= i < |l.invoices| && NeverValid(l.invoices[i].status) ==> l.invoices[i].usageReverted)
  {
    RunKeepsValid(s0, es, k);
    forall i | 0 <= i < |At(s0, es, k).ledger.invoices|
      ensures RowValid(At(s0, es, k).ledger.invoices[i])
    {}
  }

  ghost predicate NeverValidAt(s: State, i: nat) {
    i < |s.ledger.invoices| && NeverValid(s.ledger.invoices[i].status)
  }

  /** Nothing is refunded that was never REJECTED or VOIDED. */
  lemma {:induction false} RefundsAreEarned(s0: State, es: seq<Event>, k: nat, i: nat)
    requires IsInit(s0) && k <= |es| && i < |At(s0, es, k).ledger.invoices|
    requires At(s0, es, k).ledger.invoices[i].usageReverted
    ensures exists m :: 0 <= m <= k && NeverValidAt(At(s0, es, m), i)
  {
    hide Step, Company.Valid;
    if k > 0 {
      var before := At(s0, es, k - 1);
      RunKeepsValid(s0, es, k - 1);
      RunKeepsRows(s0, es, k);
      if i >= |before.ledger.invoices| {
        RunAddsPlainInvoices(s0, es, k, i);
      } else if before.ledger.invoices[i].usageReverted {
        RefundsAreEarned(s0, es, k - 1, i);
      } else {
        assert RowKept(before.ledger.invoices[i], At(s0, es, k).ledger.invoices[i]);
        assert NeverValidAt(At(s0, es, k), i);
      }
    }
  }

  // ----- submissions -----

  /** The event makes a submission call to DGII for invoice `i`. */
  ghost predicate Submits(s: State, e: Event, i: nat) {
    var l := s.ledger;
    match e
    case ProcessJob(index, w) => index == i && ProcessSubmits(l, i, w)
    case ContingencyTick(health, world) =>
      health.Done? && exists k :: 0 <= k < |Batch(l.invoices)| && BatchSubmits(l, world, k, i)
    case _ => false
  }

  ghost predicate BatchSubmits(l: Ledger, world: nat -> RetryWorld, k: nat, i: nat)
    requires k < |Batch(l.invoices)|
  {
    && Batch(l.invoices)[k] == i
    && RunBatch(l, world, k).alive
    && RetrySubmits(RunBatch(l, world, k).ledger, i, world(k))
  }

  /** A submission starts without a track id, and from QUEUED only through the gate. */
  lemma SubmitsFacts(s: State, e: Event, i: nat)
    requires Company.Valid(s) && Submits(s, e, i)
    ensures i < |s.ledger.invoices| && s.ledger.invoices[i].trackId.None?
    ensures s.ledger.invoices[i].status != QUEUED || GateOpen(s.ledger.invoices, s.ledger.invoices[i])
  {
    if e.ContingencyTick? {
      var l := s.ledger;
      hide Kept, RunBatch;
      var k :| 0 <= k < |Batch(l.invoices)| && BatchSubmits(l, e.world, k, i);
      RunBatchKeeps(l, e.world, k);
      assert i !in Batch(l.invoices)[..k];
    }
  }

  // ----- the reference gate -----

  ghost predicate AcceptedIn(s: State, encf: string) {
    exists j :: 0 <= j < |s.ledger.invoices| && s.ledger.invoices[j].encf == encf && s.ledger.invoices[j].status == ACCEPTED
  }

  ghost predicate AcceptedBy(s0: State, es: seq<Event>, k: nat, encf: string)
    requires k <= |es|
  {
    exists m :: 0 <= m <= k && AcceptedIn(At(s0, es, m), encf)
  }

  lemma OpenGateSawAccepted(s: State, inv: Invoice)
    requires GateOpen(s.ledger.invoices, inv) && inv.referenceEncf.Some?
    ensures AcceptedIn(s, inv.referenceEncf.value)
  {
    var j := FindByEncf(s.ledger.invoices, inv.referenceEncf.value).value;
    assert s.ledger.invoices[j].status == ACCEPTED;
  }

  lemma LedgerLeavesQueued(l: Ledger, e: Event, i: nat)
    requires Pipeline.Valid(l) && i < |l.invoices| && l.invoices[i].status == QUEUED
    requires |StepLedger(l, e).invoices| == |l.invoices| && StepLedger(l, e).invoices[i].status != QUEUED
    ensures e.ProcessJob? && e.index == i && ProcessProceeds(l, i)
  {
    assert RowValid(l.invoices[i]) && i !in l.polls;
    if e.ProcessJob? {
      ProcessLeavesOthers(l, e.index, e.process, i);
    } else if e.PollJob? {
      PollLeavesOthers(l, e.index, e.poll, i);
    } else if e.ContingencyTick? {
      BatchLeavesOthers(l, e.health, e.world, i);
    } else if e.ManualPoll? || e.VoidInvoice? || e.RetryOne? {
      RequestLeavesQueued(l, e, i);
    }
  }

  lemma RequestLeavesQueued(l: Ledger, e: Event, i: nat)
    requires i < |l.invoices| && l.invoices[i].status == QUEUED && RowValid(l.invoices[i])
    requires e.ManualPoll? || e.VoidInvoice? || e.RetryOne?
    ensures i < |StepLedger(l, e).invoices| && StepLedger(l, e).invoices[i] == l.invoices[i]
  {
    match e {
      case ManualPoll(index, query) =>
      case VoidInvoice(index) =>
      case RetryOne(index) =>
    }
  }

  lemma BatchLeavesOthers(l: Ledger, health: Call, world: nat -> RetryWorld, i: nat)
    requires Pipeline.Valid(l) && i < |l.invoices| && l.invoices[i].status != CONTINGENCY
    ensures i < |ProcessQueue(l, health, world).invoices| && ProcessQueue(l, health, world).invoices[i] == l.invoices[i]
  {
    var n := |Batch(l.invoices)|;
    RunBatchKeeps(l, world, n);
    assert i !in Batch(l.invoices)[..n];
  }

  /** Only the processing job takes an invoice out of QUEUED, and only past the gate. */
  lemma {:induction false} LeavingQueuedPassesGate(s: State, e: Event, i: nat)
    requires Company.Valid(s) && i < |s.ledger.invoices| && s.ledger.invoices[i].status == QUEUED
    requires i < |Step(s, e).ledger.invoices| && Step(s, e).ledger.invoices[i].status != QUEUED
    ensures e.ProcessJob? && e.index == i
    ensures GateOpen(s.ledger.invoices, s.ledger.invoices[i])
  {
    if e.EmitInvoice? {
      EmitAppends(s, e.request);
    }
    if !(e.RegisterRow? || e.EmitInvoice? || e.AskAnnulment? || e.SettleAnnulment?) {
      assert Step(s, e).ledger == StepLedger(s.ledger, e);
      StepLedgerKeeps(s.ledger, e);
      LedgerLeavesQueued(s.ledger, e, i);
    }
  }

  lemma ProcessLeavesOthers(l: Ledger, index: nat, w: ProcessWorld, i: nat)
    requires i < |l.invoices| && i < |Process(l, index, w).invoices|
    requires Process(l, index, w).invoices[i] != l.invoices[i]
    ensures index == i && ProcessProceeds(l, i)
  {}

  lemma PollLeavesOthers(l: Ledger, index: nat, w: PollWorld, i: nat)
    requires i < |l.invoices| && i !in l.polls
    ensures i < |Poll(l, index, w).invoices| && Poll(l, index, w).invoices[i] == l.invoices[i]
  {}

  lemma RunLeavesQueuedPastGate(s0: State, es: seq<Event>, k: nat, i: nat)
    requires IsInit(s0) && 0 < k <= |es| && i < |At(s0, es, k - 1).ledger.invoices|
    requires At(s0, es, k - 1).ledger.invoices[i].status == QUEUED
    requires i < |At(s0, es, k).ledger.invoices| && At(s0, es, k).ledger.invoices[i].status != QUEUED
    requires At(s0, es, k - 1).ledger.invoices[i].referenceEncf.Some?
    ensures AcceptedIn(At(s0, es, k - 1), At(s0, es, k - 1).ledger.invoices[i].referenceEncf.value)
  {
    hide Step;
    var before := At(s0, es, k - 1);
    RunKeepsValid(s0, es, k - 1);
    LeavingQueuedPassesGate(before, es[k - 1], i);
    OpenGateSawAccepted(before, before.ledger.invoices[i]);
  }

  /** Every status but QUEUED was reached past the gate. */
  lemma {:induction false} NotQueuedMeansGatePassed(s0: State, es: seq<Event>, k: nat, i: nat)
    requires IsInit(s0) && k <= |es| && i < |At(s0, es, k).ledger.invoices|
    requires At(s0, es, k).ledger.invoices[i].status != QUEUED
    requires At(s0, es, k).ledger.invoices[i].referenceEncf.Some?
    ensures AcceptedBy(s0, es, k, At(s0, es, k).ledger.invoices[i].referenceEncf.value)
  {
    hide Step;
    if k > 0 {
      var before, after := At(s0, es, k - 1).ledger.invoices, At(s0, es, k).ledger.invoices;
      RunKeepsRows(s0, es, k);
      if i >= |before| {
        RunAddsPlainInvoices(s0, es, k, i);
      } else {
        assert RowKept(before[i], after[i]);
        var encf := after[i].referenceEncf.value;
        if before[i].status != QUEUED {
          NotQueuedMeansGatePassed(s0, es, k - 1, i);
          var m :| 0 <= m <= k - 1 && AcceptedIn(At(s0, es, m), encf);
        } else {
          RunLeavesQueuedPastGate(s0, es, k, i);
          assert AcceptedIn(At(s0, es, k - 1), encf);
        }
      }
    }
  }

  /** Every submission of a note, by the job or later by the contingency batch,
      comes after a moment when the invoice it modifies was ACCEPTED. */
  lemma {:induction false} SubmissionFollowsAcceptance(s0: State, es: seq<Event>, k: nat, i: nat)
    requires IsInit(s0) && k < |es| && Submits(At(s0, es, k), es[k], i)
    requires i < |At(s0, es, k).ledger.invoices| && At(s0, es, k).ledger.invoices[i].referenceEncf.Some?
    ensures AcceptedBy(s0, es, k, At(s0, es, k).ledger.invoices[i].referenceEncf.value)
  {
    var s := At(s0, es, k);
    RunKeepsValid(s0, es, k);
    SubmitsFacts(s, es[k], i);
    if s.ledger.invoices[i].status != QUEUED {
      NotQueuedMeansGatePassed(s0, es, k, i);
    } else {
      OpenGateSawAccepted(s, s.ledger.invoices[i]);
      assert AcceptedIn(At(s0, es, k), s.ledger.invoices[i].referenceEncf.value);
    }
  }

  // ----- track ids -----

  lemma {:induction false} TrackIdIsWriteOnce(s0: State, es: seq<Event>, m: nat, k: nat, i: nat)
    requires IsInit(s0) && m <= k <= |es| && i < |At(s0, es, m).ledger.invoices|
    requires At(s0, es, m).ledger.invoices[i].trackId.Some?
    ensures i < |At(s0, es, k).ledger.invoices|
    ensures At(s0, es, k).ledger.invoices[i].trackId == At(s0, es, m).ledger.invoices[i].trackId
  {
    hide Step;
    if m < k {
      TrackIdIsWriteOnce(s0, es, m, k - 1, i);
      RunKeepsRows(s0, es, k);
      assert RowKept(At(s0, es, k - 1).ledger.invoices[i], At(s0, es, k).ledger.invoices[i]);
    }
  }

  /** Once a track id is recorded the invoice is never submitted again. */
  lemma {:induction false} TrackedIsNeverResubmitted(s0: State, es: seq<Event>, m: nat, k: nat, i: nat)
    requires IsInit(s0) && m <= k < |es| && i < |At(s0, es, m).ledger.invoices|
    requires At(s0, es, m).ledger.invoices[i].trackId.Some?
    ensures !Submits(At(s0, es, k), es[k], i)
  {
    TrackIdIsWriteOnce(s0, es, m, k, i);
    RunKeepsValid(s0, es, k);
    if Submits(At(s0, es, k), es[k], i) {
      SubmitsFacts(At(s0, es, k), es[k], i);
    }
  }

  /** A second submission of an invoice means that the first left no track id:
      it failed, was answered without one, or its result was lost. */
  lemma {:induction false} ResubmissionMeansNoTrackId(s0: State, es: seq<Event>, m: nat, k: nat, i: nat)
    requires IsInit(s0) && m < k < |es|
    requires Submits(At(s0, es, m), es[m], i) && Submits(At(s0, es, k), es[k], i)
    ensures i < |At(s0, es, m + 1).ledger.invoices| && At(s0, es, m + 1).ledger.invoices[i].trackId.None?
  {
    hide Step;
    RunKeepsValid(s0, es, m);
    SubmitsFacts(At(s0, es, m), es[m], i);
    RunKeepsRows(s0, es, m + 1);
    if At(s0, es, m + 1).ledger.invoices[i].trackId.Some? {
      TrackedIsNeverResubmitted(s0, es, m + 1, k, i);
    }
  }

  // ----- status polling -----

  /** What is left of a queued poll job: attempts, then the track id to recover. */
  function PollBudget(l: Ledger, i: nat): int
    requires i in l.polls && i < |l.invoices|
  {
    MAX_ATTEMPTS + 1 - l.polls[i] + if l.invoices[i].trackId.None? then 1 else 0
  }

  lemma PollCompletesSettled(l: Ledger, i: nat, w: PollWorld)
    requires Pipeline.Valid(l) && i in l.polls && i !in Poll(l, i, w).polls
    ensures i < |l.invoices| && Poll(l, i, w).invoices[i].status != PROCESSING && Poll(l, i, w).invoices[i].status != SENT
  {}

  lemma PollDelayedSpends(l: Ledger, i: nat, w: PollWorld)
    requires Pipeline.Valid(l) && i in l.polls && i in Poll(l, i, w).polls
    ensures i < |Poll(l, i, w).invoices| && PollBudget(Poll(l, i, w), i) < PollBudget(l, i)
  {}

  /** No other event gives a queued poll job more attempts. */
  lemma OthersKeepBudget(s: State, e: Event, i: nat)
    requires Company.Valid(s) && i in s.ledger.polls && i in Step(s, e).ledger.polls
    requires !(e.PollJob? && e.index == i)
    ensures i < |s.ledger.invoices| && i < |Step(s, e).ledger.invoices|
    ensures PollBudget(Step(s, e).ledger, i) <= PollBudget(s.ledger, i)
  {
    StepKeepsRows(s, e);
    assert RowKept(s.ledger.invoices[i], Step(s, e).ledger.invoices[i]);
    PollsOfOthers(s, e, i);
  }

  lemma RetryKeepsPolls(l: Ledger, j: nat, w: RetryWorld, i: nat)
    requires j < |l.invoices| && i in l.polls
    ensures i in Retry(l, j, w).0.polls && Retry(l, j, w).0.polls[i] == l.polls[i]
  {}

  lemma {:induction false} BatchKeepsPolls(l: Ledger, world: nat -> RetryWorld, k: nat, i: nat)
    requires k <= |Batch(l.invoices)| && i in l.polls
    ensures i in RunBatch(l, world, k).ledger.polls && RunBatch(l, world, k).ledger.polls[i] == l.polls[i]
  {
    hide RunBatch;
    if k == 0 {
      BatchStarts(l, world);
    } else {
      BatchKeepsPolls(l, world, k - 1, i);
      RunBatchUnfolds(l, world, k);
      if RunBatch(l, world, k - 1).alive {
        RetryKeepsPolls(RunBatch(l, world, k - 1).ledger, Batch(l.invoices)[k - 1], world(k - 1), i);
      }
    }
  }

  lemma PollsOfOthers(s: State, e: Event, i: nat)
    requires i in s.ledger.polls && !(e.PollJob? && e.index == i)
    ensures i in Step(s, e).ledger.polls && Step(s, e).ledger.polls[i] == s.ledger.polls[i]
  {
    match e {
      case ContingencyTick(health, world) => BatchKeepsPolls(s.ledger, world, |Batch(s.ledger.invoices)|, i);
      case _ =>
    }
  }

  /** Executions of the poll job of invoice `i` between two points of a run. */
  function PollExecutions(es: seq<Event>, m: nat, k: nat, i: nat): nat
    requires m <= k <= |es|
    decreases k
  {
    if k == m then 0
    else PollExecutions(es, m, k - 1, i) + if es[k - 1].PollJob? && es[k - 1].index == i then 1 else 0
  }

  ghost predicate QueuedThroughout(s0: State, es: seq<Event>, m: nat, k: nat, i: nat)
    requires m <= k <= |es|
  {
    forall j :: m <= j <= k ==> i in At(s0, es, j).ledger.polls
  }

  lemma StepSpendsBudget(s: State, e: Event, i: nat)
    requires Company.Valid(s) && i in s.ledger.polls && i in Step(s, e).ledger.polls
    ensures i < |s.ledger.invoices| && i < |Step(s, e).ledger.invoices|
    ensures PollBudget(Step(s, e).ledger, i) + (if e.PollJob? && e.index == i then 1 else 0) <= PollBudget(s.ledger, i)
  {
    if e.PollJob? && e.index == i {
      assert Step(s, e).ledger == Poll(s.ledger, i, e.poll);
      PollDelayedSpends(s.ledger, i, e.poll);
    } else {
      OthersKeepBudget(s, e, i);
    }
  }

  lemma BudgetIsNatural(s: State, i: nat)
    requires Company.Valid(s) && i in s.ledger.polls
    ensures i < |s.ledger.invoices| && PollBudget(s.ledger, i) >= 0
  {}

  lemma {:induction false} ExecutionsSpendBudget(s0: State, es: seq<Event>, m: nat, k: nat, i: nat)
    requires IsInit(s0) && m <= k <= |es| && QueuedThroughout(s0, es, m, k, i)
    ensures i < |At(s0, es, m).ledger.invoices| && i < |At(s0, es, k).ledger.invoices|
    ensures PollExecutions(es, m, k, i) <= PollBudget(At(s0, es, m).ledger, i) - PollBudget(At(s0, es, k).ledger, i)
    ensures PollBudget(At(s0, es, k).ledger, i) >= 0
    decreases k
  {
    hide Step, Company.Valid, PollBudget;
    RunKeepsValid(s0, es, k);
    assert i in At(s0, es, k).ledger.polls;
    BudgetIsNatural(At(s0, es, k), i);
    if m < k {
      assert i in At(s0, es, k - 1).ledger.polls;
      ExecutionsSpendBudget(s0, es, m, k - 1, i);
      RunKeepsValid(s0, es, k - 1);
      StepSpendsBudget(At(s0, es, k - 1), es[k - 1], i);
    }
  }

  /** Polling ends under every sequence of answers: from its first attempt a job
      runs at most 22 times until it completes, whatever happens in between. */
  lemma {:induction false} PollRunsAtMost22Times(s0: State, es: seq<Event>, m: nat, k: nat, i: nat)
    requires IsInit(s0) && m < k <= |es| && QueuedThroughout(s0, es, m, k - 1, i)
    requires At(s0, es, m).ledger.polls[i] == 1
    ensures PollExecutions(es, m, k, i) <= 22
  {
    ExecutionsSpendBudget(s0, es, m, k - 1, i);
  }

  /** When the job completes, the invoice is no longer PROCESSING or SENT. */
  lemma {:induction false} CompletedPollIsSettled(s0: State, es: seq<Event>, k: nat, i: nat)
    requires IsInit(s0) && k < |es|
    requires i in At(s0, es, k).ledger.polls && i !in At(s0, es, k + 1).ledger.polls
    ensures i < |At(s0, es, k + 1).ledger.invoices|
    ensures At(s0, es, k + 1).ledger.invoices[i].status != PROCESSING && At(s0, es, k + 1).ledger.invoices[i].status != SENT
  {
    hide Step;
    RunKeepsValid(s0, es, k);
    StepCompletesSettled(At(s0, es, k), es[k], i);
  }

  lemma StepCompletesSettled(s: State, e: Event, i: nat)
    requires Company.Valid(s) && i in s.ledger.polls && i !in Step(s, e).ledger.polls
    ensures i < |s.ledger.invoices| && i < |Step(s, e).ledger.invoices|
    ensures Step(s, e).ledger.invoices[i].status != PROCESSING && Step(s, e).ledger.invoices[i].status != SENT
  {
    StepKeepsRows(s, e);
    if e.PollJob? && e.index == i {
      assert Step(s, e).ledger == Poll(s.ledger, i, e.poll);
      PollCompletesSettled(s.ledger, i, e.poll);
    } else {
      PollsOfOthers(s, e, i);
    }
  }
}
