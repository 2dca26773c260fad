/** What an answer of DGII leads to: the status that is written, the refund, the poll
    that is queued, and how that poll ends. Codes are spelled out here. */
module AnswerRuns {
  import opened EcfTypes
  import opened Pipeline
  import opened Company
  import opened CompanyInvariant
  import opened ContingencyRuns
  import opened PipelineRuns
  import opened VerdictRuns

  /** 1 accepted, 2 rejected, 4 conditional; 3 is in process, and the batch takes every
      other answer for that too. */
  function StatusOf(code: int, inBatch: bool): InvoiceStatus {
    if code == 1 then ACCEPTED
    else if code == 2 then REJECTED
    else if code == 4 then CONDITIONAL
    else if code == 3 || inBatch then PROCESSING
    else SENT
  }

  predicate Undecided(code: int) {
    code != 1 && code != 2 && code != 4
  }

  /** The row holds what was answered, and its unit is given back when rejected. */
  predicate Holds(inv: Invoice, code: int, inBatch: bool) {
    inv.status == StatusOf(code, inBatch) && (code == 2 ==> inv.usageReverted)
  }

  // ----- the answer is written -----

  lemma JobWrites(l: Ledger, i: nat, w: ProcessWorld)
    requires Pipeline.Valid(l) && ProcessSubmits(l, i, w) && w.submission.Received?
    ensures i < |Process(l, i, w).invoices| && Holds(Process(l, i, w).invoices[i], w.submission.code, false)
    ensures Process(l, i, w).invoices[i].trackId == w.submission.trackId
  {}

  lemma PollWrites(l: Ledger, i: nat, w: PollWorld)
    requires Pipeline.Valid(l) && PollAsks(l, i) && w.query.Answered?
    ensures i < |Poll(l, i, w).invoices| && Holds(Poll(l, i, w).invoices[i], w.query.code, false)
  {}

  lemma ManualPollWrites(l: Ledger, i: nat, code: int)
    requires Pipeline.Valid(l) && i < |l.invoices| && l.invoices[i].trackId.Some?
    ensures i < |PollStatus(l, i, Answered(code)).invoices| && Holds(PollStatus(l, i, Answered(code)).invoices[i], code, false)
  {
    assert RowValid(l.invoices[i]);
  }

  lemma ItemWrites(l: Ledger, i: nat, w: RetryWorld, code: int)
    requires Pipeline.Valid(l) && RetryHears(l, i, w, code)
    ensures Holds(Retry(l, i, w).0.invoices[i], code, true)
    ensures l.invoices[i].trackId.None? ==> Retry(l, i, w).0.invoices[i].trackId == w.submission.trackId
    ensures Retry(l, i, w).1 == Processed
  {}

  /** No later item of a batch touches an earlier one. */
  lemma {:induction false} ItemStands(l: Ledger, world: nat -> RetryWorld, k: nat, n: nat)
    requires k < n <= |Batch(l.invoices)|
    ensures Batch(l.invoices)[k] < |l.invoices|
    ensures RunBatch(l, world, n).ledger.invoices[Batch(l.invoices)[k]] == RunBatch(l, world, k + 1).ledger.invoices[Batch(l.invoices)[k]]
  {
    hide RunBatch, Batch, Retry;
    BatchIncreases(l.invoices);
    if k + 1 < n {
      ItemStands(l, world, k, n - 1);
      RunBatchUnfolds(l, world, n);
      if RunBatch(l, world, n - 1).alive {
        RetryTouchesOnly(RunBatch(l, world, n - 1).ledger, Batch(l.invoices)[n - 1], world(n - 1));
      }
    }
  }

  /** After the whole batch an item holds what it was answered. */
  lemma BatchWrites(l: Ledger, world: nat -> RetryWorld, k: nat, i: nat, code: int)
    requires Pipeline.Valid(l) && k < |Batch(l.invoices)| && BatchHears(l, world, k, i, code)
    ensures i < |l.invoices| && Holds(RunBatch(l, world, |Batch(l.invoices)|).ledger.invoices[i], code, true)
  {
    hide RunBatch, Batch, Retry, RetryHears;
    var b := RunBatch(l, world, k);
    RunBatchKeeps(l, world, k);
    ItemWrites(b.ledger, i, world(k), code);
    RunBatchUnfolds(l, world, k + 1);
    ItemStands(l, world, k, |Batch(l.invoices)|);
  }

  /** The converse of the verdicts: whatever DGII answers about an invoice, in whichever
      call, is the status that the invoice has after the event. */
  lemma AnswerIsWritten(s: State, e: Event, i: nat, code: int)
    requires Company.Valid(s) && Hears(s.ledger, e, i, code)
    ensures i < |Step(s, e).ledger.invoices|
    ensures Holds(Step(s, e).ledger.invoices[i], code, e.ContingencyTick?)
  {
    hide Process, Poll, PollStatus, RunBatch, Batch, Holds;
    LedgerPart(s);
    match e {
      case ProcessJob(index, w) => JobWrites(s.ledger, i, w);
      case PollJob(index, w) => PollWrites(s.ledger, i, w);
      case ManualPoll(index, query) => ManualPollWrites(s.ledger, i, code);
      case ContingencyTick(health, world) =>
        var k :| 0 <= k < |Batch(s.ledger.invoices)| && BatchHears(s.ledger, world, k, i, code);
        BatchWrites(s.ledger, world, k, i, code);
    }
  }

  // ----- the poll is queued -----

  function Queued(polls: map<nat, nat>, i: nat): map<nat, nat> {
    if i in polls then polls else polls[i := 1]
  }

  /** The job finds a track id and reconciles instead of submitting. */
  predicate FindsTrackId(l: Ledger, i: nat) {
    && i < |l.invoices| && l.invoices[i].hasXml && l.invoices[i].trackId.Some?
    && l.invoices[i].status != ACCEPTED && l.invoices[i].status != VOIDED
  }

  /** A processing job queues a poll exactly when it finds a track id, or is left without
      a verdict for a document that can be asked about; a poll already queued stays. */
  lemma JobQueues(l: Ledger, i: nat, w: ProcessWorld)
    ensures var queues := || FindsTrackId(l, i)
                          || (ProcessSubmits(l, i, w) && w.submission.Received? && Undecided(w.submission.code)
                              && (w.submission.trackId.Some? || !l.invoices[i].isRfce));
            Process(l, i, w).polls == if queues then Queued(l.polls, i) else l.polls
  {}

  lemma ItemQueues(l: Ledger, i: nat, w: RetryWorld)
    requires i < |l.invoices|
    ensures Retry(l, i, w).0.polls
         == if exists code :: Undecided(code) && RetryHears(l, i, w, code) then Queued(l.polls, i) else l.polls
  {
    if Retry(l, i, w).1 == Processed {
      assert RetryHears(l, i, w, if l.invoices[i].trackId.Some? then w.query.code else w.submission.code);
    }
  }

  ghost predicate HeardUndecided(l: Ledger, world: nat -> RetryWorld, k: nat, i: nat)
    requires k <= |Batch(l.invoices)|
  {
    exists m, code :: 0 <= m < k && Undecided(code) && BatchHears(l, world, m, i, code)
  }

  /** The batch queues polls for exactly the items that were left without a verdict. */
  lemma {:induction false} BatchQueues(l: Ledger, world: nat -> RetryWorld, k: nat, i: nat)
    requires k <= |Batch(l.invoices)|
    ensures i in RunBatch(l, world, k).ledger.polls <==> i in l.polls || HeardUndecided(l, world, k, i)
    ensures i in RunBatch(l, world, k).ledger.polls ==>
              RunBatch(l, world, k).ledger.polls[i] == (if i in l.polls then l.polls[i] else 1)
  {
    hide RunBatch, Batch, Retry, RetryHears;
    if k == 0 {
      BatchStarts(l, world);
    } else {
      var b, id := RunBatch(l, world, k - 1), Batch(l.invoices)[k - 1];
      BatchQueues(l, world, k - 1, i);
      RunBatchUnfolds(l, world, k);
      BatchIncreases(l.invoices);
      if HeardUndecided(l, world, k - 1, i) {
        var m, code :| 0 <= m < k - 1 && Undecided(code) && BatchHears(l, world, m, i, code);
      }
      if b.alive {
        ItemQueues(b.ledger, id, world(k - 1));
        if code :| Undecided(code) && RetryHears(b.ledger, id, world(k - 1), code) {
          assert BatchHears(l, world, k - 1, id, code);
        }
      }
      if HeardUndecided(l, world, k, i) && !HeardUndecided(l, world, k - 1, i) {
        var m, code :| 0 <= m < k && Undecided(code) && BatchHears(l, world, m, i, code);
        assert m == k - 1;
      }
    }
  }

  /** A call about invoice `i` got an answer without a verdict, and the document can be
      asked about again. */
  ghost predicate LeftOpen(l: Ledger, e: Event, i: nat) {
    match e
    case ProcessJob(index, w) =>
      index == i && (|| FindsTrackId(l, i)
                     || (ProcessSubmits(l, i, w) && w.submission.Received? && Undecided(w.submission.code)
                         && (w.submission.trackId.Some? || !l.invoices[i].isRfce)))
    case ContingencyTick(health, world) =>
      health.Done? && HeardUndecided(l, world, |Batch(l.invoices)|, i)
    case _ => false
  }

  /** In every step a poll job comes into the queue exactly then, at its first attempt. */
  lemma QueuedExactlyWhenLeftOpen(s: State, e: Event, i: nat)
    requires Company.Valid(s) && i !in s.ledger.polls
    ensures i in Step(s, e).ledger.polls <==> LeftOpen(s.ledger, e, i)
    ensures i in Step(s, e).ledger.polls ==> Step(s, e).ledger.polls[i] == 1
  {
    hide Process, Poll, RunBatch, Batch, ProcessSubmits, FindsTrackId, HeardUndecided, Emit, RequestAnnulment, Settle;
    match e {
      case ProcessJob(index, w) => JobQueues(s.ledger, index, w);
      case ContingencyTick(health, world) =>
        if health.Done? {
          BatchQueues(s.ledger, world, |Batch(s.ledger.invoices)|, i);
        }
      case _ => OthersQueueNothing(s, e, i);
    }
  }

  lemma OthersQueueNothing(s: State, e: Event, i: nat)
    requires !e.ProcessJob? && !e.ContingencyTick? && i !in s.ledger.polls
    ensures i !in Step(s, e).ledger.polls
  {}

  lemma LeftOpenIsQueued(s: State, e: Event, i: nat)
    requires Company.Valid(s) && LeftOpen(s.ledger, e, i)
    ensures i in Step(s, e).ledger.polls
  {
    if i in s.ledger.polls {
      PollsOfOthers(s, e, i);
    } else {
      QueuedExactlyWhenLeftOpen(s, e, i);
    }
  }

  // ----- and how it ends -----

  /** The job of invoice `i` completes between two points, and leaves it settled. */
  ghost predicate CompletesAt(s0: State, es: seq<Event>, j: nat, i: nat)
    requires 0 < j <= |es|
  {
    && i in At(s0, es, j - 1).ledger.polls && i !in At(s0, es, j).ledger.polls
    && i < |At(s0, es, j).ledger.invoices|
    && At(s0, es, j).ledger.invoices[i].status != PROCESSING && At(s0, es, j).ledger.invoices[i].status != SENT
  }

  /** A queued job stays queued, with at most 21 executions, or has completed before its
      22nd with the invoice settled. */
  lemma {:induction false} QueuedJobSettles(s0: State, es: seq<Event>, m: nat, k: nat, i: nat)
    requires IsInit(s0) && m <= k <= |es| && i in At(s0, es, m).ledger.polls
    ensures || (QueuedThroughout(s0, es, m, k, i) && PollExecutions(es, m, k, i) <= 21)
            || (exists j :: m < j <= k && CompletesAt(s0, es, j, i) && PollExecutions(es, m, j, i) <= 22)
    decreases k
  {
    hide Step, PollExecutions;
    if m == k {
      NoExecutions(es, m, i);
    } else {
      QueuedJobSettles(s0, es, m, k - 1, i);
      if QueuedThroughout(s0, es, m, k - 1, i) && PollExecutions(es, m, k - 1, i) <= 21 {
        OneMoreExecution(es, m, k, i);
        if i in At(s0, es, k).ledger.polls {
          QueuedWithinBudget(s0, es, m, k, i);
        } else {
          CompletedPollIsSettled(s0, es, k - 1, i);
          assert CompletesAt(s0, es, k, i);
        }
      }
    }
  }

  lemma NoExecutions(es: seq<Event>, m: nat, i: nat)
    requires m <= |es|
    ensures PollExecutions(es, m, m, i) == 0
  {}

  lemma OneMoreExecution(es: seq<Event>, m: nat, k: nat, i: nat)
    requires m < k <= |es|
    ensures PollExecutions(es, m, k, i) <= PollExecutions(es, m, k - 1, i) + 1
  {}

  lemma QueuedWithinBudget(s0: State, es: seq<Event>, m: nat, k: nat, i: nat)
    requires IsInit(s0) && m < k <= |es| && QueuedThroughout(s0, es, m, k - 1, i) && i in At(s0, es, k).ledger.polls
    ensures QueuedThroughout(s0, es, m, k, i) && PollExecutions(es, m, k, i) <= 21
  {
    hide Step, Company.Valid, PollExecutions, PollBudget;
    RunKeepsValid(s0, es, m);
    assert i in At(s0, es, m).ledger.polls;
    FullBudget(At(s0, es, m), i);
    ExecutionsSpendBudget(s0, es, m, k, i);
  }

  lemma FullBudget(s: State, i: nat)
    requires Company.Valid(s) && i in s.ledger.polls
    ensures i < |s.ledger.invoices| && PollBudget(s.ledger, i) <= 21
  {}

  /** An answer without a verdict is followed up: from the event that got it a poll job
      is queued, and whatever comes it completes within 22 executions, leaving the
      invoice neither PROCESSING nor SENT. */
  lemma {:induction false} OpenAnswerIsFollowedUp(s0: State, es: seq<Event>, m: nat, k: nat, i: nat)
    requires IsInit(s0) && m < k <= |es| && LeftOpen(At(s0, es, m).ledger, es[m], i)
    ensures i in At(s0, es, m + 1).ledger.polls
    ensures || (QueuedThroughout(s0, es, m + 1, k, i) && PollExecutions(es, m + 1, k, i) <= 21)
            || (exists j :: m + 1 < j <= k && CompletesAt(s0, es, j, i) && PollExecutions(es, m + 1, j, i) <= 22)
  {
    hide Step, LeftOpen;
    RunKeepsValid(s0, es, m);
    LeftOpenIsQueued(At(s0, es, m), es[m], i);
    QueuedJobSettles(s0, es, m + 1, k, i);
  }
}
