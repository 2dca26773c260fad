/** Where a verdict comes from: in every run an invoice is ACCEPTED, REJECTED or
    CONDITIONAL only because DGII said so about that invoice, and VOIDED only
    because a user asked for it. */
module VerdictRuns {
  import opened EcfTypes
  import opened Pipeline
  import opened Company
  import opened CompanyInvariant
  import opened PipelineRuns

  /** The status codes of DGII that carry a verdict. */
  predicate IsVerdict(s: InvoiceStatus, code: int) {
    || (s == ACCEPTED && code == 1)
    || (s == REJECTED && code == 2)
    || (s == CONDITIONAL && code == 4)
  }

  predicate Decided(s: InvoiceStatus) {
    s == ACCEPTED || s == REJECTED || s == CONDITIONAL || s == VOIDED
  }

  /** This item of a batch makes a call to DGII, a query with a track id and a
      submission without, and is answered `code`. */
  predicate RetryHears(l: Ledger, i: nat, w: RetryWorld, code: int) {
    && i < |l.invoices|
    && w.now - l.invoices[i].createdAt <= CONTINGENCY_LIMIT_MS && w.credentials.Done?
    && if l.invoices[i].trackId.Some? then w.query == Answered(code)
       else RetrySubmits(l, i, w) && w.submission.Received? && w.submission.code == code
  }

  ghost predicate BatchHears(l: Ledger, world: nat -> RetryWorld, k: nat, i: nat, code: int)
    requires k < |Batch(l.invoices)|
  {
    && Batch(l.invoices)[k] == i
    && RunBatch(l, world, k).alive
    && RetryHears(RunBatch(l, world, k).ledger, i, world(k), code)
  }

  /** The poll job gets as far as its query. */
  predicate PollAsks(l: Ledger, i: nat) {
    && i in l.polls && i < |l.invoices|
    && !PollEnds(l.invoices[i].status) && l.invoices[i].trackId.Some? && l.polls[i] <= MAX_ATTEMPTS
  }

  /** In this event a call to DGII about invoice `i` is made and answered `code`. */
  ghost predicate Hears(l: Ledger, e: Event, i: nat, code: int) {
    match e
    case ProcessJob(index, w) =>
      index == i && ProcessSubmits(l, i, w) && w.submission.Received? && w.submission.code == code
    case PollJob(index, w) => index == i && PollAsks(l, i) && w.query == Answered(code)
    case ManualPoll(index, query) => index == i && i < |l.invoices| && l.invoices[i].trackId.Some? && query == Answered(code)
    case ContingencyTick(health, world) => health.Done? && exists k :: 0 <= k < |Batch(l.invoices)| && BatchHears(l, world, k, i, code)
    case _ => false
  }

  /** The event justifies that invoice `i` now has status `s`. */
  ghost predicate Justifies(l: Ledger, e: Event, i: nat, s: InvoiceStatus) {
    || (s == VOIDED && e == VoidInvoice(i) && i < |l.invoices| && Voidable(l.invoices[i].status))
    || exists code :: IsVerdict(s, code) && Hears(l, e, i, code)
  }

  lemma ProcessJustifies(l: Ledger, index: nat, w: ProcessWorld, i: nat)
    requires i < |l.invoices| && i < |Process(l, index, w).invoices|
    requires Decided(Process(l, index, w).invoices[i].status) && Process(l, index, w).invoices[i].status != l.invoices[i].status
    ensures Justifies(l, ProcessJob(index, w), i, Process(l, index, w).invoices[i].status)
  {
    hide Process, ProcessSubmits;
    ProcessLeavesOthers(l, index, w, i);
    ProcessDecides(l, i, w);
    assert Hears(l, ProcessJob(index, w), i, w.submission.code);
  }

  lemma ProcessDecides(l: Ledger, i: nat, w: ProcessWorld)
    requires i < |l.invoices| && i < |Process(l, i, w).invoices| && ProcessProceeds(l, i)
    requires Decided(Process(l, i, w).invoices[i].status) && Process(l, i, w).invoices[i].status != l.invoices[i].status
    ensures ProcessSubmits(l, i, w) && w.submission.Received?
    ensures Process(l, i, w).invoices[i].status == MapDgiiStatus(w.submission.code)
  {}

  lemma PollJustifies(l: Ledger, index: nat, w: PollWorld, i: nat)
    requires i < |l.invoices| && i < |Poll(l, index, w).invoices|
    requires Decided(Poll(l, index, w).invoices[i].status) && Poll(l, index, w).invoices[i].status != l.invoices[i].status
    ensures Justifies(l, PollJob(index, w), i, Poll(l, index, w).invoices[i].status)
  {
    assert index == i && PollAsks(l, i) && w.query.Answered?;
    assert Hears(l, PollJob(index, w), i, w.query.code);
  }

  lemma ManualPollJustifies(l: Ledger, index: nat, query: Query, i: nat)
    requires i < |l.invoices| && i < |PollStatus(l, index, query).invoices|
    requires Decided(PollStatus(l, index, query).invoices[i].status)
    requires PollStatus(l, index, query).invoices[i].status != l.invoices[i].status
    ensures Justifies(l, ManualPoll(index, query), i, PollStatus(l, index, query).invoices[i].status)
  {
    assert Hears(l, ManualPoll(index, query), i, query.code);
  }

  lemma RetryJustifies(l: Ledger, i: nat, w: RetryWorld)
    requires i < |l.invoices|
    requires Decided(Retry(l, i, w).0.invoices[i].status) && Retry(l, i, w).0.invoices[i].status != l.invoices[i].status
    ensures exists code :: IsVerdict(Retry(l, i, w).0.invoices[i].status, code) && RetryHears(l, i, w, code)
  {
    var code := if l.invoices[i].trackId.Some? then w.query.code else w.submission.code;
    assert RetryHears(l, i, w, code);
  }

  /** The item of the batch that changed an invoice heard its verdict. */
  lemma {:induction false} BatchJustifies(l: Ledger, world: nat -> RetryWorld, k: nat, i: nat)
    requires Pipeline.Valid(l) && k <= |Batch(l.invoices)| && i < |l.invoices|
    requires Decided(RunBatch(l, world, k).ledger.invoices[i].status)
    requires RunBatch(l, world, k).ledger.invoices[i].status != l.invoices[i].status
    ensures exists code, m :: IsVerdict(RunBatch(l, world, k).ledger.invoices[i].status, code)
              && 0 <= m < k && BatchHears(l, world, m, i, code)
  {
    hide RunBatch, Kept, Retry, RetryHears, IsVerdict, Batch;
    if k == 0 {
      BatchStarts(l, world);
    } else {
      var b, id := RunBatch(l, world, k - 1), Batch(l.invoices)[k - 1];
      RunBatchUnfolds(l, world, k);
      RunBatchKeeps(l, world, k - 1);
      BatchIncreases(l.invoices);
      if b.alive && i == id {
        assert i !in Batch(l.invoices)[..k - 1];
        RetryJustifies(b.ledger, i, world(k - 1));
        var code :| IsVerdict(RunBatch(l, world, k).ledger.invoices[i].status, code) && RetryHears(b.ledger, i, world(k - 1), code);
        assert BatchHears(l, world, k - 1, i, code);
      } else {
        if b.alive {
          RetryTouchesOnly(b.ledger, id, world(k - 1));
        }
        BatchJustifies(l, world, k - 1, i);
      }
    }
  }

  lemma TickJustifies(l: Ledger, health: Call, world: nat -> RetryWorld, i: nat)
    requires Pipeline.Valid(l) && i < |l.invoices|
    requires Decided(ProcessQueue(l, health, world).invoices[i].status)
    requires ProcessQueue(l, health, world).invoices[i].status != l.invoices[i].status
    ensures Justifies(l, ContingencyTick(health, world), i, ProcessQueue(l, health, world).invoices[i].status)
  {
    var n := |Batch(l.invoices)|;
    var s := ProcessQueue(l, health, world).invoices[i].status;
    BatchJustifies(l, world, n, i);
    var code, m :| IsVerdict(s, code) && 0 <= m < n && BatchHears(l, world, m, i, code);
    assert Hears(l, ContingencyTick(health, world), i, code);
  }

  lemma LedgerStepJustifies(l: Ledger, e: Event, i: nat)
    requires Pipeline.Valid(l) && i < |l.invoices| == |StepLedger(l, e).invoices|
    requires Decided(StepLedger(l, e).invoices[i].status) && StepLedger(l, e).invoices[i].status != l.invoices[i].status
    ensures Justifies(l, e, i, StepLedger(l, e).invoices[i].status)
  {
    hide Justifies;
    match e {
      case ProcessJob(index, w) => ProcessJustifies(l, index, w, i);
      case PollJob(index, w) => PollJustifies(l, index, w, i);
      case ManualPoll(index, query) => ManualPollJustifies(l, index, query, i);
      case ContingencyTick(health, world) => TickJustifies(l, health, world, i);
      case VoidInvoice(index) => VoidJustifies(l, index, i);
      case _ =>
    }
  }

  lemma VoidJustifies(l: Ledger, index: nat, i: nat)
    requires i < |l.invoices| && Void(l, index).invoices[i].status != l.invoices[i].status
    ensures Justifies(l, VoidInvoice(index), i, Void(l, index).invoices[i].status)
  {}

  lemma StepJustifies(s: State, e: Event, i: nat)
    requires Company.Valid(s) && i < |Step(s, e).ledger.invoices|
    requires Decided(Step(s, e).ledger.invoices[i].status)
    requires i < |s.ledger.invoices| ==> Step(s, e).ledger.invoices[i].status != s.ledger.invoices[i].status
    ensures Justifies(s.ledger, e, i, Step(s, e).ledger.invoices[i].status)
  {
    if i >= |s.ledger.invoices| {
      NewInvoiceIsPlain(s, e, i);
    } else if e.EmitInvoice? {
      EmitAppends(s, e.request);
    } else if !(e.RegisterRow? || e.AskAnnulment? || e.SettleAnnulment?) {
      assert Step(s, e).ledger == StepLedger(s.ledger, e);
      StepLedgerKeeps(s.ledger, e);
      LedgerStepJustifies(s.ledger, e, i);
    }
  }

  ghost predicate HasStatus(s: State, i: nat, status: InvoiceStatus) {
    i < |s.ledger.invoices| && s.ledger.invoices[i].status == status
  }

  /** Event `m` sets status `s` of invoice `i`, which had another, and is the kind of
      event that may. */
  ghost predicate SetAt(s0: State, es: seq<Event>, m: nat, i: nat, s: InvoiceStatus)
    requires m < |es|
  {
    var before, after := At(s0, es, m).ledger.invoices, At(s0, es, m + 1).ledger.invoices;
    && i < |before| && before[i].status != s
    && i < |after| && after[i].status == s
    && Justifies(At(s0, es, m).ledger, es[m], i, s)
  }

  ghost predicate Stands(s0: State, es: seq<Event>, m: nat, k: nat, i: nat, s: InvoiceStatus)
    requires m <= k <= |es|
  {
    forall j :: m <= j <= k ==> HasStatus(At(s0, es, j), i, s)
  }

  /** In every run a decided status was set by an event in which DGII gave that
      verdict about that invoice, or a user voided it, and has stood since. */
  lemma {:induction false} VerdictsComeFromDgii(s0: State, es: seq<Event>, k: nat, i: nat)
    requires IsInit(s0) && k <= |es| && i < |At(s0, es, k).ledger.invoices|
    requires Decided(At(s0, es, k).ledger.invoices[i].status)
    ensures exists m :: 0 <= m < k && SetAt(s0, es, m, i, At(s0, es, k).ledger.invoices[i].status)
              && Stands(s0, es, m + 1, k, i, At(s0, es, k).ledger.invoices[i].status)
  {
    hide Step, SetAt;
    if k > 0 {
      var before := At(s0, es, k - 1).ledger.invoices;
      var s := At(s0, es, k).ledger.invoices[i].status;
      if i < |before| && before[i].status == s {
        VerdictsComeFromDgii(s0, es, k - 1, i);
        var m :| 0 <= m < k - 1 && SetAt(s0, es, m, i, s) && Stands(s0, es, m + 1, k - 1, i, s);
        assert Stands(s0, es, m + 1, k, i, s);
      } else {
        LastEventSets(s0, es, k, i);
        assert Stands(s0, es, k, k, i, s);
      }
    }
  }

  lemma LastEventSets(s0: State, es: seq<Event>, k: nat, i: nat)
    requires IsInit(s0) && 0 < k <= |es| && i < |At(s0, es, k).ledger.invoices|
    requires Decided(At(s0, es, k).ledger.invoices[i].status)
    requires !HasStatus(At(s0, es, k - 1), i, At(s0, es, k).ledger.invoices[i].status)
    ensures SetAt(s0, es, k - 1, i, At(s0, es, k).ledger.invoices[i].status)
  {
    hide Step, Justifies;
    if i >= |At(s0, es, k - 1).ledger.invoices| {
      RunAddsPlainInvoices(s0, es, k, i);
    }
    RunKeepsValid(s0, es, k - 1);
    StepJustifies(At(s0, es, k - 1), es[k - 1], i);
  }
}
