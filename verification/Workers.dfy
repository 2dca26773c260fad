/** The queue workers and the contingency service: the same rows, updated in
    place by jobs that may stop at any outside call. */
module Workers {
  import opened EcfTypes
  import opened Pipeline
  import opened Company
  import opened Database
  import UsageService

  class EcfProcessingProcessor {
    const db: Tables
    const usage: UsageService.UsageService

    predicate Valid() {
      usage.db == db
    }

    constructor (db: Tables)
      ensures Valid() && this.db == db
    {
      this.db := db;
      usage := new UsageService.UsageService(db);
    }

    method EnqueueStatusPoll(i: nat)
      modifies db`polls
      ensures db.LedgerView() == EnqueuePoll(old(db.LedgerView()), i)
    {
      if i !in db.polls {
        db.polls := db.polls[i := 1];
      }
    }

    method SetStatus(i: nat, s: InvoiceStatus)
      requires i < |db.invoices|
      modifies db`invoices
      ensures db.LedgerView() == Pipeline.SetStatus(old(db.LedgerView()), i, s)
    {
      db.invoices := db.invoices[i := db.invoices[i].(status := s)];
    }

    /** The job of one invoice. */
    method Process(i: nat, w: ProcessWorld)
      requires Valid()
      modifies db`invoices, db`planStatus, db`baseUsed, db`topupUsed, db`topupPurchases, db`polls
      ensures db.LedgerView() == Pipeline.Process(old(db.LedgerView()), i, w)
    {
      if i >= |db.invoices| || !db.invoices[i].hasXml {
        return;
      }
      var invoice := db.invoices[i];
      if invoice.status == ACCEPTED || invoice.status == VOIDED {
        return;
      }
      if invoice.trackId.Some? {
        EnqueueStatusPoll(i);
        return;
      }
      if invoice.referenceEncf.Some? {
        var referenced := FindByEncf(db.invoices, invoice.referenceEncf.value);
        if referenced.None? || db.invoices[referenced.value].status != ACCEPTED {
          return;
        }
      }
      Submit(i, w);
    }

    /** Past the early exits: sign, validate, authenticate, submit, record. */
    method Submit(i: nat, w: ProcessWorld)
      requires Valid() && ProcessProceeds(db.LedgerView(), i)
      modifies db`invoices, db`planStatus, db`baseUsed, db`topupUsed, db`topupPurchases, db`polls
      ensures db.LedgerView() == Pipeline.Process(old(db.LedgerView()), i, w)
    {
      if w.sign.Died? {
        return;
      }
      if w.sign.Failed? {
        SetStatus(i, FailStatus(w.sign.failure));
        return;
      }
      SetStatus(i, PROCESSING);
      if w.xsd == XsdInvalid {
        SetStatus(i, ERROR);
        return;
      }
      if w.token.Died? {
        return;
      }
      if w.token.Failed? {
        SetStatus(i, FailStatus(w.token.failure));
        return;
      }
      if w.submission.ResultLost? {
        return;
      }
      if w.submission.SubmitFailed? {
        SetStatus(i, FailStatus(w.submission.failure));
        return;
      }
      var newStatus := MapDgiiStatus(w.submission.code);
      db.invoices := db.invoices[i := db.invoices[i].(status := newStatus, trackId := w.submission.trackId)];
      if newStatus == REJECTED {
        usage.RevertUsage(i);
      }
      if (newStatus == PROCESSING || newStatus == SENT) && !(db.invoices[i].isRfce && w.submission.trackId.None?) {
        EnqueueStatusPoll(i);
      }
    }
  }

  class StatusPollProcessor {
    const db: Tables
    const usage: UsageService.UsageService

    predicate Valid() {
      usage.db == db
    }

    constructor (db: Tables)
      ensures Valid() && this.db == db
    {
      this.db := db;
      usage := new UsageService.UsageService(db);
    }

    /** One execution of a queued job; a job left in the queue was delayed. */
    method Process(i: nat, w: PollWorld) returns (delayed: bool)
      requires Valid() && i in db.polls
      modifies db`invoices, db`planStatus, db`baseUsed, db`topupUsed, db`topupPurchases, db`polls
      ensures db.LedgerView() == Poll(old(db.LedgerView()), i, w)
      ensures delayed <==> i in db.polls
    {
      var attempt := db.polls[i];
      db.polls := db.polls - {i};
      if i >= |db.invoices| {
        return false;
      }
      var invoice := db.invoices[i];
      if PollEnds(invoice.status) {
        return false;
      }
      if invoice.trackId.None? {
        if w.recovered.Some? {
          db.invoices := db.invoices[i := invoice.(trackId := w.recovered)];
          db.polls := db.polls[i := attempt];
          return true;
        }
        db.invoices := db.invoices[i := invoice.(status := ERROR)];
        return false;
      }
      if attempt > MAX_ATTEMPTS {
        db.invoices := db.invoices[i := invoice.(status := ERROR)];
        return false;
      }
      if w.query.QueryFailed? {
        if w.query.failure == NetworkFailure {
          db.polls := db.polls[i := attempt + 1];
          return true;
        }
        if invoice.status == PROCESSING || invoice.status == SENT {
          db.invoices := db.invoices[i := invoice.(status := ERROR)];
        }
        return false;
      }
      var newStatus := MapDgiiStatus(w.query.code);
      if newStatus != invoice.status {
        db.invoices := db.invoices[i := invoice.(status := newStatus)];
      }
      if !PollFinal(newStatus) {
        db.polls := db.polls[i := attempt + 1];
        return true;
      }
      if newStatus == REJECTED {
        usage.RevertUsage(i);
      }
      return false;
    }

    /** Milliseconds before the next attempt: from half a minute to one hour. */
    static function GetBackoffDelay(attempt: nat): (delay: nat)
      requires attempt >= 1
      ensures 30000 <= delay <= 3600000
    {
      var delays := [30000, 60000, 120000, 300000, 600000, 1800000, 3600000];
      delays[Min(attempt - 1, |delays| - 1)]
    }
  }

  lemma BackoffGrows(a: nat, b: nat)
    requires 1 <= a < b
    ensures StatusPollProcessor.GetBackoffDelay(a) <= StatusPollProcessor.GetBackoffDelay(b)
    ensures StatusPollProcessor.GetBackoffDelay(a) == StatusPollProcessor.GetBackoffDelay(b) <==> a >= 7
  {}

  /** Milliseconds waited after the first `k` attempts. */
  function Waited(k: nat): nat {
    if k == 0 then 0 else Waited(k - 1) + StatusPollProcessor.GetBackoffDelay(k)
  }

  lemma {:induction false} WaitedAfter(k: nat)
    requires k >= 6
    ensures Waited(k) == 2910000 + (k - 6) * 3600000
  {
    if k > 6 {
      WaitedAfter(k - 1);
    } else {
      assert Waited(3) == 210000;
      assert Waited(6) == 2910000;
    }
  }

  /** The attempts are spread over 14 hours, 48 minutes and 30 seconds. */
  lemma PollingTime()
    ensures Waited(MAX_ATTEMPTS) == ((14 * 60 + 48) * 60 + 30) * 1000
  {
    WaitedAfter(MAX_ATTEMPTS);
  }

  /** The first `k` invoices in ERROR. */
  ghost function InError(invoices: seq<Invoice>, k: nat): set<int>
    requires k <= |invoices|
  {
    set i | 0 <= i < k && invoices[i].status == ERROR
  }

  lemma OneMoreInError(invoices: seq<Invoice>, k: nat)
    requires k < |invoices|
    ensures |InError(invoices, k + 1)| == |InError(invoices, k)| + if invoices[k].status == ERROR then 1 else 0
  {
    var before, after := InError(invoices, k), InError(invoices, k + 1);
    assert forall i :: i in after <==> i in before || (i == k && invoices[k].status == ERROR);
    assert k !in before;
    hide InError;
    if invoices[k].status == ERROR {
      assert after == before + {k};
    } else {
      assert after == before;
    }
  }

  class ContingencyService {
    const db: Tables
    const usage: UsageService.UsageService

    predicate Valid() {
      usage.db == db
    }

    constructor (db: Tables)
      ensures Valid() && this.db == db
    {
      this.db := db;
      usage := new UsageService.UsageService(db);
    }

    method MarkForRetry(i: nat)
      modifies db`invoices
      ensures db.LedgerView() == Pipeline.MarkForRetry(old(db.LedgerView()), i)
    {
      if i < |db.invoices| && db.invoices[i].status == ERROR {
        db.invoices := db.invoices[i := db.invoices[i].(status := CONTINGENCY)];
      }
    }

    method MarkAllForRetry() returns (markedCount: nat)
      modifies db`invoices
      ensures db.LedgerView() == Pipeline.MarkAllForRetry(old(db.LedgerView()))
      ensures markedCount == |InError(old(db.invoices), |old(db.invoices)|)|
    {
      markedCount := 0;
      var i := 0;
      while i < |db.invoices|
        invariant 0 <= i <= |db.invoices| == |old(db.invoices)|
        invariant forall j :: 0 <= j < i ==>
                    db.invoices[j] == if old(db.invoices)[j].status == ERROR then old(db.invoices)[j].(status := CONTINGENCY) else old(db.invoices)[j]
        invariant forall j :: i <= j < |db.invoices| ==> db.invoices[j] == old(db.invoices)[j]
        invariant markedCount == |InError(old(db.invoices), i)|
      {
        if db.invoices[i].status == ERROR {
          db.invoices := db.invoices[i := db.invoices[i].(status := CONTINGENCY)];
          markedCount := markedCount + 1;
        }
        OneMoreInError(old(db.invoices), i);
        i := i + 1;
      }
      assert db.invoices == Pipeline.MarkAllForRetry(old(db.LedgerView())).invoices;
    }

    /** One invoice of the batch. */
    method RetryInvoice(i: nat, w: RetryWorld) returns (outcome: RetryOutcome)
      requires Valid() && i < |db.invoices|
      modifies db`invoices, db`planStatus, db`baseUsed, db`topupUsed, db`topupPurchases, db`polls
      ensures (db.LedgerView(), outcome) == Retry(old(db.LedgerView()), i, w)
    {
      var invoice := db.invoices[i];
      if w.now - invoice.createdAt > CONTINGENCY_LIMIT_MS {
        db.invoices := db.invoices[i := invoice.(status := ERROR)];
        return FailedItem;
      }
      if w.credentials.Died? {
        return Crashed;
      }
      if w.credentials.Failed? {
        db.invoices := db.invoices[i := invoice.(status := ERROR)];
        return FailedItem;
      }
      var newStatus;
      if invoice.trackId.Some? {
        if w.query.QueryFailed? {
          db.invoices := db.invoices[i := invoice.(status := ERROR)];
          return FailedItem;
        }
        newStatus := MapContingencyStatus(w.query.code);
        db.invoices := db.invoices[i := invoice.(status := newStatus)];
      } else {
        if w.sign.Died? && invoice.hasXml {
          return Crashed;
        }
        if !invoice.hasXml || w.sign.Failed? || w.submission.SubmitFailed? {
          db.invoices := db.invoices[i := invoice.(status := ERROR)];
          return FailedItem;
        }
        if w.submission.ResultLost? {
          return Crashed;
        }
        newStatus := MapContingencyStatus(w.submission.code);
        db.invoices := db.invoices[i := invoice.(status := newStatus, trackId := w.submission.trackId)];
      }
      if newStatus == REJECTED {
        usage.RevertUsage(i);
      }
      if newStatus == PROCESSING && i !in db.polls {
        db.polls := db.polls[i := 1];
      }
      return Processed;
    }

    /** The batch loop with its two counters, and how many are left. */
    method ProcessQueue(health: Call, world: nat -> RetryWorld) returns (processed: nat, failed: nat, remaining: nat)
      requires Valid()
      modifies db`invoices, db`planStatus, db`baseUsed, db`topupUsed, db`topupPurchases, db`polls
      ensures db.LedgerView() == Company.ProcessQueue(old(db.LedgerView()), health, world)
      ensures health.Done? ==>
                var b := RunBatch(old(db.LedgerView()), world, |Batch(old(db.invoices))|);
                processed == b.processed && failed == b.failed
      ensures health.Done? ==> remaining == |Contingent(db.invoices)|
      ensures !health.Done? ==> processed == 0 && failed == 0 && remaining == |Batch(old(db.invoices))|
    {
      hide RunBatch, Contingent;
      processed, failed := 0, 0;
      if !health.Done? {
        remaining := |Batch(db.invoices)|;
        return;
      }
      var pending := Batch(db.invoices);
      ghost var before := db.LedgerView();
      var k: nat, alive := 0, true;
      ghost var b := RunBatch(before, world, 0);
      BatchStarts(before, world);
      while k < |pending| && alive
        invariant 0 <= k <= |pending|
        invariant |db.invoices| == |before.invoices|
        invariant b == RunBatch(before, world, k)
        invariant b.ledger == db.LedgerView() && b.processed == processed && b.failed == failed && b.alive == alive
      {
        var outcome := RetryInvoice(pending[k], world(k));
        BatchContinues(before, world, k, db.LedgerView(), outcome);
        if outcome == Processed {
          processed := processed + 1;
        } else if outcome == FailedItem {
          failed := failed + 1;
        } else {
          alive := false;
        }
        k := k + 1;
        b := RunBatch(before, world, k);
      }
      remaining := |Contingent(db.invoices)|;
      DeadBatchStays(before, world, k, |pending|);
    }
  }

  lemma BatchContinues(l: Ledger, world: nat -> RetryWorld, k: nat, after: Ledger, outcome: RetryOutcome)
    requires k < |Batch(l.invoices)| && RunBatch(l, world, k).alive
    requires (after, outcome) == Retry(RunBatch(l, world, k).ledger, Batch(l.invoices)[k], world(k))
    ensures var b := RunBatch(l, world, k);
            RunBatch(l, world, k + 1)
            == BatchRun(after,
                        if outcome == Processed then b.processed + 1 else b.processed,
                        if outcome == FailedItem then b.failed + 1 else b.failed,
                        outcome != Crashed)
  {}

  /** Nothing runs after a crash. */
  lemma {:induction false} DeadBatchStays(l: Ledger, world: nat -> RetryWorld, k: nat, n: nat)
    requires k <= n <= |Batch(l.invoices)| && (k == n || !RunBatch(l, world, k).alive)
    ensures RunBatch(l, world, n) == RunBatch(l, world, k)
    decreases n
  {
    if k < n {
      DeadBatchStays(l, world, k, n - 1);
    }
  }
}
