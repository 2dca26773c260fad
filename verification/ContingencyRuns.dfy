/** Progress of the pipeline: a failed attempt can be recovered, and batches that no
    crash ends drain the contingency list from its head. */
module ContingencyRuns {
  import opened EcfTypes
  import opened Pipeline
  import opened Company
  import opened CompanyInvariant

  // ----- failed attempts -----

  /** The failure that ends an attempt of the processing job, if one does. */
  function Failing(w: ProcessWorld): Option<Failure> {
    if w.sign.Failed? then Some(w.sign.failure)
    else if w.sign.Died? || w.xsd == XsdInvalid then None
    else if w.token.Failed? then Some(w.token.failure)
    else if w.token.Done? && w.submission.SubmitFailed? then Some(w.submission.failure)
    else None
  }

  /** A failed attempt costs the invoice nothing but its status: a network failure
      puts it on the contingency list at once, any other when it is marked for retry. */
  lemma FailedAttemptIsRecoverable(l: Ledger, i: nat, w: ProcessWorld)
    requires Pipeline.Valid(l) && ProcessProceeds(l, i) && Failing(w).Some?
    ensures var after := Process(l, i, w);
            && (i in Contingent(after.invoices) <==> Failing(w) == Some(NetworkFailure))
            && i in Contingent(MarkForRetry(after, i).invoices)
            && after == l.(invoices := l.invoices[i := l.invoices[i].(status := after.invoices[i].status)])
  {
    hide Process, Contingent;
    FailureOnlySetsStatus(l, i, w);
  }

  lemma FailureOnlySetsStatus(l: Ledger, i: nat, w: ProcessWorld)
    requires ProcessProceeds(l, i) && Failing(w).Some?
    ensures Process(l, i, w) == SetStatus(l, i, FailStatus(Failing(w).value))
  {}

  // ----- batches -----

  lemma RetryLeavesContingency(l: Ledger, i: nat, w: RetryWorld)
    requires i < |l.invoices| && Retry(l, i, w).1 != Crashed
    ensures Retry(l, i, w).0.invoices[i].status != CONTINGENCY
  {}

  lemma {:induction false} BatchItemsLeave(l: Ledger, world: nat -> RetryWorld, k: nat)
    requires k <= |Batch(l.invoices)| && RunBatch(l, world, k).alive
    ensures forall m :: 0 <= m < k ==> RunBatch(l, world, k).ledger.invoices[Batch(l.invoices)[m]].status != CONTINGENCY
  {
    hide RunBatch, Retry, Batch;
    BatchIncreases(l.invoices);
    if k > 0 {
      var b, i := RunBatch(l, world, k - 1), Batch(l.invoices)[k - 1];
      RunBatchUnfolds(l, world, k);
      BatchItemsLeave(l, world, k - 1);
      RetryLeavesContingency(b.ledger, i, world(k - 1));
      RetryTouchesOnly(b.ledger, i, world(k - 1));
    }
  }

  lemma BatchIsHead(invoices: seq<Invoice>)
    ensures var n := Min(BATCH_SIZE, |Contingent(invoices)|);
            |Batch(invoices)| == n && Batch(invoices) == Contingent(invoices)[..n]
  {
    hide Contingent;
  }

  lemma HeadIn(s: seq<nat>)
    ensures s == [] || s[0] in s
  {}

  /** Two increasing lists with the same elements are the same. */
  lemma {:induction false} IncreasingEqual(a: seq<nat>, b: seq<nat>)
    requires forall j, k :: 0 <= j < k < |a| ==> a[j] < a[k]
    requires forall j, k :: 0 <= j < k < |b| ==> b[j] < b[k]
    requires forall x :: x in a <==> x in b
    ensures a == b
  {
    HeadIn(a);
    HeadIn(b);
    if a != [] && b != [] {
      assert a[0] in b && b[0] in a;
      assert a[0] == b[0];
      forall x ensures x in a[1..] <==> x in b[1..] {
        assert x in a <==> x == a[0] || x in a[1..];
        assert x in b <==> x == b[0] || x in b[1..];
      }
      IncreasingEqual(a[1..], b[1..]);
    }
  }

  /** A batch that no crash ends takes exactly its items off the head of the list,
      whatever DGII answers, and leaves the rest in order. */
  lemma {:induction false} BatchTakesHead(l: Ledger, world: nat -> RetryWorld)
    requires Pipeline.Valid(l) && RunBatch(l, world, |Batch(l.invoices)|).alive
    ensures Contingent(RunBatch(l, world, |Batch(l.invoices)|).ledger.invoices)
         == Contingent(l.invoices)[Min(BATCH_SIZE, |Contingent(l.invoices)|)..]
  {
    hide RunBatch, Contingent, Batch, RowKept, Pipeline.Valid;
    BatchIsHead(l.invoices);
    var pending, n := Contingent(l.invoices), |Batch(l.invoices)|;
    var after := RunBatch(l, world, n).ledger.invoices;
    BatchItemsLeave(l, world, n);
    RunBatchKeeps(l, world, n);
    assert Batch(l.invoices)[..n] == Batch(l.invoices);
    StillPending(l.invoices, after, n);
    IncreasingEqual(Contingent(after), pending[n..]);
  }

  lemma StillPending(before: seq<Invoice>, after: seq<Invoice>, n: nat)
    requires |before| == |after| && n <= |Contingent(before)|
    requires forall m :: 0 <= m < n ==> after[Contingent(before)[m]].status != CONTINGENCY
    requires forall i :: 0 <= i < |before| && i !in Contingent(before)[..n] ==> after[i] == before[i]
    ensures forall x :: x in Contingent(after) <==> x in Contingent(before)[n..]
  {
    hide Contingent;
    var pending := Contingent(before);
    forall x
      ensures x in Contingent(after) <==> x in pending[n..]
    {
      if x in Contingent(after) {
        assert x !in pending[..n] && x in pending;
      }
      if x in pending[n..] {
        assert x in pending && x !in pending[..n];
      }
    }
  }

  /** Successive batches, with nothing else in between. */
  function Ticks(l: Ledger, worlds: seq<nat -> RetryWorld>): Ledger {
    if worlds == [] then l
    else
      var before := Ticks(l, worlds[..|worlds| - 1]);
      RunBatch(before, worlds[|worlds| - 1], |Batch(before.invoices)|).ledger
  }

  ghost predicate NoCrash(l: Ledger, worlds: seq<nat -> RetryWorld>) {
    worlds != [] ==>
      var before := Ticks(l, worlds[..|worlds| - 1]);
      NoCrash(l, worlds[..|worlds| - 1]) && RunBatch(before, worlds[|worlds| - 1], |Batch(before.invoices)|).alive
  }

  /** After `t` batches without a crash the oldest `10 t` pending invoices are off
      the list, so no invoice waits for ever behind others. */
  lemma {:induction false} TicksDrainTheList(l: Ledger, worlds: seq<nat -> RetryWorld>)
    requires Pipeline.Valid(l) && NoCrash(l, worlds)
    ensures Pipeline.Valid(Ticks(l, worlds))
    ensures Contingent(Ticks(l, worlds).invoices)
         == Contingent(l.invoices)[Min(BATCH_SIZE * |worlds|, |Contingent(l.invoices)|)..]
  {
    hide RunBatch, Contingent, Pipeline.Valid, Batch;
    if worlds != [] {
      var before := Ticks(l, worlds[..|worlds| - 1]);
      TicksDrainTheList(l, worlds[..|worlds| - 1]);
      BatchTakesHead(before, worlds[|worlds| - 1]);
      BatchKeepsValid(before, worlds[|worlds| - 1]);
    }
  }

  lemma BatchKeepsValid(l: Ledger, world: nat -> RetryWorld)
    requires Pipeline.Valid(l)
    ensures Pipeline.Valid(RunBatch(l, world, |Batch(l.invoices)|).ledger)
  {
    RunBatchKeeps(l, world, |Batch(l.invoices)|);
  }

  /** An invoice whose attempt failed and that is marked for retry has a place on the
      list, and is off it after as many batches as the place calls for, whatever they
      are answered. */
  lemma {:induction false} FailedInvoiceIsServed(l: Ledger, i: nat, w: ProcessWorld, worlds: seq<nat -> RetryWorld>)
    requires Pipeline.Valid(l) && ProcessProceeds(l, i) && Failing(w).Some?
    requires NoCrash(MarkForRetry(Process(l, i, w), i), worlds)
    ensures var marked := MarkForRetry(Process(l, i, w), i);
            exists p :: 0 <= p < |Contingent(marked.invoices)| && Contingent(marked.invoices)[p] == i
              && (p < BATCH_SIZE * |worlds| ==> i !in Contingent(Ticks(marked, worlds).invoices))
  {
    hide Process, MarkForRetry, Contingent, Ticks, NoCrash;
    var marked := MarkForRetry(Process(l, i, w), i);
    FailedAttemptIsRecoverable(l, i, w);
    ProcessKeeps(l, i, w);
    MarkForRetryKeeps(Process(l, i, w), i);
    TicksDrainTheList(marked, worlds);
    var p :| 0 <= p < |Contingent(marked.invoices)| && Contingent(marked.invoices)[p] == i;
  }
}
