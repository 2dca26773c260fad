/** When jobs and requests call DGII, and what they leave when no answer comes. Every
    status, limit and time is spelled out here. */
module JobOutcomes {
  import opened EcfTypes
  import opened Pipeline
  import Usage
  import PipelineRuns
  import opened Company
  import opened CompanyInvariant
  import opened ContingencyRuns
  import opened VerdictRuns
  import opened AnswerRuns

  // ----- processing job -----

  /** The invoice that a note names is ACCEPTED. */
  ghost predicate ReferenceAccepted(invoices: seq<Invoice>, inv: Invoice) {
    inv.referenceEncf.Some? ==>
      exists j :: 0 <= j < |invoices| && invoices[j].encf == inv.referenceEncf.value && invoices[j].status == ACCEPTED
  }

  lemma GateOpenIff(invoices: seq<Invoice>, inv: Invoice)
    requires forall i, j :: 0 <= i < j < |invoices| ==> invoices[i].encf != invoices[j].encf
    ensures GateOpen(invoices, inv) <==> ReferenceAccepted(invoices, inv)
  {}

  /** The invoice is ready to be signed and submitted: it has a document, is neither
      accepted nor voided, was not submitted before, and its reference is accepted. */
  ghost predicate Ready(l: Ledger, i: nat) {
    && i < |l.invoices| && l.invoices[i].hasXml
    && l.invoices[i].status != ACCEPTED && l.invoices[i].status != VOIDED
    && l.invoices[i].trackId == None
    && ReferenceAccepted(l.invoices, l.invoices[i])
  }

  lemma ReadyIff(s: State, i: nat)
    requires AllocValid(s)
    ensures ProcessProceeds(s.ledger, i) <==> Ready(s.ledger, i)
  {
    if i < |s.ledger.invoices| {
      GateOpenIff(s.ledger.invoices, s.ledger.invoices[i]);
    }
  }

  /** A job submits exactly a ready invoice that was signed, not found invalid, and for
      which DGII gave a token. */
  lemma JobSubmitsIff(s: State, i: nat, w: ProcessWorld)
    requires AllocValid(s)
    ensures ProcessSubmits(s.ledger, i, w) <==> Ready(s.ledger, i) && w.sign == Done && w.xsd != XsdInvalid && w.token == Done
  {
    ReadyIff(s, i);
  }

  /** A job of an invoice that is not ready changes no invoice and no meter. */
  lemma UnreadyJobWritesNothing(s: State, i: nat, w: ProcessWorld)
    requires AllocValid(s) && !Ready(s.ledger, i)
    ensures Process(s.ledger, i, w).invoices == s.ledger.invoices && Process(s.ledger, i, w).meter == s.ledger.meter
  {
    ReadyIff(s, i);
  }

  /** The first call of a ready job that fails, with its failure. */
  predicate FailsWith(w: ProcessWorld, f: Failure) {
    || w.sign == Failed(f)
    || (w.sign == Done && w.xsd != XsdInvalid && w.token == Failed(f))
    || (w.sign == Done && w.xsd != XsdInvalid && w.token == Done && w.submission == SubmitFailed(f))
  }

  /** A ready job that gets no answer writes a status and nothing else: CONTINGENCY after
      a network failure, ERROR after another or an invalid document, PROCESSING when the
      worker died after signing, and none when it died before. */
  lemma JobWithoutAnswer(s: State, i: nat, w: ProcessWorld)
    requires AllocValid(s) && Ready(s.ledger, i) && !(ProcessSubmits(s.ledger, i, w) && w.submission.Received?)
    ensures var status := if FailsWith(w, NetworkFailure) then CONTINGENCY
                          else if FailsWith(w, OtherFailure) || (w.sign == Done && w.xsd == XsdInvalid) then ERROR
                          else if w.sign == Died then s.ledger.invoices[i].status
                          else PROCESSING;
            Process(s.ledger, i, w)
            == s.ledger.(invoices := s.ledger.invoices[i := s.ledger.invoices[i].(status := status)])
  {
    ReadyIff(s, i);
  }

  // ----- status-poll job -----

  /** A poll asks exactly with a track id, before the verdict, up to its 20th attempt. */
  lemma PollAsksIff(l: Ledger, i: nat)
    ensures PollAsks(l, i)
            <==> && i in l.polls && l.polls[i] <= 20 && i < |l.invoices| && l.invoices[i].trackId.Some?
                 && l.invoices[i].status != ACCEPTED && l.invoices[i].status != REJECTED && l.invoices[i].status != VOIDED
  {}

  /** It stays queued exactly when a track id was just recovered, the network failed, or
      the answer was no verdict; only asking uses up an attempt. */
  lemma PollStaysIff(l: Ledger, i: nat, w: PollWorld)
    requires Pipeline.Valid(l) && i in l.polls
    ensures var inv, after := l.invoices[i], Poll(l, i, w).polls;
            && (i in after
                <==> || (PollAsks(l, i) && (w.query == QueryFailed(NetworkFailure) || (w.query.Answered? && Undecided(w.query.code))))
                     || (inv.status != ACCEPTED && inv.status != REJECTED && inv.status != VOIDED
                           && inv.trackId == None && w.recovered.Some?))
            && (i in after ==> after[i] == if inv.trackId.Some? then l.polls[i] + 1 else l.polls[i])
    ensures Poll(l, i, w).polls - {i} == l.polls - {i}
  {}

  /** Without an answer a poll takes nothing back: a network failure leaves the row as it
      is; another failure turns PROCESSING and SENT into ERROR; a lost track id is put
      back when DGII knows it; and the row ends in ERROR when it does not, or after the
      20th attempt. */
  lemma PollWithoutAnswer(l: Ledger, i: nat, w: PollWorld)
    requires Pipeline.Valid(l) && i in l.polls && !(PollAsks(l, i) && w.query.Answered?)
    ensures var inv := l.invoices[i];
            var ended := inv.status == ACCEPTED || inv.status == REJECTED || inv.status == VOIDED;
            var gaveUp := !ended && (if inv.trackId == None then w.recovered == None else l.polls[i] > 20);
            var failed := PollAsks(l, i) && w.query == QueryFailed(OtherFailure) && (inv.status == PROCESSING || inv.status == SENT);
            && Poll(l, i, w).meter == l.meter
            && Poll(l, i, w).invoices
               == l.invoices[i := inv.(status := if gaveUp || failed then ERROR else inv.status,
                                       trackId := if !ended && inv.trackId == None then w.recovered else inv.trackId)]
  {}

  // ----- requests -----

  /** A manual poll that cannot ask, or is not answered, changes nothing. */
  lemma ManualPollWithoutAnswer(l: Ledger, i: nat, query: Query)
    requires i < |l.invoices| ==> l.invoices[i].trackId == None || query.QueryFailed?
    ensures PollStatus(l, i, query) == l
  {}

  /** A void request is carried out exactly on a draft, failed, pending or rejected
      invoice, so never on one that is queued, in process, sent or accepted; the unit of
      one that was submitted for is given back once. */
  lemma VoidOutcome(l: Ledger, i: nat)
    requires Pipeline.Valid(l) && i < |l.invoices|
    ensures var inv, after := l.invoices[i], Void(l, i);
            if inv.status in {DRAFT, ERROR, CONTINGENCY, REJECTED} then
              && after.invoices == l.invoices[i := inv.(status := VOIDED, usageReverted := inv.usageReverted || inv.status != DRAFT)]
              && after.meter.Used() == l.meter.Used() - (if inv.usageReverted || inv.status == DRAFT then 0 else 1)
              && after.polls == l.polls
            else after == l
  {
    var inv := l.invoices[i];
    if inv.status in {ERROR, CONTINGENCY, REJECTED} && !inv.usageReverted {
      SomeOutstanding(l.invoices, i);
      Usage.RefundKeepsValid(l.meter);
    }
  }

  /** Marking for retry moves exactly ERROR to CONTINGENCY, one by one or all at once. */
  lemma MarkingOutcome(l: Ledger, i: nat)
    ensures MarkForRetry(l, i)
         == if i < |l.invoices| && l.invoices[i].status == ERROR
            then l.(invoices := l.invoices[i := l.invoices[i].(status := CONTINGENCY)]) else l
    ensures var after := MarkAllForRetry(l);
            && after.meter == l.meter && after.polls == l.polls && |after.invoices| == |l.invoices|
            && forall j :: 0 <= j < |l.invoices| ==>
                 after.invoices[j] == MarkForRetry(l, j).invoices[j]
  {}

  // ----- contingency batch -----

  /** An item is asked about or submitted exactly within 72 hours of its creation, with
      credentials, and for a submission with a document that could be signed. */
  lemma ItemHearsIff(l: Ledger, i: nat, w: RetryWorld, code: int)
    requires i < |l.invoices|
    ensures RetryHears(l, i, w, code)
            <==> && w.now - l.invoices[i].createdAt <= 259200000 && w.credentials == Done
                 && if l.invoices[i].trackId.Some? then w.query == Answered(code)
                    else l.invoices[i].hasXml && w.sign == Done && w.submission.Received? && w.submission.code == code
  {}

  /** The worker died on this item before anything was recorded. */
  predicate DiesOn(l: Ledger, i: nat, w: RetryWorld)
    requires i < |l.invoices|
  {
    && w.now - l.invoices[i].createdAt <= 259200000
    && (|| w.credentials == Died
        || (w.credentials == Done && l.invoices[i].trackId == None && l.invoices[i].hasXml
              && (w.sign == Died || (w.sign == Done && w.submission == ResultLost))))
  }

  /** Without an answer an item ends in ERROR and counts as failed, unless the worker
      died on it; nothing else changes. */
  lemma ItemWithoutAnswer(l: Ledger, i: nat, w: RetryWorld)
    requires i < |l.invoices| && !exists code :: RetryHears(l, i, w, code)
    ensures Retry(l, i, w)
         == if DiesOn(l, i, w) then (l, Crashed)
            else (l.(invoices := l.invoices[i := l.invoices[i].(status := ERROR)]), FailedItem)
  {
    var code := if l.invoices[i].trackId.Some? then (if w.query.Answered? then w.query.code else 0)
                else if w.submission.Received? then w.submission.code else 0;
    assert !RetryHears(l, i, w, code);
  }

  /** The batch is the ten oldest invoices in CONTINGENCY. */
  lemma BatchIsTenOldest(invoices: seq<Invoice>)
    ensures |Batch(invoices)| <= 10
    ensures forall k :: 0 <= k < |Batch(invoices)| ==> Batch(invoices)[k] < |invoices| && invoices[Batch(invoices)[k]].status == CONTINGENCY
    ensures forall j, k :: 0 <= j < k < |Batch(invoices)| ==> Batch(invoices)[j] < Batch(invoices)[k]
    ensures forall i :: 0 <= i < |invoices| && invoices[i].status == CONTINGENCY && i !in Batch(invoices)
              ==> |Batch(invoices)| == 10 && forall k :: 0 <= k < 10 ==> Batch(invoices)[k] < i
  {
    hide Contingent, Batch;
    BatchIsHead(invoices);
    var all, n := Contingent(invoices), |Batch(invoices)|;
    forall i | 0 <= i < |invoices| && invoices[i].status == CONTINGENCY && i !in Batch(invoices)
      ensures n == 10 && forall k :: 0 <= k < 10 ==> Batch(invoices)[k] < i
    {
      var p :| 0 <= p < |all| && all[p] == i;
      InHead(all, n, p);
    }
  }

  lemma InHead(s: seq<nat>, n: nat, p: nat)
    requires n <= |s| && p < |s|
    ensures p < n ==> s[p] in s[..n]
  {
    if p < n {
      assert s[..n][p] == s[p];
    }
  }

  /** What an item is after the whole batch is what its own turn made of it. */
  lemma ItemOutcome(l: Ledger, world: nat -> RetryWorld, k: nat)
    requires Pipeline.Valid(l) && k < |Batch(l.invoices)| && RunBatch(l, world, k).alive
    ensures var i := Batch(l.invoices)[k];
            && i < |l.invoices| == |RunBatch(l, world, k).ledger.invoices|
            && RunBatch(l, world, k).ledger.invoices[i] == l.invoices[i]
            && RunBatch(l, world, |Batch(l.invoices)|).ledger.invoices[i]
               == Retry(RunBatch(l, world, k).ledger, i, world(k)).0.invoices[i]
  {
    hide RunBatch, Retry, Batch;
    RunBatchKeeps(l, world, k);
    BatchIncreases(l.invoices);
    RunBatchUnfolds(l, world, k + 1);
    ItemStands(l, world, k, |Batch(l.invoices)|);
  }

  // ----- who touches what -----

  /** The event is about this invoice. */
  ghost predicate About(l: Ledger, e: Event, j: nat) {
    match e
    case ProcessJob(i, _) => i == j
    case PollJob(i, _) => i == j
    case ManualPoll(i, _) => i == j
    case VoidInvoice(i) => i == j
    case RetryOne(i) => i == j
    case RetryAll => j < |l.invoices| && l.invoices[j].status == ERROR
    case ContingencyTick(health, _) => health == Done && j in Batch(l.invoices)
    case _ => false
  }

  /** An event changes no invoice that it is not about. */
  lemma OthersUntouched(s: State, e: Event, j: nat)
    requires Company.Valid(s) && j < |s.ledger.invoices| && !About(s.ledger, e, j)
    ensures j < |Step(s, e).ledger.invoices| && Step(s, e).ledger.invoices[j] == s.ledger.invoices[j]
  {
    hide Process, Poll, Emit, RunBatch, ProcessQueue, Company.Valid, Settle, RequestAnnulment;
    match e {
      case ProcessJob(i, w) => JobLeaves(s.ledger, i, w, j);
      case PollJob(i, w) => PollLeaves(s.ledger, i, w, j);
      case ContingencyTick(health, world) => BatchLeaves(s, health, world, j);
      case EmitInvoice(q) => PipelineRuns.EmitAppends(s, q);
      case AskAnnulment(id, texts) => AnnulmentLeaves(s, e);
      case SettleAnnulment(id, v) => AnnulmentLeaves(s, e);
      case _ =>
    }
  }

  lemma AnnulmentLeaves(s: State, e: Event)
    requires e.AskAnnulment? || e.SettleAnnulment?
    ensures Step(s, e).ledger == s.ledger
  {}

  lemma BatchLeaves(s: State, health: Call, world: nat -> RetryWorld, j: nat)
    requires Company.Valid(s) && j < |s.ledger.invoices| && !(health == Done && j in Batch(s.ledger.invoices))
    ensures var after := ProcessQueue(s.ledger, health, world).invoices;
            j < |after| && after[j] == s.ledger.invoices[j]
  {
    hide RunBatch, Batch;
    RunBatchKeeps(s.ledger, world, |Batch(s.ledger.invoices)|);
    assert Batch(s.ledger.invoices)[..|Batch(s.ledger.invoices)|] == Batch(s.ledger.invoices);
  }

  lemma JobLeaves(l: Ledger, i: nat, w: ProcessWorld, j: nat)
    requires j < |l.invoices| && i != j
    ensures j < |Process(l, i, w).invoices| && Process(l, i, w).invoices[j] == l.invoices[j]
  {}

  lemma PollLeaves(l: Ledger, i: nat, w: PollWorld, j: nat)
    requires j < |l.invoices| && i != j
    ensures j < |Poll(l, i, w).invoices| && Poll(l, i, w).invoices[j] == l.invoices[j]
  {}
}
