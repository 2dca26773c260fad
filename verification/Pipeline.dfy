/** The asynchronous invoice pipeline on values: what each job or request does
    to the invoice rows, the quota meter and the status-poll queue, for every
    answer the tax authority (DGII) or the infrastructure may give. */
module Pipeline {
  import opened EcfTypes
  import opened Usage

  const MAX_ATTEMPTS := 20
  const CONTINGENCY_LIMIT_MS := 72 * 60 * 60 * 1000
  const BATCH_SIZE := 10

  /** Invoice rows, the meter of the cycle, and the pending status-poll jobs
      (invoice index to attempt number). */
  datatype Ledger = Ledger(invoices: seq<Invoice>, meter: Meter, polls: map<nat, nat>)

  // ----- answers of the outside world -----

  datatype Failure = NetworkFailure | OtherFailure

  /** Outcome of a call that is not the submission itself; the process may die in it. */
  datatype Call = Done | Failed(failure: Failure) | Died

  datatype Query = Answered(code: int) | QueryFailed(failure: Failure)

  /** Outcome of a submission call. The process may die after the call started,
      before anything is recorded. */
  datatype Submission =
    | Received(code: int, trackId: Option<string>)
    | SubmitFailed(failure: Failure)
    | ResultLost

  datatype Xsd = XsdUnavailable | XsdValid | XsdInvalid

  function MapDgiiStatus(code: int): InvoiceStatus {
    if code == 1 then ACCEPTED
    else if code == 2 then REJECTED
    else if code == 3 then PROCESSING
    else if code == 4 then CONDITIONAL
    else SENT
  }

  function MapContingencyStatus(code: int): InvoiceStatus {
    if code == 1 then ACCEPTED
    else if code == 2 then REJECTED
    else if code == 4 then CONDITIONAL
    else PROCESSING
  }

  // ----- shared writes -----

  function SetStatus(l: Ledger, i: nat, s: InvoiceStatus): Ledger
    requires i < |l.invoices|
  {
    l.(invoices := l.invoices[i := l.invoices[i].(status := s)])
  }

  /** Status and track id go in one update. */
  function Record(l: Ledger, i: nat, s: InvoiceStatus, trackId: Option<string>): Ledger
    requires i < |l.invoices|
  {
    l.(invoices := l.invoices[i := l.invoices[i].(status := s, trackId := trackId)])
  }

  /** Claim-once refund. */
  function RevertUsage(l: Ledger, i: nat): Ledger
    requires i < |l.invoices|
  {
    if l.invoices[i].usageReverted then l
    else l.(invoices := l.invoices[i := l.invoices[i].(usageReverted := true)], meter := Refund(l.meter))
  }

  function RefundIfRejected(l: Ledger, i: nat, s: InvoiceStatus): Ledger
    requires i < |l.invoices|
  {
    if s == REJECTED then RevertUsage(l, i) else l
  }

  /** Job ids are unique per invoice: a job that is still queued absorbs the new one. */
  function EnqueuePoll(l: Ledger, i: nat): Ledger {
    if i in l.polls then l else l.(polls := l.polls[i := 1])
  }

  // ----- processing job -----

  datatype ProcessWorld = ProcessWorld(sign: Call, xsd: Xsd, token: Call, submission: Submission)

  function FindByEncf(invoices: seq<Invoice>, encf: string): (r: Option<nat>)
    ensures r.Some? ==> r.value < |invoices| && invoices[r.value].encf == encf
    ensures r.None? ==> forall j :: 0 <= j < |invoices| ==> invoices[j].encf != encf
  {
    if invoices == [] then None
    else
      match FindByEncf(invoices[..|invoices| - 1], encf)
      case Some(j) => Some(j)
      case None => if invoices[|invoices| - 1].encf == encf then Some(|invoices| - 1) else None
  }

  /** The reference gate: a note goes on only when the row it modifies is ACCEPTED. */
  predicate GateOpen(invoices: seq<Invoice>, inv: Invoice) {
    inv.referenceEncf.Some? ==>
      match FindByEncf(invoices, inv.referenceEncf.value)
      case None => false
      case Some(j) => invoices[j].status == ACCEPTED
  }

  /** The job goes past every early exit and starts signing. */
  predicate ProcessProceeds(l: Ledger, i: nat) {
    && i < |l.invoices|
    && l.invoices[i].hasXml
    && l.invoices[i].status != ACCEPTED && l.invoices[i].status != VOIDED
    && l.invoices[i].trackId.None?
    && GateOpen(l.invoices, l.invoices[i])
  }

  function FailStatus(f: Failure): InvoiceStatus {
    if f == NetworkFailure then CONTINGENCY else ERROR
  }

  predicate ProcessSubmits(l: Ledger, i: nat, w: ProcessWorld) {
    ProcessProceeds(l, i) && w.sign.Done? && w.xsd != XsdInvalid && w.token.Done?
  }

  function Process(l: Ledger, i: nat, w: ProcessWorld): Ledger {
    if !ProcessProceeds(l, i) then
      if i < |l.invoices| && l.invoices[i].hasXml && l.invoices[i].trackId.Some?
         && l.invoices[i].status != ACCEPTED && l.invoices[i].status != VOIDED
      then EnqueuePoll(l, i) else l
    else if w.sign.Failed? then SetStatus(l, i, FailStatus(w.sign.failure))
    else if w.sign.Died? then l
    else if w.xsd == XsdInvalid then SetStatus(l, i, ERROR)
    else if w.token.Failed? then SetStatus(l, i, FailStatus(w.token.failure))
    else if w.token.Died? then SetStatus(l, i, PROCESSING)
    else
      match w.submission
      case SubmitFailed(f) => SetStatus(l, i, FailStatus(f))
      case ResultLost => SetStatus(l, i, PROCESSING)
      case Received(code, trackId) =>
        var s := MapDgiiStatus(code);
        var recorded := RefundIfRejected(Record(l, i, s, trackId), i, s);
        if (s == PROCESSING || s == SENT) && !(l.invoices[i].isRfce && trackId.None?)
        then EnqueuePoll(recorded, i) else recorded
  }

  // ----- status-poll job -----

  datatype PollWorld = PollWorld(recovered: Option<string>, query: Query)

  predicate PollEnds(s: InvoiceStatus) {
    s == ACCEPTED || s == REJECTED || s == VOIDED
  }

  predicate PollFinal(s: InvoiceStatus) {
    s == ACCEPTED || s == REJECTED || s == CONDITIONAL
  }

  function CompletePoll(l: Ledger, i: nat): Ledger {
    l.(polls := l.polls - {i})
  }

  function DelayPoll(l: Ledger, i: nat, attempt: nat): Ledger {
    l.(polls := l.polls[i := attempt])
  }

  /** One execution of a queued poll job; a job that is not completed stays
      queued with the attempt it will run next. */
  function Poll(l: Ledger, i: nat, w: PollWorld): Ledger {
    if i !in l.polls then l
    else if i >= |l.invoices| then CompletePoll(l, i)
    else
      var inv := l.invoices[i];
      var attempt := l.polls[i];
      if PollEnds(inv.status) then CompletePoll(l, i)
      else if inv.trackId.None? then
        if w.recovered.Some? then Record(l, i, inv.status, w.recovered)
        else CompletePoll(SetStatus(l, i, ERROR), i)
      else if attempt > MAX_ATTEMPTS then CompletePoll(SetStatus(l, i, ERROR), i)
      else
        match w.query
        case QueryFailed(NetworkFailure) => DelayPoll(l, i, attempt + 1)
        case QueryFailed(OtherFailure) =>
          CompletePoll(if inv.status == PROCESSING || inv.status == SENT then SetStatus(l, i, ERROR) else l, i)
        case Answered(code) =>
          var s := MapDgiiStatus(code);
          var recorded := SetStatus(l, i, s);
          if PollFinal(s) then CompletePoll(RefundIfRejected(recorded, i, s), i)
          else DelayPoll(recorded, i, attempt + 1)
  }

  // ----- requests -----

  function PollStatus(l: Ledger, i: nat, query: Query): Ledger {
    if i >= |l.invoices| || l.invoices[i].trackId.None? || query.QueryFailed? then l
    else
      var s := MapDgiiStatus(query.code);
      if s == l.invoices[i].status then l else RefundIfRejected(SetStatus(l, i, s), i, s)
  }

  predicate Voidable(s: InvoiceStatus) {
    s == DRAFT || s == ERROR || s == CONTINGENCY || s == REJECTED
  }

  function Void(l: Ledger, i: nat): Ledger {
    if i >= |l.invoices| || !Voidable(l.invoices[i].status) then l
    else
      var voided := SetStatus(l, i, VOIDED);
      if l.invoices[i].status == DRAFT then voided else RevertUsage(voided, i)
  }

  function MarkForRetry(l: Ledger, i: nat): Ledger {
    if i < |l.invoices| && l.invoices[i].status == ERROR then SetStatus(l, i, CONTINGENCY) else l
  }

  function MarkAllForRetry(l: Ledger): Ledger {
    l.(invoices := seq(|l.invoices|, i requires 0 <= i < |l.invoices| =>
      if l.invoices[i].status == ERROR then l.invoices[i].(status := CONTINGENCY) else l.invoices[i]))
  }

  // ----- contingency batch -----

  datatype RetryWorld = RetryWorld(now: int, credentials: Call, query: Query, sign: Call, submission: Submission)

  datatype RetryOutcome = Processed | FailedItem | Crashed

  predicate RetrySubmits(l: Ledger, i: nat, w: RetryWorld) {
    && i < |l.invoices|
    && w.now - l.invoices[i].createdAt <= CONTINGENCY_LIMIT_MS
    && w.credentials.Done?
    && l.invoices[i].trackId.None?
    && l.invoices[i].hasXml
    && w.sign.Done?
  }

  /** One invoice of the batch. */
  function Retry(l: Ledger, i: nat, w: RetryWorld): (r: (Ledger, RetryOutcome))
    requires i < |l.invoices|
    ensures |r.0.invoices| == |l.invoices|
  {
    var inv := l.invoices[i];
    if w.now - inv.createdAt > CONTINGENCY_LIMIT_MS then (SetStatus(l, i, ERROR), FailedItem)
    else if w.credentials.Died? then (l, Crashed)
    else if w.credentials.Failed? then (SetStatus(l, i, ERROR), FailedItem)
    else if inv.trackId.Some? then
      match w.query
      case QueryFailed(_) => (SetStatus(l, i, ERROR), FailedItem)
      case Answered(code) =>
        var s := MapContingencyStatus(code);
        var recorded := RefundIfRejected(SetStatus(l, i, s), i, s);
        (if s == PROCESSING then EnqueuePoll(recorded, i) else recorded, Processed)
    else if !inv.hasXml then (SetStatus(l, i, ERROR), FailedItem)
    else if w.sign.Died? then (l, Crashed)
    else if w.sign.Failed? then (SetStatus(l, i, ERROR), FailedItem)
    else
      match w.submission
      case SubmitFailed(_) => (SetStatus(l, i, ERROR), FailedItem)
      case ResultLost => (l, Crashed)
      case Received(code, trackId) =>
        var s := MapContingencyStatus(code);
        var recorded := RefundIfRejected(Record(l, i, s, trackId), i, s);
        (if s == PROCESSING then EnqueuePoll(recorded, i) else recorded, Processed)
  }

  // ----- what every step keeps -----

  /** Identity columns never change, a track id that is set stays, QUEUED is left
      for good, and a refund happens once and only on a never-valid outcome. */
  ghost predicate RowKept(before: Invoice, after: Invoice) {
    && after == before.(status := after.status, trackId := after.trackId, usageReverted := after.usageReverted)
    && (before.trackId.Some? ==> after.trackId == before.trackId)
    && (before.status != QUEUED ==> after.status != QUEUED)
    && (before.usageReverted ==> after.usageReverted)
    && (after.usageReverted && !before.usageReverted ==> NeverValid(after.status))
  }

  /** Invoices whose quota is still reserved. */
  function Outstanding(invoices: seq<Invoice>): nat {
    if invoices == [] then 0
    else Outstanding(invoices[..|invoices| - 1]) + if invoices[|invoices| - 1].usageReverted then 0 else 1
  }

  predicate NeverValid(s: InvoiceStatus) {
    s == REJECTED || s == VOIDED
  }

  ghost predicate RowValid(inv: Invoice) {
    && inv.status != DRAFT
    && (NeverValid(inv.status) ==> inv.usageReverted)
    && (inv.trackId.Some? ==> inv.status != QUEUED)
  }

  ghost predicate PollsValid(invoices: seq<Invoice>, polls: map<nat, nat>) {
    forall i :: i in polls ==> i < |invoices| && invoices[i].status != QUEUED && 1 <= polls[i] <= MAX_ATTEMPTS + 1
  }

  ghost predicate Valid(l: Ledger) {
    && Usage.Valid(l.meter) && l.meter.status != EXPIRED
    && l.meter.Used() == Outstanding(l.invoices)
    && (forall i :: 0 <= i < |l.invoices| ==> RowValid(l.invoices[i]))
    && PollsValid(l.invoices, l.polls)
  }

  /** What one atomic step of the pipeline may do to a ledger. */
  ghost predicate Kept(before: Ledger, after: Ledger) {
    && Valid(after)
    && |before.invoices| == |after.invoices|
    && (forall i :: 0 <= i < |before.invoices| ==> RowKept(before.invoices[i], after.invoices[i]))
  }

  lemma {:induction false} OutstandingUpdate(invoices: seq<Invoice>, i: nat, inv: Invoice)
    requires i < |invoices|
    ensures Outstanding(invoices[i := inv])
            == Outstanding(invoices) - (if invoices[i].usageReverted then 0 else 1) + (if inv.usageReverted then 0 else 1)
  {
    var last := |invoices| - 1;
    var after := invoices[i := inv];
    if i == last {
      assert after[..last] == invoices[..last];
    } else {
      assert after[..last] == invoices[..last][i := inv];
      OutstandingUpdate(invoices[..last], i, inv);
    }
  }

  lemma {:induction false} OutstandingSame(a: seq<Invoice>, b: seq<Invoice>)
    requires |a| == |b| && forall i :: 0 <= i < |a| ==> a[i].usageReverted == b[i].usageReverted
    ensures Outstanding(a) == Outstanding(b)
  {
    if a != [] {
      OutstandingSame(a[..|a| - 1], b[..|b| - 1]);
    }
  }

  lemma {:induction false} SomeOutstanding(invoices: seq<Invoice>, i: nat)
    requires i < |invoices| && !invoices[i].usageReverted
    ensures Outstanding(invoices) > 0
  {
    if i < |invoices| - 1 {
      SomeOutstanding(invoices[..|invoices| - 1], i);
    }
  }

  /** Replacing one row, with its refund when the flag goes up. */
  lemma ReplaceKeeps(l: Ledger, i: nat, row: Invoice)
    requires Valid(l) && i < |l.invoices|
    requires RowValid(row) && RowKept(l.invoices[i], row) && (row.status != QUEUED || i !in l.polls)
    ensures Kept(l, l.(invoices := l.invoices[i := row],
                       meter := if row.usageReverted && !l.invoices[i].usageReverted then Refund(l.meter) else l.meter))
  {
    OutstandingUpdate(l.invoices, i, row);
    if row.usageReverted && !l.invoices[i].usageReverted {
      SomeOutstanding(l.invoices, i);
      RefundKeepsValid(l.meter);
    }
  }

  /** The row write every job is made of: a new status, possibly a first track
      id, then the refund when DGII rejected. */
  lemma RecordKeeps(l: Ledger, i: nat, s: InvoiceStatus, trackId: Option<string>)
    requires Valid(l) && i < |l.invoices|
    requires s != QUEUED && s != DRAFT && s != VOIDED
    requires l.invoices[i].trackId.Some? ==> trackId == l.invoices[i].trackId
    ensures Kept(l, RefundIfRejected(Record(l, i, s, trackId), i, s))
    ensures RefundIfRejected(Record(l, i, s, trackId), i, s).invoices[i].status == s
  {
    var row := l.invoices[i].(status := s, trackId := trackId);
    var after := RefundIfRejected(Record(l, i, s, trackId), i, s);
    if s == REJECTED && !row.usageReverted {
      ReplaceKeeps(l, i, row.(usageReverted := true));
      assert after.invoices == l.invoices[i := row.(usageReverted := true)];
    } else {
      ReplaceKeeps(l, i, row);
    }
  }

  lemma StatusKeeps(l: Ledger, i: nat, s: InvoiceStatus)
    requires Valid(l) && i < |l.invoices|
    requires s != QUEUED && s != DRAFT && s != VOIDED
    ensures Kept(l, RefundIfRejected(SetStatus(l, i, s), i, s))
    ensures RefundIfRejected(SetStatus(l, i, s), i, s).invoices[i].status == s
  {
    RecordKeeps(l, i, s, l.invoices[i].trackId);
    assert Record(l, i, s, l.invoices[i].trackId) == SetStatus(l, i, s);
  }

  lemma QueueKeeps(before: Ledger, l: Ledger, i: nat, attempt: nat)
    requires Kept(before, l) && i < |l.invoices| && l.invoices[i].status != QUEUED
    requires 1 <= attempt <= MAX_ATTEMPTS + 1
    ensures Kept(before, EnqueuePoll(l, i)) && Kept(before, DelayPoll(l, i, attempt)) && Kept(before, CompletePoll(l, i))
  {}

  lemma NothingKeeps(l: Ledger)
    requires Valid(l)
    ensures Kept(l, l)
  {}

  lemma RecordAndQueueKeeps(l: Ledger, i: nat, s: InvoiceStatus, trackId: Option<string>)
    requires Valid(l) && i < |l.invoices|
    requires s != QUEUED && s != DRAFT && s != VOIDED
    requires l.invoices[i].trackId.Some? ==> trackId == l.invoices[i].trackId
    ensures var after := RefundIfRejected(Record(l, i, s, trackId), i, s);
            Kept(l, after) && Kept(l, EnqueuePoll(after, i))
  {
    RecordKeeps(l, i, s, trackId);
    QueueKeeps(l, RefundIfRejected(Record(l, i, s, trackId), i, s), i, 1);
  }

  lemma StatusAndQueueKeeps(l: Ledger, i: nat, s: InvoiceStatus, attempt: nat)
    requires Valid(l) && i < |l.invoices|
    requires s != QUEUED && s != DRAFT && s != VOIDED
    requires 1 <= attempt <= MAX_ATTEMPTS + 1
    ensures var after := RefundIfRejected(SetStatus(l, i, s), i, s);
            Kept(l, after) && Kept(l, EnqueuePoll(after, i)) && Kept(l, DelayPoll(after, i, attempt)) && Kept(l, CompletePoll(after, i))
  {
    StatusKeeps(l, i, s);
    QueueKeeps(l, RefundIfRejected(SetStatus(l, i, s), i, s), i, attempt);
  }

  lemma ProcessKeeps(l: Ledger, i: nat, w: ProcessWorld)
    requires Valid(l)
    ensures Kept(l, Process(l, i, w))
  {
    if !ProcessProceeds(l, i) {
      if i < |l.invoices| && l.invoices[i].trackId.Some? {
        QueueKeeps(l, l, i, 1);
      }
    } else if ProcessSubmits(l, i, w) && w.submission.Received? {
      RecordAndQueueKeeps(l, i, MapDgiiStatus(w.submission.code), w.submission.trackId);
    } else if !w.sign.Died? {
      var s := if w.sign.Failed? then FailStatus(w.sign.failure)
               else if w.xsd == XsdInvalid then ERROR
               else if w.token.Failed? then FailStatus(w.token.failure)
               else if w.token.Done? && w.submission.SubmitFailed? then FailStatus(w.submission.failure)
               else PROCESSING;
      assert Process(l, i, w) == RefundIfRejected(SetStatus(l, i, s), i, s);
      StatusKeeps(l, i, s);
    }
  }

  lemma UnaskedPollKeeps(l: Ledger, i: nat, w: PollWorld)
    requires Valid(l) && i in l.polls
    requires PollEnds(l.invoices[i].status) || l.invoices[i].trackId.None? || l.polls[i] > MAX_ATTEMPTS
    ensures Kept(l, Poll(l, i, w))
  {
    hide Kept;
    NothingKeeps(l);
    var inv, attempt := l.invoices[i], l.polls[i];
    if PollEnds(inv.status) {
      QueueKeeps(l, l, i, attempt);
    } else if inv.trackId.None? && w.recovered.Some? {
      RecordAndQueueKeeps(l, i, inv.status, w.recovered);
    } else {
      StatusAndQueueKeeps(l, i, ERROR, attempt);
    }
  }

  lemma AnsweredPollKeeps(l: Ledger, i: nat, w: PollWorld)
    requires Valid(l) && i in l.polls && w.query.Answered?
    requires !PollEnds(l.invoices[i].status) && l.invoices[i].trackId.Some? && l.polls[i] <= MAX_ATTEMPTS
    ensures Kept(l, Poll(l, i, w))
  {
    hide Kept;
    StatusAndQueueKeeps(l, i, MapDgiiStatus(w.query.code), l.polls[i] + 1);
  }

  lemma PollKeeps(l: Ledger, i: nat, w: PollWorld)
    requires Valid(l)
    ensures Kept(l, Poll(l, i, w))
  {
    hide Kept;
    NothingKeeps(l);
    if i in l.polls {
      var inv, attempt := l.invoices[i], l.polls[i];
      if PollEnds(inv.status) || inv.trackId.None? || attempt > MAX_ATTEMPTS {
        UnaskedPollKeeps(l, i, w);
      } else if w.query.Answered? {
        AnsweredPollKeeps(l, i, w);
      } else if w.query.failure.OtherFailure? && (inv.status == PROCESSING || inv.status == SENT) {
        StatusAndQueueKeeps(l, i, ERROR, attempt);
      } else {
        QueueKeeps(l, l, i, attempt + 1);
      }
    }
  }

  lemma PollStatusKeeps(l: Ledger, i: nat, query: Query)
    requires Valid(l)
    ensures Kept(l, PollStatus(l, i, query))
  {
    if i < |l.invoices| && query.Answered? {
      StatusKeeps(l, i, MapDgiiStatus(query.code));
    }
  }

  lemma VoidKeeps(l: Ledger, i: nat)
    requires Valid(l)
    ensures Kept(l, Void(l, i))
  {
    if i < |l.invoices| && Voidable(l.invoices[i].status) {
      var row := l.invoices[i].(status := VOIDED, usageReverted := true);
      ReplaceKeeps(l, i, row);
      assert Void(l, i).invoices == l.invoices[i := row];
    }
  }

  lemma MarkForRetryKeeps(l: Ledger, i: nat)
    requires Valid(l)
    ensures Kept(l, MarkForRetry(l, i))
  {
    if i < |l.invoices| {
      StatusKeeps(l, i, CONTINGENCY);
    }
  }

  lemma MarkAllForRetryKeeps(l: Ledger)
    requires Valid(l)
    ensures Kept(l, MarkAllForRetry(l))
  {
    OutstandingSame(l.invoices, MarkAllForRetry(l).invoices);
  }

  lemma {:induction false} RetryKeeps(l: Ledger, i: nat, w: RetryWorld)
    requires Valid(l) && i < |l.invoices|
    ensures Kept(l, Retry(l, i, w).0)
  {
    hide Kept;
    NothingKeeps(l);
    if w.now - l.invoices[i].createdAt <= CONTINGENCY_LIMIT_MS && w.credentials.Done? && l.invoices[i].trackId.Some? && w.query.Answered? {
      StatusAndQueueKeeps(l, i, MapContingencyStatus(w.query.code), 1);
    } else if RetrySubmits(l, i, w) && w.submission.Received? {
      RecordAndQueueKeeps(l, i, MapContingencyStatus(w.submission.code), w.submission.trackId);
    } else if Retry(l, i, w).1.FailedItem? {
      StatusKeeps(l, i, ERROR);
    }
  }
}
