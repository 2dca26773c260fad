/** Which calls can make an invoice stand again that was rejected, voided or in
    error, over every answer they may get. */
module Revival {
  import opened EcfTypes
  import opened Pipeline
  import opened Company
  import opened CompanyInvariant
  import opened PipelineRuns
  import opened VerdictRuns

  /** The document is valid at DGII or on its way there. */
  predicate Standing(s: InvoiceStatus) {
    s != REJECTED && s != ERROR && s != VOIDED
  }

  predicate AllDead(l: Ledger, dead: set<nat>) {
    forall j :: j in dead ==> j < |l.invoices| && !Standing(l.invoices[j].status)
  }

  /** Jobs and requests on invoices and on the meter. */
  predicate OnLedger(e: Event) {
    !(e.RegisterRow? || e.EmitInvoice? || e.AskAnnulment? || e.SettleAnnulment?)
  }

  /** The check before a call that these invoices stay dead: the job would be refused
      before it submits or asks, the manual poll has nothing to ask with, and the
      marking for retry finds no ERROR. */
  predicate LeavesDead(l: Ledger, e: Event, dead: set<nat>) {
    match e
    case ProcessJob(j, _) => j in dead ==> !ProcessProceeds(l, j)
    case PollJob(j, _) => j in dead ==> !PollAsks(l, j)
    case ManualPoll(j, _) => j in dead && j < |l.invoices| ==> l.invoices[j].trackId.None?
    case RetryOne(j) => j in dead && j < |l.invoices| ==> l.invoices[j].status != ERROR
    case RetryAll => forall j :: j in dead && j < |l.invoices| ==> l.invoices[j].status != ERROR
    case _ => true
  }

  /** The same call with another answer. */
  ghost predicate SameCall(e: Event, f: Event) {
    match e
    case SettleAnnulment(id, _) => f.SettleAnnulment? && f.id == id
    case ProcessJob(j, _) => f.ProcessJob? && f.index == j
    case PollJob(j, _) => f.PollJob? && f.index == j
    case ManualPoll(j, _) => f.ManualPoll? && f.index == j
    case ContingencyTick(_, _) => f.ContingencyTick?
    case _ => e == f
  }

  lemma StoppedJobDoesNotRevive(l: Ledger, i: nat, w: ProcessWorld, j: nat)
    requires j < |l.invoices| && !Standing(l.invoices[j].status) && (i == j ==> !ProcessProceeds(l, i))
    ensures j < |Process(l, i, w).invoices| && !Standing(Process(l, i, w).invoices[j].status)
  {}

  lemma UnaskedPollDoesNotRevive(l: Ledger, i: nat, w: PollWorld, j: nat)
    requires j < |l.invoices| && !Standing(l.invoices[j].status) && (i == j ==> !PollAsks(l, i))
    ensures j < |Poll(l, i, w).invoices| && !Standing(Poll(l, i, w).invoices[j].status)
  {}

  lemma UntrackedPollDoesNotRevive(l: Ledger, i: nat, query: Query, j: nat)
    requires j < |l.invoices| && !Standing(l.invoices[j].status) && (i == j ==> l.invoices[j].trackId.None?)
    ensures j < |PollStatus(l, i, query).invoices| && !Standing(PollStatus(l, i, query).invoices[j].status)
  {}

  lemma VoidDoesNotRevive(l: Ledger, i: nat, j: nat)
    requires j < |l.invoices| && !Standing(l.invoices[j].status)
    ensures j < |Void(l, i).invoices| && !Standing(Void(l, i).invoices[j].status)
  {}

  lemma StaysDead(l: Ledger, e: Event, dead: set<nat>, j: nat)
    requires Pipeline.Valid(l) && AllDead(l, dead) && OnLedger(e) && LeavesDead(l, e, dead) && j in dead
    ensures j < |StepLedger(l, e).invoices| && !Standing(StepLedger(l, e).invoices[j].status)
  {
    hide Process, Poll, ProcessQueue;
    match e {
      case ProcessJob(i, w) => StoppedJobDoesNotRevive(l, i, w, j);
      case PollJob(i, w) => UnaskedPollDoesNotRevive(l, i, w, j);
      case ContingencyTick(health, world) => BatchLeavesOthers(l, health, world, j);
      case ManualPoll(i, query) => UntrackedPollDoesNotRevive(l, i, query, j);
      case VoidInvoice(i) => VoidDoesNotRevive(l, i, j);
      case RetryOne(i) =>
      case RetryAll =>
      case PurchaseTopup(count) =>
    }
  }

  const ACCEPTING: ProcessWorld := ProcessWorld(Done, XsdUnavailable, Done, Received(1, None))

  /** The answer that does the most harm: DGII accepts. */
  function WorstAnswer(e: Event): Event {
    match e
    case SettleAnnulment(id, _) => SettleAnnulment(id, DgiiAccepted)
    case ProcessJob(j, _) => ProcessJob(j, ACCEPTING)
    case PollJob(j, _) => PollJob(j, PollWorld(None, Answered(1)))
    case ManualPoll(j, _) => ManualPoll(j, Answered(1))
    case _ => e
  }

  lemma OneRevives(l: Ledger, e: Event, dead: set<nat>) returns (j: nat)
    requires AllDead(l, dead) && !LeavesDead(l, e, dead)
    ensures j in dead && j < |StepLedger(l, WorstAnswer(e)).invoices|
    ensures Standing(StepLedger(l, WorstAnswer(e)).invoices[j].status)
  {
    match e {
      case ProcessJob(i, w) => j := i;
      case PollJob(i, w) => j := i;
      case ManualPoll(i, query) => j := i;
      case RetryOne(i) => j := i;
      case RetryAll => j :| j in dead && j < |l.invoices| && l.invoices[j].status == ERROR;
    }
  }

  /** The check is exact for each call: it holds exactly when no answer to the call
      makes one of the invoices stand. */
  lemma LeavesDeadIff(l: Ledger, e: Event, dead: set<nat>)
    requires Pipeline.Valid(l) && AllDead(l, dead) && OnLedger(e)
    ensures LeavesDead(l, e, dead) <==> forall f :: SameCall(e, f) ==> AllDead(StepLedger(l, f), dead)
  {
    hide StepLedger, Pipeline.Valid;
    if LeavesDead(l, e, dead) {
      forall f | SameCall(e, f)
        ensures AllDead(StepLedger(l, f), dead)
      {
        forall j | j in dead
          ensures j < |StepLedger(l, f).invoices| && !Standing(StepLedger(l, f).invoices[j].status)
        {
          StaysDead(l, f, dead, j);
        }
      }
    } else {
      var j := OneRevives(l, e, dead);
      assert SameCall(e, WorstAnswer(e));
    }
  }
}
