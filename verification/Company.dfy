/** One company as a state machine: its sequence rows, annulment requests and
    ledger, every request or job that changes them, and the runs these make. */
module Company {
  import opened EcfTypes
  import opened Encf
  import opened Sequences
  import opened Pipeline
  import Usage

  datatype AnnulmentStatus = AnnulPending | AnnulAccepted | AnnulRejected

  /** One annulment request. The rows it was planned on are kept for the proofs;
      a request in flight is one whose answer from DGII is still awaited. */
  datatype Annulment = Annulment(draft: Draft, snapshot: seq<Row>, status: AnnulmentStatus, inFlight: bool)

  /** `authorized` remembers the end number each row was registered with. */
  datatype State = State(rows: seq<Row>, authorized: seq<int>, annulments: map<nat, Annulment>, ledger: Ledger)

  function Init(includedInvoices: nat, cycleEnd: int): State {
    State([], [], map[], Ledger([], Usage.AssignPlan(includedInvoices, cycleEnd), map[]))
  }

  // ----- emission -----

  datatype EmitRequest = EmitRequest(
    ecfType: EcfType,
    referenceEncf: Option<string>,
    isRfce: bool,
    idempotencyKey: Option<string>,
    now: int,
    xmlFails: bool,
    linesFail: bool)

  datatype Refusal = NoNumber(error: AssignError) | XmlError | DuplicateEncf | LinesError | QuotaError

  datatype EmitResult = Created(index: nat) | Existing(index: nat) | Refused(reason: Refusal)

  function FindByKey(invoices: seq<Invoice>, key: string): (r: Option<nat>)
    ensures r.Some? ==> r.value < |invoices| && invoices[r.value].idempotencyKey == Some(key)
    ensures r.None? ==> forall j :: 0 <= j < |invoices| ==> invoices[j].idempotencyKey != Some(key)
  {
    if invoices == [] then None
    else
      match FindByKey(invoices[..|invoices| - 1], key)
      case Some(j) => Some(j)
      case None => if invoices[|invoices| - 1].idempotencyKey == Some(key) then Some(|invoices| - 1) else None
  }

  function NewInvoice(q: EmitRequest, number: nat): Invoice {
    Invoice(q.ecfType, FormatEncf(q.ecfType, number), QUEUED, None, q.referenceEncf, q.isRfce, true, false, q.idempotencyKey, q.now)
  }

  function NextNumber(row: Row): nat {
    Max(row.currentNumber + 1, 0)
  }

  /** The unique index on company, type and eNCF. */
  predicate EncfTaken(invoices: seq<Invoice>, inv: Invoice) {
    exists j :: 0 <= j < |invoices| && invoices[j].ecfType == inv.ecfType && invoices[j].encf == inv.encf
  }

  /** The emission transaction: all of its writes or none. */
  function Emit(s: State, q: EmitRequest): (State, EmitResult) {
    var invoices := s.ledger.invoices;
    var found := if q.idempotencyKey.Some? then FindByKey(invoices, q.idempotencyKey.value) else None;
    if found.Some? then (s, Existing(found.value))
    else
      match Assign(s.rows, q.ecfType, q.now)
      case Err(e) => (s, Refused(NoNumber(e)))
      case Ok(i) =>
        var inv := NewInvoice(q, NextNumber(s.rows[i]));
        if q.xmlFails then (s, Refused(XmlError))
        else if EncfTaken(invoices, inv) then (s, Refused(DuplicateEncf))
        else if q.linesFail then (s, Refused(LinesError))
        else
          var (meter, outcome) := Usage.Consume(s.ledger.meter);
          if outcome == Usage.QuotaExceeded then (s, Refused(QuotaError))
          else
            (s.(rows := Advance(s.rows, i),
                ledger := s.ledger.(invoices := invoices + [inv], meter := meter)),
             Created(|invoices|))
  }

  // ----- annulment -----

  datatype Verdict = DgiiAccepted | DgiiRejected | NoAnswer

  function RequestAnnulment(s: State, id: nat, texts: seq<RangeText>): State {
    if id in s.annulments then s
    else
      match Plan(s.rows, s.ledger.invoices, texts)
      case Err(_) => s
      case Ok(d) => s.(annulments := s.annulments[id := Annulment(d, s.rows, AnnulPending, true)])
  }

  function Settle(s: State, id: nat, v: Verdict): State {
    if id !in s.annulments || !s.annulments[id].inFlight then s
    else
      var a := s.annulments[id];
      match v
      case NoAnswer => s.(annulments := s.annulments[id := a.(inFlight := false)])
      case DgiiRejected => s.(annulments := s.annulments[id := a.(inFlight := false, status := AnnulRejected)])
      case DgiiAccepted =>
        s.(annulments := s.annulments[id := a.(inFlight := false, status := AnnulAccepted)],
           rows := ApplySims(s.rows, a.draft.sims))
  }

  // ----- contingency batch -----

  /** Indices of the CONTINGENCY invoices, oldest first. */
  function Contingent(invoices: seq<Invoice>): (r: seq<nat>)
    ensures forall k :: 0 <= k < |r| ==> r[k] < |invoices| && invoices[r[k]].status == CONTINGENCY
    ensures forall j, k :: 0 <= j < k < |r| ==> r[j] < r[k]
    ensures forall i :: 0 <= i < |invoices| && invoices[i].status == CONTINGENCY ==> i in r
  {
    if invoices == [] then []
    else
      var before := Contingent(invoices[..|invoices| - 1]);
      if invoices[|invoices| - 1].status == CONTINGENCY then before + [|invoices| - 1] else before
  }

  function Batch(invoices: seq<Invoice>): seq<nat> {
    var all := Contingent(invoices);
    if |all| > BATCH_SIZE then all[..BATCH_SIZE] else all
  }

  datatype BatchRun = BatchRun(ledger: Ledger, processed: nat, failed: nat, alive: bool)

  /** The first `k` invoices of the batch; a crash ends it there. */
  function RunBatch(l: Ledger, world: nat -> RetryWorld, k: nat): (r: BatchRun)
    requires k <= |Batch(l.invoices)|
    ensures |r.ledger.invoices| == |l.invoices|
  {
    if k == 0 then BatchRun(l, 0, 0, true)
    else
      var b := RunBatch(l, world, k - 1);
      if !b.alive then b
      else
        var (ledger, outcome) := Retry(b.ledger, Batch(l.invoices)[k - 1], world(k - 1));
        match outcome
        case Processed => b.(ledger := ledger, processed := b.processed + 1)
        case FailedItem => b.(ledger := ledger, failed := b.failed + 1)
        case Crashed => b.(ledger := ledger, alive := false)
  }

  lemma BatchIncreases(invoices: seq<Invoice>)
    ensures forall j, k :: 0 <= j < k < |Batch(invoices)| ==> Batch(invoices)[j] < Batch(invoices)[k]
    ensures forall k :: 0 <= k < |Batch(invoices)| ==> Batch(invoices)[k] < |invoices|
  {
    hide Contingent;
  }

  lemma BatchStarts(l: Ledger, world: nat -> RetryWorld)
    ensures RunBatch(l, world, 0) == BatchRun(l, 0, 0, true)
  {}

  /** The whole batch; `health` is the token probe made before it. */
  function ProcessQueue(l: Ledger, health: Call, world: nat -> RetryWorld): Ledger {
    if health.Done? then RunBatch(l, world, |Batch(l.invoices)|).ledger else l
  }

  // ----- runs -----

  datatype Event =
    | RegisterRow(ecfType: EcfType, first: int, last: int, expiresAt: Option<int>)
    | EmitInvoice(request: EmitRequest)
    | AskAnnulment(id: nat, texts: seq<RangeText>)
    | SettleAnnulment(id: nat, verdict: Verdict)
    | ProcessJob(index: nat, process: ProcessWorld)
    | PollJob(index: nat, poll: PollWorld)
    | ManualPoll(index: nat, query: Query)
    | VoidInvoice(index: nat)
    | RetryOne(index: nat)
    | RetryAll
    | ContingencyTick(health: Call, world: nat -> RetryWorld)
    | PurchaseTopup(invoiceCount: nat)

  function StepLedger(l: Ledger, e: Event): Ledger {
    match e
    case ProcessJob(i, w) => Process(l, i, w)
    case PollJob(i, w) => Poll(l, i, w)
    case ManualPoll(i, query) => PollStatus(l, i, query)
    case VoidInvoice(i) => Void(l, i)
    case RetryOne(i) => MarkForRetry(l, i)
    case RetryAll => MarkAllForRetry(l)
    case ContingencyTick(health, world) => ProcessQueue(l, health, world)
    case PurchaseTopup(count) => l.(meter := Usage.Purchase(l.meter, count))
    case _ => l
  }

  function AddRow(s: State, row: Row): State {
    s.(rows := s.rows + [row], authorized := s.authorized + [row.endNumber])
  }

  function Step(s: State, e: Event): State {
    match e
    case RegisterRow(t, first, last, expiresAt) =>
      (match Register(s.rows, t, first, last, expiresAt)
       case Err(_) => s
       case Ok(row) => AddRow(s, row))
    case EmitInvoice(q) => Emit(s, q).0
    case AskAnnulment(id, texts) => RequestAnnulment(s, id, texts)
    case SettleAnnulment(id, v) => Settle(s, id, v)
    case _ => s.(ledger := StepLedger(s.ledger, e))
  }

  /** The state after the first `k` events. */
  function At(s0: State, es: seq<Event>, k: nat): State
    requires k <= |es|
  {
    if k == 0 then s0 else Step(At(s0, es, k - 1), es[k - 1])
  }

  predicate IsInit(s: State) {
    && s.rows == [] && s.authorized == [] && s.annulments == map[]
    && s.ledger.invoices == [] && s.ledger.polls == map[]
    && s.ledger.meter == Usage.AssignPlan(s.ledger.meter.includedInvoices, s.ledger.meter.cycleEnd)
  }

  // ----- invariant of every run -----

  ghost predicate RowOk(r: Row, authorized: int) {
    && 1 <= r.startNumber <= r.endNumber <= authorized <= INT_MAX
    && r.startNumber - 1 <= r.currentNumber <= authorized
  }

  ghost predicate RowsOk(rows: seq<Row>, authorized: seq<int>) {
    && |rows| == |authorized|
    && (forall i :: 0 <= i < |rows| ==> RowOk(rows[i], authorized[i]))
    && (forall i, j :: 0 <= i < j < |rows| && rows[i].ecfType == rows[j].ecfType ==> !rows[i].isActive || !rows[j].isActive)
  }

  /** Number `n` of row `i` lies in a range that this request annuls. */
  ghost predicate Hits(d: Draft, t: EcfType, i: int, n: int) {
    t in d.sims && d.sims[t].id == i && Covered(d.ranges, t, n)
  }

  ghost predicate AcceptedOn(annulments: map<nat, Annulment>, t: EcfType, i: int, n: int) {
    exists id :: id in annulments && annulments[id].status == AnnulAccepted && Hits(annulments[id].draft, t, i, n)
  }

  ghost predicate HasInvoice(invoices: seq<Invoice>, t: EcfType, n: nat) {
    exists j :: 0 <= j < |invoices| && invoices[j].encf == FormatEncf(t, n)
  }

  /** No number is lost: up to the counter each has its invoice or was annulled. */
  ghost predicate NoOrphans(s: State) {
    forall i, n: nat :: 0 <= i < |s.rows| && s.rows[i].startNumber <= n <= s.rows[i].currentNumber
      ==> HasInvoice(s.ledger.invoices, s.rows[i].ecfType, n) || AcceptedOn(s.annulments, s.rows[i].ecfType, i, n)
  }

  ghost predicate IssuedBy(row: Row, inv: Invoice, n: nat) {
    row.ecfType == inv.ecfType && row.startNumber <= n <= row.currentNumber && inv.encf == FormatEncf(inv.ecfType, n)
  }

  ghost predicate Issued(rows: seq<Row>, inv: Invoice) {
    exists i, n :: 0 <= i < |rows| && IssuedBy(rows[i], inv, n)
  }

  /** A row has only moved forward since a snapshot of it was taken. */
  ghost predicate MovedOn(was: Row, row: Row, authorized: int) {
    && was.ecfType == row.ecfType && was.startNumber == row.startNumber
    && RowOk(was, authorized)
    && was.currentNumber <= row.currentNumber
    && (row.isActive ==> was.isActive)
  }

  ghost predicate AnnulmentOk(s: State, a: Annulment) {
    && DraftIsExact(a.snapshot, a.draft)
    && |a.snapshot| <= |s.rows| == |s.authorized|
    && (a.inFlight ==> a.status == AnnulPending)
    && (forall i :: 0 <= i < |a.snapshot| ==> MovedOn(a.snapshot[i], s.rows[i], s.authorized[i]))
  }

  /** Whatever lies between an end number and the authorized end was cut off by
      an accepted annulment of that row. */
  ghost predicate CutIsAccepted(annulments: map<nat, Annulment>, row: Row, i: int, authorized: int) {
    forall n :: row.endNumber < n <= authorized ==> AcceptedOn(annulments, row.ecfType, i, n)
  }

  ghost predicate Cuts(s: State) {
    && |s.rows| == |s.authorized|
    && (forall id :: id in s.annulments ==> |s.annulments[id].snapshot| <= |s.rows|)
    && (forall i :: 0 <= i < |s.rows| ==> CutIsAccepted(s.annulments, s.rows[i], i, s.authorized[i]))
    && (forall id, i :: id in s.annulments && 0 <= i < |s.annulments[id].snapshot|
          ==> CutIsAccepted(s.annulments, s.annulments[id].snapshot[i], i, s.authorized[i]))
  }

  ghost predicate Distinct(invoices: seq<Invoice>) {
    && (forall i, j :: 0 <= i < j < |invoices| ==> invoices[i].encf != invoices[j].encf)
    && (forall i, j :: 0 <= i < j < |invoices| && invoices[i].idempotencyKey.Some?
          ==> invoices[i].idempotencyKey != invoices[j].idempotencyKey)
  }

  ghost predicate AllocValid(s: State) {
    && RowsOk(s.rows, s.authorized)
    && (forall id :: id in s.annulments ==> AnnulmentOk(s, s.annulments[id]))
    && Cuts(s)
    && NoOrphans(s)
    && (forall j :: 0 <= j < |s.ledger.invoices| ==> Issued(s.rows, s.ledger.invoices[j]))
    && Distinct(s.ledger.invoices)
  }

  ghost predicate Valid(s: State) {
    AllocValid(s) && Pipeline.Valid(s.ledger)
  }
}
