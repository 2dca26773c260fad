/** Invoices whose number has been annulled at DGII: how a live one can come about,
    and the checks, on the state before a call, that exclude it. */
module AnnulledInvoices {
  import opened EcfTypes
  import opened Encf
  import opened Sequences
  import opened Pipeline
  import opened Company
  import opened CompanyInvariant
  import opened AllocatorRuns
  import opened IssuedRuns
  import opened PipelineRuns
  import opened Revival
  import opened OverlapExamples

  ghost predicate InRanges(d: Draft, inv: Invoice) {
    exists i: int, n: nat :: inv.encf == FormatEncf(inv.ecfType, n) && Hits(d, inv.ecfType, i, n)
  }

  /** The invoice's number lies in an accepted annulment. */
  ghost predicate Annulled(annulments: map<nat, Annulment>, inv: Invoice) {
    exists n: nat :: inv.encf == FormatEncf(inv.ecfType, n) && AcceptedNumber(annulments, inv.ecfType, n)
  }

  ghost predicate AnnulledAt(s: State, j: nat) {
    j < |s.ledger.invoices| && Annulled(s.annulments, s.ledger.invoices[j])
  }

  ghost predicate NoConflict(s: State) {
    forall j :: 0 <= j < |s.ledger.invoices| && Standing(s.ledger.invoices[j].status) ==> !Annulled(s.annulments, s.ledger.invoices[j])
  }

  // ----- a live invoice with an annulled number -----

  const RESUBMITTED: RetryWorld := RetryWorld(0, Done, QueryFailed(OtherFailure), Done, Received(1, None))

  const REVIVED: seq<Event> := [
    RegisterRow(E31, 1, 5, None),
    EmitInvoice(PLAIN),
    ProcessJob(0, REFUSED_SIGNATURE),
    AskAnnulment(0, [Text(1, 1)]),
    SettleAnnulment(0, DgiiAccepted),
    RetryOne(0),
    ContingencyTick(Done, _ => RESUBMITTED)]

  lemma RevivedFails()
    ensures var s := At(Init(3, 0), REVIVED, 3);
            && s.rows == [Row(E31, 1, 1, 5, None, true)] && s.annulments == map[]
            && s.ledger.invoices == [NewInvoice(PLAIN, 1).(status := ERROR)]
  {
    hide At;
    var s0, es := Init(3, 0), REVIVED;
    RunUnfolds(s0, es, 0);
    RunUnfolds(s0, es, 1);
    RunUnfolds(s0, es, 2);
    FailedEmission(At(s0, es, 1), Row(E31, 1, 0, 5, None, true));
  }

  lemma RevivedIsAnnulled()
    ensures var s := At(Init(3, 0), REVIVED, 5);
            && 0 in s.annulments && s.annulments[0].status == AnnulAccepted
            && s.annulments[0].draft == Draft([NumRange(E31, 1, 1)], map[E31 := SimState(0, 1, 5, 1, true, true)])
            && s.ledger.invoices == [NewInvoice(PLAIN, 1).(status := ERROR)]
  {
    hide At, RequestAnnulment;
    var s0, es := Init(3, 0), REVIVED;
    RevivedFails();
    RunUnfolds(s0, es, 3);
    RunUnfolds(s0, es, 4);
    var s3 := At(s0, es, 3);
    assert !Blocked(s3.ledger.invoices, E31, 1, 1);
    RequestOne(s3, 0, Row(E31, 1, 1, 5, None, true), 1, 1);
  }

  lemma OneItemBatch(l: Ledger)
    requires l.invoices == [NewInvoice(PLAIN, 1).(status := CONTINGENCY)]
    ensures ProcessQueue(l, Done, _ => RESUBMITTED).invoices == [NewInvoice(PLAIN, 1).(status := ACCEPTED)]
  {
    assert l.invoices[..0] == [];
    assert Contingent(l.invoices[..0]) == [];
    assert Contingent(l.invoices) == [0];
    assert Batch(l.invoices) == [0];
    var world: nat -> RetryWorld := _ => RESUBMITTED;
    assert RunBatch(l, world, 0) == BatchRun(l, 0, 0, true);
    assert RunBatch(l, world, 1).ledger == Retry(l, 0, RESUBMITTED).0;
  }

  /** A failed invoice is annulled and DGII accepts; then it is marked for retry and
      submitted, and DGII accepts it too. Nothing on the way reads the annulment. */
  lemma AnnulledInvoiceIsAccepted()
    ensures var s := At(Init(3, 0), REVIVED, 7);
            && |s.ledger.invoices| == 1 && s.ledger.invoices[0].status == ACCEPTED && AnnulledAt(s, 0)
  {
    hide At;
    var s0, es := Init(3, 0), REVIVED;
    RevivedIsAnnulled();
    RunUnfolds(s0, es, 5);
    RunUnfolds(s0, es, 6);
    var s6, s7 := At(s0, es, 6), At(s0, es, 7);
    assert s6.ledger.invoices == [NewInvoice(PLAIN, 1).(status := CONTINGENCY)];
    OneItemBatch(s6.ledger);
    assert s7.annulments[0].draft.ranges[0] == NumRange(E31, 1, 1);
    assert Covers(s7.annulments[0].draft.ranges[0], E31, 1);
    assert Hits(s7.annulments[0].draft, E31, 0, 1);
    assert AcceptedOn(s7.annulments, E31, 0, 1);
    assert s7.ledger.invoices[0].encf == FormatEncf(E31, 1);
  }

  // ----- where such an invoice comes from -----

  ghost predicate PlannedAt(s0: State, es: seq<Event>, p: nat, id: nat)
    requires p < |es|
  {
    id !in At(s0, es, p).annulments && id in At(s0, es, p + 1).annulments
  }

  lemma DraftStays(s: State, e: Event, id: nat)
    requires id in s.annulments
    ensures id in Step(s, e).annulments && Step(s, e).annulments[id].draft == s.annulments[id].draft
  {
    match e {
      case RegisterRow(t, first, last, expiresAt) =>
      case EmitInvoice(q) =>
      case AskAnnulment(k, texts) =>
      case SettleAnnulment(k, v) =>
      case _ =>
    }
  }

  /** Planning meets no live invoice at or below the counter, and above it there is none. */
  lemma PlanFindsNoLiveInvoice(s: State, texts: seq<RangeText>, d: Draft, i: int, n: nat, j: nat)
    requires Company.Valid(s) && Unissued(s) && Plan(s.rows, s.ledger.invoices, texts) == Ok(d)
    requires j < |s.ledger.invoices|
    requires var inv := s.ledger.invoices[j];
             inv.encf == FormatEncf(inv.ecfType, n) && Hits(d, inv.ecfType, i, n)
    ensures Annullable(s.ledger.invoices[j].status)
  {
    hide Plan, Company.Valid;
    var inv := s.ledger.invoices[j];
    PlanRow(s, texts, d, inv.ecfType, n);
    NoneAboveCounter(s, i, n, j);
    PlanSparesLiveInvoices(s.rows, s.ledger.invoices, texts, d, inv, inv.ecfType, n);
  }

  lemma NoneAboveCounter(s: State, i: nat, n: nat, j: nat)
    requires Unissued(s) && i < |s.rows| && s.rows[i].isActive && n <= s.authorized[i]
    requires j < |s.ledger.invoices| && s.ledger.invoices[j].encf == FormatEncf(s.rows[i].ecfType, n)
    ensures n <= s.rows[i].currentNumber
  {
    assert HasInvoice(s.ledger.invoices, s.rows[i].ecfType, n);
  }

  /** What a plan covers lies in the active row of its type. */
  lemma PlanRow(s: State, texts: seq<RangeText>, d: Draft, t: EcfType, n: nat)
    requires Company.Valid(s) && Plan(s.rows, s.ledger.invoices, texts) == Ok(d) && Covered(d.ranges, t, n)
    ensures PlanRanges(s.rows, s.ledger.invoices, texts) == Ok(d)
    ensures t in d.sims && d.sims[t].id < |s.rows|
    ensures var i := d.sims[t].id;
            s.rows[i].ecfType == t && s.rows[i].isActive && s.rows[i].startNumber <= n <= s.authorized[i]
  {
    PlanIsExact(s.rows, s.ledger.invoices, texts);
    var k :| 0 <= k < |d.ranges| && Covers(d.ranges[k], t, n);
    assert RowOk(s.rows[d.sims[t].id], s.authorized[d.sims[t].id]);
  }

  lemma OnlyAskPlans(s: State, e: Event, id: nat)
    requires id !in s.annulments && id in Step(s, e).annulments
    ensures e.AskAnnulment? && Plan(s.rows, s.ledger.invoices, e.texts) == Ok(Step(s, e).annulments[id].draft)
  {
    match e {
      case RegisterRow(t, first, last, expiresAt) =>
      case EmitInvoice(q) =>
      case AskAnnulment(k, texts) =>
      case SettleAnnulment(k, v) =>
      case _ =>
    }
  }

  /** The request was planned at some event, when there were not more invoices. */
  lemma {:induction false} PlanningEvent(s0: State, es: seq<Event>, k: nat, id: nat) returns (p: nat)
    requires IsInit(s0) && k <= |es| && id in At(s0, es, k).annulments
    ensures p < k && PlannedAt(s0, es, p, id)
    ensures |At(s0, es, p).ledger.invoices| <= |At(s0, es, k).ledger.invoices|
  {
    hide Step;
    assert k > 0;
    RunKeepsRows(s0, es, k);
    if id in At(s0, es, k - 1).annulments {
      p := PlanningEvent(s0, es, k - 1, id);
    } else {
      p := k - 1;
    }
  }

  lemma EarlierGuard(s0: State, es: seq<Event>, k: nat)
    requires 0 < k <= |es| && AlwaysIssuedGuard(s0, es, k)
    ensures AlwaysIssuedGuard(s0, es, k - 1)
  {}

  /** In every run in which no registration covers an issued number: an invoice in the
      ranges of a request was emitted after the request was planned, or was REJECTED
      or ERROR then. One that stands later was issued in between or revived. */
  lemma {:induction false} AnnulledInvoiceHistory(s0: State, es: seq<Event>, k: nat, id: nat, i: int, n: nat, j: nat)
    requires IsInit(s0) && k <= |es| && AlwaysIssuedGuard(s0, es, k)
    requires id in At(s0, es, k).annulments && j < |At(s0, es, k).ledger.invoices|
    requires var inv := At(s0, es, k).ledger.invoices[j];
             inv.encf == FormatEncf(inv.ecfType, n) && Hits(At(s0, es, k).annulments[id].draft, inv.ecfType, i, n)
    ensures exists p :: 0 <= p < k && PlannedAt(s0, es, p, id)
              && (j < |At(s0, es, p).ledger.invoices| ==> Annullable(At(s0, es, p).ledger.invoices[j].status))
  {
    hide Step, Company.Valid, Unissued, Hits, Annullable, AlwaysIssuedGuard;
    assert k > 0;
    var s := At(s0, es, k - 1);
    EarlierGuard(s0, es, k);
    RunKeepsRows(s0, es, k);
    RunKeepsValid(s0, es, k - 1);
    GuardedRunsStayUnissued(s0, es, k - 1);
    if id in s.annulments {
      DraftStays(s, es[k - 1], id);
      if j < |s.ledger.invoices| {
        assert RowKept(s.ledger.invoices[j], At(s0, es, k).ledger.invoices[j]);
        AnnulledInvoiceHistory(s0, es, k - 1, id, i, n, j);
      } else {
        var p := PlanningEvent(s0, es, k - 1, id);
      }
    } else {
      assert PlannedAt(s0, es, k - 1, id);
      if j < |s.ledger.invoices| {
        assert RowKept(s.ledger.invoices[j], At(s0, es, k).ledger.invoices[j]);
        OnlyAskPlans(s, es[k - 1], id);
        PlanFindsNoLiveInvoice(s, es[k - 1].texts, At(s0, es, k).annulments[id].draft, i, n, j);
      }
    }
  }

  // ----- the checks that exclude it -----

  /** Every request whose answer is awaited taken as accepted already. */
  function Presume(annulments: map<nat, Annulment>): map<nat, Annulment> {
    map id | id in annulments ::
      if annulments[id].inFlight then annulments[id].(status := AnnulAccepted, inFlight := false) else annulments[id]
  }

  function Presumed(s: State): State {
    s.(annulments := Presume(s.annulments))
  }

  /** The number lies in an accepted range or in one that DGII may still accept. */
  ghost predicate Reserved(s: State, t: EcfType, n: int) {
    AcceptedNumber(Presume(s.annulments), t, n)
  }

  ghost function ReservedInvoices(s: State): set<nat> {
    set j: nat | j < |s.ledger.invoices| && Annulled(Presume(s.annulments), s.ledger.invoices[j])
  }

  /** What each call has to check, on the state before it is made: nothing is checked
      when an answer of DGII arrives. */
  ghost predicate AnnulGuard(s: State, e: Event) {
    match e
    case EmitInvoice(q) =>
      Emit(s, q).1.Created? ==> !Reserved(s, q.ecfType, NextNumber(s.rows[Assign(s.rows, q.ecfType, q.now).value]))
    case AskAnnulment(id, texts) =>
      id !in s.annulments && Plan(s.rows, s.ledger.invoices, texts).Ok? ==>
        NoneStands(s.ledger.invoices, Plan(s.rows, s.ledger.invoices, texts).value)
    case RegisterRow(_, _, _, _) => true
    case SettleAnnulment(_, _) => true
    case _ => LeavesDead(s.ledger, e, ReservedInvoices(s))
  }

  ghost predicate NoneStands(invoices: seq<Invoice>, d: Draft) {
    forall j :: 0 <= j < |invoices| && Standing(invoices[j].status) ==> !InRanges(d, invoices[j])
  }

  /** No live invoice on a reserved number. */
  ghost predicate NoThreat(s: State) {
    NoConflict(Presumed(s))
  }

  lemma PresumedValid(s: State)
    requires Company.Valid(s)
    ensures Company.Valid(Presumed(s))
  {
    forall id | id in s.annulments
      ensures AnnulmentOk(Presumed(s), Presume(s.annulments)[id])
    {
      assert AnnulmentOk(s, s.annulments[id]);
    }
    AllocFrame(s, Presumed(s));
  }

  // ----- one call -----

  /** Ranges added to the accepted ones. */
  lemma AnnulledAdds(before: map<nat, Annulment>, after: map<nat, Annulment>, d: Draft, inv: Invoice)
    requires forall i, n :: AcceptedOn(after, inv.ecfType, i, n) <==> AcceptedOn(before, inv.ecfType, i, n) || Hits(d, inv.ecfType, i, n)
    ensures Annulled(after, inv) <==> Annulled(before, inv) || InRanges(d, inv)
  {
    hide AcceptedOn, Hits;
    if InRanges(d, inv) {
      var i: int, n: nat :| inv.encf == FormatEncf(inv.ecfType, n) && Hits(d, inv.ecfType, i, n);
      assert AcceptedOn(after, inv.ecfType, i, n);
    }
    if Annulled(before, inv) {
      var n: nat :| inv.encf == FormatEncf(inv.ecfType, n) && AcceptedNumber(before, inv.ecfType, n);
      var i :| AcceptedOn(before, inv.ecfType, i, n);
      assert AcceptedOn(after, inv.ecfType, i, n);
    }
    if Annulled(after, inv) {
      var n: nat :| inv.encf == FormatEncf(inv.ecfType, n) && AcceptedNumber(after, inv.ecfType, n);
      var i :| AcceptedOn(after, inv.ecfType, i, n);
    }
  }

  /** A conflict after ranges are added is one before or one in those ranges. */
  lemma RangesConflictIff(s: State, s': State, d: Draft)
    requires NoConflict(s) && s'.ledger.invoices == s.ledger.invoices
    requires forall t, i, n :: AcceptedOn(s'.annulments, t, i, n) <==> AcceptedOn(s.annulments, t, i, n) || Hits(d, t, i, n)
    ensures NoConflict(s') <==> NoneStands(s.ledger.invoices, d)
  {
    hide AcceptedOn, Hits, Annulled, InRanges;
    forall j | 0 <= j < |s.ledger.invoices|
      ensures Annulled(s'.annulments, s.ledger.invoices[j])
              <==> Annulled(s.annulments, s.ledger.invoices[j]) || InRanges(d, s.ledger.invoices[j])
    {
      AnnulledAdds(s.annulments, s'.annulments, d, s.ledger.invoices[j]);
    }
  }

  /** Planning a request reserves its ranges. */
  lemma AskReserves(s: State, id: nat, texts: seq<RangeText>, t: EcfType, i: int, n: int)
    requires id !in s.annulments && Plan(s.rows, s.ledger.invoices, texts).Ok?
    ensures AcceptedOn(Presume(RequestAnnulment(s, id, texts).annulments), t, i, n)
            <==> AcceptedOn(Presume(s.annulments), t, i, n) || Hits(Plan(s.rows, s.ledger.invoices, texts).value, t, i, n)
  {
    hide Plan, Hits;
    var before, after := Presume(s.annulments), Presume(RequestAnnulment(s, id, texts).annulments);
    var d := Plan(s.rows, s.ledger.invoices, texts).value;
    assert after[id].draft == d && after[id].status == AnnulAccepted;
    assert forall k :: k in before ==> k in after && after[k] == before[k];
    if AcceptedOn(after, t, i, n) {
      var k :| k in after && after[k].status == AnnulAccepted && Hits(after[k].draft, t, i, n);
      assert k != id ==> k in before;
    }
    if AcceptedOn(before, t, i, n) {
      var k :| k in before && before[k].status == AnnulAccepted && Hits(before[k].draft, t, i, n);
      assert after[k] == before[k];
    }
  }

  lemma AskThreatIff(s: State, id: nat, texts: seq<RangeText>)
    requires NoThreat(s)
    ensures AnnulGuard(s, AskAnnulment(id, texts)) <==> NoThreat(RequestAnnulment(s, id, texts))
  {
    hide Plan, NoConflict, NoneStands;
    if id !in s.annulments && Plan(s.rows, s.ledger.invoices, texts).Ok? {
      var s' := RequestAnnulment(s, id, texts);
      forall t, i, n
        ensures AcceptedOn(Presume(s'.annulments), t, i, n)
                <==> AcceptedOn(Presume(s.annulments), t, i, n) || Hits(Plan(s.rows, s.ledger.invoices, texts).value, t, i, n)
      {
        AskReserves(s, id, texts, t, i, n);
      }
      RangesConflictIff(Presumed(s), Presumed(s'), Plan(s.rows, s.ledger.invoices, texts).value);
    } else {
      assert RequestAnnulment(s, id, texts) == s;
    }
  }

  /** What the planner checks is enough where no row has issued numbers ahead. */
  lemma PlannerChecksEnough(s: State, id: nat, texts: seq<RangeText>)
    requires Company.Valid(s) && Unissued(s)
    ensures AnnulGuard(s, AskAnnulment(id, texts))
  {
    hide Plan, Company.Valid, Unissued, Hits;
    if Plan(s.rows, s.ledger.invoices, texts).Ok? {
      var invoices, d := s.ledger.invoices, Plan(s.rows, s.ledger.invoices, texts).value;
      forall j | 0 <= j < |invoices| && Standing(invoices[j].status)
        ensures !InRanges(d, invoices[j])
      {
        if InRanges(d, invoices[j]) {
          var i: int, n: nat :| invoices[j].encf == FormatEncf(invoices[j].ecfType, n) && Hits(d, invoices[j].ecfType, i, n);
          PlanFindsNoLiveInvoice(s, texts, d, i, n, j);
        }
      }
    }
  }

  /** Nothing newly accepted and no invoice touched. */
  lemma SameAccepted(s: State, s': State)
    requires NoConflict(s) && s'.ledger.invoices == s.ledger.invoices
    requires forall id :: id in s'.annulments && s'.annulments[id].status == AnnulAccepted
               ==> id in s.annulments && s.annulments[id].status == AnnulAccepted && s'.annulments[id].draft == s.annulments[id].draft
    ensures NoConflict(s')
  {
    forall t, n: int | AcceptedNumber(s'.annulments, t, n)
      ensures AcceptedNumber(s.annulments, t, n)
    {
      var i :| AcceptedOn(s'.annulments, t, i, n);
      var id :| id in s'.annulments && s'.annulments[id].status == AnnulAccepted && Hits(s'.annulments[id].draft, t, i, n);
      assert AcceptedOn(s.annulments, t, i, n);
    }
  }

  /** An answer reserves nothing that was not reserved. */
  lemma AnswerKeepsNoThreat(s: State, id: nat, v: Verdict)
    requires NoThreat(s)
    ensures NoThreat(Settle(s, id, v))
  {
    SameAccepted(Presumed(s), Presumed(Settle(s, id, v)));
  }

  lemma NoThreatNoConflict(s: State)
    requires NoThreat(s)
    ensures NoConflict(s)
  {
    SameAccepted(Presumed(s), s);
  }

  lemma AcceptedBounds(s: State, t: EcfType, n: int)
    requires Company.Valid(s) && AcceptedNumber(s.annulments, t, n)
    ensures 0 < n <= INT_MAX
  {
    var i :| AcceptedOn(s.annulments, t, i, n);
    AcceptedWithinAuthorized(s, t, i, n);
    assert RowOk(s.rows[i], s.authorized[i]);
  }

  /** An eNCF of ten digits determines its number. */
  lemma NumberIsUnique(s: State, inv: Invoice, n: nat)
    requires Company.Valid(s) && 0 < n <= INT_MAX && inv.encf == FormatEncf(inv.ecfType, n)
    ensures Annulled(s.annulments, inv) <==> AcceptedNumber(s.annulments, inv.ecfType, n)
  {
    hide Company.Valid;
    TenDigits();
    if Annulled(s.annulments, inv) {
      var m: nat :| inv.encf == FormatEncf(inv.ecfType, m) && AcceptedNumber(s.annulments, inv.ecfType, m);
      AcceptedBounds(s, inv.ecfType, m);
      FormatInjective(inv.ecfType, n, inv.ecfType, m);
    }
  }

  lemma AppendConflictIff(s: State, inv: Invoice, s': State)
    requires NoConflict(s) && s'.annulments == s.annulments && s'.ledger.invoices == s.ledger.invoices + [inv] && Standing(inv.status)
    ensures NoConflict(s') <==> !Annulled(s.annulments, inv)
  {
    assert s'.ledger.invoices[|s.ledger.invoices|] == inv;
  }

  lemma EmissionThreatIff(s: State, q: EmitRequest)
    requires Company.Valid(s) && NoThreat(s)
    ensures AnnulGuard(s, EmitInvoice(q)) <==> NoThreat(Emit(s, q).0)
  {
    if Emit(s, q).1.Created? {
      var i := Assign(s.rows, q.ecfType, q.now).value;
      var inv := NewInvoice(q, NextNumber(s.rows[i]));
      EmitIsEmitted(s, q);
      PresumedValid(s);
      assert RowOk(s.rows[i], s.authorized[i]);
      hide Emit, Company.Valid, NoConflict, Annulled;
      NumberIsUnique(Presumed(s), inv, NextNumber(s.rows[i]));
      AppendConflictIff(Presumed(s), inv, Presumed(Emit(s, q).0));
    }
  }

  /** Jobs and requests on invoices leave every number reserved as it was. */
  lemma LedgerThreatIff(s: State, l: Ledger)
    requires |l.invoices| == |s.ledger.invoices|
    requires forall j :: 0 <= j < |l.invoices| ==> RowKept(s.ledger.invoices[j], l.invoices[j])
    ensures NoThreat(s.(ledger := l)) <==> AllDead(l, ReservedInvoices(s))
  {
    var reserved := Presume(s.annulments);
    forall j | 0 <= j < |l.invoices|
      ensures Annulled(reserved, l.invoices[j]) <==> Annulled(reserved, s.ledger.invoices[j])
    {
      assert RowKept(s.ledger.invoices[j], l.invoices[j]);
    }
  }

  lemma NoThreatIsDead(s: State)
    ensures NoThreat(s) <==> AllDead(s.ledger, ReservedInvoices(s))
  {}

  ghost predicate NoAnswerThreatens(s: State, e: Event) {
    forall f :: SameCall(e, f) ==> NoThreat(Step(s, f))
  }

  lemma LedgerCallThreatIff(s: State, e: Event)
    requires Company.Valid(s) && NoThreat(s) && OnLedger(e)
    ensures AnnulGuard(s, e) <==> NoAnswerThreatens(s, e)
  {
    hide StepLedger, LeavesDead, NoThreat, AllDead, ReservedInvoices, Company.Valid;
    LedgerPart(s);
    NoThreatIsDead(s);
    LeavesDeadIff(s.ledger, e, ReservedInvoices(s));
    forall f | SameCall(e, f)
      ensures NoThreat(Step(s, f)) <==> AllDead(StepLedger(s.ledger, f), ReservedInvoices(s))
    {
      StepLedgerKeeps(s.ledger, f);
      LedgerThreatIff(s, StepLedger(s.ledger, f));
    }
  }

  /** The checks are exact: a call passes exactly when no answer to it puts a live
      invoice on a reserved number. */
  lemma NoAnswerThreatensIff(s: State, e: Event)
    requires Company.Valid(s) && NoThreat(s)
    ensures AnnulGuard(s, e) <==> NoAnswerThreatens(s, e)
  {
    hide Company.Valid, NoThreat, NoAnswerThreatens, AnnulGuard, Step;
    if OnLedger(e) {
      LedgerCallThreatIff(s, e);
    } else if e.SettleAnnulment? {
      AnswersThreatenNothing(s, e);
    } else {
      SoleCall(s, e);
      SoleCallThreatIff(s, e);
    }
  }

  lemma AnswersThreatenNothing(s: State, e: Event)
    requires NoThreat(s) && e.SettleAnnulment?
    ensures AnnulGuard(s, e) && NoAnswerThreatens(s, e)
  {
    hide NoThreat, Settle;
    forall f | SameCall(e, f)
      ensures NoThreat(Step(s, f))
    {
      AnswerKeepsNoThreat(s, e.id, f.verdict);
    }
  }

  /** Registration, emission and planning have no answer. */
  lemma SoleCall(s: State, e: Event)
    requires e.RegisterRow? || e.EmitInvoice? || e.AskAnnulment?
    ensures NoAnswerThreatens(s, e) <==> NoThreat(Step(s, e))
  {
    hide NoThreat, Step;
    assert SameCall(e, e);
  }

  lemma SoleCallThreatIff(s: State, e: Event)
    requires Company.Valid(s) && NoThreat(s)
    requires e.RegisterRow? || e.EmitInvoice? || e.AskAnnulment?
    ensures AnnulGuard(s, e) <==> NoThreat(Step(s, e))
  {
    hide NoThreat, Company.Valid, Emit, RequestAnnulment;
    match e {
      case RegisterRow(t, first, last, expiresAt) => RegistrationKeepsNoThreat(s, e);
      case EmitInvoice(q) => EmissionThreatIff(s, q);
      case AskAnnulment(id, texts) => AskThreatIff(s, id, texts);
    }
  }

  lemma RegistrationKeepsNoThreat(s: State, e: Event)
    requires NoThreat(s) && e.RegisterRow?
    ensures NoThreat(Step(s, e))
  {
    SameAccepted(Presumed(s), Presumed(Step(s, e)));
  }

  // ----- what a reserved number means -----

  predicate OnlyAnswers(es: seq<Event>) {
    forall i :: 0 <= i < |es| ==> es[i].SettleAnnulment?
  }

  lemma {:induction false} AnswersKeepNoThreat(s: State, es: seq<Event>, k: nat)
    requires NoThreat(s) && OnlyAnswers(es) && k <= |es|
    ensures NoThreat(At(s, es, k))
  {
    hide NoThreat, Settle;
    if k > 0 {
      AnswersKeepNoThreat(s, es, k - 1);
      AnswerKeepsNoThreat(At(s, es, k - 1), es[k - 1].id, es[k - 1].verdict);
    }
  }

  /** One answer turns a live invoice on a reserved number into one on an annulled one. */
  lemma ThreatBecomesConflict(s: State) returns (es: seq<Event>)
    requires Company.Valid(s) && !NoThreat(s)
    ensures OnlyAnswers(es) && !NoConflict(At(s, es, |es|))
  {
    hide Company.Valid, Settle, Hits;
    var j :| 0 <= j < |s.ledger.invoices| && Standing(s.ledger.invoices[j].status) && Annulled(Presume(s.annulments), s.ledger.invoices[j]);
    var inv := s.ledger.invoices[j];
    var n: nat :| inv.encf == FormatEncf(inv.ecfType, n) && AcceptedNumber(Presume(s.annulments), inv.ecfType, n);
    var i :| AcceptedOn(Presume(s.annulments), inv.ecfType, i, n);
    var id :| id in s.annulments && Presume(s.annulments)[id].status == AnnulAccepted && Hits(s.annulments[id].draft, inv.ecfType, i, n);
    if s.annulments[id].inFlight {
      es := [SettleAnnulment(id, DgiiAccepted)];
      RunUnfolds(s, es, 0);
      AcceptedAfter(s, id, inv.ecfType, i, n);
      SettledInvoices(s, id);
      assert AcceptedNumber(Settle(s, id, DgiiAccepted).annulments, inv.ecfType, n);
      assert Annulled(Settle(s, id, DgiiAccepted).annulments, inv);
    } else {
      es := [];
      assert AcceptedOn(s.annulments, inv.ecfType, i, n);
      assert Annulled(s.annulments, inv);
    }
  }

  lemma SettledInvoices(s: State, id: nat)
    ensures Settle(s, id, DgiiAccepted).ledger == s.ledger
  {}

  /** A state is free of the threat exactly when no answers to the requests in flight
      lead to a live invoice whose number is annulled. */
  lemma NoThreatIff(s: State)
    requires Company.Valid(s)
    ensures NoThreat(s) <==> forall es :: OnlyAnswers(es) ==> NoConflict(At(s, es, |es|))
  {
    hide NoThreat, NoConflict, Company.Valid;
    if NoThreat(s) {
      forall es | OnlyAnswers(es)
        ensures NoConflict(At(s, es, |es|))
      {
        AnswersKeepNoThreat(s, es, |es|);
        NoThreatNoConflict(At(s, es, |es|));
      }
    } else {
      var es := ThreatBecomesConflict(s);
    }
  }

  /** In terms of what DGII may answer: a call passes its check exactly when no
      answer to it, followed by any answers to the requests in flight, leads to a live
      invoice whose number is annulled. */
  lemma NoAnswerConflictsIff(s: State, e: Event)
    requires Company.Valid(s) && NoThreat(s)
    ensures AnnulGuard(s, e) <==> forall f, es :: SameCall(e, f) && OnlyAnswers(es) ==> NoConflict(At(Step(s, f), es, |es|))
  {
    hide Company.Valid, NoThreat, NoConflict, AnnulGuard, Step, SameCall;
    NoAnswerThreatensIff(s, e);
    if AnnulGuard(s, e) {
      forall f, es | SameCall(e, f) && OnlyAnswers(es)
        ensures NoConflict(At(Step(s, f), es, |es|))
      {
        StepKeeps(s, f);
        NoThreatIff(Step(s, f));
      }
    } else {
      var f :| SameCall(e, f) && !NoThreat(Step(s, f));
      StepKeeps(s, f);
      NoThreatIff(Step(s, f));
    }
  }

  // ----- runs -----

  ghost predicate AlwaysAnnulGuard(s0: State, es: seq<Event>, k: nat)
    requires k <= |es|
  {
    k > 0 ==> AnnulGuard(At(s0, es, k - 1), es[k - 1]) && AlwaysAnnulGuard(s0, es, k - 1)
  }

  /** With the checks before every call no run, whatever DGII answers and whenever,
      ever has a live invoice whose number is annulled. */
  lemma {:induction false} GuardedRunsHaveNoConflict(s0: State, es: seq<Event>, k: nat)
    requires IsInit(s0) && k <= |es| && AlwaysAnnulGuard(s0, es, k)
    ensures NoThreat(At(s0, es, k)) && NoConflict(At(s0, es, k))
  {
    hide Step, AnnulGuard, NoThreat, NoConflict;
    if k > 0 {
      GuardedRunsHaveNoConflict(s0, es, k - 1);
      RunKeepsValid(s0, es, k - 1);
      NoAnswerThreatensIff(At(s0, es, k - 1), es[k - 1]);
      CallIsItsOwn(es[k - 1]);
    } else {
      EmptyIsSafe(s0);
    }
    NoThreatNoConflict(At(s0, es, k));
  }

  lemma CallIsItsOwn(e: Event)
    ensures SameCall(e, e)
  {}

  lemma EmptyIsSafe(s: State)
    requires IsInit(s)
    ensures NoThreat(s)
  {}

  // ----- issued while the request is away -----

  const ISSUED_IN_FLIGHT: seq<Event> := [
    RegisterRow(E31, 1, 5, None),
    AskAnnulment(0, [Text(1, 1)]),
    EmitInvoice(PLAIN),
    SettleAnnulment(0, DgiiAccepted)]

  lemma AskedInFlight()
    ensures var s := At(Init(3, 0), ISSUED_IN_FLIGHT, 2);
            && s.rows == [Row(E31, 1, 0, 5, None, true)] && s.ledger == Init(3, 0).ledger
            && 0 in s.annulments && s.annulments[0].inFlight
            && s.annulments[0].draft == Draft([NumRange(E31, 1, 1)], map[E31 := SimState(0, 1, 5, 1, true, true)])
  {
    hide At, RequestAnnulment, Emit, Settle;
    var s0, es := Init(3, 0), ISSUED_IN_FLIGHT;
    var row := Row(E31, 1, 0, 5, None, true);
    RunUnfolds(s0, es, 0);
    var s1 := At(s0, es, 1);
    assert s1 == AddRow(s0, row);
    RunUnfolds(s0, es, 1);
    RequestOne(s1, 0, row, 1, 1);
  }

  lemma IssuedInFlightRun()
    ensures At(Init(3, 0), ISSUED_IN_FLIGHT, 4) == Settle(At(Init(3, 0), ISSUED_IN_FLIGHT, 3), 0, DgiiAccepted)
    ensures var s := At(Init(3, 0), ISSUED_IN_FLIGHT, 3);
            && 0 in s.annulments && s.annulments[0].inFlight
            && s.annulments[0].draft == Draft([NumRange(E31, 1, 1)], map[E31 := SimState(0, 1, 5, 1, true, true)])
            && s.ledger.invoices == [NewInvoice(PLAIN, 1)]
  {
    hide At, RequestAnnulment, Emit, Settle;
    var s0, es := Init(3, 0), ISSUED_IN_FLIGHT;
    AskedInFlight();
    RunUnfolds(s0, es, 2);
    RunUnfolds(s0, es, 3);
    PlainEmission(At(s0, es, 2), Row(E31, 1, 0, 5, None, true));
  }

  /** A number handed out while its annulment is in flight: the answer alone makes the
      conflict, so the check has to come before the emission. */
  lemma IssuedInFlight()
    ensures !NoThreat(At(Init(3, 0), ISSUED_IN_FLIGHT, 3)) && !NoConflict(At(Init(3, 0), ISSUED_IN_FLIGHT, 4))
  {
    hide At;
    var s, after := At(Init(3, 0), ISSUED_IN_FLIGHT, 3), At(Init(3, 0), ISSUED_IN_FLIGHT, 4);
    IssuedInFlightRun();
    assert Covers(after.annulments[0].draft.ranges[0], E31, 1);
    assert Hits(after.annulments[0].draft, E31, 0, 1);
    assert AcceptedOn(after.annulments, E31, 0, 1);
    assert Annulled(after.annulments, after.ledger.invoices[0]);
    if NoThreat(s) {
      AnswerKeepsNoThreat(s, 0, DgiiAccepted);
      NoThreatNoConflict(after);
    }
  }
}
