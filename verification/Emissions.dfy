/** What an emission stores and why it is refused, and the runs that follow from the
    request itself: every invoice is one that was asked for. */
module Emissions {
  import opened EcfTypes
  import opened Encf
  import opened Sequences
  import opened Pipeline
  import opened Company
  import opened CompanyInvariant
  import opened PipelineRuns
  import Usage

  // ----- one request -----

  /** The columns of an invoice that come from its request and never change. */
  ghost predicate AskedBy(inv: Invoice, q: EmitRequest) {
    && inv.ecfType == q.ecfType
    && inv.referenceEncf == q.referenceEncf
    && inv.isRfce == q.isRfce
    && inv.idempotencyKey == q.idempotencyKey
    && inv.createdAt == q.now
    && inv.hasXml
  }

  /** A request that is carried out adds one queued invoice with everything that was
      asked, at the next number of the active row, charges one unit and moves that
      row by one; nothing else changes. */
  lemma EmissionStores(s: State, q: EmitRequest)
    requires Company.Valid(s) && Emit(s, q).1.Created?
    ensures Emit(s, q).1 == Created(|s.ledger.invoices|)
    ensures var l, inv := Emit(s, q).0.ledger, Emit(s, q).0.ledger.invoices[|s.ledger.invoices|];
            && l.invoices == s.ledger.invoices + [inv] && l.polls == s.ledger.polls
            && AskedBy(inv, q) && inv.status == QUEUED && inv.trackId == None && !inv.usageReverted
            && l.meter.Used() == s.ledger.meter.Used() + 1 && l.meter.totalQuota == s.ledger.meter.totalQuota
    ensures var s' := Emit(s, q).0;
            && s'.annulments == s.annulments && |s'.rows| == |s.rows|
            && exists i :: 0 <= i < |s.rows|
                 && s.rows[i].ecfType == q.ecfType && s.rows[i].isActive
                 && s'.ledger.invoices[|s.ledger.invoices|].encf == FormatEncf(q.ecfType, NextNumber(s.rows[i]))
                 && NextNumber(s.rows[i]) == s.rows[i].currentNumber + 1 == s'.rows[i].currentNumber <= s.rows[i].endNumber
                 && s'.rows == s.rows[i := s.rows[i].(currentNumber := s'.rows[i].currentNumber)]
  {
    EmitIsEmitted(s, q);
    Usage.ConsumeKeepsValid(s.ledger.meter);
    var i := Assign(s.rows, q.ecfType, q.now).value;
    assert RowOk(s.rows[i], s.authorized[i]);
  }

  /** The active row of the type that would serve the request. */
  ghost predicate Serves(s: State, q: EmitRequest, i: nat) {
    && i < |s.rows| && s.rows[i].ecfType == q.ecfType && s.rows[i].Assignable(s.rows[i].currentNumber + 1)
    && (s.rows[i].expiresAt.Some? ==> q.now <= s.rows[i].expiresAt.value)
  }

  ghost predicate KeyKnown(s: State, q: EmitRequest) {
    q.idempotencyKey.Some? && exists j :: 0 <= j < |s.ledger.invoices| && s.ledger.invoices[j].idempotencyKey == q.idempotencyKey
  }

  /** With a row to serve it and a new key: the document, the number, the lines and the
      quota are looked at in this order. */
  lemma ServedOutcome(s: State, q: EmitRequest, i: nat)
    requires Company.Valid(s) && !KeyKnown(s, q) && Serves(s, q, i)
    ensures Emit(s, q).1 == if q.xmlFails then Refused(XmlError)
                            else if HasInvoice(s.ledger.invoices, q.ecfType, NextNumber(s.rows[i])) then Refused(DuplicateEncf)
                            else if q.linesFail then Refused(LinesError)
                            else if s.ledger.meter.Used() >= s.ledger.meter.totalQuota then Refused(QuotaError)
                            else Created(|s.ledger.invoices|)
  {
    hide AllocValid, Pipeline.Valid;
    AllocServes(s, q, i);
    MeterServes(s);
    TakenIff(s, q, i);
  }

  lemma AllocServes(s: State, q: EmitRequest, i: nat)
    requires AllocValid(s) && Serves(s, q, i)
    ensures Assign(s.rows, q.ecfType, q.now) == Ok(i)
  {
    ActiveIsFound(s.rows, i);
  }

  lemma MeterServes(s: State)
    requires Pipeline.Valid(s.ledger)
    ensures Usage.Consume(s.ledger.meter).1 == Usage.QuotaExceeded <==> s.ledger.meter.Used() >= s.ledger.meter.totalQuota
  {
    Usage.ConsumeKeepsValid(s.ledger.meter);
  }

  lemma UnservedOutcome(s: State, q: EmitRequest)
    requires Company.Valid(s) && !KeyKnown(s, q) && !exists i: nat :: Serves(s, q, i)
    ensures Assign(s.rows, q.ecfType, q.now).Err? && Emit(s, q).1 == Refused(NoNumber(Assign(s.rows, q.ecfType, q.now).error))
  {
    AssignedServes(s, q);
  }

  lemma AssignedServes(s: State, q: EmitRequest)
    ensures Assign(s.rows, q.ecfType, q.now).Ok? ==> Serves(s, q, Assign(s.rows, q.ecfType, q.now).value)
  {}

  lemma KnownOutcome(s: State, q: EmitRequest)
    ensures Emit(s, q).1.Existing? <==> KeyKnown(s, q)
    ensures Emit(s, q).1.Existing? ==> var j := Emit(s, q).1.index;
              j < |s.ledger.invoices| && s.ledger.invoices[j].idempotencyKey == q.idempotencyKey
    ensures !Emit(s, q).1.Created? ==> Emit(s, q).0 == s
  {}

  /** A request is carried out exactly when its key is new, a row serves it, the
      document and its lines can be written, its number has no invoice and the quota
      has room; otherwise nothing changes, and an existing invoice is returned exactly
      for a known key. */
  lemma EmissionSucceedsIff(s: State, q: EmitRequest)
    requires Company.Valid(s)
    ensures Emit(s, q).1.Created?
            <==> && !KeyKnown(s, q) && !q.xmlFails && !q.linesFail
                 && s.ledger.meter.Used() < s.ledger.meter.totalQuota
                 && exists i: nat :: Serves(s, q, i) && !HasInvoice(s.ledger.invoices, q.ecfType, NextNumber(s.rows[i]))
    ensures Emit(s, q).1.Existing? <==> KeyKnown(s, q)
    ensures Emit(s, q).1.Existing? ==> var j := Emit(s, q).1.index;
              j < |s.ledger.invoices| && s.ledger.invoices[j].idempotencyKey == q.idempotencyKey
    ensures !Emit(s, q).1.Created? ==> Emit(s, q).0 == s
  {
    hide Emit, Company.Valid, KeyKnown, HasInvoice, Serves;
    KnownOutcome(s, q);
    if !KeyKnown(s, q) {
      if i: nat :| Serves(s, q, i) {
        ServedOutcome(s, q, i);
        forall k: nat | Serves(s, q, k) ensures k == i {
          AllocServes(s, q, k) by { AllocPart(s); }
          AllocServes(s, q, i) by { AllocPart(s); }
        }
      } else {
        UnservedOutcome(s, q);
      }
    }
  }

  /** Which refusal: no number before the document, the document before a number that
      is taken, that before the lines, and the quota last. */
  lemma RefusalReason(s: State, q: EmitRequest)
    requires Company.Valid(s) && Emit(s, q).1.Refused?
    ensures match Emit(s, q).1.reason
            case NoNumber(e) => Assign(s.rows, q.ecfType, q.now) == Err(e) && !exists i: nat :: Serves(s, q, i)
            case XmlError => q.xmlFails && exists i: nat :: Serves(s, q, i)
            case DuplicateEncf => !q.xmlFails && exists i: nat :: Serves(s, q, i) && HasInvoice(s.ledger.invoices, q.ecfType, NextNumber(s.rows[i]))
            case LinesError => !q.xmlFails && q.linesFail && exists i: nat :: Serves(s, q, i) && !HasInvoice(s.ledger.invoices, q.ecfType, NextNumber(s.rows[i]))
            case QuotaError => !q.xmlFails && !q.linesFail && s.ledger.meter.Used() >= s.ledger.meter.totalQuota
  {
    hide Emit, Company.Valid, KeyKnown, HasInvoice, Serves;
    KnownOutcome(s, q);
    if i: nat :| Serves(s, q, i) {
      ServedOutcome(s, q, i);
    } else {
      UnservedOutcome(s, q);
    }
  }

  lemma TakenIff(s: State, q: EmitRequest, i: nat)
    requires AllocValid(s) && Serves(s, q, i)
    ensures EncfTaken(s.ledger.invoices, NewInvoice(q, NextNumber(s.rows[i])))
            <==> HasInvoice(s.ledger.invoices, q.ecfType, NextNumber(s.rows[i]))
  {
    assert RowOk(s.rows[i], s.authorized[i]);
    var inv := NewInvoice(q, NextNumber(s.rows[i]));
    if !EncfTaken(s.ledger.invoices, inv) {
      NewEncfIsFresh(s, inv, NextNumber(s.rows[i]));
    }
  }

  // ----- runs -----

  /** Event `m` is the request that created invoice `i`. */
  ghost predicate CreatedAt(s0: State, es: seq<Event>, m: nat, i: nat)
    requires m < |es|
  {
    es[m].EmitInvoice? && Emit(At(s0, es, m), es[m].request).1 == Created(i)
  }

  lemma OnlyEmissionAdds(s: State, e: Event, i: nat)
    requires Company.Valid(s) && |s.ledger.invoices| <= i < |Step(s, e).ledger.invoices|
    ensures e.EmitInvoice? && Emit(s, e.request).1 == Created(i) && AskedBy(Step(s, e).ledger.invoices[i], e.request)
  {
    if e.EmitInvoice? {
      if Emit(s, e.request).1.Created? {
        EmissionStores(s, e.request);
      }
    } else if !(e.RegisterRow? || e.AskAnnulment? || e.SettleAnnulment?) {
      StepLedgerKeeps(s.ledger, e);
    }
  }

  /** In every run each invoice was created by a request, and its type, reference, RFCE
      mark, key and time of creation are those of that request for good. */
  lemma {:induction false} EveryInvoiceWasAskedFor(s0: State, es: seq<Event>, k: nat, i: nat)
    requires IsInit(s0) && k <= |es| && i < |At(s0, es, k).ledger.invoices|
    ensures exists m :: 0 <= m < k && CreatedAt(s0, es, m, i) && AskedBy(At(s0, es, k).ledger.invoices[i], es[m].request)
  {
    hide Step, Emit;
    if k > 0 {
      var before := At(s0, es, k - 1);
      RunKeepsValid(s0, es, k - 1);
      if i < |before.ledger.invoices| {
        EveryInvoiceWasAskedFor(s0, es, k - 1, i);
        RunKeepsRows(s0, es, k);
        assert RowKept(before.ledger.invoices[i], At(s0, es, k).ledger.invoices[i]);
      } else {
        OnlyEmissionAdds(before, es[k - 1], i);
        assert CreatedAt(s0, es, k - 1, i);
      }
    }
  }

  /** From the request on: the invoice keeps what was asked, in every later state. */
  lemma {:induction false} RequestIsKept(s0: State, es: seq<Event>, m: nat, k: nat, i: nat)
    requires IsInit(s0) && m < k <= |es| && CreatedAt(s0, es, m, i)
    ensures i < |At(s0, es, k).ledger.invoices| && AskedBy(At(s0, es, k).ledger.invoices[i], es[m].request)
    decreases k
  {
    hide Step, Emit;
    RunKeepsValid(s0, es, k - 1);
    if m == k - 1 {
      EmissionStep(s0, es, m, i);
    } else {
      RequestIsKept(s0, es, m, k - 1, i);
      RunKeepsRows(s0, es, k);
      assert RowKept(At(s0, es, k - 1).ledger.invoices[i], At(s0, es, k).ledger.invoices[i]);
    }
  }

  lemma EmissionStep(s0: State, es: seq<Event>, m: nat, i: nat)
    requires IsInit(s0) && m < |es| && CreatedAt(s0, es, m, i)
    ensures i < |At(s0, es, m + 1).ledger.invoices| && AskedBy(At(s0, es, m + 1).ledger.invoices[i], es[m].request)
  {
    hide Emit;
    RunKeepsValid(s0, es, m);
    EmissionStores(At(s0, es, m), es[m].request);
  }

  /** A note asked for with a reference: every status but QUEUED, and every submission,
      comes after a state in which that very reference was ACCEPTED. */
  lemma {:induction false} NoteWaitsForItsReference(s0: State, es: seq<Event>, m: nat, k: nat, i: nat)
    requires IsInit(s0) && m < k <= |es| && CreatedAt(s0, es, m, i) && es[m].request.referenceEncf.Some?
    ensures i < |At(s0, es, k).ledger.invoices|
    ensures At(s0, es, k).ledger.invoices[i].status != QUEUED ==> AcceptedBy(s0, es, k, es[m].request.referenceEncf.value)
    ensures k < |es| && Submits(At(s0, es, k), es[k], i) ==> AcceptedBy(s0, es, k, es[m].request.referenceEncf.value)
  {
    hide Step, Emit, Submits;
    RequestIsKept(s0, es, m, k, i);
    if At(s0, es, k).ledger.invoices[i].status != QUEUED {
      NotQueuedMeansGatePassed(s0, es, k, i);
    }
    if k < |es| && Submits(At(s0, es, k), es[k], i) {
      SubmissionFollowsAcceptance(s0, es, k, i);
    }
  }

  /** Repeating a request with its key returns the invoice it created, in every later
      state, and changes nothing. */
  lemma {:induction false} RepeatedKeyReturnsItsInvoice(s0: State, es: seq<Event>, m: nat, k: nat, i: nat, q: EmitRequest)
    requires IsInit(s0) && m < k <= |es| && CreatedAt(s0, es, m, i)
    requires q.idempotencyKey.Some? && q.idempotencyKey == es[m].request.idempotencyKey
    ensures Emit(At(s0, es, k), q) == (At(s0, es, k), Existing(i))
  {
    hide Step;
    var s := At(s0, es, k);
    RunKeepsValid(s0, es, k);
    RequestIsKept(s0, es, m, k, i);
    KeyFindsOne(s, q, i);
  }

  lemma KeyFindsOne(s: State, q: EmitRequest, i: nat)
    requires AllocValid(s) && i < |s.ledger.invoices|
    requires q.idempotencyKey.Some? && s.ledger.invoices[i].idempotencyKey == q.idempotencyKey
    ensures Emit(s, q) == (s, Existing(i))
  {
    var found := FindByKey(s.ledger.invoices, q.idempotencyKey.value);
    assert found.Some?;
    assert found.value == i;
  }
}
