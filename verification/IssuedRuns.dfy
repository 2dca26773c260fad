/** When an emission finds its number taken: the exact condition on runs, with
    annulments of any overlap in flight, for numbers that were issued before. */
module IssuedRuns {
  import opened EcfTypes
  import opened Encf
  import opened Sequences
  import opened Pipeline
  import opened Company
  import opened CompanyInvariant
  import Usage

  /** No number that a row can still hand out has an invoice. */
  ghost predicate Fresh(s: State) {
    forall i, n: nat :: 0 <= i < |s.rows| && s.rows[i].Assignable(n)
      ==> !HasInvoice(s.ledger.invoices, s.rows[i].ecfType, n)
  }

  /** The check that registration does not make: the range covers no issued number. */
  ghost predicate IssuedGuard(s: State, e: Event) {
    e.RegisterRow? && Register(s.rows, e.ecfType, e.first, e.last, e.expiresAt).Ok? ==>
      forall n: nat :: e.first <= n <= e.last ==> !HasInvoice(s.ledger.invoices, e.ecfType, n)
  }

  /** An active row has no invoice beyond its counter, even where an annulment has
      cut its end and another may write the old end back. */
  ghost predicate Unissued(s: State) {
    && |s.rows| == |s.authorized|
    && forall i, n: nat :: 0 <= i < |s.rows| && s.rows[i].isActive && s.rows[i].currentNumber < n <= s.authorized[i]
         ==> !HasInvoice(s.ledger.invoices, s.rows[i].ecfType, n)
  }

  // ----- the guard keeps numbers unissued -----

  /** An emission adds an invoice at the next number of its row and at no other. */
  lemma OnlyNextIsAdded(s: State, q: EmitRequest, t: EcfType, n: nat)
    requires AllocValid(s) && Emit(s, q).1.Created?
    requires 0 < n <= INT_MAX && HasInvoice(Emit(s, q).0.ledger.invoices, t, n)
    ensures var row := s.rows[Assign(s.rows, q.ecfType, q.now).value];
            HasInvoice(s.ledger.invoices, t, n) || (t == q.ecfType && n == row.currentNumber + 1)
  {
    var i := Assign(s.rows, q.ecfType, q.now).value;
    var invoices := Emit(s, q).0.ledger.invoices;
    EmitIsEmitted(s, q);
    assert RowOk(s.rows[i], s.authorized[i]);
    TenDigits();
    FormatInjective(t, n, q.ecfType, s.rows[i].currentNumber + 1);
    var k :| 0 <= k < |invoices| && invoices[k].encf == FormatEncf(t, n);
    if k < |s.ledger.invoices| {
      assert s.ledger.invoices[k] == invoices[k];
    }
  }

  lemma EmitKeepsUnissued(s: State, q: EmitRequest)
    requires AllocValid(s) && Unissued(s)
    ensures Unissued(Emit(s, q).0)
  {
    if Emit(s, q).1.Created? {
      var s' := Emit(s, q).0;
      EmitIsEmitted(s, q);
      forall j, n: nat | 0 <= j < |s'.rows| && s'.rows[j].isActive && s'.rows[j].currentNumber < n <= s'.authorized[j]
        ensures !HasInvoice(s'.ledger.invoices, s'.rows[j].ecfType, n)
      {
        assert RowOk(s.rows[j], s.authorized[j]);
        if HasInvoice(s'.ledger.invoices, s'.rows[j].ecfType, n) {
          OnlyNextIsAdded(s, q, s'.rows[j].ecfType, n);
        }
      }
    }
  }

  lemma SettleKeepsUnissued(s: State, id: nat, v: Verdict)
    requires AllocValid(s) && Unissued(s)
    ensures Unissued(Settle(s, id, v))
  {
    if id in s.annulments && s.annulments[id].inFlight && v == DgiiAccepted {
      forall i | 0 <= i < |s.rows|
        ensures var row, after := s.rows[i], Settle(s, id, v).rows[i];
                after.ecfType == row.ecfType && row.currentNumber <= after.currentNumber && (after.isActive ==> row.isActive)
      {
        AcceptRow(s, id, i);
      }
    }
  }

  lemma LedgerKeepsUnissued(s: State, l: Ledger)
    requires Unissued(s) && |l.invoices| == |s.ledger.invoices|
    requires forall j :: 0 <= j < |l.invoices| ==> RowKept(s.ledger.invoices[j], l.invoices[j])
    ensures Unissued(s.(ledger := l))
  {
    forall t, n: nat | HasInvoice(l.invoices, t, n)
      ensures HasInvoice(s.ledger.invoices, t, n)
    {
      var j :| 0 <= j < |l.invoices| && l.invoices[j].encf == FormatEncf(t, n);
      assert RowKept(s.ledger.invoices[j], l.invoices[j]);
    }
  }

  lemma UnissuedStep(s: State, e: Event)
    requires Company.Valid(s) && Unissued(s) && IssuedGuard(s, e)
    ensures Unissued(Step(s, e))
  {
    match e {
      case RegisterRow(t, first, last, expiresAt) =>
      case EmitInvoice(q) => EmitKeepsUnissued(s, q);
      case AskAnnulment(id, texts) =>
      case SettleAnnulment(id, v) => SettleKeepsUnissued(s, id, v);
      case _ =>
        StepLedgerKeeps(s.ledger, e);
        LedgerKeepsUnissued(s, StepLedger(s.ledger, e));
    }
  }

  lemma UnissuedIsFresh(s: State)
    requires AllocValid(s) && Unissued(s)
    ensures Fresh(s)
  {
    forall i, n: nat | 0 <= i < |s.rows| && s.rows[i].Assignable(n)
      ensures !HasInvoice(s.ledger.invoices, s.rows[i].ecfType, n)
    {
      assert RowOk(s.rows[i], s.authorized[i]);
    }
  }

  /** A registration that covers an issued number is stale at once. */
  lemma UnguardedIsStale(s: State, e: Event)
    requires !IssuedGuard(s, e)
    ensures !Fresh(Step(s, e))
  {
    var s' := AddRow(s, Register(s.rows, e.ecfType, e.first, e.last, e.expiresAt).value);
    assert Step(s, e) == s';
    var n: nat :| e.first <= n <= e.last && HasInvoice(s.ledger.invoices, e.ecfType, n);
    assert s'.rows[|s.rows|].Assignable(n);
  }

  ghost predicate AlwaysFresh(s0: State, es: seq<Event>, k: nat)
    requires k <= |es|
  {
    Fresh(At(s0, es, k)) && (k > 0 ==> AlwaysFresh(s0, es, k - 1))
  }

  ghost predicate AlwaysIssuedGuard(s0: State, es: seq<Event>, k: nat)
    requires k <= |es|
  {
    k > 0 ==> IssuedGuard(At(s0, es, k - 1), es[k - 1]) && AlwaysIssuedGuard(s0, es, k - 1)
  }

  lemma {:induction false} GuardedRunsStayUnissued(s0: State, es: seq<Event>, k: nat)
    requires IsInit(s0) && k <= |es| && AlwaysIssuedGuard(s0, es, k)
    ensures Unissued(At(s0, es, k))
  {
    hide Step;
    if k > 0 {
      GuardedRunsStayUnissued(s0, es, k - 1);
      RunKeepsValid(s0, es, k - 1);
      UnissuedStep(At(s0, es, k - 1), es[k - 1]);
    }
  }

  /** Whatever annulments overlap: in no state of the run does a row still have an
      issued number to hand out, exactly when no registration covered one. */
  lemma {:induction false} IssuedNumbersStayOutIff(s0: State, es: seq<Event>, k: nat)
    requires IsInit(s0) && k <= |es|
    ensures AlwaysFresh(s0, es, k) <==> AlwaysIssuedGuard(s0, es, k)
  {
    hide Step;
    if AlwaysIssuedGuard(s0, es, k) {
      GuardedRunsStayUnissued(s0, es, k);
      RunKeepsValid(s0, es, k);
      UnissuedIsFresh(At(s0, es, k));
    }
    if k > 0 {
      IssuedNumbersStayOutIff(s0, es, k - 1);
      if !IssuedGuard(At(s0, es, k - 1), es[k - 1]) {
        UnguardedIsStale(At(s0, es, k - 1), es[k - 1]);
      }
    }
  }

  // ----- what a stale state means for emissions -----

  lemma FreshIsNeverTaken(s: State, q: EmitRequest)
    requires AllocValid(s) && Fresh(s)
    ensures Emit(s, q).1 != Refused(DuplicateEncf)
  {
    if Assign(s.rows, q.ecfType, q.now).Ok? {
      var i := Assign(s.rows, q.ecfType, q.now).value;
      assert RowOk(s.rows[i], s.authorized[i]);
      assert !HasInvoice(s.ledger.invoices, q.ecfType, s.rows[i].currentNumber + 1);
    }
  }

  predicate OnlyEmissions(es: seq<Event>) {
    forall i :: 0 <= i < |es| ==> es[i].EmitInvoice? || es[i].PurchaseTopup?
  }

  lemma {:induction false} AtPrepend(s: State, e: Event, es: seq<Event>, k: nat)
    requires k <= |es|
    ensures At(s, [e] + es, k + 1) == At(Step(s, e), es, k)
  {
    hide Step;
    if k > 0 {
      AtPrepend(s, e, es, k - 1);
    } else {
      assert At(s, [e] + es, 0) == s;
    }
  }

  /** The request that takes the next number of a row. */
  function RequestFrom(row: Row): EmitRequest {
    EmitRequest(row.ecfType, None, false, None, if row.expiresAt.Some? then row.expiresAt.value else 0, false, false)
  }

  lemma NextIsTaken(s: State, i: nat)
    requires AllocValid(s) && i < |s.rows| && s.rows[i].Assignable(s.rows[i].currentNumber + 1)
    requires HasInvoice(s.ledger.invoices, s.rows[i].ecfType, NextNumber(s.rows[i]))
    ensures Emit(s, RequestFrom(s.rows[i])).1 == Refused(DuplicateEncf)
  {
    var row := s.rows[i];
    var inv := NewInvoice(RequestFrom(row), NextNumber(row));
    ActiveIsFound(s.rows, i);
    assert RowOk(row, s.authorized[i]);
    if !EncfTaken(s.ledger.invoices, inv) {
      NewEncfIsFresh(s, inv, NextNumber(row));
    }
  }

  lemma NextIsIssued(s: State, i: nat)
    requires AllocValid(s) && i < |s.rows| && s.rows[i].Assignable(s.rows[i].currentNumber + 1)
    requires !HasInvoice(s.ledger.invoices, s.rows[i].ecfType, NextNumber(s.rows[i]))
    requires Usage.Consume(s.ledger.meter).1 != Usage.QuotaExceeded
    ensures var s' := Emit(s, RequestFrom(s.rows[i])).0;
            && s'.rows == s.rows[i := s.rows[i].(currentNumber := s.rows[i].currentNumber + 1)]
            && s.ledger.invoices <= s'.ledger.invoices
  {
    var row, q := s.rows[i], RequestFrom(s.rows[i]);
    ActiveIsFound(s.rows, i);
    assert RowOk(row, s.authorized[i]);
    assert !EncfTaken(s.ledger.invoices, NewInvoice(q, NextNumber(row)));
  }

  /** With one more invoice bought, the next number is handed out. */
  lemma BuyAndIssue(s: State, i: nat) returns (s': State)
    requires Company.Valid(s) && i < |s.rows| && s.rows[i].Assignable(s.rows[i].currentNumber + 1)
    requires !HasInvoice(s.ledger.invoices, s.rows[i].ecfType, NextNumber(s.rows[i]))
    ensures s' == Step(Step(s, PurchaseTopup(1)), EmitInvoice(RequestFrom(s.rows[i])))
    ensures Company.Valid(s')
    ensures s'.rows == s.rows[i := s.rows[i].(currentNumber := s.rows[i].currentNumber + 1)]
    ensures s.ledger.invoices <= s'.ledger.invoices
  {
    hide Step, Emit, Company.Valid, AllocValid;
    var q := RequestFrom(s.rows[i]);
    var bought := BuyOne(s);
    NextIsIssued(bought, i);
    s' := Step(bought, EmitInvoice(q));
    StepKeeps(bought, EmitInvoice(q));
    EmitStep(bought, q);
  }

  lemma BuyOne(s: State) returns (s': State)
    requires Company.Valid(s)
    ensures s' == Step(s, PurchaseTopup(1)) && Company.Valid(s') && AllocValid(s')
    ensures s'.rows == s.rows && s'.authorized == s.authorized && s'.ledger.invoices == s.ledger.invoices
    ensures Usage.Consume(s'.ledger.meter).1 != Usage.QuotaExceeded
  {
    hide Company.Valid, AllocValid, Usage.Valid, Usage.Consume;
    s' := s.(ledger := s.ledger.(meter := Usage.Purchase(s.ledger.meter, 1)));
    StepKeeps(s, PurchaseTopup(1));
    AllocPart(s');
    MeterPart(s);
    PurchaseMakesRoom(s.ledger.meter);
  }

  lemma MeterPart(s: State)
    requires Company.Valid(s)
    ensures Usage.Valid(s.ledger.meter) && s.ledger.meter.status != Usage.EXPIRED
  {}

  lemma PurchaseMakesRoom(m: Usage.Meter)
    requires Usage.Valid(m) && m.status != Usage.EXPIRED
    ensures Usage.Consume(Usage.Purchase(m, 1)).1 != Usage.QuotaExceeded
  {
    Usage.PurchaseKeepsValid(m, 1);
    Usage.ConsumeKeepsValid(Usage.Purchase(m, 1));
  }

  /** From a stale state emissions, with invoices bought as needed, run into the
      issued number. */
  lemma {:induction false} StaleReachesDuplicate(s: State, i: nat, n: nat) returns (es: seq<Event>, q: EmitRequest)
    requires Company.Valid(s) && i < |s.rows| && s.rows[i].Assignable(n)
    requires HasInvoice(s.ledger.invoices, s.rows[i].ecfType, n)
    ensures OnlyEmissions(es) && Emit(At(s, es, |es|), q).1 == Refused(DuplicateEncf)
    decreases n - s.rows[i].currentNumber
  {
    hide Step, Company.Valid, AllocValid, Emit, HasInvoice;
    AllocPart(s);
    NextIsNatural(s, i);
    if HasInvoice(s.ledger.invoices, s.rows[i].ecfType, NextNumber(s.rows[i])) {
      es, q := [], RequestFrom(s.rows[i]);
      NextIsTaken(s, i);
    } else {
      var buy, emit := PurchaseTopup(1), EmitInvoice(RequestFrom(s.rows[i]));
      var s' := BuyAndIssue(s, i);
      InvoiceStays(s.ledger.invoices, s'.ledger.invoices, s.rows[i].ecfType, n);
      var rest;
      rest, q := StaleReachesDuplicate(s', i, n);
      es := PrependTwo(s, buy, emit, rest);
    }
  }

  lemma NextIsNatural(s: State, i: nat)
    requires AllocValid(s) && i < |s.rows|
    ensures NextNumber(s.rows[i]) == s.rows[i].currentNumber + 1
  {
    assert RowOk(s.rows[i], s.authorized[i]);
  }

  lemma PrependTwo(s: State, e: Event, f: Event, rest: seq<Event>) returns (es: seq<Event>)
    ensures es == [e] + ([f] + rest)
    ensures At(s, es, |es|) == At(Step(Step(s, e), f), rest, |rest|)
  {
    hide Step;
    es := [e] + ([f] + rest);
    AtPrepend(Step(s, e), f, rest, |rest|);
    AtPrepend(s, e, [f] + rest, |[f] + rest|);
  }

  lemma InvoiceStays(before: seq<Invoice>, after: seq<Invoice>, t: EcfType, n: nat)
    requires before <= after && HasInvoice(before, t, n)
    ensures HasInvoice(after, t, n)
  {
    var j :| 0 <= j < |before| && before[j].encf == FormatEncf(t, n);
    assert after[j] == before[j];
  }

  lemma EmissionKeepsFresh(s: State, e: Event)
    requires AllocValid(s) && Fresh(s) && (e.EmitInvoice? || e.PurchaseTopup?)
    ensures Fresh(Step(s, e))
  {
    if e.EmitInvoice? && Emit(s, e.request).1.Created? {
      var q, s' := e.request, Step(s, e);
      EmitIsEmitted(s, q);
      forall j, n: nat | 0 <= j < |s'.rows| && s'.rows[j].Assignable(n)
        ensures !HasInvoice(s'.ledger.invoices, s'.rows[j].ecfType, n)
      {
        assert RowOk(s.rows[j], s.authorized[j]);
        if HasInvoice(s'.ledger.invoices, s'.rows[j].ecfType, n) {
          OnlyNextIsAdded(s, q, s'.rows[j].ecfType, n);
        }
      }
    }
  }

  lemma {:induction false} EmissionsKeepFresh(s: State, es: seq<Event>, k: nat)
    requires Company.Valid(s) && Fresh(s) && OnlyEmissions(es) && k <= |es|
    ensures Company.Valid(At(s, es, k)) && Fresh(At(s, es, k))
  {
    hide Step;
    if k > 0 {
      EmissionsKeepFresh(s, es, k - 1);
      StepKeeps(At(s, es, k - 1), es[k - 1]);
      EmissionKeepsFresh(At(s, es, k - 1), es[k - 1]);
    }
  }

  /** A state is fresh exactly when no sequence of emissions and purchases from it
      ends in an emission whose number is taken. */
  lemma FreshIff(s: State)
    requires Company.Valid(s)
    ensures Fresh(s) <==> forall es, q :: OnlyEmissions(es) ==> Emit(At(s, es, |es|), q).1 != Refused(DuplicateEncf)
  {
    hide Step, Emit;
    if Fresh(s) {
      forall es, q | OnlyEmissions(es)
        ensures Emit(At(s, es, |es|), q).1 != Refused(DuplicateEncf)
      {
        EmissionsKeepFresh(s, es, |es|);
        FreshIsNeverTaken(At(s, es, |es|), q);
      }
    } else {
      var i, n: nat :| 0 <= i < |s.rows| && s.rows[i].Assignable(n) && HasInvoice(s.ledger.invoices, s.rows[i].ecfType, n);
      var es, q := StaleReachesDuplicate(s, i, n);
    }
  }
}
