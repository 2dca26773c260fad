/** Runs in which annulments of one type do not overlap. */
module SerialRuns {
  import opened EcfTypes
  import opened Encf
  import opened Sequences
  import opened Company
  import opened CompanyInvariant
  import opened AllocatorRuns
  import opened IssuedRuns

  // ----- one annulment per type at a time -----

  /** A request is planned only while no other one of the same type is in flight. */
  ghost predicate SerialStep(s: State, e: Event) {
    e.AskAnnulment? && e.id !in s.annulments && Plan(s.rows, s.ledger.invoices, e.texts).Ok? ==>
      forall id :: id in s.annulments && s.annulments[id].inFlight
        ==> s.annulments[id].draft.sims.Keys !! Plan(s.rows, s.ledger.invoices, e.texts).value.sims.Keys
  }

  ghost predicate SerialRun(s0: State, es: seq<Event>, k: nat)
    requires k <= |es|
  {
    k > 0 ==> SerialStep(At(s0, es, k - 1), es[k - 1]) && SerialRun(s0, es, k - 1)
  }

  /** While a request is in flight its row keeps its end number and stays active. */
  ghost predicate PlanCurrent(s: State, a: Annulment, t: EcfType)
    requires t in a.draft.sims
  {
    var i := a.draft.sims[t].id;
    && i < |s.rows| && i < |a.snapshot|
    && s.rows[i].isActive
    && s.rows[i].endNumber == a.snapshot[i].endNumber
    && s.rows[i].currentNumber <= Max(a.snapshot[i].currentNumber, s.rows[i].endNumber)
  }

  ghost predicate SerialPlans(s: State) {
    && (forall id, t :: id in s.annulments && s.annulments[id].inFlight && t in s.annulments[id].draft.sims
          ==> PlanCurrent(s, s.annulments[id], t))
    && (forall id, jd :: id in s.annulments && jd in s.annulments && id != jd && s.annulments[id].inFlight && s.annulments[jd].inFlight
          ==> s.annulments[id].draft.sims.Keys !! s.annulments[jd].draft.sims.Keys)
  }

  /** No two rows of a type reach the same number, and a row that is out of use
      has handed out nothing beyond the end number the overlap query sees. */
  ghost predicate RowsApart(s: State) {
    && (forall i :: 0 <= i < |s.rows| && !s.rows[i].isActive ==> s.rows[i].currentNumber <= s.rows[i].endNumber)
    && (forall i, j :: 0 <= i < j < |s.rows| && s.rows[i].ecfType == s.rows[j].ecfType
          ==> || Max(s.rows[i].currentNumber, s.rows[i].endNumber) < s.rows[j].startNumber
              || Max(s.rows[j].currentNumber, s.rows[j].endNumber) < s.rows[i].startNumber)
  }

  lemma RegisterKeepsApart(s: State, e: Event)
    requires AllocValid(s) && SerialPlans(s) && RowsApart(s) && e.RegisterRow?
    ensures SerialPlans(Step(s, e)) && RowsApart(Step(s, e))
  {
    if Register(s.rows, e.ecfType, e.first, e.last, e.expiresAt).Ok? {
      forall i | 0 <= i < |s.rows| && s.rows[i].ecfType == e.ecfType
        ensures s.rows[i].endNumber < e.first || e.last < s.rows[i].startNumber
        ensures s.rows[i].currentNumber <= s.rows[i].endNumber
      {
        assert RowOk(s.rows[i], s.authorized[i]);
        OverlapQueryIsIntersection(s.rows[i], e.first, e.last);
        assert !s.rows[i].Spans(Max(e.first, s.rows[i].startNumber)) || e.last < s.rows[i].startNumber;
      }
      assert SerialPlans(Step(s, e)) by {
        forall id, t | id in s.annulments && s.annulments[id].inFlight && t in s.annulments[id].draft.sims
          ensures PlanCurrent(Step(s, e), s.annulments[id], t)
        {
          assert PlanCurrent(s, s.annulments[id], t);
        }
      }
    }
  }

  lemma EmitKeepsApart(s: State, q: EmitRequest)
    requires AllocValid(s) && SerialPlans(s) && RowsApart(s)
    ensures SerialPlans(Emit(s, q).0) && RowsApart(Emit(s, q).0)
  {
    if Emit(s, q).1.Created? {
      var s' := Emit(s, q).0;
      EmitIsEmitted(s, q);
      forall id, t | id in s'.annulments && s'.annulments[id].inFlight && t in s'.annulments[id].draft.sims
        ensures PlanCurrent(s', s'.annulments[id], t)
      {
        assert PlanCurrent(s, s.annulments[id], t);
      }
    }
  }

  lemma RequestKeepsSerial(s: State, id: nat, texts: seq<RangeText>)
    requires AllocValid(s) && SerialPlans(s) && SerialStep(s, AskAnnulment(id, texts))
    ensures SerialPlans(RequestAnnulment(s, id, texts))
  {
    var s' := RequestAnnulment(s, id, texts);
    if s' != s {
      var a := s'.annulments[id];
      PlanIsExact(s.rows, s.ledger.invoices, texts);
      forall k, t | k in s'.annulments && s'.annulments[k].inFlight && t in s'.annulments[k].draft.sims
        ensures PlanCurrent(s', s'.annulments[k], t)
      {
        if k == id {
          assert DraftIsExact(s.rows, a.draft);
        } else {
          assert PlanCurrent(s, s.annulments[k], t);
        }
      }
    }
  }

  /** The accepted row: it keeps within what it could reach, and when it goes out
      of use its counter is not beyond its end. */
  lemma AcceptedRowStaysApart(s: State, id: nat, i: nat)
    requires AllocValid(s) && SerialPlans(s) && RowsApart(s)
    requires id in s.annulments && s.annulments[id].inFlight && i < |s.rows|
    ensures var row, after := s.rows[i], Settle(s, id, DgiiAccepted).rows[i];
            && Max(after.currentNumber, after.endNumber) <= Max(row.currentNumber, row.endNumber)
            && (!after.isActive ==> after.currentNumber <= after.endNumber)
            && after.startNumber == row.startNumber && after.ecfType == row.ecfType
  {
    var a := s.annulments[id];
    var row := s.rows[i];
    assert AnnulmentOk(s, a);
    if Targets(a.draft.sims, row, i) {
      assert PlanCurrent(s, a, row.ecfType);
      assert SimIsExact(a.snapshot[i], a.draft.sims[row.ecfType], a.draft.ranges);
      assert MovedOn(a.snapshot[i], row, s.authorized[i]);
    }
  }

  lemma AcceptKeepsSerial(s: State, id: nat)
    requires AllocValid(s) && SerialPlans(s)
    requires id in s.annulments && s.annulments[id].inFlight
    ensures SerialPlans(Settle(s, id, DgiiAccepted))
  {
    var s' := Settle(s, id, DgiiAccepted);
    forall k, t | k in s'.annulments && s'.annulments[k].inFlight && t in s'.annulments[k].draft.sims
      ensures PlanCurrent(s', s'.annulments[k], t)
    {
      assert k != id && PlanCurrent(s, s.annulments[k], t);
      assert AnnulmentOk(s, s.annulments[k]);
      var i := s.annulments[k].draft.sims[t].id;
      assert MovedOn(s.annulments[k].snapshot[i], s.rows[i], s.authorized[i]);
      assert t !in s.annulments[id].draft.sims;
      assert s'.rows[i] == s.rows[i];
    }
  }

  lemma SettleKeepsApart(s: State, id: nat, v: Verdict)
    requires AllocValid(s) && SerialPlans(s) && RowsApart(s)
    ensures SerialPlans(Settle(s, id, v)) && RowsApart(Settle(s, id, v))
  {
    if id in s.annulments && s.annulments[id].inFlight {
      if v == DgiiAccepted {
        forall i | 0 <= i < |s.rows|
          ensures var row, after := s.rows[i], Settle(s, id, DgiiAccepted).rows[i];
                  && Max(after.currentNumber, after.endNumber) <= Max(row.currentNumber, row.endNumber)
                  && (!after.isActive ==> after.currentNumber <= after.endNumber)
                  && after.startNumber == row.startNumber && after.ecfType == row.ecfType
        {
          AcceptedRowStaysApart(s, id, i);
        }
        AcceptKeepsSerial(s, id);
      } else {
        var s' := Settle(s, id, v);
        forall k, t | k in s'.annulments && s'.annulments[k].inFlight && t in s'.annulments[k].draft.sims
          ensures PlanCurrent(s', s'.annulments[k], t)
        {
          assert PlanCurrent(s, s.annulments[k], t);
        }
      }
    }
  }

  lemma StepKeepsApart(s: State, e: Event)
    requires AllocValid(s) && SerialPlans(s) && RowsApart(s) && SerialStep(s, e)
    ensures SerialPlans(Step(s, e)) && RowsApart(Step(s, e))
  {
    match e {
      case RegisterRow(t, first, last, expiresAt) => RegisterKeepsApart(s, e);
      case EmitInvoice(q) => EmitKeepsApart(s, q);
      case AskAnnulment(id, texts) => RequestKeepsSerial(s, id, texts);
      case SettleAnnulment(id, v) => SettleKeepsApart(s, id, v);
      case _ =>
        var s' := Step(s, e);
        forall k, t | k in s'.annulments && s'.annulments[k].inFlight && t in s'.annulments[k].draft.sims
          ensures PlanCurrent(s', s'.annulments[k], t)
        {
          assert PlanCurrent(s, s.annulments[k], t);
        }
    }
  }

  lemma {:induction false} SerialRunsStayApart(s0: State, es: seq<Event>, k: nat)
    requires IsInit(s0) && k <= |es| && SerialRun(s0, es, k)
    ensures SerialPlans(At(s0, es, k)) && RowsApart(At(s0, es, k))
  {
    if k > 0 {
      SerialRunsStayApart(s0, es, k - 1);
      RunKeepsValid(s0, es, k - 1);
      StepKeepsApart(At(s0, es, k - 1), es[k - 1]);
    }
  }

  /** Rows apart: whatever a row can still hand out has no invoice. */
  lemma ApartIsFresh(s: State)
    requires AllocValid(s) && RowsApart(s)
    ensures Fresh(s)
  {
    TenDigits();
    forall i, n: nat | 0 <= i < |s.rows| && s.rows[i].Assignable(n)
      ensures !HasInvoice(s.ledger.invoices, s.rows[i].ecfType, n)
    {
      assert RowOk(s.rows[i], s.authorized[i]);
      if HasInvoice(s.ledger.invoices, s.rows[i].ecfType, n) {
        var k :| 0 <= k < |s.ledger.invoices| && s.ledger.invoices[k].encf == FormatEncf(s.rows[i].ecfType, n);
        IssuedElsewhere(s, i, n, k);
      }
    }
  }

  lemma IssuedElsewhere(s: State, i: nat, n: nat, k: nat)
    requires AllocValid(s) && RowsApart(s) && Pow10(10) == 10000000000
    requires i < |s.rows| && k < |s.ledger.invoices| && 0 < n <= INT_MAX
    requires s.ledger.invoices[k].encf == FormatEncf(s.rows[i].ecfType, n)
    ensures !s.rows[i].Assignable(n)
  {
    var inv := s.ledger.invoices[k];
    assert Issued(s.rows, inv);
    var j, m :| 0 <= j < |s.rows| && IssuedBy(s.rows[j], inv, m);
    assert RowOk(s.rows[j], s.authorized[j]);
    FormatInjective(inv.ecfType, m, s.rows[i].ecfType, n);
  }

  /** With annulments of a type one at a time, the rows of every state stay fresh,
      so no registration ever covers an issued number. */
  lemma {:induction false} SerialRunsAreFresh(s0: State, es: seq<Event>, k: nat)
    requires IsInit(s0) && k <= |es| && SerialRun(s0, es, k)
    ensures AlwaysFresh(s0, es, k) && AlwaysIssuedGuard(s0, es, k)
  {
    hide Step;
    if k > 0 {
      SerialRunsAreFresh(s0, es, k - 1);
    }
    RunKeepsValid(s0, es, k);
    SerialRunsStayApart(s0, es, k);
    ApartIsFresh(At(s0, es, k));
    IssuedNumbersStayOutIff(s0, es, k);
  }

  /** So no emission of such a run ever finds its number taken, across all the rows
      registered one after another. */
  lemma {:induction false} SerialRunsNeverReuse(s0: State, es: seq<Event>, k: nat, q: EmitRequest)
    requires IsInit(s0) && k <= |es| && SerialRun(s0, es, k)
    ensures Emit(At(s0, es, k), q).1 != Refused(DuplicateEncf)
  {
    hide Step, Emit;
    RunKeepsValid(s0, es, k);
    SerialRunsAreFresh(s0, es, k);
    FreshIsNeverTaken(At(s0, es, k), q);
  }

  lemma SerialApplyIsGuarded(s: State, e: Event)
    requires AllocValid(s) && SerialPlans(s)
    ensures ApplyGuard(s, e)
  {
    if e.SettleAnnulment? && e.verdict == DgiiAccepted && e.id in s.annulments && s.annulments[e.id].inFlight {
      var a := s.annulments[e.id];
      assert AnnulmentOk(s, a);
      forall i | 0 <= i < |s.rows| && s.rows[i].isActive && Targets(a.draft.sims, s.rows[i], i) && a.draft.sims[s.rows[i].ecfType].active
        ensures a.draft.sims[s.rows[i].ecfType].endNumber <= s.rows[i].endNumber
      {
        assert PlanCurrent(s, a, s.rows[i].ecfType);
        assert SimIsExact(a.snapshot[i], a.draft.sims[s.rows[i].ecfType], a.draft.ranges);
      }
    }
  }

  /** With annulments of a type one at a time every apply is guarded, so annulled
      numbers stay out of their row's future for good. */
  lemma {:induction false} SerialRunsAreGuarded(s0: State, es: seq<Event>, k: nat)
    requires IsInit(s0) && k <= |es| && SerialRun(s0, es, k)
    ensures AlwaysApplyGuard(s0, es, k) && AlwaysRowSafe(s0, es, k)
  {
    if k > 0 {
      SerialRunsAreGuarded(s0, es, k - 1);
      RunKeepsValid(s0, es, k - 1);
      SerialRunsStayApart(s0, es, k - 1);
      SerialApplyIsGuarded(At(s0, es, k - 1), es[k - 1]);
    }
    AnnulledNumbersStayOutIff(s0, es, k);
  }
}
