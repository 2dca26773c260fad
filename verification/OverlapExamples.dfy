/** Concrete runs in which two annulments of one type overlap: the guarantees of
    serial runs fail, so the serial condition is not idle. */
module OverlapExamples {
  import opened EcfTypes
  import opened Encf
  import opened Sequences
  import opened Pipeline
  import opened Company
  import opened AllocatorRuns
  import Usage

  function Text(first: nat, last: nat): RangeText {
    RangeText(FormatEncf(E31, first), FormatEncf(E31, last))
  }

  lemma TextParses(first: nat, last: nat)
    requires 0 < first <= last <= 1000
    ensures ParseRange(Text(first, last)) == Ok(NumRange(E31, first, last))
  {
    TenDigits();
    ParseOfFormat(E31, first);
    ParseOfFormat(E31, last);
  }

  /** A request for one range of E31 on a company with one row. */
  lemma RequestOne(s: State, id: nat, row: Row, first: nat, last: nat)
    requires s.rows == [row] && row.ecfType == E31 && row.isActive && id !in s.annulments
    requires 0 < first <= last <= 1000
    ensures var sim := SimState(0, row.startNumber, row.endNumber, row.currentNumber, true, false);
            var r := NumRange(E31, first, last);
            PlanSim(s.ledger.invoices, sim, r).Ok? ==>
              RequestAnnulment(s, id, [Text(first, last)])
              == s.(annulments := s.annulments[id := Annulment(Draft([r], map[E31 := PlanSim(s.ledger.invoices, sim, r).value]), [row], AnnulPending, true)])
  {
    var text, r := Text(first, last), NumRange(E31, first, last);
    TextParses(first, last);
    OneRowIsFound(row);
    assert [text][..0] == [];
    assert PlanRanges(s.rows, s.ledger.invoices, [text][..0]) == Ok(Draft([], map[]));
    assert [] + [r] == [r];
  }

  lemma OneRowIsFound(row: Row)
    requires row.ecfType == E31 && row.isActive
    ensures FindActive([row], E31) == Some(0)
  {
    assert [row][..0] == [];
  }

  lemma RunUnfolds(s0: State, es: seq<Event>, k: nat)
    requires k < |es|
    ensures At(s0, es, 0) == s0 && At(s0, es, k + 1) == Step(At(s0, es, k), es[k])
  {}

  const UNDONE_CUT: seq<Event> := [
    RegisterRow(E31, 1, 5, None),
    AskAnnulment(0, [Text(5, 5)]),
    AskAnnulment(1, [Text(1, 1)]),
    SettleAnnulment(0, DgiiAccepted),
    SettleAnnulment(1, DgiiAccepted)]

  lemma UndoneCutEnds()
    ensures var s := At(Init(0, 0), UNDONE_CUT, 5);
            && s.rows == [Row(E31, 1, 1, 5, None, true)]
            && 0 in s.annulments && s.annulments[0].status == AnnulAccepted
            && s.annulments[0].draft == Draft([NumRange(E31, 5, 5)], map[E31 := SimState(0, 1, 4, 0, true, true)])
  {
    hide At, RequestAnnulment;
    var s0, es := Init(0, 0), UNDONE_CUT;
    var row := Row(E31, 1, 0, 5, None, true);
    var s1, s2, s3, s4, s5 := At(s0, es, 1), At(s0, es, 2), At(s0, es, 3), At(s0, es, 4), At(s0, es, 5);
    RunUnfolds(s0, es, 0);
    assert s1 == AddRow(s0, row);
    RunUnfolds(s0, es, 1);
    RequestOne(s1, 0, row, 5, 5);
    var cut := Annulment(Draft([NumRange(E31, 5, 5)], map[E31 := SimState(0, 1, 4, 0, true, true)]), [row], AnnulPending, true);
    assert s2 == s1.(annulments := map[0 := cut]);
    RunUnfolds(s0, es, 2);
    RequestOne(s2, 1, row, 1, 1);
    var advance := Annulment(Draft([NumRange(E31, 1, 1)], map[E31 := SimState(0, 1, 5, 1, true, true)]), [row], AnnulPending, true);
    assert s3 == s1.(annulments := map[0 := cut, 1 := advance]);
    RunUnfolds(s0, es, 3);
    assert s4.rows == [Row(E31, 1, 0, 4, None, true)];
    RunUnfolds(s0, es, 4);
    assert s5.rows == [Row(E31, 1, 1, 5, None, true)];
    assert s5.annulments[0] == cut.(status := AnnulAccepted, inFlight := false);
  }

  /** The second of two overlapping annulments writes back the end number it saw:
      5 was annulled first and is handed out again after. */
  lemma OverlapUndoesACut()
    ensures !AlwaysRowSafe(Init(0, 0), UNDONE_CUT, 5)
  {
    hide At;
    var s := At(Init(0, 0), UNDONE_CUT, 5);
    UndoneCutEnds();
    assert Covers(s.annulments[0].draft.ranges[0], E31, 5);
    assert Hits(s.annulments[0].draft, E31, 0, 5);
    assert s.rows[0].Assignable(5);
  }

  const PLAIN: EmitRequest := EmitRequest(E31, None, false, None, 0, false, false)

  const REUSED_NUMBER: seq<Event> := [
    RegisterRow(E31, 1, 2, None),
    AskAnnulment(0, [Text(2, 2)]),
    AskAnnulment(1, [Text(1, 2)]),
    EmitInvoice(PLAIN),
    EmitInvoice(PLAIN),
    SettleAnnulment(0, DgiiAccepted),
    SettleAnnulment(1, DgiiAccepted),
    RegisterRow(E31, 2, 3, None)]

  lemma ReusedNumberPlans()
    ensures var s := At(Init(3, 0), REUSED_NUMBER, 3);
            && s.rows == [Row(E31, 1, 0, 2, None, true)] && s.authorized == [2]
            && s.ledger == Init(3, 0).ledger
            && s.annulments.Keys == {0, 1} && s.annulments[0].inFlight && s.annulments[1].inFlight
            && s.annulments[0].draft.sims == map[E31 := SimState(0, 1, 1, 0, true, true)]
            && s.annulments[1].draft.sims == map[E31 := SimState(0, 1, 2, 0, false, true)]
  {
    hide At, RequestAnnulment;
    var s0, es := Init(3, 0), REUSED_NUMBER;
    var row := Row(E31, 1, 0, 2, None, true);
    var s1, s2 := At(s0, es, 1), At(s0, es, 2);
    RunUnfolds(s0, es, 0);
    assert s1 == AddRow(s0, row);
    RunUnfolds(s0, es, 1);
    RequestOne(s1, 0, row, 2, 2);
    var cut := Annulment(Draft([NumRange(E31, 2, 2)], map[E31 := SimState(0, 1, 1, 0, true, true)]), [row], AnnulPending, true);
    assert s2 == s1.(annulments := map[0 := cut]);
    RunUnfolds(s0, es, 2);
    RequestOne(s2, 1, row, 1, 2);
  }

  lemma PlainEmission(s: State, row: Row)
    requires s.rows == [row] && row.ecfType == E31 && row.expiresAt.None? && 0 <= row.currentNumber < 1000 && row.Assignable(row.currentNumber + 1)
    requires s.ledger.meter.status == Usage.ACTIVE && Usage.HasBaseRoom(s.ledger.meter)
    requires forall j :: 0 <= j < |s.ledger.invoices| ==> s.ledger.invoices[j].encf != FormatEncf(E31, row.currentNumber + 1)
    ensures var s' := Step(s, EmitInvoice(PLAIN));
            && s'.rows == [row.(currentNumber := row.currentNumber + 1)]
            && s'.authorized == s.authorized && s'.annulments == s.annulments
            && s'.ledger.meter == Usage.FlagCeiling(s.ledger.meter.(baseUsed := s.ledger.meter.baseUsed + 1))
            && s'.ledger.invoices == s.ledger.invoices + [NewInvoice(PLAIN, row.currentNumber + 1)]
  {
    OneRowIsFound(row);
  }

  const REFUSED_SIGNATURE: ProcessWorld := ProcessWorld(Failed(OtherFailure), XsdUnavailable, Done, ResultLost)

  /** A first emission whose processing fails. */
  lemma FailedEmission(s: State, row: Row)
    requires s.rows == [row] && row.ecfType == E31 && row.expiresAt.None? && 0 <= row.currentNumber < 1000
    requires row.Assignable(row.currentNumber + 1) && s.ledger == Init(3, 0).ledger
    ensures var s' := Step(Step(s, EmitInvoice(PLAIN)), ProcessJob(0, REFUSED_SIGNATURE));
            && s'.rows == [row.(currentNumber := row.currentNumber + 1)] && s'.annulments == s.annulments
            && s'.ledger.invoices == [NewInvoice(PLAIN, row.currentNumber + 1).(status := ERROR)]
  {
    PlainEmission(s, row);
    FailedJob(Step(s, EmitInvoice(PLAIN)).ledger, row.currentNumber + 1);
  }

  lemma FailedJob(l: Ledger, n: nat)
    requires l.invoices == [NewInvoice(PLAIN, n)]
    ensures Process(l, 0, REFUSED_SIGNATURE) == l.(invoices := [NewInvoice(PLAIN, n).(status := ERROR)])
  {
    assert ProcessProceeds(l, 0);
  }

  lemma TwoPlainEmissions(s: State)
    requires s.rows == [Row(E31, 1, 0, 2, None, true)] && s.ledger == Init(3, 0).ledger
    ensures var s' := Step(Step(s, EmitInvoice(PLAIN)), EmitInvoice(PLAIN));
            && s'.rows == [Row(E31, 1, 2, 2, None, true)]
            && s'.ledger.invoices == [NewInvoice(PLAIN, 1), NewInvoice(PLAIN, 2)]
            && s'.annulments == s.annulments
  {
    PlainEmission(s, s.rows[0]);
    var mid := Step(s, EmitInvoice(PLAIN));
    assert mid.ledger.invoices == [NewInvoice(PLAIN, 1)];
    TenDigits();
    FormatInjective(E31, 1, E31, 2);
    PlainEmission(mid, mid.rows[0]);
  }

  lemma ReusedNumberEmissions()
    ensures var s := At(Init(3, 0), REUSED_NUMBER, 5);
            && s.rows == [Row(E31, 1, 2, 2, None, true)]
            && s.ledger.invoices == [NewInvoice(PLAIN, 1), NewInvoice(PLAIN, 2)]
            && s.annulments == At(Init(3, 0), REUSED_NUMBER, 3).annulments
  {
    var s0, es := Init(3, 0), REUSED_NUMBER;
    ReusedNumberPlans();
    assert es[3] == EmitInvoice(PLAIN) && es[4] == EmitInvoice(PLAIN);
    assert At(s0, es, 5) == Step(Step(At(s0, es, 3), es[3]), es[4]);
    TwoPlainEmissions(At(s0, es, 3));
  }

  lemma ReusedNumberAnswers()
    ensures var s := At(Init(3, 0), REUSED_NUMBER, 7);
            && s.rows == [Row(E31, 1, 2, 1, None, false)]
            && s.ledger.invoices == [NewInvoice(PLAIN, 1), NewInvoice(PLAIN, 2)]
  {
    var s0, es := Init(3, 0), REUSED_NUMBER;
    ReusedNumberPlans();
    ReusedNumberEmissions();
    var s5, s6 := At(s0, es, 5), At(s0, es, 6);
    assert s6 == Settle(s5, 0, DgiiAccepted);
    assert s6.rows == [Row(E31, 1, 2, 1, None, true)];
    assert At(s0, es, 7) == Settle(s6, 1, DgiiAccepted);
  }

  lemma ReusedNumberRegistered()
    ensures var s := At(Init(3, 0), REUSED_NUMBER, 8);
            && s.rows == [Row(E31, 1, 2, 1, None, false), Row(E31, 2, 1, 3, None, true)]
            && s.ledger.invoices == [NewInvoice(PLAIN, 1), NewInvoice(PLAIN, 2)]
  {
    hide At;
    RunUnfolds(Init(3, 0), REUSED_NUMBER, 7);
    ReusedNumberAnswers();
  }

  /** Both numbers are issued during the round trips; the first answer cuts the
      end to 1, the second takes the row out of use, and the overlap query then
      lets 2 be registered again. Only the unique index stops the reuse. */
  lemma OverlapReusesANumber()
    ensures Emit(At(Init(3, 0), REUSED_NUMBER, 8), PLAIN).1 == Refused(DuplicateEncf)
  {
    hide At;
    ReusedNumberRegistered();
    var s := At(Init(3, 0), REUSED_NUMBER, 8);
    ActiveIsFound(s.rows, 1);
    assert NewInvoice(PLAIN, 2) == s.ledger.invoices[1];
  }
}
