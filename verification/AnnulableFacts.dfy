/** What the list of annullable eNCFs promises: where its gaps come from, and
    which of its entries the planner then accepts. */
module AnnulableFacts {
  import opened EcfTypes
  import opened Encf
  import opened Sequences
  import opened Company
  import opened CompanyInvariant
  import opened IssuedRuns
  import opened OverlapExamples
  import opened Anecf

  /** In every state of every run a consumed number without an invoice was
      skipped by an accepted annulment, never lost by a failed emission. */
  lemma {:induction false} GapsWereAnnulled(s0: State, es: seq<Event>, k: nat, i: nat, n: nat)
    requires IsInit(s0) && k <= |es| && i < |At(s0, es, k).rows|
    requires var row := At(s0, es, k).rows[i]; row.startNumber <= n <= row.currentNumber
    requires !HasInvoice(At(s0, es, k).ledger.invoices, At(s0, es, k).rows[i].ecfType, n)
    ensures AcceptedOn(At(s0, es, k).annulments, At(s0, es, k).rows[i].ecfType, i, n)
  {
    RunKeepsValid(s0, es, k);
    assert NoOrphans(At(s0, es, k));
  }

  /** No live invoice holds this number. */
  predicate NoLiveInvoiceAt(invoices: seq<Invoice>, t: EcfType, n: nat) {
    forall j :: 0 <= j < |invoices| && invoices[j].encf == FormatEncf(t, n) ==> Annullable(invoices[j].status)
  }

  lemma {:induction false} TextLeqReflexive(a: string)
    ensures TextLeq(a, a)
  {
    if a != [] {
      TextLeqReflexive(a[1..]);
    }
  }

  lemma BlockedAtOneNumber(invoices: seq<Invoice>, t: EcfType, n: nat)
    ensures Blocked(invoices, t, n, n) <==> !NoLiveInvoiceAt(invoices, t, n)
  {
    TextLeqReflexive(FormatEncf(t, n));
    forall j | 0 <= j < |invoices| && TextLeq(FormatEncf(t, n), invoices[j].encf) && TextLeq(invoices[j].encf, FormatEncf(t, n))
      ensures invoices[j].encf == FormatEncf(t, n)
    {
      TextLeqAntisymmetric(FormatEncf(t, n), invoices[j].encf);
    }
  }

  function OneNumber(t: EcfType, n: nat): seq<RangeText> {
    [RangeText(FormatEncf(t, n), FormatEncf(t, n))]
  }

  /** A request for one number, whatever the number: accepted exactly when the
      active row spans it, no live invoice holds it if it is consumed, and numbers
      would not remain on both sides of it. */
  lemma {:induction false} OneNumberPlansIff(s: State, i: nat, n: nat)
    requires AllocValid(s) && i < |s.rows| && s.rows[i].isActive && 0 < n < Pow10(10)
    ensures var row := s.rows[i];
            Plan(s.rows, s.ledger.invoices, OneNumber(row.ecfType, n)).Ok?
            <==> && row.Spans(n)
                 && (n <= row.currentNumber ==> NoLiveInvoiceAt(s.ledger.invoices, row.ecfType, n))
                 && !(row.currentNumber + 1 < n < row.endNumber)
  {
    var row := s.rows[i];
    var t := row.ecfType;
    assert RowOk(row, s.authorized[i]);
    ActiveIsFound(s.rows, i);
    ParseOfFormat(t, n);
    assert OneNumber(t, n)[..0] == [];
    assert PlanRanges(s.rows, s.ledger.invoices, []) == Ok(Draft([], map[]));
    assert ParseRange(OneNumber(t, n)[0]) == Ok(NumRange(t, n, n));
    BlockedAtOneNumber(s.ledger.invoices, t, n);
  }

  /** The eNCFs listed for an active row: every invoice of the type in REJECTED or
      ERROR, whichever row issued it, and the gaps of this row. */
  ghost predicate Listed(s: State, i: nat, n: nat) {
    && i < |s.rows| && s.rows[i].isActive
    && (|| (exists j :: 0 <= j < |s.ledger.invoices| && s.ledger.invoices[j].encf == FormatEncf(s.rows[i].ecfType, n)
              && Annullable(s.ledger.invoices[j].status))
        || (s.rows[i].startNumber <= n <= s.rows[i].currentNumber < s.rows[i].startNumber + MAX_GAP_SCAN
              && !HasInvoice(s.ledger.invoices, s.rows[i].ecfType, n)))
  }

  /** A listed eNCF can be annulled exactly when the active row still spans it and
      numbers would not remain on both sides; the list looks at neither. Where no
      row has an issued number left to hand out, the row's span alone decides. */
  lemma {:induction false} ListedPlansIff(s: State, i: nat, n: nat)
    requires AllocValid(s) && Listed(s, i, n) && 0 < n < Pow10(10)
    ensures var row := s.rows[i];
            Plan(s.rows, s.ledger.invoices, OneNumber(row.ecfType, n)).Ok?
            <==> row.Spans(n) && !(row.currentNumber + 1 < n < row.endNumber)
    ensures Fresh(s) ==> (Plan(s.rows, s.ledger.invoices, OneNumber(s.rows[i].ecfType, n)).Ok? <==> s.rows[i].Spans(n))
  {
    var invoices, t := s.ledger.invoices, s.rows[i].ecfType;
    OneNumberPlansIff(s, i, n);
    hide Plan;
    if HasInvoice(invoices, t, n) {
      var j :| 0 <= j < |invoices| && invoices[j].encf == FormatEncf(t, n) && Annullable(invoices[j].status);
      forall k | 0 <= k < |invoices| && invoices[k].encf == FormatEncf(t, n)
        ensures k == j
      {}
    }
  }

  // ----- a listed eNCF that is refused -----

  const LISTED: seq<Event> := [
    RegisterRow(E31, 11, 12, None),
    EmitInvoice(PLAIN),
    ProcessJob(0, REFUSED_SIGNATURE),
    AskAnnulment(0, [Text(12, 12)]),
    SettleAnnulment(0, DgiiAccepted),
    RegisterRow(E31, 1, 5, None)]

  lemma ListedEmission()
    ensures var s := At(Init(3, 0), LISTED, 3);
            && s.rows == [Row(E31, 11, 11, 12, None, true)] && s.annulments == map[]
            && s.ledger.invoices == [NewInvoice(PLAIN, 11).(status := ERROR)]
  {
    hide At;
    var s0, es := Init(3, 0), LISTED;
    RunUnfolds(s0, es, 0);
    RunUnfolds(s0, es, 1);
    RunUnfolds(s0, es, 2);
    FailedEmission(At(s0, es, 1), Row(E31, 11, 10, 12, None, true));
  }

  lemma ListedRows()
    ensures var s := At(Init(3, 0), LISTED, 6);
            && s.rows == [Row(E31, 11, 11, 12, None, false), Row(E31, 1, 0, 5, None, true)]
            && s.ledger.invoices == [NewInvoice(PLAIN, 11).(status := ERROR)]
  {
    hide At, RequestAnnulment;
    var s0, es := Init(3, 0), LISTED;
    ListedEmission();
    RunUnfolds(s0, es, 3);
    RequestOne(At(s0, es, 3), 0, Row(E31, 11, 11, 12, None, true), 12, 12);
    var s4 := At(s0, es, 4);
    assert s4.annulments[0].draft.sims == map[E31 := SimState(0, 11, 12, 11, false, true)];
    RunUnfolds(s0, es, 4);
    RunUnfolds(s0, es, 5);
  }

  /** The failed invoice 11 of an earlier row, above the counter of the active one,
      is listed, and a request for it is refused as outside the row. */
  lemma ListedAndRefused()
    ensures var s := At(Init(3, 0), LISTED, 6);
            Listed(s, 1, 11) && Plan(s.rows, s.ledger.invoices, OneNumber(E31, 11)) == Err(OutsideRow)
  {
    hide At;
    var s := At(Init(3, 0), LISTED, 6);
    ListedRows();
    assert s.ledger.invoices[0].encf == FormatEncf(s.rows[1].ecfType, 11);
    TextParses(11, 11);
    ActiveIsFound(s.rows, 1);
    assert OneNumber(E31, 11)[..0] == [];
    assert PlanRanges(s.rows, s.ledger.invoices, []) == Ok(Draft([], map[]));
  }

  // ----- an eNCF declared twice -----

  const SKIPPED: seq<Event> := [
    RegisterRow(E31, 1, 5, None),
    AskAnnulment(0, [Text(1, 1)]),
    SettleAnnulment(0, DgiiAccepted)]

  /** A reachable row whose consumed number 1 is a gap: a request that names it twice
      is planned, and its document declares two annulled eNCFs. */
  lemma GapDeclaredTwice()
    ensures var s := At(Init(3, 0), SKIPPED, 3);
            var plan := Plan(s.rows, s.ledger.invoices, OneNumber(E31, 1) + OneNumber(E31, 1));
            && Listed(s, 0, 1)
            && plan.Ok? && CountAll(plan.value.ranges) == 2 && |AllNumbers(plan.value.ranges)| == 1
  {
    hide At, RequestAnnulment, Plan, CountAll, AllNumbers;
    var s0, es := Init(3, 0), SKIPPED;
    var row := Row(E31, 1, 0, 5, None, true);
    RunUnfolds(s0, es, 0);
    assert At(s0, es, 1) == AddRow(s0, row);
    RunUnfolds(s0, es, 1);
    RequestOne(At(s0, es, 1), 0, row, 1, 1);
    RunUnfolds(s0, es, 2);
    var s := At(s0, es, 3);
    assert s.rows == [Row(E31, 1, 1, 5, None, true)] && s.ledger.invoices == [];
    AcceptedPlanCanCountTwice(s.rows[0]);
  }
}
