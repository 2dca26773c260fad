/** From the texts of an annulment request to its record, and from DGII's answer to
    what is kept of it. */
module AnnulmentRequests {
  import opened EcfTypes
  import opened Encf
  import opened Sequences
  import opened Company
  import opened CompanyInvariant

  /** The texts of a range name exactly two eNCFs of one type in order. */
  lemma ParseRangeIff(text: RangeText, t: EcfType, first: nat, last: nat)
    ensures ParseRange(text) == Ok(NumRange(t, first, last))
            <==> 0 < first <= last < Pow10(10) && text.encfFrom == FormatEncf(t, first) && text.encfTo == FormatEncf(t, last)
  {
    hide FormatEncf, IsValidEncf, TypeOf, NumberOf, Pow10;
    if 0 < first <= last < Pow10(10) {
      ParseOfFormat(t, first);
      ParseOfFormat(t, last);
    }
    if ParseRange(text).Ok? {
      FormatOfParse(text.encfFrom);
      FormatOfParse(text.encfTo);
    }
  }

  /** Otherwise the request is told what is wrong: an end that is no eNCF, two types, or
      ends in the wrong order, looked at in this order. */
  lemma ParseRangeErrors(text: RangeText)
    ensures var valid := IsValidEncf(text.encfFrom) && IsValidEncf(text.encfTo);
            && (ParseRange(text) == Err(InvalidEncf) <==> !valid)
            && (ParseRange(text) == Err(MixedTypes) <==> valid && TypeOf(text.encfFrom) != TypeOf(text.encfTo))
            && (ParseRange(text) == Err(ReversedRange)
                <==> valid && TypeOf(text.encfFrom) == TypeOf(text.encfTo) && NumberOf(text.encfFrom) > NumberOf(text.encfTo))
  {}

  /** A plan is about the ranges that the request names, all of them, in order. */
  lemma {:induction false} PlanNamesItsTexts(rows: seq<Row>, invoices: seq<Invoice>, texts: seq<RangeText>)
    requires PlanRanges(rows, invoices, texts).Ok?
    ensures var ranges := PlanRanges(rows, invoices, texts).value.ranges;
            |ranges| == |texts| && forall k :: 0 <= k < |texts| ==> ParseRange(texts[k]) == Ok(ranges[k])
  {
    hide PlanRange, ParseRange;
    if texts != [] {
      var last := |texts| - 1;
      PlanNamesItsTexts(rows, invoices, texts[..last]);
      PlanRangeAppends(rows, invoices, PlanRanges(rows, invoices, texts[..last]).value, texts[last]);
    }
  }

  lemma PlanRangeAppends(rows: seq<Row>, invoices: seq<Invoice>, d: Draft, text: RangeText)
    requires PlanRange(rows, invoices, d, text).Ok?
    ensures ParseRange(text).Ok? && PlanRange(rows, invoices, d, text).value.ranges == d.ranges + [ParseRange(text).value]
  {}

  /** An accepted plan is recorded as pending, with its answer awaited; a request that is
      refused, or whose record exists, leaves everything as it was. */
  lemma RequestOutcome(s: State, id: nat, texts: seq<RangeText>)
    ensures RequestAnnulment(s, id, texts)
         == if id !in s.annulments && texts != [] && PlanRanges(s.rows, s.ledger.invoices, texts).Ok?
            then s.(annulments := s.annulments[id := Annulment(PlanRanges(s.rows, s.ledger.invoices, texts).value, s.rows, AnnulPending, true)])
            else s
  {}

  function StatusAfter(v: Verdict): AnnulmentStatus {
    match v
    case DgiiAccepted => AnnulAccepted
    case DgiiRejected => AnnulRejected
    case NoAnswer => AnnulPending
  }

  /** Event `m` is the answer to a request that awaited it. */
  ghost predicate AnsweredAt(s0: State, es: seq<Event>, m: nat, id: nat, v: Verdict)
    requires m < |es|
  {
    && es[m] == SettleAnnulment(id, v)
    && id in At(s0, es, m).annulments && At(s0, es, m).annulments[id].inFlight
  }

  lemma AnswerIsRecorded(s: State, e: Event, id: nat)
    requires id in Step(s, e).annulments
    ensures id !in s.annulments ==> Step(s, e).annulments[id].inFlight && Step(s, e).annulments[id].status == AnnulPending
    ensures id in s.annulments && !(e.SettleAnnulment? && e.id == id && s.annulments[id].inFlight) ==>
              Step(s, e).annulments[id] == s.annulments[id]
    ensures id in s.annulments && s.annulments[id].inFlight && e.SettleAnnulment? && e.id == id ==>
              var status := if e.verdict == NoAnswer then s.annulments[id].status else StatusAfter(e.verdict);
              Step(s, e).annulments[id] == s.annulments[id].(inFlight := false, status := status)
  {
    match e {
      case RegisterRow(t, first, last, expiresAt) =>
      case EmitInvoice(q) =>
      case AskAnnulment(k, texts) =>
      case SettleAnnulment(k, v) =>
      case _ =>
    }
  }

  /** In every run a request awaits its answer as pending, or was answered once, and its
      status tells an acceptance, a refusal and a failed call apart. */
  lemma {:induction false} StatusTellsTheAnswer(s0: State, es: seq<Event>, k: nat, id: nat)
    requires IsInit(s0) && k <= |es| && id in At(s0, es, k).annulments
    ensures var a := At(s0, es, k).annulments[id];
            if a.inFlight then a.status == AnnulPending
            else exists m, v :: 0 <= m < k && AnsweredAt(s0, es, m, id, v) && a.status == StatusAfter(v)
  {
    hide Step;
    assert k > 0;
    var s, e := At(s0, es, k - 1), es[k - 1];
    AnswerIsRecorded(s, e, id);
    if id in s.annulments {
      StatusTellsTheAnswer(s0, es, k - 1, id);
      if s.annulments[id].inFlight && e.SettleAnnulment? && e.id == id {
        assert AnsweredAt(s0, es, k - 1, id, e.verdict);
      } else if !s.annulments[id].inFlight {
        var m, v :| 0 <= m < k - 1 && AnsweredAt(s0, es, m, id, v) && s.annulments[id].status == StatusAfter(v);
      }
    }
  }

  /** The sequence rows change by registration, emission and acceptance only: a refusal
      or a failed call applies nothing. */
  lemma OnlyAcceptanceApplies(s: State, e: Event)
    requires Step(s, e).rows != s.rows
    ensures || e.RegisterRow? || e.EmitInvoice?
            || (e.SettleAnnulment? && e.verdict == DgiiAccepted && e.id in s.annulments && s.annulments[e.id].inFlight)
  {}
}
