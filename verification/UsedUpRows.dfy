/** Rows that run out or expire: the failing emission rolls back the write that would
    deactivate its row. When that is for good, and what it blocks. */
module UsedUpRows {
  import opened EcfTypes
  import opened Encf
  import opened Sequences
  import opened Company
  import opened CompanyInvariant
  import opened OverlapExamples

  /** Row `i` has no number left and is still the active row of its type. */
  predicate Stuck(s: State, i: nat) {
    i < |s.rows| && s.rows[i].isActive && s.rows[i].currentNumber >= s.rows[i].endNumber
  }

  /** Row `i` is stuck, and no request in flight would take it out of use or
      give it numbers back. */
  ghost predicate UsedUp(s: State, i: nat) {
    && Stuck(s, i)
    && forall id :: id in s.annulments && s.annulments[id].inFlight && Targets(s.annulments[id].draft.sims, s.rows[i], i)
         ==> && s.annulments[id].draft.sims[s.rows[i].ecfType].active
             && s.annulments[id].draft.sims[s.rows[i].ecfType].endNumber <= s.rows[i].currentNumber
  }

  lemma RequestKeepsUsedUp(s: State, id: nat, texts: seq<RangeText>, i: nat)
    requires AllocValid(s) && UsedUp(s, i)
    ensures UsedUp(RequestAnnulment(s, id, texts), i)
  {
    var s' := RequestAnnulment(s, id, texts);
    if s' != s {
      PlanIsExact(s.rows, s.ledger.invoices, texts);
      var d := s'.annulments[id].draft;
      if Targets(d.sims, s.rows[i], i) {
        assert SimIsExact(s.rows[i], d.sims[s.rows[i].ecfType], d.ranges);
      }
    }
  }

  lemma SettleKeepsUsedUp(s: State, id: nat, v: Verdict, i: nat)
    requires AllocValid(s) && UsedUp(s, i)
    ensures UsedUp(Settle(s, id, v), i) && Settle(s, id, v).rows[i].ecfType == s.rows[i].ecfType
  {
    var s' := Settle(s, id, v);
    assert forall k :: k in s'.annulments && s'.annulments[k].inFlight
             ==> k in s.annulments && s'.annulments[k] == s.annulments[k];
  }

  lemma UsedUpStep(s: State, e: Event, i: nat)
    requires AllocValid(s) && UsedUp(s, i)
    ensures UsedUp(Step(s, e), i) && Step(s, e).rows[i].ecfType == s.rows[i].ecfType
  {
    match e {
      case AskAnnulment(id, texts) => RequestKeepsUsedUp(s, id, texts, i);
      case EmitInvoice(q) =>
        if Emit(s, q).1.Created? {
          EmitIsEmitted(s, q);
        }
      case RegisterRow(t, first, last, expiresAt) =>
      case SettleAnnulment(id, v) => SettleKeepsUsedUp(s, id, v, i);
      case _ => assert Step(s, e).rows == s.rows && Step(s, e).annulments == s.annulments;
    }
  }

  lemma {:induction false} UsedUpStays(s: State, es: seq<Event>, k: nat, i: nat)
    requires Company.Valid(s) && UsedUp(s, i) && k <= |es|
    ensures Company.Valid(At(s, es, k)) && UsedUp(At(s, es, k), i) && At(s, es, k).rows[i].ecfType == s.rows[i].ecfType
  {
    hide Step;
    if k > 0 {
      UsedUpStays(s, es, k - 1, i);
      UsedUpStep(At(s, es, k - 1), es[k - 1], i);
      StepKeeps(At(s, es, k - 1), es[k - 1]);
    }
  }

  /** A request in flight that would free a stuck row does so when it is accepted. */
  lemma AcceptFrees(s: State, id: nat, i: nat)
    requires Company.Valid(s) && Stuck(s, i) && id in s.annulments && s.annulments[id].inFlight
    requires Targets(s.annulments[id].draft.sims, s.rows[i], i)
    requires var sim := s.annulments[id].draft.sims[s.rows[i].ecfType];
             !sim.active || sim.endNumber > s.rows[i].currentNumber
    ensures !Stuck(Settle(s, id, DgiiAccepted), i)
  {
    var a := s.annulments[id];
    assert AnnulmentOk(s, a);
    assert SimIsExact(a.snapshot[i], a.draft.sims[s.rows[i].ecfType], a.draft.ranges);
    assert MovedOn(a.snapshot[i], s.rows[i], s.authorized[i]);
  }

  /** A row stays stuck in every continuation exactly when no request in flight
      would take it out of use or give it numbers back: later requests cannot. */
  lemma {:induction false} StuckForGoodIff(s: State, i: nat)
    requires Company.Valid(s)
    ensures UsedUp(s, i) <==> forall es, k: nat :: k <= |es| ==> Stuck(At(s, es, k), i)
  {
    hide Step, UsedUp, Stuck, Company.Valid;
    if UsedUp(s, i) {
      forall es, k: nat | k <= |es|
        ensures Stuck(At(s, es, k), i)
      {
        UsedUpStays(s, es, k, i);
        UsedUpIsStuck(At(s, es, k), i);
      }
    } else {
      var es, k := Unstuck(s, i);
    }
  }

  lemma UsedUpIsStuck(s: State, i: nat)
    requires UsedUp(s, i)
    ensures Stuck(s, i)
  {}

  lemma Unstuck(s: State, i: nat) returns (es: seq<Event>, k: nat)
    requires Company.Valid(s) && !UsedUp(s, i)
    ensures k <= |es| && !Stuck(At(s, es, k), i)
  {
    hide Step, Company.Valid;
    if Stuck(s, i) {
      var id :| id in s.annulments && s.annulments[id].inFlight && Targets(s.annulments[id].draft.sims, s.rows[i], i)
                && (!s.annulments[id].draft.sims[s.rows[i].ecfType].active
                    || s.annulments[id].draft.sims[s.rows[i].ecfType].endNumber > s.rows[i].currentNumber);
      AcceptFrees(s, id, i);
      es, k := [SettleAnnulment(id, DgiiAccepted)], 1;
      RunUnfolds(s, es, 0);
      SettleStep(s, id, DgiiAccepted);
    } else {
      es, k := [], 0;
    }
  }

  lemma SettleStep(s: State, id: nat, v: Verdict)
    ensures Step(s, SettleAnnulment(id, v)) == Settle(s, id, v)
  {}

  // ----- active for good -----

  predicate Active(s: State, i: nat) {
    i < |s.rows| && s.rows[i].isActive
  }

  lemma {:induction false} UnusedId(annulments: map<nat, Annulment>) returns (id: nat)
    ensures id !in annulments
  {
    var ids := annulments.Keys;
    id := AboveAll(ids);
  }

  lemma {:induction false} AboveAll(ids: set<nat>) returns (bound: nat)
    ensures forall id :: id in ids ==> id < bound
  {
    if ids == {} {
      bound := 0;
    } else {
      var id :| id in ids;
      var rest := AboveAll(ids - {id});
      bound := if id < rest then rest else id + 1;
      assert forall k :: k in ids ==> k == id || k in ids - {id};
    }
  }

  function RestOf(row: Row): RangeText {
    RangeText(FormatEncf(row.ecfType, Max(row.currentNumber + 1, 0)), FormatEncf(row.ecfType, Max(row.endNumber, 0)))
  }

  /** A request for all that is left of a row plans to take it out of use. */
  lemma RestPlans(s: State, i: nat)
    requires AllocValid(s) && Active(s, i) && s.rows[i].currentNumber < s.rows[i].endNumber
    ensures var row := s.rows[i];
            Plan(s.rows, s.ledger.invoices, [RestOf(row)])
            == Ok(Draft([NumRange(row.ecfType, row.currentNumber + 1, row.endNumber)],
                        map[row.ecfType := SimState(i, row.startNumber, row.endNumber, row.currentNumber, false, true)]))
  {
    var row := s.rows[i];
    assert RowOk(row, s.authorized[i]);
    TenDigits();
    ParseOfFormat(row.ecfType, row.currentNumber + 1);
    ParseOfFormat(row.ecfType, row.endNumber);
    ActiveIsFound(s.rows, i);
    assert [RestOf(row)][..0] == [];
    assert PlanRanges(s.rows, s.ledger.invoices, []) == Ok(Draft([], map[]));
    var r := NumRange(row.ecfType, row.currentNumber + 1, row.endNumber);
    assert [] + [r] == [r];
  }

  /** So a row with numbers left can be annulled away. */
  lemma RestAnnulled(s: State, i: nat) returns (es: seq<Event>)
    requires AllocValid(s) && Active(s, i) && s.rows[i].currentNumber < s.rows[i].endNumber
    ensures |es| == 2 && !Active(At(s, es, 2), i)
  {
    hide Plan;
    var id := UnusedId(s.annulments);
    RestPlans(s, i);
    es := [AskAnnulment(id, [RestOf(s.rows[i])]), SettleAnnulment(id, DgiiAccepted)];
    RunUnfolds(s, es, 0);
    RunUnfolds(s, es, 1);
    var asked := RequestAnnulment(s, id, [RestOf(s.rows[i])]);
    assert asked.rows == s.rows && asked.annulments[id].inFlight;
    assert !Settle(asked, id, DgiiAccepted).rows[i].isActive;
  }

  lemma {:induction false} AtAppend(s: State, es: seq<Event>, fs: seq<Event>, k: nat)
    requires k <= |fs|
    ensures At(s, es + fs, |es| + k) == At(At(s, es, |es|), fs, k)
  {
    hide Step;
    if k > 0 {
      AtAppend(s, es, fs, k - 1);
    } else {
      AtPrefix(s, es, fs, |es|);
    }
  }

  lemma {:induction false} AtPrefix(s: State, es: seq<Event>, fs: seq<Event>, k: nat)
    requires k <= |es|
    ensures At(s, es + fs, k) == At(s, es, k)
  {
    hide Step;
    if k > 0 {
      AtPrefix(s, es, fs, k - 1);
    }
  }

  lemma Deactivated(s: State, i: nat) returns (es: seq<Event>, k: nat)
    requires Company.Valid(s) && Active(s, i) && !UsedUp(s, i)
    ensures k <= |es| && !Active(At(s, es, k), i)
  {
    hide Step, Company.Valid, UsedUp;
    var freed, m := Unstuck(s, i);
    var s' := At(s, freed[..m], m);
    AtPrefix(s, freed[..m], freed[m..], m);
    assert freed[..m] + freed[m..] == freed;
    if !Active(s', i) {
      es, k := freed, m;
    } else {
      ContinuationValid(s, freed[..m], m);
      var rest := RestAnnulled(s', i);
      es, k := freed[..m] + rest, m + 2;
      AtAppend(s, freed[..m], rest, 2);
    }
  }

  lemma {:induction false} ContinuationValid(s: State, es: seq<Event>, k: nat)
    requires Company.Valid(s) && k <= |es|
    ensures Company.Valid(At(s, es, k)) && AllocValid(At(s, es, k))
  {
    hide Step;
    if k > 0 {
      ContinuationValid(s, es, k - 1);
      StepKeeps(At(s, es, k - 1), es[k - 1]);
    }
  }

  /** An active row, expired or not, stays active in every continuation exactly when it
      has no number left and no request in flight would take it out of use or give it
      numbers back. */
  lemma {:induction false} ActiveForGoodIff(s: State, i: nat)
    requires Company.Valid(s) && Active(s, i)
    ensures UsedUp(s, i) <==> forall es, k: nat :: k <= |es| ==> Active(At(s, es, k), i)
  {
    hide Step, UsedUp, Stuck, Active, Company.Valid;
    if UsedUp(s, i) {
      forall es, k: nat | k <= |es|
        ensures Active(At(s, es, k), i)
      {
        UsedUpStays(s, es, k, i);
        UsedUpIsStuck(At(s, es, k), i);
        StuckIsActive(At(s, es, k), i);
      }
    } else {
      var es, k := Deactivated(s, i);
    }
  }

  lemma StuckIsActive(s: State, i: nat)
    requires Stuck(s, i)
    ensures Active(s, i)
  {}

  // ----- an expired row -----

  /** The answer that takes row `i` out of use. */
  ghost predicate Deactivates(s: State, e: Event, i: nat) {
    && e.SettleAnnulment? && e.verdict == DgiiAccepted && e.id in s.annulments && s.annulments[e.id].inFlight
    && i < |s.rows| && Targets(s.annulments[e.id].draft.sims, s.rows[i], i)
    && !s.annulments[e.id].draft.sims[s.rows[i].ecfType].active
  }

  /** Neither age nor exhaustion takes a row out of use: only the acceptance of an
      annulment of all that was left of it. */
  lemma OnlyAcceptanceDeactivates(s: State, e: Event, i: nat)
    requires AllocValid(s) && Active(s, i)
    ensures Active(Step(s, e), i) <==> !Deactivates(s, e, i)
    ensures i < |Step(s, e).rows| && Step(s, e).rows[i].ecfType == s.rows[i].ecfType && Step(s, e).rows[i].expiresAt == s.rows[i].expiresAt
  {
    match e {
      case RegisterRow(t, first, last, expiresAt) =>
      case EmitInvoice(q) =>
        if Emit(s, q).1.Created? {
          EmitIsEmitted(s, q);
        }
      case AskAnnulment(id, texts) =>
      case SettleAnnulment(id, v) =>
        if id in s.annulments {
          assert AnnulmentOk(s, s.annulments[id]);
        }
      case _ => assert Step(s, e).rows == s.rows;
    }
  }

  ghost predicate NeverDeactivated(s: State, es: seq<Event>, k: nat, i: nat)
    requires k <= |es|
  {
    k > 0 ==> !Deactivates(At(s, es, k - 1), es[k - 1], i) && NeverDeactivated(s, es, k - 1, i)
  }

  lemma {:induction false} ActiveUntilAccepted(s: State, es: seq<Event>, k: nat, i: nat)
    requires Company.Valid(s) && Active(s, i) && k <= |es| && NeverDeactivated(s, es, k, i)
    ensures Company.Valid(At(s, es, k)) && AllocValid(At(s, es, k)) && Active(At(s, es, k), i)
    ensures At(s, es, k).rows[i].ecfType == s.rows[i].ecfType && At(s, es, k).rows[i].expiresAt == s.rows[i].expiresAt
  {
    hide Step, Deactivates;
    if k > 0 {
      ActiveUntilAccepted(s, es, k - 1, i);
      StepKeeps(At(s, es, k - 1), es[k - 1]);
      OnlyAcceptanceDeactivates(At(s, es, k - 1), es[k - 1], i);
    }
  }

  /** An active row that has expired blocks its type until such an acceptance: every
      emission after its date and every registration is refused, in every continuation. */
  lemma {:induction false} ExpiredRowBlocksItsType(s: State, es: seq<Event>, k: nat, i: nat, q: EmitRequest, first: int, last: int, expiresAt: Option<int>)
    requires Company.Valid(s) && Active(s, i) && k <= |es| && NeverDeactivated(s, es, k, i)
    requires q.ecfType == s.rows[i].ecfType && s.rows[i].expiresAt.Some? && s.rows[i].expiresAt.value < q.now
    ensures !Emit(At(s, es, k), q).1.Created?
    ensures Register(At(s, es, k).rows, q.ecfType, first, last, expiresAt).Err?
  {
    hide Step;
    ActiveUntilAccepted(s, es, k, i);
    ActiveIsFound(At(s, es, k).rows, i);
  }

  // ----- what a stuck row blocks -----

  /** While a row is stuck, every emission and every registration of its type is
      refused. */
  lemma StuckRefuses(s: State, i: nat, q: EmitRequest, first: int, last: int, expiresAt: Option<int>)
    requires AllocValid(s) && Stuck(s, i) && q.ecfType == s.rows[i].ecfType
    ensures !Emit(s, q).1.Created?
    ensures Register(s.rows, q.ecfType, first, last, expiresAt).Err?
  {
    ActiveIsFound(s.rows, i);
  }

  /** From a used-up row on, its type is blocked in every continuation. */
  lemma {:induction false} UsedUpRowBlocksItsType(s: State, es: seq<Event>, k: nat, i: nat, q: EmitRequest, first: int, last: int, expiresAt: Option<int>)
    requires Company.Valid(s) && UsedUp(s, i) && k <= |es| && q.ecfType == s.rows[i].ecfType
    ensures !Emit(At(s, es, k), q).1.Created?
    ensures Register(At(s, es, k).rows, q.ecfType, first, last, expiresAt).Err?
  {
    hide Step, Emit;
    UsedUpStays(s, es, k, i);
    StuckRefuses(At(s, es, k), i, q, first, last, expiresAt);
  }

  const USED_UP: seq<Event> := [RegisterRow(E31, 1, 2, None), EmitInvoice(PLAIN), EmitInvoice(PLAIN)]

  /** Two numbers registered and both issued: the row is used up. */
  lemma UsedUpIsReached()
    ensures UsedUp(At(Init(3, 0), USED_UP, 3), 0)
  {
    hide At;
    var s0, es := Init(3, 0), USED_UP;
    RunUnfolds(s0, es, 0);
    var s1 := At(s0, es, 1);
    assert s1 == AddRow(s0, Row(E31, 1, 0, 2, None, true));
    RunUnfolds(s0, es, 1);
    RunUnfolds(s0, es, 2);
    TwoPlainEmissions(s1);
  }

  /** A stuck row that a request in flight takes out of use, and its replacement:
      numbers were issued up to the end while the request was away. */
  lemma StuckRowIsReplaced()
    ensures Stuck(At(Init(3, 0), REUSED_NUMBER, 5), 0)
    ensures |At(Init(3, 0), REUSED_NUMBER, 8).rows| == 2 && At(Init(3, 0), REUSED_NUMBER, 8).rows[1].isActive
  {
    hide At;
    ReusedNumberEmissions();
    ReusedNumberRegistered();
  }
}
