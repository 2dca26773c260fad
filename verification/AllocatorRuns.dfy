/** What holds of the numbers a company hands out, over every run that
    interleaves registration, emission and annulments in flight. */
module AllocatorRuns {
  import opened EcfTypes
  import opened Sequences
  import opened Company
  import opened CompanyInvariant

  // ----- an accepted annulment is never undone -----

  lemma StepGrowsAnnulments(s: State, e: Event)
    requires AllocValid(s)
    ensures AnnulmentsGrow(s.annulments, Step(s, e).annulments)
  {
    hide Settle, Emit, StepLedger, AllocValid;
    if e.SettleAnnulment? {
      SettleGrowsAnnulments(s, e.id, e.verdict);
    } else if e.EmitInvoice? {
      EmitKeepsAnnulments(s, e.request);
    }
  }

  lemma EmitKeepsAnnulments(s: State, q: EmitRequest)
    ensures Emit(s, q).0.annulments == s.annulments
  {
  }

  lemma SettleGrowsAnnulments(s: State, id: nat, v: Verdict)
    requires AllocValid(s)
    ensures AnnulmentsGrow(s.annulments, Settle(s, id, v).annulments)
  {
    if id in s.annulments {
      assert AnnulmentOk(s, s.annulments[id]);
    }
  }

  lemma RunGrowsAnnulments(s0: State, es: seq<Event>, k: nat)
    requires IsInit(s0) && 0 < k <= |es|
    ensures AnnulmentsGrow(At(s0, es, k - 1).annulments, At(s0, es, k).annulments)
  {
    RunKeepsValid(s0, es, k - 1);
    StepGrowsAnnulments(At(s0, es, k - 1), es[k - 1]);
  }

  lemma {:induction false} AcceptedForever(s0: State, es: seq<Event>, m: nat, k: nat, t: EcfType, i: int, n: int)
    requires IsInit(s0) && m <= k <= |es|
    requires AcceptedOn(At(s0, es, m).annulments, t, i, n)
    ensures AcceptedOn(At(s0, es, k).annulments, t, i, n)
  {
    hide Step;
    if m < k {
      var before, after := At(s0, es, k - 1).annulments, At(s0, es, k).annulments;
      AcceptedForever(s0, es, m, k - 1, t, i, n);
      RunGrowsAnnulments(s0, es, k);
      assert AcceptedOn(after, t, i, n) by {
        AcceptedGrows(before, after, t, i, n);
      }
    }
  }

  // ----- numbers annulled on a row stay out of its future -----

  ghost predicate RowSafe(s: State) {
    forall i, n :: 0 <= i < |s.rows| && s.rows[i].Assignable(n) ==> !AcceptedOn(s.annulments, s.rows[i].ecfType, i, n)
  }

  /** The check the locked apply step could make: the planned end number does not
      reach beyond the live end, unless the counters are already past it. */
  ghost predicate ApplyGuard(s: State, e: Event) {
    e.SettleAnnulment? && e.verdict == DgiiAccepted && e.id in s.annulments && s.annulments[e.id].inFlight ==>
      var sims := s.annulments[e.id].draft.sims;
      forall i :: 0 <= i < |s.rows| && s.rows[i].isActive && Targets(sims, s.rows[i], i) && sims[s.rows[i].ecfType].active
        ==> sims[s.rows[i].ecfType].endNumber
              <= Max(Max(s.rows[i].endNumber, s.rows[i].currentNumber), sims[s.rows[i].ecfType].currentNumber)
  }

  /** Accepting one request: what becomes accepted on a row, exactly. */
  lemma AcceptedAfter(s: State, id: nat, t: EcfType, i: int, n: int)
    requires Company.Valid(s) && id in s.annulments && s.annulments[id].inFlight
    ensures AcceptedOn(Settle(s, id, DgiiAccepted).annulments, t, i, n)
            <==> AcceptedOn(s.annulments, t, i, n) || Hits(s.annulments[id].draft, t, i, n)
  {
    var after := Settle(s, id, DgiiAccepted).annulments;
    if AcceptedOn(s.annulments, t, i, n) {
      AcceptedGrows(s.annulments, after, t, i, n);
    }
    if Hits(s.annulments[id].draft, t, i, n) {
      assert after[id].status == AnnulAccepted && Hits(after[id].draft, t, i, n);
    }
    if AcceptedOn(after, t, i, n) {
      var k :| k in after && after[k].status == AnnulAccepted && Hits(after[k].draft, t, i, n);
      assert k in s.annulments && Hits(s.annulments[k].draft, t, i, n);
    }
  }

  lemma AcceptGuarded(s: State, id: nat, i: nat, n: int)
    requires Company.Valid(s) && RowSafe(s) && id in s.annulments && s.annulments[id].inFlight
    requires ApplyGuard(s, SettleAnnulment(id, DgiiAccepted))
    requires i < |s.rows| && Settle(s, id, DgiiAccepted).rows[i].Assignable(n)
    ensures !AcceptedOn(Settle(s, id, DgiiAccepted).annulments, s.rows[i].ecfType, i, n)
  {
    var a := s.annulments[id];
    var row := s.rows[i];
    AcceptedAfter(s, id, row.ecfType, i, n);
    assert AnnulmentOk(s, a);
    if Targets(a.draft.sims, row, i) {
      var was, sim := a.snapshot[i], a.draft.sims[row.ecfType];
      assert SimIsExact(was, sim, a.draft.ranges) && MovedOn(was, row, s.authorized[i]);
      assert sim.Assignable(n) && was.currentNumber < n <= was.endNumber;
      assert row.Assignable(n);
    }
  }

  lemma AcceptUnguarded(s: State, id: nat)
    requires Company.Valid(s) && id in s.annulments && s.annulments[id].inFlight
    requires !ApplyGuard(s, SettleAnnulment(id, DgiiAccepted))
    ensures !RowSafe(Settle(s, id, DgiiAccepted))
  {
    var a := s.annulments[id];
    var s' := Settle(s, id, DgiiAccepted);
    var i :| 0 <= i < |s.rows| && s.rows[i].isActive && Targets(a.draft.sims, s.rows[i], i) && a.draft.sims[s.rows[i].ecfType].active
             && a.draft.sims[s.rows[i].ecfType].endNumber
                > Max(Max(s.rows[i].endNumber, s.rows[i].currentNumber), a.draft.sims[s.rows[i].ecfType].currentNumber);
    var row := s.rows[i];
    var n := a.draft.sims[row.ecfType].endNumber;
    assert AnnulmentOk(s, a);
    assert SimIsExact(a.snapshot[i], a.draft.sims[row.ecfType], a.draft.ranges) && MovedOn(a.snapshot[i], row, s.authorized[i]);
    assert s'.rows[i].Assignable(n);
    assert CutIsAccepted(s.annulments, row, i, s.authorized[i]);
    assert row.endNumber < n <= s.authorized[i];
    AcceptedAfter(s, id, row.ecfType, i, n);
  }

  /** Only an accept makes a number accepted. */
  lemma OnlyAcceptAccepts(s: State, e: Event, t: EcfType, i: int, n: int)
    requires !(e.SettleAnnulment? && e.verdict == DgiiAccepted)
    requires AcceptedOn(Step(s, e).annulments, t, i, n)
    ensures AcceptedOn(s.annulments, t, i, n)
  {
    if e.SettleAnnulment? || e.AskAnnulment? {
      var after := Step(s, e).annulments;
      var k :| k in after && after[k].status == AnnulAccepted && Hits(after[k].draft, t, i, n);
      assert k in s.annulments && s.annulments[k].status == AnnulAccepted;
    } else {
      assert Step(s, e).annulments == s.annulments;
    }
  }

  /** Only an accept or a new row gives a row more numbers to hand out. */
  lemma FutureShrinks(s: State, e: Event, i: nat, n: int)
    requires !(e.SettleAnnulment? && e.verdict == DgiiAccepted)
    requires i < |s.rows| && i < |Step(s, e).rows| && Step(s, e).rows[i].Assignable(n)
    ensures s.rows[i].Assignable(n) && s.rows[i].ecfType == Step(s, e).rows[i].ecfType
  {
    if !e.RegisterRow? && !e.EmitInvoice? {
      assert Step(s, e).rows == s.rows;
    }
  }

  lemma OtherStepsKeepRowSafe(s: State, e: Event)
    requires AllocValid(s) && RowSafe(s)
    requires !(e.SettleAnnulment? && e.verdict == DgiiAccepted)
    ensures RowSafe(Step(s, e))
  {
    var s' := Step(s, e);
    forall i, n | 0 <= i < |s'.rows| && s'.rows[i].Assignable(n)
      ensures !AcceptedOn(s'.annulments, s'.rows[i].ecfType, i, n)
    {
      var t := s'.rows[i].ecfType;
      if AcceptedOn(s'.annulments, t, i, n) {
        OnlyAcceptAccepts(s, e, t, i, n);
        var k :| k in s.annulments && s.annulments[k].status == AnnulAccepted && Hits(s.annulments[k].draft, t, i, n);
        assert AnnulmentOk(s, s.annulments[k]);
        assert i < |s.rows|;
        FutureShrinks(s, e, i, n);
      }
    }
  }

  lemma {:induction false} RowSafeStep(s: State, e: Event)
    requires Company.Valid(s) && RowSafe(s)
    ensures RowSafe(Step(s, e)) <==> ApplyGuard(s, e)
  {
    if e.SettleAnnulment? && e.verdict == DgiiAccepted {
      if e.id in s.annulments && s.annulments[e.id].inFlight {
        if ApplyGuard(s, e) {
          var s' := Settle(s, e.id, DgiiAccepted);
          forall i, n | 0 <= i < |s'.rows| && s'.rows[i].Assignable(n)
            ensures !AcceptedOn(s'.annulments, s'.rows[i].ecfType, i, n)
          {
            AcceptGuarded(s, e.id, i, n);
          }
        } else {
          AcceptUnguarded(s, e.id);
        }
      }
    } else {
      OtherStepsKeepRowSafe(s, e);
    }
  }

  ghost predicate AlwaysRowSafe(s0: State, es: seq<Event>, k: nat)
    requires k <= |es|
  {
    RowSafe(At(s0, es, k)) && (k > 0 ==> AlwaysRowSafe(s0, es, k - 1))
  }

  ghost predicate AlwaysApplyGuard(s0: State, es: seq<Event>, k: nat)
    requires k <= |es|
  {
    k > 0 ==> ApplyGuard(At(s0, es, k - 1), es[k - 1]) && AlwaysApplyGuard(s0, es, k - 1)
  }

  /** Annulments may overlap freely: every state of the run keeps annulled
      numbers out of their row's future exactly when every apply is guarded. */
  lemma {:induction false} AnnulledNumbersStayOutIff(s0: State, es: seq<Event>, k: nat)
    requires IsInit(s0) && k <= |es|
    ensures AlwaysRowSafe(s0, es, k) <==> AlwaysApplyGuard(s0, es, k)
  {
    if k > 0 {
      AnnulledNumbersStayOutIff(s0, es, k - 1);
      RunKeepsValid(s0, es, k - 1);
      if AlwaysRowSafe(s0, es, k - 1) {
        RowSafeStep(At(s0, es, k - 1), es[k - 1]);
      }
    }
  }

  /** The next number that an emission of this type would take, if any. */
  function NextFrom(s: State, q: EmitRequest): Option<(nat, nat)> {
    match Assign(s.rows, q.ecfType, q.now)
    case Err(_) => None
    case Ok(i) => Some((i, NextNumber(s.rows[i])))
  }

  /** Once the accept transaction has committed, no later emission takes a number
      inside the accepted range from that row. */
  lemma {:induction false} NoEmissionInsideAcceptedRange(s0: State, es: seq<Event>, m: nat, k: nat, q: EmitRequest, i: nat, n: nat)
    requires IsInit(s0) && m <= k <= |es| && AlwaysApplyGuard(s0, es, k)
    requires NextFrom(At(s0, es, k), q) == Some((i, n))
    ensures !AcceptedOn(At(s0, es, m).annulments, q.ecfType, i, n)
  {
    AnnulledNumbersStayOutIff(s0, es, k);
    RunKeepsValid(s0, es, k);
    var s := At(s0, es, k);
    assert RowOk(s.rows[i], s.authorized[i]) && s.rows[i].Assignable(n);
    if AcceptedOn(At(s0, es, m).annulments, q.ecfType, i, n) {
      AcceptedForever(s0, es, m, k, q.ecfType, i, n);
    }
  }

  // ----- the same across the rows of the company -----

  ghost predicate AcceptedNumber(annulments: map<nat, Annulment>, t: EcfType, n: int) {
    exists j :: AcceptedOn(annulments, t, j, n)
  }

  ghost predicate CompanySafe(s: State) {
    forall i, n :: 0 <= i < |s.rows| && s.rows[i].Assignable(n) ==> !AcceptedNumber(s.annulments, s.rows[i].ecfType, n)
  }

  /** The overlap query sees only current end numbers: a range cut off a row can
      be registered again. This is the check that it does not make. */
  ghost predicate RegisterGuard(s: State, e: Event) {
    e.RegisterRow? && Register(s.rows, e.ecfType, e.first, e.last, e.expiresAt).Ok? ==>
      forall n :: e.first <= n <= e.last ==> !AcceptedNumber(s.annulments, e.ecfType, n)
  }

  ghost predicate DisjointRows(s: State) {
    |s.rows| == |s.authorized| &&
    forall i, j :: 0 <= i < j < |s.rows| && s.rows[i].ecfType == s.rows[j].ecfType
      ==> s.authorized[i] < s.rows[j].startNumber || s.authorized[j] < s.rows[i].startNumber
  }

  lemma AcceptedWithinAuthorized(s: State, t: EcfType, j: int, n: int)
    requires Company.Valid(s) && AcceptedOn(s.annulments, t, j, n)
    ensures 0 <= j < |s.rows| && s.rows[j].ecfType == t && s.rows[j].startNumber <= n <= s.authorized[j]
  {
    var id :| id in s.annulments && s.annulments[id].status == AnnulAccepted && Hits(s.annulments[id].draft, t, j, n);
    var a := s.annulments[id];
    assert AnnulmentOk(s, a);
    var k :| 0 <= k < |a.draft.ranges| && Covers(a.draft.ranges[k], t, n);
    assert MovedOn(a.snapshot[j], s.rows[j], s.authorized[j]);
  }

  lemma CutNumberIsAccepted(s: State, i: nat, n: int)
    requires AllocValid(s) && i < |s.rows| && s.rows[i].endNumber < n <= s.authorized[i]
    ensures AcceptedNumber(s.annulments, s.rows[i].ecfType, n)
  {
    assert CutIsAccepted(s.annulments, s.rows[i], i, s.authorized[i]);
    assert AcceptedOn(s.annulments, s.rows[i].ecfType, i, n);
  }

  /** A guarded registration shares no number with what any row was registered for. */
  lemma RegisteredApart(s: State, e: Event, i: nat)
    requires AllocValid(s) && RegisterGuard(s, e)
    requires e.RegisterRow? && Register(s.rows, e.ecfType, e.first, e.last, e.expiresAt).Ok?
    requires i < |s.rows| && s.rows[i].ecfType == e.ecfType
    ensures s.authorized[i] < e.first || e.last < s.rows[i].startNumber
  {
    var row := s.rows[i];
    assert RowOk(row, s.authorized[i]);
    OverlapQueryIsIntersection(row, e.first, e.last);
    var n := Max(e.first, row.startNumber);
    assert n <= e.last ==> !row.Spans(n);
    if n <= s.authorized[i] && n <= e.last {
      CutNumberIsAccepted(s, i, n);
    }
  }

  lemma StepKeepsDisjoint(s: State, e: Event)
    requires AllocValid(s) && DisjointRows(s) && RegisterGuard(s, e)
    ensures DisjointRows(Step(s, e))
  {
    if e.RegisterRow? {
      if Register(s.rows, e.ecfType, e.first, e.last, e.expiresAt).Ok? {
        forall i | 0 <= i < |s.rows| && s.rows[i].ecfType == e.ecfType
          ensures s.authorized[i] < e.first || e.last < s.rows[i].startNumber
        {
          RegisteredApart(s, e, i);
        }
      }
    } else {
      assert Step(s, e).authorized == s.authorized;
      StepKeepsRowIdentity(s, e);
    }
  }

  lemma StepKeepsRowIdentity(s: State, e: Event)
    requires AllocValid(s) && !e.RegisterRow?
    ensures var s' := Step(s, e);
            |s'.rows| == |s.rows| &&
            forall i :: 0 <= i < |s.rows| ==> s'.rows[i].ecfType == s.rows[i].ecfType && s'.rows[i].startNumber == s.rows[i].startNumber
  {
    if !e.SettleAnnulment? && !e.EmitInvoice? {
      assert Step(s, e).rows == s.rows;
    }
  }

  /** Among disjoint rows an annulled number that a row still has is its own. */
  lemma AcceptedIsOwn(s: State)
    requires Company.Valid(s) && DisjointRows(s)
    ensures forall i, j, n :: 0 <= i < |s.rows| && s.rows[i].Assignable(n) && AcceptedOn(s.annulments, s.rows[i].ecfType, j, n) ==> i == j
  {
    forall i, j, n | 0 <= i < |s.rows| && s.rows[i].Assignable(n) && AcceptedOn(s.annulments, s.rows[i].ecfType, j, n)
      ensures i == j
    {
      AcceptedWithinAuthorized(s, s.rows[i].ecfType, j, n);
      assert RowOk(s.rows[i], s.authorized[i]);
    }
  }

  lemma CompanySafeFromRows(s: State)
    requires Company.Valid(s) && RowSafe(s) && DisjointRows(s)
    ensures CompanySafe(s)
  {
    AcceptedIsOwn(s);
  }

  lemma RowSafeFromCompany(s: State)
    requires CompanySafe(s)
    ensures RowSafe(s)
  {
    forall i, n | 0 <= i < |s.rows| && s.rows[i].Assignable(n)
      ensures !AcceptedOn(s.annulments, s.rows[i].ecfType, i, n)
    {
      assert !AcceptedNumber(s.annulments, s.rows[i].ecfType, n);
    }
  }

  /** A registration that returns numbers already annulled is unsafe at once. */
  lemma RegisterUnguarded(s: State, e: Event)
    requires !RegisterGuard(s, e)
    ensures !CompanySafe(Step(s, e))
  {
    var s' := AddRow(s, Register(s.rows, e.ecfType, e.first, e.last, e.expiresAt).value);
    assert Step(s, e) == s';
    var n :| e.first <= n <= e.last && AcceptedNumber(s.annulments, e.ecfType, n);
    assert s'.rows[|s.rows|].Assignable(n);
  }

  ghost predicate AlwaysCompanySafe(s0: State, es: seq<Event>, k: nat)
    requires k <= |es|
  {
    CompanySafe(At(s0, es, k)) && (k > 0 ==> AlwaysCompanySafe(s0, es, k - 1))
  }

  ghost predicate AlwaysGuarded(s0: State, es: seq<Event>, k: nat)
    requires k <= |es|
  {
    k > 0 ==>
      && ApplyGuard(At(s0, es, k - 1), es[k - 1])
      && RegisterGuard(At(s0, es, k - 1), es[k - 1])
      && AlwaysGuarded(s0, es, k - 1)
  }

  lemma {:induction false} GuardedRunsAreDisjoint(s0: State, es: seq<Event>, k: nat)
    requires IsInit(s0) && k <= |es| && AlwaysGuarded(s0, es, k)
    ensures DisjointRows(At(s0, es, k)) && RowSafe(At(s0, es, k))
  {
    if k > 0 {
      GuardedRunsAreDisjoint(s0, es, k - 1);
      RunKeepsValid(s0, es, k - 1);
      StepKeepsDisjoint(At(s0, es, k - 1), es[k - 1]);
      RowSafeStep(At(s0, es, k - 1), es[k - 1]);
    }
  }

  /** No row of the company will hand out an annulled number, in any state of the
      run, exactly when every apply and every registration is guarded. */
  lemma {:induction false} CompanyNeverReissuesIff(s0: State, es: seq<Event>, k: nat)
    requires IsInit(s0) && k <= |es|
    ensures AlwaysCompanySafe(s0, es, k) <==> AlwaysGuarded(s0, es, k)
  {
    RunKeepsValid(s0, es, k);
    if k > 0 {
      CompanyNeverReissuesIff(s0, es, k - 1);
      var s, e := At(s0, es, k - 1), es[k - 1];
      RunKeepsValid(s0, es, k - 1);
      if AlwaysGuarded(s0, es, k) {
        GuardedRunsAreDisjoint(s0, es, k);
        CompanySafeFromRows(At(s0, es, k));
      } else if AlwaysCompanySafe(s0, es, k) {
        RowSafeFromCompany(s);
        RowSafeFromCompany(Step(s, e));
        RowSafeStep(s, e);
        RegisterUnguarded(s, e);
      }
    }
  }
}
