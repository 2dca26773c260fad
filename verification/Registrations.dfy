/** From the registration of a range: what its row may hand out, and until when, in
    every continuation. */
module Registrations {
  import opened EcfTypes
  import opened Sequences
  import opened Company
  import opened CompanyInvariant

  /** Event `m` is the request that registered row `i`. */
  ghost predicate RegisteredAt(s0: State, es: seq<Event>, m: nat, i: nat)
    requires m < |es|
  {
    && es[m].RegisterRow?
    && Register(At(s0, es, m).rows, es[m].ecfType, es[m].first, es[m].last, es[m].expiresAt).Ok?
    && i == |At(s0, es, m).rows|
  }

  /** The columns of a row that come from its registration and never change. */
  ghost predicate RegisteredAs(s: State, i: nat, e: Event)
    requires e.RegisterRow?
  {
    && i < |s.rows| == |s.authorized|
    && s.rows[i].ecfType == e.ecfType && s.rows[i].startNumber == e.first
    && s.rows[i].expiresAt == e.expiresAt && s.authorized[i] == e.last
  }

  /** Exactly these numbers are left to hand out. */
  ghost predicate HandsOut(row: Row, first: int, last: int) {
    forall n :: row.Assignable(n) <==> first <= n <= last
  }

  lemma StepKeepsRegistered(s: State, e: Event, i: nat, request: Event)
    requires AllocValid(s) && request.RegisterRow? && RegisteredAs(s, i, request)
    ensures RegisteredAs(Step(s, e), i, request)
  {
    match e {
      case RegisterRow(t, first, last, expiresAt) =>
      case EmitInvoice(q) =>
        if Emit(s, q).1.Created? {
          EmitIsEmitted(s, q);
        }
      case AskAnnulment(id, texts) =>
      case SettleAnnulment(id, v) =>
      case _ =>
    }
  }

  /** The new row can hand out exactly the numbers of its range, from the first one. */
  lemma {:induction false} NewRowHandsOutItsRange(s0: State, es: seq<Event>, m: nat, i: nat)
    requires m < |es| && RegisteredAt(s0, es, m, i) && |At(s0, es, m).rows| == |At(s0, es, m).authorized|
    ensures RegisteredAs(At(s0, es, m + 1), i, es[m])
    ensures HandsOut(At(s0, es, m + 1).rows[i], es[m].first, es[m].last)
    ensures NextNumber(At(s0, es, m + 1).rows[i]) == es[m].first
  {}

  /** In every continuation the row keeps its type, range and date, and what it can
      still hand out is in its range. */
  lemma {:induction false} RowIsAsRegistered(s0: State, es: seq<Event>, m: nat, k: nat, i: nat)
    requires IsInit(s0) && m < k <= |es| && RegisteredAt(s0, es, m, i)
    ensures RegisteredAs(At(s0, es, k), i, es[m])
    ensures forall n :: At(s0, es, k).rows[i].Assignable(n) ==> es[m].first <= n <= es[m].last
    decreases k
  {
    hide Step;
    RunKeepsValid(s0, es, k - 1);
    if m == k - 1 {
      RowsCounted(At(s0, es, m));
      NewRowHandsOutItsRange(s0, es, m, i);
    } else {
      RowIsAsRegistered(s0, es, m, k - 1, i);
      StepKeepsRegistered(At(s0, es, k - 1), es[k - 1], i, es[m]);
    }
    RunKeepsValid(s0, es, k);
    RowWithinAuthorized(At(s0, es, k), i);
  }

  lemma RowsCounted(s: State)
    requires AllocValid(s)
    ensures |s.rows| == |s.authorized|
  {}

  lemma RowWithinAuthorized(s: State, i: nat)
    requires AllocValid(s) && i < |s.rows|
    ensures forall n :: s.rows[i].Assignable(n) ==> s.rows[i].startNumber <= n <= s.authorized[i]
  {
    assert RowOk(s.rows[i], s.authorized[i]);
  }

  /** No emission after the date of a registration takes its number from that row. */
  lemma {:induction false} NoNumberAfterTheDate(s0: State, es: seq<Event>, m: nat, k: nat, i: nat, q: EmitRequest)
    requires IsInit(s0) && m < k <= |es| && RegisteredAt(s0, es, m, i)
    requires es[m].expiresAt.Some? && es[m].expiresAt.value < q.now
    ensures i < |At(s0, es, k).rows| == |Emit(At(s0, es, k), q).0.rows|
    ensures Emit(At(s0, es, k), q).0.rows[i] == At(s0, es, k).rows[i]
  {
    hide Step;
    RowIsAsRegistered(s0, es, m, k, i);
  }

  /** Up to the date, or without one, the active row is never refused as expired; after
      it every request of the type with a new key is, and as nothing else. */
  lemma {:induction false} ExpiredExactlyAfterTheDate(s0: State, es: seq<Event>, m: nat, k: nat, i: nat, q: EmitRequest)
    requires IsInit(s0) && m < k <= |es| && RegisteredAt(s0, es, m, i) && es[m].ecfType == q.ecfType
    requires i < |At(s0, es, k).rows| && At(s0, es, k).rows[i].isActive
    requires q.idempotencyKey.None?
    ensures Emit(At(s0, es, k), q).1 == Refused(NoNumber(SequenceExpired))
            <==> es[m].expiresAt.Some? && es[m].expiresAt.value < q.now
  {
    hide Step;
    RowIsAsRegistered(s0, es, m, k, i);
    RunKeepsValid(s0, es, k);
    ActiveIsFound(At(s0, es, k).rows, i);
  }

  lemma OnlyRegistrationAdds(s: State, e: Event, i: nat)
    requires AllocValid(s) && |s.rows| <= i < |Step(s, e).rows|
    ensures e.RegisterRow? && Register(s.rows, e.ecfType, e.first, e.last, e.expiresAt).Ok? && i == |s.rows|
  {
    if e.EmitInvoice? && Emit(s, e.request).1.Created? {
      EmitIsEmitted(s, e.request);
    }
  }

  /** Every row of every run was registered by a request. */
  lemma {:induction false} EveryRowWasRegistered(s0: State, es: seq<Event>, k: nat, i: nat)
    requires IsInit(s0) && k <= |es| && i < |At(s0, es, k).rows|
    ensures exists m :: 0 <= m < k && RegisteredAt(s0, es, m, i)
  {
    hide Step;
    if k > 0 {
      RunKeepsValid(s0, es, k - 1);
      if i < |At(s0, es, k - 1).rows| {
        EveryRowWasRegistered(s0, es, k - 1, i);
      } else {
        OnlyRegistrationAdds(At(s0, es, k - 1), es[k - 1], i);
        assert RegisteredAt(s0, es, k - 1, i);
      }
    }
  }
}
