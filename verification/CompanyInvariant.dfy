/** Every event keeps the invariant: the allocator's part (no orphan numbers,
    cuts are annulments, plans stay exact) and the ledger's part. */
module CompanyInvariant {
  import opened EcfTypes
  import opened Encf
  import opened Sequences
  import opened Pipeline
  import opened Company
  import Usage

  // ----- frames -----

  /** Annulments are only added, and only lose the status PENDING. */
  ghost predicate AnnulmentsGrow(before: map<nat, Annulment>, after: map<nat, Annulment>) {
    forall id :: id in before ==>
      && id in after
      && after[id].draft == before[id].draft
      && (before[id].status == AnnulAccepted ==> after[id].status == AnnulAccepted)
  }

  lemma AcceptedGrows(before: map<nat, Annulment>, after: map<nat, Annulment>, t: EcfType, i: int, n: int)
    requires AnnulmentsGrow(before, after) && AcceptedOn(before, t, i, n)
    ensures AcceptedOn(after, t, i, n)
  {
    var id :| id in before && before[id].status == AnnulAccepted && Hits(before[id].draft, t, i, n);
    assert id in after;
  }

  // ----- registration -----

  lemma RegisterKeeps(s: State, t: EcfType, first: int, last: int, expiresAt: Option<int>)
    requires AllocValid(s)
    ensures AllocValid(Step(s, RegisterRow(t, first, last, expiresAt)))
  {
    hide Register;
    var s' := Step(s, RegisterRow(t, first, last, expiresAt));
    if Register(s.rows, t, first, last, expiresAt).Ok? {
      var row := Register(s.rows, t, first, last, expiresAt).value;
      NewRowOk(s, t, first, last, expiresAt);
      IssuedWithMore(s.rows, row, s.ledger.invoices);
    }
  }

  lemma IssuedWithMore(rows: seq<Row>, row: Row, invoices: seq<Invoice>)
    requires forall j :: 0 <= j < |invoices| ==> Issued(rows, invoices[j])
    ensures forall j :: 0 <= j < |invoices| ==> Issued(rows + [row], invoices[j])
  {
    forall j | 0 <= j < |invoices|
      ensures Issued(rows + [row], invoices[j])
    {
      var i, n :| 0 <= i < |rows| && IssuedBy(rows[i], invoices[j], n);
      assert (rows + [row])[i] == rows[i];
    }
  }

  lemma NewRowOk(s: State, t: EcfType, first: int, last: int, expiresAt: Option<int>)
    requires AllocValid(s) && Register(s.rows, t, first, last, expiresAt).Ok?
    ensures var row := Register(s.rows, t, first, last, expiresAt).value;
            && row.startNumber == row.currentNumber + 1 && RowOk(row, row.endNumber)
            && RowsOk(s.rows + [row], s.authorized + [row.endNumber])
  {}

  // ----- emission -----

  /** The state after row `i` hands out its next number to a new invoice. */
  ghost predicate Emitted(s: State, s': State, i: nat, inv: Invoice) {
    && i < |s.rows|
    && s.rows[i].Assignable(s.rows[i].currentNumber + 1)
    && s'.rows == s.rows[i := s.rows[i].(currentNumber := s.rows[i].currentNumber + 1)]
    && s'.authorized == s.authorized && s'.annulments == s.annulments
    && s'.ledger.invoices == s.ledger.invoices + [inv]
    && inv.ecfType == s.rows[i].ecfType
    && s.rows[i].currentNumber >= 0
    && inv.encf == FormatEncf(inv.ecfType, s.rows[i].currentNumber + 1)
  }

  lemma EmittedKeepsNumbers(s: State, s': State, i: nat, inv: Invoice)
    requires NoOrphans(s) && Emitted(s, s', i, inv)
    ensures NoOrphans(s')
  {
    var invoices := s.ledger.invoices;
    forall j, m: nat | 0 <= j < |s'.rows| && s'.rows[j].startNumber <= m <= s'.rows[j].currentNumber
      ensures HasInvoice(s'.ledger.invoices, s'.rows[j].ecfType, m) || AcceptedOn(s'.annulments, s'.rows[j].ecfType, j, m)
    {
      if j == i && m == s'.rows[i].currentNumber {
        assert s'.ledger.invoices[|invoices|].encf == FormatEncf(s'.rows[j].ecfType, m);
      } else if HasInvoice(invoices, s.rows[j].ecfType, m) {
        var k :| 0 <= k < |invoices| && invoices[k].encf == FormatEncf(s.rows[j].ecfType, m);
        assert s'.ledger.invoices[k] == invoices[k];
      }
    }
  }

  lemma EmittedKeepsIssued(s: State, s': State, i: nat, inv: Invoice)
    requires forall j :: 0 <= j < |s.ledger.invoices| ==> Issued(s.rows, s.ledger.invoices[j])
    requires Emitted(s, s', i, inv) && s.rows[i].startNumber - 1 <= s.rows[i].currentNumber
    ensures forall j :: 0 <= j < |s'.ledger.invoices| ==> Issued(s'.rows, s'.ledger.invoices[j])
  {
    var invoices := s.ledger.invoices;
    forall k | 0 <= k < |s'.ledger.invoices|
      ensures Issued(s'.rows, s'.ledger.invoices[k])
    {
      if k == |invoices| {
        assert IssuedBy(s'.rows[i], inv, s'.rows[i].currentNumber);
      } else {
        var j, m :| 0 <= j < |s.rows| && IssuedBy(s.rows[j], invoices[k], m);
        assert IssuedBy(s'.rows[j], invoices[k], m);
      }
    }
  }

  lemma EmittedKeepsAnnulments(s: State, s': State, i: nat, inv: Invoice)
    requires AllocValid(s) && Emitted(s, s', i, inv)
    ensures RowsOk(s'.rows, s'.authorized) && Cuts(s')
    ensures forall id :: id in s'.annulments ==> AnnulmentOk(s', s'.annulments[id])
  {
    forall id | id in s'.annulments
      ensures AnnulmentOk(s', s'.annulments[id])
    {
      assert AnnulmentOk(s, s.annulments[id]);
    }
    forall j | 0 <= j < |s'.rows|
      ensures CutIsAccepted(s'.annulments, s'.rows[j], j, s'.authorized[j])
    {
      assert CutIsAccepted(s.annulments, s.rows[j], j, s.authorized[j]);
    }
    forall id, j | id in s'.annulments && 0 <= j < |s'.annulments[id].snapshot|
      ensures CutIsAccepted(s'.annulments, s'.annulments[id].snapshot[j], j, s'.authorized[j])
    {
      assert CutIsAccepted(s.annulments, s.annulments[id].snapshot[j], j, s.authorized[j]);
    }
  }

  lemma EmitIsEmitted(s: State, q: EmitRequest)
    requires RowsOk(s.rows, s.authorized) && Emit(s, q).1.Created?
    ensures var i := Assign(s.rows, q.ecfType, q.now).value;
            var inv := NewInvoice(q, NextNumber(s.rows[i]));
            && Emitted(s, Emit(s, q).0, i, inv)
            && !EncfTaken(s.ledger.invoices, inv)
            && (inv.idempotencyKey.Some? ==> FindByKey(s.ledger.invoices, inv.idempotencyKey.value).None?)
  {
    var i := Assign(s.rows, q.ecfType, q.now).value;
    assert RowOk(s.rows[i], s.authorized[i]);
  }

  lemma {:induction false} EmitKeepsAlloc(s: State, q: EmitRequest)
    requires AllocValid(s)
    ensures AllocValid(Emit(s, q).0)
  {
    if Emit(s, q).1.Created? {
      var s' := Emit(s, q).0;
      var i := Assign(s.rows, q.ecfType, q.now).value;
      var inv := NewInvoice(q, NextNumber(s.rows[i]));
      EmitIsEmitted(s, q);
      assert RowOk(s.rows[i], s.authorized[i]);
      EmittedKeepsNumbers(s, s', i, inv);
      EmittedKeepsIssued(s, s', i, inv);
      EmittedKeepsAnnulments(s, s', i, inv);
      NewEncfIsFresh(s, inv, s.rows[i].currentNumber + 1);
      assert Distinct(s'.ledger.invoices);
    }
  }

  lemma NewEncfIsFresh(s: State, inv: Invoice, n: nat)
    requires AllocValid(s)
    requires inv.encf == FormatEncf(inv.ecfType, n) && 0 < n <= INT_MAX
    requires !EncfTaken(s.ledger.invoices, inv)
    ensures forall k :: 0 <= k < |s.ledger.invoices| ==> s.ledger.invoices[k].encf != inv.encf
  {
    forall k | 0 <= k < |s.ledger.invoices|
      ensures s.ledger.invoices[k].encf != inv.encf
    {
      var was := s.ledger.invoices[k];
      var j, m :| 0 <= j < |s.rows| && IssuedBy(s.rows[j], was, m);
      assert RowOk(s.rows[j], s.authorized[j]);
      TenDigits();
      FormatInjective(was.ecfType, m, inv.ecfType, n);
    }
  }

  // ----- annulment -----

  lemma RequestKeeps(s: State, id: nat, texts: seq<RangeText>)
    requires AllocValid(s)
    ensures AllocValid(RequestAnnulment(s, id, texts))
  {
    var s' := RequestAnnulment(s, id, texts);
    if s' != s {
      var a := s'.annulments[id];
      PlanIsExact(s.rows, s.ledger.invoices, texts);
      assert AnnulmentOk(s', a);
      AllocFrame(s, s');
    }
  }

  /** Rows and invoices untouched, annulments only grown: what was proved about
      accepted numbers stays. */
  lemma AllocFrame(s: State, s': State)
    requires AllocValid(s)
    requires s'.rows == s.rows && s'.authorized == s.authorized && s'.ledger == s.ledger
    requires AnnulmentsGrow(s.annulments, s'.annulments)
    requires forall id :: id in s'.annulments ==>
               && AnnulmentOk(s', s'.annulments[id])
               && (s'.annulments[id].snapshot == s.rows || (id in s.annulments && s'.annulments[id].snapshot == s.annulments[id].snapshot))
    ensures AllocValid(s')
  {
    forall t, i, n | AcceptedOn(s.annulments, t, i, n)
      ensures AcceptedOn(s'.annulments, t, i, n)
    {
      AcceptedGrows(s.annulments, s'.annulments, t, i, n);
    }
    assert Cuts(s') by {
      forall i | 0 <= i < |s'.rows|
        ensures CutIsAccepted(s'.annulments, s'.rows[i], i, s'.authorized[i])
      {
        assert CutIsAccepted(s.annulments, s.rows[i], i, s.authorized[i]);
      }
      forall id, i | id in s'.annulments && 0 <= i < |s'.annulments[id].snapshot|
        ensures CutIsAccepted(s'.annulments, s'.annulments[id].snapshot[i], i, s'.authorized[i])
      {
        if id in s.annulments && s'.annulments[id].snapshot == s.annulments[id].snapshot {
          assert CutIsAccepted(s.annulments, s.annulments[id].snapshot[i], i, s.authorized[i]);
        } else {
          assert CutIsAccepted(s.annulments, s.rows[i], i, s.authorized[i]);
        }
      }
    }
  }

  /** What applying an exact plan does to one row that has moved on since. */
  lemma ApplySimFacts(was: Row, row: Row, authorized: int, sim: SimState, ranges: seq<NumRange>)
    requires SimIsExact(was, sim, ranges) && sim.touched
    requires MovedOn(was, row, authorized) && RowOk(row, authorized)
    ensures var after := ApplySim(row, sim);
            && RowOk(after, authorized)
            && after.ecfType == row.ecfType && after.startNumber == row.startNumber
            && row.currentNumber <= after.currentNumber
            && (after.isActive ==> row.isActive)
            && (forall n :: row.currentNumber < n <= after.currentNumber ==> Covered(ranges, row.ecfType, n))
            && (forall n :: after.endNumber < n <= was.endNumber && after.endNumber != row.endNumber ==> Covered(ranges, row.ecfType, n))
  {
    var after := ApplySim(row, sim);
    forall n | row.currentNumber < n <= after.currentNumber
      ensures Covered(ranges, row.ecfType, n)
    {
      assert was.currentNumber < n <= was.endNumber && !sim.Assignable(n);
    }
    forall n | after.endNumber < n <= was.endNumber && after.endNumber != row.endNumber
      ensures Covered(ranges, row.ecfType, n)
    {
      assert was.currentNumber < n <= was.endNumber && !sim.Assignable(n);
    }
  }

  lemma SettleKeeps(s: State, id: nat, v: Verdict)
    requires AllocValid(s)
    ensures AllocValid(Settle(s, id, v))
  {
    var s' := Settle(s, id, v);
    if s' != s {
      assert AnnulmentOk(s, s.annulments[id]);
      var a' := s'.annulments[id];
      if v != DgiiAccepted {
        forall k | k in s'.annulments
          ensures AnnulmentOk(s', s'.annulments[k])
        {
          assert AnnulmentOk(s, s.annulments[k]);
        }
        AllocFrame(s, s');
      } else {
        AcceptKeeps(s, id);
      }
    }
  }

  /** Row by row, the locked apply step keeps the bounds, forgets no number and
      cuts off only what the accepted ranges name. */
  lemma AcceptRow(s: State, id: nat, i: nat)
    requires AllocValid(s) && id in s.annulments && s.annulments[id].inFlight && i < |s.rows|
    ensures var s' := Settle(s, id, DgiiAccepted);
            var row, after := s.rows[i], s'.rows[i];
            && RowOk(after, s.authorized[i])
            && after.ecfType == row.ecfType && after.startNumber == row.startNumber
            && row.currentNumber <= after.currentNumber
            && (after.isActive ==> row.isActive)
            && (forall n :: row.currentNumber < n <= after.currentNumber ==> AcceptedOn(s'.annulments, row.ecfType, i, n))
            && CutIsAccepted(s'.annulments, after, i, s.authorized[i])
  {
    var s' := Settle(s, id, DgiiAccepted);
    var a := s.annulments[id];
    var row, after := s.rows[i], s'.rows[i];
    assert AnnulmentOk(s, a);
    assert CutIsAccepted(s.annulments, row, i, s.authorized[i]);
    forall t, j, n | AcceptedOn(s.annulments, t, j, n)
      ensures AcceptedOn(s'.annulments, t, j, n)
    {
      AcceptedGrows(s.annulments, s'.annulments, t, j, n);
    }
    hide AllocValid, AcceptedOn;
    if Targets(a.draft.sims, row, i) {
      var sim := a.draft.sims[row.ecfType];
      var was := a.snapshot[i];
      assert SimIsExact(was, sim, a.draft.ranges);
      ApplySimFacts(was, row, s.authorized[i], sim, a.draft.ranges);
      assert CutIsAccepted(s.annulments, was, i, s.authorized[i]);
      forall n | Covered(a.draft.ranges, row.ecfType, n)
        ensures AcceptedOn(s'.annulments, row.ecfType, i, n)
      {
        SettledHits(s, id, row.ecfType, i, n);
      }
    }
  }

  lemma SettledHits(s: State, id: nat, t: EcfType, i: int, n: int)
    requires id in s.annulments && s.annulments[id].inFlight && Hits(s.annulments[id].draft, t, i, n)
    ensures AcceptedOn(Settle(s, id, DgiiAccepted).annulments, t, i, n)
  {
    assert Hits(Settle(s, id, DgiiAccepted).annulments[id].draft, t, i, n);
  }

  lemma AcceptKeeps(s: State, id: nat)
    requires AllocValid(s) && id in s.annulments && s.annulments[id].inFlight
    ensures AllocValid(Settle(s, id, DgiiAccepted))
  {
    var s' := Settle(s, id, DgiiAccepted);
    forall i | 0 <= i < |s.rows|
      ensures RowOk(s'.rows[i], s.authorized[i])
      ensures s'.rows[i].ecfType == s.rows[i].ecfType && s'.rows[i].startNumber == s.rows[i].startNumber
      ensures s.rows[i].currentNumber <= s'.rows[i].currentNumber
      ensures s'.rows[i].isActive ==> s.rows[i].isActive
      ensures forall n :: s.rows[i].currentNumber < n <= s'.rows[i].currentNumber ==> AcceptedOn(s'.annulments, s.rows[i].ecfType, i, n)
      ensures CutIsAccepted(s'.annulments, s'.rows[i], i, s.authorized[i])
    {
      AcceptRow(s, id, i);
    }
    forall t, j, n | AcceptedOn(s.annulments, t, j, n)
      ensures AcceptedOn(s'.annulments, t, j, n)
    {
      AcceptedGrows(s.annulments, s'.annulments, t, j, n);
    }
    forall k | k in s'.annulments
      ensures AnnulmentOk(s', s'.annulments[k])
      ensures forall i :: 0 <= i < |s'.annulments[k].snapshot| ==> CutIsAccepted(s'.annulments, s'.annulments[k].snapshot[i], i, s'.authorized[i])
    {
      assert AnnulmentOk(s, s.annulments[k]);
      forall i | 0 <= i < |s'.annulments[k].snapshot|
        ensures MovedOn(s'.annulments[k].snapshot[i], s'.rows[i], s'.authorized[i])
        ensures CutIsAccepted(s'.annulments, s'.annulments[k].snapshot[i], i, s'.authorized[i])
      {
        assert MovedOn(s.annulments[k].snapshot[i], s.rows[i], s.authorized[i]);
        assert CutIsAccepted(s.annulments, s.annulments[k].snapshot[i], i, s.authorized[i]);
      }
    }
    IssuedStays(s.rows, s'.rows, s.ledger.invoices);
  }

  lemma IssuedStays(rows: seq<Row>, after: seq<Row>, invoices: seq<Invoice>)
    requires |rows| == |after|
    requires forall i :: 0 <= i < |rows| ==>
               && after[i].ecfType == rows[i].ecfType && after[i].startNumber == rows[i].startNumber
               && rows[i].currentNumber <= after[i].currentNumber
    requires forall j :: 0 <= j < |invoices| ==> Issued(rows, invoices[j])
    ensures forall j :: 0 <= j < |invoices| ==> Issued(after, invoices[j])
  {
    forall j | 0 <= j < |invoices|
      ensures Issued(after, invoices[j])
    {
      var i, n :| 0 <= i < |rows| && IssuedBy(rows[i], invoices[j], n);
      assert IssuedBy(after[i], invoices[j], n);
    }
  }

  // ----- the ledger under the allocator -----

  /** Jobs and requests of the pipeline leave the allocator's view unchanged. */
  lemma LedgerFrame(s: State, l: Ledger)
    requires AllocValid(s)
    requires |l.invoices| == |s.ledger.invoices|
    requires forall j :: 0 <= j < |l.invoices| ==> RowKept(s.ledger.invoices[j], l.invoices[j])
    ensures AllocValid(s.(ledger := l))
  {
    var s' := s.(ledger := l);
    forall i, n: nat | 0 <= i < |s.rows| && s.rows[i].startNumber <= n <= s.rows[i].currentNumber
      ensures HasInvoice(l.invoices, s.rows[i].ecfType, n) || AcceptedOn(s.annulments, s.rows[i].ecfType, i, n)
    {
      if HasInvoice(s.ledger.invoices, s.rows[i].ecfType, n) {
        var j :| 0 <= j < |l.invoices| && s.ledger.invoices[j].encf == FormatEncf(s.rows[i].ecfType, n);
        assert RowKept(s.ledger.invoices[j], l.invoices[j]);
      }
    }
    forall j | 0 <= j < |l.invoices|
      ensures Issued(s.rows, l.invoices[j])
    {
      assert RowKept(s.ledger.invoices[j], l.invoices[j]);
      var i, n :| 0 <= i < |s.rows| && IssuedBy(s.rows[i], s.ledger.invoices[j], n);
      assert IssuedBy(s.rows[i], l.invoices[j], n);
    }
    forall id | id in s'.annulments
      ensures AnnulmentOk(s', s'.annulments[id])
    {
      assert AnnulmentOk(s, s.annulments[id]);
    }
  }

  lemma EmitKeepsLedger(s: State, q: EmitRequest)
    requires Pipeline.Valid(s.ledger)
    ensures Pipeline.Valid(Emit(s, q).0.ledger)
  {
    hide Pipeline.Valid;
    if Emit(s, q).1.Created? {
      var i := Assign(s.rows, q.ecfType, q.now).value;
      ChargedInvoiceKeeps(s.ledger, NewInvoice(q, NextNumber(s.rows[i])));
    }
  }

  lemma ChargedInvoiceKeeps(l: Ledger, inv: Invoice)
    requires Pipeline.Valid(l) && Usage.Consume(l.meter).1 != Usage.QuotaExceeded
    requires inv.status == QUEUED && inv.trackId.None? && !inv.usageReverted
    ensures Pipeline.Valid(l.(invoices := l.invoices + [inv], meter := Usage.Consume(l.meter).0))
  {
    Usage.ConsumeKeepsValid(l.meter);
    assert (l.invoices + [inv])[..|l.invoices|] == l.invoices;
  }

  // ----- contingency batch -----

  /** After some items: the rows of other invoices are untouched, every row was kept. */
  ghost predicate BatchKept(before: Ledger, after: Ledger, done: seq<nat>) {
    && Kept(before, after)
    && (forall i :: 0 <= i < |before.invoices| && i !in done ==> after.invoices[i] == before.invoices[i])
  }

  lemma RetryTouchesOnly(l: Ledger, i: nat, w: RetryWorld)
    requires i < |l.invoices|
    ensures forall j :: 0 <= j < |l.invoices| && j != i ==> Retry(l, i, w).0.invoices[j] == l.invoices[j]
  {}

  lemma BatchStepKeeps(l: Ledger, mid: Ledger, done: seq<nat>, i: nat, w: RetryWorld)
    requires BatchKept(l, mid, done) && i < |l.invoices| && i !in done
    ensures BatchKept(l, Retry(mid, i, w).0, done + [i])
  {
    var after := Retry(mid, i, w).0;
    RetryKeeps(mid, i, w);
    RetryTouchesOnly(mid, i, w);
    forall j | 0 <= j < |l.invoices|
      ensures RowKept(l.invoices[j], after.invoices[j])
      ensures j !in done + [i] ==> after.invoices[j] == l.invoices[j]
    {
      assert RowKept(l.invoices[j], mid.invoices[j]) && RowKept(mid.invoices[j], after.invoices[j]);
    }
  }

  lemma RunBatchUnfolds(l: Ledger, world: nat -> RetryWorld, k: nat)
    requires 0 < k <= |Batch(l.invoices)|
    ensures var b, after := RunBatch(l, world, k - 1), RunBatch(l, world, k);
            if b.alive then
              && after.ledger == Retry(b.ledger, Batch(l.invoices)[k - 1], world(k - 1)).0
              && (after.alive <==> Retry(b.ledger, Batch(l.invoices)[k - 1], world(k - 1)).1 != Crashed)
              && (after.alive ==> after.processed + after.failed == b.processed + b.failed + 1)
            else after == b
  {}

  lemma {:induction false} RunBatchKeeps(l: Ledger, world: nat -> RetryWorld, k: nat)
    requires Pipeline.Valid(l) && k <= |Batch(l.invoices)|
    ensures BatchKept(l, RunBatch(l, world, k).ledger, Batch(l.invoices)[..k])
  {
    hide Kept, RunBatch;
    if k == 0 {
      BatchStarts(l, world);
      NothingKeeps(l);
    } else {
      RunBatchKeeps(l, world, k - 1);
      RunBatchUnfolds(l, world, k);
      var ids := Batch(l.invoices);
      var mid := RunBatch(l, world, k - 1).ledger;
      assert ids[..k] == ids[..k - 1] + [ids[k - 1]];
      if RunBatch(l, world, k - 1).alive {
        BatchStepKeeps(l, mid, ids[..k - 1], ids[k - 1], world(k - 1));
      }
    }
  }

  /** A batch that no crash ends counts each of its invoices once. */
  lemma {:induction false} BatchCountsEveryInvoice(l: Ledger, world: nat -> RetryWorld, k: nat)
    requires k <= |Batch(l.invoices)| && RunBatch(l, world, k).alive
    ensures RunBatch(l, world, k).processed + RunBatch(l, world, k).failed == k
  {
    if k > 0 {
      RunBatchUnfolds(l, world, k);
      BatchCountsEveryInvoice(l, world, k - 1);
    }
  }

  lemma ProcessQueueKeeps(l: Ledger, health: Call, world: nat -> RetryWorld)
    requires Pipeline.Valid(l)
    ensures Kept(l, ProcessQueue(l, health, world))
  {
    RunBatchKeeps(l, world, |Batch(l.invoices)|);
  }

  // ----- every event -----

  lemma StepJobKeeps(l: Ledger, e: Event)
    requires Pipeline.Valid(l) && (e.ProcessJob? || e.PollJob? || e.ContingencyTick?)
    ensures Kept(l, StepLedger(l, e))
  {
    match e {
      case ProcessJob(i, w) => ProcessKeeps(l, i, w);
      case PollJob(i, w) => PollKeeps(l, i, w);
      case ContingencyTick(health, world) => ProcessQueueKeeps(l, health, world);
    }
  }

  lemma PurchaseKeeps(l: Ledger, count: nat)
    requires Pipeline.Valid(l)
    ensures Kept(l, l.(meter := Usage.Purchase(l.meter, count)))
  {
    Usage.PurchaseKeepsValid(l.meter, count);
  }

  lemma StepRequestKeeps(l: Ledger, e: Event)
    requires Pipeline.Valid(l) && !(e.ProcessJob? || e.PollJob? || e.ContingencyTick?)
    ensures Kept(l, StepLedger(l, e))
  {
    hide Kept;
    match e {
      case ManualPoll(i, query) => PollStatusKeeps(l, i, query);
      case VoidInvoice(i) => VoidKeeps(l, i);
      case RetryOne(i) => MarkForRetryKeeps(l, i);
      case RetryAll => MarkAllForRetryKeeps(l);
      case PurchaseTopup(count) => PurchaseKeeps(l, count);
      case _ => NothingKeeps(l);
    }
  }

  lemma StepLedgerKeeps(l: Ledger, e: Event)
    requires Pipeline.Valid(l)
    ensures Kept(l, StepLedger(l, e))
  {
    if e.ProcessJob? || e.PollJob? || e.ContingencyTick? {
      StepJobKeeps(l, e);
    } else {
      StepRequestKeeps(l, e);
    }
  }

  lemma StepKeeps(s: State, e: Event)
    requires Company.Valid(s)
    ensures Company.Valid(Step(s, e))
  {
    match e {
      case RegisterRow(t, first, last, expiresAt) => RegisterKeeps(s, t, first, last, expiresAt);
      case EmitInvoice(q) => EmitKeepsAlloc(s, q); EmitKeepsLedger(s, q);
      case AskAnnulment(id, texts) => RequestKeeps(s, id, texts);
      case SettleAnnulment(id, v) => SettleKeeps(s, id, v);
      case _ =>
        StepLedgerKeeps(s.ledger, e);
        LedgerFrame(s, StepLedger(s.ledger, e));
    }
  }

  lemma EmitStep(s: State, q: EmitRequest)
    ensures Step(s, EmitInvoice(q)) == Emit(s, q).0
  {}

  lemma AllocPart(s: State)
    requires Company.Valid(s)
    ensures AllocValid(s)
  {}

  lemma LedgerPart(s: State)
    requires Company.Valid(s)
    ensures Pipeline.Valid(s.ledger)
  {}

  /** The invariant holds in every state of every run. */
  lemma {:induction false} RunKeepsValid(s0: State, es: seq<Event>, k: nat)
    requires IsInit(s0) && k <= |es|
    ensures Company.Valid(At(s0, es, k))
  {
    if k > 0 {
      RunKeepsValid(s0, es, k - 1);
      StepKeeps(At(s0, es, k - 1), es[k - 1]);
    }
  }
}
