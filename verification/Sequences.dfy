/** Sequence rows, number assignment, and the plan and apply phases of a range
    annulment, as functions of the tables they read. */
module Sequences {
  import opened EcfTypes
  import opened Encf

  const INT_MAX := 2147483647
  const MAX_SPAN := 10000000
  const MAX_GAP_SCAN := 100000

  datatype Row = Row(
    ecfType: EcfType,
    startNumber: int,
    currentNumber: int,
    endNumber: int,
    expiresAt: Option<int>,
    isActive: bool)
  {
    /** `n` belongs to the registered interval, as the overlap query sees it. */
    predicate Spans(n: int) {
      startNumber <= n <= endNumber
    }

    /** `n` can still be handed out by this row. */
    predicate Assignable(n: int) {
      isActive && currentNumber < n <= endNumber
    }
  }

  // ----- registration -----

  datatype RegisterError =
    | StartNotBelowEnd
    | StartNotPositive
    | RangeTooLarge
    | IntegerOverflow
    | OverlapsExisting
    | AlreadyActive

  /** The three alternatives of the overlap query, in its own terms. */
  predicate Overlaps(r: Row, first: int, last: int) {
    || (r.startNumber <= first && r.endNumber >= first)
    || (r.startNumber <= last && r.endNumber >= last)
    || (r.startNumber >= first && r.endNumber <= last)
  }

  function Register(rows: seq<Row>, t: EcfType, first: int, last: int, expiresAt: Option<int>)
    : Result<Row, RegisterError>
  {
    if first >= last then Err(StartNotBelowEnd)
    else if first < 1 then Err(StartNotPositive)
    else if last - first > MAX_SPAN then Err(RangeTooLarge)
    else if last > INT_MAX then Err(IntegerOverflow)
    else if exists i :: 0 <= i < |rows| && rows[i].ecfType == t && Overlaps(rows[i], first, last) then Err(OverlapsExisting)
    else if exists i :: 0 <= i < |rows| && rows[i].ecfType == t && rows[i].isActive then Err(AlreadyActive)
    else Ok(Row(t, first, first - 1, last, expiresAt, true))
  }

  /** On rows whose bounds are in order the query finds exactly the rows that
      share a number with the new range. */
  lemma OverlapQueryIsIntersection(r: Row, first: int, last: int)
    requires r.startNumber <= r.endNumber && first <= last
    ensures Overlaps(r, first, last) <==> exists n :: first <= n <= last && r.Spans(n)
  {
    if Overlaps(r, first, last) {
      assert r.Spans(Max(first, r.startNumber));
    }
  }

  /** A registration succeeds exactly for a well-formed range that shares no number
      with any row of its type, when no row of the type is active. */
  lemma RegisterSucceedsIff(rows: seq<Row>, t: EcfType, first: int, last: int, expiresAt: Option<int>)
    requires forall i :: 0 <= i < |rows| ==> rows[i].startNumber <= rows[i].endNumber
    ensures Register(rows, t, first, last, expiresAt).Ok?
            <==> && 1 <= first < last <= Min(2147483647, first + 10000000)
                 && (forall i :: 0 <= i < |rows| && rows[i].ecfType == t ==>
                       !rows[i].isActive && forall n :: first <= n <= last ==> !rows[i].Spans(n))
    ensures var r := Register(rows, t, first, last, expiresAt);
            r.Ok? ==> r.value.ecfType == t && r.value.expiresAt == expiresAt
                        && r.value.startNumber == first && forall n :: r.value.Assignable(n) <==> first <= n <= last
  {
    if first < last {
      forall i | 0 <= i < |rows|
        ensures Overlaps(rows[i], first, last) <==> exists n :: first <= n <= last && rows[i].Spans(n)
      {
        OverlapQueryIsIntersection(rows[i], first, last);
      }
    }
  }

  // ----- assignment -----

  datatype AssignError = NoActiveSequence | SequenceExpired | SequenceExhausted

  /** First row of the type with isActive set, as `LIMIT 1` returns it. */
  function FindActive(rows: seq<Row>, t: EcfType): (r: Option<nat>)
    ensures r.Some? ==> r.value < |rows| && rows[r.value].ecfType == t && rows[r.value].isActive
    ensures r.None? ==> forall i :: 0 <= i < |rows| ==> !(rows[i].ecfType == t && rows[i].isActive)
  {
    if rows == [] then None
    else
      match FindActive(rows[..|rows| - 1], t)
      case Some(i) => Some(i)
      case None =>
        var last := rows[|rows| - 1];
        if last.ecfType == t && last.isActive then Some(|rows| - 1) else None
  }

  lemma ActiveIsFound(rows: seq<Row>, i: nat)
    requires i < |rows| && rows[i].isActive
    requires forall j, k :: 0 <= j < k < |rows| && rows[j].ecfType == rows[k].ecfType ==> !rows[j].isActive || !rows[k].isActive
    ensures FindActive(rows, rows[i].ecfType) == Some(i)
  {}

  function Assign(rows: seq<Row>, t: EcfType, now: int): (r: Result<nat, AssignError>)
    ensures r.Ok? ==> r.value < |rows| && rows[r.value].ecfType == t && rows[r.value].Assignable(rows[r.value].currentNumber + 1)
  {
    match FindActive(rows, t)
    case None => Err(NoActiveSequence)
    case Some(i) =>
      if rows[i].expiresAt.Some? && rows[i].expiresAt.value < now then Err(SequenceExpired)
      else if rows[i].currentNumber + 1 > rows[i].endNumber then Err(SequenceExhausted)
      else Ok(i)
  }

  /** With at most one active row a type, an assignment succeeds exactly when the
      active row is not expired and has its next number still inside. */
  lemma AssignSucceedsIff(rows: seq<Row>, t: EcfType, now: int)
    requires forall j, k :: 0 <= j < k < |rows| && rows[j].ecfType == rows[k].ecfType ==> !rows[j].isActive || !rows[k].isActive
    ensures Assign(rows, t, now).Ok?
            <==> exists i :: 0 <= i < |rows| && rows[i].ecfType == t && rows[i].Assignable(rows[i].currentNumber + 1)
                   && (rows[i].expiresAt.Some? ==> now <= rows[i].expiresAt.value)
    ensures Assign(rows, t, now) == Err(NoActiveSequence) <==> forall i :: 0 <= i < |rows| && rows[i].ecfType == t ==> !rows[i].isActive
    ensures Assign(rows, t, now) == Err(SequenceExpired)
            <==> exists i :: 0 <= i < |rows| && rows[i].ecfType == t && rows[i].isActive
                   && rows[i].expiresAt.Some? && rows[i].expiresAt.value < now
    ensures Assign(rows, t, now) == Err(SequenceExhausted)
            <==> exists i :: 0 <= i < |rows| && rows[i].ecfType == t && rows[i].isActive && rows[i].currentNumber >= rows[i].endNumber
                   && (rows[i].expiresAt.Some? ==> now <= rows[i].expiresAt.value)
  {
    forall i | 0 <= i < |rows| && rows[i].ecfType == t && rows[i].isActive
      ensures FindActive(rows, t) == Some(i)
    {
      ActiveIsFound(rows, i);
    }
  }

  function Advance(rows: seq<Row>, i: nat): seq<Row>
    requires i < |rows|
  {
    rows[i := rows[i].(currentNumber := rows[i].currentNumber + 1)]
  }

  // ----- annulment: ranges -----

  datatype RangeText = RangeText(encfFrom: string, encfTo: string)

  datatype NumRange = NumRange(ecfType: EcfType, first: nat, last: nat)

  predicate Covers(r: NumRange, t: EcfType, n: int) {
    r.ecfType == t && r.first <= n <= r.last
  }

  predicate Covered(rs: seq<NumRange>, t: EcfType, n: int) {
    exists k :: 0 <= k < |rs| && Covers(rs[k], t, n)
  }

  datatype PlanError =
    | NoRanges
    | InvalidEncf
    | MixedTypes
    | ReversedRange
    | NoActiveRow
    | DeactivatedByEarlierRange
    | OutsideRow
    | BlockedByInvoice
    | MiddleSegment

  function ParseRange(r: RangeText): Result<NumRange, PlanError> {
    if !IsValidEncf(r.encfFrom) || !IsValidEncf(r.encfTo) then Err(InvalidEncf)
    else if TypeOf(r.encfFrom) != TypeOf(r.encfTo) then Err(MixedTypes)
    else if NumberOf(r.encfFrom) > NumberOf(r.encfTo) then Err(ReversedRange)
    else Ok(NumRange(TypeOf(r.encfFrom), NumberOf(r.encfFrom), NumberOf(r.encfTo)))
  }

  // ----- annulment: plan -----

  /** The planner's simulated copy of one sequence row. */
  datatype SimState = SimState(
    id: nat,
    startNumber: int,
    endNumber: int,
    currentNumber: int,
    active: bool,
    touched: bool)
  {
    predicate Assignable(n: int) {
      active && currentNumber < n <= endNumber
    }
  }

  predicate Annullable(s: InvoiceStatus) {
    s == REJECTED || s == ERROR
  }

  /** The blocking query: an invoice whose eNCF text lies between the two ends
      and whose status forbids annulment. */
  predicate Blocked(invoices: seq<Invoice>, t: EcfType, first: nat, last: nat) {
    exists i :: 0 <= i < |invoices|
      && TextLeq(FormatEncf(t, first), invoices[i].encf) && TextLeq(invoices[i].encf, FormatEncf(t, last))
      && !Annullable(invoices[i].status)
  }

  function Snapshot(rows: seq<Row>, sims: map<EcfType, SimState>, t: EcfType): Option<SimState> {
    if t in sims then Some(sims[t])
    else
      match FindActive(rows, t)
      case None => None
      case Some(i) =>
        Some(SimState(i, rows[i].startNumber, rows[i].endNumber, rows[i].currentNumber, true, false))
  }

  /** The adjustment for the part of the range above the counter. */
  function PlanFuture(sim: SimState, first: int, last: int): Result<SimState, PlanError> {
    var aboveFrom := Max(first, sim.currentNumber + 1);
    if aboveFrom > last then Ok(sim)
    else if aboveFrom == sim.currentNumber + 1 && last == sim.endNumber then Ok(sim.(active := false, touched := true))
    else if last == sim.endNumber then Ok(sim.(endNumber := aboveFrom - 1, touched := true))
    else if aboveFrom == sim.currentNumber + 1 then Ok(sim.(currentNumber := last, touched := true))
    else Err(MiddleSegment)
  }

  function PlanSim(invoices: seq<Invoice>, sim: SimState, r: NumRange): (p: Result<SimState, PlanError>)
    ensures p.Ok? ==> p.value.id == sim.id
  {
    if !sim.active then Err(DeactivatedByEarlierRange)
    else if r.first < sim.startNumber || r.last > sim.endNumber then Err(OutsideRow)
    else
      var belowTo := Min(r.last, sim.currentNumber);
      if r.first <= belowTo then
        if Blocked(invoices, r.ecfType, r.first, belowTo) then Err(BlockedByInvoice)
        else PlanFuture(sim.(touched := true), r.first, r.last)
      else PlanFuture(sim, r.first, r.last)
  }

  datatype Draft = Draft(ranges: seq<NumRange>, sims: map<EcfType, SimState>)

  function PlanRange(rows: seq<Row>, invoices: seq<Invoice>, d: Draft, text: RangeText): Result<Draft, PlanError> {
    match ParseRange(text)
    case Err(e) => Err(e)
    case Ok(r) =>
      match Snapshot(rows, d.sims, r.ecfType)
      case None => Err(NoActiveRow)
      case Some(sim) =>
        match PlanSim(invoices, sim, r)
        case Err(e) => Err(e)
        case Ok(planned) => Ok(Draft(d.ranges + [r], d.sims[r.ecfType := planned]))
  }

  /** The planner over a whole request, range by range. */
  function PlanRanges(rows: seq<Row>, invoices: seq<Invoice>, texts: seq<RangeText>): Result<Draft, PlanError> {
    if texts == [] then Ok(Draft([], map[]))
    else
      match PlanRanges(rows, invoices, texts[..|texts| - 1])
      case Err(e) => Err(e)
      case Ok(d) => PlanRange(rows, invoices, d, texts[|texts| - 1])
  }

  function Plan(rows: seq<Row>, invoices: seq<Invoice>, texts: seq<RangeText>): Result<Draft, PlanError> {
    if texts == [] then Err(NoRanges) else PlanRanges(rows, invoices, texts)
  }

  // ----- what a plan means -----

  /** The simulated row takes away from the row's future numbers exactly those
      that some range of the request names. */
  ghost predicate SimIsExact(row: Row, sim: SimState, ranges: seq<NumRange>) {
    && sim.startNumber == row.startNumber
    && row.currentNumber <= sim.currentNumber <= Max(row.currentNumber, row.endNumber)
    && Min(row.endNumber, row.currentNumber + 1) <= sim.endNumber <= row.endNumber
    && (row.currentNumber < sim.currentNumber || !sim.active ==> sim.currentNumber < sim.endNumber)
    && (sim.touched || sim == SimState(sim.id, row.startNumber, row.endNumber, row.currentNumber, true, false))
    && (forall n :: row.currentNumber < n <= row.endNumber
          ==> (sim.Assignable(n) <==> !Covered(ranges, row.ecfType, n)))
  }

  ghost predicate DraftIsExact(rows: seq<Row>, d: Draft) {
    && (forall t :: t in d.sims ==>
          && d.sims[t].id < |rows|
          && d.sims[t].touched
          && rows[d.sims[t].id].ecfType == t && rows[d.sims[t].id].isActive
          && SimIsExact(rows[d.sims[t].id], d.sims[t], d.ranges))
    && (forall k :: 0 <= k < |d.ranges| ==>
          var r := d.ranges[k];
          && r.ecfType in d.sims
          && rows[d.sims[r.ecfType].id].startNumber <= r.first <= r.last <= rows[d.sims[r.ecfType].id].endNumber)
  }

  lemma CoveredAppend(rs: seq<NumRange>, r: NumRange, t: EcfType, n: int)
    ensures Covered(rs + [r], t, n) <==> Covered(rs, t, n) || Covers(r, t, n)
  {
    if Covered(rs, t, n) {
      var k :| 0 <= k < |rs| && Covers(rs[k], t, n);
      assert (rs + [r])[k] == rs[k];
    }
    if Covers(r, t, n) {
      assert (rs + [r])[|rs|] == r;
    }
  }

  lemma PlanSimIsExact(invoices: seq<Invoice>, row: Row, sim: SimState, ranges: seq<NumRange>, r: NumRange)
    requires SimIsExact(row, sim, ranges)
    requires r.ecfType == row.ecfType && r.first <= r.last
    requires PlanSim(invoices, sim, r).Ok?
    ensures SimIsExact(row, PlanSim(invoices, sim, r).value, ranges + [r])
    ensures PlanSim(invoices, sim, r).value.touched
    ensures row.startNumber <= r.first <= r.last <= row.endNumber
  {
    var planned := PlanSim(invoices, sim, r).value;
    forall n | row.currentNumber < n <= row.endNumber
      ensures planned.Assignable(n) <==> !Covered(ranges + [r], row.ecfType, n)
    {
      CoveredAppend(ranges, r, row.ecfType, n);
      assert sim.Assignable(n) <==> !Covered(ranges, row.ecfType, n);
    }
  }

  lemma PlanRangeIsExact(rows: seq<Row>, invoices: seq<Invoice>, d: Draft, text: RangeText)
    requires DraftIsExact(rows, d)
    requires PlanRange(rows, invoices, d, text).Ok?
    ensures DraftIsExact(rows, PlanRange(rows, invoices, d, text).value)
  {
    var r := ParseRange(text).value;
    var t := r.ecfType;
    var sim := Snapshot(rows, d.sims, t).value;
    var row := rows[sim.id];
    var d' := PlanRange(rows, invoices, d, text).value;
    if t !in d.sims {
      forall n | row.currentNumber < n <= row.endNumber
        ensures sim.Assignable(n) <==> !Covered(d.ranges, t, n)
      {}
    }
    assert SimIsExact(row, sim, d.ranges);
    PlanSimIsExact(invoices, row, sim, d.ranges, r);
    forall u | u in d'.sims
      ensures SimIsExact(rows[d'.sims[u].id], d'.sims[u], d'.ranges)
    {
      if u != t {
        forall n ensures Covered(d'.ranges, u, n) <==> Covered(d.ranges, u, n) {
          CoveredAppend(d.ranges, r, u, n);
        }
        assert SimIsExact(rows[d.sims[u].id], d.sims[u], d.ranges);
      }
    }
  }

  /** Planner soundness and completeness: on success every simulated row differs
      from its snapshot by exactly the numbers the request annuls. */
  lemma {:induction false} PlanIsExact(rows: seq<Row>, invoices: seq<Invoice>, texts: seq<RangeText>)
    requires PlanRanges(rows, invoices, texts).Ok?
    ensures DraftIsExact(rows, PlanRanges(rows, invoices, texts).value)
  {
    if texts != [] {
      PlanIsExact(rows, invoices, texts[..|texts| - 1]);
      PlanRangeIsExact(rows, invoices, PlanRanges(rows, invoices, texts[..|texts| - 1]).value, texts[|texts| - 1]);
    }
  }

  /** A live invoice of this type holds a number of the interval. */
  ghost predicate LiveInside(invoices: seq<Invoice>, t: EcfType, first: nat, last: nat) {
    exists i :: 0 <= i < |invoices| && IsValidEncf(invoices[i].encf)
      && TypeOf(invoices[i].encf) == t && first <= NumberOf(invoices[i].encf) <= last && !Annullable(invoices[i].status)
  }

  lemma BlockedIsLiveInside(invoices: seq<Invoice>, t: EcfType, first: nat, last: nat)
    requires 0 < first < Pow10(10) && 0 < last < Pow10(10)
    requires forall inv :: inv in invoices ==> IsValidEncf(inv.encf)
    ensures Blocked(invoices, t, first, last) <==> LiveInside(invoices, t, first, last)
  {
    forall i | 0 <= i < |invoices|
      ensures TextLeq(FormatEncf(t, first), invoices[i].encf) && TextLeq(invoices[i].encf, FormatEncf(t, last))
              <==> TypeOf(invoices[i].encf) == t && first <= NumberOf(invoices[i].encf) <= last
    {
      RangeQueryIsNumeric(t, first, last, invoices[i].encf);
    }
  }

  /** Numbers would remain on both sides of the range: one counter and one end
      number cannot represent that. */
  ghost predicate LeavesAHole(sim: SimState, first: int, last: int) {
    exists a, b :: a < first && last < b && sim.Assignable(a) && sim.Assignable(b)
  }

  lemma MiddleSegmentIff(sim: SimState, first: int, last: int)
    requires sim.active && first <= last <= sim.endNumber
    ensures PlanFuture(sim, first, last).Err? <==> LeavesAHole(sim, first, last)
  {
    if PlanFuture(sim, first, last).Err? {
      assert sim.Assignable(first - 1) && sim.Assignable(last + 1);
    }
  }

  /** The planner accepts a range exactly when it lies in the row, no live invoice
      holds one of its consumed numbers, and what remains is still one interval. */
  lemma PlanSimSucceedsIff(invoices: seq<Invoice>, sim: SimState, r: NumRange)
    requires 0 < r.first <= r.last < Pow10(10)
    requires forall inv :: inv in invoices ==> IsValidEncf(inv.encf)
    ensures PlanSim(invoices, sim, r).Ok?
            <==> && sim.active
                 && sim.startNumber <= r.first && r.last <= sim.endNumber
                 && !LiveInside(invoices, r.ecfType, r.first, Max(Min(r.last, sim.currentNumber), 0))
                 && !LeavesAHole(sim, r.first, r.last)
  {
    var belowTo := Min(r.last, sim.currentNumber);
    if r.first <= belowTo {
      BlockedIsLiveInside(invoices, r.ecfType, r.first, belowTo);
    }
    if sim.active && r.last <= sim.endNumber {
      var touched := sim.(touched := true);
      assert forall n :: sim.Assignable(n) <==> touched.Assignable(n);
      MiddleSegmentIff(sim, r.first, r.last);
      MiddleSegmentIff(touched, r.first, r.last);
    }
  }

  /** One accepted range: no invoice outside REJECTED and ERROR sits at one of
      its numbers that the simulated counter has passed. */
  lemma PlanSimSparesLiveInvoices(invoices: seq<Invoice>, sim: SimState, r: NumRange, inv: Invoice, n: nat)
    requires PlanSim(invoices, sim, r).Ok?
    requires inv in invoices && 0 < r.first <= n <= r.last < Pow10(10) && n <= sim.currentNumber
    requires inv.encf == FormatEncf(r.ecfType, n)
    ensures Annullable(inv.status)
  {
    var belowTo := Min(r.last, sim.currentNumber);
    ParseOfFormat(r.ecfType, n);
    RangeQueryIsNumeric(r.ecfType, r.first, belowTo, inv.encf);
    assert !Blocked(invoices, r.ecfType, r.first, belowTo);
  }

  lemma ParsedRangeBounds(text: RangeText)
    requires ParseRange(text).Ok?
    ensures 0 < ParseRange(text).value.first <= ParseRange(text).value.last < Pow10(10)
  {
    FormatOfParse(text.encfFrom);
    FormatOfParse(text.encfTo);
  }

  /** What one successful step of the planner was made of. */
  lemma PlanRangeParts(rows: seq<Row>, invoices: seq<Invoice>, d: Draft, text: RangeText)
    returns (r: NumRange, sim: SimState)
    requires DraftIsExact(rows, d) && PlanRange(rows, invoices, d, text).Ok?
    ensures ParseRange(text) == Ok(r) && PlanSim(invoices, sim, r).Ok?
    ensures var d' := PlanRange(rows, invoices, d, text).value;
            && d'.ranges == d.ranges + [r] && r.ecfType in d'.sims
            && (forall t :: t in d.sims ==> t in d'.sims && d'.sims[t].id == d.sims[t].id)
            && d'.sims[r.ecfType].id == sim.id < |rows|
            && rows[sim.id].currentNumber <= sim.currentNumber
  {
    r := ParseRange(text).value;
    sim := Snapshot(rows, d.sims, r.ecfType).value;
  }

  /** At planning time no invoice outside REJECTED and ERROR sits at a planned
      number that the row's counter has already passed. */
  lemma {:induction false} PlanSparesLiveInvoices(
    rows: seq<Row>, invoices: seq<Invoice>, texts: seq<RangeText>, d: Draft, inv: Invoice, t: EcfType, n: nat)
    requires PlanRanges(rows, invoices, texts) == Ok(d)
    requires inv in invoices && inv.encf == FormatEncf(t, n)
    requires Covered(d.ranges, t, n)
    requires t in d.sims && d.sims[t].id < |rows| && n <= rows[d.sims[t].id].currentNumber
    ensures Annullable(inv.status)
  {
    if texts != [] {
      var last := |texts| - 1;
      var before := PlanRanges(rows, invoices, texts[..last]).value;
      PlanIsExact(rows, invoices, texts[..last]);
      var r, sim := PlanRangeParts(rows, invoices, before, texts[last]);
      CoveredAppend(before.ranges, r, t, n);
      if Covered(before.ranges, t, n) {
        PlanSparesLiveInvoices(rows, invoices, texts[..last], before, inv, t, n);
      } else {
        ParsedRangeBounds(texts[last]);
        PlanSimSparesLiveInvoices(invoices, sim, r, inv, n);
      }
    }
  }

  // ----- annulment: apply -----

  /** What the locked apply step writes to a row that has moved on meanwhile. */
  function ApplySim(row: Row, sim: SimState): Row {
    if !sim.touched then row
    else if !sim.active then row.(isActive := false)
    else row.(endNumber := sim.endNumber, currentNumber := Max(row.currentNumber, sim.currentNumber))
  }

  predicate Targets(sims: map<EcfType, SimState>, row: Row, i: int) {
    row.ecfType in sims && sims[row.ecfType].id == i
  }

  function ApplySims(rows: seq<Row>, sims: map<EcfType, SimState>): (r: seq<Row>)
    ensures |r| == |rows|
  {
    seq(|rows|, i requires 0 <= i < |rows| =>
      if Targets(sims, rows[i], i) then ApplySim(rows[i], sims[rows[i].ecfType]) else rows[i])
  }
}
