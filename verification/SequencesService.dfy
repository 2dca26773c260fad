/** Registration, number assignment and range annulment on the sequence table. */
module SequencesService {
  import opened EcfTypes
  import opened Encf
  import opened Sequences
  import opened Company
  import opened Database

  class SequencesService {
    const db: Tables

    constructor (db: Tables)
      ensures this.db == db
    {
      this.db := db;
    }

    method Create(t: EcfType, first: int, last: int, expiresAt: Option<int>) returns (r: Result<Row, RegisterError>)
      modifies db`sequences, db`authorized
      ensures r == Register(old(db.sequences), t, first, last, expiresAt)
      ensures db.View() == Step(old(db.View()), RegisterRow(t, first, last, expiresAt))
    {
      r := Register(db.sequences, t, first, last, expiresAt);
      if r.Ok? {
        db.sequences := db.sequences + [r.value];
        db.authorized := db.authorized + [r.value.endNumber];
      }
    }

    /** Inside the caller's transaction: a refusal for age or exhaustion has
        already written isActive = false when it is reported. */
    method AssignNextEncf(t: EcfType, now: int) returns (r: Result<string, AssignError>)
      requires forall i :: 0 <= i < |db.sequences| ==> db.sequences[i].currentNumber >= 0
      modifies db`sequences
      ensures match Assign(old(db.sequences), t, now)
              case Ok(i) =>
                r == Ok(FormatEncf(t, old(db.sequences)[i].currentNumber + 1)) && db.sequences == Advance(old(db.sequences), i)
              case Err(e) =>
                && r == Err(e)
                && (e == NoActiveSequence ==> db.sequences == old(db.sequences))
                && (e != NoActiveSequence ==>
                      var i := FindActive(old(db.sequences), t).value;
                      db.sequences == old(db.sequences)[i := old(db.sequences)[i].(isActive := false)])
    {
      var active := FindActive(db.sequences, t);
      if active.None? {
        return Err(NoActiveSequence);
      }
      var i := active.value;
      var sequence := db.sequences[i];
      if sequence.expiresAt.Some? && sequence.expiresAt.value < now {
        db.sequences := db.sequences[i := sequence.(isActive := false)];
        return Err(SequenceExpired);
      }
      var nextNumber := sequence.currentNumber + 1;
      if nextNumber > sequence.endNumber {
        db.sequences := db.sequences[i := sequence.(isActive := false)];
        return Err(SequenceExhausted);
      }
      db.sequences := db.sequences[i := sequence.(currentNumber := nextNumber)];
      return Ok(FormatEncf(t, nextNumber));
    }

    /** One range against the simulated row of its type: first the numbers the
        counter has passed, then the future ones. */
    method PlanOnRow(snapshot: SimState, range: NumRange) returns (r: Result<SimState, PlanError>)
      ensures r == PlanSim(db.invoices, snapshot, range)
    {
      var sim := snapshot;
      if !sim.active {
        return Err(DeactivatedByEarlierRange);
      }
      if range.first < sim.startNumber || range.last > sim.endNumber {
        return Err(OutsideRow);
      }
      var belowTo := Min(range.last, sim.currentNumber);
      if range.first <= belowTo {
        if Blocked(db.invoices, range.ecfType, range.first, belowTo) {
          return Err(BlockedByInvoice);
        }
        sim := sim.(touched := true);
      }
      var aboveFrom := Max(range.first, sim.currentNumber + 1);
      if aboveFrom <= range.last {
        if aboveFrom == sim.currentNumber + 1 && range.last == sim.endNumber {
          sim := sim.(active := false);
        } else if range.last == sim.endNumber {
          sim := sim.(endNumber := aboveFrom - 1);
        } else if aboveFrom == sim.currentNumber + 1 {
          sim := sim.(currentNumber := range.last);
        } else {
          return Err(MiddleSegment);
        }
        sim := sim.(touched := true);
      }
      return Ok(sim);
    }

    /** The planning loop: one simulated row per type, adjusted range by range. */
    method PlanAnnulment(texts: seq<RangeText>) returns (r: Result<Draft, PlanError>)
      ensures r == Plan(db.sequences, db.invoices, texts)
    {
      if texts == [] {
        return Err(NoRanges);
      }
      var ranges: seq<NumRange> := [];
      var simByType: map<EcfType, SimState> := map[];
      var k := 0;
      while k < |texts|
        invariant 0 <= k <= |texts|
        invariant PlanRanges(db.sequences, db.invoices, texts[..k]) == Ok(Draft(ranges, simByType))
      {
        assert texts[..k + 1][..k] == texts[..k];
        var parsed := ParseRange(texts[k]);
        if parsed.Err? {
          PlanFailsEarly(db.sequences, db.invoices, texts, k + 1);
          return Err(parsed.error);
        }
        var range := parsed.value;
        var sim := Snapshot(db.sequences, simByType, range.ecfType);
        if sim.None? {
          PlanFailsEarly(db.sequences, db.invoices, texts, k + 1);
          return Err(NoActiveRow);
        }
        var planned := PlanOnRow(sim.value, range);
        if planned.Err? {
          PlanFailsEarly(db.sequences, db.invoices, texts, k + 1);
          return Err(planned.error);
        }
        simByType := simByType[range.ecfType := planned.value];
        ranges := ranges + [range];
        k := k + 1;
      }
      assert texts[..k] == texts;
      return Ok(Draft(ranges, simByType));
    }

    /** Validates and plans a request and records it as pending. */
    method RequestAnnulment(id: nat, texts: seq<RangeText>) returns (r: Result<Draft, PlanError>)
      requires id !in db.annulments
      modifies db`annulments
      ensures r == Plan(db.sequences, db.invoices, texts)
      ensures db.View() == Company.RequestAnnulment(old(db.View()), id, texts)
    {
      r := PlanAnnulment(texts);
      if r.Ok? {
        db.annulments := db.annulments[id := Annulment(r.value, db.sequences, AnnulPending, true)];
      }
    }

    /** The locked apply loop over the simulated rows. */
    method ApplyPlan(sims: map<EcfType, SimState>)
      requires forall t :: t in sims ==> sims[t].id < |db.sequences| && db.sequences[sims[t].id].ecfType == t
      modifies db`sequences
      ensures db.sequences == ApplySims(old(db.sequences), sims)
    {
      var todo := sims.Keys;
      while todo != {}
        invariant todo <= sims.Keys
        invariant |db.sequences| == |old(db.sequences)|
        invariant forall i :: 0 <= i < |db.sequences| ==>
                    db.sequences[i] ==
                      if Targets(sims, old(db.sequences)[i], i) && old(db.sequences)[i].ecfType !in todo
                      then ApplySim(old(db.sequences)[i], sims[old(db.sequences)[i].ecfType])
                      else old(db.sequences)[i]
        decreases |todo|
      {
        var t :| t in todo;
        var sim := sims[t];
        if sim.touched {
          var live := db.sequences[sim.id];
          if !sim.active {
            db.sequences := db.sequences[sim.id := live.(isActive := false)];
          } else {
            db.sequences := db.sequences[sim.id := live.(endNumber := sim.endNumber, currentNumber := Max(live.currentNumber, sim.currentNumber))];
          }
        }
        todo := todo - {t};
      }
      assert db.sequences == ApplySims(old(db.sequences), sims);
    }

    /** The end of a request: what DGII answered, and the local adjustment when
        it accepted. */
    method SettleAnnulment(id: nat, v: Verdict)
      requires id in db.annulments && db.annulments[id].inFlight
      requires forall t :: t in db.annulments[id].draft.sims ==>
                 && db.annulments[id].draft.sims[t].id < |db.sequences|
                 && db.sequences[db.annulments[id].draft.sims[t].id].ecfType == t
      modifies db`annulments, db`sequences
      ensures db.View() == Settle(old(db.View()), id, v)
    {
      var a := db.annulments[id];
      match v {
        case NoAnswer =>
          db.annulments := db.annulments[id := a.(inFlight := false)];
        case DgiiRejected =>
          db.annulments := db.annulments[id := a.(inFlight := false, status := AnnulRejected)];
        case DgiiAccepted =>
          db.annulments := db.annulments[id := a.(inFlight := false, status := AnnulAccepted)];
          ApplyPlan(a.draft.sims);
      }
    }

    /** Consumed numbers of a row that have no invoice, in order; long rows are
        not scanned. */
    method GapsOf(row: Row) returns (gaps: seq<nat>)
      requires 1 <= row.startNumber
      ensures row.currentNumber - row.startNumber + 1 > MAX_GAP_SCAN ==> gaps == []
      ensures row.currentNumber - row.startNumber + 1 <= MAX_GAP_SCAN ==>
                forall n: nat :: n in gaps <==> row.startNumber <= n <= row.currentNumber && !HasInvoice(db.invoices, row.ecfType, n)
      ensures forall j, k :: 0 <= j < k < |gaps| ==> gaps[j] < gaps[k]
    {
      gaps := [];
      var span := row.currentNumber - row.startNumber + 1;
      if span > MAX_GAP_SCAN {
        return;
      }
      var used := set inv | inv in db.invoices :: inv.encf;
      var n := row.startNumber;
      while n <= row.currentNumber
        invariant row.startNumber <= n <= Max(row.startNumber, row.currentNumber + 1)
        invariant forall m: nat :: m in gaps <==> row.startNumber <= m < n && !HasInvoice(db.invoices, row.ecfType, m)
        invariant forall j, k :: 0 <= j < k < |gaps| ==> gaps[j] < gaps[k]
      {
        var encf := FormatEncf(row.ecfType, n);
        assert encf in used <==> HasInvoice(db.invoices, row.ecfType, n) by {
          if HasInvoice(db.invoices, row.ecfType, n) {
            var j :| 0 <= j < |db.invoices| && db.invoices[j].encf == encf;
            assert db.invoices[j] in db.invoices;
          }
        }
        if encf !in used {
          assert forall k :: 0 <= k < |gaps| ==> gaps[k] in gaps;
          gaps := gaps + [n];
        }
        n := n + 1;
      }
    }
  }

  /** A range that fails makes the whole request fail, whatever follows it. */
  lemma {:induction false} PlanFailsEarly(rows: seq<Row>, invoices: seq<Invoice>, texts: seq<RangeText>, k: nat)
    requires k <= |texts| && PlanRanges(rows, invoices, texts[..k]).Err?
    ensures PlanRanges(rows, invoices, texts) == PlanRanges(rows, invoices, texts[..k])
    decreases |texts|
  {
    if k == |texts| {
      assert texts[..k] == texts;
    } else {
      var before := texts[..|texts| - 1];
      assert before[..k] == texts[..k];
      PlanFailsEarly(rows, invoices, before, k);
    }
  }
}
