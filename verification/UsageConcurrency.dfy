/** The quota counters when the SQL statements of concurrent charges and refunds
    interleave. Each statement is atomic; between two statements of one request
    any number of others may run. A charge that succeeds keeps the row locked
    until its transaction ends, so it counts as one step. */
module UsageConcurrency {
  import opened EcfTypes

  /** Where one document's charge, and later its refund, stands. */
  datatype Phase =
    | BaseMissed        // the base statement touched no row
    | Charged
    | Refused
    | Claimed           // usageReverted flipped, nothing given back yet
    | TopupMissed       // the top-up refund touched no row
    | Refunded

  datatype Counters = Counters(planBase: nat, baseUsed: int, topupUsed: int, totalQuota: int, docs: seq<Phase>)
  {
    function Used(): int {
      baseUsed + topupUsed
    }
  }

  datatype Statement =
    | ChargeBase
    | ChargeTopup(doc: nat)
    | Claim(doc: nat)
    | RefundTopup(doc: nat)
    | RefundBase(doc: nat)
    | RaiseQuota(count: nat)

  predicate At(c: Counters, i: nat, p: Phase) {
    i < |c.docs| && c.docs[i] == p
  }

  function Enter(c: Counters, i: nat, p: Phase): Counters
    requires i < |c.docs|
  {
    c.(docs := c.docs[i := p])
  }

  /** A statement issued by no request in the matching phase changes nothing. */
  function Execute(c: Counters, s: Statement): Counters {
    match s
    case ChargeBase =>
      if c.baseUsed < c.planBase && c.Used() < c.totalQuota then
        c.(baseUsed := c.baseUsed + 1, docs := c.docs + [Charged])
      else c.(docs := c.docs + [BaseMissed])
    case ChargeTopup(i) =>
      if !At(c, i, BaseMissed) then c
      else if c.Used() < c.totalQuota then Enter(c.(topupUsed := c.topupUsed + 1), i, Charged)
      else Enter(c, i, Refused)
    case Claim(i) => if At(c, i, Charged) then Enter(c, i, Claimed) else c
    case RefundTopup(i) =>
      if !At(c, i, Claimed) then c
      else if c.topupUsed > 0 then Enter(c.(topupUsed := c.topupUsed - 1), i, Refunded)
      else Enter(c, i, TopupMissed)
    case RefundBase(i) =>
      if !At(c, i, TopupMissed) then c
      else if c.baseUsed > 0 then Enter(c.(baseUsed := c.baseUsed - 1), i, Refunded)
      else Enter(c, i, Refunded)
    case RaiseQuota(count) => c.(totalQuota := c.totalQuota + count)
  }

  function Start(planBase: nat): Counters {
    Counters(planBase, 0, 0, planBase, [])
  }

  function Interleaving(planBase: nat, ss: seq<Statement>): Counters {
    if ss == [] then Start(planBase)
    else Execute(Interleaving(planBase, ss[..|ss| - 1]), ss[|ss| - 1])
  }

  /** Documents whose unit of quota is taken and not yet given back. */
  predicate Holds(p: Phase) {
    p == Charged || p == Claimed || p == TopupMissed
  }

  function Holding(docs: seq<Phase>): nat {
    if docs == [] then 0 else Holding(docs[..|docs| - 1]) + if Holds(docs[|docs| - 1]) then 1 else 0
  }

  function HalfRefunded(docs: seq<Phase>): nat {
    if docs == [] then 0 else HalfRefunded(docs[..|docs| - 1]) + if docs[|docs| - 1] == TopupMissed then 1 else 0
  }

  lemma {:induction false} TallyUpdate(docs: seq<Phase>, i: nat, p: Phase)
    requires i < |docs|
    ensures Holding(docs[i := p]) == Holding(docs) - (if Holds(docs[i]) then 1 else 0) + if Holds(p) then 1 else 0
    ensures HalfRefunded(docs[i := p])
         == HalfRefunded(docs) - (if docs[i] == TopupMissed then 1 else 0) + if p == TopupMissed then 1 else 0
  {
    var last := |docs| - 1;
    if i < last {
      TallyUpdate(docs[..last], i, p);
      assert docs[i := p][..last] == docs[..last][i := p];
    } else {
      assert docs[i := p][..last] == docs[..last];
    }
  }

  lemma TallyAppend(docs: seq<Phase>, p: Phase)
    ensures Holding(docs + [p]) == Holding(docs) + if Holds(p) then 1 else 0
    ensures HalfRefunded(docs + [p]) == HalfRefunded(docs) + if p == TopupMissed then 1 else 0
  {
    assert (docs + [p])[..|docs|] == docs;
  }

  lemma {:induction false} HalfRefundedHold(docs: seq<Phase>)
    ensures HalfRefunded(docs) <= Holding(docs)
    ensures forall i :: 0 <= i < |docs| && docs[i] == TopupMissed ==> HalfRefunded(docs) > 0
  {
    if docs != [] {
      HalfRefundedHold(docs[..|docs| - 1]);
    }
  }

  /** Refunds that found no top-up use are covered by base use. */
  ghost predicate Valid(c: Counters) {
    && 0 <= c.baseUsed <= c.planBase && 0 <= c.topupUsed
    && c.Used() <= c.totalQuota
    && c.Used() == Holding(c.docs)
    && HalfRefunded(c.docs) <= c.baseUsed
  }

  lemma ExecuteKeepsValid(c: Counters, s: Statement)
    requires Valid(c)
    ensures Valid(Execute(c, s))
  {
    match s
    case ChargeBase =>
      TallyAppend(c.docs, Charged);
      TallyAppend(c.docs, BaseMissed);
    case ChargeTopup(i) =>
      if At(c, i, BaseMissed) {
        TallyUpdate(c.docs, i, Charged);
        TallyUpdate(c.docs, i, Refused);
      }
    case Claim(i) =>
      if At(c, i, Charged) { TallyUpdate(c.docs, i, Claimed); }
    case RefundTopup(i) =>
      if At(c, i, Claimed) {
        TallyUpdate(c.docs, i, Refunded);
        TallyUpdate(c.docs, i, TopupMissed);
        HalfRefundedHold(c.docs[i := TopupMissed]);
      }
    case RefundBase(i) =>
      if At(c, i, TopupMissed) {
        HalfRefundedHold(c.docs);
        TallyUpdate(c.docs, i, Refunded);
      }
    case RaiseQuota(count) =>
  }

  /** For every interleaving of statements: the quota is never exceeded, each used
      unit belongs to one document, and no refund finds both counters empty. */
  lemma {:induction false} QuotaHoldsUnderInterleaving(planBase: nat, ss: seq<Statement>)
    ensures var c := Interleaving(planBase, ss);
            && 0 <= c.Used() <= c.totalQuota
            && 0 <= c.baseUsed <= planBase && 0 <= c.topupUsed
            && c.Used() == Holding(c.docs)
            && (forall i :: At(c, i, TopupMissed) ==> c.baseUsed > 0)
    ensures Valid(Interleaving(planBase, ss)) && Interleaving(planBase, ss).planBase == planBase
  {
    if ss != [] {
      var before := Interleaving(planBase, ss[..|ss| - 1]);
      QuotaHoldsUnderInterleaving(planBase, ss[..|ss| - 1]);
      ExecuteKeepsValid(before, ss[|ss| - 1]);
    }
    HalfRefundedHold(Interleaving(planBase, ss).docs);
  }

  // ----- the split into base and top-up -----

  predicate Split(c: Counters) {
    c.baseUsed == Min(c.Used(), c.planBase) && c.topupUsed == Max(0, c.Used() - c.planBase)
  }

  /** The statement acts on counters that have not moved against it since its
      request's previous statement. */
  predicate Fresh(c: Counters, s: Statement) {
    match s
    case ChargeTopup(i) => At(c, i, BaseMissed) && c.Used() < c.totalQuota ==> c.baseUsed == c.planBase
    case RefundBase(i) => At(c, i, TopupMissed) ==> c.topupUsed == 0
    case _ => true
  }

  predicate SplitThroughout(planBase: nat, ss: seq<Statement>) {
    Split(Interleaving(planBase, ss)) && (ss != [] ==> SplitThroughout(planBase, ss[..|ss| - 1]))
  }

  predicate FreshThroughout(planBase: nat, ss: seq<Statement>) {
    ss != [] ==>
      FreshThroughout(planBase, ss[..|ss| - 1]) && Fresh(Interleaving(planBase, ss[..|ss| - 1]), ss[|ss| - 1])
  }

  /** Base-first accounting survives an interleaving exactly when no second
      statement of a charge or refund acts on counters that moved in between. */
  lemma {:induction false} SplitIsExactIff(planBase: nat, ss: seq<Statement>)
    ensures SplitThroughout(planBase, ss) <==> FreshThroughout(planBase, ss)
  {
    if ss != [] {
      var earlier := ss[..|ss| - 1];
      SplitIsExactIff(planBase, earlier);
      QuotaHoldsUnderInterleaving(planBase, earlier);
      QuotaHoldsUnderInterleaving(planBase, ss);
    }
  }

  lemma Then(planBase: nat, ss: seq<Statement>, s: Statement)
    ensures Interleaving(planBase, ss + [s]) == Execute(Interleaving(planBase, ss), s)
  {
    assert (ss + [s])[..|ss|] == ss;
  }

  /** A refund overtaken by a top-up charge takes the unit from base: one unit is
      in use and the meter says top-up although the base is free. */
  lemma RefundOvertakenByCharge()
    ensures var ss := [RaiseQuota(1), ChargeBase, Claim(0), RefundTopup(0)] + [ChargeBase] + [ChargeTopup(1)] + [RefundBase(0)];
            Interleaving(1, ss) == Counters(1, 0, 1, 2, [Refunded, Charged])
  {
    var found := [RaiseQuota(1)] + [ChargeBase] + [Claim(0)] + [RefundTopup(0)];
    assert found == [RaiseQuota(1), ChargeBase, Claim(0), RefundTopup(0)];
    Then(1, [], RaiseQuota(1));
    assert [] + [RaiseQuota(1)] == [RaiseQuota(1)];
    Then(1, [RaiseQuota(1)], ChargeBase);
    Then(1, [RaiseQuota(1)] + [ChargeBase], Claim(0));
    Then(1, [RaiseQuota(1)] + [ChargeBase] + [Claim(0)], RefundTopup(0));
    Then(1, found, ChargeBase);
    Then(1, found + [ChargeBase], ChargeTopup(1));
    Then(1, found + [ChargeBase] + [ChargeTopup(1)], RefundBase(0));
  }

  /** A charge overtaken by a refund uses top-up quota that nobody bought. */
  lemma TopupChargedWithoutPurchase()
    ensures var ss := [ChargeBase, ChargeBase, Claim(0), RefundTopup(0)] + [RefundBase(0)] + [ChargeTopup(1)];
            Interleaving(1, ss) == Counters(1, 0, 1, 1, [Refunded, Charged])
  {
    var found := [ChargeBase] + [ChargeBase] + [Claim(0)] + [RefundTopup(0)];
    assert found == [ChargeBase, ChargeBase, Claim(0), RefundTopup(0)];
    Then(1, [], ChargeBase);
    assert [] + [ChargeBase] == [ChargeBase];
    Then(1, [ChargeBase], ChargeBase);
    Then(1, [ChargeBase] + [ChargeBase], Claim(0));
    Then(1, [ChargeBase] + [ChargeBase] + [Claim(0)], RefundTopup(0));
    Then(1, found, RefundBase(0));
    Then(1, found + [RefundBase(0)], ChargeTopup(1));
  }
}
