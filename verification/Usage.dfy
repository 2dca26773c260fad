/** The quota meter of one company in one billing cycle: two counters, the
    plan status and the ledger of top-up purchases. */
module Usage {
  import opened EcfTypes

  datatype PlanStatus = ACTIVE | EXHAUSTED | EXPIRED | CANCELLED

  datatype TopupPurchase = TopupPurchase(invoiceCount: nat, invoicesUsed: int)

  /** company_plans, company_usages and topup_purchases of the current cycle;
      purchases are in order of creation. */
  datatype Meter = Meter(
    status: PlanStatus,
    includedInvoices: nat,
    cycleEnd: int,
    baseUsed: int,
    topupUsed: int,
    totalQuota: int,
    purchases: seq<TopupPurchase>)
  {
    function Used(): int {
      baseUsed + topupUsed
    }
  }

  function AssignPlan(includedInvoices: nat, cycleEnd: int): Meter {
    Meter(ACTIVE, includedInvoices, cycleEnd, 0, 0, includedInvoices, [])
  }

  // ----- the two conditional updates -----

  predicate HasBaseRoom(m: Meter) {
    m.baseUsed < m.includedInvoices && m.Used() < m.totalQuota
  }

  predicate HasRoom(m: Meter) {
    m.Used() < m.totalQuota
  }

  /** Oldest purchase of the cycle; with none the update touches no row. */
  function ChargeOldest(ps: seq<TopupPurchase>): seq<TopupPurchase> {
    if ps == [] then ps else ps[0 := ps[0].(invoicesUsed := ps[0].invoicesUsed + 1)]
  }

  /** Newest purchase that has something charged to it. */
  function RefundNewest(ps: seq<TopupPurchase>): (r: seq<TopupPurchase>)
    ensures |r| == |ps|
  {
    if ps == [] then ps
    else
      var last := ps[|ps| - 1];
      if last.invoicesUsed > 0 then ps[..|ps| - 1] + [last.(invoicesUsed := last.invoicesUsed - 1)]
      else RefundNewest(ps[..|ps| - 1]) + [last]
  }

  datatype ChargeOutcome = Charged | Unmetered | QuotaExceeded

  function Consume(m: Meter): (Meter, ChargeOutcome) {
    if m.status == EXPIRED then (m, Unmetered)
    else if HasBaseRoom(m) then (FlagCeiling(m.(baseUsed := m.baseUsed + 1)), Charged)
    else if HasRoom(m) then
      (FlagCeiling(m.(topupUsed := m.topupUsed + 1, purchases := ChargeOldest(m.purchases))), Charged)
    else (m.(status := EXHAUSTED), QuotaExceeded)
  }

  function FlagCeiling(m: Meter): Meter {
    if m.Used() >= m.totalQuota then m.(status := EXHAUSTED) else m
  }

  function Refund(m: Meter): Meter {
    var r :=
      if m.topupUsed > 0 then m.(topupUsed := m.topupUsed - 1, purchases := RefundNewest(m.purchases))
      else if m.baseUsed > 0 then m.(baseUsed := m.baseUsed - 1)
      else m;
    if r.status == EXHAUSTED then r.(status := ACTIVE) else r
  }

  function Purchase(m: Meter, invoiceCount: nat): Meter {
    m.(purchases := m.purchases + [TopupPurchase(invoiceCount, 0)],
       totalQuota := m.totalQuota + invoiceCount,
       status := if m.status == EXHAUSTED then ACTIVE else m.status)
  }

  predicate CanEmit(m: Meter, now: int) {
    && m.status == ACTIVE
    && !(m.cycleEnd < now)
    && !(m.Used() >= m.totalQuota)
  }

  // ----- invariant -----

  function PacksBought(ps: seq<TopupPurchase>): nat {
    if ps == [] then 0 else PacksBought(ps[..|ps| - 1]) + ps[|ps| - 1].invoiceCount
  }

  function UsedOfPacks(ps: seq<TopupPurchase>): int {
    if ps == [] then 0 else UsedOfPacks(ps[..|ps| - 1]) + ps[|ps| - 1].invoicesUsed
  }

  /** The meter is one counter `n` below one quota, split base first; top-up use
      is charged to the oldest purchase and to no other. */
  ghost predicate Valid(m: Meter) {
    && 0 <= m.Used() <= m.totalQuota
    && m.baseUsed == Min(m.Used(), m.includedInvoices)
    && m.topupUsed == Max(0, m.Used() - m.includedInvoices)
    && m.totalQuota == m.includedInvoices + PacksBought(m.purchases)
    && UsedOfPacks(m.purchases) == m.topupUsed
    && (forall k :: 0 <= k < |m.purchases| ==>
          m.purchases[k].invoicesUsed == if k == 0 then m.topupUsed else 0)
    && (m.status == EXHAUSTED ==> m.Used() == m.totalQuota)
  }

  lemma {:induction false} OldestCarriesAll(ps: seq<TopupPurchase>)
    requires forall k :: 1 <= k < |ps| ==> ps[k].invoicesUsed == 0
    ensures UsedOfPacks(ps) == if ps == [] then 0 else ps[0].invoicesUsed
  {
    if |ps| > 1 {
      OldestCarriesAll(ps[..|ps| - 1]);
    } else if |ps| == 1 {
      assert ps[..0] == [];
    }
  }

  lemma {:induction false} PacksKeptByUse(ps: seq<TopupPurchase>, qs: seq<TopupPurchase>)
    requires |ps| == |qs| && forall k :: 0 <= k < |ps| ==> ps[k].invoiceCount == qs[k].invoiceCount
    ensures PacksBought(ps) == PacksBought(qs)
  {
    if ps != [] {
      PacksKeptByUse(ps[..|ps| - 1], qs[..|qs| - 1]);
    }
  }

  lemma {:induction false} RefundReachesOldest(ps: seq<TopupPurchase>)
    requires ps != [] && ps[0].invoicesUsed > 0
    requires forall k :: 1 <= k < |ps| ==> ps[k].invoicesUsed == 0
    ensures RefundNewest(ps) == ps[0 := ps[0].(invoicesUsed := ps[0].invoicesUsed - 1)]
  {
    if |ps| > 1 {
      RefundReachesOldest(ps[..|ps| - 1]);
    }
  }

  lemma ConsumeKeepsValid(m: Meter)
    requires Valid(m) && m.status != EXPIRED
    ensures var (m', outcome) := Consume(m);
            if HasRoom(m) then outcome == Charged && Valid(m') && m'.Used() == m.Used() + 1 && m'.totalQuota == m.totalQuota
            else outcome == QuotaExceeded
    ensures m.status != CANCELLED && HasRoom(m) ==> var m' := Consume(m).0; m'.status == EXHAUSTED <==> m'.Used() == m'.totalQuota
    ensures Consume(m).0.status != EXPIRED
  {
    if HasRoom(m) && !HasBaseRoom(m) {
      assert m.purchases != [];
      var qs := ChargeOldest(m.purchases);
      OldestCarriesAll(qs);
      PacksKeptByUse(m.purchases, qs);
    }
  }

  lemma RefundKeepsLedger(ps: seq<TopupPurchase>)
    requires UsedOfPacks(ps) > 0
    requires forall k :: 1 <= k < |ps| ==> ps[k].invoicesUsed == 0
    ensures ps != [] && RefundNewest(ps) == ps[0 := ps[0].(invoicesUsed := ps[0].invoicesUsed - 1)]
    ensures UsedOfPacks(RefundNewest(ps)) == UsedOfPacks(ps) - 1
    ensures PacksBought(RefundNewest(ps)) == PacksBought(ps)
  {
    OldestCarriesAll(ps);
    RefundReachesOldest(ps);
    OldestCarriesAll(RefundNewest(ps));
    PacksKeptByUse(ps, RefundNewest(ps));
  }

  lemma RefundKeepsValid(m: Meter)
    requires Valid(m) && m.Used() > 0
    ensures Valid(Refund(m)) && Refund(m).Used() == m.Used() - 1 && Refund(m).totalQuota == m.totalQuota
    ensures Refund(m).status != EXHAUSTED
    ensures m.status != EXPIRED ==> Refund(m).status != EXPIRED
  {
    if m.topupUsed > 0 {
      RefundKeepsLedger(m.purchases);
    }
  }

  lemma PurchaseKeepsValid(m: Meter, count: nat)
    requires Valid(m)
    ensures Valid(Purchase(m, count))
    ensures Purchase(m, count).Used() == m.Used() && Purchase(m, count).totalQuota == m.totalQuota + count
    ensures m.status != EXPIRED ==> Purchase(m, count).status != EXPIRED
  {
    var ps := m.purchases + [TopupPurchase(count, 0)];
    assert ps[..|ps| - 1] == m.purchases;
    if m.purchases == [] {
      assert m.topupUsed == 0;
    }
  }

  // ----- runs of one cycle -----

  datatype Action = ConsumeOne | RefundOne | Buy(invoiceCount: nat)

  /** One committed request: a consumption that finds no room rolls back. */
  function Act(m: Meter, a: Action): Meter {
    match a
    case ConsumeOne => var (m', outcome) := Consume(m); if outcome == QuotaExceeded then m else m'
    case RefundOne => if m.Used() > 0 then Refund(m) else m
    case Buy(count) => Purchase(m, count)
  }

  function Run(m: Meter, actions: seq<Action>): Meter {
    if actions == [] then m else Act(Run(m, actions[..|actions| - 1]), actions[|actions| - 1])
  }

  /** The specification: one counter below one quota. */
  datatype Counter = Counter(used: int, quota: int)

  function Count(c: Counter, a: Action): Counter {
    match a
    case ConsumeOne => if c.used < c.quota then c.(used := c.used + 1) else c
    case RefundOne => if c.used > 0 then c.(used := c.used - 1) else c
    case Buy(count) => c.(quota := c.quota + count)
  }

  function CountRun(c: Counter, actions: seq<Action>): Counter {
    if actions == [] then c else Count(CountRun(c, actions[..|actions| - 1]), actions[|actions| - 1])
  }

  /** The two counters, the ledger and the flag refine the single counter over
      every run of a cycle. */
  lemma {:induction false} MeterRefinesCounter(included: nat, cycleEnd: int, actions: seq<Action>)
    ensures var m := Run(AssignPlan(included, cycleEnd), actions);
            var c := CountRun(Counter(0, included), actions);
            && Valid(m) && (m.status == ACTIVE || m.status == EXHAUSTED)
            && m.Used() == c.used && m.totalQuota == c.quota
            && m.includedInvoices == included && m.cycleEnd == cycleEnd
            && m.baseUsed == Min(c.used, included) && m.topupUsed == Max(0, c.used - included)
            && UsedOfPacks(m.purchases) == m.topupUsed
  {
    if actions != [] {
      var before := actions[..|actions| - 1];
      MeterRefinesCounter(included, cycleEnd, before);
      hide Act, Count;
      ActRefinesCount(Run(AssignPlan(included, cycleEnd), before), CountRun(Counter(0, included), before), actions[|actions| - 1]);
    }
  }

  lemma ActRefinesCount(m: Meter, c: Counter, a: Action)
    requires Valid(m) && (m.status == ACTIVE || m.status == EXHAUSTED)
    requires m.Used() == c.used && m.totalQuota == c.quota
    ensures var m', c' := Act(m, a), Count(c, a);
            && Valid(m') && (m'.status == ACTIVE || m'.status == EXHAUSTED)
            && m'.Used() == c'.used && m'.totalQuota == c'.quota
            && m'.includedInvoices == m.includedInvoices && m'.cycleEnd == m.cycleEnd
  {
    match a {
      case ConsumeOne => ConsumeKeepsValid(m);
      case RefundOne => if m.Used() > 0 { RefundKeepsValid(m); }
      case Buy(count) => PurchaseKeepsValid(m, count);
    }
  }

  /** The pre-check of the guard and the metering agree: an emission is allowed
      exactly when charging it now succeeds and the cycle is not over. */
  lemma CanEmitMatchesConsume(included: nat, cycleEnd: int, actions: seq<Action>, now: int)
    ensures var m := Run(AssignPlan(included, cycleEnd), actions);
            CanEmit(m, now) <==> Consume(m).1 == Charged && now <= cycleEnd
  {
    MeterRefinesCounter(included, cycleEnd, actions);
  }

  /** Reaching the quota by a purchase of nothing, or having none to begin with,
      leaves the flag down; every other way of reaching it raises the flag. */
  predicate FlagFollows(m: Meter, a: Action) {
    a.Buy? ==> a.invoiceCount > 0 || m.Used() < m.totalQuota
  }

  ghost predicate FlagIsExact(m: Meter) {
    m.status == EXHAUSTED <==> m.Used() == m.totalQuota
  }

  ghost predicate FlagExactThroughout(m: Meter, actions: seq<Action>) {
    && FlagIsExact(Run(m, actions))
    && (actions != [] ==> FlagExactThroughout(m, actions[..|actions| - 1]))
  }

  predicate FlagFollowsThroughout(m: Meter, actions: seq<Action>) {
    actions != [] ==>
      var before := actions[..|actions| - 1];
      FlagFollowsThroughout(m, before) && FlagFollows(Run(m, before), actions[|actions| - 1])
  }

  /** `status = EXHAUSTED` means "used equals quota" after every step of a run exactly
      when the plan includes something and no empty pack is bought at the ceiling. */
  lemma {:induction false} ExhaustedFlagIsExact(included: nat, cycleEnd: int, actions: seq<Action>)
    ensures var m := AssignPlan(included, cycleEnd);
            FlagExactThroughout(m, actions) <==> included > 0 && FlagFollowsThroughout(m, actions)
  {
    if actions != [] {
      var before := actions[..|actions| - 1];
      ExhaustedFlagIsExact(included, cycleEnd, before);
      MeterRefinesCounter(included, cycleEnd, before);
      FlagStep(Run(AssignPlan(included, cycleEnd), before), actions[|actions| - 1]);
    }
  }

  lemma FlagStep(m: Meter, a: Action)
    requires Valid(m) && (m.status == ACTIVE || m.status == EXHAUSTED)
    ensures FlagIsExact(m) ==> (FlagIsExact(Act(m, a)) <==> FlagFollows(m, a))
  {
    match a {
      case ConsumeOne => ConsumeKeepsValid(m);
      case RefundOne => if m.Used() > 0 { RefundKeepsValid(m); }
      case Buy(count) => PurchaseKeepsValid(m, count);
    }
  }

  predicate PacksWithinCap(m: Meter) {
    forall k :: 0 <= k < |m.purchases| ==> m.purchases[k].invoicesUsed <= m.purchases[k].invoiceCount
  }

  /** The check that a charge to the top-up pool does not make: the oldest pack still
      has an invoice of its own. */
  predicate OldestHasRoom(m: Meter, a: Action) {
    a.ConsumeOne? && !HasBaseRoom(m) && HasRoom(m) ==> m.purchases != [] && m.topupUsed < m.purchases[0].invoiceCount
  }

  predicate PacksWithinCapThroughout(m: Meter, actions: seq<Action>) {
    && PacksWithinCap(Run(m, actions))
    && (actions != [] ==> PacksWithinCapThroughout(m, actions[..|actions| - 1]))
  }

  predicate OldestHasRoomThroughout(m: Meter, actions: seq<Action>) {
    actions != [] ==>
      var before := actions[..|actions| - 1];
      OldestHasRoomThroughout(m, before) && OldestHasRoom(Run(m, before), actions[|actions| - 1])
  }

  lemma CapStep(m: Meter, a: Action)
    requires Valid(m) && (m.status == ACTIVE || m.status == EXHAUSTED) && PacksWithinCap(m)
    ensures PacksWithinCap(Act(m, a)) <==> OldestHasRoom(m, a)
  {
    match a {
      case ConsumeOne =>
        if HasRoom(m) && !HasBaseRoom(m) {
          assert m.purchases != [];
          var charged := Act(m, a).purchases;
          assert charged[0] == m.purchases[0].(invoicesUsed := m.topupUsed + 1);
          assert forall k :: 1 <= k < |charged| ==> charged[k] == m.purchases[k];
        }
      case RefundOne => if m.topupUsed > 0 { RefundKeepsLedger(m.purchases); }
      case Buy(count) => PurchaseKeepsValid(m, count);
    }
  }

  /** No pack is ever charged more than it sold exactly when every charge to the top-up
      pool finds room in the oldest pack: the later packs never help. */
  lemma {:induction false} PacksWithinCapIff(included: nat, cycleEnd: int, actions: seq<Action>)
    ensures var m := AssignPlan(included, cycleEnd);
            PacksWithinCapThroughout(m, actions) <==> OldestHasRoomThroughout(m, actions)
  {
    if actions != [] {
      var before := actions[..|actions| - 1];
      PacksWithinCapIff(included, cycleEnd, before);
      MeterRefinesCounter(included, cycleEnd, before);
      if PacksWithinCap(Run(AssignPlan(included, cycleEnd), before)) {
        CapStep(Run(AssignPlan(included, cycleEnd), before), actions[|actions| - 1]);
      }
    }
  }

  /** Two packs of one invoice each: the oldest ends with two charged to it. */
  lemma OldestPackCanExceedItsCap()
    ensures var bought := Act(Act(AssignPlan(0, 0), Buy(1)), Buy(1));
            Act(Act(bought, ConsumeOne), ConsumeOne).purchases == [TopupPurchase(1, 2), TopupPurchase(1, 0)]
  {
    var one := Meter(ACTIVE, 0, 0, 0, 0, 1, [TopupPurchase(1, 0)]);
    var both := Meter(ACTIVE, 0, 0, 0, 0, 2, [TopupPurchase(1, 0), TopupPurchase(1, 0)]);
    assert Act(AssignPlan(0, 0), Buy(1)) == one;
    assert Act(one, Buy(1)) == both;
    assert Act(both, ConsumeOne).purchases == [TopupPurchase(1, 1), TopupPurchase(1, 0)];
  }
}
