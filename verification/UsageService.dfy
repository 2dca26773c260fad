/** Metering and plan requests, statement by statement. */
module UsageService {
  import opened Usage
  import opened Database
  import Pipeline

  class UsageService {
    const db: Tables

    constructor (db: Tables)
      ensures this.db == db
    {
      this.db := db;
    }

    method IncrementUsage() returns (outcome: ChargeOutcome)
      modifies db`baseUsed, db`topupUsed, db`topupPurchases, db`planStatus
      ensures (db.MeterView(), outcome) == Consume(old(db.MeterView()))
    {
      if db.planStatus == EXPIRED {
        return Unmetered;
      }
      var charged, chargedTopup := false, false;
      if db.baseUsed < db.includedInvoices && db.baseUsed + db.topupUsed < db.totalQuota {
        db.baseUsed := db.baseUsed + 1;
        charged := true;
      }
      if !charged && db.baseUsed + db.topupUsed < db.totalQuota {
        db.topupUsed := db.topupUsed + 1;
        charged, chargedTopup := true, true;
      }
      if !charged {
        if db.planStatus != EXHAUSTED {
          db.planStatus := EXHAUSTED;
        }
        return QuotaExceeded;
      }
      if chargedTopup && db.topupPurchases != [] {
        var oldest := db.topupPurchases[0];
        db.topupPurchases := db.topupPurchases[0 := oldest.(invoicesUsed := oldest.invoicesUsed + 1)];
      }
      if db.baseUsed + db.topupUsed >= db.totalQuota && db.planStatus != EXHAUSTED {
        db.planStatus := EXHAUSTED;
      }
      return Charged;
    }

    /** The refund's ledger update: newest purchase that has something charged. */
    method RefundNewestPurchase()
      modifies db`topupPurchases
      ensures db.topupPurchases == RefundNewest(old(db.topupPurchases))
    {
      var ps := db.topupPurchases;
      var k: nat := |ps|;
      assert ps[..k] == ps && RefundNewest(ps[..k]) + ps[k..] == RefundNewest(ps);
      while k > 0 && ps[k - 1].invoicesUsed <= 0
        invariant k <= |ps|
        invariant db.topupPurchases == ps
        invariant RefundNewest(ps) == RefundNewest(ps[..k]) + ps[k..]
      {
        assert ps[..k][..k - 1] == ps[..k - 1] && ps[k - 1..] == [ps[k - 1]] + ps[k..];
        k := k - 1;
      }
      if k > 0 {
        var newest := ps[k - 1].(invoicesUsed := ps[k - 1].invoicesUsed - 1);
        assert ps[..k][..k - 1] == ps[..k - 1];
        assert ps[..k - 1] + [newest] + ps[k..] == ps[k - 1 := newest];
        db.topupPurchases := ps[k - 1 := newest];
      } else {
        assert ps[..0] == [] && ps[0..] == ps;
      }
    }

    method DecrementUsage()
      modifies db`baseUsed, db`topupUsed, db`topupPurchases, db`planStatus
      ensures db.MeterView() == Refund(old(db.MeterView()))
    {
      if db.topupUsed > 0 {
        db.topupUsed := db.topupUsed - 1;
        RefundNewestPurchase();
      } else if db.baseUsed > 0 {
        db.baseUsed := db.baseUsed - 1;
      }
      if db.planStatus == EXHAUSTED {
        db.planStatus := ACTIVE;
      }
    }

    /** The flag is claimed first; only the winner refunds. */
    method RevertUsage(i: nat)
      requires i < |db.invoices|
      modifies db`invoices, db`baseUsed, db`topupUsed, db`topupPurchases, db`planStatus
      ensures db.LedgerView() == Pipeline.RevertUsage(old(db.LedgerView()), i)
    {
      if db.invoices[i].usageReverted {
        return;
      }
      db.invoices := db.invoices[i := db.invoices[i].(usageReverted := true)];
      DecrementUsage();
    }

    method PurchaseTopup(invoiceCount: nat)
      modifies db`topupPurchases, db`totalQuota, db`planStatus
      ensures db.MeterView() == Purchase(old(db.MeterView()), invoiceCount)
    {
      db.topupPurchases := db.topupPurchases + [TopupPurchase(invoiceCount, 0)];
      db.totalQuota := db.totalQuota + invoiceCount;
      if db.planStatus == EXHAUSTED {
        db.planStatus := ACTIVE;
      }
    }

    method CanEmitInvoice(now: int) returns (allowed: bool)
      ensures allowed == CanEmit(db.MeterView(), now)
    {
      if db.planStatus == EXPIRED || db.planStatus == CANCELLED || db.planStatus == EXHAUSTED {
        return false;
      }
      if db.cycleEnd < now {
        return false;
      }
      if db.baseUsed + db.topupUsed >= db.totalQuota {
        return false;
      }
      return true;
    }
  }
}
