/** The tables that the services read and update in place. */
module Database {
  import opened EcfTypes
  import opened Sequences
  import opened Pipeline
  import opened Company
  import Usage

  /** What an emission transaction restores when it is rolled back. */
  datatype Savepoint = Savepoint(
    sequences: seq<Row>,
    invoices: seq<Invoice>,
    planStatus: Usage.PlanStatus,
    baseUsed: int,
    topupUsed: int,
    topupPurchases: seq<Usage.TopupPurchase>)

  class Tables {
    var sequences: seq<Row>
    ghost var authorized: seq<int>
    var annulments: map<nat, Annulment>
    var invoices: seq<Invoice>
    var planStatus: Usage.PlanStatus
    var includedInvoices: nat
    var cycleEnd: int
    var baseUsed: int
    var topupUsed: int
    var totalQuota: int
    var topupPurchases: seq<Usage.TopupPurchase>
    var polls: map<nat, nat>

    ghost function MeterView(): Usage.Meter
      reads this
    {
      Usage.Meter(planStatus, includedInvoices, cycleEnd, baseUsed, topupUsed, totalQuota, topupPurchases)
    }

    ghost function LedgerView(): Ledger
      reads this
    {
      Ledger(invoices, MeterView(), polls)
    }

    ghost function View(): State
      reads this
    {
      State(sequences, authorized, annulments, LedgerView())
    }

    constructor (includedInvoices: nat, cycleEnd: int)
      ensures View() == Init(includedInvoices, cycleEnd)
    {
      sequences, authorized, annulments, invoices, polls := [], [], map[], [], map[];
      this.includedInvoices, this.cycleEnd := includedInvoices, cycleEnd;
      planStatus, baseUsed, topupUsed, totalQuota, topupPurchases := Usage.ACTIVE, 0, 0, includedInvoices, [];
    }

    method Begin() returns (p: Savepoint)
      ensures p == Savepoint(sequences, invoices, planStatus, baseUsed, topupUsed, topupPurchases)
    {
      p := Savepoint(sequences, invoices, planStatus, baseUsed, topupUsed, topupPurchases);
    }

    method Rollback(p: Savepoint)
      modifies `sequences, `invoices, `planStatus, `baseUsed, `topupUsed, `topupPurchases
      ensures p == Savepoint(sequences, invoices, planStatus, baseUsed, topupUsed, topupPurchases)
    {
      sequences, invoices := p.sequences, p.invoices;
      planStatus, baseUsed, topupUsed, topupPurchases := p.planStatus, p.baseUsed, p.topupUsed, p.topupPurchases;
    }
  }
}
