/** Emission in one transaction, manual poll and void. */
module InvoicesService {
  import opened EcfTypes
  import opened Pipeline
  import opened Company
  import opened Database
  import SequencesService
  import UsageService
  import Usage

  class InvoicesService {
    const db: Tables
    const sequences: SequencesService.SequencesService
    const usage: UsageService.UsageService

    predicate Valid() {
      sequences.db == db && usage.db == db
    }

    constructor (db: Tables)
      ensures Valid() && this.db == db
    {
      this.db := db;
      sequences := new SequencesService.SequencesService(db);
      usage := new UsageService.UsageService(db);
    }

    /** The body of the emission transaction: writes in place, and may stop with
        some of them made. */
    method CreateInTransaction(q: EmitRequest) returns (r: EmitResult)
      requires Valid()
      requires q.idempotencyKey.Some? ==> FindByKey(db.invoices, q.idempotencyKey.value).None?
      requires forall i :: 0 <= i < |db.sequences| ==> db.sequences[i].currentNumber >= 0
      modifies db`sequences, db`invoices, db`planStatus, db`baseUsed, db`topupUsed, db`topupPurchases
      ensures r == Emit(old(db.View()), q).1
      ensures r.Created? ==> db.View() == Emit(old(db.View()), q).0
    {
      var encf := sequences.AssignNextEncf(q.ecfType, q.now);
      if encf.Err? {
        return Refused(NoNumber(encf.error));
      }
      if q.xmlFails {
        return Refused(XmlError);
      }
      var inv := Invoice(q.ecfType, encf.value, QUEUED, None, q.referenceEncf, q.isRfce, true, false, q.idempotencyKey, q.now);
      if EncfTaken(db.invoices, inv) {
        return Refused(DuplicateEncf);
      }
      var index := |db.invoices|;
      db.invoices := db.invoices + [inv];
      if q.linesFail {
        return Refused(LinesError);
      }
      var outcome := usage.IncrementUsage();
      if outcome == Usage.QuotaExceeded {
        return Refused(QuotaError);
      }
      return Created(index);
    }

    /** A refusal at any point restores every write: sequence, invoice and meter. */
    method Create(q: EmitRequest) returns (r: EmitResult)
      requires Valid()
      requires forall i :: 0 <= i < |db.sequences| ==> db.sequences[i].currentNumber >= 0
      modifies db`sequences, db`invoices, db`planStatus, db`baseUsed, db`topupUsed, db`topupPurchases
      ensures (db.View(), r) == Emit(old(db.View()), q)
    {
      if q.idempotencyKey.Some? {
        var existing := FindByKey(db.invoices, q.idempotencyKey.value);
        if existing.Some? {
          return Existing(existing.value);
        }
      }
      var savepoint := db.Begin();
      r := CreateInTransaction(q);
      if r.Refused? {
        db.Rollback(savepoint);
      }
    }

    method PollStatus(i: nat, query: Query)
      requires Valid()
      modifies db`invoices, db`planStatus, db`baseUsed, db`topupUsed, db`topupPurchases
      ensures db.LedgerView() == Pipeline.PollStatus(old(db.LedgerView()), i, query)
    {
      if i >= |db.invoices| || db.invoices[i].trackId.None? || query.QueryFailed? {
        return;
      }
      var newStatus := MapDgiiStatus(query.code);
      if newStatus != db.invoices[i].status {
        db.invoices := db.invoices[i := db.invoices[i].(status := newStatus)];
        if newStatus == REJECTED {
          usage.RevertUsage(i);
        }
      }
    }

    method VoidInvoice(i: nat) returns (voided: bool)
      requires Valid()
      modifies db`invoices, db`planStatus, db`baseUsed, db`topupUsed, db`topupPurchases
      ensures db.LedgerView() == Void(old(db.LedgerView()), i)
      ensures voided <==> i < |old(db.invoices)| && Voidable(old(db.invoices)[i].status)
    {
      if i >= |db.invoices| {
        return false;
      }
      var previousStatus := db.invoices[i].status;
      if previousStatus == VOIDED || previousStatus == ACCEPTED || previousStatus == CONDITIONAL {
        return false;
      }
      if previousStatus == PROCESSING || previousStatus == SENT {
        return false;
      }
      if previousStatus != DRAFT && previousStatus != ERROR && previousStatus != CONTINGENCY && previousStatus != REJECTED {
        return false;
      }
      db.invoices := db.invoices[i := db.invoices[i].(status := VOIDED)];
      if previousStatus != DRAFT {
        usage.RevertUsage(i);
      }
      return true;
    }
  }
}
