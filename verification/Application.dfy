/** The services wired to one database: each event of a run, executed by the
    code that serves it, takes the tables one step of the state machine. */
module Application {
  import opened EcfTypes
  import Usage
  import opened Company
  import opened CompanyInvariant
  import opened Database
  import SequencesService
  import InvoicesService
  import UsageService
  import Workers

  class Application {
    const db: Tables
    const sequences: SequencesService.SequencesService
    const invoices: InvoicesService.InvoicesService
    const usage: UsageService.UsageService
    const processor: Workers.EcfProcessingProcessor
    const poller: Workers.StatusPollProcessor
    const contingency: Workers.ContingencyService

    predicate Wired() {
      && sequences.db == db
      && invoices.db == db && invoices.Valid()
      && usage.db == db
      && processor.db == db && processor.Valid()
      && poller.db == db && poller.Valid()
      && contingency.db == db && contingency.Valid()
    }

    constructor (includedInvoices: nat, cycleEnd: int)
      ensures Wired() && fresh(db)
      ensures db.View() == Init(includedInvoices, cycleEnd) && Company.Valid(db.View())
    {
      var tables := new Tables(includedInvoices, cycleEnd);
      db := tables;
      sequences := new SequencesService.SequencesService(tables);
      invoices := new InvoicesService.InvoicesService(tables);
      usage := new UsageService.UsageService(tables);
      processor := new Workers.EcfProcessingProcessor(tables);
      poller := new Workers.StatusPollProcessor(tables);
      contingency := new Workers.ContingencyService(tables);
      RunKeepsValid(tables.View(), [], 0);
    }

    /** Requests on sequences and annulments. */
    method ServeSequences(e: Event)
      requires Wired() && Company.Valid(db.View())
      requires e.RegisterRow? || e.AskAnnulment? || e.SettleAnnulment?
      modifies db
      ensures db.View() == Step(old(db.View()), e)
    {
      match e {
        case RegisterRow(t, first, last, expiresAt) =>
          var _ := sequences.Create(t, first, last, expiresAt);
        case AskAnnulment(id, texts) =>
          if id !in db.annulments {
            var _ := sequences.RequestAnnulment(id, texts);
          }
        case SettleAnnulment(id, v) =>
          if id in db.annulments && db.annulments[id].inFlight {
            assert AnnulmentOk(db.View(), db.annulments[id]);
            assert forall t :: t in db.annulments[id].draft.sims ==>
                var i := db.annulments[id].draft.sims[t].id;
                MovedOn(db.annulments[id].snapshot[i], db.sequences[i], db.authorized[i]);
            sequences.SettleAnnulment(id, v);
          }
      }
    }

    /** Requests and jobs on invoices. */
    method ServeInvoices(e: Event)
      requires Wired()
      requires !(e.RegisterRow? || e.AskAnnulment? || e.SettleAnnulment? || e.EmitInvoice?)
      modifies db
      ensures db.View() == Step(old(db.View()), e)
    {
      ghost var before := db.View();
      match e {
        case ProcessJob(i, w) => processor.Process(i, w);
        case PollJob(i, w) =>
          if i in db.polls {
            var _ := poller.Process(i, w);
          }
        case ManualPoll(i, query) => invoices.PollStatus(i, query);
        case VoidInvoice(i) => var _ := invoices.VoidInvoice(i);
        case RetryOne(i) => contingency.MarkForRetry(i);
        case RetryAll => var _ := contingency.MarkAllForRetry();
        case ContingencyTick(health, world) => var _, _, _ := contingency.ProcessQueue(health, world);
        case PurchaseTopup(count) => usage.PurchaseTopup(count);
      }
      assert db.View() == before.(ledger := StepLedger(before.ledger, e));
    }

    /** Emission as the guard of the endpoint lets it through: a request it admits is
        never refused for its quota, and one it turns away changes nothing. */
    method EmitUnderGuard(q: EmitRequest) returns (r: Option<EmitResult>)
      requires Wired() && Company.Valid(db.View())
      modifies db
      ensures r.None? <==> !Usage.CanEmit(old(db.MeterView()), q.now)
      ensures r.None? ==> db.View() == old(db.View())
      ensures r.Some? ==> (db.View(), r.value) == Emit(old(db.View()), q) && r.value != Refused(QuotaError)
      ensures Company.Valid(db.View())
    {
      var allowed := usage.CanEmitInvoice(q.now);
      if !allowed {
        return None;
      }
      hide Emit;
      StepKeeps(db.View(), EmitInvoice(q));
      EmitStep(db.View(), q);
      AdmittedHasQuota(db.View(), q);
      assert forall i :: 0 <= i < |db.sequences| ==> RowOk(db.sequences[i], db.authorized[i]);
      var result := invoices.Create(q);
      return Some(result);
    }

    /** Any event: one step, and the invariant of all runs is kept. */
    method Serve(e: Event)
      requires Wired() && Company.Valid(db.View())
      modifies db
      ensures db.View() == Step(old(db.View()), e) && Company.Valid(db.View())
    {
      StepKeeps(db.View(), e);
      if e.EmitInvoice? {
        assert forall i :: 0 <= i < |db.sequences| ==> RowOk(db.sequences[i], db.authorized[i]);
        var _ := invoices.Create(e.request);
      } else if e.RegisterRow? || e.AskAnnulment? || e.SettleAnnulment? {
        ServeSequences(e);
      } else {
        ServeInvoices(e);
      }
    }
  }

  lemma AdmittedHasQuota(s: State, q: EmitRequest)
    requires Usage.CanEmit(s.ledger.meter, q.now)
    ensures Emit(s, q).1 != Refused(QuotaError)
  {}
}
