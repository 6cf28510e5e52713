/** Status changes of orders and the webhook events that tell of them, over whole runs
    (internal/orchestration/orchestrator.go:292-336). */
module Auditing {
  import opened Prelude
  import opened Domain
  import opened Catalogues
  import opened Observability
  import opened Payments
  import opened Invariants

  function One(b: bool): nat { if b then 1 else 0 }

  // ---------- settling at most once ----------

  predicate StatusOf(b: Backend, r: string, status: Status) { Known(b, r) && OrderOf(b, r).status == status }

  predicate Changed(before: Backend, after: Backend, r: string) {
    Known(before, r) && !StatusOf(after, r, OrderOf(before, r).status)
  }

  function StatusChanges(s: State, es: seq<Event>, r: string): nat {
    if es == [] then 0
    else
      var before, after := Run(s, es[..|es| - 1]).store, Run(s, es).store;
      StatusChanges(s, es[..|es| - 1], r)
      + One(Changed(before, after, r))
  }

  /** Whatever the store and its faults, an order changes status at most once, and is terminal afterwards. */
  lemma {:induction false} SettlesAtMostOnce(c: Catalogue, b: Backend, es: seq<Event>, r: string)
    requires EmptyStore(b) && Legal(NewState(c, b), es)
    ensures StatusChanges(NewState(c, b), es, r) <= 1
    ensures StatusChanges(NewState(c, b), es, r) == 1 ==>
              Known(Run(NewState(c, b), es).store, r) && Terminal(OrderOf(Run(NewState(c, b), es).store, r).status)
  {
    var s := NewState(c, b);
    if es != [] {
      SettlesAtMostOnce(c, b, es[..|es| - 1], r);
      NewServiceInv(c, b);
      RunKeepsInv(s, es[..|es| - 1]);
      StepKeepsInv(Run(s, es[..|es| - 1]), Triples(s, es[..|es| - 1]), es[|es| - 1]);
    }
  }

  // ---------- webhook events against status changes ----------

  function WebhookEvents(audit: seq<AuditEvent>, r: string): nat {
    if audit == [] then 0
    else
      var e := audit[|audit| - 1];
      WebhookEvents(audit[..|audit| - 1], r) + if e.PaymentWebhook? && e.reference == r then 1 else 0
  }

  lemma LogWebhook(audit: seq<AuditEvent>, e: AuditEvent)
    ensures forall r :: WebhookEvents(audit + [e], r)
                     == WebhookEvents(audit, r) + One(e.PaymentWebhook? && e.reference == r)
  {
  }

  /** Webhooks of a run whose save was refused: the only ones that count no outcome. */
  predicate SaveRefused(s: State, e: Event) {
    e.ReconcileWebhook? && PlanFor(s, e.call, e.faults).Write? && SaveIn(s.store, e.faults.save).SaveFailed?
  }

  /** The write of a webhook took effect, and its caller was told that it failed. */
  predicate Unreported(s: State, e: Event) {
    && SaveRefused(s, e) && SaveIn(s.store, e.faults.save).applied
  }

  /** Such webhooks of a run for one reference. */
  function UnreportedSaves(s: State, es: seq<Event>, r: string): nat {
    if es == [] then 0
    else
      var e := es[|es| - 1];
      UnreportedSaves(s, es[..|es| - 1], r)
      + One(Unreported(Run(s, es[..|es| - 1]), e) && e.call.reference == r)
  }

  lemma WriteChanges(b: Backend, order: Order, ledger: Ledger, r: string)
    requires WellFormed(b) && order.id == order.reference
    requires Known(b, order.reference) ==>
               !Terminal(OrderOf(b, order.reference).status) && Terminal(order.status)
    ensures Changed(b, Save(b, order, ledger), r) <==> Known(b, r) && r == order.reference
  {
    SaveThenGet(b, order, ledger, r);
  }

  lemma CarryChanges(s: State, plan: Plan, save: SaveOutcome, r: string)
    requires WellFormed(s.store)
    requires plan.Write? ==>
               && plan.order.id == plan.order.reference
               && (Known(s.store, plan.order.reference) ==>
                     !Terminal(OrderOf(s.store, plan.order.reference).status) && Terminal(plan.order.status))
    ensures Changed(s.store, Carry(s, plan, save).state.store, r)
       <==> plan.Write? && (save.SaveOk? || save.applied) && Known(s.store, r) && r == plan.order.reference
  {
    if plan.Write? { WriteChanges(s.store, plan.order, plan.ledger, r); }
  }

  /** A webhook changes its order when its write takes effect, and is audited when it is told so. */
  lemma WebhookChanges(s: State, triples: set<Triple>, c: Call, faults: Faults, r: string)
    requires Inv(s, triples)
    ensures var e := ReconcileWebhook(c, faults);
            Changed(s.store, StepWebhook(s, c, faults).state.store, r)
            <==> (Records(s, c, faults) || Unreported(s, e)) && c.reference == r
  {
    WebhookPlanSound(s, triples, c, faults);
    CarryChanges(s, PlanFor(s, c, faults), SaveIn(s.store, faults.save), r);
  }

  lemma PlanAudits(sv: Service, persistent: bool, order: Result<Order>, ledger: Result<Ledger>, c: Call)
    ensures var plan := WebhookPlan(sv, persistent, order, ledger, c);
            if plan.Answer? then plan.service.audit == sv.audit
            else plan.onOk.audit == sv.audit + [PaymentWebhook(c.reference, c.provider, c.status)]
                 && plan.onError.audit == sv.audit
  {
  }

  lemma WebhookAudits(s: State, c: Call, faults: Faults, r: string)
    ensures WebhookEvents(StepWebhook(s, c, faults).state.service.audit, r)
         == WebhookEvents(s.service.audit, r) + One(Records(s, c, faults) && c.reference == r)
  {
    var f := FaultsOf(s.store, faults);
    PlanAudits(s.service, s.store.Sqlite?, Read(f.order, GetOrder(s.store, c.reference)),
               Read(f.ledger, GetLedger(s.store, c.reference)), c);
    LogWebhook(s.service.audit, PaymentWebhook(c.reference, c.provider, c.status));
  }

  lemma OtherAudits(s: State, e: Event, r: string)
    requires !e.ReconcileWebhook?
    ensures WebhookEvents(Step(s, e).state.service.audit, r) == WebhookEvents(s.service.audit, r)
  {
    if e.CreatePayment? && e.quote.Quoted? && e.invoice.Ok? {
      LogWebhook(s.service.audit, PaymentCreated(e.reference, e.quote.host.id, e.quote.provider));
    }
  }

  lemma OtherChanges(s: State, e: Event, r: string)
    requires WellFormed(s.store) && Fresh(s, e) && !e.ReconcileWebhook?
    ensures !Changed(s.store, Step(s, e).state.store, r)
  {
    if e.CreatePayment? {
      CarryChanges(s, CreatePlan(s.service, e.quote, e.input, e.reference, e.invoice), SaveIn(s.store, e.save), r);
    }
  }

  lemma StepAudits(s: State, triples: set<Triple>, e: Event, r: string)
    requires Inv(s, triples) && Fresh(s, e)
    ensures WebhookEvents(s.service.audit, r) + One(Changed(s.store, Step(s, e).state.store, r))
         == WebhookEvents(Step(s, e).state.service.audit, r)
            + One(Unreported(s, e) && e.call.reference == r)
  {
    if e.ReconcileWebhook? {
      WebhookChanges(s, triples, e.call, e.faults, r);
      WebhookAudits(s, e.call, e.faults, r);
    } else {
      OtherChanges(s, e, r);
      OtherAudits(s, e, r);
    }
  }

  /** Over either store, under any faults and restarts, the status changes of an order are its webhook events and
      the writes that took effect and were reported as failed. */
  lemma {:induction false} ChangesAreAudited(c: Catalogue, b: Backend, es: seq<Event>, r: string)
    requires EmptyStore(b) && Legal(NewState(c, b), es)
    ensures var s := NewState(c, b);
            StatusChanges(s, es, r) == WebhookEvents(Run(s, es).service.audit, r) + UnreportedSaves(s, es, r)
  {
    if es != [] {
      var s, front := NewState(c, b), es[..|es| - 1];
      ChangesAreAudited(c, b, front, r);
      NewServiceInv(c, b);
      RunKeepsInv(s, front);
      StepAudits(Run(s, front), Triples(s, front), es[|es| - 1], r);
    }
  }

  /** So a reference never has two webhook events, and one that has an event has a terminal order. */
  lemma {:induction false} NeverTwoEvents(c: Catalogue, b: Backend, es: seq<Event>, r: string)
    requires EmptyStore(b) && Legal(NewState(c, b), es)
    ensures var end := Run(NewState(c, b), es);
            && WebhookEvents(end.service.audit, r) + UnreportedSaves(NewState(c, b), es, r) <= 1
            && (WebhookEvents(end.service.audit, r) == 1 ==>
                  Known(end.store, r) && Terminal(OrderOf(end.store, r).status))
  {
    ChangesAreAudited(c, b, es, r);
    SettlesAtMostOnce(c, b, es, r);
  }
}
