/** Every answer of a webhook, in literal statuses and texts, over either store and under any faults
    (internal/orchestration/orchestrator.go:273-342). */
module Webhooks {
  import opened Prelude
  import opened Domain
  import opened Observability
  import opened Payments
  import opened Invariants
  import opened Effects

  /** The three texts that end an order. */
  predicate Ended(status: string) { status == "success" || status == "failed" || status == "expired" }

  lemma EndedIsTerminal(status: string)
    ensures Ended(status) <==> Terminal(status)
  {
  }

  /** The store answers the webhook's read with this order. */
  predicate Answers(s: State, c: Call, faults: Faults, o: Order) {
    GetOrder(s.store, c.reference) == Ok(o) && (s.store.Sqlite? ==> faults.order.None?)
  }

  predicate Recorded(s: State, c: Call) { c.reference + ":" + c.provider + ":" + c.key in s.service.idempotent }

  /** An order of the call's provider that is still open to it. */
  predicate Open(s: State, c: Call, faults: Faults, o: Order) {
    Answers(s, c, faults, o) && o.provider == c.provider && !Recorded(s, c) && !Ended(o.status)
  }

  lemma OrderNotFound(b: Backend, r: string)
    ensures GetOrder(b, r).Err? ==> GetOrder(b, r).error == "payment not found"
    ensures GetLedger(b, r).Err? ==> GetLedger(b, r).error == "ledger not found"
  {
  }

  // ---------- refusals and repetitions ----------

  ghost predicate Told(s: State, c: Call, faults: Faults, reply: Reply, labels: set<Metric>) {
    && StepWebhook(s, c, faults).reply == reply
    && OnlyCounts(s, StepWebhook(s, c, faults).state, labels)
  }

  lemma UnreadOrder(s: State, c: Call, faults: Faults)
    ensures s.store.Sqlite? && faults.order.Some? ==>
              Told(s, c, faults, Error(faults.order.value), {Webhook, GetNotFound, WebhookNotFound})
    ensures (s.store.Sqlite? ==> faults.order.None?) && GetOrder(s.store, c.reference).Err? ==>
              Told(s, c, faults, Error("payment not found"), {Webhook, GetNotFound, WebhookNotFound})
  {
    OrderNotFound(s.store, c.reference);
  }

  lemma WrongProvider(s: State, c: Call, faults: Faults, o: Order)
    requires Answers(s, c, faults, o) && o.provider != c.provider
    ensures Told(s, c, faults, Error("provider mismatch"), {Webhook, WebhookProviderMismatch})
  {
  }

  /** A recorded key is answered with the stored status, whatever status it brings. */
  lemma RecordedKey(s: State, c: Call, faults: Faults, o: Order)
    requires Answers(s, c, faults, o) && o.provider == c.provider && Recorded(s, c)
    ensures Told(s, c, faults, StatusIs(o.status), {Webhook, WebhookIdempotent})
  {
  }

  lemma EndedOrder(s: State, c: Call, faults: Faults, o: Order)
    requires Answers(s, c, faults, o) && o.provider == c.provider && !Recorded(s, c) && Ended(o.status)
    ensures c.status == o.status ==> Told(s, c, faults, StatusIs(o.status), {Webhook, WebhookIdempotent})
    ensures c.status != o.status ==>
              Told(s, c, faults, Error("invalid status transition: " + o.status + " -> " + c.status),
                   {Webhook, WebhookInvalidTransition})
  {
    assert INVALID_TRANSITION + (": " + o.status + " -> " + c.status)
        == "invalid status transition: " + o.status + " -> " + c.status;
  }

  /** An open order is not moved by any other status: the webhook is refused and queued once. */
  lemma UnsupportedStatus(s: State, c: Call, faults: Faults, o: Order)
    requires Open(s, c, faults, o) && !Ended(c.status)
    ensures var s' := StepWebhook(s, c, faults).state;
            && StepWebhook(s, c, faults).reply == Error("unsupported status: " + c.status)
            && s'.service.deadLetters
               == s.service.deadLetters + [DeadLetter(c.reference, c.provider, "invalid_status", c.status)]
            && s'.store == s.store && s'.catalogue == s.catalogue
            && s'.service.idempotent == s.service.idempotent && s'.service.audit == s.service.audit
            && CountsOnce(s.service, s'.service, {Webhook, WebhookInvalidStatus})
  {
    assert UNSUPPORTED_STATUS + (": " + c.status) == "unsupported status: " + c.status;
  }

  // ---------- settling ----------

  /** The ledger a settling webhook saves: the one it reads, or one made up from the order. */
  function KeptLedger(s: State, c: Call, faults: Faults, o: Order): Ledger {
    var read := GetLedger(s.store, c.reference);
    if read.Ok? && (s.store.Sqlite? ==> faults.ledger.None?) then read.value
    else Ledger(o.reference, o.gross, o.hostFee, o.providerFee, o.net, SnapshotName(o.snapshotID), c.key)
  }

  function LedgerLabels(s: State, c: Call, faults: Faults): set<Metric> {
    if s.store.Sqlite? && (faults.ledger.Some? || GetLedger(s.store, c.reference).Err?) then {LedgerNotFound} else {}
  }

  /** What the webhook decides for an open order, before the outcome of its save. */
  lemma SettlingPlan(s: State, c: Call, faults: Faults, o: Order) returns (plan: Plan)
    requires Open(s, c, faults, o) && Ended(c.status)
    ensures plan == PlanFor(s, c, faults) && plan.Write?
    ensures plan.order == o.(status := c.status) && plan.ledger == KeptLedger(s, c, faults, o)
    ensures plan.reply == StatusIs(c.status)
    ensures plan.onError == (if LedgerLabels(s, c, faults) == {} then s.service.Inc(Webhook)
                             else s.service.Inc(Webhook).Inc(LedgerNotFound))
    ensures var key := c.reference + ":" + c.provider + ":" + c.key;
            plan.onOk == plan.onError.(idempotent := s.service.idempotent + {key})
                           .Log(PaymentWebhook(c.reference, c.provider, c.status)).Inc(WebhookSuccess)
  {
    EndedIsTerminal(c.status);
    EndedIsTerminal(o.status);
    plan := PlanFor(s, c, faults);
  }

  lemma SuccessCounts(sv: Service, onError: Service, onOk: Service, unread: bool, key: string, e: AuditEvent)
    requires onError == if unread then sv.Inc(Webhook).Inc(LedgerNotFound) else sv.Inc(Webhook)
    requires onOk == onError.(idempotent := sv.idempotent + {key}).Log(e).Inc(WebhookSuccess)
    ensures CountsOnce(sv, onError, {Webhook} + if unread then {LedgerNotFound} else {})
    ensures CountsOnce(sv, onOk, {Webhook, WebhookSuccess} + if unread then {LedgerNotFound} else {})
  {
  }

  /** An open order takes one of the three statuses: it is saved with it, the key is recorded, the event audited. */
  lemma Accepted(s: State, c: Call, faults: Faults, o: Order)
    requires Open(s, c, faults, o) && Ended(c.status) && SaveIn(s.store, faults.save).SaveOk?
    ensures var s' := StepWebhook(s, c, faults).state;
            && StepWebhook(s, c, faults).reply == StatusIs(c.status)
            && s'.store == Save(s.store, o.(status := c.status), KeptLedger(s, c, faults, o))
            && s'.service.idempotent == s.service.idempotent + {c.reference + ":" + c.provider + ":" + c.key}
            && s'.service.audit == s.service.audit + [PaymentWebhook(c.reference, c.provider, c.status)]
            && s'.service.deadLetters == s.service.deadLetters && s'.catalogue == s.catalogue
            && CountsOnce(s.service, s'.service, {Webhook, WebhookSuccess} + LedgerLabels(s, c, faults))
  {
    var plan := SettlingPlan(s, c, faults, o);
    SuccessCounts(s.service, plan.onError, plan.onOk, LedgerLabels(s, c, faults) != {},
                  c.reference + ":" + c.provider + ":" + c.key, PaymentWebhook(c.reference, c.provider, c.status));
    assert StepWebhook(s, c, faults) == Carry(s, plan, SaveOk);
  }

  /** A save that fails is told as it is, nothing is recorded, and the store changes only if it was applied. */
  lemma SaveFails(s: State, c: Call, faults: Faults, o: Order)
    requires Open(s, c, faults, o) && Ended(c.status) && s.store.Sqlite? && faults.save.SaveFailed?
    ensures var s' := StepWebhook(s, c, faults).state;
            && StepWebhook(s, c, faults).reply == Error(faults.save.error)
            && s'.store == (if faults.save.applied
                            then Save(s.store, o.(status := c.status), KeptLedger(s, c, faults, o)) else s.store)
            && s'.catalogue == s.catalogue
            && ServiceCounts(s.service, s'.service, {Webhook} + LedgerLabels(s, c, faults))
  {
    var plan := SettlingPlan(s, c, faults, o);
    SuccessCounts(s.service, plan.onError, plan.onOk, LedgerLabels(s, c, faults) != {},
                  c.reference + ":" + c.provider + ":" + c.key, PaymentWebhook(c.reference, c.provider, c.status));
    assert StepWebhook(s, c, faults) == Carry(s, plan, faults.save);
  }

  lemma SavedStatus(b: Backend, o: Order, status: string, ledger: Ledger, r: string)
    requires WellFormed(b) && GetOrder(b, r) == Ok(o)
    ensures GetOrder(Save(b, o.(status := status), ledger), r) == Ok(o.(status := status))
    ensures forall x | x != r :: GetOrder(Save(b, o.(status := status), ledger), x) == GetOrder(b, x)
  {
    assert Known(b, r) && OrderOf(b, r) == o;
    forall x { SaveThenGet(b, o.(status := status), ledger, x); }
  }

  /** When nothing fails, a webhook settles an open order exactly when its status is one of the three. */
  lemma OpenOrderSettlesIff(s: State, c: Call, faults: Faults, o: Order)
    requires WellFormed(s.store) && Open(s, c, faults, o) && FaultsOf(s.store, faults) == NO_FAULTS
    ensures var reply, b := StepWebhook(s, c, faults).reply, StepWebhook(s, c, faults).state.store;
            && (reply == StatusIs(c.status) && GetOrder(b, c.reference) == Ok(o.(status := c.status))
                <==> c.status == "success" || c.status == "failed" || c.status == "expired")
            && forall r | r != c.reference :: GetOrder(b, r) == GetOrder(s.store, r)
  {
    if Ended(c.status) {
      Accepted(s, c, faults, o);
      SavedStatus(s.store, o, c.status, KeptLedger(s, c, faults, o), c.reference);
    } else {
      UnsupportedStatus(s, c, faults, o);
    }
  }
}
