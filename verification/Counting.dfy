/** What the counters, the audit trail and the dead-letter queue add up to over whole runs
    (internal/orchestration/orchestrator.go:125-255, 273-338). */
module Counting {
  import opened Prelude
  import opened Domain
  import opened Catalogues
  import opened Observability
  import opened Payments
  import opened Invariants
  import opened Auditing

  // ---------- conservation of the counters ----------

  function CreatedEvents(audit: seq<AuditEvent>): nat {
    if audit == [] then 0
    else CreatedEvents(audit[..|audit| - 1]) + if audit[|audit| - 1].PaymentCreated? then 1 else 0
  }

  function Sum(c: Counters, labels: seq<Metric>): nat {
    if labels == [] then 0 else Sum(c, labels[..|labels| - 1]) + Count(c, labels[|labels| - 1])
  }

  const CREATE_ERRORS: seq<Metric> := [
    CreateError(HostNotFound), CreateError(HostInvalid), CreateError(ProductNotFound), CreateError(ProductInvalid),
    CreateError(ProductInactive), CreateError(ProductMismatch), CreateError(CreateCause.Fee), CreateError(Settlement),
    CreateError(ProviderMissing), CreateError(Gateway), CreateError(Store)]

  const WEBHOOK_OUTCOMES: seq<Metric> := [
    WebhookSuccess, WebhookIdempotent, WebhookNotFound, WebhookProviderMismatch, WebhookInvalidTransition,
    WebhookInvalidStatus]

  ghost predicate Distinct(labels: seq<Metric>) { forall i, j | 0 <= i < j < |labels| :: labels[i] != labels[j] }

  /** One increment moves the sum over distinct labels by one, or not at all. */
  lemma {:induction false} SumBump(c: Counters, labels: seq<Metric>, m: Metric)
    requires Distinct(labels)
    ensures Sum(Bump(c, m), labels) == Sum(c, labels) + if m in labels then 1 else 0
  {
    if labels != [] {
      var front, last := labels[..|labels| - 1], labels[|labels| - 1];
      assert labels == front + [last];
      SumBump(c, front, m);
    }
  }

  function RefusedSaves(s: State, es: seq<Event>): nat {
    if es == [] then 0
    else RefusedSaves(s, es[..|es| - 1]) + if SaveRefused(Run(s, es[..|es| - 1]), es[|es| - 1]) then 1 else 0
  }

  /** Dead letters handed out by the drains of a run. */
  function Drained(s: State, es: seq<Event>): nat {
    if es == [] then 0
    else Drained(s, es[..|es| - 1])
         + if es[|es| - 1].Drain? then |Run(s, es[..|es| - 1]).service.deadLetters| else 0
  }

  /** The figures that are conserved together. */
  datatype Tally = Tally(creates: nat, created: nat, createErrors: nat, webhooks: nat, outcomes: nat,
                         unsupported: nat, letters: nat)

  function TallyOf(sv: Service): Tally {
    Tally(Count(sv.metrics, Create), CreatedEvents(sv.audit), Sum(sv.metrics, CREATE_ERRORS),
          Count(sv.metrics, Webhook), Sum(sv.metrics, WEBHOOK_OUTCOMES),
          Count(sv.metrics, WebhookInvalidStatus), |sv.deadLetters|)
  }

  predicate Balance(t: Tally, refused: nat, drained: nat) {
    && t.creates == t.created + t.createErrors
    && t.webhooks == t.outcomes + refused
    && t.unsupported == t.letters + drained
  }

  lemma {:induction false} TallyInc(sv: Service, m: Metric)
    ensures var t := TallyOf(sv);
            TallyOf(sv.Inc(m)) == t.(creates := t.creates + One(m == Create),
                                     createErrors := t.createErrors + One(m.CreateError?),
                                     webhooks := t.webhooks + One(m == Webhook),
                                     outcomes := t.outcomes + One(m in WEBHOOK_OUTCOMES),
                                     unsupported := t.unsupported + One(m == WebhookInvalidStatus))
  {
    LabelsDistinct();
    SumBump(sv.metrics, CREATE_ERRORS, m);
    SumBump(sv.metrics, WEBHOOK_OUTCOMES, m);
    AllCausesListed(m);
  }

  lemma LabelsDistinct()
    ensures Distinct(CREATE_ERRORS) && Distinct(WEBHOOK_OUTCOMES)
  {
  }

  lemma AllCausesListed(m: Metric)
    ensures m in CREATE_ERRORS <==> m.CreateError?
  {
    if m.CreateError? {
      match m.cause
      case HostNotFound => assert CREATE_ERRORS[0] == m;
      case HostInvalid => assert CREATE_ERRORS[1] == m;
      case ProductNotFound => assert CREATE_ERRORS[2] == m;
      case ProductInvalid => assert CREATE_ERRORS[3] == m;
      case ProductInactive => assert CREATE_ERRORS[4] == m;
      case ProductMismatch => assert CREATE_ERRORS[5] == m;
      case Fee => assert CREATE_ERRORS[6] == m;
      case Settlement => assert CREATE_ERRORS[7] == m;
      case ProviderMissing => assert CREATE_ERRORS[8] == m;
      case Gateway => assert CREATE_ERRORS[9] == m;
      case Store => assert CREATE_ERRORS[10] == m;
    }
  }

  lemma TallyLog(sv: Service, e: AuditEvent)
    ensures TallyOf(sv.Log(e)) == TallyOf(sv).(created := TallyOf(sv).created + One(e.PaymentCreated?))
  {
  }

  /** One create counts itself once more: as an audit event or under one of the eleven causes. */
  lemma CreateBalances(sv: Service, q: Quote, input: CreateInput, reference: string, invoice: Result<Invoice>,
                       refused: nat, drained: nat)
    requires Balance(TallyOf(sv), refused, drained)
    ensures var plan := CreatePlan(sv, q, input, reference, invoice);
            && (plan.Answer? ==> Balance(TallyOf(plan.service), refused, drained))
            && (plan.Write? ==> Balance(TallyOf(plan.onOk), refused, drained)
                                && Balance(TallyOf(plan.onError), refused, drained))
  {
    if q.Refused? {
      RefusalBalances(sv, q.cause, refused, drained);
    } else if invoice.Err? {
      RefusalBalances(sv, Gateway, refused, drained);
    } else {
      RefusalBalances(sv, Store, refused, drained);
      CreationBalances(sv, PaymentCreated(reference, q.host.id, q.provider), refused, drained);
    }
  }

  lemma RefusalBalances(sv: Service, cause: CreateCause, refused: nat, drained: nat)
    requires Balance(TallyOf(sv), refused, drained)
    ensures Balance(TallyOf(sv.Inc(Create).Inc(CreateError(cause))), refused, drained)
  {
    TallyInc(sv, Create);
    TallyInc(sv.Inc(Create), CreateError(cause));
  }

  lemma CreationBalances(sv: Service, e: AuditEvent, refused: nat, drained: nat)
    requires Balance(TallyOf(sv), refused, drained) && e.PaymentCreated?
    ensures Balance(TallyOf(sv.Inc(Create).Log(e)), refused, drained)
  {
    TallyInc(sv, Create);
    TallyLog(sv.Inc(Create), e);
  }

  lemma OutcomeBalances(sv: Service, m: Metric, refused: nat, drained: nat)
    requires Balance(TallyOf(sv), refused, drained)
    requires m in WEBHOOK_OUTCOMES && m != WebhookInvalidStatus && !m.CreateError? && m != Create && m != Webhook
    ensures Balance(TallyOf(sv.Inc(Webhook).Inc(m)), refused, drained)
    ensures Balance(TallyOf(sv.Inc(Webhook).Inc(GetNotFound).Inc(m)), refused, drained)
  {
    TallyInc(sv, Webhook);
    TallyInc(sv.Inc(Webhook), m);
    TallyInc(sv.Inc(Webhook), GetNotFound);
    TallyInc(sv.Inc(Webhook).Inc(GetNotFound), m);
  }

  lemma LetterBalances(sv: Service, letter: DeadLetter, refused: nat, drained: nat)
    requires Balance(TallyOf(sv), refused, drained)
    ensures var sv' := sv.Inc(Webhook).Inc(WebhookInvalidStatus);
            Balance(TallyOf(sv'.(deadLetters := sv'.deadLetters + [letter])), refused, drained)
  {
    TallyInc(sv, Webhook);
    TallyInc(sv.Inc(Webhook), WebhookInvalidStatus);
    assert WEBHOOK_OUTCOMES[5] == WebhookInvalidStatus;
  }

  /** Every answer to a webhook counts one outcome. */
  lemma AnswerBalances(sv: Service, persistent: bool, order: Result<Order>, ledger: Result<Ledger>, c: Call,
                       refused: nat, drained: nat)
    requires Balance(TallyOf(sv), refused, drained) && WebhookPlan(sv, persistent, order, ledger, c).Answer?
    ensures Balance(TallyOf(WebhookPlan(sv, persistent, order, ledger, c).service), refused, drained)
  {
    assert WEBHOOK_OUTCOMES[1] == WebhookIdempotent && WEBHOOK_OUTCOMES[2] == WebhookNotFound
        && WEBHOOK_OUTCOMES[3] == WebhookProviderMismatch && WEBHOOK_OUTCOMES[4] == WebhookInvalidTransition;
    if order.Err? {
      OutcomeBalances(sv, WebhookNotFound, refused, drained);
    } else if order.value.provider != c.provider {
      OutcomeBalances(sv, WebhookProviderMismatch, refused, drained);
    } else if IdempotencyKey(c.reference, c.provider, c.key) in sv.idempotent
              || (Terminal(order.value.status) && order.value.status == c.status) {
      OutcomeBalances(sv, WebhookIdempotent, refused, drained);
    } else if Terminal(order.value.status) {
      OutcomeBalances(sv, WebhookInvalidTransition, refused, drained);
    } else {
      LetterBalances(sv, DeadLetter(c.reference, c.provider, "invalid_status", c.status), refused, drained);
    }
  }

  lemma SuccessBalances(sv: Service, key: string, e: AuditEvent, refused: nat, drained: nat)
    requires Balance(TallyOf(sv), refused + 1, drained) && e.PaymentWebhook?
    ensures Balance(TallyOf(sv.(idempotent := sv.idempotent + {key}).Log(e).Inc(WebhookSuccess)), refused, drained)
  {
    var recorded := sv.(idempotent := sv.idempotent + {key});
    TallyLog(recorded, e);
    TallyInc(recorded.Log(e), WebhookSuccess);
    assert WEBHOOK_OUTCOMES[0] == WebhookSuccess;
  }

  /** A write counts its outcome when it is done, and none when it is refused. */
  lemma WriteBalances(sv: Service, persistent: bool, order: Result<Order>, ledger: Result<Ledger>, c: Call,
                      refused: nat, drained: nat)
    requires Balance(TallyOf(sv), refused, drained) && WebhookPlan(sv, persistent, order, ledger, c).Write?
    ensures var plan := WebhookPlan(sv, persistent, order, ledger, c);
            Balance(TallyOf(plan.onOk), refused, drained) && Balance(TallyOf(plan.onError), refused + 1, drained)
  {
    var plan := WebhookPlan(sv, persistent, order, ledger, c);
    TallyInc(sv, Webhook);
    TallyInc(sv.Inc(Webhook), LedgerNotFound);
    SuccessBalances(plan.onError, IdempotencyKey(c.reference, c.provider, c.key),
                    PaymentWebhook(c.reference, c.provider, c.status), refused, drained);
  }

  lemma WebhookBalances(s: State, c: Call, faults: Faults, refused: nat, drained: nat)
    requires Balance(TallyOf(s.service), refused, drained)
    ensures Balance(TallyOf(StepWebhook(s, c, faults).state.service),
                    refused + One(SaveRefused(s, ReconcileWebhook(c, faults))), drained)
  {
    var f := FaultsOf(s.store, faults);
    var order, ledger := Read(f.order, GetOrder(s.store, c.reference)), Read(f.ledger, GetLedger(s.store, c.reference));
    if PlanFor(s, c, faults).Answer? {
      AnswerBalances(s.service, s.store.Sqlite?, order, ledger, c, refused, drained);
    } else {
      WriteBalances(s.service, s.store.Sqlite?, order, ledger, c, refused, drained);
    }
  }

  lemma GetBalances(s: State, reference: string, fault: Option<string>, refused: nat, drained: nat)
    requires Balance(TallyOf(s.service), refused, drained)
    ensures Balance(TallyOf(StepGet(s, reference, fault).state.service), refused, drained)
  {
    TallyInc(s.service, Get);
    TallyInc(s.service.Inc(Get), GetNotFound);
  }

  lemma StepBalances(s: State, e: Event, refused: nat, drained: nat)
    requires Balance(TallyOf(s.service), refused, drained)
    ensures Balance(TallyOf(Step(s, e).state.service), refused + One(SaveRefused(s, e)),
                    drained + if e.Drain? then |s.service.deadLetters| else 0)
  {
    if e.CreatePayment? {
      CreateBalances(s.service, e.quote, e.input, e.reference, e.invoice, refused, drained);
    } else if e.ReconcileWebhook? {
      WebhookBalances(s, e.call, e.faults, refused, drained);
    } else if e.GetPayment? {
      GetBalances(s, e.reference, e.fault, refused, drained);
    } else {
      QuietBalances(s, e, refused, drained);
    }
  }

  lemma QuietBalances(s: State, e: Event, refused: nat, drained: nat)
    requires Balance(TallyOf(s.service), refused, drained) && (e.Configure? || e.Drain? || e.Restart?)
    ensures Balance(TallyOf(Step(s, e).state.service), refused,
                    drained + if e.Drain? then |s.service.deadLetters| else 0)
  {
  }

  lemma {:induction false} EmptySum(labels: seq<Metric>)
    ensures Sum(map[], labels) == 0
  {
    if labels != [] { EmptySum(labels[..|labels| - 1]); }
  }

  /** Conservation over any run, over either store and under any faults. */
  lemma {:induction false} RunBalances(c: Catalogue, b: Backend, es: seq<Event>)
    ensures var s := NewState(c, b);
            Balance(TallyOf(Run(s, es).service), RefusedSaves(s, es), Drained(s, es))
  {
    if es != [] {
      var s := NewState(c, b);
      RunBalances(c, b, es[..|es| - 1]);
      StepBalances(Run(s, es[..|es| - 1]), es[|es| - 1], RefusedSaves(s, es[..|es| - 1]), Drained(s, es[..|es| - 1]));
    } else {
      EmptySum(CREATE_ERRORS);
      EmptySum(WEBHOOK_OUTCOMES);
    }
  }

  lemma {:induction false} MemoryStaysMemory(s: State, es: seq<Event>)
    requires s.store.Memory?
    ensures Run(s, es).store.Memory? && RefusedSaves(s, es) == 0
  {
    if es != [] { MemoryStaysMemory(s, es[..|es| - 1]); }
  }

  /** In memory: creates split into created events and the eleven errors, webhooks into the six outcomes,
      and unsupported statuses into queued and drained dead letters. */
  lemma {:induction false} CountersConserved(c: Catalogue, es: seq<Event>)
    ensures var s := NewState(c, EMPTY_MEMORY);
            var sv := Run(s, es).service;
            && Count(sv.metrics, Create) == CreatedEvents(sv.audit) + Sum(sv.metrics, CREATE_ERRORS)
            && Count(sv.metrics, Webhook) == Sum(sv.metrics, WEBHOOK_OUTCOMES)
            && Count(sv.metrics, WebhookInvalidStatus) == |sv.deadLetters| + Drained(s, es)
  {
    RunBalances(c, EMPTY_MEMORY, es);
    MemoryStaysMemory(NewState(c, EMPTY_MEMORY), es);
  }

  // ---------- webhooks, keys and terminal orders ----------

  function TerminalRefs(orders: map<string, Order>): set<string> {
    set r | r in orders && Terminal(orders[r].status)
  }

  /** The reference, as a set, if a step created an order that is terminal at once. */
  function NewlyBorn(o: Outcome): set<string> {
    if o.reply.Created? && Terminal(o.reply.order.status) then {o.reply.order.reference} else {}
  }

  /** References of the orders whose gateway answered with a terminal status. */
  function BornTerminal(s: State, es: seq<Event>): set<string> {
    if es == [] then {}
    else BornTerminal(s, es[..|es| - 1]) + NewlyBorn(Step(Run(s, es[..|es| - 1]), es[|es| - 1]))
  }

  /** The service has counted each order in `settled` once, and nothing else. */
  ghost predicate Counts(sv: Service, settled: set<string>) {
    && (forall r :: WebhookEvents(sv.audit, r) == One(r in settled))
    && |sv.idempotent| == |settled| == Count(sv.metrics, WebhookSuccess)
  }

  ghost predicate Counted(s: State, born: set<string>) {
    && s.store.Memory?
    && born <= TerminalRefs(s.store.orders)
    && Counts(s.service, TerminalRefs(s.store.orders) - born)
  }

  lemma CreateCounts(sv: Service, q: Quote, input: CreateInput, reference: string, invoice: Result<Invoice>,
                     settled: set<string>)
    requires Counts(sv, settled)
    ensures var plan := CreatePlan(sv, q, input, reference, invoice);
            if plan.Answer? then Counts(plan.service, settled) else Counts(plan.onOk, settled)
  {
  }

  lemma AnswerCounts(sv: Service, order: Result<Order>, ledger: Result<Ledger>, c: Call, settled: set<string>)
    requires Counts(sv, settled) && WebhookPlan(sv, false, order, ledger, c).Answer?
    ensures Counts(WebhookPlan(sv, false, order, ledger, c).service, settled)
  {
  }

  /** One more event, key and success for a reference not settled before. */
  lemma SuccessCounts(sv: Service, sv': Service, c: Call, settled: set<string>)
    requires Counts(sv, settled) && c.reference !in settled
    requires sv'.audit == sv.audit + [PaymentWebhook(c.reference, c.provider, c.status)]
    requires IdempotencyKey(c.reference, c.provider, c.key) !in sv.idempotent
    requires sv'.idempotent == sv.idempotent + {IdempotencyKey(c.reference, c.provider, c.key)}
    requires Count(sv'.metrics, WebhookSuccess) == Count(sv.metrics, WebhookSuccess) + 1
    ensures Counts(sv', settled + {c.reference})
  {
    LogWebhook(sv.audit, PaymentWebhook(c.reference, c.provider, c.status));
  }

  lemma WriteCounts(sv: Service, order: Result<Order>, ledger: Result<Ledger>, c: Call, settled: set<string>)
    requires Counts(sv, settled) && c.reference !in settled && WebhookPlan(sv, false, order, ledger, c).Write?
    ensures Counts(WebhookPlan(sv, false, order, ledger, c).onOk, settled + {c.reference})
  {
    SuccessCounts(sv, WebhookPlan(sv, false, order, ledger, c).onOk, c, settled);
  }

  lemma TerminalAfter(orders: map<string, Order>, r: string, o: Order)
    requires r !in TerminalRefs(orders)
    ensures TerminalRefs(orders[r := o]) == TerminalRefs(orders) + if Terminal(o.status) then {r} else {}
  {
  }

  lemma TerminalAfterCreate(orders: map<string, Order>, born: set<string>, r: string, o: Order)
    requires born <= TerminalRefs(orders) && r !in orders
    ensures var born' := born + if Terminal(o.status) then {r} else {};
            born' <= TerminalRefs(orders[r := o]) && TerminalRefs(orders[r := o]) - born' == TerminalRefs(orders) - born
  {
  }

  lemma CreateCounted(s: State, born: set<string>, q: Quote, input: CreateInput, reference: string,
                      invoice: Result<Invoice>)
    requires Counted(s, born) && reference !in s.store.orders
    ensures var o := Carry(s, CreatePlan(s.service, q, input, reference, invoice), SaveOk);
            Counted(o.state, born + NewlyBorn(o))
  {
    var settled := TerminalRefs(s.store.orders) - born;
    var plan := CreatePlan(s.service, q, input, reference, invoice);
    CreateCounts(s.service, q, input, reference, invoice, settled);
    if plan.Write? {
      assert plan.order.reference == reference && plan.reply == Created(plan.order);
      CreateWritten(s, born, plan, reference);
    } else {
      assert plan.reply.Error?;
      assert born + {} == born;
    }
  }

  lemma CreateWritten(s: State, born: set<string>, plan: Plan, reference: string)
    requires s.store.Memory? && born <= TerminalRefs(s.store.orders) && reference !in s.store.orders
    requires plan.Write? && plan.order.reference == reference && plan.reply == Created(plan.order)
    requires Counts(plan.onOk, TerminalRefs(s.store.orders) - born)
    ensures Counted(Carry(s, plan, SaveOk).state, born + NewlyBorn(Carry(s, plan, SaveOk)))
  {
    TerminalAfterCreate(s.store.orders, born, reference, plan.order);
  }

  lemma SettlementWritten(s: State, born: set<string>, plan: Plan, r: string)
    requires s.store.Memory? && born <= TerminalRefs(s.store.orders) && r !in TerminalRefs(s.store.orders)
    requires plan.Write? && plan.order.reference == r && Terminal(plan.order.status)
    requires Counts(plan.onOk, TerminalRefs(s.store.orders) - born + {r})
    ensures Counted(Carry(s, plan, SaveOk).state, born)
  {
    TerminalAfter(s.store.orders, r, plan.order);
    assert (TerminalRefs(s.store.orders) + {r}) - born == TerminalRefs(s.store.orders) - born + {r};
  }

  lemma WebhookCounted(s: State, born: set<string>, c: Call, faults: Faults)
    requires Counted(s, born) && WellFormed(s.store)
    ensures Counted(StepWebhook(s, c, faults).state, born)
  {
    var settled := TerminalRefs(s.store.orders) - born;
    var order, ledger := GetOrder(s.store, c.reference), GetLedger(s.store, c.reference);
    var plan := WebhookPlan(s.service, false, order, ledger, c);
    assert PlanFor(s, c, faults) == plan;
    if plan.Write? {
      assert Known(s.store, c.reference) && plan.order.reference == c.reference && Terminal(plan.order.status);
      WriteCounts(s.service, order, ledger, c, settled);
      SettlementWritten(s, born, plan, c.reference);
    } else {
      AnswerCounts(s.service, order, ledger, c, settled);
    }
  }

  lemma CreateEventCounted(s: State, born: set<string>, e: Event)
    requires Counted(s, born) && e.CreatePayment? && Fresh(s, e)
    ensures Counted(Step(s, e).state, born + NewlyBorn(Step(s, e)))
  {
    CreateCounted(s, born, e.quote, e.input, e.reference, e.invoice);
  }

  lemma WebhookEventCounted(s: State, born: set<string>, e: Event)
    requires Counted(s, born) && WellFormed(s.store) && e.ReconcileWebhook?
    ensures Counted(Step(s, e).state, born + NewlyBorn(Step(s, e)))
  {
    WebhookCounted(s, born, e.call, e.faults);
    NoneBorn(s, e.call, e.faults);
    assert born + {} == born;
  }

  lemma NoneBorn(s: State, c: Call, faults: Faults)
    ensures NewlyBorn(StepWebhook(s, c, faults)) == {}
  {
  }

  lemma GetEventCounted(s: State, born: set<string>, reference: string, fault: Option<string>)
    requires Counted(s, born)
    ensures Counted(StepGet(s, reference, fault).state, born) && NewlyBorn(StepGet(s, reference, fault)) == {}
  {
  }

  lemma OtherEventCounted(s: State, born: set<string>, e: Event)
    requires Counted(s, born) && (e.GetPayment? || e.Configure? || e.Drain?)
    ensures Counted(Step(s, e).state, born + NewlyBorn(Step(s, e)))
  {
    assert born + {} == born;
    if e.GetPayment? { GetEventCounted(s, born, e.reference, e.fault); }
  }

  lemma StepCounted(s: State, born: set<string>, e: Event)
    requires Counted(s, born) && WellFormed(s.store) && Fresh(s, e) && !e.Restart?
    ensures Counted(Step(s, e).state, born + NewlyBorn(Step(s, e)))
  {
    if e.CreatePayment? {
      CreateEventCounted(s, born, e);
    } else if e.ReconcileWebhook? {
      WebhookEventCounted(s, born, e);
    } else {
      OtherEventCounted(s, born, e);
    }
  }

  lemma {:induction false} RunCounted(c: Catalogue, es: seq<Event>)
    requires Legal(NewState(c, EMPTY_MEMORY), es) && forall e | e in es :: !e.Restart?
    ensures Counted(Run(NewState(c, EMPTY_MEMORY), es), BornTerminal(NewState(c, EMPTY_MEMORY), es))
  {
    var s := NewState(c, EMPTY_MEMORY);
    if es != [] {
      RunCounted(c, es[..|es| - 1]);
      NewServiceInv(c, EMPTY_MEMORY);
      RunKeepsInv(s, es[..|es| - 1]);
      StepCounted(Run(s, es[..|es| - 1]), BornTerminal(s, es[..|es| - 1]), es[|es| - 1]);
    } else {
      assert TerminalRefs(map[]) == {};
    }
  }

  /** In memory, the recorded keys and the success counter both count the orders a webhook settled; they
      equal the number of terminal orders exactly when no gateway answered with a terminal status. */
  lemma {:induction false} KeysCountTerminalOrders(c: Catalogue, es: seq<Event>)
    requires Legal(NewState(c, EMPTY_MEMORY), es) && forall e | e in es :: !e.Restart?
    ensures Run(NewState(c, EMPTY_MEMORY), es).store.Memory?
    ensures var end := Run(NewState(c, EMPTY_MEMORY), es);
            && |end.service.idempotent| == Count(end.service.metrics, WebhookSuccess)
            && (|end.service.idempotent| == |TerminalRefs(end.store.orders)|
                <==> BornTerminal(NewState(c, EMPTY_MEMORY), es) == {})
  {
    RunCounted(c, es);
    var born := BornTerminal(NewState(c, EMPTY_MEMORY), es);
    var terminal := TerminalRefs(Run(NewState(c, EMPTY_MEMORY), es).store.orders);
    assert terminal == (terminal - born) + born;
    assert |terminal| == |terminal - born| + |born|;
  }

  /** A reference has one webhook event if a webhook settled its order, and none otherwise. */
  lemma {:induction false} OneEventPerSettledOrder(c: Catalogue, es: seq<Event>, r: string)
    requires Legal(NewState(c, EMPTY_MEMORY), es) && forall e | e in es :: !e.Restart?
    ensures var end := Run(NewState(c, EMPTY_MEMORY), es);
            && WebhookEvents(end.service.audit, r) <= 1
            && (WebhookEvents(end.service.audit, r) == 1
                <==> Known(end.store, r) && Terminal(OrderOf(end.store, r).status)
                     && r !in BornTerminal(NewState(c, EMPTY_MEMORY), es))
  {
    RunCounted(c, es);
  }
}
