/** Losing the recorded idempotency keys, as a restart does, changes nothing but one kind of answer
    (internal/orchestration/orchestrator.go:287-301, 334). */
module Restart {
  import opened Prelude
  import opened Domain
  import opened Observability
  import opened Payments
  import opened Invariants

  /** The second run knows fewer keys; orders, ledgers, catalogue, audit trail and dead letters are equal. */
  ghost predicate Forgetful(a: State, b: State) {
    && b.catalogue == a.catalogue && b.store == a.store
    && FewerKeys(a.service, b.service)
  }

  /** A recorded key resent with a status other than the stored one. */
  predicate Resent(s: State, c: Call, faults: Faults) {
    && Read(FaultsOf(s.store, faults).order, GetOrder(s.store, c.reference)).Ok?
    && OrderOf(s.store, c.reference).provider == c.provider
    && IdempotencyKey(c.reference, c.provider, c.key) in s.service.idempotent
    && OrderOf(s.store, c.reference).status != c.status
  }

  /** The event resends, with another status, a key that only the first run still knows. */
  predicate LostKey(a: State, b: State, e: Event) {
    && e.ReconcileWebhook? && Resent(a, e.call, e.faults)
    && IdempotencyKey(e.call.reference, e.call.provider, e.call.key) !in b.service.idempotent
  }

  /** Answers are equal but for a lost key: then the first run answers the stored status, and the second
      refuses the transition. */
  predicate Answers(a: State, b: State, e: Event, p: Reply, q: Reply) {
    if LostKey(a, b, e) then
      var stored := OrderOf(a.store, e.call.reference).status;
      p == StatusIs(stored) && q == Error(TransitionError(stored, e.call.status))
    else p == q
  }

  predicate FewerKeys(a: Service, b: Service) {
    b.audit == a.audit && b.deadLetters == a.deadLetters && b.idempotent <= a.idempotent
  }

  predicate SamePlan(p: Plan, q: Plan) {
    if p.Answer? then
      q.Answer? && q.reply == p.reply && FewerKeys(p.service, q.service)
    else
      && q.Write? && q.reply == p.reply && q.order == p.order && q.ledger == p.ledger
      && FewerKeys(p.onOk, q.onOk) && FewerKeys(p.onError, q.onError)
  }

  lemma CarrySame(a: State, b: State, p: Plan, q: Plan, save: SaveOutcome)
    requires Forgetful(a, b) && SamePlan(p, q)
    ensures Forgetful(Carry(a, p, save).state, Carry(b, q, save).state)
    ensures Carry(a, p, save).reply == Carry(b, q, save).reply
  {
  }

  lemma CreatePlansSame(a: Service, b: Service, q: Quote, input: CreateInput, reference: string,
                        invoice: Result<Invoice>)
    requires FewerKeys(a, b)
    ensures SamePlan(CreatePlan(a, q, input, reference, invoice), CreatePlan(b, q, input, reference, invoice))
  {
  }

  /** The plans differ only where the first service knows the key and the second does not. */
  lemma WebhookPlansSame(a: Service, b: Service, persistent: bool, order: Result<Order>, ledger: Result<Ledger>,
                         c: Call)
    requires FewerKeys(a, b)
    requires order.Ok? && order.value.provider == c.provider
             && IdempotencyKey(c.reference, c.provider, c.key) in a.idempotent ==>
               Terminal(order.value.status) && order.value.status == c.status
    ensures SamePlan(WebhookPlan(a, persistent, order, ledger, c), WebhookPlan(b, persistent, order, ledger, c))
  {
  }

  lemma WebhookForgets(a: State, b: State, triples: set<Triple>, c: Call, faults: Faults)
    requires Inv(a, triples) && Forgetful(a, b)
    ensures var p, q := StepWebhook(a, c, faults), StepWebhook(b, c, faults);
            && Forgetful(p.state, q.state)
            && Answers(a, b, ReconcileWebhook(c, faults), p.reply, q.reply)
  {
    var f := FaultsOf(a.store, faults);
    var order, ledger := Read(f.order, GetOrder(a.store, c.reference)), Read(f.ledger, GetLedger(a.store, c.reference));
    var hit := order.Ok? && order.value.provider == c.provider
               && IdempotencyKey(c.reference, c.provider, c.key) in a.service.idempotent;
    if hit { HitIsSettled(a, triples, c); }
    if !hit || order.value.status == c.status {
      WebhookPlansSame(a.service, b.service, a.store.Sqlite?, order, ledger, c);
      CarrySame(a, b, PlanFor(a, c, faults), PlanFor(b, c, faults), SaveIn(a.store, faults.save));
    } else {
      ResentAnswers(a.service, b.service, a.store.Sqlite?, order, ledger, c);
    }
  }

  lemma ResentAnswers(a: Service, b: Service, persistent: bool, order: Result<Order>, ledger: Result<Ledger>, c: Call)
    requires FewerKeys(a, b)
    requires order.Ok? && order.value.provider == c.provider
    requires Terminal(order.value.status) && order.value.status != c.status
    requires IdempotencyKey(c.reference, c.provider, c.key) in a.idempotent
    ensures var p, q := WebhookPlan(a, persistent, order, ledger, c), WebhookPlan(b, persistent, order, ledger, c);
            && p.Answer? && q.Answer? && FewerKeys(p.service, q.service)
            && p.reply == StatusIs(order.value.status)
            && q.reply == if IdempotencyKey(c.reference, c.provider, c.key) in b.idempotent then p.reply
                          else Error(TransitionError(order.value.status, c.status))
  {
  }

  lemma {:induction false} StepForgets(a: State, b: State, triples: set<Triple>, e: Event)
    requires Inv(a, triples) && Forgetful(a, b)
    ensures Forgetful(Step(a, e).state, Step(b, e).state)
    ensures Answers(a, b, e, Step(a, e).reply, Step(b, e).reply)
  {
    match e
    case CreatePayment(q, input, reference, invoice, save) =>
      CreatePlansSame(a.service, b.service, q, input, reference, invoice);
      CarrySame(a, b, CreatePlan(a.service, q, input, reference, invoice),
                CreatePlan(b.service, q, input, reference, invoice), SaveIn(a.store, save));
    case ReconcileWebhook(c, faults) => WebhookForgets(a, b, triples, c, faults);
    case _ =>
  }

  lemma {:induction false} RunsForget(a: State, b: State, triples: set<Triple>, es: seq<Event>)
    requires Inv(a, triples) && Forgetful(a, b) && Legal(a, es)
    ensures Forgetful(Run(a, es), Run(b, es))
  {
    if es != [] {
      var n := |es| - 1;
      RunsForget(a, b, triples, es[..n]);
      RunEvolves(a, triples, es[..n]);
      var mid :| Inv(Run(a, es[..n]), mid);
      StepForgets(Run(a, es[..n]), Run(b, es[..n]), mid, es[n]);
    }
  }

  lemma ReplySnoc(s: State, front: seq<Event>, last: Event)
    ensures Replies(s, front + [last]) == Replies(s, front) + [Step(Run(s, front), last).reply]
  {
  }

  lemma RepliesFront(s: State, es: seq<Event>)
    requires es != []
    ensures Replies(s, es)[..|es| - 1] == Replies(s, es[..|es| - 1])
  {
  }

  lemma {:induction false} RepliesPrefix(s: State, es: seq<Event>, n: nat)
    requires n <= |es|
    ensures Replies(s, es[..n]) == Replies(s, es)[..n]
  {
    if n < |es| {
      var front := es[..|es| - 1];
      RepliesPrefix(s, front, n);
      RepliesFront(s, es);
      assert front[..n] == es[..n];
      assert Replies(s, es)[..|front|][..n] == Replies(s, es)[..n];
    } else {
      assert es[..n] == es;
    }
  }

  lemma ReplyAt(s: State, es: seq<Event>, i: nat)
    requires i < |es|
    ensures Replies(s, es)[i] == Step(Run(s, es[..i]), es[i]).reply
  {
    assert es[..i + 1] == es[..i] + [es[i]];
    ReplySnoc(s, es[..i], es[i]);
    RepliesPrefix(s, es, i + 1);
  }

  lemma PrefixForgets(a: State, b: State, triples: set<Triple>, es: seq<Event>, i: nat) returns (mid: set<Triple>)
    requires Inv(a, triples) && Forgetful(a, b) && Legal(a, es) && i < |es|
    ensures Forgetful(Run(a, es[..i]), Run(b, es[..i])) && Inv(Run(a, es[..i]), mid)
  {
    assert es == es[..i] + es[i..];
    RunConcat(a, es[..i], es[i..]);
    RunsForget(a, b, triples, es[..i]);
    RunEvolves(a, triples, es[..i]);
    mid :| Inv(Run(a, es[..i]), mid);
  }

  lemma AnswersAt(a: State, b: State, triples: set<Triple>, es: seq<Event>, i: nat)
    requires Inv(a, triples) && Forgetful(a, b) && Legal(a, es) && i < |es|
    ensures Answers(Run(a, es[..i]), Run(b, es[..i]), es[i], Replies(a, es)[i], Replies(b, es)[i])
  {
    ReplyAt(a, es, i);
    ReplyAt(b, es, i);
    var mid := PrefixForgets(a, b, triples, es, i);
    StepForgets(Run(a, es[..i]), Run(b, es[..i]), mid, es[i]);
  }

  /** Restart tolerance: forget all recorded keys after any run. Every later order, ledger, audit event and
      dead letter is the same; every later answer is the same, but that a forgotten key resent with another
      status gets an invalid transition in place of the stored status. */
  lemma {:induction false} RestartTolerated(c: Catalogues.Catalogue, store: Backend, es: seq<Event>, later: seq<Event>)
    requires EmptyStore(store) && Legal(NewState(c, store), es + later)
    ensures var kept := Run(NewState(c, store), es);
            var lost := Step(kept, Event.Restart).state;
            && Run(lost, later).store == Run(kept, later).store
            && Run(lost, later).service.audit == Run(kept, later).service.audit
            && Run(lost, later).service.deadLetters == Run(kept, later).service.deadLetters
            && forall i | 0 <= i < |later| ::
                 Answers(Run(kept, later[..i]), Run(lost, later[..i]), later[i],
                         Replies(kept, later)[i], Replies(lost, later)[i])
  {
    var s := NewState(c, store);
    RunConcat(s, es, later);
    NewServiceInv(c, store);
    RunKeepsInv(s, es);
    var kept, lost := Run(s, es), Step(Run(s, es), Event.Restart).state;
    RunsForget(kept, lost, Triples(s, es), later);
    forall i | 0 <= i < |later|
      ensures Answers(Run(kept, later[..i]), Run(lost, later[..i]), later[i],
                      Replies(kept, later)[i], Replies(lost, later)[i])
    {
      AnswersAt(kept, lost, Triples(s, es), later, i);
    }
  }
}
