/** What every step keeps, over either store and under any faults: orders change only by reaching a
    terminal status, and the recorded keys stand for settled orders. */
module Invariants {
  import opened Prelude
  import opened Domain
  import T = Tables
  import opened Payments
  import opened Keys

  /** (reference, provider, key) of a webhook that settled an order. */
  type Triple = (string, string, string)

  function KeyOf(t: Triple): string { IdempotencyKey(t.0, t.1, t.2) }

  predicate Known(b: Backend, r: string) { GetOrder(b, r).Ok? }

  function OrderOf(b: Backend, r: string): Order
    requires Known(b, r)
  {
    GetOrder(b, r).value
  }

  ghost predicate WellFormed(b: Backend) {
    && (b.Sqlite? ==> T.UniqueReferences(b.tables))
    && forall r | Known(b, r) ::
         OrderOf(b, r).id == r && OrderOf(b, r).reference == r && WellFormedReference(r)
  }

  ghost predicate Settled(b: Backend, t: Triple) {
    Known(b, t.0) && OrderOf(b, t.0).provider == t.1 && Terminal(OrderOf(b, t.0).status)
  }

  /** The set of strings is the image of a set of triples, each naming a settled order. */
  ghost predicate Inv(s: State, triples: set<Triple>) {
    && WellFormed(s.store)
    && (forall t | t in triples :: KeyOf(t) in s.service.idempotent && Settled(s.store, t))
    && (forall k | k in s.service.idempotent :: exists t | t in triples :: KeyOf(t) == k)
  }

  /** Orders stay, with every field but the status, and a terminal status stays too. */
  ghost predicate Evolves(b: Backend, b': Backend) {
    forall r | Known(b, r) ::
      && Known(b', r)
      && OrderOf(b', r) == OrderOf(b, r).(status := OrderOf(b', r).status)
      && (OrderOf(b', r).status != OrderOf(b, r).status ==>
            !Terminal(OrderOf(b, r).status) && Terminal(OrderOf(b', r).status))
  }

  /** The set of triples the string set is meant to be. */
  function NextTriples(s: State, triples: set<Triple>, e: Event): set<Triple> {
    if e.Restart? then {}
    else if e.ReconcileWebhook? && Records(s, e.call, e.faults) then
      triples + {(e.call.reference, e.call.provider, e.call.key)}
    else triples
  }

  /** The webhook settles its order now: it plans a write, and the write is reported as done. */
  predicate Records(s: State, c: Call, faults: Faults) {
    PlanFor(s, c, faults).Write? && SaveIn(s.store, faults.save).SaveOk?
  }

  function Triples(s: State, es: seq<Event>): set<Triple> {
    if es == [] then {}
    else NextTriples(Run(s, es[..|es| - 1]), Triples(s, es[..|es| - 1]), es[|es| - 1])
  }

  // ---------- one write ----------

  lemma SaveThenGet(b: Backend, order: Order, ledger: Ledger, r: string)
    requires b.Sqlite? ==> T.UniqueReferences(b.tables)
    requires order.id == order.reference
    ensures GetOrder(Save(b, order, ledger), r) == if r == order.reference then Ok(order) else GetOrder(b, r)
    ensures b.Sqlite? ==> T.UniqueReferences(Save(b, order, ledger).tables)
  {
    if b.Sqlite? { T.SaveThenGetOrder(b.tables, order, ledger, r); }
  }

  /** Writing a new order, or an open order with a terminal status, is an evolution. */
  lemma WriteEvolves(b: Backend, order: Order, ledger: Ledger)
    requires WellFormed(b) && order.id == order.reference && WellFormedReference(order.reference)
    requires Known(b, order.reference) ==>
               && order == OrderOf(b, order.reference).(status := order.status)
               && !Terminal(OrderOf(b, order.reference).status) && Terminal(order.status)
    ensures var b' := Save(b, order, ledger);
            WellFormed(b') && Evolves(b, b') && GetOrder(b', order.reference) == Ok(order)
  {
    var b' := Save(b, order, ledger);
    forall r ensures GetOrder(b', r) == if r == order.reference then Ok(order) else GetOrder(b, r) {
      SaveThenGet(b, order, ledger, r);
    }
    SaveThenGet(b, order, ledger, order.reference);
  }

  lemma EvolvesTransitive(a: Backend, b: Backend, c: Backend)
    requires Evolves(a, b) && Evolves(b, c)
    ensures Evolves(a, c)
  {
  }

  lemma SettledStays(b: Backend, b': Backend, t: Triple)
    requires Evolves(b, b') && Settled(b, t)
    ensures Settled(b', t)
  {
  }

  /** A recorded string is hit for a known order only if that order is settled. */
  lemma HitIsSettled(s: State, triples: set<Triple>, c: Call)
    requires Inv(s, triples) && Known(s.store, c.reference)
    requires IdempotencyKey(c.reference, c.provider, c.key) in s.service.idempotent
    ensures Terminal(OrderOf(s.store, c.reference).status)
  {
    var t :| t in triples && KeyOf(t) == IdempotencyKey(c.reference, c.provider, c.key);
    assert Settled(s.store, t);
    KeyGivesReference(t.0, t.1, t.2, c.reference, c.provider, c.key);
  }

  // ---------- one step ----------

  /** Carrying out a plan that answers, or writes as above, keeps everything but the recorded keys. */
  lemma CarryEvolves(s: State, triples: set<Triple>, plan: Plan, save: SaveOutcome)
    requires Inv(s, triples)
    requires plan.Write? ==>
               && plan.order.id == plan.order.reference && WellFormedReference(plan.order.reference)
               && (Known(s.store, plan.order.reference) ==>
                     && plan.order == OrderOf(s.store, plan.order.reference).(status := plan.order.status)
                     && !Terminal(OrderOf(s.store, plan.order.reference).status) && Terminal(plan.order.status))
    ensures var s' := Carry(s, plan, save).state;
            && WellFormed(s'.store) && Evolves(s.store, s'.store)
            && (forall t | t in triples :: Settled(s'.store, t))
            && (plan.Write? && save.SaveOk? ==> GetOrder(s'.store, plan.order.reference) == Ok(plan.order))
  {
    var s' := Carry(s, plan, save).state;
    if plan.Write? { WriteEvolves(s.store, plan.order, plan.ledger); }
    forall t | t in triples ensures Settled(s'.store, t) { SettledStays(s.store, s'.store, t); }
  }

  lemma CreateStep(s: State, triples: set<Triple>, e: Event)
    requires Inv(s, triples) && e.CreatePayment? && Fresh(s, e)
    ensures Evolves(s.store, Step(s, e).state.store) && Inv(Step(s, e).state, triples)
  {
    var plan := CreatePlan(s.service, e.quote, e.input, e.reference, e.invoice);
    CarryEvolves(s, triples, plan, SaveIn(s.store, e.save));
    assert Step(s, e).state.service.idempotent == s.service.idempotent;
  }

  /** A webhook's plan writes only over an open order, and answers with a status only from a settled one. */
  lemma WebhookPlanSound(s: State, triples: set<Triple>, c: Call, faults: Faults)
    requires Inv(s, triples)
    ensures var plan := PlanFor(s, c, faults);
            && (plan.Write? ==>
                  && Known(s.store, c.reference)
                  && plan.order == OrderOf(s.store, c.reference).(status := c.status)
                  && plan.order.provider == c.provider
                  && !Terminal(OrderOf(s.store, c.reference).status) && Terminal(c.status)
                  && plan.reply == StatusIs(c.status)
                  && plan.onError.idempotent == s.service.idempotent
                  && plan.onOk.idempotent == s.service.idempotent + {IdempotencyKey(c.reference, c.provider, c.key)})
            && (plan.Answer? ==> plan.service.idempotent == s.service.idempotent)
            && (plan.Answer? && plan.reply.StatusIs? ==>
                  && Known(s.store, c.reference)
                  && OrderOf(s.store, c.reference).status == plan.reply.status && Terminal(plan.reply.status))
  {
    var plan := PlanFor(s, c, faults);
    if plan.Answer? && plan.reply.StatusIs? && IdempotencyKey(c.reference, c.provider, c.key) in s.service.idempotent {
      HitIsSettled(s, triples, c);
    }
  }

  /** A status is answered only when the store holds it, and it is then terminal. */
  lemma WebhookStep(s: State, triples: set<Triple>, c: Call, faults: Faults)
    requires Inv(s, triples)
    ensures var o := StepWebhook(s, c, faults);
            && Evolves(s.store, o.state.store)
            && Inv(o.state, NextTriples(s, triples, ReconcileWebhook(c, faults)))
            && (o.reply.StatusIs? ==> Known(o.state.store, c.reference)
                                      && OrderOf(o.state.store, c.reference).status == o.reply.status
                                      && Terminal(o.reply.status))
  {
    var plan, save := PlanFor(s, c, faults), SaveIn(s.store, faults.save);
    var o := StepWebhook(s, c, faults);
    assert o == Carry(s, plan, save);
    WebhookPlanSound(s, triples, c, faults);
    CarryEvolves(s, triples, plan, save);
    var t := (c.reference, c.provider, c.key);
    if plan.Write? && save.SaveOk? {
      assert Settled(o.state.store, t);
      assert KeyOf(t) in o.state.service.idempotent;
    }
  }

  lemma StepKeepsInv(s: State, triples: set<Triple>, e: Event)
    requires Inv(s, triples) && Fresh(s, e)
    ensures Inv(Step(s, e).state, NextTriples(s, triples, e))
    ensures Evolves(s.store, Step(s, e).state.store)
  {
    match e
    case CreatePayment(_, _, _, _, _) => CreateStep(s, triples, e);
    case ReconcileWebhook(c, f) => WebhookStep(s, triples, c, f);
    case _ =>
  }

  // ---------- whole runs ----------

  predicate EmptyStore(b: Backend) { b == EMPTY_MEMORY || b == EMPTY_SQLITE }

  lemma {:induction false} RunKeepsInv(s: State, es: seq<Event>)
    requires Inv(s, {}) && Legal(s, es)
    ensures Inv(Run(s, es), Triples(s, es))
  {
    if es != [] {
      RunKeepsInv(s, es[..|es| - 1]);
      StepKeepsInv(Run(s, es[..|es| - 1]), Triples(s, es[..|es| - 1]), es[|es| - 1]);
    }
  }

  /** From a new service on, whatever happens, in either store. */
  lemma NewServiceInv(c: Catalogues.Catalogue, b: Backend)
    requires EmptyStore(b)
    ensures Inv(NewState(c, b), {})
  {
  }

  lemma {:induction false} RunEvolves(s: State, triples: set<Triple>, es: seq<Event>)
    requires Inv(s, triples) && Legal(s, es)
    ensures Evolves(s.store, Run(s, es).store)
    ensures exists later :: Inv(Run(s, es), later)
  {
    if es != [] {
      var front := Run(s, es[..|es| - 1]);
      RunEvolves(s, triples, es[..|es| - 1]);
      var mid :| Inv(front, mid);
      StepKeepsInv(front, mid, es[|es| - 1]);
      EvolvesTransitive(s.store, front.store, Run(s, es).store);
    }
  }

  // ---------- no false idempotency hit ----------

  /** In every reachable state, a webhook that names a known order and its provider finds its string
      recorded exactly when its own triple was recorded: no other order, provider or key makes it a hit. */
  lemma {:induction false} NoFalseHit(s: State, es: seq<Event>, c: Call)
    requires Inv(s, {}) && Legal(s, es)
    requires Known(Run(s, es).store, c.reference) && OrderOf(Run(s, es).store, c.reference).provider == c.provider
    ensures IdempotencyKey(c.reference, c.provider, c.key) in Run(s, es).service.idempotent
       <==> (c.reference, c.provider, c.key) in Triples(s, es)
  {
    RunKeepsInv(s, es);
    var end, triples := Run(s, es), Triples(s, es);
    if IdempotencyKey(c.reference, c.provider, c.key) in end.service.idempotent {
      var t :| t in triples && KeyOf(t) == IdempotencyKey(c.reference, c.provider, c.key);
      assert Settled(end.store, t);
      KeyGivesReference(t.0, t.1, t.2, c.reference, c.provider, c.key);
      KeyGivesTriple(t.0, t.1, t.2, c.reference, c.key);
    }
    assert KeyOf((c.reference, c.provider, c.key)) == IdempotencyKey(c.reference, c.provider, c.key);
  }
}
