/** Amounts of orders and ledgers over whole runs: they agree, add up, and never change
    (internal/orchestration/orchestrator.go:177-250, 317-332). */
module Settlement {
  import opened Prelude
  import opened Domain
  import opened FeeLaws
  import opened Catalogues
  import opened Observability
  import opened Payments
  import opened Invariants
  import opened Refinement
  import opened Pricing
  import T = Tables

  // ---------- what a quote settles ----------

  predicate Balanced(gross: int, hostFee: int, providerFee: int, net: int) {
    hostFee >= 0 && providerFee >= 0 && net >= 0 && gross == hostFee + providerFee + net
  }

  lemma QuoteBalanced(c: Catalogue, input: CreateInput, f: QuoteFaults)
    requires MakeQuote(c, input, f).Quoted?
    ensures var q := MakeQuote(c, input, f);
            && Balanced(q.product.price, q.hostFee, q.providerFee, q.net)
            && SoldUnder(c, q.host.id, q.product, f.policy.Some?, q.policy) && ValidPolicy(q.policy)
            && CalculateHostFee(q.policy, q.product.price) == Ok(q.hostFee)
            && q.providerFee == ProviderFee(q.product.price)
  {
    var q := MakeQuote(c, input, f);
    SoldUnderEffective(c, q.host, q.product, f.policy, q.policy);
    FeeTotal(EffectivePolicy(c, q.host, q.product, f.policy), q.product.price);
  }

  // ---------- orders and their ledgers ----------

  predicate Agree(o: Order, l: Ledger) {
    && l.orderID == o.reference
    && l.gross == o.gross && l.hostFee == o.hostFee && l.providerFee == o.providerFee && l.net == o.net
    && l.checksum.PayloadHash?
  }

  ghost predicate LedgersAgree(b: Backend) {
    && b.Memory? && b.orders.Keys == b.ledgers.Keys
    && forall r | r in b.orders :: b.orders[r].reference == r && Agree(b.orders[r], b.ledgers[r])
  }

  predicate OrderBalanced(o: Order) { Balanced(o.gross, o.hostFee, o.providerFee, o.net) }

  /** Every stored order splits its price, whatever the store. */
  ghost predicate OrdersBalance(b: Backend) { forall r | Known(b, r) :: OrderBalanced(OrderOf(b, r)) }

  ghost predicate LedgersKept(b: Backend, b': Backend) {
    && b.Memory? && b'.Memory?
    && forall r | r in b.ledgers :: r in b'.ledgers && b'.ledgers[r] == b.ledgers[r]
  }

  lemma WebhookSettles(s: State, c: Call, faults: Faults)
    requires LedgersAgree(s.store)
    ensures var s' := StepWebhook(s, c, faults).state;
            LedgersAgree(s'.store) && LedgersKept(s.store, s'.store)
  {
    var plan := PlanFor(s, c, faults);
    if plan.Write? {
      assert c.reference in s.store.orders;
      assert plan.order == s.store.orders[c.reference].(status := c.status);
      assert plan.ledger == s.store.ledgers[c.reference];
    }
  }

  lemma StepSettles(s: State, e: Event)
    requires LedgersAgree(s.store) && Fresh(s, e)
    ensures LedgersAgree(Step(s, e).state.store) && LedgersKept(s.store, Step(s, e).state.store)
  {
    if e.ReconcileWebhook? { WebhookSettles(s, e.call, e.faults); }
  }

  lemma {:induction false} RunSettles(s: State, es: seq<Event>)
    requires LedgersAgree(s.store) && Legal(s, es)
    ensures LedgersAgree(Run(s, es).store) && LedgersKept(s.store, Run(s, es).store)
  {
    if es != [] {
      RunSettles(s, es[..|es| - 1]);
      StepSettles(Run(s, es[..|es| - 1]), es[|es| - 1]);
    }
  }

  // ---------- amounts ----------

  lemma SaveBalances(b: Backend, order: Order, ledger: Ledger)
    requires WellFormed(b) && OrdersBalance(b) && order.id == order.reference && OrderBalanced(order)
    ensures OrdersBalance(Save(b, order, ledger))
  {
    var after := Save(b, order, ledger);
    forall r | Known(after, r) ensures OrderBalanced(OrderOf(after, r)) {
      SaveThenGet(b, order, ledger, r);
      assert r != order.reference ==> Known(b, r);
    }
  }

  lemma CarryBalances(s: State, plan: Plan, save: SaveOutcome)
    requires WellFormed(s.store) && OrdersBalance(s.store)
    requires plan.Write? ==> plan.order.id == plan.order.reference && OrderBalanced(plan.order)
    ensures OrdersBalance(Carry(s, plan, save).state.store)
  {
    if plan.Write? { SaveBalances(s.store, plan.order, plan.ledger); }
  }

  lemma CreateBalances(s: State, e: Event)
    requires WellFormed(s.store) && OrdersBalance(s.store) && e.CreatePayment? && PricedNow(s, e)
    ensures OrdersBalance(Step(s, e).state.store)
  {
    var f :| PricedWith(s, e, f);
    if e.quote.Quoted? { QuoteBalanced(s.catalogue, e.input, QuoteFaultsOf(s.store, f)); }
    CarryBalances(s, CreatePlan(s.service, e.quote, e.input, e.reference, e.invoice), SaveIn(s.store, e.save));
  }

  lemma WebhookBalances(s: State, triples: set<Triple>, c: Call, faults: Faults)
    requires Inv(s, triples) && OrdersBalance(s.store)
    ensures OrdersBalance(StepWebhook(s, c, faults).state.store)
  {
    WebhookPlanSound(s, triples, c, faults);
    CarryBalances(s, PlanFor(s, c, faults), SaveIn(s.store, faults.save));
  }

  /** In either store and under any faults, the amounts of every stored order are not negative and add up. */
  lemma {:induction false} OrdersAddUp(c: Catalogue, b: Backend, es: seq<Event>)
    requires EmptyStore(b) && Legal(NewState(c, b), es) && Priced(NewState(c, b), es)
    ensures OrdersBalance(Run(NewState(c, b), es).store)
  {
    if es != [] {
      var s, front := NewState(c, b), es[..|es| - 1];
      OrdersAddUp(c, b, front);
      NewServiceInv(c, b);
      RunKeepsInv(s, front);
      StepBalances(Run(s, front), Triples(s, front), es[|es| - 1]);
    }
  }

  lemma StepBalances(s: State, triples: set<Triple>, e: Event)
    requires Inv(s, triples) && OrdersBalance(s.store) && PricedNow(s, e)
    ensures OrdersBalance(Step(s, e).state.store)
  {
    if e.CreatePayment? {
      CreateBalances(s, e);
    } else if e.ReconcileWebhook? {
      WebhookBalances(s, triples, e.call, e.faults);
    }
  }

  /** In every reachable in-memory state, orders and ledgers have the same references, agree on all four
      amounts, and the amounts are not negative and add up. */
  lemma {:induction false} LedgersMirrorOrders(c: Catalogue, es: seq<Event>)
    requires Legal(NewState(c, EMPTY_MEMORY), es) && Priced(NewState(c, EMPTY_MEMORY), es)
    ensures LedgersAgree(Run(NewState(c, EMPTY_MEMORY), es).store)
    ensures OrdersBalance(Run(NewState(c, EMPTY_MEMORY), es).store)
  {
    RunSettles(NewState(c, EMPTY_MEMORY), es);
    OrdersAddUp(c, EMPTY_MEMORY, es);
  }

  /** Nothing that happens later alters a ledger, or an order field other than the status. */
  lemma {:induction false} SnapshotsAreImmutable(c: Catalogue, es: seq<Event>, later: seq<Event>, r: string)
    requires Legal(NewState(c, EMPTY_MEMORY), es + later)
    requires Known(Run(NewState(c, EMPTY_MEMORY), es).store, r)
    ensures SnapshotKept(Run(NewState(c, EMPTY_MEMORY), es).store, Run(NewState(c, EMPTY_MEMORY), es + later).store, r)
  {
    var s := NewState(c, EMPTY_MEMORY);
    RunConcat(s, es, later);
    NewServiceInv(c, EMPTY_MEMORY);
    RunKeepsInv(s, es);
    RunEvolves(Run(s, es), Triples(s, es), later);
    RunSettles(s, es);
    RunSettles(Run(s, es), later);
  }

  /** The order keeps every field but the status, and its ledger, which agrees with it, stays whole. */
  predicate SnapshotKept(before: Backend, after: Backend, r: string)
    requires Known(before, r)
  {
    && GetLedger(before, r).Ok? && GetLedger(after, r) == GetLedger(before, r)
    && Known(after, r) && OrderOf(after, r) == OrderOf(before, r).(status := OrderOf(after, r).status)
    && Agree(OrderOf(after, r), GetLedger(after, r).value)
  }

  // ---------- over SQLite ----------

  /** The one fault that can hurt a ledger does not happen; saves and all other reads may fail. */
  predicate LedgerReadsSucceed(e: Event) { e.ReconcileWebhook? ==> e.faults.ledger.None? }

  /** The tables hold what two maps would, with orders and ledgers that agree. */
  ghost predicate Shadows(m: Backend, b: Backend) { b.Sqlite? && Represents(b.tables, m) && LedgersAgree(m) }

  predicate Applied(save: SaveOutcome) { save.SaveOk? || save.applied }

  /** The maps follow every save that was applied, whatever it reported. */
  lemma CarryShadowed(s: State, m: Backend, plan: Plan, save: SaveOutcome) returns (m': Backend)
    requires Shadows(m, s.store)
    requires plan.Write? ==> SaveShadowed(s.store.tables, m, plan.order, plan.ledger)
    ensures Shadows(m', Carry(s, plan, save).state.store) && LedgersKept(m, m')
    ensures m' == if plan.Write? && Applied(save) then Save(m, plan.order, plan.ledger) else m
  {
    m' := if plan.Write? && Applied(save) then Save(m, plan.order, plan.ledger) else m;
  }

  ghost predicate SaveShadowed(t: T.Tables, m: Backend, order: Order, ledger: Ledger) {
    && Represents(T.SaveOrder(t, order, ledger), Save(m, order, ledger))
    && LedgersAgree(Save(m, order, ledger)) && LedgersKept(m, Save(m, order, ledger))
  }

  lemma NewEntryAgrees(m: Backend, order: Order, ledger: Ledger)
    requires LedgersAgree(m) && Agree(order, ledger) && order.reference !in m.orders
    ensures LedgersAgree(Save(m, order, ledger)) && LedgersKept(m, Save(m, order, ledger))
  {
  }

  lemma NewOrderShadowed(t: T.Tables, m: Backend, order: Order, ledger: Ledger)
    requires Represents(t, m) && LedgersAgree(m) && GetOrder(Sqlite(t), order.reference).Err?
    requires order.id == order.reference && WellFormedReference(order.reference) && Agree(order, ledger)
    requires ledger.key == LedgerKey(order.snapshotID, order.reference)
    ensures SaveShadowed(t, m, order, ledger)
  {
    ReadsAgree(t, m, order.reference);
    NewEntryAgrees(m, order, ledger);
    SaveNew(t, m, order, ledger);
  }

  lemma NewStatusAgrees(m: Backend, order: Order)
    requires LedgersAgree(m) && order.reference in m.orders
    requires order == m.orders[order.reference].(status := order.status)
    ensures var m' := Save(m, order, m.ledgers[order.reference]);
            LedgersAgree(m') && m'.ledgers == m.ledgers
  {
  }

  lemma SettledOrderShadowed(t: T.Tables, m: Backend, order: Order)
    requires Represents(t, m) && LedgersAgree(m) && order.reference in m.orders
    requires order == m.orders[order.reference].(status := order.status)
    ensures SaveShadowed(t, m, order, m.ledgers[order.reference])
    ensures Save(m, order, m.ledgers[order.reference]).ledgers == m.ledgers
  {
    NewStatusAgrees(m, order);
    SaveAgain(t, m, order);
  }

  lemma CreateShadowed(s: State, m: Backend, e: Event) returns (m': Backend)
    requires Shadows(m, s.store) && e.CreatePayment? && Fresh(s, e)
    ensures Shadows(m', Step(s, e).state.store) && LedgersKept(m, m')
  {
    var plan := CreatePlan(s.service, e.quote, e.input, e.reference, e.invoice);
    if plan.Write? { NewOrderShadowed(s.store.tables, m, plan.order, plan.ledger); }
    m' := CarryShadowed(s, m, plan, e.save);
  }

  /** What a webhook writes that reads a ledger: the stored order with its status, and the ledger read. */
  lemma TrueReadPlans(s: State, c: Call, faults: Faults)
    requires faults.ledger.None? && GetLedger(s.store, c.reference).Ok? && PlanFor(s, c, faults).Write?
    ensures GetOrder(s.store, c.reference).Ok?
    ensures PlanFor(s, c, faults).order == GetOrder(s.store, c.reference).value.(status := c.status)
    ensures PlanFor(s, c, faults).ledger == GetLedger(s.store, c.reference).value
  {
  }

  lemma WriteMeansKnown(s: State, c: Call, faults: Faults)
    requires PlanFor(s, c, faults).Write?
    ensures GetOrder(s.store, c.reference).Ok?
  {
  }

  lemma TrueReadWrites(s: State, m: Backend, c: Call, faults: Faults, plan: Plan)
    requires Shadows(m, s.store) && faults.ledger.None? && plan == PlanFor(s, c, faults) && plan.Write?
    ensures plan.order.reference in m.orders
    ensures plan.order == m.orders[plan.order.reference].(status := plan.order.status)
    ensures plan.ledger == m.ledgers[plan.order.reference]
  {
    WriteMeansKnown(s, c, faults);
    ReadsAgree(s.store.tables, m, c.reference);
    TrueReadPlans(s, c, faults);
  }

  lemma TrueReadShadowed(s: State, m: Backend, c: Call, faults: Faults, plan: Plan)
    requires Shadows(m, s.store) && faults.ledger.None? && plan == PlanFor(s, c, faults) && plan.Write?
    ensures SaveShadowed(s.store.tables, m, plan.order, plan.ledger)
    ensures Save(m, plan.order, plan.ledger).ledgers == m.ledgers
  {
    TrueReadWrites(s, m, c, faults, plan);
    SettledOrderShadowed(s.store.tables, m, plan.order);
  }

  lemma WebhookShadowed(s: State, m: Backend, c: Call, faults: Faults) returns (m': Backend)
    requires Shadows(m, s.store) && faults.ledger.None?
    ensures Shadows(m', StepWebhook(s, c, faults).state.store) && m'.Memory? && m'.ledgers == m.ledgers
  {
    var plan := PlanFor(s, c, faults);
    if plan.Write? { TrueReadShadowed(s, m, c, faults, plan); }
    m' := CarryShadowed(s, m, plan, faults.save);
  }

  lemma {:induction false} RunShadowed(s: State, m: Backend, es: seq<Event>) returns (m': Backend)
    requires Shadows(m, s.store) && Legal(s, es) && forall e | e in es :: LedgerReadsSucceed(e)
    ensures Shadows(m', Run(s, es).store) && LedgersKept(m, m')
  {
    m' := m;
    if es != [] {
      var front, e := Run(s, es[..|es| - 1]), es[|es| - 1];
      m' := RunShadowed(s, m, es[..|es| - 1]);
      assert e in es;
      if e.CreatePayment? {
        m' := CreateShadowed(front, m', e);
      } else if e.ReconcileWebhook? {
        m' := WebhookShadowed(front, m', e.call, e.faults);
      }
    }
  }

  lemma ReachableShadowed(c: Catalogue, es: seq<Event>) returns (m: Backend)
    requires Legal(NewState(c, EMPTY_SQLITE), es) && forall e | e in es :: LedgerReadsSucceed(e)
    ensures Shadows(m, Run(NewState(c, EMPTY_SQLITE), es).store)
  {
    assert Shadows(EMPTY_MEMORY, EMPTY_SQLITE);
    m := RunShadowed(NewState(c, EMPTY_SQLITE), EMPTY_MEMORY, es);
  }

  /** In every state SQLite reaches without a failed ledger read, exactly the stored orders have a ledger, and it
      agrees with its order on all four amounts. */
  lemma {:induction false} SqliteLedgersMirrorOrders(c: Catalogue, es: seq<Event>, r: string)
    requires Legal(NewState(c, EMPTY_SQLITE), es) && forall e | e in es :: LedgerReadsSucceed(e)
    ensures var b := Run(NewState(c, EMPTY_SQLITE), es).store;
            && (GetLedger(b, r).Ok? <==> Known(b, r))
            && (Known(b, r) ==> Agree(OrderOf(b, r), GetLedger(b, r).value))
  {
    var m := ReachableShadowed(c, es);
    ReadsAgree(Run(NewState(c, EMPTY_SQLITE), es).store.tables, m, r);
  }

  /** The same over SQLite while no webhook fails to read its ledger, whatever other reads and saves fail, applied
      or not. */
  lemma {:induction false} SqliteSnapshotsAreImmutable(c: Catalogue, es: seq<Event>, later: seq<Event>, r: string)
    requires Legal(NewState(c, EMPTY_SQLITE), es + later)
    requires forall e | e in es + later :: LedgerReadsSucceed(e)
    requires Known(Run(NewState(c, EMPTY_SQLITE), es).store, r)
    ensures SnapshotKept(Run(NewState(c, EMPTY_SQLITE), es).store, Run(NewState(c, EMPTY_SQLITE), es + later).store, r)
  {
    var s := NewState(c, EMPTY_SQLITE);
    RunConcat(s, es, later);
    NewServiceInv(c, EMPTY_SQLITE);
    RunKeepsInv(s, es);
    RunEvolves(Run(s, es), Triples(s, es), later);
    var m := ReachableShadowed(c, es);
    var m' := RunShadowed(Run(s, es), m, later);
    ReadsAgree(Run(s, es).store.tables, m, r);
    ReadsAgree(Run(Run(s, es), later).store.tables, m', r);
  }
}
