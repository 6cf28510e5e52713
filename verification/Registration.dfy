/** A catalogue filled through registration alone never makes a payment fail on an invalid entry
    (internal/orchestration/orchestrator.go:135-181, 416-472). */
module Registration {
  import opened Prelude
  import opened Domain
  import opened FeeLaws
  import opened Catalogues
  import opened Observability
  import opened Payments
  import opened Accounts
  import opened Invariants
  import opened Refinement
  import opened Settlement
  import D = Databases
  import T = Tables

  lemma DefaultsKeepValid(p: FeePolicy)
    requires ValidPolicy(p)
    ensures ValidPolicy(FillDefaults(p))
  {
  }

  lemma EffectivePolicyValid(c: Catalogue, host: Host, product: Product, fault: Option<string>)
    requires ValidCatalogue(c) && ProductError(product).None?
    ensures ValidPolicy(EffectivePolicy(c, host, product, fault))
  {
    DefaultPolicyValid();
    var rules := Read(fault, FindHostPolicy(c, host.id));
    DefaultsKeepValid(if product.feeOverride.Some? then product.feeOverride.value
                      else if rules.Ok? then rules.value else DEFAULT_POLICY);
  }

  lemma DefaultPolicyValid()
    ensures ValidPolicy(DEFAULT_POLICY)
  {
  }

  predicate IsValidityCause(cause: CreateCause) {
    cause == HostInvalid || cause == ProductInvalid || cause == CreateCause.Fee
  }

  /** Over a valid catalogue, a quote is never refused for an invalid host, product or fee policy. */
  lemma QuoteNeverInvalid(c: Catalogue, input: CreateInput, f: QuoteFaults)
    requires ValidCatalogue(c)
    ensures MakeQuote(c, input, f).Refused? ==> !IsValidityCause(MakeQuote(c, input, f).cause)
  {
    var host, product := FindHost(c, input.hostID), FindProduct(c, input.productID);
    if host.Ok? && product.Ok? {
      EffectivePolicyValid(c, host.value, product.value, f.policy);
      FeeTotal(EffectivePolicy(c, host.value, product.value, f.policy), product.value.price);
    }
  }

  /** Only registrations and deletions shape the catalogue, in the registry or in the SQLite tables. */
  ghost predicate Administered(c: Catalogue) {
    || (exists ops :: c == AdministerAll(EMPTY_CATALOGUE, ops))
    || (exists ops :: c == D.CatalogueOf(D.ApplyAll(D.EMPTY_DATABASE, ops)))
  }

  ghost predicate OnlyAdministered(es: seq<Event>) {
    forall e | e in es && e.Configure? :: Administered(e.catalogue)
  }

  lemma AdministeredValid(c: Catalogue)
    requires Administered(c)
    ensures ValidCatalogue(c)
  {
    if ops :| c == AdministerAll(EMPTY_CATALOGUE, ops) {
      CatalogueStaysValid(ops);
    } else {
      var ops :| c == D.CatalogueOf(D.ApplyAll(D.EMPTY_DATABASE, ops));
      D.StoreStaysSound(ops);
    }
  }

  predicate SameCount(a: Service, b: Service, cause: CreateCause) {
    Count(a.metrics, CreateError(cause)) == Count(b.metrics, CreateError(cause))
  }

  lemma CreateKeepsCount(sv: Service, q: Quote, input: CreateInput, reference: string, invoice: Result<Invoice>,
                         cause: CreateCause)
    requires IsValidityCause(cause) && (q.Refused? ==> !IsValidityCause(q.cause))
    ensures var plan := CreatePlan(sv, q, input, reference, invoice);
            && (plan.Answer? ==> SameCount(sv, plan.service, cause))
            && (plan.Write? ==> SameCount(sv, plan.onOk, cause) && SameCount(sv, plan.onError, cause))
  {
  }

  lemma AnswerKeepsCount(sv: Service, persistent: bool, order: Result<Order>, ledger: Result<Ledger>, c: Call,
                         cause: CreateCause)
    requires WebhookPlan(sv, persistent, order, ledger, c).Answer?
    ensures SameCount(sv, WebhookPlan(sv, persistent, order, ledger, c).service, cause)
  {
  }

  lemma WriteKeepsCount(sv: Service, persistent: bool, order: Result<Order>, ledger: Result<Ledger>, c: Call,
                        cause: CreateCause)
    requires WebhookPlan(sv, persistent, order, ledger, c).Write?
    ensures SameCount(sv, WebhookPlan(sv, persistent, order, ledger, c).onOk, cause)
    ensures SameCount(sv, WebhookPlan(sv, persistent, order, ledger, c).onError, cause)
  {
  }

  lemma {:induction false} StepKeepsCount(s: State, e: Event, cause: CreateCause)
    requires ValidCatalogue(s.catalogue) && PricedNow(s, e) && IsValidityCause(cause)
    ensures SameCount(s.service, Step(s, e).state.service, cause)
  {
    match e
    case CreatePayment(q, input, reference, invoice, save) =>
      var f :| PricedWith(s, e, f);
      QuoteNeverInvalid(s.catalogue, input, QuoteFaultsOf(s.store, f));
      CreateKeepsCount(s.service, q, input, reference, invoice, cause);
    case ReconcileWebhook(c, faults) =>
      var f := FaultsOf(s.store, faults);
      var order := Read(f.order, GetOrder(s.store, c.reference));
      var ledger := Read(f.ledger, GetLedger(s.store, c.reference));
      if PlanFor(s, c, faults).Answer? {
        AnswerKeepsCount(s.service, s.store.Sqlite?, order, ledger, c, cause);
      } else {
        WriteKeepsCount(s.service, s.store.Sqlite?, order, ledger, c, cause);
      }
    case _ =>
  }

  /** In every run whose catalogues come from registrations and deletions only, the three error branches for
      invalid entries are never taken, in either store and under any faults. */
  lemma {:induction false} InvalidBranchesNeverTaken(c: Catalogue, b: Backend, es: seq<Event>, cause: CreateCause)
    requires Administered(c) && OnlyAdministered(es) && Priced(NewState(c, b), es) && IsValidityCause(cause)
    ensures Administered(Run(NewState(c, b), es).catalogue)
    ensures Count(Run(NewState(c, b), es).service.metrics, CreateError(cause)) == 0
  {
    if es != [] {
      var front, e := Run(NewState(c, b), es[..|es| - 1]), es[|es| - 1];
      InvalidBranchesNeverTaken(c, b, es[..|es| - 1], cause);
      AdministeredValid(front.catalogue);
      StepKeepsCount(front, e, cause);
      StepCatalogue(front, e);
    }
  }

  lemma StepCatalogue(s: State, e: Event)
    ensures Step(s, e).state.catalogue == if e.Configure? then e.catalogue else s.catalogue
  {
  }

  // ---------- what a created order says ----------

  /** A quote over a valid catalogue speaks of the host and product asked for, and of one of the host's accounts. */
  lemma QuoteFromCatalogue(c: Catalogue, input: CreateInput, f: QuoteFaults)
    requires ValidCatalogue(c) && MakeQuote(c, input, f).Quoted?
    ensures input.hostID in c.hosts && input.productID in c.products
    ensures var q, product := MakeQuote(c, input, f), c.products[input.productID];
            && q.host.id == input.hostID && q.product == product
            && product.isActive && product.hostID == input.hostID
            && (exists a | a in AccountsOf(c, input.hostID) :: a.provider == q.provider)
  {
  }

  /** A created order is the input's host, product and buyer, at the product's price, through a provider of the
      host's; in either store, it is stored under its reference, and its creation is audited. */
  lemma CreatedOrderStored(s: State, e: Event)
    requires ValidCatalogue(s.catalogue) && WellFormed(s.store)
    requires e.CreatePayment? && PricedNow(s, e) && Step(s, e).reply.Created?
    ensures e.input.productID in s.catalogue.products && e.invoice.Ok?
    ensures var o, s', product := Step(s, e).reply.order, Step(s, e).state, s.catalogue.products[e.input.productID];
            && o.reference == e.reference && o.hostID == e.input.hostID && o.productID == e.input.productID
            && o.buyerRef == e.input.buyerRef && o.gross == product.price && product.hostID == o.hostID
            && (exists a | a in AccountsOf(s.catalogue, o.hostID) :: a.provider == o.provider)
            && (e.invoice.value.providerStatus == "" ==> o.status == CREATED)
            && GetOrder(s'.store, e.reference) == Ok(o)
            && s'.service.audit == s.service.audit + [PaymentCreated(e.reference, o.hostID, o.provider)]
  {
    var f :| PricedWith(s, e, f);
    QuoteFromCatalogue(s.catalogue, e.input, QuoteFaultsOf(s.store, f));
    CreationStored(s, e, e.quote);
  }

  /** What any quote that was accepted comes to. */
  lemma CreationStored(s: State, e: Event, q: Quote)
    requires WellFormed(s.store) && e.CreatePayment? && e.quote == q && Step(s, e).reply.Created?
    ensures q.Quoted? && e.invoice.Ok?
    ensures var o, s' := OrderFor(q, e.input, e.reference, e.invoice.value), Step(s, e).state;
            && Step(s, e).reply == Created(o) && GetOrder(s'.store, e.reference) == Ok(o)
            && s'.store == Save(s.store, o, LedgerFor(q, e.reference))
            && s'.service.audit == s.service.audit + [PaymentCreated(e.reference, q.host.id, q.provider)]
  {
    var o := OrderFor(q, e.input, e.reference, e.invoice.value);
    SaveThenGet(s.store, o, LedgerFor(q, e.reference), e.reference);
  }

  /** Its ledger is stored with it: always in memory, and over SQLite while no webhook has failed to read its own. */
  lemma {:induction false} CreatedLedgerStored(c: Catalogue, b: Backend, es: seq<Event>, s: State, e: Event)
    requires EmptyStore(b) && Legal(NewState(c, b), es) && s == Run(NewState(c, b), es)
    requires b.Sqlite? ==> forall e | e in es :: LedgerReadsSucceed(e)
    requires e.CreatePayment? && Fresh(s, e) && Step(s, e).reply.Created?
    ensures e.quote.Quoted?
    ensures var o := Step(s, e).reply.order;
            GetLedger(Step(s, e).state.store, e.reference)
            == Ok(Ledger(e.reference, o.gross, o.hostFee, o.providerFee, o.net, PayloadHash(e.quote.policy),
                         "policy:" + o.snapshotID + "|" + e.reference))
  {
    NewServiceInv(c, b);
    RunKeepsInv(NewState(c, b), es);
    CreationStored(s, e, e.quote);
    if b.Sqlite? {
      var m := ReachableShadowed(c, es);
      SavedLedger(s.store.tables, m, Step(s, e).reply.order, LedgerFor(e.quote, e.reference));
    } else {
      RunSettles(NewState(c, b), es);
    }
  }

  lemma SavedLedger(t: T.Tables, m: Backend, order: Order, ledger: Ledger)
    requires Represents(t, m) && GetOrder(Sqlite(t), order.reference).Err? && WellFormedReference(order.reference)
    requires order.id == order.reference == ledger.orderID
    requires ledger.key == LedgerKey(order.snapshotID, order.reference)
    ensures T.GetLedger(T.SaveOrder(t, order, ledger), order.reference) == Ok(ledger)
  {
    ReadsAgree(t, m, order.reference);
    SaveNew(t, m, order, ledger);
    ReadsAgree(T.SaveOrder(t, order, ledger), Save(m, order, ledger), order.reference);
  }

  // ---------- a policy that cannot be read ----------

  /** When the read of a host's policy fails, a product without its own policy is sold under the default one, free of
      the host's fee. */
  lemma UnreadPolicyIsFree(c: Catalogue, input: CreateInput, f: QuoteFaults)
    requires MakeQuote(c, input, f).Quoted? && MakeQuote(c, input, f).product.feeOverride.None? && f.policy.Some?
    ensures MakeQuote(c, input, f).hostFee == 0
    ensures MakeQuote(c, input, f).net
         == MakeQuote(c, input, f).product.price - MakeQuote(c, input, f).providerFee
  {
  }
}
