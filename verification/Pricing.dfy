/** What a payment is sold for and under which policy, said from the entries of the catalogue
    (internal/orchestration/orchestrator.go:125-255). */
module Pricing {
  import opened Prelude
  import opened Domain
  import opened Accounts
  import opened Catalogues
  import opened Observability
  import opened Payments
  import opened Effects

  // ---------- the policy ----------

  /** A policy with its empty texts filled in. */
  predicate FilledFrom(q: FeePolicy, raw: FeePolicy) {
    q == FeePolicy(raw.kind, raw.value, if raw.currency == "" then "IDR" else raw.currency,
                   if raw.rounding == "" then "nearest" else raw.rounding, raw.minFee, raw.maxFee,
                   if raw.version == "" then "v1" else raw.version)
  }

  const FREE_OF_CHARGE := FeePolicy("free", 0.0, "IDR", "nearest", None, None, "")

  /** The product's own policy; else the host's, if it has one that can be read; else a free one. */
  predicate SoldUnder(c: Catalogue, hostID: string, product: Product, unread: bool, q: FeePolicy) {
    && (product.feeOverride.Some? ==> FilledFrom(q, product.feeOverride.value))
    && (product.feeOverride.None? && !unread && hostID in c.policies ==> FilledFrom(q, c.policies[hostID]))
    && (product.feeOverride.None? && (unread || hostID !in c.policies) ==> FilledFrom(q, FREE_OF_CHARGE))
  }

  lemma SoldUnderEffective(c: Catalogue, host: Host, product: Product, fault: Option<string>, q: FeePolicy)
    ensures SoldUnder(c, host.id, product, fault.Some?, q) <==> q == EffectivePolicy(c, host, product, fault)
  {
  }

  // ---------- a payment that is accepted ----------

  /** Everything about the order and its ledger, from the entries the input names. */
  predicate Sold(c: Catalogue, input: CreateInput, unread: bool, reference: string, invoice: Invoice, q: FeePolicy,
                 o: Order, l: Ledger) {
    && input.hostID in c.hosts && input.productID in c.products
    && var h, p := c.hosts[input.hostID], c.products[input.productID];
    var env := if input.env == "" then "sandbox" else input.env;
    && SoldUnder(c, h.id, p, unread, q)
    && CalculateHostFee(q, p.price) == Ok(o.hostFee) && o.providerFee == ProviderFee(p.price)
    && Preferred(AccountsOf(c, h.id), env, o.provider)
    && o == Order(reference, reference, h.id, p.id, o.provider, q.currency, env,
                  if invoice.providerStatus == "" then "created" else invoice.providerStatus,
                  p.price, o.hostFee, o.providerFee, p.price - o.hostFee - o.providerFee,
                  input.buyerRef, "policy-" + q.version, invoice.providerReference, invoice.checkoutURL)
    && l == Ledger(reference, p.price, o.hostFee, o.providerFee, o.net, PayloadHash(q),
                   "policy:" + o.snapshotID + "|" + reference)
  }

  predicate Affordable(q: FeePolicy, price: int) {
    CalculateHostFee(q, price).Ok? && CalculateHostFee(q, price).value + ProviderFee(price) <= price
  }

  /** The input names a valid host and an active, valid product of that host which covers its fees, the host has an
      account, and no read that matters fails. */
  ghost predicate Acceptable(c: Catalogue, input: CreateInput, g: QuoteFaults) {
    && input.hostID != "" && input.productID != ""
    && g.host.None? && g.product.None? && g.accounts.None?
    && input.hostID in c.hosts && input.productID in c.products
    && var h, p := c.hosts[input.hostID], c.products[input.productID];
    && HostError(h).None? && ProductError(p).None? && p.isActive && p.hostID == h.id
    && AccountsOf(c, h.id) != []
    && exists q :: SoldUnder(c, h.id, p, g.policy.Some?, q) && Affordable(q, p.price)
  }

  lemma QuotedIff(c: Catalogue, input: CreateInput, g: QuoteFaults)
    ensures MakeQuote(c, input, g).Quoted? <==> Acceptable(c, input, g)
  {
    if input.hostID in c.hosts && input.productID in c.products {
      var h, p := c.hosts[input.hostID], c.products[input.productID];
      var q := EffectivePolicy(c, h, p, g.policy);
      SoldUnderEffective(c, h, p, g.policy, q);
      forall r | SoldUnder(c, h.id, p, g.policy.Some?, r) ensures r == q { SoldUnderEffective(c, h, p, g.policy, r); }
      SelectionPrefers(AccountsOf(c, h.id), if input.env == "" then SANDBOX else input.env);
    }
  }

  /** A payment is accepted exactly when its input is acceptable, the gateway answers, and the save succeeds. */
  lemma CreatedIff(s: State, e: Event, f: QuoteFaults)
    requires e.CreatePayment? && PricedWith(s, e, f)
    ensures Step(s, e).reply.Created?
       <==> && Acceptable(s.catalogue, e.input, QuoteFaultsOf(s.store, f))
            && e.invoice.Ok? && SaveIn(s.store, e.save).SaveOk?
  {
    QuotedIff(s.catalogue, e.input, QuoteFaultsOf(s.store, f));
  }

  lemma QuotedIsSold(c: Catalogue, input: CreateInput, g: QuoteFaults, reference: string, invoice: Invoice)
    requires MakeQuote(c, input, g).Quoted?
    ensures var quote := MakeQuote(c, input, g);
            Sold(c, input, g.policy.Some?, reference, invoice, quote.policy,
                 OrderFor(quote, input, reference, invoice), LedgerFor(quote, reference))
  {
    var h, p := c.hosts[input.hostID], c.products[input.productID];
    SoldUnderEffective(c, h, p, g.policy, MakeQuote(c, input, g).policy);
    SelectionPrefers(AccountsOf(c, h.id), if input.env == "" then SANDBOX else input.env);
  }

  /** A created order is sold under the policy the catalogue holds for it, the order and its ledger say so, both are
      saved, and the creation is counted and audited. */
  lemma CreatedIsSold(s: State, e: Event, f: QuoteFaults) returns (q: FeePolicy, l: Ledger)
    requires e.CreatePayment? && PricedWith(s, e, f) && Step(s, e).reply.Created?
    ensures e.invoice.Ok?
    ensures var o, s', unread := Step(s, e).reply.order, Step(s, e).state, s.store.Sqlite? && f.policy.Some?;
            && Sold(s.catalogue, e.input, unread, e.reference, e.invoice.value, q, o, l)
            && s' == State(s.catalogue, s'.service, Save(s.store, o, l))
            && s'.service.audit == s.service.audit + [PaymentCreated(e.reference, o.hostID, o.provider)]
            && s'.service.idempotent == s.service.idempotent && s'.service.deadLetters == s.service.deadLetters
            && CountsOnce(s.service, s'.service, {Create})
  {
    QuotedIsSold(s.catalogue, e.input, QuoteFaultsOf(s.store, f), e.reference, e.invoice.value);
    q, l := e.quote.policy, LedgerFor(e.quote, e.reference);
  }

  // ---------- a payment that is refused ----------

  /** The caller is told the text, and the call and its cause are counted; nothing else happens. */
  ghost predicate RefusedWith(s: State, e: Event, cause: CreateCause, text: string) {
    && Step(s, e).reply == Error(text)
    && OnlyCounts(s, Step(s, e).state, {Create, CreateError(cause)})
  }

  lemma RefusalCounts(s: State, e: Event)
    requires e.CreatePayment? && e.quote.Refused?
    ensures RefusedWith(s, e, e.quote.cause, e.quote.error)
  {
  }

  /** The checks of the host, in order. */
  lemma HostRefused(s: State, e: Event, f: QuoteFaults)
    requires e.CreatePayment? && PricedWith(s, e, f)
    ensures var id, hosts, fault := e.input.hostID, s.catalogue.hosts, QuoteFaultsOf(s.store, f).host;
            && (id == "" ==> RefusedWith(s, e, HostNotFound, "host id is required"))
            && (id != "" && fault.Some? ==> RefusedWith(s, e, HostNotFound, fault.value))
            && (id != "" && fault.None? && id !in hosts ==> RefusedWith(s, e, HostNotFound, "host not found"))
            && (id != "" && fault.None? && id in hosts && HostError(hosts[id]).Some? ==>
                  RefusedWith(s, e, HostInvalid, "invalid host: " + HostError(hosts[id]).value))
  {
    if e.quote.Refused? { RefusalCounts(s, e); }
  }

  ghost predicate HostFound(s: State, e: Event, f: QuoteFaults)
    requires e.CreatePayment?
  {
    && e.input.hostID != "" && QuoteFaultsOf(s.store, f).host.None? && e.input.hostID in s.catalogue.hosts
    && HostError(s.catalogue.hosts[e.input.hostID]).None?
  }

  /** The checks of the product, once the host is found. */
  lemma ProductRefused(s: State, e: Event, f: QuoteFaults)
    requires e.CreatePayment? && PricedWith(s, e, f) && HostFound(s, e, f)
    ensures var id, products, fault := e.input.productID, s.catalogue.products, QuoteFaultsOf(s.store, f).product;
            && (id == "" ==> RefusedWith(s, e, ProductNotFound, "product id is required"))
            && (id != "" && fault.Some? ==> RefusedWith(s, e, ProductNotFound, fault.value))
            && (id != "" && fault.None? && id !in products ==>
                  RefusedWith(s, e, ProductNotFound, "product not found"))
            && (id != "" && fault.None? && id in products && ProductError(products[id]).Some? ==>
                  RefusedWith(s, e, ProductInvalid, "invalid product: " + ProductError(products[id]).value))
            && (id != "" && fault.None? && id in products && ProductError(products[id]).None? ==>
                  && (!products[id].isActive ==> RefusedWith(s, e, ProductInactive, "product is inactive"))
                  && (products[id].isActive && products[id].hostID != s.catalogue.hosts[e.input.hostID].id ==>
                        RefusedWith(s, e, ProductMismatch, "product does not belong to host")))
  {
    if e.quote.Refused? { RefusalCounts(s, e); }
  }

  ghost predicate ProductFound(s: State, e: Event, f: QuoteFaults)
    requires e.CreatePayment?
  {
    && HostFound(s, e, f)
    && e.input.productID != "" && QuoteFaultsOf(s.store, f).product.None? && e.input.productID in s.catalogue.products
    && var p := s.catalogue.products[e.input.productID];
    ProductError(p).None? && p.isActive && p.hostID == s.catalogue.hosts[e.input.hostID].id
  }

  /** What may still fail once host and product are found: the fee, the settlement, the choice of a provider. */
  lemma SettlementRefused(s: State, e: Event, f: QuoteFaults, q: FeePolicy)
    requires e.CreatePayment? && PricedWith(s, e, f) && ProductFound(s, e, f)
    requires SoldUnder(s.catalogue, s.catalogue.hosts[e.input.hostID].id, s.catalogue.products[e.input.productID],
                       QuoteFaultsOf(s.store, f).policy.Some?, q)
    ensures var price, fault := s.catalogue.products[e.input.productID].price, QuoteFaultsOf(s.store, f).accounts;
            var accounts := AccountsOf(s.catalogue, s.catalogue.hosts[e.input.hostID].id);
            && (CalculateHostFee(q, price).Err? ==>
                  RefusedWith(s, e, CreateCause.Fee, CalculateHostFee(q, price).error))
            && (CalculateHostFee(q, price).Ok? && !Affordable(q, price) ==>
                  RefusedWith(s, e, CreateCause.Settlement, "policy produces invalid settlement"))
            && (Affordable(q, price) && fault.Some? ==> RefusedWith(s, e, ProviderMissing, fault.value))
            && (Affordable(q, price) && fault.None? && accounts == [] ==>
                  RefusedWith(s, e, ProviderMissing, "provider account not configured"))
  {
    var h, p := s.catalogue.hosts[e.input.hostID], s.catalogue.products[e.input.productID];
    SoldUnderEffective(s.catalogue, h, p, QuoteFaultsOf(s.store, f).policy, q);
    SelectionPrefers(AccountsOf(s.catalogue, h.id), if e.input.env == "" then SANDBOX else e.input.env);
    if e.quote.Refused? { RefusalCounts(s, e); }
  }

  /** An acceptable payment fails only at the gateway ... */
  lemma GatewayRefused(s: State, e: Event, f: QuoteFaults)
    requires e.CreatePayment? && PricedWith(s, e, f)
    requires Acceptable(s.catalogue, e.input, QuoteFaultsOf(s.store, f)) && e.invoice.Err?
    ensures RefusedWith(s, e, Gateway, e.invoice.error)
  {
    QuotedIff(s.catalogue, e.input, QuoteFaultsOf(s.store, f));
    QuotedGateway(s, e);
  }

  lemma QuotedGateway(s: State, e: Event)
    requires e.CreatePayment? && e.quote.Quoted? && e.invoice.Err?
    ensures RefusedWith(s, e, Gateway, e.invoice.error)
  {
  }

  /** ... or at the save; a failed save that was applied has stored what a successful one would have. */
  lemma StoreRefused(s: State, e: Event, f: QuoteFaults) returns (q: FeePolicy, o: Order, l: Ledger)
    requires e.CreatePayment? && PricedWith(s, e, f) && e.invoice.Ok? && SaveIn(s.store, e.save).SaveFailed?
    requires Acceptable(s.catalogue, e.input, QuoteFaultsOf(s.store, f))
    ensures Sold(s.catalogue, e.input, f.policy.Some?, e.reference, e.invoice.value, q, o, l)
    ensures Step(s, e).reply == Error(e.save.error)
    ensures Step(s, e).state.store == if e.save.applied then Save(s.store, o, l) else s.store
    ensures ServiceCounts(s.service, Step(s, e).state.service, {Create, CreateError(CreateCause.Store)})
  {
    QuotedIff(s.catalogue, e.input, QuoteFaultsOf(s.store, f));
    QuotedIsSold(s.catalogue, e.input, QuoteFaultsOf(s.store, f), e.reference, e.invoice.value);
    q, l := e.quote.policy, LedgerFor(e.quote, e.reference);
    o := OrderFor(e.quote, e.input, e.reference, e.invoice.value);
    QuotedStore(s, e);
  }

  lemma QuotedStore(s: State, e: Event)
    requires e.CreatePayment? && e.quote.Quoted? && e.invoice.Ok? && SaveIn(s.store, e.save).SaveFailed?
    ensures Step(s, e).reply == Error(e.save.error)
    ensures var o := OrderFor(e.quote, e.input, e.reference, e.invoice.value);
            Step(s, e).state.store
            == if e.save.applied then Save(s.store, o, LedgerFor(e.quote, e.reference)) else s.store
    ensures ServiceCounts(s.service, Step(s, e).state.service, {Create, CreateError(CreateCause.Store)})
  {
  }
}
