/** The service object (internal/orchestration/orchestrator.go): its methods take the steps of Payments, and
    its retry loop the moves of Agreement. */
module Orchestration {
  import opened Prelude
  import opened Domain
  import opened Accounts
  import opened Catalogues
  import opened Observability
  import opened Payments
  import opened SqliteStores
  import opened Agreement
  import D = Databases
  import T = Tables

  /** What the surroundings do to one attempt of the retry loop: cancel it before it starts, fail the store's
      answers, or cancel the sleep after it. */
  datatype Surroundings = Surroundings(cancelledBefore: Option<string>, faults: Faults, cancelledAfter: Option<string>)

  /** Writing does not look at the service it replaces. */
  lemma CarryIgnoresService(s: State, sv: Service, p: Plan, save: SaveOutcome)
    requires p.Write?
    ensures Carry(s.(service := sv), p, save) == Carry(s, p, save)
  {
  }

  class Orchestrator {
    const store: SqliteStore?
    const metrics: Collector
    const audit: AuditTrail
    const deadLetters: DeadLetterQueue
    const retryPolicy: RetryPolicy

    var hosts: map<string, Host>
    var products: map<string, Product>
    var hostPolicies: map<string, FeePolicy>
    var providerAccounts: map<string, seq<Account>>
    var orders: map<string, Order>
    var ledgers: map<string, Ledger>
    var idempotent: set<string>

    ghost function Catalogue(): Catalogue
      reads this, store
    {
      if store == null then Catalogues.Catalogue.Catalogue(hosts, products, hostPolicies, providerAccounts)
      else D.CatalogueOf(store.db)
    }

    ghost function Backend(): Backend
      reads this, store
    {
      if store == null then Memory(orders, ledgers) else Sqlite(store.db.tables)
    }

    ghost function Service(): Service
      reads this, metrics, audit, deadLetters
    {
      Payments.Service.Service(idempotent, metrics.counters, audit.events, deadLetters.items)
    }

    ghost function CurrentState(): State
      reads this, store, metrics, audit, deadLetters
    {
      State(Catalogue(), Service(), Backend())
    }

    /** The store's tables are what a sequence of its own operations can make them. */
    ghost predicate Valid()
      reads this, store
    {
      store != null ==> D.Linked(store.db)
    }

    constructor (store: SqliteStore?, retryPolicy: RetryPolicy)
      requires store != null ==> D.Linked(store.db)
      ensures Valid() && this.store == store && this.retryPolicy == retryPolicy
      ensures fresh(metrics) && fresh(audit) && fresh(deadLetters)
      ensures Service() == NEW_SERVICE
      ensures store == null ==> CurrentState() == NewState(EMPTY_CATALOGUE, EMPTY_MEMORY)
    {
      var collector := new Collector();
      var trail := new AuditTrail();
      var queue := new DeadLetterQueue();
      this.store, this.retryPolicy := store, retryPolicy;
      metrics, audit, deadLetters := collector, trail, queue;
      hosts, products, hostPolicies, providerAccounts := map[], map[], map[], map[];
      orders, ledgers, idempotent := map[], map[], {};
    }

    // ---------- lookups ----------

    method FindHost(id: string, f: QuoteFaults) returns (r: Result<Host>)
      ensures r == Lookup(id, QuoteFaultsOf(Backend(), f).host, Catalogues.FindHost(Catalogue(), id))
    {
      if id == "" { return Err("host id is required"); }
      if store != null && f.host.Some? { return Err(f.host.value); }
      var found := if store != null then store.db.hosts else hosts;
      if id !in found { return Err("host not found"); }
      return Ok(found[id]);
    }

    method FindProduct(id: string, f: QuoteFaults) returns (r: Result<Product>)
      ensures r == Lookup(id, QuoteFaultsOf(Backend(), f).product, Catalogues.FindProduct(Catalogue(), id))
    {
      if id == "" { return Err("product id is required"); }
      if store != null {
        if f.product.Some? { return Err(f.product.value); }
        if id !in store.db.products { return Err("product not found"); }
        return Ok(D.ScanProduct(store.db.products[id]));
      }
      if id !in products { return Err("product not found"); }
      return Ok(products[id]);
    }

    method FindHostPolicy(hostID: string, f: QuoteFaults) returns (r: Result<FeePolicy>)
      ensures r == Read(QuoteFaultsOf(Backend(), f).policy, Catalogues.FindHostPolicy(Catalogue(), hostID))
    {
      if store != null && f.policy.Some? { return Err(f.policy.value); }
      var found := if store != null then store.db.policies else hostPolicies;
      if hostID !in found { return Err("policy not found"); }
      return Ok(found[hostID]);
    }

    method ChooseProvider(hostID: string, env: string, f: QuoteFaults) returns (r: Result<string>)
      requires store != null ==> hostID in store.db.hosts
      ensures r == Read(QuoteFaultsOf(Backend(), f).accounts, Selection(AccountsOf(Catalogue(), hostID), env))
    {
      var accounts := [];
      if store != null {
        var rows := store.GetProviderAccounts(hostID, f.accounts);
        if rows.Err? { return Err(rows.error); }
        accounts := rows.value;
      } else if hostID in providerAccounts {
        accounts := providerAccounts[hostID];
      }
      r := SelectProvider(accounts, env);
    }

    method ReadOrder(reference: string, faults: Faults) returns (r: Result<Order>)
      modifies metrics
      ensures r == Read(FaultsOf(Backend(), faults).order, GetOrder(Backend(), reference))
      ensures metrics.counters == if r.Err? then Bump(old(metrics.counters), GetNotFound) else old(metrics.counters)
    {
      if store != null {
        r := store.GetOrder(reference, faults.order);
      } else {
        r := if reference in orders then Ok(orders[reference]) else Err(T.ORDER_NOT_FOUND);
      }
      if r.Err? { metrics.Inc(GetNotFound); }
    }

    method ReadLedger(reference: string, faults: Faults) returns (r: Result<Ledger>)
      modifies metrics
      ensures r == Read(FaultsOf(Backend(), faults).ledger, GetLedger(Backend(), reference))
      ensures metrics.counters
           == if r.Err? && store != null then Bump(old(metrics.counters), LedgerNotFound) else old(metrics.counters)
    {
      if store != null {
        r := store.GetLedger(reference, faults.ledger);
        if r.Err? { metrics.Inc(LedgerNotFound); }
      } else {
        r := if reference in ledgers then Ok(ledgers[reference]) else Err(T.LEDGER_NOT_FOUND);
      }
    }

    /** Every order the service saves names a stored host and product, so no foreign key stops it. */
    method SaveOrder(order: Order, ledger: Ledger, save: SaveOutcome) returns (error: Option<string>)
      requires Valid() && (store != null ==> D.OrderKeysExist(store.db, order))
      modifies this`orders, this`ledgers, store
      ensures Valid() && Catalogue() == old(Catalogue())
      ensures var outcome := SaveIn(old(Backend()), save);
              && error == (if outcome.SaveOk? then None else Some(outcome.error))
              && Backend() == if outcome.SaveOk? || outcome.applied then Save(old(Backend()), order, ledger)
                              else old(Backend())
    {
      if store != null {
        D.SaveKeepsLinked(store.db, order, ledger);
        error := store.SaveOrder(order, ledger, save);
      } else {
        orders := orders[order.reference := order];
        ledgers := ledgers[order.reference := ledger];
        error := None;
      }
    }

    // ---------- payments ----------

    method PolicyFor(host: Host, product: Product, f: QuoteFaults) returns (policy: FeePolicy)
      ensures policy == EffectivePolicy(Catalogue(), host, product, QuoteFaultsOf(Backend(), f).policy)
    {
      policy := DEFAULT_POLICY;
      if product.feeOverride.Some? {
        policy := product.feeOverride.value;
      } else {
        var rules := FindHostPolicy(host.id, f);
        if rules.Ok? { policy := rules.value; }
      }
      policy := FillDefaults(policy);
    }

    method QuoteFor(host: Host, product: Product, input: CreateInput, f: QuoteFaults) returns (q: Quote)
      requires store != null ==> host.id in store.db.hosts
      ensures q == QuoteFees(Catalogue(), host, product, input, QuoteFaultsOf(Backend(), f))
    {
      var policy := PolicyFor(host, product, f);
      var fee := CalculateHostFee(policy, product.price);
      if fee.Err? { return Refused(CreateCause.Fee, fee.error); }
      var providerFee := ProviderFee(product.price);
      var net := product.price - fee.value - providerFee;
      if net < 0 { return Refused(Settlement, "policy produces invalid settlement"); }
      var env := if input.env == "" then SANDBOX else input.env;
      var provider := ChooseProvider(host.id, env, f);
      if provider.Err? { return Refused(ProviderMissing, provider.error); }
      return Quoted(host, product, policy, fee.value, providerFee, net, env, provider.value);
    }

    method QuotePayment(input: CreateInput, f: QuoteFaults) returns (q: Quote)
      requires Valid()
      ensures q == MakeQuote(Catalogue(), input, QuoteFaultsOf(Backend(), f))
      ensures q.Quoted? && store != null ==> q.host.id in store.db.hosts && q.product.id in store.db.products
    {
      var host := FindHost(input.hostID, f);
      if host.Err? { return Refused(HostNotFound, host.error); }
      var hostError := HostError(host.value);
      if hostError.Some? { return Refused(HostInvalid, "invalid host: " + hostError.value); }
      var product := FindProduct(input.productID, f);
      if product.Err? { return Refused(ProductNotFound, product.error); }
      var productError := ProductError(product.value);
      if productError.Some? { return Refused(ProductInvalid, "invalid product: " + productError.value); }
      if !product.value.isActive { return Refused(ProductInactive, "product is inactive"); }
      if product.value.hostID != host.value.id {
        return Refused(ProductMismatch, "product does not belong to host");
      }
      q := QuoteFor(host.value, product.value, input, f);
    }

    /** Asks the gateway and saves; `sv` is the service as it was before the call was counted. */
    method PlacePayment(q: Quote, input: CreateInput, reference: string, invoice: Result<Invoice>, save: SaveOutcome,
                        ghost sv: Service) returns (reply: Reply)
      requires Valid() && Service() == sv.Inc(Create)
      requires q.Quoted? && store != null ==> q.host.id in store.db.hosts && q.product.id in store.db.products
      modifies this`orders, this`ledgers, metrics, audit, store
      ensures Valid()
      ensures Outcome(CurrentState(), reply)
           == Carry(State(old(Catalogue()), sv, old(Backend())), CreatePlan(sv, q, input, reference, invoice),
                    SaveIn(old(Backend()), save))
    {
      ghost var plan := CreatePlan(sv, q, input, reference, invoice);
      if q.Refused? {
        metrics.Inc(CreateError(q.cause));
        assert plan == Answer(Service(), Error(q.error));
        return Error(q.error);
      }
      if invoice.Err? {
        metrics.Inc(CreateError(Gateway));
        assert plan == Answer(Service(), Error(invoice.error));
        return Error(invoice.error);
      }
      CarryIgnoresService(CurrentState(), sv, plan, SaveIn(Backend(), save));
      reply := BookPayment(OrderFor(q, input, reference, invoice.value), LedgerFor(q, reference), save,
                           PaymentCreated(reference, q.host.id, q.provider));
    }

    /** Saves the order with its ledger, and audits or counts the outcome. */
    method BookPayment(order: Order, ledger: Ledger, save: SaveOutcome, e: AuditEvent) returns (reply: Reply)
      requires Valid() && (store != null ==> D.OrderKeysExist(store.db, order))
      modifies this`orders, this`ledgers, metrics, audit, store
      ensures Valid()
      ensures Outcome(CurrentState(), reply)
           == Carry(old(CurrentState()),
                    Write(order, ledger, old(Service()).Log(e), Created(order), old(Service()).Inc(CreateError(Store))),
                    SaveIn(old(Backend()), save))
    {
      var error := SaveOrder(order, ledger, save);
      if error.Some? {
        metrics.Inc(CreateError(Store));
        return Error(error.value);
      }
      audit.Append(e);
      return Created(order);
    }

    /** `reference` is the fresh reference, `invoice` the gateway's answer, `f` and `save` the store's. */
    method CreatePayment(input: CreateInput, f: QuoteFaults, reference: string, invoice: Result<Invoice>,
                         save: SaveOutcome)
      returns (reply: Reply)
      requires Valid()
      modifies this`orders, this`ledgers, metrics, audit, store
      ensures Valid()
      ensures var q := MakeQuote(old(Catalogue()), input, QuoteFaultsOf(old(Backend()), f));
              Outcome(CurrentState(), reply)
              == Step(old(CurrentState()), Event.CreatePayment(q, input, reference, invoice, save))
    {
      ghost var sv := Service();
      metrics.Inc(Create);
      var q := QuotePayment(input, f);
      reply := PlacePayment(q, input, reference, invoice, save, sv);
    }

    method GetPayment(reference: string, fault: Option<string>) returns (reply: Reply)
      modifies metrics
      ensures Outcome(CurrentState(), reply) == Step(old(CurrentState()), Event.GetPayment(reference, fault))
    {
      metrics.Inc(Get);
      var order := ReadOrder(reference, NO_FAULTS.(order := fault));
      match order
      case Ok(o) => return Found(o);
      case Err(e) => return Error(e);
    }

    /** Writes the settled order with its ledger and records the key. */
    method SettleOrder(order: Order, c: Call, faults: Faults, ghost sv: Service) returns (reply: Reply)
      requires Valid() && Service() == sv.Inc(Webhook)
      requires Terminal(c.status) && !Terminal(order.status) && order.provider == c.provider
      requires IdempotencyKey(c.reference, c.provider, c.key) !in sv.idempotent
      requires store != null ==> D.OrderKeysExist(store.db, order)
      modifies this`orders, this`ledgers, this`idempotent, metrics, audit, store
      ensures Valid()
      ensures var f := FaultsOf(old(Backend()), faults);
              Outcome(CurrentState(), reply)
              == Carry(State(old(Catalogue()), sv, old(Backend())),
                       WebhookPlan(sv, store != null, Ok(order),
                                   Read(f.ledger, GetLedger(old(Backend()), c.reference)), c),
                       SaveIn(old(Backend()), faults.save))
    {
      var stored := ReadLedger(c.reference, faults);
      ghost var plan := WebhookPlan(sv, store != null, Ok(order), stored, c);
      var ledger := if stored.Ok? then stored.value else RebuiltLedger(order, c.key);
      assert plan == Write(order.(status := c.status), ledger, Success(Service(), c), StatusIs(c.status), Service());
      CarryIgnoresService(CurrentState(), sv, plan, SaveIn(Backend(), faults.save));
      assert Catalogue() == old(Catalogue()) && Backend() == old(Backend());
      reply := BookSettlement(order.(status := c.status), ledger, faults.save, c);
    }

    /** The service once a webhook has settled its order. */
    static function Success(sv: Service, c: Call): Service {
      sv.(idempotent := sv.idempotent + {IdempotencyKey(c.reference, c.provider, c.key)})
        .Log(PaymentWebhook(c.reference, c.provider, c.status)).Inc(WebhookSuccess)
    }

    method BookSettlement(order: Order, ledger: Ledger, save: SaveOutcome, c: Call) returns (reply: Reply)
      requires Valid() && (store != null ==> D.OrderKeysExist(store.db, order))
      modifies this`orders, this`ledgers, this`idempotent, metrics, audit, store
      ensures Valid()
      ensures Outcome(CurrentState(), reply)
           == Carry(old(CurrentState()),
                    Write(order, ledger, Success(old(Service()), c), StatusIs(c.status), old(Service())),
                    SaveIn(old(Backend()), save))
    {
      var error := SaveOrder(order, ledger, save);
      if error.Some? { return Error(error.value); }
      RecordSuccess(c);
      return StatusIs(c.status);
    }

    method RecordSuccess(c: Call)
      modifies this`idempotent, metrics, audit
      ensures Catalogue() == old(Catalogue()) && Backend() == old(Backend())
      ensures Service() == Success(old(Service()), c)
    {
      idempotent := idempotent + {IdempotencyKey(c.reference, c.provider, c.key)};
      audit.Append(PaymentWebhook(c.reference, c.provider, c.status));
      metrics.Inc(WebhookSuccess);
    }

    method HandleWebhook(order: Order, c: Call, faults: Faults, ghost sv: Service) returns (reply: Reply)
      requires Valid() && Service() == sv.Inc(Webhook)
      requires store != null ==> D.OrderKeysExist(store.db, order)
      modifies this`orders, this`ledgers, this`idempotent, metrics, audit, deadLetters, store
      ensures Valid()
      ensures var f := FaultsOf(old(Backend()), faults);
              Outcome(CurrentState(), reply)
              == Carry(State(old(Catalogue()), sv, old(Backend())),
                       WebhookPlan(sv, store != null, Ok(order),
                                   Read(f.ledger, GetLedger(old(Backend()), c.reference)), c),
                       SaveIn(old(Backend()), faults.save))
    {
      if order.provider != c.provider {
        metrics.Inc(WebhookProviderMismatch);
        return Error(PROVIDER_MISMATCH);
      }
      if IdempotencyKey(c.reference, c.provider, c.key) in idempotent {
        metrics.Inc(WebhookIdempotent);
        return StatusIs(order.status);
      }
      if Terminal(order.status) {
        if order.status == c.status {
          metrics.Inc(WebhookIdempotent);
          return StatusIs(order.status);
        }
        metrics.Inc(WebhookInvalidTransition);
        return Error(TransitionError(order.status, c.status));
      }
      if !Terminal(c.status) {
        metrics.Inc(WebhookInvalidStatus);
        deadLetters.Push(DeadLetter(c.reference, c.provider, "invalid_status", c.status));
        return Error(StatusError(c.status));
      }
      reply := SettleOrder(order, c, faults, sv);
    }

    method ReconcileWebhook(c: Call, faults: Faults) returns (reply: Reply)
      requires Valid()
      modifies this`orders, this`ledgers, this`idempotent, metrics, audit, deadLetters, store
      ensures Valid()
      ensures Outcome(CurrentState(), reply) == StepWebhook(old(CurrentState()), c, faults)
    {
      ghost var sv := Service();
      metrics.Inc(Webhook);
      var found := ReadOrder(c.reference, faults);
      if found.Err? {
        metrics.Inc(WebhookNotFound);
        return Error(found.error);
      }
      reply := HandleWebhook(found.value, c, faults, sv);
    }

    // ---------- the retry loop ----------

    /** The lock is free: other loops and other methods take any moves of their own. A caller knows of them
        only what is ensured here; the body is the case of no move at all. */
    method Interfere(ghost y: System, ghost mine: nat) returns (ghost y': System, ghost moves: seq<Move>)
      requires Valid() && y.state == CurrentState() && mine < |y.loops|
      modifies this, metrics, audit, deadLetters, store
      ensures Valid() && y' == Play(y, moves) && AllAllowed(y, moves) && y'.state == CurrentState()
      ensures y'.maxAttempts == y.maxAttempts && mine < |y'.loops| && y'.loops[mine] == y.loops[mine]
    {
      y', moves := y, [];
    }

    /** How the loop goes on after a reply. */
    method Classify(attempts: nat, c: Call, reply: Reply) returns (l: Loop)
      requires reply.StatusIs? || reply.Error?
      ensures l == AfterAttempt(retryPolicy.maxAttempts, Running(c, attempts), reply)
    {
      if reply.StatusIs? { return Returned(c, attempts + 1, reply.status); }
      if !IsRetryable(reply.error) { return Failed(c, attempts + 1, reply.error); }
      if attempts + 1 == retryPolicy.maxAttempts { return Failed(c, attempts + 1, reply.error); }
      return Running(c, attempts + 1);
    }

    /** One attempt is one move of the system of loops. */
    method TryOnce(attempts: nat, c: Call, faults: Faults, ghost y: System, ghost mine: nat)
      returns (l: Loop, ghost z: System)
      requires Valid() && y.state == CurrentState() && y.maxAttempts == retryPolicy.maxAttempts
      requires mine < |y.loops| && y.loops[mine] == Running(c, attempts)
      modifies this, metrics, audit, deadLetters, store
      ensures Valid() && z == Advance(y, Attempt(mine, faults)) && z.state == CurrentState()
      ensures z.maxAttempts == y.maxAttempts && |z.loops| == |y.loops| && z.loops[mine] == l
      ensures l.call == c && l.attempts == attempts + 1
      ensures l.Running? ==> l.attempts != retryPolicy.maxAttempts
    {
      RepliesToWebhook(y.state, c, faults);
      var reply := ReconcileWebhook(c, faults);
      l := Classify(attempts, c, reply);
      ghost var o := Outcome(CurrentState(), reply);
      TryIs(y, mine, faults, o, l);
      if l.Running? {
        metrics.Inc(WebhookRetry);
        assert CurrentState() == o.state.(service := o.state.service.Inc(WebhookRetry));
      }
      z := y.(state := CurrentState(), loops := y.loops[mine := l]);
    }

    /** One pass of the loop, up to the sleep: others move, then the pass is cancelled or makes its attempt. The
        moves it adds follow those that led from `first` to `y`. */
    method OnePass(attempts: nat, c: Call, around: Surroundings, ghost first: System, ghost before: seq<Move>,
                   ghost y: System, ghost mine: nat)
      returns (l: Loop, ghost z: System, ghost moves: seq<Move>)
      requires Valid() && y.state == CurrentState() && y.maxAttempts == retryPolicy.maxAttempts
      requires Follows(first, before, y) && mine < |y.loops| && y.loops[mine] == Running(c, attempts)
      modifies this, metrics, audit, deadLetters, store
      ensures Valid() && Follows(first, moves, z) && z.state == CurrentState() && z.maxAttempts == y.maxAttempts
      ensures mine < |z.loops| && z.loops[mine] == l && l.call == c
      ensures around.cancelledBefore.Some? ==> l == Failed(c, attempts, around.cancelledBefore.value)
      ensures around.cancelledBefore.None? ==> l.attempts == attempts + 1
      ensures l.Running? ==> l.attempts != retryPolicy.maxAttempts
    {
      ghost var x, others := Interfere(y, mine);
      FollowsConcat(first, before, y, others, x);
      if around.cancelledBefore.Some? {
        l, z, moves := Stop(attempts, c, around.cancelledBefore.value, first, before + others, x, mine);
      } else {
        l, z := TryOnce(attempts, c, around.faults, x, mine);
        FollowsOne(x, Attempt(mine, around.faults));
        moves := before + others + [Attempt(mine, around.faults)];
        FollowsConcat(first, before + others, x, [Attempt(mine, around.faults)], z);
      }
    }

    /** A cancelled loop returns the error of its context and the attempts made so far. */
    method Stop(attempts: nat, c: Call, error: string, ghost first: System, ghost before: seq<Move>, ghost y: System,
                ghost mine: nat)
      returns (l: Loop, ghost z: System, ghost moves: seq<Move>)
      requires Follows(first, before, y) && mine < |y.loops| && y.loops[mine] == Running(c, attempts)
      ensures l == Failed(c, attempts, error) && Follows(first, moves, z)
      ensures z == y.(loops := y.loops[mine := l])
    {
      l := Failed(c, attempts, error);
      z, moves := Advance(y, Cancel(mine, error)), before + [Cancel(mine, error)];
      FollowsOne(y, Cancel(mine, error));
      FollowsConcat(first, before, y, [Cancel(mine, error)], z);
    }

    method Sleep(slept: nat, waited: int) returns (total: int)
      requires waited == TotalWait(retryPolicy, slept)
      ensures total == TotalWait(retryPolicy, slept + 1)
    {
      total := waited + DelayForAttempt(retryPolicy, slept + 1);
    }

    /** One pass and, if it is to be retried, the sleep after it, which may be cancelled. */
    method Turn(slept: nat, waited: int, c: Call, around: Surroundings, ghost first: System, ghost before: seq<Move>,
                ghost y: System, ghost mine: nat)
      returns (l: Loop, slept': nat, waited': int, ghost z: System, ghost moves: seq<Move>)
      requires Valid() && y.state == CurrentState() && y.maxAttempts == retryPolicy.maxAttempts
      requires slept < retryPolicy.maxAttempts && waited == TotalWait(retryPolicy, slept)
      requires Follows(first, before, y) && mine < |y.loops| && y.loops[mine] == Running(c, slept)
      modifies this, metrics, audit, deadLetters, store
      ensures Valid() && Follows(first, moves, z) && z.state == CurrentState() && z.maxAttempts == y.maxAttempts
      ensures mine < |z.loops| && z.loops[mine] == l && l.call == c && l.attempts <= retryPolicy.maxAttempts
      ensures waited' == TotalWait(retryPolicy, slept') && slept' <= l.attempts <= slept' + 1
      ensures slept' < retryPolicy.maxAttempts
      ensures l.Running? ==> l == Running(c, slept') && slept' == slept + 1
      ensures l.Returned? ==> slept' == l.attempts - 1
    {
      l, z, moves := OnePass(slept, c, around, first, before, y, mine);
      if !l.Running? { return l, slept, waited, z, moves; }
      l, slept', waited', z, moves := Pause(slept, waited, c, around, first, moves, z, mine);
    }

    /** The sleep after a retried attempt, which a cancellation cuts short. */
    method Pause(slept: nat, waited: int, c: Call, around: Surroundings, ghost first: System, ghost before: seq<Move>,
                 ghost y: System, ghost mine: nat)
      returns (l: Loop, slept': nat, waited': int, ghost z: System, ghost moves: seq<Move>)
      requires waited == TotalWait(retryPolicy, slept)
      requires Follows(first, before, y) && mine < |y.loops| && y.loops[mine] == Running(c, slept + 1)
      ensures slept' == slept + 1 && waited' == TotalWait(retryPolicy, slept + 1)
      ensures Follows(first, moves, z) && z.state == y.state && z.maxAttempts == y.maxAttempts
      ensures mine < |z.loops| && z.loops[mine] == l
      ensures l == Running(c, slept + 1) || (l.Failed? && l.call == c && l.attempts == slept + 1)
    {
      waited' := Sleep(slept, waited);
      slept' := slept + 1;
      if around.cancelledAfter.Some? {
        l, z, moves := Stop(slept', c, around.cancelledAfter.value, first, before, y, mine);
      } else {
        l, z, moves := Running(c, slept'), y, before;
      }
    }

    /** The turns after `Start`, while the loop is running; `slept` sleeps lie between them. */
    method Turns(c: Call, surroundings: seq<Surroundings>, ghost y: System, ghost mine: nat)
      returns (l: Loop, slept: nat, waited: int, ghost z: System, ghost moves: seq<Move>)
      requires Valid() && y.state == CurrentState() && y.maxAttempts == retryPolicy.maxAttempts >= 1
      requires mine < |y.loops| && y.loops[mine] == Running(c, 0)
      requires |surroundings| >= retryPolicy.maxAttempts
      modifies this, metrics, audit, deadLetters, store
      ensures Valid() && Follows(y, moves, z) && z.state == CurrentState()
      ensures mine < |z.loops| && z.loops[mine] == l && l.call == c && !l.Running?
      ensures waited == TotalWait(retryPolicy, slept) && slept <= l.attempts <= slept + 1
      ensures slept < retryPolicy.maxAttempts && (l.Returned? ==> slept == l.attempts - 1)
    {
      l, slept, waited, z, moves := Turn(0, 0, c, surroundings[0], y, [], y, mine);
      while l.Running?
        invariant Valid() && Follows(y, moves, z) && z.state == CurrentState()
        invariant z.maxAttempts == retryPolicy.maxAttempts
        invariant mine < |z.loops| && z.loops[mine] == l && l.call == c && slept <= l.attempts <= slept + 1
        invariant l.Running? ==> l == Running(c, slept)
        invariant l.Returned? ==> slept == l.attempts - 1
        invariant slept < retryPolicy.maxAttempts && waited == TotalWait(retryPolicy, slept)
        decreases l.Running?, retryPolicy.maxAttempts - slept
      {
        l, slept, waited, z, moves := Turn(slept, waited, c, surroundings[slept], y, moves, z, mine);
      }
    }

    /** The loop, started as one more loop of the system `before`, takes moves of that system only: its attempts,
        its cancellation, and whatever others do between them. One sleep lies between two attempts; only a loop
        that is cancelled may have slept after its last one. */
    method ReconcileWebhookWithRetry(c: Call, surroundings: seq<Surroundings>, ghost before: System)
      returns (l: Loop, slept: nat, waited: int, ghost after: System, ghost moves: seq<Move>)
      requires Valid() && before.state == CurrentState() && before.maxAttempts == retryPolicy.maxAttempts
      requires |surroundings| >= retryPolicy.maxAttempts
      modifies this, metrics, audit, deadLetters, store
      ensures Valid() && Follows(before, [Start(c)] + moves, after) && after.state == CurrentState()
      ensures |before.loops| < |after.loops| && after.loops[|before.loops|] == l && l.call == c && !l.Running?
      ensures retryPolicy.maxAttempts < 1 ==> l == Returned(c, 0, "")
      ensures waited == TotalWait(retryPolicy, slept) && slept <= l.attempts <= slept + 1
      ensures retryPolicy.maxAttempts >= 1 ==> slept < retryPolicy.maxAttempts && l.attempts <= retryPolicy.maxAttempts
      ensures retryPolicy.maxAttempts >= 1 && l.Returned? ==> slept == l.attempts - 1
    {
      ghost var started := Advance(before, Start(c));
      FollowsOne(before, Start(c));
      l := Begin(retryPolicy.maxAttempts, c);
      if !l.Running? {
        slept, waited, after, moves := 0, 0, started, [];
        assert [Start(c)] + [] == [Start(c)];
        return;
      }
      l, slept, waited, after, moves := Turns(c, surroundings, started, |before.loops|);
      FollowsConcat(before, [Start(c)], started, moves, after);
    }

    /** What the caller of the loop may rely on when it joins a running system: an answer without an error is a
        terminal status that the store holds. */
    lemma ReturnedIsStored(before: System, moves: seq<Move>, after: System, i: nat)
      requires SystemInv(before) && Follows(before, moves, after) && i < |after.loops|
      ensures SystemInv(after) && Truthful(after.state.store, after.loops[i])
    {
      AgreementLasts(before, moves);
    }

    // ---------- administration ----------

    /** In memory the registry follows Administer; with a store, the database follows its own statements, whose commit
        may fail. Orders, ledgers, keys and counters stay as they are. */
    twostate predicate Administered(op: AdminOp, commit: SaveOutcome, new error: Option<string>)
      reads this, store, metrics, audit, deadLetters
    {
      && Valid() && Service() == old(Service()) && Backend() == old(Backend())
      && (store == null ==> error == AdminError(op) && Catalogue() == Administer(old(Catalogue()), op))
      && (store != null ==> Committed(old(store.db), D.Execute(old(store.db), D.Admin(op)), commit, store.db, error))
    }

    method RegisterHost(h: Host, commit: SaveOutcome) returns (error: Option<string>)
      requires Valid()
      modifies this`hosts, store
      ensures Administered(AdminOp.RegisterHost(h), commit, error)
    {
      error := HostError(h);
      if error.Some? { return; }
      if store != null {
        D.HostKeepsLinked(store.db, h);
        error := store.UpsertHost(h, commit);
      } else {
        hosts := hosts[h.id := h];
      }
    }

    method RegisterProduct(p: Product, commit: SaveOutcome) returns (error: Option<string>)
      requires Valid()
      modifies this`products, store
      ensures Administered(AdminOp.RegisterProduct(p), commit, error)
    {
      error := ProductError(p);
      if error.Some? { return; }
      if store != null {
        if p.hostID in store.db.hosts { D.ProductKeepsLinked(store.db, p); }
        error := store.UpsertProduct(p, commit);
      } else {
        products := products[p.id := p];
      }
    }

    method RegisterProviderAccount(a: Account, commit: SaveOutcome) returns (error: Option<string>)
      requires Valid()
      modifies this`providerAccounts, store
      ensures Administered(RegisterAccount(a), commit, error)
    {
      error := AccountError(a);
      if error.Some? { return; }
      if store != null {
        if a.hostID in store.db.hosts { D.AccountKeepsLinked(store.db, a); }
        error := store.UpsertProviderAccount(a, commit);
      } else {
        var accounts := if a.hostID in providerAccounts then providerAccounts[a.hostID] else [];
        accounts := RegisterIn(accounts, a);
        providerAccounts := providerAccounts[a.hostID := accounts];
      }
    }

    method RegisterHostPolicy(hostID: string, p: FeePolicy, commit: SaveOutcome) returns (error: Option<string>)
      requires Valid()
      modifies this`hostPolicies, store
      ensures Administered(RegisterPolicy(hostID, p), commit, error)
    {
      error := PolicyError(p);
      if error.Some? { return; }
      if hostID == "" { return Some("host id is required"); }
      if store != null {
        if hostID in store.db.hosts { D.PolicyKeepsLinked(store.db, hostID, p); }
        error := store.UpsertHostPolicy(hostID, p, commit);
      } else {
        hostPolicies := hostPolicies[hostID := p];
      }
    }

    /** The registry deletes a host whether or not it has orders; the store refuses one that has. */
    method DeleteHost(hostID: string, commit: SaveOutcome) returns (error: Option<string>)
      requires Valid()
      modifies this`hosts, this`hostPolicies, this`providerAccounts, this`products, store
      ensures Administered(AdminOp.DeleteHost(hostID), commit, error)
    {
      if store != null {
        D.HostDeletionKeepsLinked(store.db, hostID);
        error := store.DeleteHost(hostID, commit);
        return;
      }
      hosts, hostPolicies, providerAccounts := hosts - {hostID}, hostPolicies - {hostID}, providerAccounts - {hostID};
      DropProductsOf(hostID);
      return None;
    }

    method DropProductsOf(hostID: string)
      modifies this`products
      ensures products == map p | p in old(products) && old(products)[p].hostID != hostID :: old(products)[p]
    {
      var all, keys := products, products.Keys;
      while keys != {}
        invariant keys <= all.Keys && products.Keys <= all.Keys
        invariant forall k | k in products :: products[k] == all[k]
        invariant forall k | k in all :: k in products <==> k in keys || all[k].hostID != hostID
        modifies this`products
        decreases keys
      {
        var k :| k in keys;
        keys := keys - {k};
        if products[k].hostID == hostID {
          products := products - {k};
        }
      }
      assert products == map p | p in all && all[p].hostID != hostID :: all[p];
    }

    method DeleteProduct(productID: string, commit: SaveOutcome) returns (error: Option<string>)
      requires Valid()
      modifies this`products, store
      ensures Administered(AdminOp.DeleteProduct(productID), commit, error)
    {
      if store != null {
        var ids := {productID} * store.db.products.Keys;
        if D.DeleteProducts(store.db, ids).Ok? { D.DeletionKeepsLinked(store.db, ids); }
        error := store.DeleteProduct(productID, commit);
      } else {
        products := products - {productID};
        error := None;
      }
    }

    method DeleteProviderAccount(hostID: string, provider: string, env: string, commit: SaveOutcome)
      returns (error: Option<string>)
      requires Valid()
      modifies this`providerAccounts, store
      ensures Administered(DeleteAccount(hostID, provider, env), commit, error)
    {
      if store != null {
        D.KeptAccountsLinked(store.db, D.DeleteAccount(store.db, hostID, provider, env).accounts);
        error := store.DeleteProviderAccount(hostID, provider, env, commit);
      } else {
        var accounts := if hostID in providerAccounts then providerAccounts[hostID] else [];
        accounts := RemoveFrom(accounts, provider, env);
        providerAccounts := providerAccounts[hostID := accounts];
        error := None;
      }
    }
  }
}
