/** The payment life cycle as one step function over the service's state
    (internal/orchestration/orchestrator.go:124-342, 617-683). Every method of the service runs under
    one mutex, so each is one atomic step. */
module Payments {
  import opened Prelude
  import opened Text
  import opened Domain
  import opened Accounts
  import opened Catalogues
  import T = Tables
  import opened Observability

  // ---------- keys and references ----------

  function Hex(bytes: seq<bv8>): string {
    if bytes == [] then []
    else
      var b := bytes[0] as nat;
      ["0123456789abcdef"[b / 16], "0123456789abcdef"[b % 16]] + Hex(bytes[1..])
  }

  /** `ord-<nanoseconds>-<hex>`. */
  function NewReference(nanos: int, random: seq<bv8>): string {
    "ord-" + PrintInt(nanos) + "-" + Hex(random)
  }

  predicate WellFormedReference(r: string) { ':' !in r && '|' !in r }

  function IdempotencyKey(reference: string, provider: string, key: string): string {
    reference + ":" + provider + ":" + key
  }

  function LedgerKey(snapshotID: string, reference: string): string {
    "policy:" + snapshotID + "|" + reference
  }

  // ---------- state ----------

  datatype Service = Service(idempotent: set<string>, metrics: Counters, audit: seq<AuditEvent>,
                             deadLetters: seq<DeadLetter>)
  {
    function Inc(m: Metric): Service { this.(metrics := Bump(metrics, m)) }
    function Log(e: AuditEvent): Service { this.(audit := audit + [e]) }
  }

  const NEW_SERVICE := Service({}, map[], [], [])

  /** Where orders and ledgers live: two maps, or the SQLite tables. */
  datatype Backend =
    | Memory(orders: map<string, Order>, ledgers: map<string, Ledger>)
    | Sqlite(tables: T.Tables)

  function GetOrder(b: Backend, reference: string): Result<Order> {
    match b
    case Memory(orders, _) => if reference in orders then Ok(orders[reference]) else Err(T.ORDER_NOT_FOUND)
    case Sqlite(t) => T.GetOrder(t, reference)
  }

  function GetLedger(b: Backend, reference: string): Result<Ledger> {
    match b
    case Memory(_, ledgers) => if reference in ledgers then Ok(ledgers[reference]) else Err(T.LEDGER_NOT_FOUND)
    case Sqlite(t) => T.GetLedger(t, reference)
  }

  function Save(b: Backend, order: Order, ledger: Ledger): Backend {
    match b
    case Memory(orders, ledgers) => Memory(orders[order.reference := order], ledgers[order.reference := ledger])
    case Sqlite(t) => Sqlite(T.SaveOrder(t, order, ledger))
  }

  datatype State = State(catalogue: Catalogue, service: Service, store: Backend)

  // ---------- faults of the store ----------

  /** What SaveOrder reports; a commit that fails may or may not have been applied. */
  datatype SaveOutcome = SaveOk | SaveFailed(error: string, applied: bool)

  /** The errors a store answers one webhook's reads and its write with. */
  datatype Faults = Faults(order: Option<string>, ledger: Option<string>, save: SaveOutcome)

  const NO_FAULTS := Faults(None, None, SaveOk)

  /** The errors a store answers the four reads of one creation with. */
  datatype QuoteFaults = QuoteFaults(host: Option<string>, product: Option<string>, policy: Option<string>,
                                     accounts: Option<string>)

  const NO_QUOTE_FAULTS := QuoteFaults(None, None, None, None)

  /** The in-memory maps never fail. */
  function FaultsOf(b: Backend, f: Faults): Faults { if b.Memory? then NO_FAULTS else f }

  function QuoteFaultsOf(b: Backend, f: QuoteFaults): QuoteFaults { if b.Memory? then NO_QUOTE_FAULTS else f }

  /** What a save in this store comes to. */
  function SaveIn(b: Backend, save: SaveOutcome): SaveOutcome { if b.Memory? then SaveOk else save }

  function Read<X>(fault: Option<string>, answer: Result<X>): Result<X> {
    if fault.Some? then Err(fault.value) else answer
  }

  // ---------- plans ----------

  datatype Reply = Created(order: Order) | StatusIs(status: Status) | Found(order: Order) | Done | Error(error: string)

  /** What a method decided: an answer, or a write whose outcome picks the answer. */
  datatype Plan =
    | Answer(service: Service, reply: Reply)
    | Write(order: Order, ledger: Ledger, onOk: Service, reply: Reply, onError: Service)

  datatype Outcome = Outcome(state: State, reply: Reply)

  function Carry(s: State, p: Plan, save: SaveOutcome): Outcome {
    match p
    case Answer(service, reply) => Outcome(s.(service := service), reply)
    case Write(order, ledger, onOk, reply, onError) =>
      match save
      case SaveOk => Outcome(s.(service := onOk, store := Save(s.store, order, ledger)), reply)
      case SaveFailed(error, applied) =>
        var store := if applied then Save(s.store, order, ledger) else s.store;
        Outcome(s.(service := onError, store := store), Error(error))
  }

  // ---------- creating a payment ----------

  datatype CreateInput = CreateInput(hostID: string, productID: string, buyerRef: string, env: string)

  datatype Invoice = Invoice(checkoutURL: string, providerReference: string, providerStatus: string)

  /** Everything settled before the gateway is asked. */
  datatype Quote =
    | Quoted(host: Host, product: Product, policy: FeePolicy, hostFee: int, providerFee: int, net: int,
             env: string, provider: string)
    | Refused(cause: CreateCause, error: string)

  const DEFAULT_POLICY := FeePolicy(FREE, 0.0, "IDR", NEAREST, None, None, "")

  function FillDefaults(p: FeePolicy): FeePolicy {
    p.(rounding := if p.rounding == "" then NEAREST else p.rounding,
       currency := if p.currency == "" then "IDR" else p.currency,
       version := if p.version == "" then "v1" else p.version)
  }

  /** A policy that cannot be read is passed over like one that is not there. */
  function EffectivePolicy(c: Catalogue, host: Host, product: Product, fault: Option<string>): FeePolicy {
    var rules := Read(fault, FindHostPolicy(c, host.id));
    FillDefaults(
      if product.feeOverride.Some? then product.feeOverride.value
      else if rules.Ok? then rules.value
      else DEFAULT_POLICY)
  }

  function QuoteFees(c: Catalogue, host: Host, product: Product, input: CreateInput, f: QuoteFaults): Quote {
    var policy := EffectivePolicy(c, host, product, f.policy);
    match CalculateHostFee(policy, product.price)
    case Err(e) => Refused(CreateCause.Fee, e)
    case Ok(hostFee) =>
      var providerFee := ProviderFee(product.price);
      var net := product.price - hostFee - providerFee;
      if net < 0 then Refused(Settlement, "policy produces invalid settlement")
      else
        var env := if input.env == "" then SANDBOX else input.env;
        match Read(f.accounts, Selection(AccountsOf(c, host.id), env))
        case Err(e) => Refused(ProviderMissing, e)
        case Ok(provider) => Quoted(host, product, policy, hostFee, providerFee, net, env, provider)
  }

  /** An empty id is refused before the store is asked. */
  function Lookup<X>(id: string, fault: Option<string>, answer: Result<X>): Result<X> {
    if id == "" then answer else Read(fault, answer)
  }

  function MakeQuote(c: Catalogue, input: CreateInput, f: QuoteFaults): Quote {
    match Lookup(input.hostID, f.host, FindHost(c, input.hostID))
    case Err(e) => Refused(HostNotFound, e)
    case Ok(host) =>
      if HostError(host).Some? then Refused(HostInvalid, "invalid host: " + HostError(host).value)
      else
        match Lookup(input.productID, f.product, FindProduct(c, input.productID))
        case Err(e) => Refused(ProductNotFound, e)
        case Ok(product) =>
          if ProductError(product).Some? then Refused(ProductInvalid, "invalid product: " + ProductError(product).value)
          else if !product.isActive then Refused(ProductInactive, "product is inactive")
          else if product.hostID != host.id then Refused(ProductMismatch, "product does not belong to host")
          else QuoteFees(c, host, product, input, f)
  }

  function OrderFor(q: Quote, input: CreateInput, reference: string, invoice: Invoice): Order
    requires q.Quoted?
  {
    Order(reference, reference, q.host.id, q.product.id, q.provider, q.policy.currency, q.env,
          if invoice.providerStatus != "" then invoice.providerStatus else CREATED,
          q.product.price, q.hostFee, q.providerFee, q.net,
          input.buyerRef, SnapshotID(q.policy), invoice.providerReference, invoice.checkoutURL)
  }

  function LedgerFor(q: Quote, reference: string): Ledger
    requires q.Quoted?
  {
    Ledger(reference, q.product.price, q.hostFee, q.providerFee, q.net, PayloadHash(q.policy),
           LedgerKey(SnapshotID(q.policy), reference))
  }

  /** `reference` is what newReference returned and `invoice` what the gateway answered. */
  function CreatePlan(sv: Service, q: Quote, input: CreateInput, reference: string, invoice: Result<Invoice>): Plan {
    var sv1 := sv.Inc(Create);
    if q.Refused? then Answer(sv1.Inc(CreateError(q.cause)), Error(q.error))
    else
      match invoice
      case Err(e) => Answer(sv1.Inc(CreateError(Gateway)), Error(e))
      case Ok(inv) =>
        var order := OrderFor(q, input, reference, inv);
        Write(order, LedgerFor(q, reference), sv1.Log(PaymentCreated(reference, q.host.id, q.provider)),
              Created(order), sv1.Inc(CreateError(Store)))
  }

  // ---------- reconciling a webhook ----------

  datatype Call = Call(reference: string, provider: string, status: Status, key: string)

  const PROVIDER_MISMATCH := "provider mismatch"
  const UNSUPPORTED_STATUS := "unsupported status"
  const INVALID_TRANSITION := "invalid status transition"

  function TransitionError(from: Status, to: Status): string { INVALID_TRANSITION + (": " + from + " -> " + to) }

  function StatusError(s: Status): string { UNSUPPORTED_STATUS + (": " + s) }

  /** The ledger a webhook makes up when it cannot read the stored one. */
  function RebuiltLedger(order: Order, key: string): Ledger {
    Ledger(order.reference, order.gross, order.hostFee, order.providerFee, order.net,
           SnapshotName(order.snapshotID), key)
  }

  /** `order` and `ledger` are the store's answers; a persistent store counts a failed ledger read. */
  function WebhookPlan(sv: Service, persistent: bool, order: Result<Order>, ledger: Result<Ledger>, c: Call): Plan {
    var sv1 := sv.Inc(Webhook);
    match order
    case Err(e) => Answer(sv1.Inc(GetNotFound).Inc(WebhookNotFound), Error(e))
    case Ok(o) =>
      if o.provider != c.provider then Answer(sv1.Inc(WebhookProviderMismatch), Error(PROVIDER_MISMATCH))
      else if IdempotencyKey(c.reference, c.provider, c.key) in sv.idempotent then
        Answer(sv1.Inc(WebhookIdempotent), StatusIs(o.status))
      else if Terminal(o.status) then
        if o.status == c.status then Answer(sv1.Inc(WebhookIdempotent), StatusIs(o.status))
        else Answer(sv1.Inc(WebhookInvalidTransition), Error(TransitionError(o.status, c.status)))
      else if !Terminal(c.status) then
        var sv2 := sv1.Inc(WebhookInvalidStatus);
        var letter := DeadLetter(c.reference, c.provider, "invalid_status", c.status);
        Answer(sv2.(deadLetters := sv2.deadLetters + [letter]), Error(StatusError(c.status)))
      else
        var sv2 := if ledger.Err? && persistent then sv1.Inc(LedgerNotFound) else sv1;
        var kept := if ledger.Ok? then ledger.value else RebuiltLedger(o, c.key);
        var recorded := sv2.(idempotent := sv2.idempotent + {IdempotencyKey(c.reference, c.provider, c.key)});
        Write(o.(status := c.status), kept,
              recorded.Log(PaymentWebhook(c.reference, c.provider, c.status)).Inc(WebhookSuccess),
              StatusIs(c.status), sv2)
  }

  // ---------- steps and runs ----------

  /** A creation carries the quote its catalogue gave it (see `Priced`). `Configure` puts any other catalogue in
      place, and so stands for every registration, price or policy change and deletion. `Restart` forgets the
      recorded idempotency keys. */
  datatype Event =
    | CreatePayment(quote: Quote, input: CreateInput, reference: string, invoice: Result<Invoice>, save: SaveOutcome)
    | ReconcileWebhook(call: Call, faults: Faults)
    | GetPayment(reference: string, fault: Option<string>)
    | Configure(catalogue: Catalogue)
    | Drain
    | Restart

  /** The plan of a webhook, from what the store answers under the given faults. */
  function PlanFor(s: State, c: Call, faults: Faults): Plan {
    var f := FaultsOf(s.store, faults);
    WebhookPlan(s.service, s.store.Sqlite?, Read(f.order, GetOrder(s.store, c.reference)),
                Read(f.ledger, GetLedger(s.store, c.reference)), c)
  }

  function StepWebhook(s: State, c: Call, faults: Faults): Outcome {
    Carry(s, PlanFor(s, c, faults), SaveIn(s.store, faults.save))
  }

  function StepGet(s: State, reference: string, fault: Option<string>): Outcome {
    var f := FaultsOf(s.store, NO_FAULTS.(order := fault));
    var sv := s.service.Inc(Get);
    match Read(f.order, GetOrder(s.store, reference))
    case Ok(o) => Outcome(s.(service := sv), Found(o))
    case Err(e) => Outcome(s.(service := sv.Inc(GetNotFound)), Error(e))
  }

  function Step(s: State, e: Event): Outcome {
    match e
    case CreatePayment(quote, input, reference, invoice, save) =>
      Carry(s, CreatePlan(s.service, quote, input, reference, invoice), SaveIn(s.store, save))
    case ReconcileWebhook(call, faults) => StepWebhook(s, call, faults)
    case GetPayment(reference, fault) => StepGet(s, reference, fault)
    case Configure(c) => Outcome(s.(catalogue := c), Done)
    case Drain => Outcome(s.(service := s.service.(deadLetters := [])), Done)
    case Restart => Outcome(s.(service := s.service.(idempotent := {})), Done)
  }

  function Run(s: State, es: seq<Event>): State {
    if es == [] then s else Step(Run(s, es[..|es| - 1]), es[|es| - 1]).state
  }

  /** The answers of a run, in order. */
  function Replies(s: State, es: seq<Event>): (r: seq<Reply>)
    ensures |r| == |es|
  {
    if es == [] then []
    else Replies(s, es[..|es| - 1]) + [Step(Run(s, es[..|es| - 1]), es[|es| - 1]).reply]
  }

  /** A new reference is well formed and not in the store yet. */
  predicate Fresh(s: State, e: Event) {
    e.CreatePayment? ==> WellFormedReference(e.reference) && GetOrder(s.store, e.reference).Err?
  }

  predicate Legal(s: State, es: seq<Event>) {
    es == [] || (Legal(s, es[..|es| - 1]) && Fresh(Run(s, es[..|es| - 1]), es[|es| - 1]))
  }

  /** Every creation of a run was quoted from the catalogue of its moment, whatever reads of it failed. What does not
      need this holds for any quote. */
  ghost predicate Priced(s: State, es: seq<Event>) {
    es == [] || (Priced(s, es[..|es| - 1]) && PricedNow(Run(s, es[..|es| - 1]), es[|es| - 1]))
  }

  ghost predicate PricedNow(s: State, e: Event) { e.CreatePayment? ==> exists f :: PricedWith(s, e, f) }

  /** The quote is what the catalogue gives under these faults of its reads. */
  predicate PricedWith(s: State, e: Event, f: QuoteFaults)
    requires e.CreatePayment?
  {
    e.quote == MakeQuote(s.catalogue, e.input, QuoteFaultsOf(s.store, f))
  }

  function NewState(c: Catalogue, b: Backend): State { State(c, NEW_SERVICE, b) }

  const EMPTY_MEMORY := Memory(map[], map[])
  const EMPTY_SQLITE := Sqlite(T.EMPTY_TABLES)

  lemma {:induction false} RunConcat(s: State, a: seq<Event>, b: seq<Event>)
    ensures Run(s, a + b) == Run(Run(s, a), b)
    ensures Legal(s, a) && Legal(Run(s, a), b) <==> Legal(s, a + b)
  {
    if b == [] {
      assert a + b == a;
    } else {
      var front := b[..|b| - 1];
      RunConcat(s, a, front);
      assert (a + b)[..|a + b| - 1] == a + front;
    }
  }
}
