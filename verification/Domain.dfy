/** The entities of the payment domain and the fee arithmetic (internal/domain/domain.go).
    Amounts are unbounded integers and fee values are reals. */
module Domain {
  import opened Prelude

  // ---------- statuses ----------

  /** A status is any text: gateways and webhooks may send one the service does not know. */
  type Status = string

  const CREATED: Status := "created"
  const SUCCESS: Status := "success"
  const FAILED: Status := "failed"
  const EXPIRED: Status := "expired"

  predicate Terminal(s: Status) { s == SUCCESS || s == FAILED || s == EXPIRED }

  // ---------- hosts ----------

  datatype Host = Host(id: string, name: string, callbackURLs: seq<string>, callbackAllowlist: seq<string>,
                       notificationKey: string, hostSecret: string, webhookSecret: string)

  function HostError(h: Host): Option<string> {
    if h.id == "" then Some("host id is required")
    else if h.name == "" then Some("host name is required")
    else if h.notificationKey == "" || h.hostSecret == "" || h.webhookSecret == "" then
      Some("host secrets are required")
    else None
  }

  // ---------- fee policies ----------

  const PERCENT := "percent"
  const FIXED := "fixed"
  const FREE := "free"

  const NEAREST := "nearest"
  const FLOOR := "floor"
  const CEIL := "ceil"

  /** `kind` and `rounding` are free texts, checked by `PolicyError`; an empty rounding is allowed. */
  datatype FeePolicy = FeePolicy(kind: string, value: real, currency: string, rounding: string,
                                 minFee: Option<int>, maxFee: Option<int>, version: string)

  function PolicyError(p: FeePolicy): Option<string> {
    if p.currency == "" then Some("currency is required")
    else if p.value < 0.0 then Some("fee value cannot be negative")
    else if p.kind == PERCENT && p.value > 100.0 then Some("percent fee cannot exceed 100")
    else if p.kind == FIXED && p.value != p.value.Floor as real then Some("fixed fee must be integer value")
    else if p.kind == FREE && p.value != 0.0 then Some("free fee value must be 0")
    else if p.kind != PERCENT && p.kind != FIXED && p.kind != FREE then Some("unsupported fee type")
    else if p.rounding != NEAREST && p.rounding != FLOOR && p.rounding != CEIL && p.rounding != "" then
      Some("unsupported rounding rule")
    else if p.minFee.Some? && p.maxFee.Some? && p.minFee.value > p.maxFee.value then
      Some("min fee cannot exceed max fee")
    else if p.minFee.Some? && p.minFee.value < 0 then Some("min fee cannot be negative")
    else if p.maxFee.Some? && p.maxFee.value < 0 then Some("max fee cannot be negative")
    else None
  }

  predicate ValidPolicy(p: FeePolicy) { PolicyError(p).None? }

  function Ceiling(x: real): int { -((-x).Floor) }

  /** math.Round: the nearest integer, halves away from zero. */
  function Nearest(x: real): int {
    if x >= 0.0 then (x + 0.5).Floor else -((-x + 0.5).Floor)
  }

  function Round(rule: string, x: real): int {
    if rule == CEIL then Ceiling(x) else if rule == FLOOR then x.Floor else Nearest(x)
  }

  function Clamp(p: FeePolicy, amount: int): int {
    var low := if p.minFee.Some? && amount < p.minFee.value then p.minFee.value else amount;
    if p.maxFee.Some? && low > p.maxFee.value then p.maxFee.value else low
  }

  /** The fee before rounding and clamping. */
  function RawFee(p: FeePolicy, gross: int): real {
    if p.kind == PERCENT then gross as real * (p.value / 100.0)
    else if p.kind == FIXED then p.value
    else 0.0
  }

  function CalculateHostFee(p: FeePolicy, gross: int): Result<int> {
    if PolicyError(p).Some? then Err(PolicyError(p).value)
    else if gross <= 0 || p.kind == FREE then Ok(0)
    else Ok(Clamp(p, Round(p.rounding, RawFee(p, gross))))
  }

  /** The provider's cut, in percent of the price. */
  const PROVIDER_FEE: real := 2.5

  function ProviderFee(gross: int): int {
    var fee := Nearest(gross as real * (PROVIDER_FEE / 100.0));
    if fee < 0 then 0 else fee
  }

  /** The digest of a policy's JSON form, kept symbolic: the policy itself stands for its hash.
      A ledger rebuilt by a webhook carries the snapshot's name instead of a hash. */
  datatype Checksum = PayloadHash(policy: FeePolicy) | SnapshotName(snapshotID: string)

  function SnapshotID(p: FeePolicy): string { "policy-" + p.version }

  // ---------- products and provider accounts ----------

  datatype Product = Product(id: string, hostID: string, name: string, sku: string, price: int, isActive: bool,
                             meta: map<string, string>, feeOverride: Option<FeePolicy>)

  function ProductError(p: Product): Option<string> {
    if p.id == "" then Some("product id is required")
    else if p.hostID == "" then Some("host id is required")
    else if p.name == "" then Some("product name is required")
    else if p.price < 0 then Some("product price cannot be negative")
    else if p.feeOverride.Some? && PolicyError(p.feeOverride.value).Some? then
      Some("product fee override invalid: " + PolicyError(p.feeOverride.value).value)
    else None
  }

  datatype Account = Account(hostID: string, provider: string, env: string, credentialsHash: string,
                             publicConfig: map<string, string>)

  function AccountError(a: Account): Option<string> {
    if a.hostID == "" then Some("host id is required")
    else if a.provider == "" then Some("provider is required")
    else if a.env == "" then Some("environment is required")
    else if a.credentialsHash == "" then Some("credentials hash is required")
    else None
  }

  // ---------- orders and ledgers ----------

  datatype Order = Order(id: string, reference: string, hostID: string, productID: string, provider: string,
                         currency: string, env: string, status: Status,
                         gross: int, hostFee: int, providerFee: int, net: int,
                         buyerRef: string, snapshotID: string, providerReference: string, checkoutURL: string)

  datatype Ledger = Ledger(orderID: string, gross: int, hostFee: int, providerFee: int, net: int,
                           checksum: Checksum, key: string)
}
