/** The catalogue of hosts, products, policies and provider accounts, and the operations that fill it
    (internal/orchestration/orchestrator.go:416-472, 540-577, 685-749). */
module Catalogues {
  import opened Prelude
  import opened Domain
  import opened Accounts

  datatype Catalogue = Catalogue(hosts: map<string, Host>, products: map<string, Product>,
                                 policies: map<string, FeePolicy>, accounts: map<string, seq<Account>>)

  const EMPTY_CATALOGUE := Catalogue(map[], map[], map[], map[])

  function FindHost(c: Catalogue, id: string): Result<Host> {
    if id == "" then Err("host id is required")
    else if id in c.hosts then Ok(c.hosts[id])
    else Err("host not found")
  }

  function FindProduct(c: Catalogue, id: string): Result<Product> {
    if id == "" then Err("product id is required")
    else if id in c.products then Ok(c.products[id])
    else Err("product not found")
  }

  function FindHostPolicy(c: Catalogue, hostID: string): Result<FeePolicy> {
    if hostID in c.policies then Ok(c.policies[hostID]) else Err("policy not found")
  }

  function AccountsOf(c: Catalogue, hostID: string): seq<Account> {
    if hostID in c.accounts then c.accounts[hostID] else []
  }

  // ---------- administration ----------

  datatype AdminOp =
    | RegisterHost(host: Host)
    | RegisterProduct(product: Product)
    | RegisterAccount(account: Account)
    | RegisterPolicy(hostID: string, policy: FeePolicy)
    | DeleteHost(hostID: string)
    | DeleteProduct(productID: string)
    | DeleteAccount(hostID: string, provider: string, env: string)

  /** The error an operation is refused with, if any. */
  function AdminError(op: AdminOp): Option<string> {
    match op
    case RegisterHost(h) => HostError(h)
    case RegisterProduct(p) => ProductError(p)
    case RegisterAccount(a) => AccountError(a)
    case RegisterPolicy(id, p) =>
      if PolicyError(p).Some? then PolicyError(p) else if id == "" then Some("host id is required") else None
    case _ => None
  }

  /** The in-memory registry after an operation; a refused one changes nothing. */
  function Administer(c: Catalogue, op: AdminOp): Catalogue {
    if AdminError(op).Some? then c
    else
      match op
      case RegisterHost(h) => c.(hosts := c.hosts[h.id := h])
      case RegisterProduct(p) => c.(products := c.products[p.id := p])
      case RegisterAccount(a) => c.(accounts := c.accounts[a.hostID := Registered(AccountsOf(c, a.hostID), a)])
      case RegisterPolicy(id, p) => c.(policies := c.policies[id := p])
      case DeleteHost(id) =>
        Catalogue(c.hosts - {id}, map p | p in c.products && c.products[p].hostID != id :: c.products[p],
                  c.policies - {id}, c.accounts - {id})
      case DeleteProduct(id) => c.(products := c.products - {id})
      case DeleteAccount(id, provider, env) =>
        c.(accounts := c.accounts[id := Without(AccountsOf(c, id), provider, env)])
  }

  function AdministerAll(c: Catalogue, ops: seq<AdminOp>): Catalogue {
    if ops == [] then c else Administer(AdministerAll(c, ops[..|ops| - 1]), ops[|ops| - 1])
  }

  // ---------- the history of a host's accounts ----------

  /** The operations that shaped a host's account list: its own registrations and deletions that were not refused,
      since it was last deleted. */
  function HostOps(ops: seq<AdminOp>, hostID: string): seq<AccountOp> {
    if ops == [] then []
    else
      var before, op := HostOps(ops[..|ops| - 1], hostID), ops[|ops| - 1];
      if AdminError(op).Some? then before
      else if op.RegisterAccount? && op.account.hostID == hostID then before + [Register(op.account)]
      else if op.DeleteAccount? && op.hostID == hostID then before + [Remove(op.provider, op.env)]
      else if op.DeleteHost? && op.hostID == hostID then []
      else before
  }

  lemma {:induction false} AccountsFollowOps(ops: seq<AdminOp>, hostID: string)
    ensures AccountsOf(AdministerAll(EMPTY_CATALOGUE, ops), hostID) == ApplyOps(HostOps(ops, hostID))
  {
    if ops != [] {
      AccountsFollowOps(ops[..|ops| - 1], hostID);
      AccountsAfter(AdministerAll(EMPTY_CATALOGUE, ops[..|ops| - 1]), ops[|ops| - 1], hostID);
    }
  }

  /** One operation, seen from one host's list. */
  lemma AccountsAfter(c: Catalogue, op: AdminOp, hostID: string)
    ensures var before, after := AccountsOf(c, hostID), AccountsOf(Administer(c, op), hostID);
            after == if AdminError(op).Some? then before
                     else if op.RegisterAccount? && op.account.hostID == hostID then Registered(before, op.account)
                     else if op.DeleteAccount? && op.hostID == hostID then Without(before, op.provider, op.env)
                     else if op.DeleteHost? && op.hostID == hostID then []
                     else before
  {
  }

  /** After any registry operations, a host's list holds what its own operations since its last deletion registered
      and neither replaced nor removed, ordered by latest registration; a provider is found exactly when some such
      account exists. */
  lemma AccountsAreHistory(ops: seq<AdminOp>, hostID: string, env: string)
    ensures var list, own := AccountsOf(AdministerAll(EMPTY_CATALOGUE, ops), hostID), HostOps(ops, hostID);
            && list == Survivors(own, |own|)
            && (Selection(list, env).Ok? <==> exists i: nat | i < |own| :: Survives(own, i))
  {
    AccountsFollowOps(ops, hostID);
    ListIsHistory(HostOps(ops, hostID));
    SelectionIsLive(HostOps(ops, hostID), env);
  }

  // ---------- validity ----------

  predicate ValidAccount(a: Account, hostID: string) { AccountError(a).None? && a.hostID == hostID }

  ghost predicate ValidCatalogue(c: Catalogue) {
    && (forall id | id in c.hosts :: HostError(c.hosts[id]).None? && c.hosts[id].id == id)
    && (forall id | id in c.products :: ProductError(c.products[id]).None? && c.products[id].id == id)
    && (forall id | id in c.policies :: ValidPolicy(c.policies[id]))
    && (forall id | id in c.accounts :: forall a | a in c.accounts[id] :: ValidAccount(a, id))
  }

  lemma {:induction false} WithoutKeepsOnly(s: seq<Account>, provider: string, env: string)
    ensures forall a | a in Without(s, provider, env) :: a in s
  {
    if s != [] { WithoutKeepsOnly(s[..|s| - 1], provider, env); }
  }

  lemma AdministerKeepsValid(c: Catalogue, op: AdminOp)
    requires ValidCatalogue(c)
    ensures ValidCatalogue(Administer(c, op))
  {
    match op
    case RegisterAccount(a) => WithoutKeepsOnly(AccountsOf(c, a.hostID), a.provider, a.env);
    case DeleteAccount(id, provider, env) => WithoutKeepsOnly(AccountsOf(c, id), provider, env);
    case _ =>
  }

  /** Whatever is registered and deleted, in any order, the catalogue holds valid entries only. */
  lemma {:induction false} CatalogueStaysValid(ops: seq<AdminOp>)
    ensures ValidCatalogue(AdministerAll(EMPTY_CATALOGUE, ops))
  {
    if ops != [] {
      CatalogueStaysValid(ops[..|ops| - 1]);
      AdministerKeepsValid(AdministerAll(EMPTY_CATALOGUE, ops[..|ops| - 1]), ops[|ops| - 1]);
    }
  }
}
