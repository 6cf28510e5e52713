/** The whole SQLite schema with its foreign keys, enforced statement by statement, and the store over it
    (internal/storage/sqlite.go:44-142, 250-296, 361-439, 492-533, 566-610). */
module Databases {
  import opened Prelude
  import opened Domain
  import opened Accounts
  import opened Catalogues
  import T = Tables

  // ---------- rows ----------

  /** A products row: the fee override is spread over nullable columns. */
  datatype ProductRow = ProductRow(id: string, hostID: string, name: string, sku: string, price: int, isActive: int,
                                   meta: map<string, string>, kind: Option<string>, value: Option<real>,
                                   currency: Option<string>, rounding: Option<string>,
                                   minFee: Option<int>, maxFee: Option<int>, version: Option<string>)

  function ToRow(p: Product): ProductRow {
    var active := if p.isActive then 1 else 0;
    match p.feeOverride
    case None =>
      ProductRow(p.id, p.hostID, p.name, p.sku, p.price, active, p.meta, None, None, None, None, None, None, None)
    case Some(f) =>
      ProductRow(p.id, p.hostID, p.name, p.sku, p.price, active, p.meta, Some(f.kind), Some(f.value), Some(f.currency),
                 Some(f.rounding), f.minFee, f.maxFee, Some(f.version))
  }

  function ScanProduct(r: ProductRow): Product {
    var feeOverride :=
      if r.kind.Some? && r.currency.Some? && r.rounding.Some? && r.value.Some? then
        Some(FeePolicy(r.kind.value, r.value.value, r.currency.value, r.rounding.value, r.minFee, r.maxFee,
                       if r.version.Some? then r.version.value else ""))
      else None;
    Product(r.id, r.hostID, r.name, r.sku, r.price, r.isActive == 1, r.meta, feeOverride)
  }

  /** A product read back is the product stored, with or without an override. */
  lemma ProductRoundTrip(p: Product)
    ensures ScanProduct(ToRow(p)) == p
  {
  }

  datatype Database = Database(hosts: map<string, Host>, policies: map<string, FeePolicy>, accounts: seq<Account>,
                               products: map<string, ProductRow>, tables: T.Tables)

  const EMPTY_DATABASE := Database(map[], map[], [], map[], T.EMPTY_TABLES)

  // ---------- the foreign keys ----------

  predicate OrderNamesHost(row: T.OrderRow, hostID: string) { row.columns.hostID == hostID }

  predicate OrderNamesProduct(row: T.OrderRow, productID: string) { row.columns.productID == productID }

  predicate HasOrderRow(t: T.Tables, id: nat) { exists i | 0 <= i < |t.orders| :: t.orders[i].id == id }

  /** Every foreign key points at an existing row. */
  ghost predicate Closed(db: Database) {
    && (forall id | id in db.policies :: id in db.hosts)
    && (forall i | 0 <= i < |db.accounts| :: db.accounts[i].hostID in db.hosts)
    && (forall id | id in db.products :: db.products[id].hostID in db.hosts)
    && (forall i | 0 <= i < |db.tables.orders| ::
          db.tables.orders[i].columns.hostID in db.hosts && db.tables.orders[i].columns.productID in db.products)
    && (forall i | 0 <= i < |db.tables.ledgers| :: HasOrderRow(db.tables, db.tables.ledgers[i].orderRow))
  }

  /** Primary keys are stored in their rows, and references are unique. */
  ghost predicate Keyed(db: Database) {
    && (forall id | id in db.hosts :: db.hosts[id].id == id)
    && (forall id | id in db.products :: db.products[id].id == id)
    && T.UniqueReferences(db.tables)
  }

  // ---------- statements ----------

  const FOREIGN_KEY := "FOREIGN KEY constraint failed"
  const HOST_HAS_ORDERS := "cannot delete host with existing orders"

  function UpsertHost(db: Database, h: Host): Result<Database> { Ok(db.(hosts := db.hosts[h.id := h])) }

  function UpsertPolicy(db: Database, hostID: string, p: FeePolicy): Result<Database> {
    if hostID in db.hosts then Ok(db.(policies := db.policies[hostID := p])) else Err(FOREIGN_KEY)
  }

  function UpsertProduct(db: Database, p: Product): Result<Database> {
    if p.hostID in db.hosts then Ok(db.(products := db.products[p.id := ToRow(p)])) else Err(FOREIGN_KEY)
  }

  function SlotIndex(rows: seq<Account>, a: Account, from: nat := 0): (i: nat)
    requires from <= |rows|
    ensures from <= i <= |rows|
    ensures i < |rows| ==> rows[i].hostID == a.hostID && Matches(rows[i], a.provider, a.env)
    ensures forall j | from <= j < i :: !(rows[j].hostID == a.hostID && Matches(rows[j], a.provider, a.env))
    decreases |rows| - from
  {
    if from == |rows| || (rows[from].hostID == a.hostID && Matches(rows[from], a.provider, a.env)) then from
    else SlotIndex(rows, a, from + 1)
  }

  function UpsertAccount(db: Database, a: Account): Result<Database> {
    var i := SlotIndex(db.accounts, a);
    if a.hostID !in db.hosts then Err(FOREIGN_KEY)
    else Ok(db.(accounts := if i < |db.accounts| then db.accounts[i := a] else db.accounts + [a]))
  }

  /** The WHERE conditions used on account rows. */
  datatype AccountFilter =
    | OfHost(hostID: string)
    | NotOfHost(hostID: string)
    | NotAt(hostID: string, provider: string, env: string)
  {
    predicate Keeps(a: Account) {
      match this
      case OfHost(id) => a.hostID == id
      case NotOfHost(id) => a.hostID != id
      case NotAt(id, provider, env) => !(a.hostID == id && Matches(a, provider, env))
    }
  }

  function KeepAccounts(rows: seq<Account>, f: AccountFilter): (r: seq<Account>)
    ensures forall a | a in r :: a in rows && f.Keeps(a)
    ensures forall a | a in rows && f.Keeps(a) :: a in r
  {
    if rows == [] then []
    else
      var rest := KeepAccounts(rows[..|rows| - 1], f);
      assert rows == rows[..|rows| - 1] + [rows[|rows| - 1]];
      if f.Keeps(rows[|rows| - 1]) then rest + [rows[|rows| - 1]] else rest
  }

  function DeleteAccount(db: Database, hostID: string, provider: string, env: string): Database {
    db.(accounts := KeepAccounts(db.accounts, NotAt(hostID, provider, env)))
  }

  function DeleteAccountsOf(db: Database, hostID: string): Database {
    db.(accounts := KeepAccounts(db.accounts, NotOfHost(hostID)))
  }

  function DeletePolicyOf(db: Database, hostID: string): Database { db.(policies := db.policies - {hostID}) }

  /** Deleting products fails if an order refers to one of them. */
  function DeleteProducts(db: Database, ids: set<string>): Result<Database> {
    if exists i | 0 <= i < |db.tables.orders| :: db.tables.orders[i].columns.productID in ids then Err(FOREIGN_KEY)
    else Ok(db.(products := db.products - ids))
  }

  function ProductsOf(db: Database, hostID: string): set<string> {
    set id | id in db.products && db.products[id].hostID == hostID
  }

  /** Deleting a host row fails if any row of another table refers to it. */
  function DeleteHostRow(db: Database, hostID: string): Result<Database> {
    if hostID in db.policies
       || (exists i | 0 <= i < |db.accounts| :: db.accounts[i].hostID == hostID)
       || (exists id | id in db.products :: db.products[id].hostID == hostID)
       || (exists i | 0 <= i < |db.tables.orders| :: OrderNamesHost(db.tables.orders[i], hostID))
    then Err(FOREIGN_KEY)
    else Ok(db.(hosts := db.hosts - {hostID}))
  }

  predicate HostHasOrders(db: Database, hostID: string) {
    exists i | 0 <= i < |db.tables.orders| :: OrderNamesHost(db.tables.orders[i], hostID)
  }

  /** The transaction: count the orders, then children before the parent. */
  function DeleteHost(db: Database, hostID: string): Result<Database> {
    if HostHasOrders(db, hostID) then Err(HOST_HAS_ORDERS)
    else
      var tx := DeleteAccountsOf(db, hostID);
      match DeleteProducts(tx, ProductsOf(tx, hostID))
      case Err(e) => Err(e)
      case Ok(tx2) => DeleteHostRow(DeletePolicyOf(tx2, hostID), hostID)
  }

  /** The order's own foreign keys; the ledger row always refers to the order row just written. */
  predicate OrderKeysExist(db: Database, order: Order) { order.hostID in db.hosts && order.productID in db.products }

  function SaveOrder(db: Database, order: Order, ledger: Ledger): Result<Database> {
    if !OrderKeysExist(db, order) then Err(FOREIGN_KEY)
    else Ok(db.(tables := T.SaveOrder(db.tables, order, ledger)))
  }

  // ---------- deleting a host ----------

  predicate ProductHasOrders(db: Database, productID: string) {
    exists i | 0 <= i < |db.tables.orders| :: OrderNamesProduct(db.tables.orders[i], productID)
  }

  /** An order, necessarily of another host, refers to a product this host owns now. */
  predicate OwnsOrderedProduct(db: Database, hostID: string) {
    exists id | id in db.products :: db.products[id].hostID == hostID && ProductHasOrders(db, id)
  }

  ghost predicate Names(db: Database, hostID: string) {
    || hostID in db.hosts || hostID in db.policies
    || (exists i | 0 <= i < |db.accounts| :: db.accounts[i].hostID == hostID)
    || (exists id | id in db.products :: db.products[id].hostID == hostID)
    || HostHasOrders(db, hostID)
  }

  lemma ProductStatement(db: Database, hostID: string)
    requires Closed(db)
    ensures DeleteProducts(db, ProductsOf(db, hostID)).Ok? <==> !OwnsOrderedProduct(db, hostID)
  {
  }

  lemma AccountStatement(db: Database, hostID: string)
    requires Closed(db)
    ensures Closed(DeleteAccountsOf(db, hostID))
    ensures forall i | 0 <= i < |DeleteAccountsOf(db, hostID).accounts| ::
              DeleteAccountsOf(db, hostID).accounts[i].hostID != hostID
  {
    var kept := DeleteAccountsOf(db, hostID).accounts;
    forall i | 0 <= i < |kept| ensures kept[i].hostID != hostID && kept[i].hostID in db.hosts {
      assert kept[i] in kept;
    }
  }

  /** DeleteHost succeeds exactly when the host has no orders and owns no ordered product. Then no row names the
      host, every other row is as before, and no foreign key dangles. */
  lemma DeleteHostIff(db: Database, hostID: string)
    requires Closed(db)
    ensures DeleteHost(db, hostID).Ok? <==> !HostHasOrders(db, hostID) && !OwnsOrderedProduct(db, hostID)
    ensures DeleteHost(db, hostID).Ok? ==>
              var after := DeleteHost(db, hostID).value;
              && Closed(after) && !Names(after, hostID)
              && after == Database(db.hosts - {hostID}, db.policies - {hostID},
                                   KeepAccounts(db.accounts, NotOfHost(hostID)),
                                   db.products - ProductsOf(db, hostID), db.tables)
  {
    var tx := DeleteAccountsOf(db, hostID);
    AccountStatement(db, hostID);
    ProductStatement(tx, hostID);
    assert OwnsOrderedProduct(tx, hostID) == OwnsOrderedProduct(db, hostID) by {
      assert forall id :: ProductHasOrders(tx, id) == ProductHasOrders(db, id);
    }
    var deletion := DeleteProducts(tx, ProductsOf(tx, hostID));
    if !HostHasOrders(db, hostID) && deletion.Ok? {
      ChildrenGone(db, tx, deletion.value, hostID);
    }
  }

  lemma ChildrenGone(db: Database, tx: Database, tx2: Database, hostID: string)
    requires Closed(db) && tx == DeleteAccountsOf(db, hostID) && Closed(tx) && !HostHasOrders(db, hostID)
    requires forall i | 0 <= i < |tx.accounts| :: tx.accounts[i].hostID != hostID
    requires DeleteProducts(tx, ProductsOf(tx, hostID)) == Ok(tx2)
    ensures var tx3 := DeletePolicyOf(tx2, hostID);
            && DeleteHostRow(tx3, hostID) == Ok(tx3.(hosts := tx3.hosts - {hostID}))
            && Closed(tx3.(hosts := tx3.hosts - {hostID})) && !Names(tx3.(hosts := tx3.hosts - {hostID}), hostID)
  {
    var tx3 := DeletePolicyOf(tx2, hostID);
    assert tx3.tables == db.tables && tx3.accounts == tx.accounts;
    forall id | id in tx3.products ensures tx3.products[id].hostID != hostID && tx3.products[id] == db.products[id] {
      assert id !in ProductsOf(tx, hostID);
    }
    forall i | 0 <= i < |db.tables.orders|
      ensures db.tables.orders[i].columns.productID in tx3.products
      ensures db.tables.orders[i].columns.hostID != hostID
    {
      assert !OrderNamesHost(db.tables.orders[i], hostID);
      assert db.tables.orders[i].columns.productID !in ProductsOf(tx, hostID);
    }
  }

  /** A product with orders that is upserted to another host blocks that host's deletion, though the host itself
      has no order. */
  lemma ReownedProductBlocks(db: Database, p: Product)
    requires Closed(db) && ProductHasOrders(db, p.id)
    requires p.hostID in db.hosts && !HostHasOrders(db, p.hostID)
    ensures UpsertProduct(db, p).Ok?
    ensures DeleteHost(UpsertProduct(db, p).value, p.hostID) == Err("FOREIGN KEY constraint failed")
  {
  }

  // ---------- runs of the store ----------

  datatype StoreOp = Admin(op: AdminOp) | Save(order: Order, ledger: Ledger)

  /** What the service asks of the store after checking the entry; an error leaves the database alone. */
  function Execute(db: Database, op: StoreOp): Result<Database> {
    match op
    case Save(order, ledger) => SaveOrder(db, order, ledger)
    case Admin(a) =>
      if AdminError(a).Some? then Err(AdminError(a).value)
      else
        match a
        case RegisterHost(h) => UpsertHost(db, h)
        case RegisterProduct(p) => UpsertProduct(db, p)
        case RegisterAccount(acct) => UpsertAccount(db, acct)
        case RegisterPolicy(id, p) => UpsertPolicy(db, id, p)
        case DeleteHost(id) => DeleteHost(db, id)
        case DeleteProduct(id) => DeleteProducts(db, {id} * db.products.Keys)
        case DeleteAccount(id, provider, env) => Ok(DeleteAccount(db, id, provider, env))
  }

  function Apply(db: Database, op: StoreOp): Database {
    match Execute(db, op)
    case Ok(after) => after
    case Err(_) => db
  }

  function ApplyAll(db: Database, ops: seq<StoreOp>): Database {
    if ops == [] then db else Apply(ApplyAll(db, ops[..|ops| - 1]), ops[|ops| - 1])
  }

  function AccountsOf(rows: seq<Account>, hostID: string): seq<Account> { KeepAccounts(rows, OfHost(hostID)) }

  /** The catalogue as the service reads it from the tables. */
  function CatalogueOf(db: Database): Catalogue {
    Catalogue(db.hosts, map id | id in db.products :: ScanProduct(db.products[id]), db.policies,
              map id | id in db.hosts :: AccountsOf(db.accounts, id))
  }

  ghost predicate Linked(db: Database) { Closed(db) && Keyed(db) }

  lemma SaveKeepsLinked(db: Database, order: Order, ledger: Ledger)
    requires Linked(db) && OrderKeysExist(db, order)
    ensures Linked(SaveOrder(db, order, ledger).value)
  {
    T.SaveRows(db.tables, order, ledger);
    SaveKeepsUnique(db.tables, order, ledger);
    var t, t' := db.tables, T.SaveOrder(db.tables, order, ledger);
    forall i | 0 <= i < |t'.ledgers| ensures HasOrderRow(t', t'.ledgers[i].orderRow) {
      if i < |t.ledgers| {
        assert HasOrderRow(t, t.ledgers[i].orderRow);
        var j :| 0 <= j < |t.orders| && t.orders[j].id == t.ledgers[i].orderRow;
        assert t'.orders[j].id == t.ledgers[i].orderRow;
      }
    }
  }

  lemma SaveKeepsUnique(t: T.Tables, order: Order, ledger: Ledger)
    requires T.UniqueReferences(t)
    ensures T.UniqueReferences(T.SaveOrder(t, order, ledger))
  {
  }

  lemma ProductKeepsLinked(db: Database, p: Product)
    requires Linked(db) && p.hostID in db.hosts
    ensures Linked(UpsertProduct(db, p).value)
  {
  }

  lemma AccountKeepsLinked(db: Database, a: Account)
    requires Linked(db) && a.hostID in db.hosts
    ensures Linked(UpsertAccount(db, a).value)
  {
  }

  lemma KeptAccountsLinked(db: Database, kept: seq<Account>)
    requires Linked(db) && forall a | a in kept :: a in db.accounts
    ensures Linked(db.(accounts := kept))
  {
    forall i | 0 <= i < |kept| ensures kept[i].hostID in db.hosts { assert kept[i] in db.accounts; }
  }

  lemma HostKeepsLinked(db: Database, h: Host)
    requires Linked(db)
    ensures Linked(UpsertHost(db, h).value)
  {
  }

  lemma PolicyKeepsLinked(db: Database, hostID: string, p: FeePolicy)
    requires Linked(db) && hostID in db.hosts
    ensures Linked(UpsertPolicy(db, hostID, p).value)
  {
  }

  lemma DeletionKeepsLinked(db: Database, ids: set<string>)
    requires Linked(db) && DeleteProducts(db, ids).Ok?
    ensures Linked(DeleteProducts(db, ids).value)
  {
  }

  lemma HostDeletionKeepsLinked(db: Database, hostID: string)
    requires Linked(db)
    ensures DeleteHost(db, hostID).Ok? ==> Linked(DeleteHost(db, hostID).value)
  {
    DeleteHostIff(db, hostID);
  }

  lemma AdminKeepsLinked(db: Database, a: AdminOp)
    requires Linked(db) && Execute(db, Admin(a)).Ok?
    ensures Linked(Execute(db, Admin(a)).value)
  {
    match a
    case RegisterHost(h) => HostKeepsLinked(db, h);
    case RegisterPolicy(id, p) => PolicyKeepsLinked(db, id, p);
    case DeleteProduct(id) => DeletionKeepsLinked(db, {id} * db.products.Keys);
    case RegisterProduct(p) => ProductKeepsLinked(db, p);
    case RegisterAccount(acct) => AccountKeepsLinked(db, acct);
    case DeleteHost(id) => HostDeletionKeepsLinked(db, id);
    case DeleteAccount(id, provider, env) => KeptAccountsLinked(db, DeleteAccount(db, id, provider, env).accounts);
  }

  // ---------- when only orders stop a deletion ----------

  /** A save names a product of its host, and a registration leaves ordered products with their host. */
  predicate KeepsOwners(db: Database, op: StoreOp) {
    match op
    case Save(order, _) =>
      order.productID in db.products ==> db.products[order.productID].hostID == order.hostID
    case Admin(RegisterProduct(p)) =>
      p.id in db.products && ProductHasOrders(db, p.id) ==> p.hostID == db.products[p.id].hostID
    case _ => true
  }

  predicate AllKeepOwners(ops: seq<StoreOp>) {
    ops == []
    || (AllKeepOwners(ops[..|ops| - 1]) && KeepsOwners(ApplyAll(EMPTY_DATABASE, ops[..|ops| - 1]), ops[|ops| - 1]))
  }

  /** Every order names a product that its host owns now. */
  ghost predicate OrdersWithOwners(db: Database) {
    forall i | 0 <= i < |db.tables.orders| ::
      var columns := db.tables.orders[i].columns;
      columns.productID in db.products && db.products[columns.productID].hostID == columns.hostID
  }

  lemma SaveKeepsOwners(db: Database, order: Order, ledger: Ledger)
    requires OrdersWithOwners(db) && OrderKeysExist(db, order)
    requires db.products[order.productID].hostID == order.hostID
    ensures OrdersWithOwners(SaveOrder(db, order, ledger).value)
  {
    T.SaveRows(db.tables, order, ledger);
  }

  lemma ProductKeepsOwners(db: Database, p: Product)
    requires OrdersWithOwners(db) && UpsertProduct(db, p).Ok? && KeepsOwners(db, Admin(RegisterProduct(p)))
    ensures OrdersWithOwners(UpsertProduct(db, p).value)
  {
    forall i | 0 <= i < |db.tables.orders| && db.tables.orders[i].columns.productID == p.id
      ensures p.hostID == db.tables.orders[i].columns.hostID
    {
      assert OrderNamesProduct(db.tables.orders[i], p.id);
    }
  }

  lemma HostDeletionKeepsOwners(db: Database, hostID: string)
    requires OrdersWithOwners(db) && Closed(db) && DeleteHost(db, hostID).Ok?
    ensures OrdersWithOwners(DeleteHost(db, hostID).value)
  {
    DeleteHostIff(db, hostID);
    forall i | 0 <= i < |db.tables.orders|
      ensures db.tables.orders[i].columns.productID !in ProductsOf(db, hostID)
    {
      assert OrderNamesProduct(db.tables.orders[i], db.tables.orders[i].columns.productID);
    }
  }

  lemma ApplyKeepsOwners(db: Database, op: StoreOp)
    requires OrdersWithOwners(db) && Closed(db) && KeepsOwners(db, op)
    ensures OrdersWithOwners(Apply(db, op))
  {
    if Execute(db, op).Ok? {
      match op
      case Save(order, ledger) => SaveKeepsOwners(db, order, ledger);
      case Admin(RegisterProduct(p)) => ProductKeepsOwners(db, p);
      case Admin(DeleteHost(id)) => HostDeletionKeepsOwners(db, id);
      case _ =>
    }
  }

  lemma {:induction false} RunKeepsOwners(ops: seq<StoreOp>)
    requires AllKeepOwners(ops)
    ensures OrdersWithOwners(ApplyAll(EMPTY_DATABASE, ops))
  {
    if ops != [] {
      RunKeepsOwners(ops[..|ops| - 1]);
      StoreStaysSound(ops[..|ops| - 1]);
      ApplyKeepsOwners(ApplyAll(EMPTY_DATABASE, ops[..|ops| - 1]), ops[|ops| - 1]);
    }
  }

  /** Unless some operation saved an order under a product of another host, or gave an ordered product to another
      host, a host is deleted exactly when it has no orders: no foreign key gets in the way. */
  lemma {:induction false} OnlyOrdersStopDeletion(ops: seq<StoreOp>, hostID: string)
    requires AllKeepOwners(ops)
    ensures var db := ApplyAll(EMPTY_DATABASE, ops);
            && (DeleteHost(db, hostID).Ok? <==> !HostHasOrders(db, hostID))
            && (DeleteHost(db, hostID).Err? ==>
                  DeleteHost(db, hostID).error == "cannot delete host with existing orders")
  {
    RunKeepsOwners(ops);
    StoreStaysSound(ops);
    OwnersLeaveNoKey(ApplyAll(EMPTY_DATABASE, ops), hostID);
  }

  lemma OwnersLeaveNoKey(db: Database, hostID: string)
    requires Closed(db) && OrdersWithOwners(db)
    ensures DeleteHost(db, hostID).Ok? <==> !HostHasOrders(db, hostID)
    ensures DeleteHost(db, hostID).Err? ==> DeleteHost(db, hostID).error == HOST_HAS_ORDERS
  {
    DeleteHostIff(db, hostID);
    forall id | id in db.products && db.products[id].hostID == hostID && ProductHasOrders(db, id)
      ensures HostHasOrders(db, hostID)
    {
      var i :| 0 <= i < |db.tables.orders| && OrderNamesProduct(db.tables.orders[i], id);
      assert OrderNamesHost(db.tables.orders[i], hostID);
    }
  }

  // ---------- valid entries ----------

  ghost predicate ValidEntries(db: Database) {
    && (forall id | id in db.hosts :: HostError(db.hosts[id]).None?)
    && (forall id | id in db.products :: ProductError(ScanProduct(db.products[id])).None?)
    && (forall id | id in db.policies :: ValidPolicy(db.policies[id]))
    && (forall a | a in db.accounts :: AccountError(a).None?)
  }

  lemma AdminKeepsEntries(db: Database, a: AdminOp)
    requires ValidEntries(db) && Execute(db, Admin(a)).Ok?
    ensures ValidEntries(Execute(db, Admin(a)).value)
  {
    match a
    case RegisterProduct(p) => ProductRoundTrip(p);
    case RegisterAccount(acct) =>
      var after := UpsertAccount(db, acct).value;
      forall x | x in after.accounts ensures AccountError(x).None? {
        assert x == acct || x in db.accounts;
      }
    case DeleteHost(id) => DeletedEntries(db, id);
    case _ =>
  }

  lemma DeletedEntries(db: Database, hostID: string)
    requires ValidEntries(db) && DeleteHost(db, hostID).Ok?
    ensures ValidEntries(DeleteHost(db, hostID).value)
  {
  }

  lemma ApplyKeeps(db: Database, op: StoreOp)
    requires Linked(db) && ValidEntries(db)
    ensures Linked(Apply(db, op)) && ValidEntries(Apply(db, op))
  {
    if Execute(db, op).Ok? {
      match op
      case Save(order, ledger) => SaveKeepsLinked(db, order, ledger);
      case Admin(a) =>
        AdminKeepsLinked(db, a);
        AdminKeepsEntries(db, a);
    }
  }

  /** After any sequence of operations, refused ones included, no foreign key dangles, and the catalogue read
      from the tables holds valid entries only. */
  lemma {:induction false} StoreStaysSound(ops: seq<StoreOp>)
    ensures Closed(ApplyAll(EMPTY_DATABASE, ops)) && Keyed(ApplyAll(EMPTY_DATABASE, ops))
    ensures ValidEntries(ApplyAll(EMPTY_DATABASE, ops)) && ValidCatalogue(CatalogueOf(ApplyAll(EMPTY_DATABASE, ops)))
  {
    if ops != [] {
      StoreStaysSound(ops[..|ops| - 1]);
      ApplyKeeps(ApplyAll(EMPTY_DATABASE, ops[..|ops| - 1]), ops[|ops| - 1]);
    }
    EntriesMakeCatalogue(ApplyAll(EMPTY_DATABASE, ops));
  }

  lemma EntriesMakeCatalogue(db: Database)
    requires Keyed(db) && ValidEntries(db)
    ensures ValidCatalogue(CatalogueOf(db))
  {
  }
}
