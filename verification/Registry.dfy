/** What the catalogue holds after any administration: each entry is the latest valid registration that nothing has
    removed since, and the SQLite tables hold what the registry would
    (internal/orchestration/orchestrator.go:416-472, 685-749, internal/storage/sqlite.go:145-358, 566-610). */
module Registry {
  import opened Prelude
  import opened Domain
  import opened Accounts
  import opened Catalogues
  import D = Databases

  // ---------- the registry is its history ----------

  /** The i-th operation registered this host, and no later one registered its id again or deleted it. */
  ghost predicate HostFrom(ops: seq<AdminOp>, i: int, id: string, h: Host) {
    && 0 <= i < |ops| && ops[i] == RegisterHost(h) && h.id == id && HostError(h).None?
    && forall j | i < j < |ops| ::
         ops[j] != DeleteHost(id) && !(ops[j].RegisterHost? && ops[j].host.id == id && HostError(ops[j].host).None?)
  }

  /** The same for a product, which goes with its host, too. */
  ghost predicate ProductFrom(ops: seq<AdminOp>, i: int, id: string, p: Product) {
    && 0 <= i < |ops| && ops[i] == RegisterProduct(p) && p.id == id && ProductError(p).None?
    && forall j | i < j < |ops| ::
         && ops[j] != DeleteProduct(id) && ops[j] != DeleteHost(p.hostID)
         && !(ops[j].RegisterProduct? && ops[j].product.id == id && ProductError(ops[j].product).None?)
  }

  /** The same for a host's policy. */
  ghost predicate PolicyFrom(ops: seq<AdminOp>, i: int, id: string, p: FeePolicy) {
    && 0 <= i < |ops| && ops[i] == RegisterPolicy(id, p) && id != "" && ValidPolicy(p)
    && forall j | i < j < |ops| ::
         ops[j] != DeleteHost(id) && !(ops[j].RegisterPolicy? && ops[j].hostID == id && ValidPolicy(ops[j].policy))
  }

  ghost predicate HostsMatch(c: Catalogue, ops: seq<AdminOp>, id: string) {
    && (id in c.hosts ==> exists i :: HostFrom(ops, i, id, c.hosts[id]))
    && forall i, h | HostFrom(ops, i, id, h) :: id in c.hosts && c.hosts[id] == h
  }

  lemma HostHeld(c: Catalogue, front: seq<AdminOp>, op: AdminOp, id: string, i: int, h: Host)
    requires HostsMatch(c, front, id) && HostFrom(front + [op], i, id, h)
    ensures id in Administer(c, op).hosts && Administer(c, op).hosts[id] == h
  {
    var ops := front + [op];
    assert forall j | 0 <= j < |front| :: ops[j] == front[j];
    if i < |front| {
      assert ops[|front|] == op;
      assert HostFrom(front, i, id, h);
    }
  }

  lemma HostSourced(c: Catalogue, front: seq<AdminOp>, op: AdminOp, id: string)
    requires HostsMatch(c, front, id) && id in Administer(c, op).hosts
    ensures exists i :: HostFrom(front + [op], i, id, Administer(c, op).hosts[id])
  {
    var h := Administer(c, op).hosts[id];
    if op == RegisterHost(h) && HostError(h).None? && h.id == id {
      assert HostFrom(front + [op], |front|, id, h);
    } else {
      var i :| HostFrom(front, i, id, c.hosts[id]);
      assert HostFrom(front + [op], i, id, h);
    }
  }

  /** A host is found exactly when some operation registered it and none has replaced or deleted it since. */
  lemma {:induction false} HostsAreHistory(ops: seq<AdminOp>, id: string)
    ensures HostsMatch(AdministerAll(EMPTY_CATALOGUE, ops), ops, id)
  {
    if ops != [] {
      var front, op := ops[..|ops| - 1], ops[|ops| - 1];
      var c := AdministerAll(EMPTY_CATALOGUE, front);
      assert ops == front + [op];
      HostsAreHistory(front, id);
      forall i, h | HostFrom(ops, i, id, h) { HostHeld(c, front, op, id, i, h); }
      if id in Administer(c, op).hosts { HostSourced(c, front, op, id); }
    }
  }

  ghost predicate ProductsMatch(c: Catalogue, ops: seq<AdminOp>, id: string) {
    && (id in c.products ==> exists i :: ProductFrom(ops, i, id, c.products[id]))
    && forall i, p | ProductFrom(ops, i, id, p) :: id in c.products && c.products[id] == p
  }

  lemma ProductHeld(c: Catalogue, front: seq<AdminOp>, op: AdminOp, id: string, i: int, p: Product)
    requires ProductsMatch(c, front, id) && ProductFrom(front + [op], i, id, p)
    ensures id in Administer(c, op).products && Administer(c, op).products[id] == p
  {
    var ops := front + [op];
    assert forall j | 0 <= j < |front| :: ops[j] == front[j];
    if i < |front| {
      assert ops[|front|] == op;
      assert ProductFrom(front, i, id, p);
    }
  }

  lemma ProductSourced(c: Catalogue, front: seq<AdminOp>, op: AdminOp, id: string)
    requires ProductsMatch(c, front, id) && id in Administer(c, op).products
    ensures exists i :: ProductFrom(front + [op], i, id, Administer(c, op).products[id])
  {
    var p := Administer(c, op).products[id];
    if op == RegisterProduct(p) && ProductError(p).None? && p.id == id {
      assert ProductFrom(front + [op], |front|, id, p);
    } else {
      var i :| ProductFrom(front, i, id, c.products[id]);
      assert ProductFrom(front + [op], i, id, p);
    }
  }

  lemma {:induction false} ProductsAreHistory(ops: seq<AdminOp>, id: string)
    ensures ProductsMatch(AdministerAll(EMPTY_CATALOGUE, ops), ops, id)
  {
    if ops != [] {
      var front, op := ops[..|ops| - 1], ops[|ops| - 1];
      var c := AdministerAll(EMPTY_CATALOGUE, front);
      assert ops == front + [op];
      ProductsAreHistory(front, id);
      forall i, p | ProductFrom(ops, i, id, p) { ProductHeld(c, front, op, id, i, p); }
      if id in Administer(c, op).products { ProductSourced(c, front, op, id); }
    }
  }

  ghost predicate PoliciesMatch(c: Catalogue, ops: seq<AdminOp>, id: string) {
    && (id in c.policies ==> exists i :: PolicyFrom(ops, i, id, c.policies[id]))
    && forall i, p | PolicyFrom(ops, i, id, p) :: id in c.policies && c.policies[id] == p
  }

  lemma PolicyHeld(c: Catalogue, front: seq<AdminOp>, op: AdminOp, id: string, i: int, p: FeePolicy)
    requires PoliciesMatch(c, front, id) && PolicyFrom(front + [op], i, id, p)
    ensures id in Administer(c, op).policies && Administer(c, op).policies[id] == p
  {
    var ops := front + [op];
    assert forall j | 0 <= j < |front| :: ops[j] == front[j];
    if i < |front| {
      assert ops[|front|] == op;
      assert PolicyFrom(front, i, id, p);
    }
  }

  lemma PolicySourced(c: Catalogue, front: seq<AdminOp>, op: AdminOp, id: string)
    requires PoliciesMatch(c, front, id) && id in Administer(c, op).policies
    ensures exists i :: PolicyFrom(front + [op], i, id, Administer(c, op).policies[id])
  {
    var p := Administer(c, op).policies[id];
    if op == RegisterPolicy(id, p) && id != "" && ValidPolicy(p) {
      assert PolicyFrom(front + [op], |front|, id, p);
    } else {
      var i :| PolicyFrom(front, i, id, c.policies[id]);
      assert PolicyFrom(front + [op], i, id, p);
    }
  }

  lemma {:induction false} PoliciesAreHistory(ops: seq<AdminOp>, id: string)
    ensures PoliciesMatch(AdministerAll(EMPTY_CATALOGUE, ops), ops, id)
  {
    if ops != [] {
      var front, op := ops[..|ops| - 1], ops[|ops| - 1];
      var c := AdministerAll(EMPTY_CATALOGUE, front);
      assert ops == front + [op];
      PoliciesAreHistory(front, id);
      forall i, p | PolicyFrom(ops, i, id, p) { PolicyHeld(c, front, op, id, i, p); }
      if id in Administer(c, op).policies { PolicySourced(c, front, op, id); }
    }
  }

  // ---------- the tables hold what the registry would ----------

  /** No two rows are for one host, provider and environment. */
  ghost predicate UniqueSlots(rows: seq<Account>) {
    forall i, j | 0 <= i < j < |rows| ::
      !(rows[i].hostID == rows[j].hostID && Matches(rows[i], rows[j].provider, rows[j].env))
  }

  /** Hosts, products and policies are equal; each host has the same accounts, in whatever order. */
  ghost predicate SameCatalogue(c: Catalogue, db: D.Database) {
    && db.hosts == c.hosts && db.policies == c.policies
    && D.CatalogueOf(db).products == c.products
    && UniqueSlots(db.accounts)
    && forall a: Account :: a in db.accounts <==> a in AccountsOf(c, a.hostID)
  }

  lemma {:induction false} InWithout(s: seq<Account>, provider: string, env: string, a: Account)
    ensures a in Without(s, provider, env) <==> a in s && !Matches(a, provider, env)
  {
    if s != [] {
      assert s == s[..|s| - 1] + [s[|s| - 1]];
      InWithout(s[..|s| - 1], provider, env, a);
    }
  }

  lemma AccountAdded(c: Catalogue, db: D.Database, a: Account)
    requires SameCatalogue(c, db) && a.hostID in db.hosts
    ensures UniqueSlots(D.UpsertAccount(db, a).value.accounts)
    ensures forall x: Account ::
              x in D.UpsertAccount(db, a).value.accounts
              <==> x == a || (x in db.accounts && !(x.hostID == a.hostID && Matches(x, a.provider, a.env)))
  {
    var rows, i := db.accounts, D.SlotIndex(db.accounts, a);
    var after := D.UpsertAccount(db, a).value.accounts;
    forall x: Account
      ensures x in after <==> x == a || (x in rows && !(x.hostID == a.hostID && Matches(x, a.provider, a.env)))
    {
      if x in rows && !(x.hostID == a.hostID && Matches(x, a.provider, a.env)) {
        var k :| 0 <= k < |rows| && rows[k] == x;
        assert after[k] == x;
      }
      if i < |rows| { assert after[i] == a; } else { assert after[|rows|] == a; }
    }
  }

  lemma RegisteredFollows(c: Catalogue, db: D.Database, a: Account)
    requires SameCatalogue(c, db) && a.hostID in db.hosts && AccountError(a).None?
    ensures SameCatalogue(Administer(c, RegisterAccount(a)), D.UpsertAccount(db, a).value)
  {
    AccountAdded(c, db, a);
    var c', db' := Administer(c, RegisterAccount(a)), D.UpsertAccount(db, a).value;
    forall x: Account ensures x in db'.accounts <==> x in AccountsOf(c', x.hostID) {
      InWithout(AccountsOf(c, a.hostID), a.provider, a.env, x);
    }
  }

  lemma KeptUnique(rows: seq<Account>, f: D.AccountFilter)
    requires UniqueSlots(rows)
    ensures UniqueSlots(D.KeepAccounts(rows, f))
  {
    if rows != [] {
      var front, last := rows[..|rows| - 1], rows[|rows| - 1];
      KeptUnique(front, f);
      var rest := D.KeepAccounts(front, f);
      forall i | 0 <= i < |rest| ensures !(rest[i].hostID == last.hostID && Matches(rest[i], last.provider, last.env)) {
        assert rest[i] in front;
      }
    }
  }

  lemma RemovedFollows(c: Catalogue, db: D.Database, id: string, provider: string, env: string)
    requires SameCatalogue(c, db)
    ensures SameCatalogue(Administer(c, DeleteAccount(id, provider, env)), D.DeleteAccount(db, id, provider, env))
  {
    var c', db' := Administer(c, DeleteAccount(id, provider, env)), D.DeleteAccount(db, id, provider, env);
    KeptUnique(db.accounts, D.NotAt(id, provider, env));
    forall x: Account ensures x in db'.accounts <==> x in AccountsOf(c', x.hostID) {
      InWithout(AccountsOf(c, id), provider, env, x);
    }
  }

  lemma HostDeletedFollows(c: Catalogue, db: D.Database, id: string)
    requires SameCatalogue(c, db) && D.Closed(db) && D.DeleteHost(db, id).Ok?
    ensures SameCatalogue(Administer(c, DeleteHost(id)), D.DeleteHost(db, id).value)
  {
    D.DeleteHostIff(db, id);
    KeptUnique(db.accounts, D.NotOfHost(id));
    var c', db' := Administer(c, DeleteHost(id)), D.DeleteHost(db, id).value;
    assert D.CatalogueOf(db).products.Keys == db.products.Keys;
    assert D.CatalogueOf(db').products == c'.products;
  }

  lemma EntryFollows(c: Catalogue, db: D.Database, op: AdminOp)
    requires SameCatalogue(c, db) && D.Execute(db, D.Admin(op)).Ok? && (op.RegisterHost? || op.RegisterPolicy?)
    ensures SameCatalogue(Administer(c, op), D.Execute(db, D.Admin(op)).value)
  {
  }

  lemma ProductFollows(c: Catalogue, db: D.Database, p: Product)
    requires SameCatalogue(c, db) && D.UpsertProduct(db, p).Ok? && ProductError(p).None?
    ensures SameCatalogue(Administer(c, RegisterProduct(p)), D.UpsertProduct(db, p).value)
  {
    D.ProductRoundTrip(p);
    var db' := D.UpsertProduct(db, p).value;
    assert D.CatalogueOf(db).products.Keys == db.products.Keys;
    assert D.CatalogueOf(db').products == c.products[p.id := p];
  }

  lemma ProductDeletedFollows(c: Catalogue, db: D.Database, id: string)
    requires SameCatalogue(c, db) && D.DeleteProducts(db, {id} * db.products.Keys).Ok?
    ensures SameCatalogue(Administer(c, DeleteProduct(id)), D.DeleteProducts(db, {id} * db.products.Keys).value)
  {
    var db' := D.DeleteProducts(db, {id} * db.products.Keys).value;
    assert D.CatalogueOf(db).products.Keys == db.products.Keys;
    assert D.CatalogueOf(db').products == c.products - {id};
  }

  lemma StepFollows(c: Catalogue, db: D.Database, op: AdminOp)
    requires SameCatalogue(c, db) && D.Closed(db) && D.Execute(db, D.Admin(op)).Ok?
    ensures SameCatalogue(Administer(c, op), D.Execute(db, D.Admin(op)).value)
  {
    if op.RegisterAccount? {
      RegisteredFollows(c, db, op.account);
    } else if op.DeleteAccount? {
      RemovedFollows(c, db, op.hostID, op.provider, op.env);
    } else if op.DeleteHost? {
      HostDeletedFollows(c, db, op.hostID);
    } else if op.RegisterProduct? {
      ProductFollows(c, db, op.product);
    } else if op.DeleteProduct? {
      ProductDeletedFollows(c, db, op.productID);
    } else {
      EntryFollows(c, db, op);
    }
  }

  /** The administration that the store did not refuse. */
  function Accepted(ops: seq<D.StoreOp>): seq<AdminOp> {
    if ops == [] then []
    else
      var before, op := Accepted(ops[..|ops| - 1]), ops[|ops| - 1];
      var db := D.ApplyAll(D.EMPTY_DATABASE, ops[..|ops| - 1]);
      if op.Admin? && D.Execute(db, op).Ok? then before + [op.op] else before
  }

  lemma {:induction false} TablesFollow(ops: seq<D.StoreOp>)
    ensures SameCatalogue(AdministerAll(EMPTY_CATALOGUE, Accepted(ops)), D.ApplyAll(D.EMPTY_DATABASE, ops))
  {
    if ops != [] {
      var front, op := ops[..|ops| - 1], ops[|ops| - 1];
      TablesFollow(front);
      D.StoreStaysSound(front);
      var db := D.ApplyAll(D.EMPTY_DATABASE, front);
      if op.Admin? && D.Execute(db, op).Ok? {
        var accepted := Accepted(ops);
        assert accepted[..|accepted| - 1] == Accepted(front);
        StepFollows(AdministerAll(EMPTY_CATALOGUE, Accepted(front)), db, op.op);
      } else {
        assert D.Apply(db, op).accounts == db.accounts;
      }
    }
  }

  /** Each host's list holds the same accounts in both catalogues, each of them once. */
  ghost predicate SameAccounts(c: Catalogue, d: Catalogue, id: string) {
    && (forall a: Account :: a in AccountsOf(d, id) <==> a in AccountsOf(c, id))
    && forall i, j | 0 <= i < j < |AccountsOf(d, id)| ::
         !(AccountsOf(d, id)[i].provider == AccountsOf(d, id)[j].provider
           && AccountsOf(d, id)[i].env == AccountsOf(d, id)[j].env)
  }

  lemma ReadAccountsSame(c: Catalogue, db: D.Database, id: string)
    requires SameCatalogue(c, db) && D.Closed(db) && ValidCatalogue(c)
    ensures SameAccounts(c, D.CatalogueOf(db), id)
  {
    var rows := AccountsOf(D.CatalogueOf(db), id);
    forall a: Account ensures a in rows <==> a in AccountsOf(c, id) {
      if a in AccountsOf(c, id) {
        assert ValidAccount(a, id);
        var i :| 0 <= i < |db.accounts| && db.accounts[i] == a;
      }
    }
    KeptUnique(db.accounts, D.OfHost(id));
    assert rows == [] || rows == D.KeepAccounts(db.accounts, D.OfHost(id));
    assert forall i | 0 <= i < |rows| :: rows[i] in rows && rows[i].hostID == id;
  }

  /** After any operations, the service reads from the tables the catalogue that the registry would hold after those
      that the store did not refuse, but for the order of a host's accounts. */
  lemma {:induction false} TablesFollowRegistry(ops: seq<D.StoreOp>, id: string)
    ensures var c, d := AdministerAll(EMPTY_CATALOGUE, Accepted(ops)), D.CatalogueOf(D.ApplyAll(D.EMPTY_DATABASE, ops));
            && d.hosts == c.hosts && d.products == c.products && d.policies == c.policies
            && SameAccounts(c, d, id)
  {
    TablesFollow(ops);
    D.StoreStaysSound(ops);
    CatalogueStaysValid(Accepted(ops));
    ReadAccountsSame(AdministerAll(EMPTY_CATALOGUE, Accepted(ops)), D.ApplyAll(D.EMPTY_DATABASE, ops), id);
  }
}
