/** The store object: one database, changed by single statements and by transactions that work on a private
    copy until they commit (internal/storage/sqlite.go). */
module SqliteStores {
  import opened Prelude
  import opened Domain
  import opened Catalogues
  import opened Payments
  import D = Databases
  import T = Tables

  /** A constraint stops a statement before anything changes; what reaches its commit may still fail, applied or
      not. */
  predicate Committed(before: D.Database, r: Result<D.Database>, commit: SaveOutcome, after: D.Database,
                      error: Option<string>) {
    match r
    case Ok(db) =>
      && after == (if commit.SaveOk? || commit.applied then db else before)
      && error == if commit.SaveOk? then None else Some(commit.error)
    case Err(e) => after == before && error == Some(e)
  }

  class SqliteStore {
    var db: D.Database

    constructor ()
      ensures db == D.EMPTY_DATABASE
    {
      db := D.EMPTY_DATABASE;
    }

    method Commit(r: Result<D.Database>, commit: SaveOutcome) returns (error: Option<string>)
      modifies this
      ensures Committed(old(db), r, commit, db, error)
    {
      if r.Err? { return Some(r.error); }
      match commit
      case SaveOk =>
        db := r.value;
        error := None;
      case SaveFailed(e, applied) =>
        if applied { db := r.value; }
        error := Some(e);
    }

    method UpsertHost(h: Host, commit: SaveOutcome) returns (error: Option<string>)
      modifies this
      ensures Committed(old(db), D.UpsertHost(old(db), h), commit, db, error)
    {
      error := Commit(D.UpsertHost(db, h), commit);
    }

    method UpsertHostPolicy(hostID: string, p: FeePolicy, commit: SaveOutcome) returns (error: Option<string>)
      modifies this
      ensures Committed(old(db), D.UpsertPolicy(old(db), hostID, p), commit, db, error)
    {
      error := Commit(D.UpsertPolicy(db, hostID, p), commit);
    }

    method UpsertProduct(p: Product, commit: SaveOutcome) returns (error: Option<string>)
      modifies this
      ensures Committed(old(db), D.UpsertProduct(old(db), p), commit, db, error)
    {
      error := Commit(D.UpsertProduct(db, p), commit);
    }

    method UpsertProviderAccount(a: Account, commit: SaveOutcome) returns (error: Option<string>)
      modifies this
      ensures Committed(old(db), D.UpsertAccount(old(db), a), commit, db, error)
    {
      error := Commit(D.UpsertAccount(db, a), commit);
    }

    method DeleteProduct(id: string, commit: SaveOutcome) returns (error: Option<string>)
      modifies this
      ensures Committed(old(db), D.DeleteProducts(old(db), {id} * old(db).products.Keys), commit, db, error)
    {
      error := Commit(D.DeleteProducts(db, {id} * db.products.Keys), commit);
    }

    method DeleteProviderAccount(hostID: string, provider: string, env: string, commit: SaveOutcome)
      returns (error: Option<string>)
      modifies this
      ensures Committed(old(db), Ok(D.DeleteAccount(old(db), hostID, provider, env)), commit, db, error)
    {
      error := Commit(Ok(D.DeleteAccount(db, hostID, provider, env)), commit);
    }

    /** Child rows first, then the host; the first failing statement rolls everything back, and the commit itself
        may fail either way. */
    method DeleteHost(hostID: string, commit: SaveOutcome) returns (error: Option<string>)
      modifies this
      ensures Committed(old(db), D.DeleteHost(old(db), hostID), commit, db, error)
    {
      var tx := db;
      if D.HostHasOrders(tx, hostID) { return Some(D.HOST_HAS_ORDERS); }
      tx := D.DeleteAccountsOf(tx, hostID);
      match D.DeleteProducts(tx, D.ProductsOf(tx, hostID))
      case Err(e) => return Some(e);
      case Ok(next) => tx := next;
      tx := D.DeletePolicyOf(tx, hostID);
      match D.DeleteHostRow(tx, hostID)
      case Err(e) => return Some(e);
      case Ok(next) => tx := next;
      error := Commit(Ok(tx), commit);
    }

    /** The order row, its id, the ledger row, and the commit, which may fail either way. */
    method SaveOrder(order: Order, ledger: Ledger, commit: SaveOutcome) returns (error: Option<string>)
      modifies this
      ensures Committed(old(db), D.SaveOrder(old(db), order, ledger), commit, db, error)
    {
      if !D.OrderKeysExist(db, order) { return Some(D.FOREIGN_KEY); }
      var tx := T.UpsertOrder(db.tables, order);
      var orderRow := tx.orders[T.OrderIndex(tx.orders, order.reference)].id;
      tx := T.UpsertLedger(tx, orderRow, ledger);
      error := Commit(Ok(db.(tables := tx)), commit);
    }

    method GetOrder(reference: string, fault: Option<string>) returns (r: Result<Order>)
      ensures r == Read(fault, T.GetOrder(db.tables, reference))
    {
      if fault.Some? { return Err(fault.value); }
      var rows, i := db.tables.orders, 0;
      while i < |rows| && rows[i].columns.reference != reference
        invariant 0 <= i <= |rows|
        invariant forall j | 0 <= j < i :: rows[j].columns.reference != reference
      {
        i := i + 1;
      }
      if i == |rows| { return Err(T.ORDER_NOT_FOUND); }
      return Ok(rows[i].columns.(id := rows[i].columns.reference));
    }

    method GetLedger(reference: string, fault: Option<string>) returns (r: Result<Ledger>)
      ensures r == Read(fault, T.GetLedger(db.tables, reference))
    {
      if fault.Some? { return Err(fault.value); }
      var k := T.OrderIndex(db.tables.orders, reference);
      if k == |db.tables.orders| { return Err(T.LEDGER_NOT_FOUND); }
      var rows, id := db.tables.ledgers, db.tables.orders[k].id;
      var newest: Option<T.LedgerRow> := None;
      for i := 0 to |rows|
        invariant newest == T.NewestLedger(rows[..i], id)
      {
        assert rows[..i + 1][..i] == rows[..i];
        if rows[i].orderRow == id && (newest.None? || newest.value.id < rows[i].id) {
          newest := Some(rows[i]);
        }
      }
      assert rows[..|rows|] == rows;
      match newest
      case None => return Err(T.LEDGER_NOT_FOUND);
      case Some(row) => return Ok(T.LedgerOf(row, reference));
    }

    method GetProviderAccounts(hostID: string, fault: Option<string>) returns (r: Result<seq<Account>>)
      ensures r == Read(fault, Ok(D.AccountsOf(db.accounts, hostID)))
    {
      if fault.Some? { return Err(fault.value); }
      var rows, accounts := db.accounts, [];
      for i := 0 to |rows|
        invariant accounts == D.AccountsOf(rows[..i], hostID)
      {
        assert rows[..i + 1][..i] == rows[..i];
        if rows[i].hostID == hostID {
          accounts := accounts + [rows[i]];
        }
      }
      assert rows[..|rows|] == rows;
      return Ok(accounts);
    }
  }
}
