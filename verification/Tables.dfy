/** The order and ledger tables of the SQLite store (internal/storage/sqlite.go:98-132, 361-490).
    Rows stand in order of their auto-increment ids; a transaction is one function application. */
module Tables {
  import opened Prelude
  import opened Domain

  /** `columns` has no meaningful `id`: the table stores the reference only. */
  datatype OrderRow = OrderRow(id: nat, columns: Order)

  datatype LedgerRow = LedgerRow(id: nat, orderRow: nat, gross: int, hostFee: int, providerFee: int, net: int,
                                 checksum: Checksum, key: string)

  datatype Tables = Tables(orders: seq<OrderRow>, ledgers: seq<LedgerRow>, nextOrder: nat, nextLedger: nat)

  const EMPTY_TABLES := Tables([], [], 1, 1)

  const ORDER_NOT_FOUND := "payment not found"
  const LEDGER_NOT_FOUND := "ledger not found"

  /** Position of the row with a reference, or the number of rows. */
  function OrderIndex(rows: seq<OrderRow>, reference: string, from: nat := 0): (i: nat)
    requires from <= |rows|
    ensures from <= i <= |rows|
    ensures i < |rows| ==> rows[i].columns.reference == reference
    ensures forall j | from <= j < i :: rows[j].columns.reference != reference
    decreases |rows| - from
  {
    if from == |rows| || rows[from].columns.reference == reference then from
    else OrderIndex(rows, reference, from + 1)
  }

  /** Position of the row with an idempotency key, or the number of rows. */
  function LedgerIndex(rows: seq<LedgerRow>, key: string, from: nat := 0): (i: nat)
    requires from <= |rows|
    ensures from <= i <= |rows|
    ensures i < |rows| ==> rows[i].key == key
    ensures forall j | from <= j < i :: rows[j].key != key
    decreases |rows| - from
  {
    if from == |rows| || rows[from].key == key then from else LedgerIndex(rows, key, from + 1)
  }

  /** INSERT INTO payment_orders ... ON CONFLICT(reference) DO UPDATE. */
  function UpsertOrder(t: Tables, order: Order): (r: Tables)
    ensures OrderIndex(r.orders, order.reference) == OrderIndex(t.orders, order.reference) < |r.orders|
  {
    var k := OrderIndex(t.orders, order.reference);
    var columns := order.(id := "");
    var r :=
      if k < |t.orders| then t.(orders := t.orders[k := OrderRow(t.orders[k].id, columns)])
      else t.(orders := t.orders + [OrderRow(t.nextOrder, columns)], nextOrder := t.nextOrder + 1);
    assert r.orders[k].columns.reference == order.reference;
    assert forall i | 0 <= i < k :: r.orders[i] == t.orders[i];
    r
  }

  /** INSERT INTO payment_order_ledgers ... ON CONFLICT(idempotency_key) DO UPDATE, which leaves the
      row's payment_order_id alone. */
  function UpsertLedger(t: Tables, orderRow: nat, ledger: Ledger): Tables {
    var k := LedgerIndex(t.ledgers, ledger.key);
    var row := LedgerRow(t.nextLedger, orderRow, ledger.gross, ledger.hostFee, ledger.providerFee, ledger.net,
                         ledger.checksum, ledger.key);
    if k < |t.ledgers| then
      t.(ledgers := t.ledgers[k := row.(id := t.ledgers[k].id, orderRow := t.ledgers[k].orderRow)])
    else t.(ledgers := t.ledgers + [row], nextLedger := t.nextLedger + 1)
  }

  function SaveOrder(t: Tables, order: Order, ledger: Ledger): Tables {
    var t1 := UpsertOrder(t, order);
    UpsertLedger(t1, t1.orders[OrderIndex(t1.orders, order.reference)].id, ledger)
  }

  function GetOrder(t: Tables, reference: string): Result<Order> {
    var k := OrderIndex(t.orders, reference);
    if k < |t.orders| then Ok(t.orders[k].columns.(id := t.orders[k].columns.reference)) else Err(ORDER_NOT_FOUND)
  }

  /** The row of one order with the greatest id: ORDER BY l.id DESC LIMIT 1. */
  function NewestLedger(rows: seq<LedgerRow>, orderRow: nat): (r: Option<LedgerRow>)
    ensures r.None? <==> forall i | 0 <= i < |rows| :: rows[i].orderRow != orderRow
    ensures r.Some? ==> r.value in rows && r.value.orderRow == orderRow
    ensures r.Some? ==> forall i | 0 <= i < |rows| && rows[i].orderRow == orderRow :: rows[i].id <= r.value.id
  {
    if rows == [] then None
    else
      var best := NewestLedger(rows[..|rows| - 1], orderRow);
      var last := rows[|rows| - 1];
      if last.orderRow == orderRow && (best.None? || best.value.id < last.id) then Some(last) else best
  }

  function LedgerOf(row: LedgerRow, reference: string): Ledger {
    Ledger(reference, row.gross, row.hostFee, row.providerFee, row.net, row.checksum, row.key)
  }

  function GetLedger(t: Tables, reference: string): Result<Ledger> {
    var k := OrderIndex(t.orders, reference);
    if k == |t.orders| then Err(LEDGER_NOT_FOUND)
    else
      match NewestLedger(t.ledgers, t.orders[k].id)
      case None => Err(LEDGER_NOT_FOUND)
      case Some(row) => Ok(LedgerOf(row, reference))
  }

  /** The UNIQUE constraint on references. */
  ghost predicate UniqueReferences(t: Tables) {
    forall i, j | 0 <= i < j < |t.orders| :: t.orders[i].columns.reference != t.orders[j].columns.reference
  }

  /** A saved order is read back whole, every other order is untouched, whatever the ledger tables hold. */
  lemma SaveThenGetOrder(t: Tables, order: Order, ledger: Ledger, reference: string)
    requires UniqueReferences(t) && order.id == order.reference
    ensures UniqueReferences(SaveOrder(t, order, ledger))
    ensures GetOrder(SaveOrder(t, order, ledger), reference)
         == if reference == order.reference then Ok(order) else GetOrder(t, reference)
  {
    var t1 := UpsertOrder(t, order);
    assert SaveOrder(t, order, ledger).orders == t1.orders;
    var k := OrderIndex(t.orders, order.reference);
    assert forall i | 0 <= i < |t.orders| && i != k :: t1.orders[i] == t.orders[i];
    assert t1.orders[k].columns == order.(id := "");
    var i, i1 := OrderIndex(t.orders, reference), OrderIndex(t1.orders, reference);
    if reference == order.reference {
      assert i1 == k;
    } else if i < |t.orders| {
      assert t1.orders[i] == t.orders[i];
      assert i1 == i;
    }
  }

  /** Which rows a save touches: one order row keeps its id and gets new columns, no ledger row changes owner. */
  lemma SaveRows(t: Tables, order: Order, ledger: Ledger)
    ensures var t' := SaveOrder(t, order, ledger);
            var k := OrderIndex(t.orders, order.reference);
            && |t.orders| <= |t'.orders| <= |t.orders| + 1 && k < |t'.orders|
            && t'.orders[k].columns == order.(id := "")
            && (forall i | 0 <= i < |t.orders| :: t'.orders[i].id == t.orders[i].id)
            && (forall i | 0 <= i < |t'.orders| && i != k :: i < |t.orders| && t'.orders[i] == t.orders[i])
            && |t.ledgers| <= |t'.ledgers| <= |t.ledgers| + 1
            && (forall i | 0 <= i < |t.ledgers| :: t'.ledgers[i].orderRow == t.ledgers[i].orderRow)
            && (|t.ledgers| < |t'.ledgers| ==> t'.ledgers[|t.ledgers|].orderRow == t'.orders[k].id)
  {
  }
}
