/** Driven by the service, the SQLite tables answer every read as two plain maps would. */
module Refinement {
  import opened Prelude
  import opened Domain
  import opened Text
  import opened Catalogues
  import opened Observability
  import opened Payments
  import opened Keys
  import opened Invariants
  import T = Tables

  predicate FaultFree(e: Event) {
    && (e.CreatePayment? ==> e.save.SaveOk?)
    && (e.ReconcileWebhook? ==> e.faults == NO_FAULTS)
    && (e.GetPayment? ==> e.fault.None?)
  }

  /** Row i of one table belongs to row i of the other, ids count from one, and a ledger's key ends with
      its order's reference. */
  ghost predicate Aligned(t: T.Tables) {
    && |t.orders| == |t.ledgers| == t.nextOrder - 1 == t.nextLedger - 1
    && T.UniqueReferences(t)
    && forall i | 0 <= i < |t.orders| ::
         var columns := t.orders[i].columns;
         && t.orders[i].id == i + 1
         && t.ledgers[i].id == i + 1 && t.ledgers[i].orderRow == i + 1
         && WellFormedReference(columns.reference)
         && t.ledgers[i].key == LedgerKey(columns.snapshotID, columns.reference)
  }

  predicate HasRow(t: T.Tables, r: string) { T.OrderIndex(t.orders, r) < |t.orders| }

  /** The maps hold what two rows of the tables say. */
  predicate Mirrors(o: T.OrderRow, l: T.LedgerRow, m: Backend)
    requires m.Memory?
  {
    var r := o.columns.reference;
    && r in m.orders && r in m.ledgers
    && o.columns == m.orders[r].(id := "") && m.orders[r].id == r
    && m.ledgers[r] == T.LedgerOf(l, r)
  }

  /** ... and nothing else. */
  ghost predicate Represents(t: T.Tables, m: Backend) {
    && m.Memory? && Aligned(t)
    && m.orders.Keys == m.ledgers.Keys
    && (forall r | r in m.orders :: HasRow(t, r))
    && forall i | 0 <= i < |t.orders| :: Mirrors(t.orders[i], t.ledgers[i], m)
  }

  // ---------- reads ----------

  lemma IndexIsUnique(t: T.Tables, i: nat)
    requires T.UniqueReferences(t) && i < |t.orders|
    ensures T.OrderIndex(t.orders, t.orders[i].columns.reference) == i
  {
  }

  lemma NewestIsAligned(t: T.Tables, i: nat)
    requires Aligned(t) && i < |t.ledgers|
    ensures T.NewestLedger(t.ledgers, i + 1) == Some(t.ledgers[i])
  {
  }

  lemma ReadsAgree(t: T.Tables, m: Backend, r: string)
    requires Represents(t, m)
    ensures GetOrder(Sqlite(t), r) == GetOrder(m, r)
    ensures GetLedger(Sqlite(t), r) == GetLedger(m, r)
  {
    var i := T.OrderIndex(t.orders, r);
    if i < |t.orders| {
      assert t.orders[i].columns.reference == r;
      NewestIsAligned(t, i);
    }
  }

  // ---------- writes ----------

  lemma KeyBelongsToRow(t: T.Tables, i: nat)
    requires Aligned(t) && i < |t.ledgers|
    ensures T.LedgerIndex(t.ledgers, t.ledgers[i].key) == i
  {
    var j := T.LedgerIndex(t.ledgers, t.ledgers[i].key);
    if j != i {
      var a, b := t.orders[i].columns, t.orders[j].columns;
      LedgerKeyGivesReference(a.snapshotID, a.reference, b.snapshotID, b.reference);
    }
  }

  lemma NewKeyHasNoRow(t: T.Tables, snapshotID: string, r: string)
    requires Aligned(t) && WellFormedReference(r) && T.OrderIndex(t.orders, r) == |t.orders|
    ensures T.LedgerIndex(t.ledgers, LedgerKey(snapshotID, r)) == |t.ledgers|
  {
    assert forall i | 0 <= i < |t.orders| :: t.orders[i].columns.reference != r;
    var j := T.LedgerIndex(t.ledgers, LedgerKey(snapshotID, r));
    if j < |t.ledgers| {
      LedgerKeyGivesReference(snapshotID, r, t.orders[j].columns.snapshotID, t.orders[j].columns.reference);
    }
  }

  function LedgerRowFor(id: nat, orderRow: nat, l: Ledger): T.LedgerRow {
    T.LedgerRow(id, orderRow, l.gross, l.hostFee, l.providerFee, l.net, l.checksum, l.key)
  }

  /** A first save inserts one row into each table. */
  lemma SaveNewRows(t: T.Tables, order: Order, ledger: Ledger)
    requires Aligned(t) && T.OrderIndex(t.orders, order.reference) == |t.orders|
    requires WellFormedReference(order.reference) && ledger.key == LedgerKey(order.snapshotID, order.reference)
    ensures T.SaveOrder(t, order, ledger)
         == T.Tables(t.orders + [T.OrderRow(|t.orders| + 1, order.(id := ""))],
                     t.ledgers + [LedgerRowFor(|t.orders| + 1, |t.orders| + 1, ledger)],
                     |t.orders| + 2, |t.orders| + 2)
  {
    NewKeyHasNoRow(t, order.snapshotID, order.reference);
  }

  lemma AlignedSnoc(t: T.Tables, o: T.OrderRow, l: T.LedgerRow)
    requires Aligned(t)
    requires o.id == |t.orders| + 1 == l.id == l.orderRow
    requires WellFormedReference(o.columns.reference) && l.key == LedgerKey(o.columns.snapshotID, o.columns.reference)
    requires T.OrderIndex(t.orders, o.columns.reference) == |t.orders|
    ensures Aligned(T.Tables(t.orders + [o], t.ledgers + [l], o.id + 1, l.id + 1))
  {
  }

  lemma MirrorsOthers(o: T.OrderRow, l: T.LedgerRow, m: Backend, order: Order, ledger: Ledger)
    requires m.Memory? && Mirrors(o, l, m) && o.columns.reference != order.reference
    ensures Mirrors(o, l, Save(m, order, ledger))
  {
  }

  lemma RowsFollow(t: T.Tables, t': T.Tables, r: string)
    requires HasRow(t, r) && |t.orders| <= |t'.orders|
    requires forall i | 0 <= i < |t.orders| :: t'.orders[i].columns.reference == t.orders[i].columns.reference
    ensures HasRow(t', r)
  {
  }

  lemma SnocRepresents(t: T.Tables, m: Backend, order: Order, ledger: Ledger, o: T.OrderRow, l: T.LedgerRow)
    requires Represents(t, m) && (forall i | 0 <= i < |t.orders| :: t.orders[i].columns.reference != order.reference)
    requires o.columns.reference == order.reference && Mirrors(o, l, Save(m, order, ledger))
    requires Aligned(T.Tables(t.orders + [o], t.ledgers + [l], o.id + 1, l.id + 1))
    ensures Represents(T.Tables(t.orders + [o], t.ledgers + [l], o.id + 1, l.id + 1), Save(m, order, ledger))
  {
    var t', m' := T.Tables(t.orders + [o], t.ledgers + [l], o.id + 1, l.id + 1), Save(m, order, ledger);
    forall i | 0 <= i < |t'.orders| ensures Mirrors(t'.orders[i], t'.ledgers[i], m') {
      if i < |t.orders| { MirrorsOthers(t.orders[i], t.ledgers[i], m, order, ledger); }
    }
    forall x | x in m'.orders ensures HasRow(t', x) {
      if x == order.reference { assert t'.orders[|t.orders|].columns.reference == x; } else { RowsFollow(t, t', x); }
    }
  }

  lemma SaveNew(t: T.Tables, m: Backend, order: Order, ledger: Ledger)
    requires Represents(t, m) && order.reference !in m.orders
    requires order.id == order.reference == ledger.orderID && WellFormedReference(order.reference)
    requires ledger.key == LedgerKey(order.snapshotID, order.reference)
    ensures Represents(T.SaveOrder(t, order, ledger), Save(m, order, ledger))
  {
    var n := |t.orders|;
    forall i | 0 <= i < n ensures t.orders[i].columns.reference != order.reference {
      assert Mirrors(t.orders[i], t.ledgers[i], m);
    }
    SaveNewRows(t, order, ledger);
    var o, l := T.OrderRow(n + 1, order.(id := "")), LedgerRowFor(n + 1, n + 1, ledger);
    AlignedSnoc(t, o, l);
    SnocRepresents(t, m, order, ledger, o, l);
  }

  /** A later save of the same order with its own ledger rewrites the order row and changes no ledger row. */
  lemma SaveAgainRows(t: T.Tables, m: Backend, order: Order, i: nat)
    requires Represents(t, m) && i < |t.orders| && t.orders[i].columns.reference == order.reference
    ensures order.reference in m.ledgers
    ensures T.SaveOrder(t, order, m.ledgers[order.reference])
         == t.(orders := t.orders[i := T.OrderRow(i + 1, order.(id := ""))])
  {
    IndexIsUnique(t, i);
    KeyBelongsToRow(t, i);
    assert m.ledgers[order.reference] == T.LedgerOf(t.ledgers[i], order.reference);
    var t1 := T.UpsertOrder(t, order);
    assert t1.ledgers == t.ledgers;
    assert t.ledgers[i := t.ledgers[i]] == t.ledgers;
  }

  lemma AlignedUpdate(t: T.Tables, i: nat, columns: Order)
    requires Aligned(t) && i < |t.orders|
    requires columns.reference == t.orders[i].columns.reference && columns.snapshotID == t.orders[i].columns.snapshotID
    ensures Aligned(t.(orders := t.orders[i := T.OrderRow(i + 1, columns)]))
  {
  }

  lemma UpdateMirrors(t: T.Tables, m: Backend, order: Order, i: nat, j: nat)
    requires Represents(t, m) && i < |t.orders| && j < |t.orders| && t.orders[i].columns.reference == order.reference
    requires order.reference in m.orders && order == m.orders[order.reference].(status := order.status)
    ensures Mirrors(if j == i then T.OrderRow(i + 1, order.(id := "")) else t.orders[j], t.ledgers[j],
                    Save(m, order, m.ledgers[order.reference]))
  {
    assert Mirrors(t.orders[j], t.ledgers[j], m);
    if j != i {
      assert t.orders[if i < j then i else j].columns.reference != t.orders[if i < j then j else i].columns.reference;
      MirrorsOthers(t.orders[j], t.ledgers[j], m, order, m.ledgers[order.reference]);
    }
  }

  lemma {:induction false} SaveAgain(t: T.Tables, m: Backend, order: Order)
    requires Represents(t, m) && order.reference in m.orders
    requires order == m.orders[order.reference].(status := order.status)
    ensures Represents(T.SaveOrder(t, order, m.ledgers[order.reference]), Save(m, order, m.ledgers[order.reference]))
  {
    var i := T.OrderIndex(t.orders, order.reference);
    assert HasRow(t, order.reference);
    SaveAgainRows(t, m, order, i);
    UpdateRepresents(t, m, order, i);
  }

  lemma UpdateRepresents(t: T.Tables, m: Backend, order: Order, i: nat)
    requires Represents(t, m) && i < |t.orders| && t.orders[i].columns.reference == order.reference
    requires order.reference in m.orders && order == m.orders[order.reference].(status := order.status)
    ensures Represents(t.(orders := t.orders[i := T.OrderRow(i + 1, order.(id := ""))]),
                       Save(m, order, m.ledgers[order.reference]))
  {
    assert Mirrors(t.orders[i], t.ledgers[i], m);
    AlignedUpdate(t, i, order.(id := ""));
    var t' := t.(orders := t.orders[i := T.OrderRow(i + 1, order.(id := ""))]);
    var m' := Save(m, order, m.ledgers[order.reference]);
    forall j | 0 <= j < |t'.orders| ensures Mirrors(t'.orders[j], t'.ledgers[j], m') {
      UpdateMirrors(t, m, order, i, j);
    }
    forall x | x in m'.orders ensures HasRow(t', x) { RowsFollow(t, t', x); }
  }

  // ---------- steps and runs ----------

  /** The two services are in the same state, but for where their orders live. */
  ghost predicate Matched(mem: State, sql: State) {
    && sql.store.Sqlite? && Represents(sql.store.tables, mem.store)
    && sql.catalogue == mem.catalogue && sql.service == mem.service
  }

  lemma CreateMatches(mem: State, sql: State, e: Event)
    requires Matched(mem, sql) && e.CreatePayment? && FaultFree(e) && Fresh(mem, e)
    ensures Matched(Step(mem, e).state, Step(sql, e).state) && Step(mem, e).reply == Step(sql, e).reply
  {
    var plan := CreatePlan(mem.service, e.quote, e.input, e.reference, e.invoice);
    if plan.Write? { SaveNew(sql.store.tables, mem.store, plan.order, plan.ledger); }
  }

  /** A fault-free webhook writes, if at all, the known order with a new status and its stored ledger. */
  lemma WebhookWrite(mem: State, t: T.Tables, c: Call)
    requires Represents(t, mem.store) && PlanFor(mem, c, NO_FAULTS).Write?
    ensures var plan := PlanFor(mem, c, NO_FAULTS);
            && c.reference in mem.store.orders
            && plan.order.reference == c.reference
            && plan.order == mem.store.orders[c.reference].(status := plan.order.status)
            && plan.ledger == mem.store.ledgers[c.reference]
  {
    var i := T.OrderIndex(t.orders, c.reference);
    assert t.orders[i].columns.reference == c.reference;
  }

  lemma WebhookMatches(mem: State, sql: State, c: Call)
    requires Matched(mem, sql)
    ensures Matched(StepWebhook(mem, c, NO_FAULTS).state, StepWebhook(sql, c, NO_FAULTS).state)
    ensures StepWebhook(mem, c, NO_FAULTS).reply == StepWebhook(sql, c, NO_FAULTS).reply
  {
    var t := sql.store.tables;
    ReadsAgree(t, mem.store, c.reference);
    var plan := PlanFor(mem, c, NO_FAULTS);
    PlansMatch(mem, sql, c);
    if plan.Write? {
      WebhookWrite(mem, t, c);
      SaveAgain(t, mem.store, plan.order);
    }
  }

  lemma SameWithLedger(sv: Service, order: Result<Order>, ledger: Result<Ledger>, c: Call)
    requires order.Ok? ==> ledger.Ok?
    ensures WebhookPlan(sv, true, order, ledger, c) == WebhookPlan(sv, false, order, ledger, c)
  {
  }

  lemma PlansMatch(mem: State, sql: State, c: Call)
    requires Matched(mem, sql)
    ensures PlanFor(sql, c, NO_FAULTS) == PlanFor(mem, c, NO_FAULTS)
  {
    ReadsAgree(sql.store.tables, mem.store, c.reference);
    var order, ledger := GetOrder(mem.store, c.reference), GetLedger(mem.store, c.reference);
    assert order.Ok? ==> ledger.Ok?;
    SameWithLedger(mem.service, order, ledger, c);
  }

  lemma StepMatches(mem: State, sql: State, e: Event)
    requires Matched(mem, sql) && FaultFree(e) && Fresh(mem, e)
    ensures Matched(Step(mem, e).state, Step(sql, e).state)
    ensures Step(mem, e).reply == Step(sql, e).reply
  {
    match e
    case CreatePayment(_, _, _, _, _) => CreateMatches(mem, sql, e);
    case ReconcileWebhook(c, _) => WebhookMatches(mem, sql, c);
    case GetPayment(r, _) => ReadsAgree(sql.store.tables, mem.store, r);
    case _ =>
  }

  lemma {:induction false} RunMatches(mem: State, sql: State, es: seq<Event>)
    requires Matched(mem, sql) && Legal(mem, es) && forall e | e in es :: FaultFree(e)
    ensures Matched(Run(mem, es), Run(sql, es))
    ensures Replies(mem, es) == Replies(sql, es)
  {
    if es != [] {
      RunMatches(mem, sql, es[..|es| - 1]);
      StepMatches(Run(mem, es[..|es| - 1]), Run(sql, es[..|es| - 1]), es[|es| - 1]);
    }
  }

  /** Refinement: on every fault-free run, the service over SQLite gives the answers it gives over the maps,
      counts and audits the same, and both stores then answer every order and ledger read alike. */
  lemma {:induction false} SqliteRefinesMaps(c: Catalogue, es: seq<Event>, r: string)
    requires Legal(NewState(c, EMPTY_MEMORY), es) && forall e | e in es :: FaultFree(e)
    ensures var mem, sql := NewState(c, EMPTY_MEMORY), NewState(c, EMPTY_SQLITE);
            && Replies(sql, es) == Replies(mem, es)
            && Run(sql, es).service == Run(mem, es).service
            && GetOrder(Run(sql, es).store, r) == GetOrder(Run(mem, es).store, r)
            && GetLedger(Run(sql, es).store, r) == GetLedger(Run(mem, es).store, r)
  {
    var mem, sql := NewState(c, EMPTY_MEMORY), NewState(c, EMPTY_SQLITE);
    assert Matched(mem, sql);
    RunMatches(mem, sql, es);
    ReadsAgree(Run(sql, es).store.tables, Run(mem, es).store, r);
  }

  /** One order row and one ledger row for each reference, and the ledger row is its order's. */
  lemma {:induction false} OneLedgerRowPerOrder(c: Catalogue, es: seq<Event>)
    requires Legal(NewState(c, EMPTY_MEMORY), es) && forall e | e in es :: FaultFree(e)
    ensures Run(NewState(c, EMPTY_SQLITE), es).store.Sqlite?
    ensures var t := Run(NewState(c, EMPTY_SQLITE), es).store.tables;
            && |t.ledgers| == |t.orders|
            && forall i | 0 <= i < |t.orders| ::
                 && t.ledgers[i].orderRow == t.orders[i].id
                 && forall j | 0 <= j < |t.ledgers| && j != i :: t.ledgers[j].orderRow != t.orders[i].id
  {
    var mem, sql := NewState(c, EMPTY_MEMORY), NewState(c, EMPTY_SQLITE);
    assert Matched(mem, sql);
    RunMatches(mem, sql, es);
  }
}
