/** What a failed ledger read does to the ledgers of the SQLite store
    (internal/orchestration/orchestrator.go:318-332, internal/storage/sqlite.go:400-411). */
module LedgerFaults {
  import opened Prelude
  import opened Domain
  import opened Payments
  import opened Invariants
  import opened Refinement
  import opened Settlement
  import T = Tables

  lemma ReadAligned(t: T.Tables, i: nat)
    requires Aligned(t) && i < |t.orders|
    ensures T.GetLedger(t, t.orders[i].columns.reference)
         == Ok(T.LedgerOf(t.ledgers[i], t.orders[i].columns.reference))
  {
  }

  lemma UpsertKnown(t: T.Tables, i: nat, order: Order)
    requires Aligned(t) && i < |t.orders|
    requires t.orders[i].columns.reference == order.reference && t.orders[i].columns.snapshotID == order.snapshotID
    ensures T.UpsertOrder(t, order) == t.(orders := t.orders[i := T.OrderRow(i + 1, order.(id := ""))])
    ensures Aligned(T.UpsertOrder(t, order))
  {
  }

  lemma OverwriteLedger(t: T.Tables, orderRow: nat, ledger: Ledger, j: nat)
    requires Aligned(t) && j < |t.ledgers| && j == T.LedgerIndex(t.ledgers, ledger.key)
    ensures T.UpsertLedger(t, orderRow, ledger) == t.(ledgers := t.ledgers[j := LedgerRowFor(j + 1, j + 1, ledger)])
    ensures Aligned(T.UpsertLedger(t, orderRow, ledger))
  {
  }

  lemma ReadUnknown(t: T.Tables, t': T.Tables, r: string)
    requires T.OrderIndex(t.orders, r) == |t.orders| == |t'.orders|
    requires forall k | 0 <= k < |t.orders| :: t'.orders[k].columns.reference == t.orders[k].columns.reference
    ensures T.GetLedger(t', r) == T.GetLedger(t, r)
  {
    assert forall k | 0 <= k < |t.orders| :: t.orders[k].columns.reference != r;
    assert T.OrderIndex(t'.orders, r) == |t'.orders|;
  }

  lemma ReadRow(t: T.Tables, k: nat, row: T.LedgerRow)
    requires T.UniqueReferences(t) && k < |t.orders| && T.NewestLedger(t.ledgers, t.orders[k].id) == Some(row)
    ensures T.GetLedger(t, t.orders[k].columns.reference) == Ok(T.LedgerOf(row, t.orders[k].columns.reference))
  {
    IndexIsUnique(t, k);
  }

  /** A made-up ledger whose key names an existing row becomes the ledger of the order that owns the row; every
      other ledger stays. */
  lemma OverwrittenRow(t: T.Tables, i: nat, order: Order, ledger: Ledger, j: nat, r: string)
    requires Aligned(t) && i < |t.orders|
    requires t.orders[i].columns.reference == order.reference && t.orders[i].columns.snapshotID == order.snapshotID
    requires j == T.LedgerIndex(t.ledgers, ledger.key) < |t.ledgers|
    ensures T.GetLedger(T.SaveOrder(t, order, ledger), r)
         == if r == t.orders[j].columns.reference then Ok(ledger.(orderID := r)) else T.GetLedger(t, r)
  {
    UpsertKnown(t, i, order);
    var t1, t' := T.UpsertOrder(t, order), T.SaveOrder(t, order, ledger);
    OverwriteLedger(t1, t1.orders[T.OrderIndex(t1.orders, order.reference)].id, ledger, j);
    assert forall k | 0 <= k < |t.orders| :: t'.orders[k].columns.reference == t.orders[k].columns.reference;
    var k := T.OrderIndex(t.orders, r);
    if k < |t.orders| {
      ReadAligned(t, k);
      ReadAligned(t', k);
      IndexIsUnique(t, j);
    } else {
      ReadUnknown(t, t', r);
    }
  }

  lemma NewestAfter(rows: seq<T.LedgerRow>, row: T.LedgerRow, owner: nat)
    requires forall i | 0 <= i < |rows| :: rows[i].id < row.id
    ensures T.NewestLedger(rows + [row], owner)
         == if owner == row.orderRow then Some(row) else T.NewestLedger(rows, owner)
  {
  }

  lemma AppendedShape(t: T.Tables, i: nat, order: Order, ledger: Ledger)
    requires Aligned(t) && i < |t.orders|
    requires t.orders[i].columns.reference == order.reference && t.orders[i].columns.snapshotID == order.snapshotID
    requires T.LedgerIndex(t.ledgers, ledger.key) == |t.ledgers|
    ensures T.SaveOrder(t, order, ledger)
         == t.(orders := t.orders[i := T.OrderRow(i + 1, order.(id := ""))],
               ledgers := t.ledgers + [LedgerRowFor(|t.ledgers| + 1, i + 1, ledger)], nextLedger := t.nextLedger + 1)
  {
    UpsertKnown(t, i, order);
    IndexIsUnique(T.UpsertOrder(t, order), i);
  }

  predicate SameOrders(a: seq<T.OrderRow>, b: seq<T.OrderRow>) {
    |a| == |b| && forall k | 0 <= k < |a| :: a[k].id == b[k].id && a[k].columns.reference == b[k].columns.reference
  }

  lemma ReadAppended(t: T.Tables, t': T.Tables, i: nat, row: T.LedgerRow, k: nat)
    requires Aligned(t) && i < |t.orders| && k < |t.orders| && row.id == |t.ledgers| + 1 && row.orderRow == i + 1
    requires SameOrders(t.orders, t'.orders) && t'.ledgers == t.ledgers + [row]
    ensures T.GetLedger(t', t.orders[k].columns.reference)
         == Ok(T.LedgerOf(if k == i then row else t.ledgers[k], t.orders[k].columns.reference))
  {
    NewestIsAligned(t, k);
    NewestAfter(t.ledgers, row, k + 1);
    ReadRow(t', k, if k == i then row else t.ledgers[k]);
  }

  /** A made-up ledger with a new key becomes the newest row of its order; every other ledger stays. */
  lemma AppendedRow(t: T.Tables, i: nat, order: Order, ledger: Ledger, r: string)
    requires Aligned(t) && i < |t.orders|
    requires t.orders[i].columns.reference == order.reference && t.orders[i].columns.snapshotID == order.snapshotID
    requires T.LedgerIndex(t.ledgers, ledger.key) == |t.ledgers|
    ensures T.GetLedger(T.SaveOrder(t, order, ledger), r)
         == if r == order.reference then Ok(ledger.(orderID := r)) else T.GetLedger(t, r)
  {
    AppendedShape(t, i, order, ledger);
    IndexIsUnique(t, i);
    var k := T.OrderIndex(t.orders, r);
    if k < |t.orders| {
      ReadAligned(t, k);
      ReadAppended(t, T.SaveOrder(t, order, ledger), i, LedgerRowFor(|t.ledgers| + 1, i + 1, ledger), k);
    } else {
      ReadUnknown(t, T.SaveOrder(t, order, ledger), r);
    }
  }

  // ---------- a webhook that cannot read its ledger ----------

  /** The ledger that one made up for a reference under a key takes the place of: the one that has the key, or else
      the reference's own. */
  ghost predicate Replaced(b: Backend, r: string, reference: string, key: string) {
    || (GetLedger(b, r).Ok? && GetLedger(b, r).value.key == key)
    || (r == reference && forall x | GetLedger(b, x).Ok? :: GetLedger(b, x).value.key != key)
  }

  lemma KeyNamesRow(t: T.Tables, key: string, r: string)
    requires Aligned(t)
    ensures var j := T.LedgerIndex(t.ledgers, key);
            T.GetLedger(t, r).Ok? && T.GetLedger(t, r).value.key == key
            <==> j < |t.ledgers| && r == t.orders[j].columns.reference
  {
    var j, k := T.LedgerIndex(t.ledgers, key), T.OrderIndex(t.orders, r);
    if j < |t.ledgers| { ReadAligned(t, j); }
    if k < |t.orders| {
      ReadAligned(t, k);
      KeyBelongsToRow(t, k);
    }
  }

  lemma ReplacedIs(t: T.Tables, r: string, reference: string, key: string)
    requires Aligned(t)
    ensures var j := T.LedgerIndex(t.ledgers, key);
            Replaced(Sqlite(t), r, reference, key)
            <==> r == if j < |t.ledgers| then t.orders[j].columns.reference else reference
  {
    var b, j := Sqlite(t), T.LedgerIndex(t.ledgers, key);
    forall x
      ensures GetLedger(b, x).Ok? && GetLedger(b, x).value.key == key
         <==> j < |t.ledgers| && x == t.orders[j].columns.reference
    {
      KeyNamesRow(t, key, x);
    }
    if j < |t.ledgers| { assert GetLedger(b, t.orders[j].columns.reference).value.key == key; }
  }

  lemma RebuiltReplaces(t: T.Tables, m: Backend, order: Order, ledger: Ledger, r: string)
    requires Represents(t, m) && order.reference in m.orders
    requires order == m.orders[order.reference].(status := order.status)
    ensures T.GetLedger(T.SaveOrder(t, order, ledger), r)
         == if Replaced(Sqlite(t), r, order.reference, ledger.key) then Ok(ledger.(orderID := r)) else T.GetLedger(t, r)
  {
    var i, j := T.OrderIndex(t.orders, order.reference), T.LedgerIndex(t.ledgers, ledger.key);
    assert HasRow(t, order.reference) && Mirrors(t.orders[i], t.ledgers[i], m);
    ReplacedIs(t, r, order.reference, ledger.key);
    if j < |t.ledgers| { OverwrittenRow(t, i, order, ledger, j, r); } else { AppendedRow(t, i, order, ledger, r); }
  }

  /** The webhook decides to write, and its save takes effect, whatever it reports. */
  predicate Settles(s: State, c: Call, faults: Faults) {
    PlanFor(s, c, faults).Write? && Applied(SaveIn(s.store, faults.save))
  }

  lemma FailedReadPlans(s: State, c: Call, faults: Faults)
    requires s.store.Sqlite? && faults.ledger.Some? && PlanFor(s, c, faults).Write?
    ensures GetOrder(s.store, c.reference).Ok?
    ensures var stored, plan := GetOrder(s.store, c.reference).value, PlanFor(s, c, faults);
            plan.order == stored.(status := c.status) && plan.ledger == RebuiltLedger(stored, c.key)
  {
  }

  lemma FailedReadWrites(s: State, c: Call, faults: Faults)
    requires s.store.Sqlite? && faults.ledger.Some? && Settles(s, c, faults)
    ensures GetOrder(s.store, c.reference).Ok?
    ensures var stored := GetOrder(s.store, c.reference).value;
            StepWebhook(s, c, faults).state.store
            == Sqlite(T.SaveOrder(s.store.tables, stored.(status := c.status), RebuiltLedger(stored, c.key)))
  {
    FailedReadPlans(s, c, faults);
  }

  lemma FailedReadReplaces(s: State, m: Backend, c: Call, faults: Faults, r: string)
    requires Shadows(m, s.store) && faults.ledger.Some? && Settles(s, c, faults)
    ensures GetOrder(s.store, c.reference).Ok?
    ensures var made := RebuiltLedger(GetOrder(s.store, c.reference).value, c.key);
            GetLedger(StepWebhook(s, c, faults).state.store, r)
            == if Replaced(s.store, r, c.reference, c.key) then Ok(made.(orderID := r)) else GetLedger(s.store, r)
  {
    FailedReadWrites(s, c, faults);
    ReadsAgree(s.store.tables, m, c.reference);
    var stored := m.orders[c.reference];
    RebuiltReplaces(s.store.tables, m, stored.(status := c.status), RebuiltLedger(stored, c.key), r);
  }

  /** A ledger is replaced, and the made-up one, which lacks the hash of its policy, differs from it. */
  lemma FailedReadShows(s: State, m: Backend, c: Call, faults: Faults) returns (r: string)
    requires Shadows(m, s.store) && faults.ledger.Some? && Settles(s, c, faults)
    ensures GetLedger(StepWebhook(s, c, faults).state.store, r) != GetLedger(s.store, r)
  {
    var t := s.store.tables;
    var j := T.LedgerIndex(t.ledgers, c.key);
    r := if j < |t.ledgers| then t.orders[j].columns.reference else c.reference;
    ReplacedIs(t, r, c.reference, c.key);
    FailedReadReplaces(s, m, c, faults, r);
    ReadsAgree(t, m, r);
    assert GetLedger(m, r).Ok? ==> Agree(m.orders[r], m.ledgers[r]);
  }

  lemma TrueReadKeeps(s: State, m: Backend, c: Call, faults: Faults, r: string)
    requires Shadows(m, s.store) && faults.ledger.None?
    ensures GetLedger(StepWebhook(s, c, faults).state.store, r) == GetLedger(s.store, r)
  {
    var m' := WebhookShadowed(s, m, c, faults);
    ReadsAgree(s.store.tables, m, r);
    ReadsAgree(StepWebhook(s, c, faults).state.store.tables, m', r);
  }

  /** A state that SQLite reaches while no webhook fails to read its ledger, whatever other reads and saves fail. */
  predicate Reached(k: Catalogues.Catalogue, es: seq<Event>, s: State) {
    && Legal(NewState(k, EMPTY_SQLITE), es) && s == Run(NewState(k, EMPTY_SQLITE), es)
    && forall e | e in es :: LedgerReadsSucceed(e)
  }

  ghost predicate AllLedgersKept(b: Backend, b': Backend) { forall r :: GetLedger(b', r) == GetLedger(b, r) }

  /** In such a state, a webhook whose write takes effect leaves every ledger as it was exactly when it reads its
      own. */
  lemma LedgersKeptIffRead(k: Catalogues.Catalogue, es: seq<Event>, s: State, c: Call, faults: Faults)
    requires Reached(k, es, s)
    ensures Settles(s, c, faults) ==>
              (AllLedgersKept(s.store, StepWebhook(s, c, faults).state.store) <==> faults.ledger.None?)
  {
    var m := ReachableShadowed(k, es);
    if Settles(s, c, faults) { KeptIffRead(s, m, c, faults); }
  }

  lemma KeptIffRead(s: State, m: Backend, c: Call, faults: Faults)
    requires Shadows(m, s.store) && Settles(s, c, faults)
    ensures AllLedgersKept(s.store, StepWebhook(s, c, faults).state.store) <==> faults.ledger.None?
  {
    if faults.ledger.None? {
      forall r ensures GetLedger(StepWebhook(s, c, faults).state.store, r) == GetLedger(s.store, r) {
        TrueReadKeeps(s, m, c, faults, r);
      }
    } else {
      var r := FailedReadShows(s, m, c, faults);
    }
  }

  /** ... and what a failed read does instead: it replaces the ledger that has the webhook's key, whosever it is, or
      else the order's own, by one made up from the order, and leaves every other ledger alone. */
  lemma FailedReadReplacesOne(k: Catalogues.Catalogue, es: seq<Event>, s: State, c: Call, faults: Faults, r: string)
    requires Reached(k, es, s)
    ensures faults.ledger.Some? && Settles(s, c, faults) ==>
              && GetOrder(s.store, c.reference).Ok?
              && GetLedger(StepWebhook(s, c, faults).state.store, r)
                 == if Replaced(s.store, r, c.reference, c.key)
                    then Ok(RebuiltLedger(GetOrder(s.store, c.reference).value, c.key).(orderID := r))
                    else GetLedger(s.store, r)
  {
    var m := ReachableShadowed(k, es);
    if faults.ledger.Some? && Settles(s, c, faults) { FailedReadReplaces(s, m, c, faults, r); }
  }

  // ---------- after any faults at all ----------

  ghost predicate UniqueKeys(t: T.Tables) {
    forall i, j | 0 <= i < j < |t.ledgers| :: t.ledgers[i].key != t.ledgers[j].key
  }

  /** The UNIQUE constraints on references and ledger keys. */
  ghost predicate Unique(b: Backend) { b.Sqlite? && T.UniqueReferences(b.tables) && UniqueKeys(b.tables) }

  lemma SaveKeepsUnique(t: T.Tables, order: Order, ledger: Ledger)
    requires T.UniqueReferences(t) && UniqueKeys(t) && order.id == order.reference
    ensures T.UniqueReferences(T.SaveOrder(t, order, ledger)) && UniqueKeys(T.SaveOrder(t, order, ledger))
  {
    T.SaveThenGetOrder(t, order, ledger, order.reference);
  }

  /** Writing back the newest row of an order changes no ledger row. */
  lemma RewriteKeepsRows(t: T.Tables, order: Order, ledger: Ledger)
    requires UniqueKeys(t) && T.GetLedger(t, order.reference) == Ok(ledger)
    ensures T.SaveOrder(t, order, ledger).ledgers == t.ledgers
  {
    var k := T.OrderIndex(t.orders, order.reference);
    var row := T.NewestLedger(t.ledgers, t.orders[k].id).value;
    var i :| 0 <= i < |t.ledgers| && t.ledgers[i] == row;
    assert T.LedgerIndex(t.ledgers, ledger.key) == i;
    assert t.ledgers[i := t.ledgers[i]] == t.ledgers;
  }

  lemma RewriteKeepsLedgers(t: T.Tables, order: Order, ledger: Ledger, r: string)
    requires T.UniqueReferences(t) && UniqueKeys(t) && T.GetLedger(t, order.reference) == Ok(ledger)
    ensures T.GetLedger(T.SaveOrder(t, order, ledger), r) == T.GetLedger(t, r)
  {
    RewriteKeepsRows(t, order, ledger);
    T.SaveRows(t, order, ledger);
    var t', k := T.SaveOrder(t, order, ledger), T.OrderIndex(t.orders, r);
    assert T.OrderIndex(t'.orders, r) == k && |t'.orders| == |t.orders|;
  }

  lemma CarryKeepsUnique(s: State, plan: Plan, save: SaveOutcome)
    requires Unique(s.store) && (plan.Write? ==> plan.order.id == plan.order.reference)
    ensures Unique(Carry(s, plan, save).state.store)
  {
    if plan.Write? { SaveKeepsUnique(s.store.tables, plan.order, plan.ledger); }
  }

  lemma StepKeepsUnique(s: State, triples: set<Triple>, e: Event)
    requires Inv(s, triples) && Unique(s.store)
    ensures Unique(Step(s, e).state.store)
  {
    if e.CreatePayment? {
      CarryKeepsUnique(s, CreatePlan(s.service, e.quote, e.input, e.reference, e.invoice), SaveIn(s.store, e.save));
    } else if e.ReconcileWebhook? {
      WebhookPlanSound(s, triples, e.call, e.faults);
      CarryKeepsUnique(s, PlanFor(s, e.call, e.faults), SaveIn(s.store, e.faults.save));
    }
  }

  lemma {:induction false} RunKeepsUnique(k: Catalogues.Catalogue, es: seq<Event>)
    requires Legal(NewState(k, EMPTY_SQLITE), es)
    ensures Unique(Run(NewState(k, EMPTY_SQLITE), es).store)
  {
    if es != [] {
      var s, front := NewState(k, EMPTY_SQLITE), es[..|es| - 1];
      RunKeepsUnique(k, front);
      NewServiceInv(k, EMPTY_SQLITE);
      RunKeepsInv(s, front);
      StepKeepsUnique(Run(s, front), Triples(s, front), es[|es| - 1]);
    }
  }

  /** After any run, whatever failed in it, a webhook that does read a ledger changes none: damage comes only from
      webhooks that could not. */
  lemma {:induction false} ReadLedgerIsKept(k: Catalogues.Catalogue, es: seq<Event>, c: Call, faults: Faults, r: string)
    requires Legal(NewState(k, EMPTY_SQLITE), es)
    requires faults.ledger.None? && GetLedger(Run(NewState(k, EMPTY_SQLITE), es).store, c.reference).Ok?
    ensures var s := Run(NewState(k, EMPTY_SQLITE), es);
            GetLedger(StepWebhook(s, c, faults).state.store, r) == GetLedger(s.store, r)
  {
    var s := Run(NewState(k, EMPTY_SQLITE), es);
    RunKeepsUnique(k, es);
    NewServiceInv(k, EMPTY_SQLITE);
    RunKeepsInv(NewState(k, EMPTY_SQLITE), es);
    WebhookPlanSound(s, Triples(NewState(k, EMPTY_SQLITE), es), c, faults);
    KeptLedger(s, PlanFor(s, c, faults), c, faults, r);
  }

  lemma KeptLedger(s: State, plan: Plan, c: Call, faults: Faults, r: string)
    requires Unique(s.store) && plan == PlanFor(s, c, faults) && (plan.Write? ==> plan.order.reference == c.reference)
    requires faults.ledger.None? && GetLedger(s.store, c.reference).Ok?
    ensures GetLedger(StepWebhook(s, c, faults).state.store, r) == GetLedger(s.store, r)
  {
    if plan.Write? {
      TrueReadPlans(s, c, faults);
      RewriteKeepsLedgers(s.store.tables, plan.order, plan.ledger, r);
    }
    CarryKeepsLedger(s, plan, faults.save, r);
  }

  lemma CarryKeepsLedger(s: State, plan: Plan, save: SaveOutcome, r: string)
    requires plan.Write? ==> GetLedger(Save(s.store, plan.order, plan.ledger), r) == GetLedger(s.store, r)
    ensures GetLedger(Carry(s, plan, save).state.store, r) == GetLedger(s.store, r)
  {
  }
}
