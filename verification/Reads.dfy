/** What a read of a payment answers, at once and after whole runs
    (internal/orchestration/orchestrator.go:258-263, 626-642). */
module Reads {
  import opened Prelude
  import opened Domain
  import opened Catalogues
  import opened Observability
  import opened Payments
  import opened Invariants
  import opened Effects
  import opened Auditing
  import opened Webhooks
  import opened Registration

  /** A read answers the stored order as it is, or says why not; it changes nothing but two counters. */
  lemma GetAnswers(s: State, r: string, fault: Option<string>)
    ensures var after := Step(s, GetPayment(r, fault));
            && (forall o :: after.reply == Found(o)
                            <==> GetOrder(s.store, r) == Ok(o) && (s.store.Sqlite? ==> fault.None?))
            && (s.store.Sqlite? && fault.Some? ==> after.reply == Error(fault.value))
            && ((s.store.Sqlite? ==> fault.None?) && GetOrder(s.store, r).Err? ==>
                  after.reply == Error("payment not found"))
            && OnlyCounts(s, after.state, if after.reply.Found? then {Get} else {Get, GetNotFound})
  {
    OrderNotFound(s.store, r);
  }

  // ---------- reads of a created order ----------

  /** A webhook for the order, from its provider, with one of the three statuses. */
  predicate Brings(e: Event, o: Order, status: string) {
    && e.ReconcileWebhook? && e.call.reference == o.reference && e.call.provider == o.provider
    && e.call.status == status && Ended(status)
  }

  /** An order changes its status only through such a webhook. */
  lemma StepBrings(s: State, triples: set<Triple>, e: Event, r: string)
    requires Inv(s, triples) && Fresh(s, e) && Known(s.store, r)
    ensures Known(Step(s, e).state.store, r)
    ensures var o, status := OrderOf(s.store, r), OrderOf(Step(s, e).state.store, r).status;
            status == o.status || Brings(e, o, status)
  {
    StepKeepsInv(s, triples, e);
    if e.ReconcileWebhook? {
      WebhookChanges(s, triples, e.call, e.faults, r);
      WebhookPlanSound(s, triples, e.call, e.faults);
      var plan := PlanFor(s, e.call, e.faults);
      if plan.Write? {
        SaveThenGet(s.store, plan.order, plan.ledger, r);
        EndedIsTerminal(e.call.status);
      }
    } else {
      OtherChanges(s, e, r);
    }
  }

  lemma {:induction false} RunBrings(s: State, triples: set<Triple>, es: seq<Event>, r: string)
    requires Inv(s, triples) && Legal(s, es) && Known(s.store, r)
    ensures Known(Run(s, es).store, r)
    ensures var o, status := OrderOf(s.store, r), OrderOf(Run(s, es).store, r).status;
            status == o.status || exists j | 0 <= j < |es| :: Brings(es[j], o, status)
  {
    if es != [] {
      var front, e := es[..|es| - 1], es[|es| - 1];
      RunBrings(s, triples, front, r);
      RunEvolves(s, triples, front);
      var mid :| Inv(Run(s, front), mid);
      StepBrings(Run(s, front), mid, e, r);
      var o, status := OrderOf(s.store, r), OrderOf(Run(s, front).store, r).status;
      if status != o.status && status == OrderOf(Run(s, es).store, r).status {
        var j :| 0 <= j < |front| && Brings(front[j], o, status);
        assert es[j] == front[j];
      }
    }
  }

  /** The j-th event is a webhook for the reference that was answered with a status. */
  predicate AnsweredFor(s: State, es: seq<Event>, j: nat, r: string) {
    && j < |es| && es[j].ReconcileWebhook? && es[j].call.reference == r
    && Step(Run(s, es[..j]), es[j]).reply.StatusIs?
  }

  /** The status a webhook is answered with is the one stored ever after. */
  lemma {:induction false} AnswerHeld(s: State, triples: set<Triple>, e: Event, o: Outcome, rest: seq<Event>)
    requires Inv(s, triples) && e.ReconcileWebhook? && o == Step(s, e) && o.reply.StatusIs? && Legal(o.state, rest)
    ensures Known(Run(o.state, rest).store, e.call.reference)
    ensures o.reply == StatusIs(OrderOf(Run(o.state, rest).store, e.call.reference).status)
  {
    WebhookStep(s, triples, e.call, e.faults);
    RunEvolves(o.state, NextTriples(s, triples, e), rest);
  }

  lemma {:induction false} AnswerStays(s: State, triples: set<Triple>, es: seq<Event>, j: nat, r: string)
    requires Inv(s, triples) && Legal(s, es) && AnsweredFor(s, es, j, r)
    ensures Known(Run(s, es).store, r)
    ensures Step(Run(s, es[..j]), es[j]).reply == StatusIs(OrderOf(Run(s, es).store, r).status)
  {
    var at := SplitAt(s, es, j);
    RunEvolves(s, triples, es[..j]);
    var mid :| Inv(at, mid);
    AnswerHeld(at, mid, es[j], Step(at, es[j]), es[j + 1..]);
  }

  lemma {:induction false} SplitAt(s: State, es: seq<Event>, j: nat) returns (at: State)
    requires Legal(s, es) && j < |es|
    ensures at == Run(s, es[..j]) && Legal(s, es[..j]) && Legal(Step(at, es[j]).state, es[j + 1..])
    ensures Run(s, es) == Run(Step(at, es[j]).state, es[j + 1..])
  {
    at := Run(s, es[..j]);
    var front := es[..j + 1];
    assert es == front + es[j + 1..];
    RunConcat(s, front, es[j + 1..]);
    assert front[..|front| - 1] == es[..j] && front[|front| - 1] == es[j];
  }

  /** In either store, under any faults and restarts: a later read of a created order answers it with every field but
      the status as created. The status is the one created, or one of the three that a webhook of the order's provider
      brought; and if any webhook for it was answered with a status, it is that one. */
  lemma {:induction false} CreatedOrderRead(c: Catalogue, b: Backend, before: seq<Event>, e: Event, later: seq<Event>,
                                            o: Order)
    returns (status: string)
    requires EmptyStore(b) && Legal(NewState(c, b), before + [e] + later)
    requires e.CreatePayment? && Step(Run(NewState(c, b), before), e).reply == Created(o)
    ensures var mid := Step(Run(NewState(c, b), before), e).state;
            && Step(Run(mid, later), GetPayment(o.reference, None)).reply == Found(o.(status := status))
            && (status == o.status || exists j | 0 <= j < |later| :: Brings(later[j], o, status))
            && forall j: nat | AnsweredFor(mid, later, j, o.reference) ::
                 Step(Run(mid, later[..j]), later[j]).reply == StatusIs(status)
  {
    var s := NewState(c, b);
    RunConcat(s, before + [e], later);
    RunConcat(s, before, [e]);
    assert (before + [e])[..|before|] == before;
    NewServiceInv(c, b);
    RunKeepsInv(s, before);
    var start := Run(s, before);
    StepKeepsInv(start, Triples(s, before), e);
    status := ReadAfter(start, Step(start, e).state, NextTriples(start, Triples(s, before), e), e, later, o);
  }

  lemma ReadAfter(start: State, mid: State, triples: set<Triple>, e: Event, later: seq<Event>, o: Order)
    returns (status: string)
    requires WellFormed(start.store) && e.CreatePayment? && Step(start, e) == Outcome(mid, Created(o))
    requires Inv(mid, triples) && Legal(mid, later)
    ensures Step(Run(mid, later), GetPayment(o.reference, None)).reply == Found(o.(status := status))
    ensures status == o.status || exists j | 0 <= j < |later| :: Brings(later[j], o, status)
    ensures forall j: nat | AnsweredFor(mid, later, j, o.reference) ::
              Step(Run(mid, later[..j]), later[j]).reply == StatusIs(status)
  {
    CreationStored(start, e, e.quote);
    var r := o.reference;
    assert Known(mid.store, r) && OrderOf(mid.store, r) == o;
    RunEvolves(mid, triples, later);
    RunBrings(mid, triples, later, r);
    status := OrderOf(Run(mid, later).store, r).status;
    GetAnswers(Run(mid, later), r, None);
    forall j: nat | AnsweredFor(mid, later, j, r)
      ensures Step(Run(mid, later[..j]), later[j]).reply == StatusIs(status)
    {
      AnswerStays(mid, triples, later, j, r);
    }
  }
}
