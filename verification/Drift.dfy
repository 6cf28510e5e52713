/** How far rounded fees drift from exact ones over a run of created payments
    (internal/orchestration/orchestrator.go:177-185, internal/domain/domain.go:105-135). */
module Drift {
  import opened Prelude
  import opened Domain
  import opened FeeLaws
  import opened Payments
  import opened Settlement

  /** A created order, with the policy its host fee was taken under. */
  datatype Sale = Sale(order: Order, policy: FeePolicy)

  predicate Exact(s: Sale) {
    && s.order.gross >= 0
    && ValidPolicy(s.policy)
    && CalculateHostFee(s.policy, s.order.gross) == Ok(s.order.hostFee)
    && s.order.providerFee == ProviderFee(s.order.gross)
  }

  function NewSale(s: State, e: Event): seq<Sale> {
    if e.CreatePayment? && e.quote.Quoted? && Step(s, e).reply.Created? then
      [Sale(Step(s, e).reply.order, e.quote.policy)]
    else []
  }

  /** The sales of a run, in order. */
  function Sales(s: State, es: seq<Event>): seq<Sale> {
    if es == [] then [] else Sales(s, es[..|es| - 1]) + NewSale(Run(s, es[..|es| - 1]), es[|es| - 1])
  }

  function Gross(sales: seq<Sale>): int {
    if sales == [] then 0 else Gross(sales[..|sales| - 1]) + sales[|sales| - 1].order.gross
  }

  function ProviderFees(sales: seq<Sale>): int {
    if sales == [] then 0 else ProviderFees(sales[..|sales| - 1]) + sales[|sales| - 1].order.providerFee
  }

  function HostFees(sales: seq<Sale>): int {
    if sales == [] then 0 else HostFees(sales[..|sales| - 1]) + sales[|sales| - 1].order.hostFee
  }

  /** A percent fee before rounding: price times percentage, over a hundred. */
  function ExactFee(gross: int, percent: real): real { gross as real * percent / 100.0 }

  function ExactFees(sales: seq<Sale>): real {
    if sales == [] then 0.0
    else
      var last := sales[|sales| - 1];
      ExactFees(sales[..|sales| - 1]) + ExactFee(last.order.gross, last.policy.value)
  }

  lemma NewSaleExact(s: State, e: Event)
    requires PricedNow(s, e)
    ensures forall sale | sale in NewSale(s, e) :: Exact(sale)
  {
    if e.CreatePayment? && Step(s, e).reply.Created? {
      var f :| PricedWith(s, e, f);
      QuoteBalanced(s.catalogue, e.input, QuoteFaultsOf(s.store, f));
    }
  }

  lemma {:induction false} SalesExact(s: State, es: seq<Event>)
    requires Priced(s, es)
    ensures forall sale | sale in Sales(s, es) :: Exact(sale)
  {
    if es != [] {
      SalesExact(s, es[..|es| - 1]);
      NewSaleExact(Run(s, es[..|es| - 1]), es[|es| - 1]);
    }
  }

  lemma ProviderFeeExact(gross: int)
    requires gross >= 0
    ensures -0.5 <= ProviderFee(gross) as real - gross as real * 0.025 <= 0.5
  {
  }

  predicate HalfPerSale(drift: real, n: nat) { -(n as real) / 2.0 <= drift <= n as real / 2.0 }

  lemma {:induction false} ProviderDrift(sales: seq<Sale>)
    requires forall sale | sale in sales :: Exact(sale)
    ensures HalfPerSale(ProviderFees(sales) as real - Gross(sales) as real * 0.025, |sales|)
  {
    if sales != [] {
      ProviderDrift(sales[..|sales| - 1]);
      assert Exact(sales[|sales| - 1]);
      ProviderFeeExact(sales[|sales| - 1].order.gross);
    }
  }

  /** Over any run, the provider fees of n created orders differ from 2.5 percent of their gross amounts
      by at most n/2. */
  lemma {:induction false} ProviderFeesDrift(s: State, es: seq<Event>)
    requires Priced(s, es)
    ensures var sales := Sales(s, es);
            HalfPerSale(ProviderFees(sales) as real - Gross(sales) as real * 0.025, |sales|)
  {
    SalesExact(s, es);
    ProviderDrift(Sales(s, es));
  }

  /** A percent policy without bounds, rounding by one rule. */
  predicate PlainPercent(p: FeePolicy, rule: string) {
    p.kind == "percent" && p.minFee.None? && p.maxFee.None? && p.rounding == rule
  }

  lemma RoundingError(s: Sale, rule: string)
    requires rule in {"nearest", "floor", "ceil"} && Exact(s) && PlainPercent(s.policy, rule)
    ensures var error := s.order.hostFee as real - ExactFee(s.order.gross, s.policy.value);
            && (rule == "nearest" ==> -0.5 <= error <= 0.5)
            && (rule == "floor" ==> -1.0 < error <= 0.0)
            && (rule == "ceil" ==> 0.0 <= error < 1.0)
  {
    if s.order.gross > 0 { PercentFeeIs(s.policy, s.order.gross); } else { NoFee(s.policy, s.order.gross); }
    assert s.order.gross == 0 ==> s.order.gross as real * s.policy.value == 0.0;
  }

  predicate WithinDrift(rule: string, n: nat, drift: real) {
    && (rule == "nearest" ==> HalfPerSale(drift, n))
    && (rule == "floor" ==> drift <= 0.0 && (n >= 1 ==> -(n as real) < drift) && (n == 0 ==> drift == 0.0))
    && (rule == "ceil" ==> drift >= 0.0 && (n >= 1 ==> drift < n as real) && (n == 0 ==> drift == 0.0))
  }

  lemma OneMore(rule: string, n: nat, drift: real, error: real)
    requires WithinDrift(rule, n, drift)
    requires rule == "nearest" ==> -0.5 <= error <= 0.5
    requires rule == "floor" ==> -1.0 < error <= 0.0
    requires rule == "ceil" ==> 0.0 <= error < 1.0
    ensures WithinDrift(rule, n + 1, drift + error)
  {
  }

  lemma AddSale(front: seq<Sale>, last: Sale)
    ensures HostFees(front + [last]) == HostFees(front) + last.order.hostFee
    ensures ExactFees(front + [last]) == ExactFees(front) + ExactFee(last.order.gross, last.policy.value)
  {
    assert (front + [last])[..|front|] == front;
  }

  lemma {:induction false} HostDrift(sales: seq<Sale>, rule: string)
    requires rule in {"nearest", "floor", "ceil"}
    requires forall sale | sale in sales :: Exact(sale) && PlainPercent(sale.policy, rule)
    ensures WithinDrift(rule, |sales|, HostFees(sales) as real - ExactFees(sales))
  {
    if sales != [] {
      var front, last := sales[..|sales| - 1], sales[|sales| - 1];
      assert sales == front + [last];
      HostDrift(front, rule);
      RoundingError(last, rule);
      AddSale(front, last);
      OneMore(rule, |front|, HostFees(front) as real - ExactFees(front),
              last.order.hostFee as real - ExactFee(last.order.gross, last.policy.value));
    }
  }

  /** Over any run whose sales are all under plain percent policies with one rounding rule, the host fees of n
      orders are within n/2 of the exact sum (nearest), short by less than n (floor), or over by less than n (ceil). */
  lemma {:induction false} HostFeesDrift(s: State, es: seq<Event>, rule: string)
    requires rule in {"nearest", "floor", "ceil"} && Priced(s, es)
    requires forall sale | sale in Sales(s, es) :: PlainPercent(sale.policy, rule)
    ensures WithinDrift(rule, |Sales(s, es)|, HostFees(Sales(s, es)) as real - ExactFees(Sales(s, es)))
  {
    SalesExact(s, es);
    HostDrift(Sales(s, es), rule);
  }
}
