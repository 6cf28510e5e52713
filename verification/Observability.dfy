/** Counters, the audit trail, the dead-letter queue and the retry policy
    (internal/observability/observability.go). */
module Observability {
  import opened Prelude

  // ---------- counters ----------

  /** The eleven labels below `payments.create.error.`. */
  datatype CreateCause =
    | HostNotFound | HostInvalid | ProductNotFound | ProductInvalid | ProductInactive | ProductMismatch
    | Fee | Settlement | ProviderMissing | Gateway | Store

  /** One constructor for each counter label the service uses. */
  datatype Metric =
    | Create | CreateError(cause: CreateCause)
    | Get | GetNotFound | LedgerNotFound
    | Webhook | WebhookNotFound | WebhookProviderMismatch | WebhookIdempotent | WebhookInvalidTransition
    | WebhookInvalidStatus | WebhookSuccess | WebhookRetry

  type Counters = map<Metric, nat>

  function Count(c: Counters, m: Metric): nat { if m in c then c[m] else 0 }

  function Bump(c: Counters, m: Metric): (r: Counters)
    ensures forall k :: Count(r, k) == Count(c, k) + if k == m then 1 else 0
  {
    c[m := Count(c, m) + 1]
  }

  class Collector {
    var counters: Counters

    constructor ()
      ensures counters == map[]
    {
      counters := map[];
    }

    method Inc(m: Metric)
      modifies this
      ensures counters == Bump(old(counters), m)
    {
      var n := if m in counters then counters[m] else 0;
      counters := counters[m := n + 1];
    }
  }

  // ---------- audit trail ----------

  datatype AuditEvent =
    | PaymentCreated(reference: string, host: string, provider: string)
    | PaymentWebhook(reference: string, provider: string, status: string)

  class AuditTrail {
    var events: seq<AuditEvent>

    constructor ()
      ensures events == []
    {
      events := [];
    }

    method Append(e: AuditEvent)
      modifies this
      ensures events == old(events) + [e]
    {
      events := events + [e];
    }
  }

  // ---------- dead letters ----------

  datatype DeadLetter = DeadLetter(reference: string, provider: string, reason: string, payload: string)

  class DeadLetterQueue {
    var items: seq<DeadLetter>

    constructor ()
      ensures items == []
    {
      items := [];
    }

    method Push(item: DeadLetter)
      modifies this
      ensures items == old(items) + [item]
    {
      items := items + [item];
    }

    method Drain() returns (drained: seq<DeadLetter>)
      modifies this
      ensures drained == old(items) && items == []
    {
      drained := items;
      items := [];
    }
  }

  // ---------- retry policy ----------

  /** Delays are counted in nanoseconds. */
  datatype RetryPolicy = RetryPolicy(maxAttempts: int, baseDelay: int, maxDelay: int, multiplier: real)

  function Pow(m: real, k: nat): real { if k == 0 then 1.0 else m * Pow(m, k - 1) }

  /** Conversion of a float to an integer drops the fraction. */
  function Truncate(x: real): int { if x >= 0.0 then x.Floor else -((-x).Floor) }

  function Uncapped(p: RetryPolicy, retries: nat): real { p.baseDelay as real * Pow(p.multiplier, retries) }

  function UncappedDelay(p: RetryPolicy, retries: nat): int {
    Truncate(Uncapped(p, retries))
  }

  function DelayForAttempt(p: RetryPolicy, attempt: int): int {
    var delay := UncappedDelay(p, (if attempt <= 0 then 1 else attempt) - 1);
    if p.maxDelay > 0 && delay > p.maxDelay then p.maxDelay else delay
  }

  /** f(1) + ... + f(n). */
  function Total(f: int -> int, n: nat): int { if n == 0 then 0 else Total(f, n - 1) + f(n) }

  function TotalReal(g: int -> real, n: nat): real { if n == 0 then 0.0 else TotalReal(g, n - 1) + g(n) }

  function Delays(p: RetryPolicy): int -> int { a => DelayForAttempt(p, a) }

  /** Time slept after the first n attempts. */
  function TotalWait(p: RetryPolicy, n: nat): int { Total(Delays(p), n) }

  function Terms(base: real, m: real): int -> real { k => if k < 1 then 0.0 else base * Pow(m, k - 1) }

  /** base + base*m + ... , n terms. */
  function GeometricSum(base: real, m: real, n: nat): real { TotalReal(Terms(base, m), n) }

  lemma {:induction false} GeometricClosedForm(base: real, m: real, n: nat)
    ensures GeometricSum(base, m, n) * (m - 1.0) == base * (Pow(m, n) - 1.0)
  {
    if n > 0 {
      GeometricClosedForm(base, m, n - 1);
      var q := Pow(m, n - 1);
      assert GeometricSum(base, m, n) == GeometricSum(base, m, n - 1) + base * q;
      assert base * q * (m - 1.0) == base * (m * q - 1.0) - base * (q - 1.0);
    }
  }

  lemma {:induction false} Bernoulli(m: real, k: nat)
    requires m >= 1.0
    ensures Pow(m, k) >= 1.0 + k as real * (m - 1.0)
    ensures Pow(m, k) >= 1.0
  {
    if k > 0 {
      Bernoulli(m, k - 1);
      var q := Pow(m, k - 1);
      assert m * q == q + (m - 1.0) * q;
      assert (m - 1.0) * q >= m - 1.0;
    }
  }

  lemma Scale(a: real, x: real, y: real)
    requires a >= 0.0 && x <= y
    ensures a * x <= a * y
  {
  }

  lemma TruncateMonotone(x: real, y: real)
    requires x <= y
    ensures Truncate(x) <= Truncate(y)
  {
  }

  lemma DelayGrows(p: RetryPolicy, attempt: int)
    requires p.multiplier >= 1.0 && (p.baseDelay >= 0 || p.multiplier == 1.0) && attempt >= 1
    ensures DelayForAttempt(p, attempt) <= DelayForAttempt(p, attempt + 1)
  {
    var b, m, q := p.baseDelay as real, p.multiplier, Pow(p.multiplier, attempt - 1);
    Bernoulli(m, attempt - 1);
    assert Pow(m, attempt) == m * q;
    assert b * q <= b * (m * q) by {
      if p.baseDelay >= 0 {
        Scale(q, 1.0, m);
        Scale(b, q, m * q);
      }
    }
    TruncateMonotone(b * q, b * (m * q));
    assert UncappedDelay(p, attempt - 1) <= UncappedDelay(p, attempt);
  }

  /** A negative base delay with a multiplier above one shrinks sooner or later. */
  lemma NegativeBaseShrinks(p: RetryPolicy) returns (attempt: int)
    requires p.multiplier > 1.0 && p.baseDelay < 0
    ensures attempt >= 1 && DelayForAttempt(p, attempt) < DelayForAttempt(p, 1)
  {
    var step := p.multiplier - 1.0;
    var k: nat := (1.0 / step).Floor + 1;
    assert k as real * step >= 1.0;
    Bernoulli(p.multiplier, k);
    var b := -p.baseDelay as real;
    assert b * Pow(p.multiplier, k) >= b * 2.0;
    assert Pow(p.multiplier, 0) == 1.0;
    attempt := k + 1;
  }

  lemma {:induction false} DelaysChained(p: RetryPolicy, attempt: int)
    requires forall a | a >= 1 :: DelayForAttempt(p, a) <= DelayForAttempt(p, a + 1)
    requires attempt >= 1
    ensures DelayForAttempt(p, 1) <= DelayForAttempt(p, attempt)
  {
    if attempt > 1 { DelaysChained(p, attempt - 1); }
  }

  /** With a multiplier of at least one, the delays never shrink exactly when the base delay is
      not negative or the multiplier is one. */
  lemma DelaysNonDecreasing(p: RetryPolicy)
    requires p.multiplier >= 1.0
    ensures (forall a | a >= 1 :: DelayForAttempt(p, a) <= DelayForAttempt(p, a + 1))
       <==> (p.baseDelay >= 0 || p.multiplier == 1.0)
  {
    if p.baseDelay >= 0 || p.multiplier == 1.0 {
      forall a | a >= 1 ensures DelayForAttempt(p, a) <= DelayForAttempt(p, a + 1) { DelayGrows(p, a); }
    } else if forall a | a >= 1 :: DelayForAttempt(p, a) <= DelayForAttempt(p, a + 1) {
      var attempt := NegativeBaseShrinks(p);
      DelaysChained(p, attempt);
    }
  }

  /** A delay is base times multiplier to the number of earlier attempts, its fraction dropped, unless that is above a
      cap that is set; attempts count from one. */
  lemma DelayIs(p: RetryPolicy, attempt: int)
    ensures var exact := Uncapped(p, if attempt < 1 then 0 else attempt - 1);
            var delay := DelayForAttempt(p, attempt);
            if p.maxDelay > 0 && exact >= p.maxDelay as real + 1.0 then delay == p.maxDelay
            else if exact >= 0.0 then exact - 1.0 < delay as real <= exact
            else exact <= delay as real < exact + 1.0
  {
    var retries := if attempt < 1 then 0 else attempt - 1;
    TruncateIs(Uncapped(p, retries));
    assert UncappedDelay(p, retries) == Truncate(Uncapped(p, retries));
  }

  lemma TruncateIs(x: real)
    ensures if x >= 0.0 then x - 1.0 < Truncate(x) as real <= x else x <= Truncate(x) as real < x + 1.0
  {
  }

  /** The first delay is the base delay; each retry multiplies once more. */
  lemma UncappedGrows(p: RetryPolicy, retries: nat)
    ensures Uncapped(p, 0) == p.baseDelay as real
    ensures Uncapped(p, retries + 1) == Uncapped(p, retries) * p.multiplier
  {
    var b, m, q := p.baseDelay as real, p.multiplier, Pow(p.multiplier, retries);
    assert Pow(m, retries + 1) == m * q;
    Regroup(b, m, q);
  }

  lemma Regroup(b: real, m: real, q: real)
    ensures b * (m * q) == b * q * m
  {
  }

  lemma DelayBounds(p: RetryPolicy, attempt: int)
    requires p.multiplier >= 1.0 && p.maxDelay > 0 && p.baseDelay >= 0 && attempt >= 1
    ensures 0 <= DelayForAttempt(p, attempt) <= p.maxDelay
    ensures DelayForAttempt(p, attempt) as real <= p.baseDelay as real * Pow(p.multiplier, attempt - 1)
  {
    Bernoulli(p.multiplier, attempt - 1);
    Scale(p.baseDelay as real, 0.0, Pow(p.multiplier, attempt - 1));
  }

  lemma {:induction false} TotalBelowCaps(f: int -> int, cap: int, n: nat)
    requires forall a | a >= 1 :: 0 <= f(a) <= cap
    ensures 0 <= Total(f, n) <= n * cap
  {
    if n > 0 {
      TotalBelowCaps(f, cap, n - 1);
      assert 0 <= f(n) <= cap;
      assert n * cap == (n - 1) * cap + cap;
    }
  }

  lemma {:induction false} TotalBelow(f: int -> int, g: int -> real, n: nat)
    requires forall a | a >= 1 :: f(a) as real <= g(a)
    ensures Total(f, n) as real <= TotalReal(g, n)
  {
    if n > 0 {
      TotalBelow(f, g, n - 1);
      assert f(n) as real <= g(n);
    }
  }

  /** With a cap and a non-negative base delay, n sleeps together last at most n caps, and at most the uncapped
      geometric series. */
  lemma TotalWaitBounded(p: RetryPolicy, n: nat)
    requires p.multiplier >= 1.0 && p.maxDelay > 0 && p.baseDelay >= 0
    ensures 0 <= TotalWait(p, n) <= n * p.maxDelay
    ensures TotalWait(p, n) as real <= GeometricSum(p.baseDelay as real, p.multiplier, n)
  {
    var f, g := Delays(p), Terms(p.baseDelay as real, p.multiplier);
    forall a | a >= 1 ensures 0 <= f(a) <= p.maxDelay && f(a) as real <= g(a) {
      DelayBounds(p, a);
    }
    TotalBelowCaps(f, p.maxDelay, n);
    TotalBelow(f, g, n);
  }

  lemma {:induction false} MoreTerms(base: real, m: real, n: nat, n': nat)
    requires base >= 0.0 && m >= 1.0 && n <= n'
    ensures GeometricSum(base, m, n) <= GeometricSum(base, m, n')
  {
    if n < n' {
      MoreTerms(base, m, n, n' - 1);
      Bernoulli(m, n' - 1);
      Scale(base, 0.0, Pow(m, n' - 1));
    }
  }

  /** A loop that sleeps fewer times than it may try waits at most MaxAttempts - 1 caps, and at most the
      geometric series of as many terms. */
  lemma LoopWaitBounded(p: RetryPolicy, slept: nat)
    requires p.multiplier >= 1.0 && p.maxDelay > 0 && p.baseDelay >= 0 && slept < p.maxAttempts
    ensures 0 <= TotalWait(p, slept) <= (p.maxAttempts - 1) * p.maxDelay
    ensures TotalWait(p, slept) as real <= GeometricSum(p.baseDelay as real, p.multiplier, p.maxAttempts - 1)
  {
    TotalWaitBounded(p, slept);
    MoreTerms(p.baseDelay as real, p.multiplier, slept, p.maxAttempts - 1);
    MoreCaps(slept, p.maxAttempts - 1, p.maxDelay);
  }

  lemma MoreCaps(n: nat, n': nat, cap: int)
    requires n <= n' && cap >= 0
    ensures n * cap <= n' * cap
  {
  }
}
