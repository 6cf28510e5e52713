/** Any number of webhook retry loops, interleaved with each other and with everything else, over a store
    whose saves may be applied and still report an error
    (internal/orchestration/orchestrator.go:344-413). */
module Agreement {
  import opened Prelude
  import opened Text
  import opened Domain
  import opened Observability
  import opened Catalogues
  import opened Payments
  import opened Invariants
  import T = Tables

  // ---------- which errors are retried ----------

  predicate IsRetryable(error: string) {
    var text := ToLower(error);
    && !Contains(text, "not found")
    && !Contains(text, "no rows")
    && !Contains(text, PROVIDER_MISMATCH)
    && !Contains(text, INVALID_TRANSITION)
    && !Contains(text, UNSUPPORTED_STATUS)
  }

  /** The errors the service raises itself are never retried, whatever text the statuses hold. */
  lemma {:induction false} OwnErrorsAreFinal(from: Status, to: Status)
    ensures !IsRetryable(T.ORDER_NOT_FOUND)
    ensures !IsRetryable(PROVIDER_MISMATCH)
    ensures !IsRetryable(TransitionError(from, to))
    ensures !IsRetryable(StatusError(to))
  {
    PhrasesAreLower();
    PrefixContained(INVALID_TRANSITION, ": " + from + " -> " + to);
    PrefixContained(UNSUPPORTED_STATUS, ": " + to);
    assert PROVIDER_MISMATCH + "" == PROVIDER_MISMATCH;
    PrefixContained(PROVIDER_MISMATCH, "");
    assert OccursAt(ToLower(T.ORDER_NOT_FOUND), "not found", 8);
  }

  lemma PhrasesAreLower()
    ensures ToLower(INVALID_TRANSITION) == INVALID_TRANSITION
    ensures ToLower(UNSUPPORTED_STATUS) == UNSUPPORTED_STATUS
    ensures ToLower(PROVIDER_MISMATCH) == PROVIDER_MISMATCH
  {
  }

  /** A retried attempt was stopped by the store: its read failed, or its write did. */
  lemma RetriedMeansStoreFault(s: State, c: Call, faults: Faults)
    requires var o := StepWebhook(s, c, faults); o.reply.Error? && IsRetryable(o.reply.error)
    ensures faults.order.Some? || faults.save.SaveFailed?
    ensures StepWebhook(s, c, faults).state.service.deadLetters == s.service.deadLetters
  {
    if Known(s.store, c.reference) {
      OwnErrorsAreFinal(OrderOf(s.store, c.reference).status, c.status);
    } else {
      OwnErrorsAreFinal("", c.status);
    }
  }

  // ---------- one retry loop ----------

  /** A call of the retry loop: between attempts, or finished with the attempt count it reports. */
  datatype Loop =
    | Running(call: Call, attempts: nat)
    | Returned(call: Call, attempts: nat, status: Status)
    | Failed(call: Call, attempts: nat, error: string)

  /** With no attempt allowed the loop returns at once: an empty status and no error. */
  function Begin(maxAttempts: int, c: Call): Loop {
    if maxAttempts < 1 then Returned(c, 0, "") else Running(c, 0)
  }

  function AfterAttempt(maxAttempts: int, l: Loop, reply: Reply): Loop
    requires l.Running?
  {
    var n := l.attempts + 1;
    if reply.StatusIs? then Returned(l.call, n, reply.status)
    else
      var error := if reply.Error? then reply.error else "";
      if !IsRetryable(error) || n == maxAttempts then Failed(l.call, n, error) else Running(l.call, n)
  }

  // ---------- many loops ----------

  datatype System = System(state: State, maxAttempts: int, loops: seq<Loop>)

  /** The mutex makes each attempt one step; between attempts anything else may run. */
  datatype Move =
    | Start(call: Call)
    | Attempt(i: nat, faults: Faults)
    | Cancel(i: nat, error: string)
    | Other(event: Event)

  predicate IsRunning(y: System, i: nat) { i < |y.loops| && y.loops[i].Running? }

  function Try(y: System, i: nat, faults: Faults): System
    requires IsRunning(y, i)
  {
    var o := StepWebhook(y.state, y.loops[i].call, faults);
    var l := AfterAttempt(y.maxAttempts, y.loops[i], o.reply);
    var service := if l.Running? then o.state.service.Inc(WebhookRetry) else o.state.service;
    y.(state := o.state.(service := service), loops := y.loops[i := l])
  }

  /** The system after an attempt, from the outcome of its webhook. */
  lemma TryIs(y: System, i: nat, faults: Faults, o: Outcome, l: Loop)
    requires IsRunning(y, i) && o == StepWebhook(y.state, y.loops[i].call, faults)
    requires l == AfterAttempt(y.maxAttempts, y.loops[i], o.reply)
    ensures l.call == y.loops[i].call && l.attempts == y.loops[i].attempts + 1
    ensures l.Running? ==> l.attempts != y.maxAttempts
    ensures Advance(y, Attempt(i, faults))
         == y.(state := if l.Running? then o.state.(service := o.state.service.Inc(WebhookRetry)) else o.state,
               loops := y.loops[i := l])
  {
  }

  function Advance(y: System, m: Move): System {
    match m
    case Start(c) => y.(loops := y.loops + [Begin(y.maxAttempts, c)])
    case Attempt(i, faults) => if IsRunning(y, i) then Try(y, i, faults) else y
    case Cancel(i, error) =>
      if IsRunning(y, i) then y.(loops := y.loops[i := Failed(y.loops[i].call, y.loops[i].attempts, error)]) else y
    case Other(e) => y.(state := Step(y.state, e).state)
  }

  function Play(y: System, moves: seq<Move>): System {
    if moves == [] then y else Advance(Play(y, moves[..|moves| - 1]), moves[|moves| - 1])
  }

  predicate Allowed(y: System, m: Move) { m.Other? ==> Fresh(y.state, m.event) }

  predicate AllAllowed(y: System, moves: seq<Move>) {
    moves == [] || (AllAllowed(y, moves[..|moves| - 1]) && Allowed(Play(y, moves[..|moves| - 1]), moves[|moves| - 1]))
  }

  function Launch(c: Catalogue, b: Backend, maxAttempts: int): System {
    System(NewState(c, b), maxAttempts, [])
  }

  // ---------- agreement ----------

  /** A loop that returned without an error reported a terminal status, and the store holds it. */
  predicate Truthful(b: Backend, l: Loop) {
    l.Returned? ==>
      && Known(b, l.call.reference)
      && l.status == OrderOf(b, l.call.reference).status
      && Terminal(l.status)
  }

  ghost predicate Agreed(y: System) { forall i | 0 <= i < |y.loops| :: Truthful(y.state.store, y.loops[i]) }

  ghost predicate SystemInv(y: System) {
    && y.maxAttempts >= 1
    && Agreed(y)
    && exists triples :: Inv(y.state, triples)
  }

  lemma AllTruthfulStay(b: Backend, b': Backend, loops: seq<Loop>)
    requires Evolves(b, b') && forall i | 0 <= i < |loops| :: Truthful(b, loops[i])
    ensures forall i | 0 <= i < |loops| :: Truthful(b', loops[i])
  {
  }

  lemma TryKeepsInv(y: System, i: nat, faults: Faults)
    requires SystemInv(y) && IsRunning(y, i)
    ensures SystemInv(Try(y, i, faults))
  {
    var triples :| Inv(y.state, triples);
    var l := y.loops[i];
    WebhookStep(y.state, triples, l.call, faults);
    var o := StepWebhook(y.state, l.call, faults);
    AllTruthfulStay(y.state.store, o.state.store, y.loops);
    assert Truthful(o.state.store, AfterAttempt(y.maxAttempts, l, o.reply));
    assert Inv(Try(y, i, faults).state, NextTriples(y.state, triples, ReconcileWebhook(l.call, faults)));
  }

  lemma AdvanceKeepsInv(y: System, m: Move)
    requires SystemInv(y) && Allowed(y, m)
    ensures SystemInv(Advance(y, m))
  {
    match m
    case Attempt(i, faults) => if IsRunning(y, i) { TryKeepsInv(y, i, faults); }
    case Other(e) =>
      var triples :| Inv(y.state, triples);
      StepKeepsInv(y.state, triples, e);
      AllTruthfulStay(y.state.store, Step(y.state, e).state.store, y.loops);
    case _ =>
      assert Advance(y, m).state == y.state;
  }

  /** Once a loop has returned, its answer and the stored status stay equal whatever happens next. */
  lemma {:induction false} AgreementLasts(y: System, moves: seq<Move>)
    requires SystemInv(y) && AllAllowed(y, moves)
    ensures SystemInv(Play(y, moves))
    ensures |y.loops| <= |Play(y, moves).loops|
    ensures forall i | 0 <= i < |y.loops| && !y.loops[i].Running? :: Play(y, moves).loops[i] == y.loops[i]
  {
    if moves != [] {
      AgreementLasts(y, moves[..|moves| - 1]);
      AdvanceKeepsInv(Play(y, moves[..|moves| - 1]), moves[|moves| - 1]);
    }
  }

  /** Agreement: all loops that return without error for one reference return one and the same terminal
      status, in every interleaving and under every fault. */
  lemma RetryLoopsAgree(c: Catalogue, b: Backend, maxAttempts: int, moves: seq<Move>, i: nat, j: nat)
    requires maxAttempts >= 1 && EmptyStore(b)
    requires AllAllowed(Launch(c, b, maxAttempts), moves)
    requires var loops := Play(Launch(c, b, maxAttempts), moves).loops;
             && i < |loops| && j < |loops| && loops[i].Returned? && loops[j].Returned?
             && loops[i].call.reference == loops[j].call.reference
    ensures var y := Play(Launch(c, b, maxAttempts), moves);
            && y.loops[i].status == y.loops[j].status && Terminal(y.loops[i].status)
            && GetOrder(y.state.store, y.loops[i].call.reference).Ok?
            && GetOrder(y.state.store, y.loops[i].call.reference).value.status == y.loops[i].status
  {
    var y := Launch(c, b, maxAttempts);
    NewServiceInv(c, b);
    assert Inv(y.state, {});
    AgreementLasts(y, moves);
    assert Truthful(Play(y, moves).state.store, Play(y, moves).loops[i]);
    assert Truthful(Play(y, moves).state.store, Play(y, moves).loops[j]);
  }

  /** The loops agree in all runs exactly when the policy allows at least one attempt. */
  lemma AgreementNeedsOneAttempt(c: Catalogue, b: Backend, maxAttempts: int)
    requires EmptyStore(b)
    ensures (forall moves | AllAllowed(Launch(c, b, maxAttempts), moves) ::
               Agreed(Play(Launch(c, b, maxAttempts), moves)))
       <==> maxAttempts >= 1
  {
    var y := Launch(c, b, maxAttempts);
    if maxAttempts >= 1 {
      NewServiceInv(c, b);
      assert Inv(y.state, {});
      forall moves | AllAllowed(y, moves) ensures Agreed(Play(y, moves)) { AgreementLasts(y, moves); }
    } else {
      var m := Start(Call("", "", SUCCESS, ""));
      assert [m][..0] == [];
      assert AllAllowed(y, []) && Play(y, []) == y;
      assert AllAllowed(y, [m]);
      assert Play(y, [m]).loops == [Returned(m.call, 0, "")];
      assert !Truthful(y.state.store, Play(y, [m]).loops[0]);
      assert !Agreed(Play(y, [m]));
    }
  }

  // ---------- counting attempts ----------

  /** Webhook calls loop i has made, and dead letters it has pushed. */
  function Made(y: System, moves: seq<Move>, i: nat): nat {
    if moves == [] then 0
    else
      var before, m := Play(y, moves[..|moves| - 1]), moves[|moves| - 1];
      Made(y, moves[..|moves| - 1], i) + if m.Attempt? && m.i == i && IsRunning(before, i) then 1 else 0
  }

  function Pushed(y: System, moves: seq<Move>, i: nat): nat {
    if moves == [] then 0
    else
      var before, m := Play(y, moves[..|moves| - 1]), moves[|moves| - 1];
      Pushed(y, moves[..|moves| - 1], i)
      + if m.Attempt? && m.i == i && IsRunning(before, i)
           && |Advance(before, m).state.service.deadLetters| > |before.state.service.deadLetters| then 1 else 0
  }

  /** Each loop reports exactly the number of webhook calls it made, never more than the policy allows,
      and together they push at most one dead letter, the last of them. */
  lemma {:induction false} AttemptsCounted(y: System, moves: seq<Move>, i: nat)
    requires y.loops == [] && y.maxAttempts >= 1
    ensures Play(y, moves).maxAttempts == y.maxAttempts
    ensures i >= |Play(y, moves).loops| ==> Made(y, moves, i) == Pushed(y, moves, i) == 0
    ensures i < |Play(y, moves).loops| ==>
              var l := Play(y, moves).loops[i];
              && l.attempts == Made(y, moves, i) <= y.maxAttempts
              && (l.Running? ==> l.attempts < y.maxAttempts && Pushed(y, moves, i) == 0)
              && Pushed(y, moves, i) <= 1
  {
    if moves != [] {
      AttemptsCounted(y, moves[..|moves| - 1], i);
      var before, m := Play(y, moves[..|moves| - 1]), moves[|moves| - 1];
      if m.Attempt? && m.i == i && IsRunning(before, i) {
        var o := StepWebhook(before.state, before.loops[i].call, m.faults);
        if o.reply.Error? && IsRetryable(o.reply.error) {
          RetriedMeansStoreFault(before.state, before.loops[i].call, m.faults);
        }
        RepliesToWebhook(before.state, before.loops[i].call, m.faults);
      }
    }
  }

  lemma RepliesToWebhook(s: State, c: Call, faults: Faults)
    ensures StepWebhook(s, c, faults).reply.StatusIs? || StepWebhook(s, c, faults).reply.Error?
  {
  }

  // ---------- putting moves together ----------

  lemma {:induction false} PlayConcat(y: System, a: seq<Move>, b: seq<Move>)
    ensures Play(y, a + b) == Play(Play(y, a), b)
    ensures AllAllowed(y, a) && AllAllowed(Play(y, a), b) ==> AllAllowed(y, a + b)
  {
    if b == [] {
      assert a + b == a;
    } else {
      PlayConcat(y, a, b[..|b| - 1]);
      assert (a + b)[..|a + b| - 1] == a + b[..|b| - 1];
    }
  }

  /** `z` is what allowed moves make of `y`. */
  ghost predicate Follows(y: System, moves: seq<Move>, z: System) { z == Play(y, moves) && AllAllowed(y, moves) }

  lemma FollowsConcat(x: System, a: seq<Move>, y: System, b: seq<Move>, z: System)
    requires Follows(x, a, y) && Follows(y, b, z)
    ensures Follows(x, a + b, z)
  {
    PlayConcat(x, a, b);
  }

  lemma FollowsOne(y: System, m: Move)
    requires Allowed(y, m)
    ensures Follows(y, [m], Advance(y, m))
  {
  }
}
