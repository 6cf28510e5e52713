/** Which attempts of the retry loop are followed by another, and what that is worth to a caller whose store fails for
    a while (internal/orchestration/orchestrator.go:350-413). */
module Retries {
  import opened Prelude
  import opened Domain
  import opened Text
  import opened Observability
  import opened Payments
  import opened Invariants
  import opened Effects
  import opened Webhooks
  import opened Agreement

  /** The text holds, in any case of letters, one of the five phrases that end a loop. */
  ghost predicate GivesUp(text: string) {
    var lower := ToLower(text);
    || Holds(lower, "not found") || Holds(lower, "no rows") || Holds(lower, "provider mismatch")
    || Holds(lower, "invalid status transition") || Holds(lower, "unsupported status")
  }

  ghost predicate Holds(text: string, phrase: string) { exists head, tail :: text == head + phrase + tail }

  lemma HoldsIsContains(text: string, phrase: string)
    ensures Holds(text, phrase) <==> Contains(text, phrase)
  {
    if Holds(text, phrase) {
      var head, tail :| text == head + phrase + tail;
      assert text[|head|..|head| + |phrase|] == phrase;
      assert OccursAt(text, phrase, |head|);
    }
    if Contains(text, phrase) {
      var i :| 0 <= i <= |text| && OccursAt(text, phrase, i);
      assert text == text[..i] + phrase + text[i + |phrase|..];
    }
  }

  lemma GivesUpIsFinal(text: string)
    ensures GivesUp(text) <==> !IsRetryable(text)
  {
    var lower := ToLower(text);
    HoldsIsContains(lower, "not found");
    HoldsIsContains(lower, "no rows");
    HoldsIsContains(lower, "provider mismatch");
    HoldsIsContains(lower, "invalid status transition");
    HoldsIsContains(lower, "unsupported status");
  }

  /** Lower-casing maps the capital letters to the small ones, one by one, and keeps everything else. */
  lemma LowerCased(s: string, k: nat)
    requires k < |s|
    ensures forall i | 0 <= i < 26 && s[k] == "ABCDEFGHIJKLMNOPQRSTUVWXYZ"[i] ::
              ToLower(s)[k] == "abcdefghijklmnopqrstuvwxyz"[i]
    ensures !('A' <= s[k] <= 'Z') ==> ToLower(s)[k] == s[k]
  {
    LettersInOrder();
  }

  lemma LettersInOrder()
    ensures forall i | 0 <= i < 26 ::
              && "ABCDEFGHIJKLMNOPQRSTUVWXYZ"[i] as int == 'A' as int + i
              && "abcdefghijklmnopqrstuvwxyz"[i] as int == 'a' as int + i
  {
  }

  // ---------- one attempt ----------

  lemma NextLoop(maxAttempts: int, l: Loop, reply: Reply)
    requires l.Running?
    ensures var next, n := AfterAttempt(maxAttempts, l, reply), l.attempts + 1;
            && (reply.StatusIs? ==> next == Returned(l.call, n, reply.status))
            && (reply.Error? ==> next == if n != maxAttempts && !GivesUp(reply.error) then Running(l.call, n)
                                         else Failed(l.call, n, reply.error))
  {
    if reply.Error? { GivesUpIsFinal(reply.error); }
  }

  /** An attempt returns a status, or is tried again, or ends the loop: it is tried again exactly when it is not the
      last allowed one and its error holds none of the phrases. */
  lemma AttemptDecides(y: System, i: nat, faults: Faults)
    requires IsRunning(y, i)
    ensures var l, o, z := y.loops[i], StepWebhook(y.state, y.loops[i].call, faults), Advance(y, Attempt(i, faults));
            var n := l.attempts + 1;
            && (o.reply.StatusIs? ==>
                  z == System(o.state, y.maxAttempts, y.loops[i := Returned(l.call, n, o.reply.status)]))
            && (o.reply.Error? ==>
                  if n != y.maxAttempts && !GivesUp(o.reply.error)
                  then z == System(o.state.(service := o.state.service.Inc(WebhookRetry)), y.maxAttempts,
                                   y.loops[i := Running(l.call, n)])
                  else z == System(o.state, y.maxAttempts, y.loops[i := Failed(l.call, n, o.reply.error)]))
            && (o.reply.StatusIs? || o.reply.Error?)
  {
    RepliesToWebhook(y.state, y.loops[i].call, faults);
    NextLoop(y.maxAttempts, y.loops[i], StepWebhook(y.state, y.loops[i].call, faults).reply);
  }

  /** A cancelled loop ends with the error of its context and the attempts made so far, and touches nothing else. */
  lemma CancelEnds(y: System, i: nat, error: string)
    requires IsRunning(y, i)
    ensures Advance(y, Cancel(i, error))
         == System(y.state, y.maxAttempts, y.loops[i := Failed(y.loops[i].call, y.loops[i].attempts, error)])
  {
  }

  // ---------- attempts that fail for a while ----------

  /** The store fails at its read, or at a save it does not apply, with a text that holds none of the phrases. */
  ghost predicate PassingFault(f: Faults) {
    if f.order.Some? then !GivesUp(f.order.value)
    else f.save.SaveFailed? && !f.save.applied && !GivesUp(f.save.error)
  }

  /** Loop i is running for an order in SQLite that is open to its call, which brings one of the three statuses. */
  predicate Waiting(y: System, i: nat, c: Call, n: nat, o: Order) {
    && i < |y.loops| && y.loops[i] == Running(c, n) && y.state.store.Sqlite?
    && Open(y.state, c, NO_FAULTS, o) && Ended(c.status)
  }

  function Attempts(i: nat, fs: seq<Faults>): seq<Move> { seq(|fs|, k requires 0 <= k < |fs| => Attempt(i, fs[k])) }

  lemma AttemptsSnoc(y: System, i: nat, fs: seq<Faults>, f: Faults)
    ensures Play(y, Attempts(i, fs + [f])) == Advance(Play(y, Attempts(i, fs)), Attempt(i, f))
    ensures AllAllowed(y, Attempts(i, fs + [f])) <==> AllAllowed(y, Attempts(i, fs))
  {
    var moves := Attempts(i, fs + [f]);
    assert moves[..|moves| - 1] == Attempts(i, fs);
  }

  lemma PassingFails(s: State, c: Call, f: Faults, o: Order)
    requires s.store.Sqlite? && Open(s, c, NO_FAULTS, o) && Ended(c.status) && PassingFault(f)
    ensures StepWebhook(s, c, f).reply.Error? && !GivesUp(StepWebhook(s, c, f).reply.error)
    ensures StepWebhook(s, c, f).state.store == s.store
    ensures StepWebhook(s, c, f).state.service.idempotent == s.service.idempotent
  {
    if f.order.Some? { UnreadOrder(s, c, f); } else { SaveFails(s, c, f, o); }
  }

  lemma PassingIsRetried(y: System, i: nat, c: Call, n: nat, o: Order, f: Faults)
    requires Waiting(y, i, c, n, o) && n + 1 < y.maxAttempts && PassingFault(f)
    ensures Waiting(Advance(y, Attempt(i, f)), i, c, n + 1, o)
    ensures Advance(y, Attempt(i, f)).maxAttempts == y.maxAttempts
    ensures Advance(y, Attempt(i, f)).state.store == y.state.store
  {
    PassingFails(y.state, c, f, o);
    AttemptDecides(y, i, f);
  }

  /** As long as attempts are left, passing faults keep the loop running and the store as it was. */
  lemma {:induction false} FaultsOutlasted(y: System, i: nat, c: Call, n: nat, o: Order, fs: seq<Faults>)
    requires Waiting(y, i, c, n, o) && n + |fs| < y.maxAttempts && forall f | f in fs :: PassingFault(f)
    ensures Waiting(Play(y, Attempts(i, fs)), i, c, n + |fs|, o)
    ensures Play(y, Attempts(i, fs)).maxAttempts == y.maxAttempts
    ensures Play(y, Attempts(i, fs)).state.store == y.state.store
    ensures AllAllowed(y, Attempts(i, fs))
  {
    if fs == [] {
      assert Attempts(i, fs) == [];
    } else {
      var front, f := fs[..|fs| - 1], fs[|fs| - 1];
      assert fs == front + [f];
      FaultsOutlasted(y, i, c, n, o, front);
      AttemptsSnoc(y, i, front, f);
      PassingIsRetried(Play(y, Attempts(i, front)), i, c, n + |front|, o, f);
    }
  }

  /** Loop i has returned the status it brought, after so many attempts, and the store holds it. */
  predicate Done(y: System, i: nat, c: Call, attempts: nat, o: Order) {
    && i < |y.loops| && y.loops[i] == Returned(c, attempts, c.status)
    && GetOrder(y.state.store, c.reference) == Ok(o.(status := c.status))
  }

  lemma SettlesNow(y: System, i: nat, c: Call, n: nat, o: Order, f: Faults)
    requires Waiting(y, i, c, n, o) && WellFormed(y.state.store) && f.order.None? && f.save.SaveOk?
    ensures Done(Advance(y, Attempt(i, f)), i, c, n + 1, o)
  {
    SettlesStore(y.state, c, f, o);
    AttemptDecides(y, i, f);
  }

  lemma SettlesStore(s: State, c: Call, f: Faults, o: Order)
    requires Open(s, c, f, o) && Ended(c.status) && WellFormed(s.store) && f.save.SaveOk?
    ensures StepWebhook(s, c, f).reply == StatusIs(c.status)
    ensures GetOrder(StepWebhook(s, c, f).state.store, c.reference) == Ok(o.(status := c.status))
  {
    Accepted(s, c, f, o);
    SavedStatus(s.store, o, c.status, KeptLedger(s, c, f, o), c.reference);
  }

  /** A loop outlasts a store that fails for a while: if its first k attempts fail at a read or at a save that is not
      applied, with texts that do not end the loop, fewer than the policy allows, and the next one is spared, the loop
      returns its status after k + 1 attempts, and the store holds it. */
  lemma {:induction false} RetriedToSuccess(y: System, i: nat, c: Call, o: Order, fs: seq<Faults>, last: Faults)
    requires Waiting(y, i, c, 0, o) && WellFormed(y.state.store) && |fs| < y.maxAttempts
    requires (forall f | f in fs :: PassingFault(f)) && last.order.None? && last.save.SaveOk?
    ensures AllAllowed(y, Attempts(i, fs + [last]))
    ensures Done(Play(y, Attempts(i, fs + [last])), i, c, |fs| + 1, o)
  {
    FaultsOutlasted(y, i, c, 0, o, fs);
    AttemptsSnoc(y, i, fs, last);
    SettlesNow(Play(y, Attempts(i, fs)), i, c, |fs|, o, last);
  }

  /** An attempt whose save is applied and yet reported as failed. */
  ghost predicate LostReply(f: Faults) {
    f.order.None? && f.save.SaveFailed? && f.save.applied && !GivesUp(f.save.error)
  }

  lemma LostReplyIsRetried(y: System, i: nat, c: Call, n: nat, o: Order, f: Faults)
    requires Waiting(y, i, c, n, o) && WellFormed(y.state.store) && n + 1 < y.maxAttempts && LostReply(f)
    ensures var z := Advance(y, Attempt(i, f));
            && z.maxAttempts == y.maxAttempts && z.state.store.Sqlite?
            && i < |z.loops| && z.loops[i] == Running(c, n + 1)
            && GetOrder(z.state.store, c.reference) == Ok(o.(status := c.status)) && !Recorded(z.state, c)
  {
    SaveFails(y.state, c, f, o);
    SavedStatus(y.state.store, o, c.status, KeptLedger(y.state, c, f, o), c.reference);
    AttemptDecides(y, i, f);
  }

  /** ... and if the last failing save was applied after all, the next attempt finds its status stored and returns it,
      saving nothing, so that its own save cannot fail. */
  lemma {:induction false} LostReplyFound(y: System, i: nat, c: Call, o: Order, fs: seq<Faults>, lost: Faults,
                                          last: Faults)
    requires Waiting(y, i, c, 0, o) && WellFormed(y.state.store) && |fs| + 1 < y.maxAttempts
    requires (forall f | f in fs :: PassingFault(f)) && LostReply(lost) && last.order.None?
    ensures AllAllowed(y, Attempts(i, fs + [lost] + [last]))
    ensures Done(Play(y, Attempts(i, fs + [lost] + [last])), i, c, |fs| + 2, o)
  {
    FaultsOutlasted(y, i, c, 0, o, fs);
    AttemptsSnoc(y, i, fs, lost);
    AttemptsSnoc(y, i, fs + [lost], last);
    LostReplyIsRetried(Play(y, Attempts(i, fs)), i, c, |fs|, o, lost);
    FoundStored(Play(y, Attempts(i, fs + [lost])), i, c, |fs| + 1, o, last);
  }

  lemma FoundStored(z: System, i: nat, c: Call, n: nat, o: Order, last: Faults)
    requires i < |z.loops| && z.loops[i] == Running(c, n) && z.state.store.Sqlite? && last.order.None?
    requires GetOrder(z.state.store, c.reference) == Ok(o.(status := c.status)) && !Recorded(z.state, c)
    requires o.provider == c.provider && Ended(c.status)
    ensures Done(Advance(z, Attempt(i, last)), i, c, n + 1, o)
  {
    EndedOrder(z.state, c, last, o.(status := c.status));
    AttemptDecides(z, i, last);
  }
}
