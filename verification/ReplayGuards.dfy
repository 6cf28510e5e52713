/** The nonce cache that forgets expired entries (internal/security/security.go:85-112). */
module ReplayGuards {
  type Entries = map<string, int>

  /** One call: a nonce presented at a time, to be remembered for a span. */
  datatype Presentation = Presentation(nonce: string, now: int, ttl: int)

  function Unexpired(e: Entries, now: int): Entries { map n | n in e && e[n] > now :: e[n] }

  predicate Refused(e: Entries, c: Presentation) { c.nonce in e && e[c.nonce] > c.now }

  function After(e: Entries, c: Presentation): Entries {
    if Refused(e, c) then e else Unexpired(e, c.now)[c.nonce := c.now + c.ttl]
  }

  class ReplayGuard {
    var entries: Entries

    constructor ()
      ensures entries == map[]
    {
      entries := map[];
    }

    method Accept(nonce: string, now: int, ttl: int) returns (accepted: bool)
      modifies this
      ensures accepted == !Refused(old(entries), Presentation(nonce, now, ttl))
      ensures entries == After(old(entries), Presentation(nonce, now, ttl))
      ensures accepted ==> ((forall n | n in entries :: entries[n] > now) <==> ttl > 0)
    {
      if nonce in entries {
        if entries[nonce] > now { return false; }
        entries := entries - {nonce};
      }
      var keys := entries.Keys;
      while keys != {}
        invariant keys <= entries.Keys
        invariant entries.Keys <= old(entries).Keys && forall n | n in entries :: entries[n] == old(entries)[n]
        invariant forall n | n in old(entries) && old(entries)[n] > now :: n in entries
        invariant forall n | n in entries && n !in keys :: entries[n] > now
        decreases keys
      {
        var key :| key in keys;
        keys := keys - {key};
        if entries[key] <= now {
          entries := entries - {key};
        }
      }
      assert entries == Unexpired(old(entries), now);
      entries := entries[nonce := now + ttl];
      accepted := true;
      assert entries[nonce] == now + ttl;
    }
  }

  // ---------- the guard against its history ----------

  function EntriesAfter(calls: seq<Presentation>): Entries {
    if calls == [] then map[] else After(EntriesAfter(calls[..|calls| - 1]), calls[|calls| - 1])
  }

  /** Did the guard accept call i of a sequence? */
  predicate GuardAccepts(calls: seq<Presentation>, i: nat)
    requires i < |calls|
  {
    !Refused(EntriesAfter(calls[..i]), calls[i])
  }

  /** What the guard is for, said over the whole history: a call is accepted unless an earlier accepted one with
      its nonce is still unexpired. */
  predicate HistoryAccepts(calls: seq<Presentation>, i: nat)
    requires i < |calls|
    decreases i
  {
    forall j | 0 <= j < i ::
      calls[j].nonce == calls[i].nonce && HistoryAccepts(calls, j) ==> calls[j].now + calls[j].ttl <= calls[i].now
  }

  /** The calls were made at these times, with any nonces and spans. */
  predicate MadeAt(calls: seq<Presentation>, times: seq<int>) {
    |calls| == |times| && forall i | 0 <= i < |times| :: calls[i].now == times[i]
  }

  /** Times that never decrease from the second on; the first may be anything. */
  predicate OrderedAfterFirst(times: seq<int>) { forall i, j | 1 <= i < j < |times| :: times[i] <= times[j] }

  ghost predicate Agrees(calls: seq<Presentation>) {
    forall i | 0 <= i < |calls| :: GuardAccepts(calls, i) <==> HistoryAccepts(calls, i)
  }

  lemma {:induction false} HistoryOfPrefix(calls: seq<Presentation>, n: nat, i: nat)
    requires i < n <= |calls|
    ensures HistoryAccepts(calls[..n], i) == HistoryAccepts(calls, i)
    decreases i
  {
    forall j | 0 <= j < i ensures HistoryAccepts(calls[..n], j) == HistoryAccepts(calls, j) {
      HistoryOfPrefix(calls, n, j);
    }
  }

  function Expiry(c: Presentation): int { c.now + c.ttl }

  /** Call i of the history put this expiry there. */
  predicate Source(calls: seq<Presentation>, i: int, nonce: string, expiry: int) {
    0 <= i < |calls| && calls[i].nonce == nonce && HistoryAccepts(calls, i) && Expiry(calls[i]) == expiry
  }

  /** The cache holds accepted expiries only, and all that are unexpired at the given time. */
  ghost predicate Remembers(e: Entries, calls: seq<Presentation>, now: int) {
    && (forall n | n in e :: exists i :: Source(calls, i, n, e[n]))
    && (forall i | 0 <= i < |calls| && HistoryAccepts(calls, i) && Expiry(calls[i]) > now ::
          calls[i].nonce in e && e[calls[i].nonce] == Expiry(calls[i]))
  }

  lemma SamePrefix(before: seq<Presentation>, c: Presentation)
    ensures forall i | 0 <= i < |before| ::
              (before + [c])[i] == before[i] && HistoryAccepts(before + [c], i) == HistoryAccepts(before, i)
  {
    var calls := before + [c];
    assert calls[..|before|] == before;
    forall i | 0 <= i < |before| ensures HistoryAccepts(calls, i) == HistoryAccepts(before, i) {
      HistoryOfPrefix(calls, |before|, i);
    }
  }

  lemma DecisionAgrees(e: Entries, before: seq<Presentation>, c: Presentation)
    requires Remembers(e, before, c.now)
    ensures HistoryAccepts(before + [c], |before|) == !Refused(e, c)
  {
    SamePrefix(before, c);
    var calls, n := before + [c], |before|;
    if Refused(e, c) {
      var j :| Source(before, j, c.nonce, e[c.nonce]);
      assert calls[j].nonce == c.nonce && HistoryAccepts(calls, j) && Expiry(calls[j]) > c.now;
    }
  }

  lemma StillGrounded(e: Entries, before: seq<Presentation>, c: Presentation, m: string)
    requires Remembers(e, before, c.now) && m in After(e, c)
    ensures exists i :: Source(before + [c], i, m, After(e, c)[m])
  {
    SamePrefix(before, c);
    DecisionAgrees(e, before, c);
    if m == c.nonce && !Refused(e, c) {
      assert Source(before + [c], |before|, m, After(e, c)[m]);
    } else {
      var i :| Source(before, i, m, e[m]);
      assert Source(before + [c], i, m, After(e, c)[m]);
    }
  }

  lemma RemembersAfter(e: Entries, before: seq<Presentation>, c: Presentation)
    requires Remembers(e, before, c.now)
    ensures Remembers(After(e, c), before + [c], c.now)
  {
    forall m | m in After(e, c) ensures exists i :: Source(before + [c], i, m, After(e, c)[m]) {
      StillGrounded(e, before, c, m);
    }
    SamePrefix(before, c);
    DecisionAgrees(e, before, c);
  }

  lemma RemembersLater(e: Entries, calls: seq<Presentation>, now: int, later: int)
    requires Remembers(e, calls, now) && now <= later
    ensures Remembers(e, calls, later)
  {
  }

  lemma {:induction false} GuardRemembers(calls: seq<Presentation>, times: seq<int>, now: int)
    requires MadeAt(calls, times) && OrderedAfterFirst(times) && forall i | 1 <= i < |times| :: times[i] <= now
    ensures Remembers(EntriesAfter(calls), calls, now)
  {
    if calls != [] {
      var before, c := calls[..|calls| - 1], calls[|calls| - 1];
      assert calls == before + [c];
      if before == [] {
        OneCallRemembered(c, now);
      } else {
        GuardRemembers(before, times[..|times| - 1], c.now);
        RemembersAfter(EntriesAfter(before), before, c);
        RemembersLater(EntriesAfter(calls), calls, c.now, now);
      }
    }
  }

  /** A single entry has not been purged by anything. */
  lemma OneCallRemembered(c: Presentation, now: int)
    ensures Remembers(EntriesAfter([c]), [c], now)
  {
    assert EntriesAfter([c]) == map[c.nonce := Expiry(c)];
    assert HistoryAccepts([c], 0);
    assert Source([c], 0, c.nonce, Expiry(c));
  }

  /** For times in order from the second call on, purging loses nothing: the guard accepts a call exactly when no
      earlier accepted call with its nonce is still unexpired. */
  lemma GuardMeetsHistory(calls: seq<Presentation>, times: seq<int>, i: nat)
    requires MadeAt(calls, times) && OrderedAfterFirst(times) && i < |calls|
    ensures GuardAccepts(calls, i) <==> HistoryAccepts(calls, i)
  {
    var before, c := calls[..i], calls[i];
    GuardRemembers(before, times[..i], c.now);
    DecisionAgrees(EntriesAfter(before), before, c);
    HistoryHere(calls, i);
  }

  lemma {:induction false} HistoryHere(calls: seq<Presentation>, i: nat)
    requires i < |calls|
    ensures HistoryAccepts(calls[..i] + [calls[i]], |calls[..i]|) == HistoryAccepts(calls, i)
  {
    HistoryOfPrefix(calls, i + 1, i);
    assert calls[..i] + [calls[i]] == calls[..i + 1] && |calls[..i]| == i;
  }

  // ---------- when the clock runs backwards ----------

  /** What the cache holds was put there by some call. */
  lemma {:induction false} Grounded(calls: seq<Presentation>, n: string)
    requires n in EntriesAfter(calls)
    ensures exists k | 0 <= k < |calls| :: calls[k].nonce == n && Expiry(calls[k]) == EntriesAfter(calls)[n]
  {
    var before, c := calls[..|calls| - 1], calls[|calls| - 1];
    if Refused(EntriesAfter(before), c) || n != c.nonce {
      Grounded(before, n);
      var k :| 0 <= k < |before| && before[k].nonce == n && Expiry(before[k]) == EntriesAfter(before)[n];
      assert calls[k] == before[k];
    }
  }

  /** A nonce that is not in the cache stays out until it is presented. */
  lemma {:induction false} AbsentUntilPresented(calls: seq<Presentation>, from: nat, to: nat, n: string)
    requires from <= to <= |calls| && n !in EntriesAfter(calls[..from])
    requires forall k | from <= k < to :: calls[k].nonce != n
    ensures n !in EntriesAfter(calls[..to])
  {
    if from < to {
      AbsentUntilPresented(calls, from, to - 1, n);
      assert calls[..to][..to - 1] == calls[..to - 1];
    }
  }

  /** Distinct nonces, but that call j presents the nonce of call 0 again, which expires at times[i]. */
  function Replay(times: seq<int>, i: nat, j: nat): seq<Presentation>
    requires 0 < |times| && i < |times|
  {
    seq(|times|, k requires 0 <= k < |times| =>
          Presentation(seq(if k == j then 0 else k, _ => 'x'), times[k], if k == 0 then times[i] - times[0] else 0))
  }

  lemma PurgedByCall(times: seq<int>, i: nat, j: nat)
    requires 1 <= i < j < |times|
    ensures "" !in EntriesAfter(Replay(times, i, j)[..i + 1])
  {
    var calls := Replay(times, i, j);
    var before, c := calls[..i], calls[i];
    assert calls[..i + 1] == before + [c];
    assert forall k | 0 <= k < i :: |before[k].nonce| == k;
    if c.nonce in EntriesAfter(before) { Grounded(before, c.nonce); }
    if "" in EntriesAfter(before) {
      Grounded(before, "");
      assert forall k | 0 <= k < i :: before[k].nonce == "" ==> Expiry(before[k]) == times[i];
    }
  }

  lemma ReplayDisagrees(times: seq<int>, i: nat, j: nat)
    requires 1 <= i < j < |times| && times[i] > times[j]
    ensures MadeAt(Replay(times, i, j), times)
    ensures GuardAccepts(Replay(times, i, j), j) && !HistoryAccepts(Replay(times, i, j), j)
  {
    var calls := Replay(times, i, j);
    PurgedByCall(times, i, j);
    AbsentUntilPresented(calls, i + 1, j, "");
    assert calls[0].nonce == calls[j].nonce == "" && HistoryAccepts(calls, 0);
  }

  /** The guard meets its history whatever is presented at some times exactly when these never decrease from the
      second on: an earlier time later lets a call purge what is still needed. */
  lemma GuardNeedsOrderedTimes(times: seq<int>)
    ensures (forall calls | MadeAt(calls, times) :: Agrees(calls)) <==> OrderedAfterFirst(times)
  {
    if OrderedAfterFirst(times) {
      forall calls | MadeAt(calls, times) ensures Agrees(calls) {
        forall i: nat | i < |calls| ensures GuardAccepts(calls, i) <==> HistoryAccepts(calls, i) {
          GuardMeetsHistory(calls, times, i);
        }
      }
    } else {
      var i, j :| 1 <= i < j < |times| && times[i] > times[j];
      ReplayDisagrees(times, i, j);
      assert !Agrees(Replay(times, i, j));
    }
  }

  /** The smallest case, in seconds: a call at 20 purges what a call at 5 still needs. */
  lemma BackwardClockDisagrees()
    ensures var calls := [Presentation("a", 0, 10), Presentation("b", 20, 10), Presentation("a", 5, 10)];
            GuardAccepts(calls, 2) && !HistoryAccepts(calls, 2)
  {
    var calls := [Presentation("a", 0, 10), Presentation("b", 20, 10), Presentation("a", 5, 10)];
    var e1 := After(map[], calls[0]);
    assert calls[..2][..1] == calls[..1] && calls[..1][..0] == [];
    assert EntriesAfter(calls[..1]) == e1 == map["a" := 10];
    assert EntriesAfter(calls[..2]) == After(e1, calls[1]) == map["b" := 30];
    assert HistoryAccepts(calls, 0);
  }
}
