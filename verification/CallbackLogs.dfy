/** The bounded log of callback deliveries (internal/http/handlers.go:136-146, 234-255). */
module CallbackLogs {
  datatype Delivery = Delivery(at: string, reference: string, provider: string, status: string, result: string,
                               key: string, attempts: int, error: string)

  const MAX_LOGS: nat := 100

  /** The last n entries, or all if there are fewer. */
  function Last<X>(s: seq<X>, n: nat): seq<X> { if |s| <= n then s else s[|s| - n..] }

  function Reversed<X>(s: seq<X>): seq<X> { seq(|s|, k requires 0 <= k < |s| => s[|s| - 1 - k]) }

  function Recorded(logs: seq<Delivery>, entry: Delivery): seq<Delivery> { Last(logs + [entry], MAX_LOGS) }

  class CallbackLog {
    var logs: seq<Delivery>

    /** Everything ever recorded. */
    ghost var history: seq<Delivery>

    ghost predicate Valid()
      reads this
    {
      logs == Last(history, MAX_LOGS)
    }

    constructor ()
      ensures Valid() && history == []
    {
      logs, history := [], [];
    }

    method Record(entry: Delivery)
      requires Valid()
      modifies this
      ensures Valid() && history == old(history) + [entry]
      ensures logs == Recorded(old(logs), entry)
    {
      logs := logs + [entry];
      if |logs| > MAX_LOGS {
        logs := logs[|logs| - MAX_LOGS..];
      }
      history := history + [entry];
    }

    /** Two indices walk towards each other, swapping what they stand on. */
    static method Reverse(copy: array<Delivery>)
      modifies copy
      ensures copy[..] == Reversed(old(copy[..]))
    {
      var i, j := 0, copy.Length - 1;
      while i < j
        invariant 0 <= i <= j + 2 && j == copy.Length - 1 - i
        invariant forall k | 0 <= k < copy.Length ::
                    copy[k] == if i <= k <= j then old(copy[k]) else old(copy[copy.Length - 1 - k])
      {
        copy[i], copy[j] := copy[j], copy[i];
        i, j := i + 1, j - 1;
      }
    }

    /** Newest first: a copy is reversed in place, the log stays as it is. */
    method List() returns (out: seq<Delivery>)
      requires Valid()
      ensures out == Reversed(Last(history, MAX_LOGS))
    {
      var copy := new Delivery[|logs|](i requires 0 <= i < |logs| reads this => logs[i]);
      assert copy[..] == logs;
      Reverse(copy);
      out := copy[..];
      if |out| > MAX_LOGS {
        assert false;  // the second truncation is never needed
      }
    }
  }

  function AllRecorded(history: seq<Delivery>): seq<Delivery> {
    if history == [] then [] else Recorded(AllRecorded(history[..|history| - 1]), history[|history| - 1])
  }

  /** Truncating on every write keeps exactly the tail of the full history. */
  lemma {:induction false} LogIsTail(history: seq<Delivery>)
    ensures AllRecorded(history) == Last(history, 100)
  {
    if history != [] {
      var before, entry := history[..|history| - 1], history[|history| - 1];
      LogIsTail(before);
      assert history == before + [entry];
    }
  }

  /** Listing after any sequence of records shows the latest min(n, 100) of them, newest first. */
  lemma ListShowsLatest(history: seq<Delivery>, k: nat)
    requires k < |history| && k < 100
    ensures var shown := Reversed(AllRecorded(history));
            && |shown| == (if |history| <= 100 then |history| else 100)
            && shown[k] == history[|history| - 1 - k]
  {
    LogIsTail(history);
  }
}
