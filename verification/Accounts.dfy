/** A host's provider accounts: the in-place filter over the shared backing array, the list it keeps,
    and the choice of a provider (internal/orchestration/orchestrator.go:579-615, 659-668, 739-747). */
module Accounts {
  import opened Prelude
  import opened Domain

  predicate Matches(a: Account, provider: string, env: string) {
    a.provider == provider && a.env == env
  }

  /** The list without the accounts for (provider, env), in order. */
  function Without(s: seq<Account>, provider: string, env: string): seq<Account> {
    if s == [] then []
    else
      var rest := Without(s[..|s| - 1], provider, env);
      if Matches(s[|s| - 1], provider, env) then rest else rest + [s[|s| - 1]]
  }

  function Registered(s: seq<Account>, next: Account): seq<Account> {
    Without(s, next.provider, next.env) + [next]
  }

  // ---------- the slice ----------

  /** A Go slice: a prefix of a backing array. */
  class AccountList {
    var backing: array<Account>
    var len: nat

    ghost predicate Valid()
      reads this
    {
      len <= backing.Length
    }

    ghost function Contents(): seq<Account>
      reads this, backing
      requires Valid()
    {
      backing[..len]
    }

    constructor ()
      ensures Valid() && fresh(backing) && Contents() == []
    {
      backing := new Account[0];
      len := 0;
    }

    /** The slice of a list, which fills its array. */
    constructor Of(s: seq<Account>)
      ensures Valid() && fresh(backing) && Contents() == s
    {
      backing := new Account[|s|](i requires 0 <= i < |s| => s[i]);
      len := |s|;
      new;
      assert backing[..] == s;
    }

    method Read() returns (s: seq<Account>)
      requires Valid()
      ensures s == Contents()
    {
      s := backing[..len];
    }

    /** Moves the accounts to keep to the front of the same array. */
    method Filter(provider: string, env: string) returns (kept: nat)
      requires Valid()
      modifies backing
      ensures kept <= len
      ensures backing[..kept] == Without(old(Contents()), provider, env)
    {
      kept := 0;
      for i := 0 to len
        invariant kept <= i
        invariant backing[..kept] == Without(old(backing[..len])[..i], provider, env)
        invariant forall k | i <= k < len :: backing[k] == old(backing[k])
      {
        ghost var read := old(backing[..len])[..i + 1];
        assert read[..|read| - 1] == old(backing[..len])[..i];
        var account := backing[i];
        assert account == read[i];
        if !Matches(account, provider, env) {
          backing[kept] := account;
          kept := kept + 1;
        }
      }
      assert old(backing[..len])[..len] == old(backing[..len]);
    }

    /** Drops the account the new one replaces and appends the new one, in the same array if it fits. */
    method Register(next: Account)
      requires Valid()
      modifies this, backing
      ensures Valid() && (backing == old(backing) || fresh(backing))
      ensures Contents() == Registered(old(Contents()), next)
    {
      var kept := Filter(next.provider, next.env);
      if kept == backing.Length {
        var wider := new Account[2 * kept + 1];
        for i := 0 to kept
          modifies wider
          invariant wider[..i] == backing[..i]
        {
          wider[i] := backing[i];
        }
        backing := wider;
      }
      backing[kept] := next;
      len := kept + 1;
      assert Contents() == backing[..kept] + [next];
    }

    method Remove(provider: string, env: string)
      requires Valid()
      modifies this`len, backing
      ensures Valid()
      ensures Contents() == Without(old(Contents()), provider, env)
    {
      len := Filter(provider, env);
    }
  }

  /** What the registry does with the slice it holds for a host, and puts back. */
  method RegisterIn(s: seq<Account>, next: Account) returns (r: seq<Account>)
    ensures r == Registered(s, next)
  {
    var list := new AccountList.Of(s);
    list.Register(next);
    r := list.Read();
  }

  method RemoveFrom(s: seq<Account>, provider: string, env: string) returns (r: seq<Account>)
    ensures r == Without(s, provider, env)
  {
    var list := new AccountList.Of(s);
    list.Remove(provider, env);
    r := list.Read();
  }

  // ---------- the history of a list ----------

  datatype AccountOp = Register(account: Account) | Remove(provider: string, env: string) {
    function Provider(): string { if Register? then account.provider else provider }
    function Env(): string { if Register? then account.env else env }
  }

  function ApplyOp(s: seq<Account>, op: AccountOp): seq<Account> {
    if op.Register? then Registered(s, op.account) else Without(s, op.provider, op.env)
  }

  function ApplyOps(ops: seq<AccountOp>): seq<Account> {
    if ops == [] then [] else ApplyOp(ApplyOps(ops[..|ops| - 1]), ops[|ops| - 1])
  }

  predicate SameSlot(a: AccountOp, b: AccountOp) { a.Provider() == b.Provider() && a.Env() == b.Env() }

  /** The i-th operation registered an account that no later operation replaced or removed. */
  predicate Survives(ops: seq<AccountOp>, i: nat)
    requires i < |ops|
  {
    ops[i].Register? && forall j | i < j < |ops| :: !SameSlot(ops[i], ops[j])
  }

  /** The surviving accounts among the first n operations, oldest first. */
  function Survivors(ops: seq<AccountOp>, n: nat): seq<Account>
    requires n <= |ops|
  {
    if n == 0 then []
    else if Survives(ops, n - 1) then Survivors(ops, n - 1) + [ops[n - 1].account]
    else Survivors(ops, n - 1)
  }

  /** One more operation removes its own slot from the survivors of those before it. */
  lemma {:induction false} SurvivorsAfter(ops: seq<AccountOp>, op: AccountOp, n: nat)
    requires n <= |ops|
    ensures Survivors(ops + [op], n) == Without(Survivors(ops, n), op.Provider(), op.Env())
  {
    if n > 0 {
      SurvivorsAfter(ops, op, n - 1);
      assert Survives(ops + [op], n - 1) <==> Survives(ops, n - 1) && !SameSlot(ops[n - 1], op) by {
        assert (ops + [op])[|ops|] == op;
        assert forall j | 0 <= j < |ops| :: (ops + [op])[j] == ops[j];
      }
      assert (ops + [op])[n - 1] == ops[n - 1];
      if Survives(ops, n - 1) {
        var s := Survivors(ops, n);
        assert s[..|s| - 1] == Survivors(ops, n - 1);
      }
    }
  }

  /** The list is the last-write-wins history, ordered by latest registration. */
  lemma {:induction false} ListIsHistory(ops: seq<AccountOp>)
    ensures ApplyOps(ops) == Survivors(ops, |ops|)
  {
    if ops != [] {
      var before, op := ops[..|ops| - 1], ops[|ops| - 1];
      ListIsHistory(before);
      assert before + [op] == ops;
      SurvivorsAfter(before, op, |before|);
      assert Survives(ops, |before|) <==> op.Register?;
    }
  }

  /** Where each listed account was registered. */
  lemma {:induction false} SurvivorAt(ops: seq<AccountOp>, n: nat, k: nat) returns (i: nat)
    requires n <= |ops| && k < |Survivors(ops, n)|
    ensures i < n && Survives(ops, i) && Survivors(ops, n)[k] == ops[i].account
    ensures |Survivors(ops, i)| == k
  {
    if k == |Survivors(ops, n - 1)| {
      i := n - 1;
    } else {
      i := SurvivorAt(ops, n - 1, k);
    }
  }

  /** No two listed accounts share provider and environment, and a registered account is listed
      exactly when nothing later touched its slot. */
  lemma ListHasNoDuplicates(ops: seq<AccountOp>)
    ensures var list := ApplyOps(ops);
            forall j, k | 0 <= j < k < |list| :: !Matches(list[j], list[k].provider, list[k].env)
  {
    ListIsHistory(ops);
    var list := ApplyOps(ops);
    forall j, k | 0 <= j < k < |list|
      ensures !Matches(list[j], list[k].provider, list[k].env)
    {
      var a := SurvivorAt(ops, |ops|, j);
      var b := SurvivorAt(ops, |ops|, k);
      assert a != b;
      assert !SameSlot(ops[if a < b then a else b], ops[if a < b then b else a]);
    }
  }

  lemma {:induction false} SurvivorListed(ops: seq<AccountOp>, n: nat, i: nat)
    requires i < n <= |ops| && Survives(ops, i)
    ensures ops[i].account in Survivors(ops, n)
  {
    if i < n - 1 { SurvivorListed(ops, n - 1, i); }
  }

  // ---------- choosing a provider ----------

  /** Index of the first account for an environment, or the length of the list. */
  function FirstWithEnv(s: seq<Account>, env: string, from: nat := 0): (i: nat)
    requires from <= |s|
    ensures from <= i <= |s|
    ensures i < |s| ==> s[i].env == env
    ensures forall j | from <= j < i :: s[j].env != env
    decreases |s| - from
  {
    if from == |s| || s[from].env == env then from else FirstWithEnv(s, env, from + 1)
  }

  const SANDBOX := "sandbox"

  /** Position of the account to use: an exact environment, else a sandbox one, else the first. */
  function Choice(s: seq<Account>, env: string): (i: nat)
    requires s != []
    ensures i < |s|
  {
    if FirstWithEnv(s, env) < |s| then FirstWithEnv(s, env)
    else if FirstWithEnv(s, SANDBOX) < |s| then FirstWithEnv(s, SANDBOX)
    else 0
  }

  const NO_ACCOUNT := "provider account not configured"

  function Selection(s: seq<Account>, env: string): Result<string> {
    if s == [] then Err(NO_ACCOUNT) else Ok(s[Choice(s, env)].provider)
  }

  predicate LacksEnv(s: seq<Account>, env: string) { forall j | 0 <= j < |s| :: s[j].env != env }

  /** The provider of the first account for the environment; if there is none, of the first sandbox account; if there
      is none either, of the first account. */
  predicate Preferred(s: seq<Account>, env: string, provider: string) {
    exists i | 0 <= i < |s| ::
      && s[i].provider == provider
      && (s[i].env == env || (LacksEnv(s, env) && (s[i].env == "sandbox" || (LacksEnv(s, "sandbox") && i == 0))))
      && forall j | 0 <= j < i :: s[j].env != s[i].env
  }

  lemma SelectionPrefers(s: seq<Account>, env: string)
    ensures Selection(s, env).Ok? <==> s != []
    ensures s != [] ==> Preferred(s, env, Selection(s, env).value)
    ensures s == [] ==> Selection(s, env) == Err("provider account not configured")
  {
    if s != [] {
      var i := Choice(s, env);
      assert s[i].provider == Selection(s, env).value;
    }
  }

  method SelectProvider(s: seq<Account>, env: string) returns (r: Result<string>)
    ensures r == Selection(s, env)
    ensures r.Err? <==> s == []
    ensures r.Ok? ==> Preferred(s, env, r.value)
  {
    SelectionPrefers(s, env);
    for i := 0 to |s|
      invariant forall j | 0 <= j < i :: s[j].env != env
    {
      if s[i].env == env { return Ok(s[i].provider); }
    }
    for i := 0 to |s|
      invariant forall j | 0 <= j < i :: s[j].env != SANDBOX
    {
      if s[i].env == SANDBOX { return Ok(s[i].provider); }
    }
    if |s| == 0 { return Err(NO_ACCOUNT); }
    return Ok(s[0].provider);
  }

  /** After any history, a provider is found exactly when some registered account is still live, and it
      is then the provider of a live account. */
  lemma {:induction false} SelectionIsLive(ops: seq<AccountOp>, env: string)
    ensures Selection(ApplyOps(ops), env).Ok? <==> exists i: nat | i < |ops| :: Survives(ops, i)
    ensures Selection(ApplyOps(ops), env).Ok? ==>
              exists i: nat | i < |ops| ::
                Survives(ops, i) && ops[i].account.provider == Selection(ApplyOps(ops), env).value
  {
    ListIsHistory(ops);
    var list := ApplyOps(ops);
    if list != [] {
      var i := SurvivorAt(ops, |ops|, Choice(list, env));
    } else {
      forall i: nat | i < |ops| ensures !Survives(ops, i) {
        if Survives(ops, i) { SurvivorListed(ops, |ops|, i); }
      }
    }
  }
}
