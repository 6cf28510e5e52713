/** References, and the keys built from them, can be taken apart again. */
module Keys {
  import opened Text
  import opened Payments

  lemma {:induction false} HexChars(bytes: seq<bv8>)
    ensures forall c | c in Hex(bytes) :: IsDigit(c) || 'a' <= c <= 'f'
  {
    if bytes != [] {
      HexChars(bytes[1..]);
      HexDigitIs((bytes[0] as nat) / 16);
      HexDigitIs((bytes[0] as nat) % 16);
    }
  }

  /** Every reference the service makes is free of the two separators. */
  lemma NewReferenceWellFormed(nanos: int, random: seq<bv8>)
    ensures WellFormedReference(NewReference(nanos, random))
  {
    PrintIntChars(nanos);
    HexChars(random);
  }

  lemma {:induction false} HexInjective(a: seq<bv8>, b: seq<bv8>)
    requires Hex(a) == Hex(b)
    ensures a == b
  {
    HexLength(a);
    HexLength(b);
    if a != [] {
      var s := Hex(a);
      assert s[2..] == Hex(a[1..]) && s[2..] == Hex(b[1..]);
      HexInjective(a[1..], b[1..]);
      HexDigits(a[0], b[0]);
    }
  }

  lemma {:induction false} HexLength(a: seq<bv8>)
    ensures |Hex(a)| == 2 * |a|
  {
    if a != [] { HexLength(a[1..]); }
  }

  lemma HexDigits(x: bv8, y: bv8)
    requires var digits := "0123456789abcdef";
             && digits[(x as nat) / 16] == digits[(y as nat) / 16] && digits[(x as nat) % 16] == digits[(y as nat) % 16]
    ensures x == y
  {
    SameDigits(x as nat, y as nat);
    BytesEqual(x, y);
  }

  lemma SameDigits(a: nat, b: nat)
    requires a < 256 && b < 256
    requires var digits := "0123456789abcdef";
             digits[a / 16] == digits[b / 16] && digits[a % 16] == digits[b % 16]
    ensures a == b
  {
    HexDigitIs(a / 16);
    HexDigitIs(b / 16);
    HexDigitIs(a % 16);
    HexDigitIs(b % 16);
  }

  lemma HexDigitIs(d: nat)
    requires d < 16
    ensures "0123456789abcdef"[d] as int == if d < 10 then '0' as int + d else 'a' as int + d - 10
  {
  }

  lemma BytesEqual(x: bv8, y: bv8)
    requires x as nat == y as nat
    ensures x == y
  {
    assert x == (x as nat) as bv8;
  }

  /** A reference tells its moment and its random bytes: two equal references were printed from the same. */
  lemma NewReferenceInjective(nanos: int, random: seq<bv8>, nanos': int, random': seq<bv8>)
    requires IsInt64(nanos) && IsInt64(nanos')
    requires NewReference(nanos, random) == NewReference(nanos', random')
    ensures nanos == nanos' && random == random'
  {
    var head, head' := "ord-" + PrintInt(nanos), "ord-" + PrintInt(nanos');
    HexChars(random);
    HexChars(random');
    assert NewReference(nanos, random) == head + ['-'] + Hex(random);
    assert NewReference(nanos', random') == head' + ['-'] + Hex(random');
    LastSeparator(head, Hex(random), head', Hex(random'), '-');
    assert head[4..] == PrintInt(nanos) && head'[4..] == PrintInt(nanos');
    ParsePrint(nanos);
    ParsePrint(nanos');
    HexInjective(random, random');
  }

  /** Two idempotency keys for well-formed references coincide only for the same reference. */
  lemma KeyGivesReference(r: string, p: string, k: string, r': string, p': string, k': string)
    requires WellFormedReference(r) && WellFormedReference(r')
    requires IdempotencyKey(r, p, k) == IdempotencyKey(r', p', k')
    ensures r == r' && p + ":" + k == p' + ":" + k'
  {
    assert IdempotencyKey(r, p, k) == r + [':'] + (p + ":" + k);
    assert IdempotencyKey(r', p', k') == r' + [':'] + (p' + ":" + k');
    FirstSeparator(r, p + ":" + k, r', p' + ":" + k', ':');
  }

  lemma KeyGivesTriple(r: string, p: string, k: string, r': string, k': string)
    requires WellFormedReference(r) && WellFormedReference(r')
    requires IdempotencyKey(r, p, k) == IdempotencyKey(r', p, k')
    ensures r == r' && k == k'
  {
    KeyGivesReference(r, p, k, r', p, k');
    assert (p + ":" + k)[|p| + 1..] == k;
    assert (p + ":" + k')[|p| + 1..] == k';
  }

  /** The string alone does not tell provider and key apart: one reference, two providers, one string. */
  lemma KeyIsAmbiguous()
    ensures IdempotencyKey("ord-1-ab", "xendit:eu", "7") == IdempotencyKey("ord-1-ab", "xendit", "eu:7")
  {
  }

  /** Ledger keys for different well-formed references differ, whatever the policy versions contain. */
  lemma LedgerKeyGivesReference(s: string, r: string, s': string, r': string)
    requires WellFormedReference(r) && WellFormedReference(r')
    requires LedgerKey(s, r) == LedgerKey(s', r')
    ensures r == r' && s == s'
  {
    assert LedgerKey(s, r) == ("policy:" + s) + ['|'] + r;
    assert LedgerKey(s', r') == ("policy:" + s') + ['|'] + r';
    LastSeparator("policy:" + s, r, "policy:" + s', r', '|');
    assert ("policy:" + s)[7..] == s && ("policy:" + s')[7..] == s';
  }
}
