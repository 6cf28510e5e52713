/** Text the service prints, parses and searches: decimal integers, separators,
    lower-casing and substring search. */
module Text {
  import opened Prelude

  const MIN_INT64: int := -0x8000_0000_0000_0000
  const MAX_INT64: int := 0x7fff_ffff_ffff_ffff

  predicate IsInt64(i: int) { MIN_INT64 <= i <= MAX_INT64 }

  // ---------- decimal integers ----------

  predicate IsDigit(c: char) { '0' <= c <= '9' }

  function DigitOf(d: nat): (c: char)
    requires d < 10
    ensures IsDigit(c)
  {
    ('0' as int + d) as char
  }

  /** What "%d" prints for a natural number. */
  function PrintNat(n: nat): string {
    if n < 10 then [DigitOf(n)] else PrintNat(n / 10) + [DigitOf(n % 10)]
  }

  /** What "%d" prints for an integer. */
  function PrintInt(i: int): string {
    if i < 0 then "-" + PrintNat(-i) else PrintNat(i)
  }

  predicate AllDigits(s: string) { forall k | 0 <= k < |s| :: IsDigit(s[k]) }

  function Value(s: string): nat
    requires AllDigits(s)
  {
    if s == [] then 0
    else 10 * Value(s[..|s| - 1]) + (s[|s| - 1] as int - '0' as int)
  }

  /** strconv.ParseInt(s, 10, 64): an optional sign, at least one digit, and a value in range. */
  function ParseInt64(s: string): Option<int> {
    var signed := s != [] && (s[0] == '+' || s[0] == '-');
    var digits := if signed then s[1..] else s;
    if digits == [] || !AllDigits(digits) then None
    else
      var magnitude: int := Value(digits);
      var v := if signed && s[0] == '-' then -magnitude else magnitude;
      if IsInt64(v) then Some(v) else None
  }

  lemma {:induction false} PrintNatDigits(n: nat)
    ensures AllDigits(PrintNat(n)) && PrintNat(n) != [] && Value(PrintNat(n)) == n
  {
    if n < 10 {
      assert Value([]) == 0;
      assert PrintNat(n)[..0] == [];
    } else {
      PrintNatDigits(n / 10);
      var s := PrintNat(n);
      assert s[..|s| - 1] == PrintNat(n / 10);
    }
  }

  /** Printing then parsing gives the integer back, for every int64. */
  lemma ParsePrint(i: int)
    requires IsInt64(i)
    ensures ParseInt64(PrintInt(i)) == Some(i)
  {
    PrintNatDigits(if i < 0 then -i else i);
    if i < 0 {
      assert PrintInt(i)[1..] == PrintNat(-i);
    } else {
      assert IsDigit(PrintInt(i)[0]);
    }
  }

  /** A printed integer holds digits and possibly a leading minus sign, nothing else. */
  lemma PrintIntChars(i: int)
    ensures forall c | c in PrintInt(i) :: IsDigit(c) || c == '-'
  {
    PrintNatDigits(if i < 0 then -i else i);
  }

  // ---------- separators ----------

  /** The first separator splits a text in one way only. */
  lemma FirstSeparator(x: string, y: string, x': string, y': string, c: char)
    requires c !in x && c !in x'
    requires x + [c] + y == x' + [c] + y'
    ensures x == x' && y == y'
  {
    var s := x + [c] + y;
    assert s[|x|] == c;
    assert s[|x'|] == c;
    assert forall k | 0 <= k < |x| :: x[k] == s[k];
    assert forall k | 0 <= k < |x'| :: x'[k] == s[k];
    assert |x| == |x'|;
    assert x == s[..|x|] && x' == s[..|x|];
    assert y == s[|x| + 1..] && y' == s[|x| + 1..];
  }

  /** The last separator splits a text in one way only. */
  lemma LastSeparator(x: string, y: string, x': string, y': string, c: char)
    requires c !in y && c !in y'
    requires x + [c] + y == x' + [c] + y'
    ensures x == x' && y == y'
  {
    var s := x + [c] + y;
    assert |x| + |y| == |x'| + |y'|;
    assert s[|x|] == c;
    assert s[|x'|] == c;
    assert forall k | |x| < k < |s| :: s[k] == y[k - |x| - 1];
    assert forall k | |x'| < k < |s| :: s[k] == y'[k - |x'| - 1];
    assert |x| == |x'|;
    assert x == s[..|x|] && x' == s[..|x|];
    assert y == s[|x| + 1..] && y' == s[|x| + 1..];
  }

  // ---------- searching ----------

  predicate OccursAt(s: string, sub: string, i: nat) {
    i + |sub| <= |s| && s[i..i + |sub|] == sub
  }

  predicate Contains(s: string, sub: string) {
    exists i | 0 <= i <= |s| :: OccursAt(s, sub, i)
  }

  /** Index of the first occurrence of `sub`, or |s| + 1 when there is none. */
  function IndexOf(s: string, sub: string, from: nat := 0): (i: nat)
    requires from <= |s| + 1
    ensures from <= i <= |s| + 1
    ensures i <= |s| ==> OccursAt(s, sub, i)
    ensures forall j | from <= j < i :: !OccursAt(s, sub, j)
    decreases |s| + 1 - from
  {
    if from > |s| || OccursAt(s, sub, from) then from else IndexOf(s, sub, from + 1)
  }

  function LowerChar(c: char): char {
    if 'A' <= c <= 'Z' then (c as int + 32) as char else c
  }

  function ToLower(s: string): (r: string)
    ensures |r| == |s|
    ensures forall k | 0 <= k < |s| :: r[k] == LowerChar(s[k])
  {
    seq(|s|, k requires 0 <= k < |s| => LowerChar(s[k]))
  }

  /** A phrase printed at the start of a message is found there whatever follows it. */
  lemma PrefixContained(phrase: string, rest: string)
    requires ToLower(phrase) == phrase
    ensures Contains(ToLower(phrase + rest), phrase)
  {
    var s := ToLower(phrase + rest);
    assert forall k | 0 <= k < |phrase| :: s[k] == ToLower(phrase)[k];
    assert s[0..0 + |phrase|] == phrase;
    assert OccursAt(s, phrase, 0);
  }
}
