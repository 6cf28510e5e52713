/** Timestamped webhook signatures under a current and a previous secret
    (internal/security/security.go:19-83). HMAC (RFC 2104) in hexadecimal is any function of secret and
    message; times are integers, in seconds since the epoch for a signature and nanoseconds for a clock. */
module Signatures {
  import opened Prelude
  import opened Text

  type Hmac = (string, string) -> string

  datatype Ring = Ring(current: string, previous: string)

  const SIGNATURE_PREFIX := "t="
  const SEPARATOR := ",v1="
  const SECOND := 1_000_000_000

  function AppendTimestamp(message: string, ts: int): string { PrintInt(ts) + "." + message }

  function FormatSignature(ts: int, digest: string): string {
    SIGNATURE_PREFIX + PrintInt(ts) + SEPARATOR + digest
  }

  /** The signature a secret gives a message at a second. */
  function Sign(hmac: Hmac, secret: string, message: string, ts: int): string {
    FormatSignature(ts, hmac(secret, AppendTimestamp(message, ts)))
  }

  /** `time` in nanoseconds; the signature carries the whole seconds. */
  function ComputeSignature(r: Ring, hmac: Hmac, message: string, time: int): Result<string> {
    if r.current == "" then Err("current secret is required") else Ok(Sign(hmac, r.current, message, time / SECOND))
  }

  /** The timestamp before the first separator. */
  function ParseTimestamp(signature: string): Result<int> {
    var i := IndexOf(signature, SEPARATOR);
    if i > |signature| || !(SIGNATURE_PREFIX <= signature[..i]) then Err("invalid signature format")
    else
      match ParseInt64(signature[|SIGNATURE_PREFIX|..i])
      case None => Err("invalid signature timestamp")
      case Some(ts) => Ok(ts)
  }

  /** time.Time.Sub saturates at the bounds of a Duration. */
  function Age(now: int, ts: int): int {
    var age := now - ts * SECOND;
    if age > MAX_INT64 then MAX_INT64 else if age < MIN_INT64 then MIN_INT64 else age
  }

  /** Negating the least Duration gives it back. */
  function Negated(d: int): int { if d == MIN_INT64 then MIN_INT64 else -d }

  predicate InWindow(now: int, ts: int, window: int) { Negated(window) <= Age(now, ts) <= window }

  function VerifySignature(r: Ring, hmac: Hmac, message: string, signature: string, window: int, now: int)
    : Option<string>
  {
    if r.current == "" then Some("current secret is required")
    else
      match ParseTimestamp(signature)
      case Err(e) => Some(e)
      case Ok(ts) =>
        if Age(now, ts) > window then Some("signature expired")
        else if Age(now, ts) < Negated(window) then Some("signature from future")
        else if Sign(hmac, r.current, message, ts) == signature then None
        else if r.previous != "" && Sign(hmac, r.previous, message, ts) == signature then None
        else Some("signature mismatch")
  }

  // ---------- printing and parsing ----------

  /** The timestamp printed into a signature is the one parsed out of it, whatever the digest. */
  lemma ParseFormat(ts: int, digest: string)
    requires IsInt64(ts)
    ensures ParseTimestamp(FormatSignature(ts, digest)) == Ok(ts)
  {
    var head := SIGNATURE_PREFIX + PrintInt(ts);
    var s := head + (SEPARATOR + digest);
    assert s == FormatSignature(ts, digest);
    assert s[|head|..|head| + |SEPARATOR|] == SEPARATOR;
    assert OccursAt(s, SEPARATOR, |head|);
    var i := IndexOf(s, SEPARATOR);
    assert i <= |head|;
    HeadHasNoComma(ts);
    assert s[i] == s[i..i + |SEPARATOR|][0] == ',';
    assert forall k | 0 <= k < |head| :: s[k] == head[k] && head[k] in head;
    assert i == |head|;
    assert s[..i] == head && SIGNATURE_PREFIX <= head;
    assert s[|SIGNATURE_PREFIX|..i] == PrintInt(ts);
    ParsePrint(ts);
  }

  lemma HeadHasNoComma(ts: int)
    ensures ',' !in SIGNATURE_PREFIX + PrintInt(ts)
  {
    PrintIntChars(ts);
  }

  /** Timestamp and message can be read back from what is hashed. */
  lemma AppendTimestampInjective(m: string, ts: int, m': string, ts': int)
    requires IsInt64(ts) && IsInt64(ts')
    requires AppendTimestamp(m, ts) == AppendTimestamp(m', ts')
    ensures m == m' && ts == ts'
  {
    PrintIntChars(ts);
    PrintIntChars(ts');
    FirstSeparator(PrintInt(ts), m, PrintInt(ts'), m', '.');
    ParsePrint(ts);
    ParsePrint(ts');
  }

  // ---------- texts and window ----------

  /** What a computed signature looks like. */
  lemma SignedText(r: Ring, hmac: Hmac, message: string, time: int)
    ensures var seconds := PrintInt(time / 1_000_000_000);
            ComputeSignature(r, hmac, message, time)
            == if r.current == "" then Err("current secret is required")
               else Ok("t=" + seconds + ",v1=" + hmac(r.current, seconds + "." + message))
  {
  }

  /** A second is inside the window when it lies no further than it from the clock, before or after. */
  lemma WindowIs(now: int, ts: int, window: int)
    requires IsInt64(window) && window >= 0
    ensures var age := now - ts * 1_000_000_000;
            InWindow(now, ts, window)
            <==> if age > MAX_INT64 then window == MAX_INT64 else -window <= age <= window
  {
  }

  /** Why a well-formed signature is refused, if it is. */
  lemma RefusalIs(r: Ring, hmac: Hmac, message: string, ts: int, digest: string, window: int, now: int)
    requires r.current != "" && IsInt64(ts) && IsInt64(window) && window >= 0
    requires IsInt64(now - ts * 1_000_000_000)
    ensures var age, hashed := now - ts * 1_000_000_000, PrintInt(ts) + "." + message;
            VerifySignature(r, hmac, message, "t=" + PrintInt(ts) + ",v1=" + digest, window, now)
            == if age > window then Some("signature expired")
               else if age < -window then Some("signature from future")
               else if digest == hmac(r.current, hashed) || (r.previous != "" && digest == hmac(r.previous, hashed))
               then None
               else Some("signature mismatch")
  {
    ParseFormat(ts, digest);
    assert FormatSignature(ts, digest) == "t=" + PrintInt(ts) + ",v1=" + digest;
    DigestDecides(ts, digest, hmac(r.current, AppendTimestamp(message, ts)));
    DigestDecides(ts, digest, hmac(r.previous, AppendTimestamp(message, ts)));
  }

  /** Why any other text is refused: no separator, no prefix before the first one, or no int64 between the two. */
  lemma MalformedIs(r: Ring, hmac: Hmac, message: string, signature: string, window: int, now: int)
    ensures r.current == "" ==>
              VerifySignature(r, hmac, message, signature, window, now) == Some("current secret is required")
    ensures r.current != "" && !Contains(signature, ",v1=") ==>
              VerifySignature(r, hmac, message, signature, window, now) == Some("invalid signature format")
  {
    var i := IndexOf(signature, SEPARATOR);
    if i <= |signature| { assert OccursAt(signature, ",v1=", i); }
  }

  lemma MalformedHead(r: Ring, hmac: Hmac, message: string, head: string, tail: string, window: int, now: int)
    requires r.current != "" && forall k | 0 <= k < |head| :: !OccursAt(head + ",v1=" + tail, ",v1=", k)
    ensures var refusal := VerifySignature(r, hmac, message, head + ",v1=" + tail, window, now);
            && (!("t=" <= head) ==> refusal == Some("invalid signature format"))
            && ("t=" <= head && ParseInt64(head[2..]).None? ==> refusal == Some("invalid signature timestamp"))
  {
    var signature := head + ",v1=" + tail;
    assert signature[|head|..|head| + 4] == ",v1=";
    assert OccursAt(signature, SEPARATOR, |head|);
    assert IndexOf(signature, SEPARATOR) == |head| && signature[..|head|] == head;
    if "t=" <= head { assert signature[2..|head|] == head[2..]; }
  }

  lemma DigestDecides(ts: int, digest: string, digest': string)
    ensures FormatSignature(ts, digest') == FormatSignature(ts, digest) <==> digest' == digest
  {
    if FormatSignature(ts, digest') == FormatSignature(ts, digest) { SameDigest(ts, digest, digest'); }
  }

  // ---------- acceptance ----------

  /** A signature is accepted exactly when it is what one of the two secrets gives the message at some second
      inside the window. */
  lemma AcceptedIff(r: Ring, hmac: Hmac, message: string, signature: string, window: int, now: int)
    requires r.current != ""
    ensures VerifySignature(r, hmac, message, signature, window, now).None?
       <==> exists ts | IsInt64(ts) && InWindow(now, ts, window) ::
              || signature == Sign(hmac, r.current, message, ts)
              || (r.previous != "" && signature == Sign(hmac, r.previous, message, ts))
  {
    if VerifySignature(r, hmac, message, signature, window, now).None? {
      var ts := ParseTimestamp(signature).value;
      ParsedIsInt64(signature);
      assert InWindow(now, ts, window);
    }
    if ts :| IsInt64(ts) && InWindow(now, ts, window)
             && (signature == Sign(hmac, r.current, message, ts)
                 || (r.previous != "" && signature == Sign(hmac, r.previous, message, ts))) {
      ParseFormat(ts, hmac(r.current, AppendTimestamp(message, ts)));
      ParseFormat(ts, hmac(r.previous, AppendTimestamp(message, ts)));
    }
  }

  lemma ParsedIsInt64(signature: string)
    ensures ParseTimestamp(signature).Ok? ==> IsInt64(ParseTimestamp(signature).value)
  {
  }

  /** Round trip: a signature computed under the current or the previous secret verifies exactly inside the
      window around its whole second. */
  lemma {:induction false} ComputeVerify(r: Ring, signer: Ring, hmac: Hmac, message: string, time: int, window: int,
                                         now: int)
    requires IsInt64(time / SECOND) && r.current != "" && signer.current != ""
    requires signer.current == r.current || signer.current == r.previous
    ensures ComputeSignature(signer, hmac, message, time).Ok?
    ensures VerifySignature(r, hmac, message, ComputeSignature(signer, hmac, message, time).value, window, now).None?
       <==> InWindow(now, time / SECOND, window)
  {
    var ts := time / SECOND;
    ParseFormat(ts, hmac(signer.current, AppendTimestamp(message, ts)));
  }

  /** Canonicity: an accepted text is character for character the one printed for the timestamp parsed from it;
      no other spelling of that timestamp is accepted. */
  lemma {:induction false} AcceptedIsCanonical(r: Ring, hmac: Hmac, message: string, signature: string, window: int,
                                               now: int)
    requires VerifySignature(r, hmac, message, signature, window, now).None?
    ensures ParseTimestamp(signature).Ok?
    ensures exists digest :: signature == FormatSignature(ParseTimestamp(signature).value, digest)
    ensures forall other, digest | IsInt64(other) && signature == FormatSignature(other, digest) ::
              other == ParseTimestamp(signature).value
              && digest in {hmac(r.current, AppendTimestamp(message, other)),
                            hmac(r.previous, AppendTimestamp(message, other))}
  {
    var ts := ParseTimestamp(signature).value;
    forall other, digest | IsInt64(other) && signature == FormatSignature(other, digest)
      ensures other == ts
      ensures digest in {hmac(r.current, AppendTimestamp(message, other)),
                         hmac(r.previous, AppendTimestamp(message, other))}
    {
      ParseFormat(other, digest);
      var secret := if Sign(hmac, r.current, message, ts) == signature then r.current else r.previous;
      SameDigest(ts, digest, hmac(secret, AppendTimestamp(message, ts)));
    }
  }

  lemma SameDigest(ts: int, digest: string, digest': string)
    requires FormatSignature(ts, digest) == FormatSignature(ts, digest')
    ensures digest == digest'
  {
    var head := SIGNATURE_PREFIX + PrintInt(ts) + SEPARATOR;
    assert FormatSignature(ts, digest)[|head|..] == digest;
    assert FormatSignature(ts, digest')[|head|..] == digest';
  }

  /** Under one secret, two messages accepted with one signature are a collision of the hash. */
  lemma SignatureBindsMessage(r: Ring, hmac: Hmac, m: string, m': string, signature: string, window: int, now: int)
    requires r.previous == "" && m != m'
    requires VerifySignature(r, hmac, m, signature, window, now).None?
    requires VerifySignature(r, hmac, m', signature, window, now).None?
    ensures ParseTimestamp(signature).Ok?
    ensures var ts := ParseTimestamp(signature).value;
            && AppendTimestamp(m, ts) != AppendTimestamp(m', ts)
            && hmac(r.current, AppendTimestamp(m, ts)) == hmac(r.current, AppendTimestamp(m', ts))
  {
    var ts := ParseTimestamp(signature).value;
    ParsedIsInt64(signature);
    SameDigest(ts, hmac(r.current, AppendTimestamp(m, ts)), hmac(r.current, AppendTimestamp(m', ts)));
    if AppendTimestamp(m, ts) == AppendTimestamp(m', ts) { AppendTimestampInjective(m, ts, m', ts); }
  }
}
