/** Which entries and policies are accepted, and what a refused one is told
    (internal/domain/domain.go:41-103, 174-218). */
module Validity {
  import opened Prelude
  import opened Domain
  import opened Catalogues

  predicate KindFits(p: FeePolicy) {
    || (p.kind == "percent" && p.value <= 100.0)
    || (p.kind == "fixed" && p.value == p.value.Floor as real)
    || (p.kind == "free" && p.value == 0.0)
  }

  predicate KnownRounding(r: string) { r == "nearest" || r == "floor" || r == "ceil" || r == "" }

  /** A policy is valid exactly when its currency is given, its value suits its kind, its rounding is known, and its
      bounds are in order. */
  lemma PolicyValidIff(p: FeePolicy)
    ensures ValidPolicy(p) <==>
              && p.currency != "" && p.value >= 0.0
              && KindFits(p) && KnownRounding(p.rounding)
              && (p.minFee.Some? && p.maxFee.Some? ==> p.minFee.value <= p.maxFee.value)
              && (p.minFee.Some? ==> p.minFee.value >= 0) && (p.maxFee.Some? ==> p.maxFee.value >= 0)
  {
    KindsDiffer(p.kind);
  }

  /** What an invalid policy is told; the number in the text about percentages is left out. */
  lemma PolicyRefusals(p: FeePolicy)
    ensures p.currency == "" ==> PolicyError(p) == Some("currency is required")
    ensures p.currency != "" && p.value < 0.0 ==> PolicyError(p) == Some("fee value cannot be negative")
    ensures p.currency != "" && p.value >= 0.0 && !KindFits(p) ==>
              PolicyError(p) == Some(if p.kind == "percent" then "percent fee cannot exceed 100"
                                     else if p.kind == "fixed" then "fixed fee must be integer value"
                                     else if p.kind == "free" then "free fee value must be 0"
                                     else "unsupported fee type")
    ensures p.currency != "" && p.value >= 0.0 && KindFits(p) && !KnownRounding(p.rounding) ==>
              PolicyError(p) == Some("unsupported rounding rule")
  {
    KindsDiffer(p.kind);
  }

  lemma BoundRefusals(p: FeePolicy)
    requires p.currency != "" && p.value >= 0.0 && KindFits(p) && KnownRounding(p.rounding)
    ensures p.minFee.Some? && p.maxFee.Some? && p.minFee.value > p.maxFee.value ==>
              PolicyError(p) == Some("min fee cannot exceed max fee")
    ensures p.minFee.Some? && p.minFee.value < 0 && (p.maxFee.Some? ==> p.minFee.value <= p.maxFee.value) ==>
              PolicyError(p) == Some("min fee cannot be negative")
    ensures p.maxFee.Some? && p.maxFee.value < 0 && p.minFee.None? ==>
              PolicyError(p) == Some("max fee cannot be negative")
  {
    KindsDiffer(p.kind);
  }

  lemma KindsDiffer(kind: string)
    ensures kind == "percent" ==> kind != "fixed" && kind != "free"
    ensures kind == "fixed" ==> kind != "free"
  {
    if kind == "percent" { assert kind[0] != 'f'; }
    if kind == "fixed" { assert kind[1] != 'r'; }
  }

  /** Each text of a host is checked in turn; the callback lists may be anything. */
  lemma HostRefusals(h: Host)
    ensures HostError(h) == Some("host id is required") <==> h.id == ""
    ensures HostError(h) == Some("host name is required") <==> h.id != "" && h.name == ""
    ensures HostError(h) == Some("host secrets are required")
       <==> h.id != "" && h.name != "" && (h.notificationKey == "" || h.hostSecret == "" || h.webhookSecret == "")
    ensures HostError(h).None?
       <==> h.id != "" && h.name != "" && h.notificationKey != "" && h.hostSecret != "" && h.webhookSecret != ""
  {
  }

  lemma ProductRefusals(p: Product)
    ensures ProductError(p) == Some("product id is required") <==> p.id == ""
    ensures ProductError(p) == Some("host id is required") <==> p.id != "" && p.hostID == ""
    ensures ProductError(p) == Some("product name is required") <==> p.id != "" && p.hostID != "" && p.name == ""
    ensures ProductError(p) == Some("product price cannot be negative")
       <==> p.id != "" && p.hostID != "" && p.name != "" && p.price < 0
    ensures p.id != "" && p.hostID != "" && p.name != "" && p.price >= 0 && p.feeOverride.Some?
            && PolicyError(p.feeOverride.value).Some? ==>
              ProductError(p) == Some("product fee override invalid: " + PolicyError(p.feeOverride.value).value)
    ensures ProductError(p).None?
       <==> p.id != "" && p.hostID != "" && p.name != "" && p.price >= 0
            && (p.feeOverride.Some? ==> ValidPolicy(p.feeOverride.value))
  {
    assert forall e: string :: ("product fee override invalid: " + e)[8] == 'f';
  }

  /** The registry refuses invalid entries and a policy without a host, and no deletion. */
  lemma AdministrationRefusals(op: AdminOp)
    ensures op.RegisterHost? ==> AdminError(op) == HostError(op.host)
    ensures op.RegisterProduct? ==> AdminError(op) == ProductError(op.product)
    ensures op.RegisterAccount? ==> AdminError(op) == AccountError(op.account)
    ensures op.RegisterPolicy? && !ValidPolicy(op.policy) ==> AdminError(op) == PolicyError(op.policy)
    ensures op.RegisterPolicy? && ValidPolicy(op.policy) ==>
              AdminError(op) == if op.hostID == "" then Some("host id is required") else None
    ensures op.DeleteHost? || op.DeleteProduct? || op.DeleteAccount? ==> AdminError(op).None?
  {
  }

  lemma AccountRefusals(a: Account)
    ensures AccountError(a) == Some("host id is required") <==> a.hostID == ""
    ensures AccountError(a) == Some("provider is required") <==> a.hostID != "" && a.provider == ""
    ensures AccountError(a) == Some("environment is required") <==> a.hostID != "" && a.provider != "" && a.env == ""
    ensures AccountError(a) == Some("credentials hash is required")
       <==> a.hostID != "" && a.provider != "" && a.env != "" && a.credentialsHash == ""
    ensures AccountError(a).None?
       <==> a.hostID != "" && a.provider != "" && a.env != "" && a.credentialsHash != ""
  {
  }
}
