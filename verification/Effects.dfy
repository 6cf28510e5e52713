/** What a step may leave as it was. */
module Effects {
  import opened Prelude
  import opened Observability
  import opened Payments

  /** Each of the labels has been counted once more, and no other. */
  ghost predicate CountsOnce(before: Service, after: Service, labels: set<Metric>) {
    forall m :: Count(after.metrics, m) == Count(before.metrics, m) + if m in labels then 1 else 0
  }

  /** Keys, audit trail and dead letters are as before; only the labels have been counted. */
  ghost predicate ServiceCounts(before: Service, after: Service, labels: set<Metric>) {
    && after.idempotent == before.idempotent && after.audit == before.audit && after.deadLetters == before.deadLetters
    && CountsOnce(before, after, labels)
  }

  /** Nothing has happened but that the labels were counted. */
  ghost predicate OnlyCounts(s: State, s': State, labels: set<Metric>) {
    s'.catalogue == s.catalogue && s'.store == s.store && ServiceCounts(s.service, s'.service, labels)
  }
}
