# host-rutebayar: a verified model of the payment orchestrator

The service creates payment orders with a settled ledger line each, moves every order once to a terminal status when
its provider's webhook arrives, and keeps both in memory or in SQLite. This project models that service in Dafny and
proves what it promises over whole runs, under every interleaving of webhook retry loops, and under a store whose
reads and commits may fail.

How the model is built:

- `Payments.dfy` writes each service method as one atomic step (`Step`) over a state of catalogue, service (recorded
  keys, counters, audit trail, dead letters) and store. A method first decides (`CreatePlan`, `WebhookPlan`), then the
  decision is carried out by a store that is either two maps (`Memory`) or the SQLite tables (`Sqlite`).
- `Orchestration.dfy`, `SqliteStores.dfy`, `Observability.dfy`, `Accounts.dfy`, `ReplayGuards.dfy` and
  `CallbackLogs.dfy` hold the imperative code: classes whose methods update fields, slices and maps in place, each
  proved against the functions above.
- `Invariants.dfy`, `Agreement.dfy`, `Refinement.dfy`, `LedgerFaults.dfy`, `Restart.dfy`, `Settlement.dfy`,
  `Auditing.dfy`, `Counting.dfy`, `Drift.dfy`, `Registration.dfy`, `Reads.dfy` and `Registry.dfy` hold the properties of
  runs. `FeeLaws.dfy`, `Validity.dfy`, `Signatures.dfy`, `Keys.dfy`, `Catalogues.dfy`, `Tables.dfy` and `Databases.dfy`
  hold those of their own components.
- `Pricing.dfy`, `Webhooks.dfy`, `Reads.dfy` and `Retries.dfy` say what one call answers, stores, audits and counts in
  every case, in literal texts and from the stored entries, so that nothing in the steps is left to their own
  definitions.

What stands for the outside world:

- The gateway's answer, the fresh reference, the outcome of each store call, cancellation of a retry loop and all times
  are parameters. A run is `Legal` when each new reference is well formed and not stored yet; the references the
  service prints are well formed (`NewReferenceWellFormed`).
- A creation carries its quote. Runs are `Priced` when every quote came from the catalogue of its moment, any of whose
  reads may have failed, as the method `CreatePayment` makes it; theorems that do not mention `Priced` hold for any
  quotes.
- `Configure` puts any other catalogue in place, so theorems about orders hold under every registration, price or
  policy change and deletion.
- HMAC is any function of secret and message. A policy's hash is the policy itself, so equal policies have equal
  checksums. JSON columns hold the value they encode.
- Counter labels and audit events are constructors, one per label or event name; audit and dead-letter timestamps are
  left out.
- Fee values and delays are exact reals, amounts are unbounded integers, "nearest" rounds halves away from zero.
- `Interfere` in the retry loop stands for the released mutex: its caller knows only that other loops and methods made
  allowed moves.

Where a promised property needs a condition, the condition is proved to be exact:

- Agreement of the retry loops needs `MaxAttempts >= 1`; with none allowed, the loop returns an empty status and no
  error (`AgreementNeedsOneAttempt`).
- Over SQLite a webhook whose write takes effect keeps every ledger exactly when its ledger read succeeds, whatever
  other reads and saves have failed before (`LedgersKeptIffRead`). A failed read replaces one ledger, and it is known
  which (`FailedReadReplacesOne`).
- The purging replay guard decides as its full history would, for all nonces and spans, exactly when the times of the
  calls never decrease from the second call on (`GuardNeedsOrderedTimes`).
- The recorded keys count the terminal orders exactly when no gateway answered with a terminal status
  (`KeysCountTerminalOrders`).
- Retry delays never shrink exactly when the base delay is not negative or the multiplier is one
  (`DelaysNonDecreasing`).
- `DeleteHost` succeeds exactly when the host has no orders and owns no ordered product (`DeleteHostIff`); unless an
  ordered product was given to another host, orders alone decide (`OnlyOrdersStopDeletion`).
- A percent fee exceeds the gross amount exactly when MinFee does (`PercentFeeWithinGross`).

The repository's README calls the amounts of an order immutable for audit. The code keeps that promise for orders
always, and for ledgers until a webhook fails to read one, whatever else fails (`SnapshotsAreImmutable`,
`SqliteSnapshotsAreImmutable`); the model follows the code. When the read of a host's fee policy fails, the code sells
the product under the free default policy (`UnreadPolicyIsFree`).

## Model

| member | source | states |
|---|---|---|
| Agreement.RetryLoopsAgree | internal/orchestration/orchestrator.go:273-387 | In every interleaving of any number of retry loops and other calls, over either store, with saves that may be applied and still fail: loops that return without error for one reference return the same terminal status, and the store holds it |
| Agreement.AgreementLasts | internal/orchestration/orchestrator.go:292-338 | Once a loop has ended, its answer and the stored status stay equal through all later moves |
| Agreement.AgreementNeedsOneAttempt | internal/orchestration/orchestrator.go:350-387 | All runs agree if and only if the policy allows at least one attempt |
| Agreement.AttemptsCounted | internal/orchestration/orchestrator.go:350-387 | The reported attempt count is exactly the number of webhook calls made, at most MaxAttempts, and one loop pushes at most one dead letter |
| Agreement.OwnErrorsAreFinal | internal/orchestration/orchestrator.go:389-413 | Not-found, mismatch, transition and unsupported-status errors are never retried, whatever text the statuses hold |
| Agreement.RetriedMeansStoreFault | internal/orchestration/orchestrator.go:365-374 | An attempt is retried only after a fault of the store, and has pushed no dead letter |
| Retries.AttemptDecides | internal/orchestration/orchestrator.go:365-385 | An attempt with a status returns it; one with an error is followed by another if and only if it is not the last allowed and its lower-cased text holds none of the five phrases; the loop and the retry counter say so |
| Retries.CancelEnds | internal/orchestration/orchestrator.go:355-361 | A cancelled loop fails with the error of its context and the attempts made so far |
| Retries.RetriedToSuccess | internal/orchestration/orchestrator.go:350-387 | A loop whose first k attempts, fewer than MaxAttempts, fail at a read or at a save not applied, with texts that end no loop, and whose next attempt is spared, returns its status after k + 1 attempts, and the store holds it |
| Retries.LostReplyFound | internal/orchestration/orchestrator.go:350-387 | If the last failing save was applied after all, the next attempt finds the status stored and returns it, whatever its own save would report |
| Retries.LowerCased | internal/orchestration/orchestrator.go:396 | Lower-casing maps the 26 capital letters to the small ones and keeps every other character |
| Webhooks.UnreadOrder | internal/orchestration/orchestrator.go:276-280 | An order that cannot be read, or is not there, is answered with the fault or "payment not found"; only the call and its outcome are counted |
| Webhooks.WrongProvider | internal/orchestration/orchestrator.go:281-284 | Another provider is answered "provider mismatch", and only that is counted |
| Webhooks.RecordedKey | internal/orchestration/orchestrator.go:285-288 | A recorded key is answered with the stored status, whatever status it brings, and nothing changes but two counters |
| Webhooks.EndedOrder | internal/orchestration/orchestrator.go:290-300 | An ended order answers its own status, and refuses every other with the transition spelled out |
| Webhooks.UnsupportedStatus | internal/orchestration/orchestrator.go:303-315 | An open order refuses any status but the three and queues exactly one dead letter with reference, provider and status |
| Webhooks.Accepted | internal/orchestration/orchestrator.go:317-337 | An open order takes success, failed or expired: order, ledger, key, audit event and counters afterwards |
| Webhooks.SaveFails | internal/orchestration/orchestrator.go:330-332 | A failed save is told as it is, records nothing, and changes the store only if it was applied |
| Webhooks.OpenOrderSettlesIff | internal/orchestration/orchestrator.go:273-338 | When nothing fails, an open order is answered and stored with the status brought if and only if it is "success", "failed" or "expired"; other orders stay |
| Invariants.WebhookStep | internal/orchestration/orchestrator.go:273-338 | One webhook under any faults keeps the invariant, changes no order but by settling an open one, and answers only a terminal status that the store holds |
| Invariants.StepKeepsInv | internal/orchestration/orchestrator.go:124-338 | Every step keeps: recorded strings are the images of recorded triples, each naming a settled order; orders keep all fields but the status |
| Invariants.RunKeepsInv | internal/orchestration/orchestrator.go:124-338 | The same over every legal run, in memory and in SQLite, under any faults |
| Invariants.RunEvolves | internal/orchestration/orchestrator.go:292-332 | Over a run no order disappears, no field but the status changes, and a terminal status stays |
| Invariants.NoFalseHit | internal/orchestration/orchestrator.go:283-290 | In every reachable state the string set answers as a set of (reference, provider, key) triples would |
| Keys.KeyGivesReference | internal/orchestration/orchestrator.go:340-342 | Equal idempotency strings of well-formed references have the same reference |
| Keys.KeyIsAmbiguous | internal/orchestration/orchestrator.go:340-342 | The string alone does not tell provider and key apart: a concrete collision |
| Keys.LedgerKeyGivesReference | internal/orchestration/orchestrator.go:246 | Ledger keys coincide only for the same reference and snapshot, whatever the policy version holds |
| Keys.NewReferenceWellFormed | internal/orchestration/orchestrator.go:679-683 | Every printed reference is free of both separators |
| Keys.NewReferenceInjective | internal/orchestration/orchestrator.go:679-683 | Equal references were printed from the same moment and the same random bytes |
| Refinement.SqliteRefinesMaps | internal/storage/sqlite.go:361-439 | On every fault-free run the service over the two tables gives the answers, counters and audit trail it gives over two maps, and both stores answer every order and ledger read alike |
| Refinement.RunMatches | internal/orchestration/orchestrator.go:617-657 | The simulation between the two stores, from any matched pair of states |
| Refinement.OneLedgerRowPerOrder | internal/storage/sqlite.go:395-412 | Each order row owns exactly one ledger row |
| Refinement.SaveNew | internal/storage/sqlite.go:370-412 | A first save adds one row to each table and represents the maps with the new entry |
| Refinement.SaveAgain | internal/storage/sqlite.go:374-408 | Saving an order again with its own ledger represents the maps with the updated order and the same ledgers |
| Refinement.ReadsAgree | internal/storage/sqlite.go:415-439 | Represented maps and tables answer both reads alike, though the ledger read joins and takes the newest row |
| Tables.SaveThenGetOrder | internal/storage/sqlite.go:361-420 | A saved order is read back whole and every other order is untouched, whatever the ledger rows are |
| Tables.NewestLedger | internal/storage/sqlite.go:425-431 | The row found belongs to the order and has the greatest id; none is found only if the order has no row |
| Tables.SaveRows | internal/storage/sqlite.go:400-408 | A save keeps every row id and never moves a ledger row to another order |
| LedgerFaults.LedgersKeptIffRead | internal/orchestration/orchestrator.go:318-332 | Over SQLite, after any run in which no webhook failed to read its ledger but saves and other reads may have, a webhook whose write takes effect keeps every ledger if and only if it reads its own |
| LedgerFaults.FailedReadReplacesOne | internal/orchestration/orchestrator.go:318-332 | After such a run, a webhook that cannot read its ledger replaces, by a ledger made up from the order, the ledger that has its key, whosever it is, or else the order's own; every other ledger stays |
| LedgerFaults.ReadLedgerIsKept | internal/orchestration/orchestrator.go:317-332 | After any run over SQLite, whatever failed in it, a webhook that does read a ledger changes none |
| LedgerFaults.OverwrittenRow | internal/storage/sqlite.go:400-411 | A made-up ledger whose key names a stored row is read back whole as the ledger of the order that owns the row, and every other ledger is read as before |
| LedgerFaults.AppendedRow | internal/storage/sqlite.go:400-431 | A made-up ledger with a new key is read back whole as the ledger of its order, and every other ledger is read as before |
| Restart.RestartTolerated | internal/orchestration/orchestrator.go:287-301 | Forgetting all recorded keys after any run changes no later order, ledger, audit event or dead letter; answers differ exactly for a forgotten key resent with another status, refused instead of answered |
| Restart.StepForgets | internal/orchestration/orchestrator.go:287-334 | The simulation step between a service that remembers and one that forgot |
| Settlement.LedgersMirrorOrders | internal/orchestration/orchestrator.go:177-250 | In every reachable in-memory state orders and ledgers have the same references, agree on four non-negative amounts, and gross is the sum of both fees and net |
| Settlement.SnapshotsAreImmutable | internal/orchestration/orchestrator.go:317-332 | No later step alters a ledger, or an order field other than the status |
| Settlement.SqliteSnapshotsAreImmutable | internal/orchestration/orchestrator.go:317-332 | The same over SQLite while no webhook fails to read its ledger, whatever saves, applied or not, and other reads fail |
| Settlement.SqliteLedgersMirrorOrders | internal/orchestration/orchestrator.go:217-250 | In every state SQLite reaches so, exactly the stored orders have a ledger, which agrees with its order on all four amounts |
| Settlement.OrdersAddUp | internal/orchestration/orchestrator.go:177-238 | In either store and under any faults, every stored order has non-negative fees and net that add up to its gross |
| Pricing.CreatedIsSold | internal/orchestration/orchestrator.go:125-255 | A created order and its ledger, field by field, from the catalogue entries the input names: price, fees under the product's policy, else the host's if it can be read, else the free default, each with its empty texts filled, provider by environment; both are saved, audited and counted |
| Pricing.CreatedIff | internal/orchestration/orchestrator.go:125-255 | A payment is accepted if and only if host and product are valid, active and belong together, the price covers the fees, an account exists, no read that matters fails, the gateway answers and the save succeeds |
| Pricing.HostRefused | internal/orchestration/orchestrator.go:130-138 | The refusals of the host in order, each with its text and its counter, and nothing else changed |
| Pricing.ProductRefused | internal/orchestration/orchestrator.go:140-156 | The same for the product |
| Pricing.SettlementRefused | internal/orchestration/orchestrator.go:177-200 | The same for the fee, the settlement and the provider |
| Pricing.GatewayRefused | internal/orchestration/orchestrator.go:203-215 | An acceptable payment refused by the gateway is told why, counted, and nothing else |
| Pricing.StoreRefused | internal/orchestration/orchestrator.go:248-251 | An acceptable payment whose save fails is told so; if the save was applied, what a successful one would store is stored |
| Reads.GetAnswers | internal/orchestration/orchestrator.go:258-263 | A read answers an order if and only if the store holds exactly that order and does not fail, else the fault or "payment not found"; it changes two counters at most |
| Reads.CreatedOrderRead | internal/orchestration/orchestrator.go:258-338 | After any later events, over either store, a created order is read with every field but the status as created; the status is the one created or one its provider's webhook brought, and is the one every webhook answered |
| Settlement.QuoteBalanced | internal/orchestration/orchestrator.go:158-190 | An accepted quote splits the price into non-negative fees and net, under the policy that the product, else the host, else the default provides |
| Counting.CountersConserved | internal/orchestration/orchestrator.go:125-338 | In memory, creates are created events plus the eleven errors, webhooks are the six outcomes, unsupported statuses are queued plus drained dead letters |
| Counting.RunBalances | internal/orchestration/orchestrator.go:125-338 | The same over either store and any faults, where refused saves are the webhooks without an outcome |
| Auditing.SettlesAtMostOnce | internal/orchestration/orchestrator.go:292-332 | Over any run, store and faults, an order changes status at most once and is terminal afterwards |
| Auditing.ChangesAreAudited | internal/orchestration/orchestrator.go:330-336 | Over either store, under any faults and restarts, the status changes of an order are its webhook events plus the writes that took effect and were reported as failed |
| Auditing.NeverTwoEvents | internal/orchestration/orchestrator.go:334-336 | Over either store, under any faults and restarts, no reference has two webhook events, and one that has an event has a terminal order |
| Counting.KeysCountTerminalOrders | internal/orchestration/orchestrator.go:330-337 | Recorded keys and the success counter are equal, and equal the number of terminal orders if and only if no order was created terminal |
| Counting.OneEventPerSettledOrder | internal/orchestration/orchestrator.go:334-336 | In memory and without a restart, a reference has one webhook event if and only if its order is terminal and was not created so |
| Drift.ProviderFeesDrift | internal/orchestration/orchestrator.go:182-185 | Over any run the provider fees of n orders are within n/2 of 2.5 percent of their gross |
| Drift.HostFeesDrift | internal/domain/domain.go:105-135 | Against the sum of gross times percentage over a hundred, host fees under percent policies without bounds are within n/2 (nearest), short by less than n (floor), over by less than n (ceil) |
| Registration.InvalidBranchesNeverTaken | internal/orchestration/orchestrator.go:135-181 | If catalogues come from registrations and deletions only, in the registry or in SQLite, the host_invalid, product_invalid and fee errors are never counted |
| Registration.QuoteNeverInvalid | internal/orchestration/orchestrator.go:130-181 | Over a valid catalogue no quote is refused for an invalid host, product or fee policy |
| Registration.CreatedOrderStored | internal/orchestration/orchestrator.go:217-254 | In either store, a created order names the input's host, product and buyer, a product of that host at its price and a provider of the host, and is stored and audited under its reference |
| Registration.CreatedLedgerStored | internal/orchestration/orchestrator.go:239-250 | Its ledger is stored with it: always in memory, and over SQLite while no webhook has failed to read its own |
| Registration.UnreadPolicyIsFree | internal/orchestration/orchestrator.go:158-166 | If the read of the host's policy fails, a product without its own policy is sold free of the host's fee |
| Catalogues.CatalogueStaysValid | internal/orchestration/orchestrator.go:416-472 | Any sequence of registrations and deletions leaves valid entries only |
| Catalogues.AccountsAreHistory | internal/orchestration/orchestrator.go:444-455 | After any registry operations a host's account list is the history of its own accepted operations since its last deletion, and a provider is found if and only if one of them is live |
| Registry.HostsAreHistory | internal/orchestration/orchestrator.go:416-427 | After any administration, a host is held if and only if some operation registered it validly and none has replaced or deleted it since |
| Registry.ProductsAreHistory | internal/orchestration/orchestrator.go:430-441 | The same for products, which go with their host |
| Registry.PoliciesAreHistory | internal/orchestration/orchestrator.go:458-472 | The same for host policies |
| Registry.TablesFollowRegistry | internal/storage/sqlite.go:145-358 | After any operations the SQLite tables hold the hosts, policies and products, and for each host the accounts, that the registry would hold after the operations the store did not refuse |
| Validity.PolicyValidIff | internal/domain/domain.go:65-103 | A policy is valid if and only if currency, value, kind, rounding and bounds are in order |
| Validity.PolicyRefusals | internal/domain/domain.go:65-92 | What a policy is told whose currency, value, kind or rounding is wrong, in that order |
| Validity.BoundRefusals | internal/domain/domain.go:93-101 | The same for its bounds |
| Validity.AdministrationRefusals | internal/orchestration/orchestrator.go:416-472 | The registry refuses invalid entries and a policy without a host, and never a deletion |
| Validity.HostRefusals | internal/domain/domain.go:41-52 | Which hosts are valid, and what each other one is told |
| Validity.ProductRefusals | internal/domain/domain.go:174-193 | The same for products |
| Validity.AccountRefusals | internal/domain/domain.go:204-218 | The same for provider accounts |
| FeeLaws.PercentFeeIs | internal/domain/domain.go:126-134 | Without bounds, a hundred percent fees differ from gross times value by at most 50 (nearest, a half going up), by less than 100 below (floor) or above (ceil), and not at all when a hundred divides it |
| FeeLaws.FixedFeeIs | internal/domain/domain.go:129-130 | Without bounds, a fixed fee is the value of its policy |
| FeeLaws.NoFee | internal/domain/domain.go:121-133 | A free policy or a price that is not positive costs nothing |
| FeeLaws.FeeMeetsSpec | internal/domain/domain.go:117-143 | For positive gross a bound counts exactly when the fee without bounds violates it, and is then the fee |
| FeeLaws.ProviderFeeIs | internal/orchestration/orchestrator.go:182-185 | Forty provider fees differ from the price by at most 20, a half going up; a negative price has none |
| FeeLaws.FeeTotal | internal/domain/domain.go:65-103 | A fee is refused only for an invalid policy, and is never negative |
| FeeLaws.FeeMonotone | internal/domain/domain.go:117-143 | A larger gross never pays a smaller fee |
| FeeLaws.FeeOrderedByRounding | internal/domain/domain.go:105-114 | Floor, nearest and ceiling fees of one policy are ordered and at most one apart, clamping included |
| FeeLaws.PercentFeeWithinGross | internal/domain/domain.go:126-141 | A percent fee exceeds gross if and only if MinFee does |
| FeeLaws.NearestIsNearest | internal/domain/domain.go:111-112 | Rounding is within one half, ties go away from zero, and it is odd |
| Observability.DelaysNonDecreasing | internal/observability/observability.go:92-103 | With a multiplier of at least one, delays never shrink if and only if the base delay is not negative or the multiplier is one |
| Observability.TotalWaitBounded | internal/observability/observability.go:92-103 | n sleeps last at most n caps and at most the geometric sum |
| Observability.LoopWaitBounded | internal/orchestration/orchestrator.go:354-385 | A loop's sleeps last at most MaxAttempts - 1 caps, and at most the geometric sum of as many terms |
| Observability.GeometricClosedForm | internal/observability/observability.go:92-103 | The closed form of that sum |
| Observability.DelayIs | internal/observability/observability.go:92-103 | A delay is its exact term with the fraction dropped, or the cap if one is set and the term is above it |
| Observability.UncappedGrows | internal/observability/observability.go:92-103 | The first term is the base delay, and each retry multiplies once more |
| Observability.DelayBounds | internal/observability/observability.go:92-103 | One delay lies between zero and the cap, and below its uncapped term |
| Observability.Bump | internal/observability/observability.go:20-24 | An increment adds one to its own label and leaves all others |
| Observability.Collector.Inc | internal/observability/observability.go:20-24 | The counter map after an increment |
| Observability.AuditTrail.Append | internal/observability/observability.go:50-58 | One event is added at the end |
| Observability.DeadLetterQueue.Push | internal/observability/observability.go:124-128 | One item is queued at the end |
| Observability.DeadLetterQueue.Drain | internal/observability/observability.go:130-137 | All items are handed out in order and the queue is empty |
| Signatures.AcceptedIff | internal/security/security.go:38-69 | A signature is accepted if and only if one of the two secrets gives it to the message at some second inside the window |
| Signatures.SignedText | internal/security/security.go:30-36 | The computed signature, character for character: t, the whole seconds, v1 and the hash of seconds and message under the current secret |
| Signatures.WindowIs | internal/security/security.go:51-56 | A second is inside the window if and only if it lies no further than it from the clock, before or after |
| Signatures.RefusalIs | internal/security/security.go:50-68 | Why a well-formed signature is refused: too old, from the future, or a digest of neither secret |
| Signatures.MalformedIs | internal/security/security.go:39-45 | Without a current secret, or without a separator in the text, the refusal says so |
| Signatures.MalformedHead | internal/security/security.go:43-49 | Before the first separator there must be the prefix and then an int64; the refusal tells which is missing |
| Signatures.ComputeVerify | internal/security/security.go:30-69 | A signature computed under the current or previous secret verifies exactly inside the window around its whole second |
| Signatures.AcceptedIsCanonical | internal/security/security.go:42-68 | An accepted text is exactly the one printed for the timestamp parsed from it |
| Signatures.ParseFormat | internal/security/security.go:42-49 | The timestamp printed into a signature is parsed back, whatever the digest |
| Signatures.AppendTimestampInjective | internal/security/security.go:71-73 | What is hashed determines timestamp and message |
| Signatures.SignatureBindsMessage | internal/security/security.go:58-61 | Under one secret, two messages accepted with one signature are a hash collision |
| Text.ParsePrint | internal/security/security.go:46 | Decimal printing and parsing round-trip on every int64 |
| ReplayGuards.GuardNeedsOrderedTimes | internal/security/security.go:95-112 | Guard and unpurged history agree on all calls made at given times, whatever nonces and spans, if and only if the times never decrease from the second on |
| ReplayGuards.GuardMeetsHistory | internal/security/security.go:95-112 | For such times, the purging guard accepts a call if and only if no earlier accepted call with its nonce is unexpired |
| ReplayGuards.ReplayGuard.Accept | internal/security/security.go:95-112 | The decision, the swept map, and that all entries left after an accept are unexpired exactly for a positive ttl |
| ReplayGuards.BackwardClockDisagrees | internal/security/security.go:105-109 | The smallest such case: a call at a later time purges the entry that an earlier time still needs |
| Accounts.ListIsHistory | internal/orchestration/orchestrator.go:659-668 | The account list is the last-write-wins history ordered by latest registration |
| Accounts.ListHasNoDuplicates | internal/orchestration/orchestrator.go:659-668 | No two listed accounts share provider and environment |
| Accounts.SelectionIsLive | internal/orchestration/orchestrator.go:600-614 | A provider is found if and only if some registered account is live, and it is a live account's |
| Accounts.SelectProvider | internal/orchestration/orchestrator.go:579-615 | The first exact environment, else the first sandbox, else the first account; an error only for no account |
| Accounts.AccountList.Filter | internal/orchestration/orchestrator.go:660-666 | In one array, the write index never passing the read index, the kept accounts end up in front in order |
| Accounts.AccountList.Register | internal/orchestration/orchestrator.go:659-668 | The slice afterwards, whether the append fits or grows the array |
| Accounts.AccountList.Remove | internal/orchestration/orchestrator.go:739-747 | The slice without the removed slot |
| Databases.DeleteHostIff | internal/storage/sqlite.go:567-598 | Deletion succeeds if and only if the host has no orders and owns no ordered product; then no row names it, every other row is as before, and no foreign key dangles |
| Databases.OnlyOrdersStopDeletion | internal/storage/sqlite.go:567-598 | In every run whose saves name a product of their host and whose registrations leave ordered products with their host, a host is deleted if and only if it has no orders |
| Databases.ReownedProductBlocks | internal/storage/sqlite.go:259-260 | A product with orders upserted to another host blocks that host's deletion although it has no orders |
| Databases.StoreStaysSound | internal/storage/sqlite.go:57-131 | After any operations no foreign key dangles and the catalogue read from the tables is valid |
| Databases.ProductRoundTrip | internal/storage/sqlite.go:274-295 | A product read back through the nullable override columns is the product stored |
| SqliteStores.SqliteStore.DeleteHost | internal/storage/sqlite.go:567-598 | All deletions take effect or none; a constraint rolls back, and a failing commit may have been applied |
| SqliteStores.SqliteStore.SaveOrder | internal/storage/sqlite.go:361-413 | Both rows are written or none, and a failing commit may have been applied |
| SqliteStores.SqliteStore.GetLedger | internal/storage/sqlite.go:423-439 | The newest row of the order |
| SqliteStores.SqliteStore.GetOrder | internal/storage/sqlite.go:416-420 | The row of the reference |
| SqliteStores.SqliteStore.GetProviderAccounts | internal/storage/sqlite.go:338-358 | The host's account rows in table order, or the fault |
| Orchestration.Orchestrator.CreatePayment | internal/orchestration/orchestrator.go:125-255 | The method takes the model's create step, in memory and over the store, under any faults of its reads and its save |
| Orchestration.Orchestrator.ReconcileWebhook | internal/orchestration/orchestrator.go:273-338 | The method takes the model's webhook step, in memory and over the store, under any faults |
| Orchestration.Orchestrator.GetPayment | internal/orchestration/orchestrator.go:258-263 | The method takes the model's read step |
| Orchestration.Orchestrator.SaveOrder | internal/orchestration/orchestrator.go:617-624 | The save goes to the maps or to the store, and no foreign key stops it |
| Orchestration.Orchestrator.QuotePayment | internal/orchestration/orchestrator.go:130-200 | The checks and lookups of a payment, in the order of the source, each lookup of a store possibly failing |
| Orchestration.Orchestrator.ReconcileWebhookWithRetry | internal/orchestration/orchestrator.go:350-387 | The loop makes only moves of the loop system, with others in between, reports its attempts, and sleeps the policy's delays, one between two attempts; only a cancelled loop may have slept after its last |
| Orchestration.Orchestrator.ReturnedIsStored | internal/orchestration/orchestrator.go:365-367 | A loop joined to a running system returns a stored terminal status when it returns no error |
| Orchestration.Orchestrator.RegisterHost | internal/orchestration/orchestrator.go:416-427 | A valid host is stored, an invalid one refused, nothing else changes |
| Orchestration.Orchestrator.RegisterProduct | internal/orchestration/orchestrator.go:430-441 | The same for products |
| Orchestration.Orchestrator.RegisterProviderAccount | internal/orchestration/orchestrator.go:444-455 | The same for provider accounts |
| Orchestration.Orchestrator.RegisterHostPolicy | internal/orchestration/orchestrator.go:458-472 | The same for policies |
| Orchestration.Orchestrator.DeleteHost | internal/orchestration/orchestrator.go:686-707 | The registry drops the host with its policy, accounts and products; the store answers for itself, its commit included |
| Orchestration.Orchestrator.DeleteProduct | internal/orchestration/orchestrator.go:710-724 | The product is dropped, or the store refuses |
| Orchestration.Orchestrator.DeleteProviderAccount | internal/orchestration/orchestrator.go:727-749 | The slot is dropped from the host's list |
| CallbackLogs.CallbackLog.Record | internal/http/handlers.go:234-241 | The log stays the tail of the full history |
| CallbackLogs.CallbackLog.List | internal/http/handlers.go:243-255 | The latest entries newest first, leaving the log as it is |
| CallbackLogs.CallbackLog.Reverse | internal/http/handlers.go:248-250 | The two-index loop reverses the array in place |
| CallbackLogs.LogIsTail | internal/http/handlers.go:234-241 | Truncating on every write keeps exactly the last min(n, 100) entries |
| CallbackLogs.ListShowsLatest | internal/http/handlers.go:243-255 | The k-th listed entry is the k-th latest of the history |

## Left out

- HTTP routing, pages, sessions and handlers other than the callback log, the upstream proxy and the client SDK.
- The number printed into the percent-limit error.
- Configuration, wiring, list endpoints, `AuditTrail.Last`, queue summaries and counter reads.
- AES-GCM envelopes, SHA-256, HMAC, base64, hex decoding, JSON and random tokens, kept as functions or values where needed.
- float64 rounding error, NaN, int64 overflow and out-of-range conversions: amounts and delays are exact.
- Timestamps whose distance leaves the internal range of Go's clock: times are unbounded, only their difference saturates.
- Lower-casing of letters outside ASCII in error texts; the phrases searched for are ASCII.
- Wrapped `sql.ErrNoRows` values are recognised by their text, not by identity.
- SQL parsing, statement timeouts and drivers: a statement is one function application and a transaction works on a copy. Foreign keys are on, as in the default data source name.
- The next auto-increment id is the number of inserts plus one; only its order matters.
- Orchestrator.RegisterProviderAccount: runs `AccountList` on a slice that fills its own array, so spare capacity and aliasing between the registry and a slice read from it earlier are not captured.
- Orchestrator.DeleteProviderAccount: the same.
- AuditTrail.Append: leaves out the time of the event.
- DeadLetterQueue.Push: leaves out the time of the item.
- SqliteStore.GetProviderAccounts: returns rows in table order, which the source leaves open, so the provider chosen over SQLite is not compared with the one chosen in memory.
- SqliteRefinesMaps: gives both runs the same catalogue, and covers orders and ledgers; catalogues are compared by `TablesFollowRegistry`, for the operations the store does not refuse.
