# Verified model of the shop's order, catalog, analytics, knowledge and agent core

The modules state what the services promise each other and prove it for every input, run or interleaving.

- **Payment saga.** `Trade` and `Catalog` hold the rows of the two databases and each SQL transaction as a function;
  `TradeDb` and `CatalogDb` are the stores whose methods carry those transactions out. `Saga` interleaves any number of
  payers, recovery and expiry workers, publishers and consumers over a set of messages in flight, in which nothing is
  ever removed: messages and replies arrive late, repeatedly or never, and a crashed process takes no further step.
  `SagaInvariants` and `SagaTheorems` hold what every run keeps. `PayWallet`, `Recovery` with `RecoveryPass`, and
  `Expiry` are the coordinator and the two workers step by step over a `World`; between any two of their calls other
  processes may act. `PayOutcome` and `RecoveryOutcome` say, by the rows alone, what a payment or a recovery nobody
  disturbs must come to.
- **Leases and retries.** `LeaseBudget` is the int64 arithmetic of the startup checks, `Backoff` the doubling delays,
  `Selection` the ordered, limited row selection shared by all workers.
- **Outbox and read model.** `Outbox` and `OutboxWorker` are the leased rows of both outboxes, `Analytics` the review
  read model, `Pipeline` their composition through Kafka, `Consumer` the consuming process.
- **Money and orders.** `Money` is text against exact rationals, `Pricing` the best promotion, `Cart` the order lines and
  their total, `Checkout` the idempotent placing of an order.
- **Cache invalidation.** `CacheInvalidation`, `CacheFence` and `CacheWorker`: tasks fenced by a millisecond timestamp.
- **Text.** `Normalize` and `Chunker` cut documents; `EventStream` prints, splits and parses the agent events, `AgentView`
  folds them, `AgentRun` is the loop that produces the timeline they show.

Conventions. A method that another process can interrupt takes what the others do as an argument (any sequence of
actions) and returns the trace of the whole run as a ghost value, so its contract ties the state after to the state
before by `Run`. How each call ends is an argument too: answered, rejected without effect, or carried out with its answer
lost. An operation is undisturbed when every call it makes is answered and nobody else acts meanwhile. Times are
integers, in nanoseconds where truncation to milliseconds matters. Amounts in the payment tables are whole cents;
`Money` proves that this is what their text denotes.

Where the code and its documentation or comments disagree, the model follows the code. Five promises turned out not to
hold as stated; each has a failing input and its exact condition:

- that no call outlives its lease (`LeaseBudget.AcceptedLeaseCanRunOut`, `LeaseBudget.CallsFitLeaseIffSlack`);
- that replays of an order request answer exactly alike (`Checkout.RetryNamesNoAddress`, `Checkout.RetryShowsPayment`,
  `Checkout.PlaceTwice`);
- that stream and replay show the same error code and the same lists (`AgentView.SucceededRunDiffers`,
  `AgentView.StreamAgreesWithReplay`);
- that a review event can only fail by being invalid (`Analytics.SameReviewNumberFails`,
  `Analytics.FailsOnlyOnForeignReview`);
- that a dispossessed cache-invalidation worker can change nothing (`CacheFence.SteppedBackClockUnfences`,
  `CacheFence.FencedIffInOrder`).

## Model

| member | source | states |
|---|---|---|
| TradeDb.TradeDb.ClaimPayment | services/order-service/internal/order/payment_repository.go:43-92 | one claim transaction; its new rows and answer are those of Trade.ClaimPayment, for every state and every order status |
| TradeDb.TradeDb.SettleWalletPayment | services/order-service/internal/order/payment_repository.go:140-236 | one settlement transaction: debit, ledger, order and outbox rows change together or not at all |
| TradeDb.TradeDb.ResetPaymentClaim | services/order-service/internal/order/payment_repository.go:95-122 | the exact-claim reset: only the order holding this attempt is cleared, and the attempt is filed in the history |
| TradeDb.TradeDb.LeaseStale | services/order-service/internal/recovery/mysql_store.go:21-57 | leases the first stale, unlocked claims in id order up to the limit under new tokens, all in one transaction; a row it cannot read undoes it |
| TradeDb.TradeDb.RecoveryReset | services/order-service/internal/recovery/mysql_store.go:59-86 | the reset of a recovery worker is also fenced by its lease token |
| TradeDb.TradeDb.RecoveryDone | services/order-service/internal/recovery/mysql_store.go:87-90 | gives back a lease only while its token is the current one |
| TradeInvariants.ClaimKeeps | services/order-service/internal/order/payment_repository.go:43-92 | a claim keeps every attempt accounted for on exactly one order row or in the history, and the ledger and outbox matching the PAID orders |
| TradeInvariants.SettleKeeps | services/order-service/internal/order/payment_repository.go:140-236 | settlement keeps the same accounting: one DEBIT per PAID order with a positive total, one confirmation per PAID order |
| TradeInvariants.SettleConserves | services/order-service/internal/order/payment_repository.go:140-236 | wallet balance plus paid totals is unchanged by a settlement, for every user |
| TradeInvariants.SettleNeverHitsAUniqueKey | services/order-service/internal/order/payment_repository.go:140-236 | in a consistent state settlement never fails on a unique key of the ledger or the outbox |
| TradeInvariants.ClearKeeps | services/order-service/internal/order/payment_repository.go:95-122 | both resets keep the accounting |
| TradeInvariants.ResetIsNeverConfirmed | services/order-service/internal/order/payment_repository.go:95-122 | an attempt in the reset history is on no order row and its reservation has no confirmation |
| TradeInvariants.SettlementIsAFunction | services/order-service/internal/order/payment_repository.go:13-31 | the UNION ALL settlement query has one answer for an attempt, and it tells reset, in-progress and paid attempts apart |
| CatalogInvariants.HoldKeeps | services/product-service/internal/catalog/reservation_repository.go:33-80 | reserving conserves stock plus holdings per SKU, whether all items could be taken or none |
| CatalogInvariants.ReleaseKeeps | services/product-service/internal/catalog/reservation_repository.go:162-208 | release conserves stock, gives back exactly once, and refuses exactly unknown and confirmed groups |
| CatalogInvariants.ConfirmKeeps | services/product-service/internal/catalog/reservation_repository.go:98-133 | consuming a confirmation conserves stock; it succeeds exactly for an event already consumed or one naming the group's own order and attempt while the stock is not given back, and a new one turns exactly that group CONFIRMED |
| CatalogInvariants.GroupOutcomesKeep | services/product-service/internal/catalog/reservation_expiry_worker.go:93-166 | the expiry worker's outcomes conserve stock and decide only the leased group |
| CatalogDb.CatalogDb.ReserveStock | services/product-service/internal/catalog/reservation_repository.go:33-80 | one reservation transaction: item loop, idempotent replay, conflict and out-of-stock answers |
| CatalogDb.CatalogDb.ReleaseReservation | services/product-service/internal/catalog/reservation_repository.go:162-208 | one release transaction, with the item loop that restores stock |
| CatalogDb.CatalogDb.ConfirmConsumed | services/product-service/internal/catalog/reservation_repository.go:98-133 | one consumption transaction: deduplicated by event id, checked against the group's order and attempt |
| SagaInvariants.SettleActionKeeps | services/order-service/internal/order/payment_repository.go:140-236 | settling on evidence of a RESERVED reservation keeps both databases and every message in flight consistent: paid stock is still held |
| SagaInvariants.ExpiryOutcomesKeep | services/product-service/internal/catalog/reservation_expiry_worker.go:174-206 | the expiry worker may confirm or release on the settlement status it was told, however old the answer is |
| SagaInvariants.ActionKeeps | services/order-service/internal/order/payment.go:107-166 | every atomic action of payers, recovery and expiry workers, publishers and consumers keeps the saga invariant and undoes nothing decided |
| SagaTheorems.RunKeeps | services/order-service/internal/order/payment.go:107-166 | the invariant holds after every run: all interleavings, lost and late messages, crashes |
| SagaTheorems.MoneyIsConserved | services/order-service/internal/order/payment_repository.go:140-236 | over every run from the start, each user's balance plus paid totals equals the initial balance; one DEBIT per PAID order with a positive total and none else; balances are naturals |
| SagaTheorems.ReleaseNeverMeetsConfirmation | services/order-service/internal/recovery/payment_worker.go:173-186 | a reservation whose release was asked for has no confirmation row, now or in any continuation, and its attempt reads as reset |
| SagaTheorems.PaidMeansConfirmedOnce | services/order-service/internal/order/payment_repository.go:207-236 | an order is PAID exactly when the reservation on its row has a confirmation, and it has no second one |
| SagaTheorems.PaidIsFinal | services/order-service/internal/order/payment_repository.go:207-236 | PAID never changes: attempt, confirmation and held stock stay in every continuation |
| SagaTheorems.ConfirmedMeansPaid | services/order-service/internal/recovery/payment_worker.go:162-164 | CONFIRMED stock belongs to a PAID order; no PAYMENT_PROCESSING order has a CONFIRMED reservation |
| SagaTheorems.ReleasedMeansReset | services/product-service/internal/catalog/reservation_repository.go:162-208 | RELEASED stock belongs to a reset attempt that is never confirmed later |
| SagaTheorems.SettlementOnlyMovesForward | services/order-service/internal/order/payment_repository.go:13-31 | an attempt's settlement status is a function of the state and only moves from PAYMENT_PROCESSING to PAID or to PENDING_PAYMENT |
| SagaTheorems.NoOverselling | services/product-service/internal/catalog/reservation_repository.go:33-80 | stock left plus everything paid for never exceeds the initial stock of a SKU |
| SagaTheorems.ResolvedIsFinal | services/order-service/internal/order/payment_repository.go:95-122 | a settled or reset attempt stays so in every continuation and is never again the one in progress on its order |
| SagaTheorems.DeliveredConfirmationSucceeds | services/product-service/internal/catalog/reservation_repository.go:98-133 | however late or often a confirmation is delivered, its consumer succeeds and leaves the stock CONFIRMED |
| SagaTheorems.DrainedMeansConfirmed | services/product-service/internal/catalog/reservation_repository.go:98-133 | once every confirmation is consumed, a reservation is CONFIRMED exactly when it is the one of a PAID order |
| SagaTheorems.RestingStockBalances | services/product-service/internal/catalog/reservation_repository.go:33-80 | with nothing left undecided, stock left plus everything paid for is exactly the initial stock of a SKU |
| SagaTheorems.HolderKeepsLease | services/order-service/internal/recovery/mysql_store.go:21-57 | while a recovery lease runs nobody else can take its claim: it stays the holder's or is resolved |
| PayWallet.PayWallet | services/order-service/internal/order/payment.go:107-166 | takes only saga steps under any interference and any fate of its calls; success means PAID in full, a refusal means this attempt was reset. Undisturbed, the order's row before the call decides: PAID answers with that very row, PAYMENT_PROCESSING is in progress, CLOSED conflicts, an absent or foreign order is not found, each changing nothing; PENDING_PAYMENT is paid by stock and balance |
| PayOutcome.ClaimedPays | services/order-service/internal/order/payment.go:131-166 | a payable order's undisturbed payment, by the tables before it: a request product-service refuses leaves the claim for recovery, missing stock or money restores row, wallet and stock and files the attempt, otherwise the total is debited once, the items leave the stock and the order is PAID |
| PayWallet.ClaimsByTheRow | services/order-service/internal/order/payment_repository.go:43-92 | in every reachable state the row's owner and status alone decide the claim: a PENDING_PAYMENT order of the caller is always claimed, any other is left untouched |
| PayOutcome.ReserveTakes | services/product-service/internal/catalog/reservation_repository.go:33-80 | a reservation request by the tables: refused when malformed; answered with its group when repeated, in conflict when the group is another request's, both changing nothing; a fresh one is held exactly when every item is in stock, and takes exactly its items |
| PayOutcome.SettlesByTheRow | services/order-service/internal/order/payment_repository.go:140-236 | once the stock was seen held, the order's row alone decides a settlement: a PAID order is answered as it is, another attempt's claim is in progress, a claim of this attempt is paid exactly when the balance covers the total, with the total debited once; every other case changes nothing |
| PayWallet.ReserveAndSettle | services/order-service/internal/order/payment.go:131-166 | the part after a claim, with the same verdict; a stock call without an answer leaves the claim for recovery |
| PayWallet.ResetAndReport | services/order-service/internal/order/payment.go:154-164 | a refusal is reported only after the exact claim was reset, stock is released only after that |
| PayWallet.PaymentAfterFailedReset | services/order-service/internal/order/payment.go:169-182 | a missed reset is answered from the durable state: PAID is success, in progress is reported, nothing is refused |
| PayWallet.RefusedIsNeverPaid | services/order-service/internal/order/payment.go:154-164 | after OUT_OF_STOCK or INSUFFICIENT_BALANCE no continuation ever pays an order under that attempt |
| PayWallet.VerdictStands | services/order-service/internal/order/payment.go:107-166 | verdicts stay true whatever others do next |
| Recovery.Reconcile | services/order-service/internal/recovery/payment_worker.go:135-171 | at most five timed calls; success only once the attempt is settled or reset for good; undisturbed on a held lease it succeeds, and a claim whose stock is RESERVED is PAID exactly when the balance covers the total, else reset with its stock put back; without held stock it is reset and the catalog unchanged |
| RecoveryOutcome.ResolvedRecovers | services/order-service/internal/recovery/payment_worker.go:135-171 | group status, balance and total before the call decide what looking at the reservation and acting on it leaves of a held claim, row by row |
| Recovery.Reset | services/order-service/internal/recovery/payment_worker.go:173-186 | fenced reset, then release on request, then the lease is given back: at most three calls, releasing only what was reset |
| Recovery.Resume | services/order-service/internal/recovery/payment_worker.go:149-170 | a RESERVED claim is settled exactly, or reset and released when money is short |
| Recovery.ConfirmedIsSettled | services/order-service/internal/recovery/payment_worker.go:162-164 | an order whose reservation is CONFIRMED may be left alone: it was paid |
| RecoveryLease.LeasingIsARun | services/order-service/internal/recovery/mysql_store.go:21-57 | the batch lease transaction amounts to one lease action per claim |
| RecoveryPass.RunOnce | services/order-service/internal/recovery/payment_worker.go:87-104 | one pass: at most 1 + 5 per leased claim calls, within the lease when each keeps its timeout; success means the leased claims are the first overdue, unlocked ones and every one is resolved; undisturbed it always succeeds and pays exactly the claims whose stock is held and whose total the wallet covers at their turn |
| RecoveryPass.FirstStaleIsFirstOverdue | services/order-service/internal/recovery/mysql_store.go:21-57 | the leased claims are, by the columns, the first unlocked PAYMENT_PROCESSING orders whose claim is at least the lease duration old and under no running lease |
| RecoveryOutcome.BatchDecides | services/order-service/internal/recovery/payment_worker.go:98-102 | one claim of a batch ends by its own order, group and balance: recovering the others does not touch it |
| RecoveryPass.HolderKeepsBatch | services/order-service/internal/recovery/payment_worker.go:87-104 | with a millisecond of slack a claim stays its worker's until the last call of the batch is over, or is resolved, for every lease duration and however the column rounds its end |
| CatalogDb.CatalogDb.LeaseExpired | services/product-service/internal/catalog/reservation_expiry_worker.go:55-92 | leases the first expired, unlocked groups in reservation order under new tokens, in one transaction |
| Expiry.Act | services/product-service/internal/catalog/reservation_expiry_worker.go:185-203 | one fenced outcome: it succeeds exactly while the lease is held; PAID confirms, a reset attempt's stock is released, anything else waits for the retry; no other group changes |
| Expiry.Reconcile | services/product-service/internal/catalog/reservation_expiry_worker.go:185-203 | one group in two calls, acting on an answer that may be old; undisturbed it is CONFIRMED exactly if its attempt paid, RELEASED exactly if it was reset, RESERVED exactly while it is in progress |
| Expiry.RunOnce | services/product-service/internal/catalog/reservation_expiry_worker.go:174-206 | one pass takes only saga steps, at most 1 + 2 per group calls; the leased groups are the first RESERVED ones past expiry and retry time under no running lease; undisturbed it decides every group it leased rightly |
| LeaseBudget.RecoveryCheckIsExact | services/order-service/internal/recovery/payment_worker.go:50-71 | the recovery check accepts exactly when timeout * (1 + 5 * batch) fits the lease, over the integers |
| LeaseBudget.RecoveryNeverOverflows | services/order-service/internal/recovery/payment_worker.go:60-69 | none of the check's int64 operations overflows once the tests before it passed |
| LeaseBudget.OutboxCheckIsExact | services/order-service/internal/outbox/worker.go:67-83 | the outbox check accepts exactly when timeout * (1 + 2 * batch) fits the lease, also when the call count wraps around in int64 |
| LeaseBudget.CallCountIsOdd | services/knowledge-service/internal/outbox/worker.go:71-74 | the wrapped call count is odd, hence never zero, and negative when it wraps |
| LeaseBudget.CallsFitLeaseIffSlack | services/order-service/internal/outbox/worker.go:170-176 | calls always end within the stored lease exactly when the budget leaves 999999 ns of slack, for the outbox before the lease duration and for recovery before its whole milliseconds |
| LeaseBudget.AcceptedLeaseCanRunOut | services/order-service/internal/recovery/payment_worker.go:92-95 | configurations both checks accept whose last call can end after the stored lease |
| LeaseBudget.BatchEndsBeforeTakeover | services/order-service/internal/outbox/worker.go:98-132 | with that slack a batch is over before any other worker on the same clock may take its rows |
| LeaseBudget.RecoveryBatchEndsInLease | services/order-service/internal/recovery/payment_worker.go:50-71 | with that slack the startup check passes and a recovery batch ends by the stored end of its lease, truncated or rounded |
| Outbox.ActionKeeps | services/order-service/internal/outbox/worker.go:145-222 | every lease, publication and fenced update keeps: token and lease columns set exactly while PROCESSING, PUBLISHED only after an acknowledgement, DEAD only out of attempts |
| Outbox.PublishedOnlyByItsHolder | services/order-service/internal/outbox/worker.go:199-209 | a row becomes PUBLISHED only when its current token holder marks it after an acknowledged publication |
| Outbox.DispossessedChangesNothing | services/order-service/internal/outbox/worker.go:199-222 | a worker whose lease was taken over or closed changes no row, then or in any continuation |
| Outbox.RunningLeaseStands | services/order-service/internal/outbox/worker.go:145-222 | until its stored lease end a row stays as its holder left it: no worker whose clock shows less leases it, and none without its token closes it |
| Outbox.LeasableAgain | services/order-service/internal/outbox/worker.go:248-250 | a publishable row is due again from some moment on exactly when it is neither PUBLISHED nor DEAD |
| Outbox.DeadMeansExhausted | services/knowledge-service/internal/outbox/worker.go:105-113 | DEAD rows exist only in the knowledge outbox and have at least the configured attempts, in every run |
| Outbox.PublishedIsLogged | services/order-service/internal/outbox/worker.go:115-129 | whatever is PUBLISHED is in the Kafka log |
| OutboxWorker.OutboxDb.LeasePending | services/order-service/internal/outbox/worker.go:145-196 | leases the first due unlocked rows in id order; it fails exactly when one of them is unusable, with nothing leased |
| OutboxWorker.Close | services/knowledge-service/internal/outbox/worker.go:104-127 | after a failed publication the row is PENDING with the capped delay, or DEAD when out of attempts; after an acknowledged one PUBLISHED |
| OutboxWorker.RunOnce | services/order-service/internal/outbox/worker.go:98-132 | at most 1 + 2 per row calls, within the lease; success means the leased rows are, by the columns, exactly the first batchSize unlocked due ones in id order and all of them are PUBLISHED with their messages in the log; undisturbed it fails only when one of those rows is one it cannot use |
| Backoff.OutboxRetryDelay | services/order-service/internal/outbox/worker.go:263-273 | the delay is min(2^(n-1), 30) seconds, without int64 overflow |
| Backoff.CacheRetryDelay | services/product-service/internal/catalog/cache_invalidation.go:309-321 | the delay is min(base * 2^(n-1), max); the guard keeps every int64 doubling exact |
| Backoff.DelaysGrow | services/product-service/internal/catalog/cache_invalidation.go:309-321 | delays are positive, bounded, monotone in the retry number, and double until capped |
| Analytics.AnalyticsDb.HandleReviewEvent | services/order-service/internal/analytics/repository.go:36-90 | the deduplicating transaction: an invalid event changes nothing; a new one is recorded with its own review, order, user, product, SKU, rating, content and millisecond time, and moves its product's count, sum and latest time; a repeated one changes nothing; a foreign review number undoes all |
| Analytics.HandleKeeps | services/order-service/internal/analytics/repository.go:36-90 | every product's stats stay the fold of its records, and no committed row is left in progress |
| Analytics.SumWithinRatings | services/order-service/internal/analytics/repository.go:244-259 | rating_sum lies between review_count and five times it |
| Analytics.FailsOnlyOnForeignReview | services/order-service/internal/analytics/repository.go:68-71 | a valid event fails exactly when it is new under a review number another event holds |
| Analytics.SecondOfAReviewFails | services/order-service/internal/analytics/repository.go:68-71 | a valid new event under a recorded review number changes nothing, for every such pair of events |
| Analytics.SameReviewNumberFails | services/order-service/internal/analytics/repository.go:68-71 | two valid events with one review number: the first is counted, the second fails and changes nothing |
| Analytics.DeliveredOnce | services/order-service/internal/analytics/repository.go:36-90 | whatever the duplication and order of deliveries, the records are exactly those of the valid events, once each |
| Analytics.DeliveryOrderDoesNotMatter | services/order-service/internal/analytics/repository.go:36-90 | two delivery sequences of the same events leave identical tables |
| Pipeline.HandlingSucceeds | services/order-service/internal/analytics/consumer.go:146-164 | on this topic handling a message never fails and never dead-letters |
| Pipeline.ActionKeeps | services/order-service/internal/analytics/consumer.go:82-97 | submission, outbox workers, consumers, crashes and rebalances keep: every position below a committed offset is handled |
| Pipeline.EffectivelyOnce | services/order-service/internal/analytics/repository.go:36-90 | in any run, with the review rows published and the consumers caught up, count and rating sum per product are those of the submitted reviews, the latest time is the latest of their millisecond times, and each record repeats its review field by field |
| Pipeline.SubmissionsStand | services/order-service/internal/order/repository.go:258-313 | a submitted review stays submitted as it was, in every continuation |
| Pipeline.ConsumersNeverStop | services/order-service/internal/analytics/consumer.go:186-204 | nothing submitted is ever dead-lettered, and no message stops a consumer |
| Consumer.World.HandleNext | services/order-service/internal/analytics/consumer.go:146-164 | an offset is committed exactly when its message could be handled and both calls were answered; whatever fails, the trace holds no commit without its effect |
| Consumer.Consume | services/order-service/internal/analytics/consumer.go:82-97 | the fetch loop handles every position it passes and stops at the first failure; on a consistent log only a failing call stops it |
| Consumer.StopsOnForeignReview | services/order-service/internal/analytics/consumer.go:82-97 | with every call answered, the second of two reviews under one number stops the consumer, and stops it again when it starts over; its offset stays uncommitted |
| Money.PatternIsShape | services/order-service/internal/order/service.go:252-263 | the pattern accepts exactly one to ten digits, a point and two digits |
| Money.ParsesWhatThePatternAccepts | services/order-service/internal/order/service.go:239-251 | parsing never rejects what the pattern accepts: its trim and range checks cannot fail |
| Money.FormatsWholeCents | services/order-service/internal/order/service.go:267-282 | formatting accepts exactly the rationals that are 0 to 999999999999 whole cents |
| Money.ParseUndoesFormat | services/order-service/internal/order/service.go:239-282 | formatting then parsing is the identity on every representable amount |
| Money.FormatUndoesParse | services/order-service/internal/order/service.go:239-282 | parsing then formatting is the identity up to leading zeros |
| Pricing.BestPromotion | services/order-service/internal/order/service.go:194-221 | fails exactly when some candidate cannot be read; otherwise a largest eligible discount, the smallest id among equals |
| Pricing.PriceLine | services/order-service/internal/order/service.go:188-238 | succeeds exactly when the line fits under its best promotion; then amount plus discount is unit price times quantity, to the cent |
| Pricing.CandidateOrderDoesNotMatter | services/order-service/internal/order/service.go:194-221 | permuting the candidates changes neither amounts nor the applied id |
| Pricing.PriceableIgnoresOrder | services/order-service/internal/order/service.go:194-221 | permuting the candidates does not change whether the line can be priced |
| Pricing.PricedLineReadsBack | services/order-service/internal/order/repository.go:416-422 | every stored amount of a priced line reads back as the cents it was computed from |
| Cart.LinesAreTheSelection | services/order-service/internal/order/service.go:125-130 | an order takes precisely the selected lines with a quantity, each as often as the cart has it, in cart-id order |
| Cart.PriceCart | services/order-service/internal/order/service.go:138-159 | succeeds exactly when every line can be sold and the total is in range; the total is the sum of the line amounts |
| Cart.TotalIsTheSum | services/order-service/internal/order/service.go:144-156 | the total equals the sum of the stored item amounts |
| Checkout.PlaceOrder | services/order-service/internal/order/service.go:106-163 | a successful reply names the one order of its request; an order this call created bills exactly the cart and products it read. Undisturbed and answered: a request with a readable order is answered by its row, and otherwise the order is placed, and the table grown by it alone, exactly when address, cart and products were had, the lines can be ordered, every candidate is named and the number is free; each other case has its own error and changes nothing |
| Checkout.CreateOrder | services/order-service/internal/order/repository.go:170-256 | inserts or finds under interference; a successful call created the order exactly when its keys were free at the insert, a repeated call finds it and changes nothing; undisturbed it creates whenever request and number are free and the order can be stored |
| Checkout.OneOrderPerRequest | services/order-service/internal/order/repository.go:170-256 | two successful replies to one request, however far apart, name the same order with the same stored contents |
| Checkout.RepliesAgreeIff | services/order-service/internal/order/repository.go:170-256 | when two whole replies are equal: the first call found the order or its address has no id, and status and paid amount did not move in between |
| Checkout.PlaceTwice | services/order-service/internal/order/service.go:106-163 | two calls of one request with anything in between, run one after the other: their replies are equal exactly when a key was taken at the first insert or its address has no id, and the row has not moved |
| Checkout.RetryNamesNoAddress | services/order-service/internal/order/repository.go:353-374 | a first call answers with the address id, its undisturbed retry without, for every storable order whose address has one |
| Checkout.NamedRetryDiffers | services/order-service/internal/order/repository.go:353-374 | one such order: the first reply carries address id 7, the retry carries 0 |
| Checkout.RetryShowsPayment | services/order-service/internal/order/repository.go:353-374 | a payment between two calls shows in the second reply's status and paid amount, with or without an address id |
| Checkout.BilledTotalIsExact | services/order-service/internal/order/service.go:140-159 | TotalAmount is the exact sum of the item amounts and at most 9999999999.99 |
| Checkout.BilledIsStorable | services/order-service/internal/order/repository.go:423-434 | the repository's checks on an assembled order fail exactly on a candidate without id or rule type |
| Checkout.NamedLines | services/order-service/internal/order/repository.go:423-434 | an assembled order can be stored exactly when every candidate promotion of the lines' products has an id and a rule type |
| CacheInvalidation.TakeoverIsLater | services/product-service/internal/catalog/cache_invalidation.go:72-75 | taking over an expired lease writes a strictly later locked_at, whatever the clocks say |
| CacheFence.DispossessedChangesNothing | services/product-service/internal/catalog/cache_invalidation.go:132-186 | as long as no failure is rescheduled to before its own claim, a worker whose claim was taken over can change nothing, then or in any continuation |
| CacheFence.FencedIffInOrder | services/product-service/internal/catalog/cache_invalidation.go:290-303 | a failure keeps lost claims out, in every continuation whose failures are in order, exactly when it exhausts the budget or its truncated retry time is not before the claim's locked_at |
| CacheFence.SteppedBackClockUnfences | services/product-service/internal/catalog/cache_invalidation.go:153-186 | a run the code takes: after a clock steps back, a dispossessed claim owns its task again and one of two recorded failures is forgotten |
| CacheFence.SteadyClockIsInOrder | services/product-service/internal/catalog/cache_invalidation.go:282-303 | a worker whose own clock is not behind its claim always reschedules in order |
| CacheInvalidation.BudgetIsKept | services/product-service/internal/catalog/cache_invalidation.go:290-303 | in every run, whatever the clocks: DEAD exactly with the whole retry budget used, live tasks below it, DONE only after an acknowledged delete |
| CacheFence.RetriesCountFailures | services/product-service/internal/catalog/cache_invalidation.go:290-303 | in every run whose failures are in order, stored retries count recorded failures and DEAD means exactly maxRetries of them |
| CacheFence.OneOwner | services/product-service/internal/catalog/cache_invalidation.go:113-123 | behind the fence at most one open claim owns a task |
| CacheInvalidation.ActionKeeps | services/product-service/internal/catalog/cache_invalidation.go:72-186 | every claim and outcome keeps budget and bookkeeping and undoes nothing finished, whatever the clocks show |
| CacheFence.StepKeepsFence | services/product-service/internal/catalog/cache_invalidation.go:72-186 | every step but an out-of-order failure keeps the fence: open claims are the owner's or earlier than any claim to come |
| CacheWorker.TaskStore.ClaimDue | services/product-service/internal/catalog/cache_invalidation.go:72-129 | claims the first due unlocked tasks by execution time and id, all under one timestamp, and owns each of them |
| CacheWorker.Process | services/product-service/internal/catalog/cache_invalidation.go:278-304 | one task: DONE after an acknowledged delete, else PENDING or DEAD by the budget; recording succeeds whenever the lease is still owned |
| CacheWorker.RunOnce | services/product-service/internal/catalog/cache_invalidation.go:269-307 | claims the first overdue unlocked tasks, by execution time and id, and records every outcome in at most 1 + 2 per task calls, whatever its clock shows; certain when undisturbed; the fence stands while failures are in order |
| Normalize.NormalizedIsNormal | services/knowledge-service/internal/knowledge/chunker.go:46-57 | normalized text has no NUL or CR, no line with a blank at an end, no two blank lines in a row, and is trimmed |
| Normalize.NormalizeIsIdempotent | services/knowledge-service/internal/knowledge/chunker.go:46-57 | normalizing twice is normalizing once |
| Normalize.NormalizeKeepsVisible | services/knowledge-service/internal/knowledge/chunker.go:46-57 | normalizing loses nothing visible but NUL bytes |
| Chunker.HardSplit | services/knowledge-service/internal/knowledge/chunker.go:162-172 | the loop yields the pieces of the recursive cut and terminates |
| Chunker.PiecesFit | services/knowledge-service/internal/knowledge/chunker.go:162-172 | pieces are within the limit and show exactly the value |
| Chunker.PiecesAreFull | services/knowledge-service/internal/knowledge/chunker.go:162-172 | all pieces but the last have exactly the limit's length |
| Chunker.ChunkSection | services/knowledge-service/internal/knowledge/chunker.go:124-160 | the loop fills chunks as the recursive packing does |
| Chunker.PackShows | services/knowledge-service/internal/knowledge/chunker.go:124-160 | packing shows exactly the paragraphs, in order |
| Chunker.PackIsTight | services/knowledge-service/internal/knowledge/chunker.go:124-160 | without oversized paragraphs no chunk could have taken in the next within the target |
| Chunker.SplitSections | services/knowledge-service/internal/knowledge/chunker.go:79-106 | the loop groups lines under headings as the recursive definition does |
| Chunker.SectionsShow | services/knowledge-service/internal/knowledge/chunker.go:79-106 | sections hold, in order, everything visible outside heading lines |
| Chunker.SectionsAreTitled | services/knowledge-service/internal/knowledge/chunker.go:79-106 | each visible character is in the section of the last heading before it, or under the title |
| Chunker.Chunks | services/knowledge-service/internal/knowledge/chunker.go:17-44 | numbered, trimmed chunks within the limit whose visible text is exactly that of the non-heading lines, each character under the last heading before it or the document's title; fails exactly when there is none |
| Chunker.Limits | services/knowledge-service/internal/knowledge/chunker.go:59-72 | 0 < target <= max, and configured values are kept where they make sense |
| EventStream.WriteEvents | apps/gateway/internal/handler/agent_handler.go:253-265 | the writer produces exactly the printed form of each event, in order |
| EventStream.ParseChunk | apps/web/src/api/client.ts:414-433 | the line loop reads a chunk's type and data |
| EventStream.ParseUndoesPrint | apps/web/src/api/client.ts:414-433 | a printed event parses back to its type and data |
| EventStream.Subscribe | apps/web/src/api/client.ts:311-339 | the read loop emits the events of all completed chunks of the whole stream, for every sequence of reads |
| EventStream.Incremental | apps/web/src/api/client.ts:329-331 | splitting what was left over with more input is splitting everything at once |
| EventStream.AnyCutDeliversAll | apps/web/src/api/client.ts:311-339 | however the stream is cut into reads, the client emits exactly the printed events in order |
| EventStream.BrokenStreamDeliversPrefix | apps/web/src/api/client.ts:311-339 | a stream broken off anywhere has delivered the completely printed events and no part of another |
| AgentView.UpsertAllIffDistinct | apps/web/src/domain/agent.ts:60-70 | adding items one by one gives the sorted list exactly when no identity repeats |
| AgentView.StreamAgreesWithReplay | apps/web/src/domain/agent.ts:21-58 | folding the gateway's events equals the replay up to the error code exactly when no step number and no SKU repeats; the error codes agree exactly for failed and timed-out runs |
| AgentView.SucceededRunDiffers | apps/web/src/domain/agent.ts:46-58 | for a succeeded run the replay shows an error code the stream does not |
| AgentView.StreamedTimelineIsReplayed | apps/gateway/internal/handler/agent_handler.go:125-165 | printed, cut into reads, parsed and folded, a timeline without repeats ends in its replay |
| AgentRun.ParseFinal | services/agent-service/internal/agent/final_output.go:18-46 | accepts exactly one to ten well-formed candidates with no rank and no SKU twice |
| AgentRun.Verify | services/agent-service/internal/agent/recommendation_verifier.go:26-65 | the purchasable candidates in order, no SKU or rank twice; when it fails is stated exactly, and with which code: the first failed look-up's, or that nothing can be bought |
| AgentRun.Complete | services/agent-service/internal/agent/service.go:193-229 | the run succeeds exactly for a well-formed list of which something can be bought with every look-up answered, and then stores exactly the purchasable candidates in order; otherwise the code says what was wrong |
| AgentRun.StartRun | services/agent-service/internal/agent/service.go:122-191 | at most maxSteps steps, numbered without gaps, tools only after a model turn; the run row agrees with the answer whenever it could be written; where no call fails, the first final output within the bound decides the run, and without one it ends in MAX_STEPS_EXCEEDED |
| AgentRun.RunsAgreeInTheView | services/agent-service/internal/agent/service.go:122-191 | every timeline the loop can leave is one on which stream and replay agree |

## Left out

- Identifiers drawn from uuid are assumed new; `used` collects every one drawn.
- Order numbers double as row ids in the payment tables, so a batch lease orders rows by them.
- MySQL, Kafka, gRPC and HTTP: a transaction is one atomic step, SKIP LOCKED an arbitrary set of locked rows, a call one of three fates.
- Column collation, DECIMAL and JSON normalization of stored text: keys and documents compare as they are.
- The saga keeps the lease end a recovery worker asks for; `RecoveryPass.HolderKeepsBatch` covers every end the DATETIME(3) column may make of it.
- RecoveryPass.HolderKeepsBatch: assumes calls that end by their timeouts, and says nothing about workers whose clocks run ahead of the batch's end.
- LeaseBudget.RecoveryBatchEndsInLease: assumes calls that end by their timeouts.
- SagaTheorems.HolderKeepsLease: compares lease ends with the clock values other workers use, so it says nothing about workers whose clocks run ahead.
- LeaseBudget.BatchEndsBeforeTakeover: assumes one clock for both workers and calls that end by their timeouts.
- Wallet top-ups, order closing and the unused ConfirmReservation call: they have no caller in the payment flow.
- Reservation items are kept in request order; the service sorts them by SKU before comparing and deducting.
- Cache-deletion tasks written by the reservation transactions are not part of the saga.
- Product-service reports a conflicting replay with the same gRPC status as missing stock; `PayWallet` treats both as the client does.
- Analytics.HandleKeeps: counts are unbounded naturals; the uint64 wrap-around and the formatted average are not modelled.
- Pipeline.EffectivelyOnce: Kafka is one ordered log with one committed offset; partitions of a topic are handled alike.
- Review submission's own checks appear as the validity of the event it writes; product ids of order items are assumed non-zero.
- Consumer.Consume: handles a given number of messages where the source loops until a call fails.
- The behaviour-event consumer and its outbox: the same transaction shape without running sums, and an outbox without ownership.
- CacheFence.RetriesCountFailures: holds of runs whose recorded failures are in order; all workers share one retry configuration.
- CacheFence.DispossessedChangesNothing: holds of runs whose recorded failures are in order.
- CacheFence.OneOwner: holds behind the fence, which out-of-order failures can break.
- Outbox.LeasableAgain: says when a row is due; a row the worker cannot use, due in the same batch, can still undo the lease.
- Expiry.RunOnce: `now` is the worker's clock truncated to milliseconds; calls are taken to end, in time or not.
- Call timeouts of the cache-invalidation worker: its startup check covers one call per task while a pass makes two; nothing proved here rests on it.
- Money.FormatsWholeCents: rationals are Dafny reals.
- Strings are sequences of byte-like characters with ASCII white space; UTF-8 cuts in the chunker, Unicode trimming and rune counts are not modelled.
- JSON codecs, hashing, price and address services, cart storage: parameters, or replies with arbitrary content.
- EventStream.AnyCutDeliversAll: the JSON codec is a parameter; event types and documents are assumed to be single, trimmed, non-empty lines, as the gateway writes them.
- Chunk hashes and source pages; file names enter as their base name.
- Knowledge document statuses and the current-ready switch: one guarded update each, and the newest version is not what the code selects.
- AgentRun.StartRun: latencies, error messages and stored JSON are left out; a failing store call is reported as TOOL_FAILED or, past the deadline, DEPENDENCY_TIMEOUT.
- Authentication, gateway routing, pages, configuration loading, and validators that test a single condition: not part of this model.
