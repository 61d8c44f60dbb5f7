# Payment gateway: a verified model

This project models the money core of the payment gateway in Dafny and proves what it promises.
All files are verified together: `dafny verify dfyconfig.toml`.

## What is modelled

**The protocol** (`Domain`, `Keys`, `Ledger`, `LedgerInvariant`, `Protocol`, `ProtocolInvariant`, `Guarantees`,
`Overflow`, `Requests`, `Answers`, `Explanations`, `Races`, `Progress`, `Limits`, `Effects`, `Histories`). Any number of payments, refunds and top-ups run at the same time. Each is a process that
takes one step per call of the service: cache get, log get, the unlocked eligibility reads of a refund, begin,
row lock, balance update, ledger insert, status flip, log insert, commit, cache set. The database is the committed
tables plus the uncommitted writes of each session, a map of row locks and a map of claimed log keys; plain reads
see committed rows only. At every step a call may fail and roll back, a process may crash, a cache entry may
vanish, the cache may not answer, and a commit may take effect while its acknowledgement is lost. `Ledger.Execute`
is the sequential specification: one request, alone, from start to end. `LedgerInvariant` says what every sequential
history keeps true; `ProtocolInvariant` is the inductive invariant of the step machine; `Guarantees` states the
consequences over every run, `Overflow` when the balance arithmetic is exact, `Requests` what one request leaves
behind, `Answers` and `Explanations` how each answer relates to the sequential specification, `Races` runs that show the limits
of this, `Progress` that nothing gets stuck. `Effects` spells out, field by field and without the functions of the specification,
when a request commits and what it then does; `Histories` carries this to every row and answer of every run.

The pivotal point is `ProtocolInvariant.OriginalStillSuccess`. A refund checks its original before its transaction
begins, so the check may be stale. At the commit it is nevertheless true again: a refund that reversed the same
payment in between would have logged the very key that this one has claimed.

**The service object** (`PaymentService`). The same three operations as methods of a class whose wallets hold hex
text of nonce-framed ciphertext. Each method takes a set of calls that fail and is proved to refine
`Ledger.Execute` on the decrypted tables.

**Reporting** (`Sums`, `Reporting`, `Figures`, `Cycles`, `Listing`, `Paging`). Statistics as sums over the ledger, reconciled with the
stored balance; the query builder, its placeholders and its pages.

**Three smaller state machines** (`RateLimit`, `Nonce`, `Webhook`) and **codecs** (`Decimal`, `Encryption`,
`PasswordHash`).

Queries that may return one of several rows, new ids, clock readings, nonces and ciphertexts are parameters
(`Ledger.Choice` and the fields of the actions), so every statement holds for all of them.

## Findings

- A refund row is named `REFUND-` plus the original reference in a `VARCHAR(100)` column, while the validators admit
  references of 100 characters: a payment whose reference is longer than 93 characters can be made but never refunded
  (`Limits.LongRefCannotBeRefunded`; exact condition: `Limits.RefundNeedsShortRef`; over runs: `Limits.LongRefNeverReversed`).
- `GetByReference` does not look at the type of the row. After a refund a merchant with a balance can name a payment like
  the refund row, if that name is unused; a refund of that payment may then be turned away (`Limits.NameClash`), and the exact condition is
  `Limits.RefundFindsItsPayment`.
- The top-up addition has no range check: ten top-ups that each fit the amount column overflow the balance
  (`Limits.TopUpsCanWrap`). Exactly when a commit is exact: it is a payment, or balance plus amount is in range
  (`Overflow.ExactCommit`); and a balance has never been negative exactly if all its additions were in range
  (`Overflow.FitsIffGood`). A bound on the wallet's total top-ups is sufficient (`Guarantees.NoWrap`).
- State is serializable, but refusals are not linearizable: of two concurrent payments of one key the loser can be told
  that funds are short, although the payment was made and at no moment of its life it would be told so alone
  (`Races.LoserIsTurnedAway`). Which refusals some moment explains is exact (`Explanations.RefusalExplained`): "duplicate"
  and the loser at the log insert never; a missing wallet or original, a bad amount and a refund that does not fit its
  column always; short funds, "not refundable" and an oversized payment iff that ground held at some moment between
  arrival and refusal while the key was not logged. Being overtaken by a commit of the same key is necessary for an
  unexplained refusal (`Answers.RefusalIsDecided`), and not sufficient (`Races.OvertakenYetExplained`). A retry is
  answered with the transaction.
- A retry is never compared with the first request: a payment retried with another amount is answered with the old one
  (`Limits.RetryIgnoresAmount`; over runs, exactly when: `Guarantees.AnswerAmount`).
- The statistics are scanned into int64: ten cycles of paying and refunding one large top-up make them unreadable while
  top-ups and balance stay small (`Cycles.StatsCanFail`; exact condition: `Reporting.StatsAnswered`).
- The list offset has no range check either and can wrap to a valid page (`Paging.OffsetWraps`; exact condition:
  `Paging.OffsetExact`).
- A request accepted with a timestamp 60 seconds ahead of the clock can be replayed once its nonce has expired
  (`Nonce.ReplayAtTheEdge`); everywhere else replay is excluded (`Nonce.NoReplay`).
- The key builders alone do not separate payments from refunds: a payment named `refund:X` has the key of the refund of
  `X`. The `safe_id` pattern is what excludes it (`Keys.KeyCollision`).
- Code and documentation disagree in places, and the model follows the code: six webhook attempts, where
  the webhook page under docs/api promises at most five; a fixed rate-limit window, where docs/logic/SECURITY_FLOW.md:46-55
  has a sliding one for most groups; and docs/logic/REPORTING.md:51 describes a `net_balance` that the code does not compute.

## Model

| member | source | states |
|---|---|---|
| `Guarantees.Serializability` | internal/service/payment_service.go:53-428 | in every state of every run the committed tables are those of executing the committed requests one at a time, in commit order |
| `ProtocolInvariant.RunInv` | internal/service/payment_service.go:53-428 | every state of every run satisfies the inductive invariant over tables, sessions, locks, claimed keys, ids and cache |
| `ProtocolInvariant.StepKeeps` | internal/service/payment_service.go:53-428 | each single step, faults included, keeps that invariant |
| `ProtocolInvariant.OriginalStillSuccess` | internal/service/payment_service.go:206-237 | a refund whose key is not logged has an original that is still SUCCESS and unrefunded, however old its check is |
| `ProtocolInvariant.CommitIsAtomic` | internal/service/payment_service.go:296-330 | the writes collected step by step are, at the commit, what the request would have done alone at this instant |
| `ProtocolInvariant.OthersKeep` | internal/adapter/storage/postgres/wallet_repo.go:79-129 | a commit leaves the invariant of every other running request intact |
| `LedgerInvariant.ReplayInv` | internal/service/payment_service.go:53-428 | every sequential history ends in tables whose rows, log, reversals, wallets and money are consistent |
| `LedgerInvariant.PostMoney` | internal/service/payment_service.go:105-110 | one committed request keeps balance, top-up bound, refund remainder and reversal count of every wallet |
| `Effects.CommitEffect` | internal/service/payment_service.go:122-163 | what a commit does, field by field: the row says what was asked (a refund pays the amount given, else its original's), only its wallet moves, by that amount in int64, only a refund changes another row, its original, to REVERSED, and the log gains the one entry under the literal key |
| `Effects.RegistrationEffect` | internal/service/auth_service.go:97-115 | a registration adds one VND wallet at balance zero, to a merchant without one, and touches nothing else |
| `Effects.CommitsExactly` | internal/service/payment_service.go:53-428 | on consistent tables a request commits iff: positive amount below 10^18, free key, matching wallet and cover (payment); wallet and amount (top-up, at every int64 clock reading); free key, SUCCESS original, at most 93 characters, amount within (refund) |
| `Effects.TopUpCommits` | internal/service/payment_service.go:347-428 | a top-up commits iff its amount is positive and below 10^18 and its wallet matches, at every int64 clock reading |
| `Effects.RefundExistsExactly` | internal/adapter/storage/postgres/transaction_repo.go:79-88 | a refund of a payment exists iff the payment is REVERSED |
| `Effects.ResponseShows` | internal/core/domain/transaction.go:29-44 | the JSON form shows every field but ciphertext and signature, and is rebuilt with just these two empty |
| `Histories.CommitDoes` | internal/service/payment_service.go:122-168 | every commit of every run has exactly that effect on the committed tables |
| `Histories.RowOfRequest` | internal/service/payment_service.go:123-147 | every row in every state of every run says, but for a reversal, what a request that has committed asked |
| `Guarantees.RefundCommit` | internal/service/payment_service.go:206-330 | a refund that commits finds its original SUCCESS and without refund rows, and leaves it REVERSED and pointed to by its own row |
| `Guarantees.AtMostOneRefund` | internal/service/payment_service.go:206-330 | in every reachable state a payment is REVERSED iff a refund row points to it, that row is unique, of the same merchant and wallet, and for more than 0 and at most the original amount |
| `Guarantees.AtMostOneCharge` | internal/service/payment_service.go:58-76 | a (merchant, reference) never has two PAYMENT rows |
| `Guarantees.AtMostOneDebit` | internal/service/payment_service.go:149-168 | two payments of one (merchant, reference) never both commit |
| `Guarantees.SuccessMeansOneRow` | internal/service/payment_service.go:149-181 | a successful payment or refund answer is the one row of its key, with the merchant and reference asked for |
| `Guarantees.SuccessMeansOneDebit` | internal/service/payment_service.go:149-181 | a successful payment answer means exactly one committed debit for the merchant and reference, with the answer's id and amount |
| `Guarantees.AnswerAmount` | internal/service/payment_service.go:65-75 | the amount in a successful answer is the one asked for iff the request that committed the key asked for it |
| `Histories.SuccessMeansOneRefund` | internal/service/payment_service.go:227-237 | a successful refund answer means exactly one committed refund; it shows the amount that one asked for, so the amount asked here iff both asked for the same |
| `Guarantees.TopUpSuccess` | internal/service/payment_service.go:390-427 | a successful top-up answer is a committed TOPUP row of the merchant and amount asked for |
| `Guarantees.RowHasOrigin` | internal/service/payment_service.go:123-147 | every ledger row was inserted by a committed request and is as inserted but for a reversal |
| `Guarantees.Conservation` | internal/service/payment_service.go:139-168 | the stored balance is always the int64 value of top-ups minus payments plus refunds |
| `Guarantees.BalanceBound` | internal/service/payment_service.go:105-110 | while top-ups fit in int64 the balance is exactly that net, and 0 <= balance <= top-ups |
| `Guarantees.NoWrap` | internal/service/payment_service.go:379 | while the top-ups of a wallet fit in int64 no committed addition or subtraction on it wraps |
| `Overflow.ExactCommit` | internal/service/payment_service.go:379 | for every commit of every run: the balance moves by exactly the amount iff the request is a payment or balance + amount <= 2^63-1 |
| `Overflow.FitsIffGood` | internal/service/payment_service.go:105-110 | for every run, wallet and moment: all committed additions were in range iff the balance was never negative iff it was always the mathematical net |
| `Guarantees.CacheIsLog` | internal/service/payment_service.go:170-173 | an entry that was ever in the cache is from then on the logged response of its key |
| `Guarantees.CacheRefinesLog` | internal/service/payment_service.go:60-76 | a cache hit leaves a request exactly where the log lookup alone would have |
| `Guarantees.SuccessesAgree` | internal/service/payment_service.go:431-437 | all successes of one key, at any two moments of a run, show the same transaction |
| `Guarantees.LogGrows` | internal/adapter/storage/postgres/idempotency_repo.go:24-33 | a logged entry is never changed or removed |
| `Guarantees.Atomicity` | internal/service/payment_service.go:83 | a stretch of a run without commit or registration changes no table, however far requests got, failed or crashed |
| `Requests.RequestAtomicity` | internal/service/payment_service.go:83 | among any commits of others: a request that has committed has its row, as built up to a reversal; one that has drawn its row id and not committed, be it running, failed or crashed, has left no row, log entry or event |
| `Requests.EventHasOwner` | internal/service/payment_service.go:165-168 | every committed event is of a request that has committed, with its request and choices; so none is of one that was refused, failed or crashed before |
| `Answers.RefusalIsDecided` | internal/service/payment_service.go:205-237 | every refusal in every run is what the request would be told alone at this instant iff no request of its key has committed; else it would be answered with that transaction |
| `Answers.DuplicateMeansLogged` | internal/service/payment_service.go:219-225 | "duplicate" is only said when the refund is logged |
| `Answers.LookupIsDecided` | internal/service/payment_service.go:60-76 | a success by lookup is the replay the request would get alone at this instant |
| `Answers.CommitIsDecided` | internal/service/payment_service.go:165-181 | a commit is the sequential outcome, tables and transaction, at its instant |
| `Explanations.RefusalExplained` | internal/service/payment_service.go:53-428 | for every refusal of every run: some moment between arrival and refusal at which the request would be told the same alone exists iff the refusal can be accounted for, error by error |
| `Explanations.GroundIsExact` | internal/service/payment_service.go:205-237 | on consistent tables a request can be refused alone with an error iff the ground of that error, stated without executing it, holds |
| `Explanations.RowRefusedForSize` | internal/service/payment_service.go:411-414 | in every run the row of a payment or top-up is refused only for an amount of 10^18 or more, that of a refund only for more than 93 characters |
| `Races.LoserIsTurnedAway` | internal/service/payment_service.go:105-107 | for every payment a run in which a request for it is told that funds are short, although it is made and at no moment since before its arrival the request would be told so alone |
| `Races.OvertakenYetExplained` | internal/service/payment_service.go:105-107 | for every payment a run in which an overtaken request is told that funds are short and would have been told so alone after its arrival |
| `Guarantees.LogBijection` | internal/service/payment_service.go:296-330 | log rows and PAYMENT and REFUND rows are in bijection, with key, merchant and id matching |
| `Guarantees.NoWriteConflict` | internal/adapter/storage/postgres/wallet_repo.go:79-129 | sessions inside a transaction at the same time write different wallets, insert different rows and reverse different payments |
| `Progress.WaitsAcyclic` | internal/service/payment_service.go:85-168 | in every reachable state no chain of waits for row locks and log keys leads back to its start |
| `Progress.DeadlockFree` | internal/service/payment_service.go:246-330 | in every reachable state with a request in flight some request in flight can take a step in which nothing goes wrong: no failed call, crash, lost acknowledgement or cache fault |
| `Progress.Termination` | internal/service/payment_service.go:53-428 | over a whole run a request takes at most 13 steps of its own, 14 with a crash |
| `Progress.OneCommitEach` | internal/service/payment_service.go:347-428 | one request, top-ups included, commits at most once |
| `Limits.RefundNeedsShortRef` | db/migrations/001_init_schema.up.sql:32-47 | an eligible refund, full or partial, goes through iff its reference has at most 93 characters, and is an internal error otherwise |
| `Limits.LongRefCannotBeRefunded` | db/migrations/001_init_schema.up.sql:34 | for every safe_id of 94 to 100 characters a history that pays under it, after which its eligible refund is an internal error |
| `Limits.LongRefNeverReversed` | internal/service/payment_service.go:278 | over every run a payment with a longer reference stays SUCCESS |
| `Limits.RefundFindsItsPayment` | internal/adapter/storage/postgres/transaction_repo.go:55-61 | a refund of an unreversed payment is never rejected as not refundable iff no other row of the merchant has the reference |
| `Limits.NameClash` | internal/adapter/storage/postgres/transaction_repo.go:55-61 | after any refund, with a balance of at least 1 and the name unused, a payment can be made for which such a rejection happens |
| `Limits.TopUpsCanWrap` | internal/service/payment_service.go:379 | the history of one registration and ten storable top-ups leaves a negative balance |
| `Limits.RetryIgnoresAmount` | internal/service/payment_service.go:74-76 | after a payment of 1 a request of any amount under the reference is answered with that payment |
| `PaymentService.Service.ProcessPayment` | internal/service/payment_service.go:53-182 | refines the sequential payment: its exact outcome when no call fails but cache calls and the acknowledgement, else possibly no effect; an error after the effect only if the acknowledgement is lost |
| `PaymentService.Service.ProcessRefund` | internal/service/payment_service.go:185-344 | refines the sequential refund: its exact outcome when no call fails but cache calls and the acknowledgement, else possibly no effect; an error after the effect only if the acknowledgement is lost |
| `PaymentService.Service.ProcessTopup` | internal/service/payment_service.go:347-428 | refines the sequential top-up in the same sense |
| `PaymentService.Service.Lookup` | internal/service/payment_service.go:60-76 | two-layer lookup: a hit is the logged response, a clean miss means the key is not logged, and it fails only if the log read fails |
| `PaymentService.Service.Recompute` | internal/service/payment_service.go:94-114 | the row to write decrypts to the new balance; unless a call fails it is refused exactly for insufficient funds |
| `PaymentService.Service.Write` | internal/service/payment_service.go:139-163 | the statements of the transaction, in order, give the posted tables, or report failure |
| `PaymentService.Service.Register` | internal/service/auth_service.go:97-115 | a new merchant gets one VND wallet that decrypts to 0 |
| `PaymentService.Service.GetWalletBalance` | internal/service/reporting_service.go:73-94 | reporting reads exactly the balance the payment service works with |
| `PaymentService.WrittenIsPosted` | internal/service/payment_service.go:139-168 | the encrypted tables after the writes, decrypted, are the sequential posting |
| `PaymentService.RetryIsSafe` | internal/service/payment_service.go:58-76 | retrying after an effect changes nothing, whatever fails; an answer shows the same transaction, and there is one if only harmless calls fail |
| `PaymentService.RefinesKeepsLedger` | internal/service/payment_service.go:53-428 | however an operation ended, the tables stay consistent |
| `PaymentService.NotFoundMeansNone` | internal/service/payment_service.go:211-213 | unless a call fails, "not found" means no row or wallet matches, and a refund always finds its wallet |
| `Reporting.Reconciliation` | internal/adapter/storage/postgres/transaction_repo.go:165-197 | balance = top-ups - revenue - what partial refunds kept, equal to top-ups - revenue iff every refund was full; REVERSED counts refunds; counts add up in every period |
| `Reporting.StatsAnswered` | internal/adapter/storage/postgres/transaction_repo.go:188-195 | while top-ups fit in int64 the revenue fits, and all figures scan into int64 iff the refunded total and the row count do |
| `Cycles.StatsCanFail` | internal/adapter/storage/postgres/transaction_repo.go:188-195 | a history of one top-up and ten pay-and-refund cycles after which the refunded total does not scan |
| `Reporting.StatsOfWallet` | internal/service/reporting_service.go:36-61 | the all-time figures of a merchant are the sums of its wallet's rows |
| `Reporting.CountsAddUp` | internal/adapter/storage/postgres/transaction_repo.go:178-186 | in every period total = successful + failed + reversed, and none fails |
| `Figures.CommitFigures` | internal/adapter/storage/postgres/transaction_repo.go:165-197 | every commit of every run changes the figures of every merchant and period by exactly its count and amount, iff it is of the merchant and made in the period; a refund turns its original, if created in the period, from revenue into a reversal |
| `Figures.FiguresStay` | internal/adapter/storage/postgres/transaction_repo.go:165-197 | a step that commits nothing leaves all figures as they are |
| `Figures.PeriodIsRestriction` | internal/adapter/storage/postgres/transaction_repo.go:173-176 | the figures from a second on are the all-time figures of the rows with createdAt at or after it |
| `Listing.BuildClauses` | internal/adapter/storage/postgres/transaction_repo.go:92-121 | argIdx = len(args)+1, and the joined WHERE text with its arguments, whatever arguments follow, selects exactly the rows asked for |
| `Listing.JoinedReadsOnce` | internal/adapter/storage/postgres/transaction_repo.go:121 | conditions joined by AND are told apart again |
| `Listing.ConditionReadsOnce` | internal/adapter/storage/postgres/transaction_repo.go:96-118 | a condition text names one column and one placeholder number only |
| `Listing.BindsItsArgument` | internal/adapter/storage/postgres/transaction_repo.go:96-118 | a condition numbered i compares exactly argument i |
| `Listing.ConditionText` | internal/adapter/storage/postgres/transaction_repo.go:96-118 | the text written for a filter reads as the comparison of the named column, operator and placeholder |
| `Paging.List` | internal/adapter/storage/postgres/transaction_repo.go:91-162 | the rows are the LIMIT/OFFSET window of the table filtered at the second query, the total counts it at the first, a negative offset is an error |
| `Paging.ListTransactions` | internal/adapter/http/handler/dashboard_handler.go:62-116 | the response for every query string, and that it is the asked page while the offset fits in 64 bits |
| `Paging.PageRead` | internal/adapter/http/handler/dashboard_handler.go:62-69 | printed page and size are read back within their ranges; all else, numbers out of range and text that is no number, is page 1 and size 20 |
| `Paging.FiltersRead` | internal/adapter/http/handler/dashboard_handler.go:77-94 | the query texts select exactly the rows of the named status and type and between the printed bounds; empty text is no filter |
| `Paging.BadBoundsIgnored` | internal/adapter/http/handler/dashboard_handler.go:85-94 | a bound that is no int64 is as good as none |
| `Paging.PagesPartition` | internal/adapter/http/handler/dashboard_handler.go:107 | pages 1..TotalPages concatenate to the rows and every later page is empty |
| `Paging.PagesListTheLedger` | internal/adapter/storage/postgres/transaction_repo.go:131-136 | over all pages every wanted ledger row appears, none twice, newest first, and nothing else |
| `Paging.FloatPages` | internal/adapter/http/handler/dashboard_handler.go:107 | below 2^53 rows the rounded float64 quotient gives the exact page count |
| `Paging.OffsetExact` | internal/adapter/storage/postgres/transaction_repo.go:132 | the computed offset is the intended one iff the product fits in 64 bits |
| `Paging.OffsetWraps` | internal/adapter/storage/postgres/transaction_repo.go:132 | a page number for which the offset wraps to the first page |
| `RateLimit.RateLimitStore.Allow` | internal/adapter/storage/redis/ratelimit_store.go:36-64 | counter, expiry, verdict, remaining and reset time of one call, on the literal key and the stored counters |
| `RateLimit.Limit` | internal/adapter/http/middleware/ratelimit.go:35-65 | passes on an unreachable store, else follows the counter; Retry-After is at least 1 and at most a window |
| `RateLimit.FirstLimitAllowed` | internal/adapter/storage/redis/ratelimit_store.go:36-64 | over every trace a call is allowed iff fewer than `limit` calls of its (identifier, group, window) came before |
| `RateLimit.CountersExact` | internal/adapter/storage/redis/ratelimit_store.go:47-50 | expiry never resets a live window: each counter is the number of calls it saw |
| `RateLimit.SpanBound` | internal/adapter/storage/redis/ratelimit_store.go:36-64 | any span of one window length lets at most twice the limit through |
| `RateLimit.KeysDistinct` | internal/adapter/http/middleware/ratelimit.go:37-38 | distinct (identifier, group, window) never share a key, whatever the identifier contains |
| `RateLimit.DefaultRules` | internal/adapter/http/middleware/ratelimit.go:23-32 | every default group is free of colons and has a positive window, as the key and window results need |
| `RateLimit.DefaultLimits` | internal/adapter/http/middleware/ratelimit.go:23-32 | group by group: exactly the first 100 payments, 30 refunds, 10 logins, 60 dashboard calls and 20 top-ups of each whole minute, and 5 registrations of each hour, are allowed; in any such span at most twice as many |
| `Nonce.DriftExact` | internal/adapter/http/middleware/middleware.go:66-67 | the drift test admits exactly abs(now - ts) <= 60 for every int64 timestamp, despite wrap-around and rounding, for clocks 60 s away from the ends of int64 |
| `Nonce.DriftNeedsClock` | internal/adapter/http/middleware/middleware.go:66-67 | at every other clock reading some timestamp fools the test |
| `Nonce.NonceStore.CheckAndSet` | internal/adapter/storage/redis/nonce_store.go:27-41 | true exactly when the nonce is not live, and then it is set with its expiry |
| `Nonce.Authenticate` | internal/adapter/http/middleware/middleware.go:59-130 | passes iff within 60 seconds, of a known and active merchant, signed, and with a nonce not live unless the store is silent; spends the nonce for 120 seconds before the signature is checked, and only then |
| `Nonce.AcceptedExactly` | internal/adapter/http/middleware/middleware.go:59-130 | over every trace, silent stores included, an attempt is accepted iff it is in the window, known, signed, and no earlier attempt spent its nonce in the last 120 seconds |
| `Nonce.ClaimsApart` | internal/adapter/storage/redis/nonce_store.go:27-41 | two claims of one (merchant, nonce) are more than 120 s apart |
| `Nonce.NoReplay` | internal/adapter/http/middleware/middleware.go:59-99 | a request accepted anywhere but at the far edge of the window is never accepted again |
| `Nonce.ReplayAtTheEdge` | internal/adapter/http/middleware/middleware.go:59-99 | in every trace, whatever is accepted last and at that edge passes again when replayed just after its nonce expired |
| `Nonce.NonceKeyInjective` | internal/adapter/storage/redis/nonce_store.go:28 | keys of distinct (merchant, nonce) never collide |
| `Webhook.Delivery.DeliverWithRetries` | internal/service/webhook_service.go:159-245 | for any intervals and outcomes: attempts, sleeps, stop at the first 2xx, every persisted record, and one final state that is DELIVERED iff some attempt was accepted |
| `Webhook.Delivery.Deliver` | internal/service/webhook_service.go:19-25 | the production schedule makes at most six attempts with the waits 15, 60, 120, 300, 600 between them, and is DELIVERED iff one of them is answered with a status of 200 to 299 |
| `Webhook.Delivery.Attempt` | internal/service/webhook_service.go:192-238 | what one attempt does to the record, for each kind of outcome |
| `Webhook.DueOrigin` | internal/service/webhook_service.go:205-236 | the retry time in a pending record was announced by the latest attempt that could announce one |
| `Webhook.LastCodeOrigin` | internal/service/webhook_service.go:219-220 | the status code in a pending record is that of the latest attempt that was answered |
| `Encryption.BalanceRoundTrip` | internal/service/payment_service.go:95-111 | a written balance is read back under any nonce iff it is an int64 |
| `Encryption.ReadersAgree` | internal/service/reporting_service.go:82-91 | both readers agree on every text the payment service accepts |
| `Encryption.Encrypt` | internal/service/encryption_service.go:32-50 | hex of nonce and sealed text, or an error when randomness runs short |
| `Encryption.DecryptFramed` | internal/service/encryption_service.go:53-81 | decryption gives the plaintext back, whatever the nonce |
| `Encryption.HexRoundTrip` | internal/service/encryption_service.go:49 | decoding printed hex gives the bytes back |
| `Encryption.HexLayout` | internal/service/encryption_service.go:49 | each byte is two lower-case characters of the alphabet, high half first |
| `Encryption.HexDecodesOnlyPrinted` | internal/service/encryption_service.go:54 | what decodes is the printed form of the result up to letter case |
| `Decimal.FormatParse` | internal/service/payment_service.go:99 | printing and parsing is the identity exactly on int64 |
| `Decimal.Positional` | internal/service/payment_service.go:111 | decimal text is positional, the most significant digit first |
| `Decimal.ScanAgreesWithParse` | internal/service/reporting_service.go:88 | scanning gives the parsed value, with nothing left over, on every text that parses |
| `PasswordHash.HashRoundTrip` | internal/service/hash_service.go:69-103 | every salt, hash and parameters are decoded from the printed form, which has exactly six fields |
| `PasswordHash.PrintedForm` | internal/service/hash_service.go:38-46 | the stored text is the literal prefix with version and parameters, salt and key |
| `PasswordHash.DecodedFields` | internal/service/hash_service.go:70-77 | what decodes has exactly six fields and names the algorithm |
| `PasswordHash.VerifyHashed` | internal/service/hash_service.go:32-59 | a stored hash accepts the password just hashed, and another exactly when its derived key is the same |
| `PasswordHash.HashPassword` | internal/service/hash_service.go:32-47 | fills a 16-byte salt from the random source; the text verifies the password, and randomness running short is an error |
| `PasswordHash.Base64RoundTrip` | internal/service/hash_service.go:90-98 | unpadded base64 decodes to the bytes encoded |
| `PasswordHash.GroupLayout` | internal/service/hash_service.go:44-45 | three bytes are four groups of the same 24-bit number |
| `PasswordHash.TailLayout` | internal/service/hash_service.go:44-45 | left-over bytes are filled up with zero bits to two or three groups |
| `PasswordHash.Alphabet64` | internal/service/hash_service.go:44-45 | the groups are printed in the standard alphabet |
| `PasswordHash.SplitJoin` | internal/service/hash_service.go:70-73 | fields without the separator are told apart again |
| `Keys.PaymentKeyInjective` | internal/core/domain/idempotency.go:18-20 | payment keys are equal iff merchant and reference are |
| `Keys.RefundKeyInjective` | internal/core/domain/idempotency.go:23-25 | refund keys are equal iff merchant and reference are |
| `Keys.KeyCollision` | internal/core/domain/idempotency.go:18-25 | a payment key is a refund key iff the payment is named `refund:` and the reference, which no safe_id is |
| `Keys.SanitizeFixedPoint` | internal/adapter/http/dto/validators.go:73-75 | sanitising leaves a text alone iff it has nothing to trim or escape; every safe_id is such a text |
| `Keys.SanitizeUndone` | internal/adapter/http/dto/validators.go:73-75 | sanitised text, unescaped, is the original without the white space around it |
| `Keys.SafeAlphabet` | internal/adapter/http/dto/validators.go:14 | the characters of a safe_id are exactly the letters, the digits and three more |
| `Domain.Unmarshal` | internal/service/payment_service.go:431-437 | the rebuilt transaction marshals to the same response, with the hidden fields empty |

## Left out

- HTTP handlers, routing, binding, response envelopes and error codes: one-branch facts. Errors of encryption, parsing and the database are one `Internal` error.
- AES-GCM, HMAC, SHA-256, Argon2 and random sources: function parameters. Of the cipher only "opening what was sealed gives it back" is assumed, of Argon2 only the key length.
- Login, JWT, signature computation, merchant profile, key rotation, audit log, configuration and wiring.
- The calendar arithmetic of day, week and month: a period is its start in seconds. Fractions of the amount column: amounts are integers below 10^18.
- The widths of the signature and client address columns; the request headers and the parsing of the timestamp text.
- The text of the ORDER BY, LIMIT and OFFSET clauses: the window they ask for is applied to the rows, with the arguments at argIdx and argIdx+1.
- The reflection loop that sanitises request structs: only the function it applies to each string is modelled.
- The 24-hour lifetime of cache entries: an entry may vanish at any moment, which covers it.
- A lock that outlives a crashed process until the database notices: a crash releases its locks at once. Deadlock freedom therefore speaks about live sessions.
- The merchant row of a registration, and a registration that fails between merchant and wallet: a merchant without a wallet owns no money.
- JSON text: the logged and cached response is a record of the fields that marshalling keeps.
- Failing updates of the delivery record: `persisted` holds what was sent to the repository, in order.
- PaymentService.Service.ProcessPayment: the class runs one request at a time; interleaving is the subject of the protocol modules.
- PaymentService.Service.ProcessRefund: the same; the gap between eligibility check and transaction is modelled in `Protocol`.
- PaymentService.Service.ProcessTopup: the same.
- RateLimit.FirstLimitAllowed: the clock reading and the increment are one instant, and windows are whole seconds.
- Nonce.NoReplay: the clock reading and the claim are one instant, and the store answers every time; a silent store refuses nobody, as `Nonce.Authenticate` says.
- Paging.PagesListTheLedger: the order of rows with equal timestamps is fixed, which the query itself does not ask for.
- PasswordHash.HashRoundTrip: passwords and argon2 are opaque; a hash must be shorter than 2^32 bytes because its length is kept in 32 bits.
