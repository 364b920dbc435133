# Verified model of the ride-sharing backend

A Dafny model of the stateful parts of the backend, with proofs about it: the ride life cycle
and driver matching, the wallet ledger with payments, refunds and Stripe webhooks, the rotation
of refresh tokens together with the browser client's coalesced refresh, and three smaller pieces
(coupon rounding, the log redactor, the ledger de-duplication migration).

`dafny verify dfyconfig.toml` checks everything.

## How the code is modelled

The database and Redis are tables (sequences and maps), and one Prisma or Redis statement, or one
array `$transaction`, is one atomic change. The services appear twice. As *classes*
(`RideServer.Server`, `BankServer.Server`, `Tokens.Server`, `RefreshProtocol.ApiClient`) whose
methods check their guards, issue their statements and return early where the services throw; and
as *specification functions* on values (`RidePlans.Plan`, `Bank.Apply`, `Tokens.Serve`,
`RefreshProtocol.Do`), to which every such method is tied by its postcondition and about which the
theorems about whole runs are proved. A ride call is specified by its plan: the durable steps it
issues, in order. `RideServer` keeps a ghost journal of those steps, so its contracts also say
which intermediate states a crash can leave behind.

Runs come in three granularities:

* **A, statements interleave.** Any number of calls are open at once, each with the rows it has
  read, and any of them may take the next step. `RideInterleaving`, `RideRaces` and `RideRaceRuns`
  (rides), `BankLocks` (money, with row locks, waiting on uncommitted unique keys and rollback at
  any point), `RefundRaces` (refunds whose decision and transaction are apart) and
  `RefreshProtocol` (client and server). Actions that are not enabled change nothing, so the
  theorems speak of every schedule. `RideSchedules` and `BankLocks.AloneIsApply` show that a call
  that is left alone in these machines does what its serial specification says.
* **B, serial calls that may die** after any durable step: `RideRecovery`.
* **C, serial whole calls**, each at one clock instant: `RideRuns`, `Nearby`, `StripeEvents`,
  `Refunds`, `Tokens`, `Bank` (where the unit is the transaction).

Conventions: money is in whole cents and time in milliseconds. Rides are numbered in creation
order, and a driver or passenger profile shares its user's id. OTPs, tokens, row ids and Stripe
intents are given values, with tokens and ids never repeated; the token hash is injective. The
`login` column of a token row is history, the chain a token descends from, and is not in the table.

## What the code does not do

Some claims that the documentation or a first reading suggests are false. For each there is a run
or an input that breaks it, and the exact condition under which it holds.

* CANCELLED and COMPLETED are not terminal when calls interleave, because `updateStatus` does not
  look at the status it replaces (`src/repositories/ride.repository.js:61`):
  `RideRaces.TerminalIff`, `RideRaces.StatusTerminalIff`, `RideRaceRuns.CancelledRideRevives`.
* A driver can then have two active rides, because the check and the assignment are separate
  (`src/services/ride.service.js:249,267`): `RideRaces.SecondRideIff`, `RideRaces.OneRideEachIff`,
  `RideRaceRuns.TwoAcceptsBothWin`.
* The sweep can cancel a ride that has just arrived, because its condition is the status alone and
  a second arrive call may write `arrivedAt` again (`src/services/ride.service.js:475`):
  `RideRaces.ArrivedSweepIff`, `RideRaceRuns.SweepCancelsFreshArrival`.
* Overlapping refunds can exceed the payment, because the sum is read outside the transaction
  (`src/services/payment.service.js:261`): `RefundRaces.OverlapExceedsIff`,
  `RefundRaces.OverlappingRefundsExceed`.
* A card payment's status need not say what was refunded: a redelivered success sets it back to
  COMPLETED (`src/services/payment.service.js:213`), and a refund that Stripe leaves pending counts
  in the status but not in the sum (lines 270 and 297): `Refunds.CardStatusExactIff`,
  `Refunds.CardStatusCanLie`, `Refunds.PendingRefundCanLie`.
* `src/repositories/token.repository.js:60-66` says that deleting dead token rows changes nothing
  about behaviour. It does: a replayed token whose row was deleted is refused without ending the
  user's sessions: `Tokens.CleanupMattersIff`, `Tokens.CleanupCanHideReuse`, and
  `Tokens.CleanupIsTransparent` for where it is harmless.
* The redactor does not return from a cycle of arrays or errors (`src/config/logger.js:22,37`):
  `RedactionTermination.TerminatesIff`, `RedactionTermination.SelfContainingArrayOverflows`.
* A circular mark does not mean a cycle (`src/config/logger.js:43`): `RedactionTrees.MarkIff`,
  `RedactionTrees.SharedObjectLooksCircular`.
* The migration can leave a clash if a reference already ends in `#` and an id:
  `Deduplication.UniqueIff`, `Deduplication.MarkedReferenceCanClash`.

## Model

The first 82 rows are the main results. The next 24 say, column by column and for every state of the
tables, what each service call does, with the conditions and values written out instead of naming
the functions of the model. The next 12 tie the models of one service to each other, the next 36 are the service calls
in their own form, and the rest are single statements and helpers.

| member | source | states |
|---|---|---|
| RideInterleaving.AtMostOneWinner | src/repositories/ride.repository.js:54-59 | A: in every interleaving of accepts, moves, cancels and sweeps each ride is won at most once, and a ride's driver, vehicle and acceptance time are exactly those of its one winning accept |
| RideInterleaving.AssignmentIsFinal | src/repositories/ride.repository.js:54-63 | A: between any two moments of a run driver, vehicle and acceptedAt never change once written, REQUESTED and ACCEPTED are never re-entered and no ride is lost |
| RideInterleaving.AssignedRidesHaveDrivers | src/services/ride.service.js:73-85 | A: although status writes are unconditional, every ACCEPTED, ARRIVED, IN_PROGRESS or COMPLETED ride has a driver and a vehicle and no REQUESTED ride has one |
| RideInterleaving.SweepIsSound | src/services/ride.service.js:419-470 | A: a SYSTEM cancellation of a REQUESTED or ACCEPTED ride hits a row still in that status at the write, and there for more than 5 or 15 minutes; the acceptance it times from is the logged one (for ARRIVED see RideRaces.ArrivedSweepIff) |
| RideInterleaving.AcceptExcludesSweep | src/repositories/ride.repository.js:54-76 | A: an accept and the REQUESTED sweep never both succeed on one ride |
| RideInterleaving.RunKeeps | src/services/ride.service.js:239-492 | A: every step of every call keeps the invariant that stale snapshots err only in the direction rows can move |
| RideRaces.TerminalIff | src/repositories/ride.repository.js:61-63 | A: a COMPLETED or CANCELLED ride's row stays as it is under every continuation iff no open call stands before an unconditional write to it |
| RideRaces.StatusTerminalIff | src/repositories/ride.repository.js:61-63 | A: its status alone stays under every continuation iff every such call would write that same status |
| RideRaces.SecondRideIff | src/services/ride.service.js:249-267 | A: a step gives a driver a second active ride iff, with one active ride already, it is a hitting assignment for that driver or a move that revives another ride of theirs |
| RideRaces.OneRideEachIff | src/services/ride.service.js:249-272 | A: over a run a driver never has two active rides iff no step of the run is one of those |
| RideRaces.ArrivedSweepIff | src/services/ride.service.js:472-482 | A: once a sweep has an ARRIVED ride on its list, every continuation cancels that ride only after 15 minutes iff no arrive call stands before its write to it and the ride, if ARRIVED now, has waited them out already |
| RideRaceRuns.CancelledRideRevives | src/services/ride.service.js:286-292 | A: a run from an empty system in which a cancelled ride comes back as ARRIVED |
| RideRaceRuns.TwoAcceptsBothWin | src/services/ride.service.js:249-272 | A: a run in which two accepts of one driver both pass the check and both win |
| RideRaceRuns.SweepCancelsFreshArrival | src/services/ride.service.js:472-482 | A: a run in which the sweep cancels a ride that arrived that instant |
| RideRecovery.NoStrandedDriver | src/services/ride.service.js:378-389 | B: wherever processes die, an online driver who is not available has an active ride |
| RideRecovery.OneActiveRideEach | src/services/ride.service.js:91-97 | B: no driver and no passenger ever has two active rides |
| RideRecovery.CachedTotalsAgree | src/repositories/driver.repository.js:86-91 | B: totalEarnings, totalRides and the passenger's ride count always equal their recomputation from COMPLETED rides |
| RideRecovery.PlanLegal | src/services/ride.service.js:91-492 | every step of every call meets that condition in the state in which it is taken, so crashing between steps is safe |
| RideRecovery.LegalKeeps | src/services/ride.service.js:345-389 | a durable step that meets the stated condition keeps all of the above |
| RideRecovery.SweepLegal | src/services/ride.service.js:433-492 | the same for the sweep loops, whose later iterations act on rows read before the earlier ones |
| RideRuns.BoundedWaiting | src/jobs/scheduler.js:20-24 | C: with sweeps at most 2 minutes apart a ride waits at most 7, 17 and 17 minutes in REQUESTED, ACCEPTED and ARRIVED, and is started or cancelled within 41 minutes of its request |
| RideRuns.AtMostFiveComparisons | src/services/ride.service.js:305-324 | C: over a ride's life its OTP is compared at most five times, because the 10-minute window closes before the 15-minute counter can expire |
| RideRuns.StartableIsNotSwept | src/services/ride.service.js:305-313 | C: in every reachable state the sweep leaves alone a ride that arrived at most ten minutes ago |
| RideRuns.IndexAndTrailAgree | src/services/geo.service.js:64-74 | C: without Redis failures the pending set is exactly the REQUESTED rides at their pickup points, and the status log ends, for every ride, in its status |
| Nearby.NearbyIsTheScan | src/services/ride.service.js:204-237 | C: in every reachable state listNearby offers exactly the REQUESTED rides in radius, of an eligible type, not rejected by this driver, with their distances |
| Nearby.NearbyIsSound | src/services/geo.service.js:84-102 | whatever Redis answers, the list is sorted by distance, holds each candidate once and only REQUESTED rides of an eligible type |
| Bank.LedgerExplainsBalances | src/services/wallet.service.js:50-65 | after any transactions, committed or rolled back, each balance is its credits minus debits and never negative, and each balanceAfter is the prefix sum at its row |
| Bank.DebitsMatchPayments | src/services/payment.service.js:69-99 | RIDE_PAYMENT debits and WALLET payments match one to one by ride, payer and amount, and no ride has two payments or two debits |
| Bank.CreditsMatchRefunds | src/services/payment.service.js:310-329 | REFUND credits and refunds of payments not made by card match one to one by refund id, payer and amount |
| Bank.ApplySound | src/services/payment.service.js:32-100 | every transaction keeps balances and all three tables reconciled, also when a unique key undoes it |
| BankLocks.LockedRunsAreSerial | src/repositories/wallet.repository.js:28-49 | A: interleaved transactions under row locks leave the tables of the committed ones run one at a time in commit order |
| BankLocks.InterleavedLedger | src/services/wallet.service.js:93-115 | A: so in every interleaving with rollbacks anywhere balances and prefix sums hold, debits match wallet payments, credits match refunds, and no ride is paid twice |
| BankLocks.OneWriterPerWallet | src/repositories/wallet.repository.js:37-49 | A: two transactions between balance update and commit never move one wallet |
| BankLocks.AloneIsApply | src/services/payment.service.js:69-99 | a transaction left alone runs to its end with exactly its atomic effect, whether it commits or rolls back |
| StripeEvents.DeliveryOrderIsIrrelevant | src/services/payment.service.js:190-227 | C: two deliveries of the same set of events, in any order and with any duplication, leave the same balances and payments |
| StripeEvents.TopUpsCreditOnce | src/services/wallet.service.js:66-77 | C: a balance grows by exactly the sum over the distinct new intents |
| StripeEvents.PendingPaymentSettles | src/services/payment.service.js:200-226 | C: a PENDING card payment is COMPLETED iff some success arrived, else FAILED iff some failure arrived |
| Refunds.RefundsNeverExceed | src/services/payment.service.js:261-270 | C: completed refunds never exceed the payment; a WALLET or CASH payment is COMPLETED iff they are zero, else REFUNDED iff they are the whole amount |
| Refunds.CardStatusExactIff | src/services/payment.service.js:213-270 | C: a card payment's status says what its completed refunds say iff its history of successes and refunds ends in one of the stated ways |
| Refunds.PlainHistoryIsExact | src/services/payment.service.js:254-309 | in particular after a success with no refund left pending and no success after a refund |
| Refunds.CardStatusCanLie | src/services/payment.service.js:213-216 | a run in which a redelivered success makes a fully refunded card payment read COMPLETED |
| Refunds.PendingRefundCanLie | src/services/payment.service.js:270-308 | a run in which a refund that Stripe leaves pending makes a card payment read REFUNDED with nothing refunded |
| Refunds.ToleranceIsExact | src/services/payment.service.js:265-270 | on cent amounts the 0.001 tolerance admits nothing above the remainder and nothing short of the amount |
| RefundRaces.ExceedsIff | src/services/payment.service.js:261-328 | overlapping refunds: a step takes the refunds above the payment iff it writes a refund decided on a sum that other refunds have since raised by more than the decision left over |
| RefundRaces.OverlapExceedsIff | src/services/payment.service.js:261-328 | over a run the refunds of a payment never exceed it iff no step does that |
| RefundRaces.OverlappingRefundsExceed | src/services/payment.service.js:261-328 | a run in which two full refunds of a wallet payment are both written |
| RefreshProtocol.ReuseIsNeverReached | frontend/js/api.js:69-84 | A: however many requests meet a 401 together, no refresh token is presented twice and the server's reuse branch is never taken |
| RefreshProtocol.NextRefreshRotates | frontend/js/api.js:17-33 | A: when no refresh is in flight the stored token is live and was never presented; two refreshes are never unsettled together |
| RefreshProtocol.NoRequestFails | frontend/js/api.js:74-84 | A: unless the network drops a retry, no request fails because of a refresh and the session is kept |
| RefreshProtocol.UncoalescedRefreshesCollide | frontend/js/api.js:69-76 | why coalescing matters: two refreshes sending one token revoke every session, the new one included |
| RefreshProtocol.RunKeeps | src/services/token.service.js:109-125 | A: the protocol invariant, over the server's separate look-up, revoke and issue statements |
| Tokens.OneLiveTokenPerLogin | src/services/token.service.js:109-125 | C: each login's chain has at most one unrevoked token, also when a rotation dies between revoking and issuing |
| Tokens.NoTokenRotatesTwice | src/services/token.service.js:116-121 | C: a token that rotated once never rotates again |
| Tokens.SpentForever | src/repositories/token.repository.js:17-32 | C: a token that is revoked or deleted never becomes usable again |
| Tokens.CleanupIsTransparent | src/repositories/token.repository.js:68-73 | C: any number of cleanups inserted anywhere into a run that presents no dead token, the end included, change no outcome and no live row |
| Tokens.CleanupMattersIff | src/repositories/token.repository.js:60-73 | a cleanup changes what a rotation does exactly when the token presented has a dead row; live rows differ iff its user also has a live session |
| Tokens.CleanupCanHideReuse | src/services/token.service.js:112-119 | a run with two sessions: replaying the rotated token ends both, but neither after a cleanup |
| RedactionTermination.TerminatesIff | src/config/logger.js:21-54 | the redactor returns on a value iff every cycle it can reach from it by unmasked fields passes through a plain object |
| RedactionTermination.Finishes | src/config/logger.js:42-49 | the stack depth that suffices when it does |
| RedactionTermination.ReturnedIsTracked | src/config/logger.js:22-44 | a call that returned has walked everything it could reach, so there was no other cycle |
| RedactionTermination.SelfContainingArrayOverflows | src/config/logger.js:22 | an array that contains itself exhausts any stack |
| Redaction.RedactMasks | src/config/logger.js:17-54 | on any graph, shared or cyclic, the output has only the mask under sensitive keys, at every depth |
| RedactionTrees.MarkIff | src/config/logger.js:42-44 | the output has a circular mark iff two different paths of unmasked fields lead to the same plain object, round a cycle or not |
| RedactionTrees.RedactMasksTree | src/config/logger.js:21-54 | a value that reads as a tree is returned as that tree with its sensitive fields masked iff no plain object is shared between its unmasked places |
| RedactionTrees.MaskKeepsTheRest | src/config/logger.js:46-50 | off the sensitive keys every subtree stays in its place and every leaf is unchanged; beyond one there is only the mask |
| RedactionTrees.MaskFixesIff | src/config/logger.js:46-50 | masking leaves a tree alone iff nothing in it needs masking |
| RedactionTrees.RedactTwice | src/config/logger.js:21-54 | redacting the result again changes nothing |
| RedactionTrees.SharedObjectLooksCircular | src/config/logger.js:42-44 | an object met twice without a cycle is reported as circular the second time |
| Redaction.HeadIsHarmless | src/config/logger.js:37-40 | an error's name, message and stack are never masked |
| Coupons.DiscountIsBounded | src/services/coupon.service.js:5-16 | 0 <= discount <= min(fare, maxDiscount), within half a cent of the exact discount |
| Coupons.PaidPlusDiscountIsFare | src/services/payment.service.js:36-45 | amount charged plus discount is the fare, to the cent |
| Coupons.PaidIsMonotone | src/services/payment.service.js:40-45 | a higher fare never costs less, for both types, across the caps and for percentages above 100 |
| Coupons.RoundedGrowsSlowly | src/services/coupon.service.js:12-15 | one more cent of fare raises the rounded discount by nothing or one cent |
| Coupons.FreeRideIff | src/services/coupon.service.js:7-15 | exactly which uncapped coupons make a ride free |
| Deduplication.UniqueIff | prisma/migrations/20260814050443_wallet_transaction_idempotency_constraint/migration.sql:9-21 | afterwards (wallet, reason, reference) is unique iff no later duplicate's new reference is already some row's |
| Deduplication.UniqueWithoutMarks | prisma/migrations/20260814050443_wallet_transaction_idempotency_constraint/migration.sql:15-21 | so it is unique whenever references contain no '#' |
| Deduplication.MarkedReferenceCanClash | prisma/migrations/20260814050443_wallet_transaction_idempotency_constraint/migration.sql:16 | a table on which creating the index fails |
| Deduplication.MoneyIsConserved | prisma/migrations/20260814050443_wallet_transaction_idempotency_constraint/migration.sql:15-18 | a row changes iff an earlier one of its group exists, and then only in its reference; row count and every wallet's sum stay |
| Deduplication.NoOpIff | prisma/migrations/20260814050443_wallet_transaction_idempotency_constraint/migration.sql:9-18 | the migration changes nothing iff the triple was unique already |
| Deduplication.NumbersAreOneToN | prisma/migrations/20260814050443_wallet_transaction_idempotency_constraint/migration.sql:9-14 | the numbers in a group of n rows are exactly 1 to n, each given once, however ties are broken |
| Deduplication.GroupHasFirst | prisma/migrations/20260814050443_wallet_transaction_idempotency_constraint/migration.sql:9-14 | every group has a row that keeps its reference |
| Deduplication.FirstIsUnique | prisma/migrations/20260814050443_wallet_transaction_idempotency_constraint/migration.sql:9-14 | and no two rows of a group do, however ties are broken |
| RideEffects.RequestTables | src/services/ride.service.js:91-126 | a passenger without an unfinished ride gets one new row holding the request's columns and no others, logged and listed; anyone else gets nothing |
| RideEffects.AcceptTables | src/services/ride.service.js:239-279 | the row, the driver, the index and the log after an accept, in particular the vehicle the driver registered for the ride's type; nothing changes unless every guard holds |
| RideEffects.RejectTables | src/services/ride.service.js:281-284 | the rejection set gains this ride and driver |
| RideEffects.ArriveTables | src/services/ride.service.js:286-296 | likewise for an arrival |
| RideEffects.StartTables | src/services/ride.service.js:305-336 | up to 10 minutes after the arrival and up to the fifth attempt the right code starts the ride; a wrong one only counts, and the count's 15 minutes start with the first |
| RideEffects.CompleteTables | src/services/ride.service.js:345-363 | a completion charges the estimate, adds it to the driver's earnings, counts the ride for both and frees the driver |
| RideEffects.CancelTables | src/services/ride.service.js:365-408 | a cancellation records who cancelled, frees the driver, unlists and logs |
| RideEffects.SweepTables | src/services/ride.service.js:419-500 | the sweep cancels exactly the rides REQUESTED for more than 5 minutes or ACCEPTED or ARRIVED for more than 15, frees the drivers of the latter, unlists the former and logs each once |
| RideEffects.OnlineTables | src/services/driver.service.js:30-56 | both flags are set for an approved driver with a verified vehicle, and cleared for any driver who goes offline |
| RideEffects.HeartbeatTables | src/services/driver.service.js:72-86 | exactly the listed drivers without a heartbeat lose both flags |
| BankServer.PaymentAcceptedIff | src/services/payment.service.js:24-140 | when a payment goes through, in terms of the bill, the coupon's own terms and limits, the balance and the unique keys |
| BankServer.CountsAreNumbers | src/repositories/couponRedemption.repository.js:7-13 | the two redemption counts are the numbers of such rows |
| Refunds.RefundTables | src/services/payment.service.js:254-329 | the new refund row, the payment's status, the wallet and the ledger after a refund of a given amount or of the remainder; nothing changes unless the amount is in (0, remaining] and the guards hold |
| StripeEvents.EventTables | src/services/payment.service.js:190-227 | which wallet, ledger row and payment status an event changes |
| Coupons.DiscountInCents | src/services/coupon.service.js:5-16 | the computation in dollars and its rounding equal whole-cent arithmetic: the percentage to the nearest cent, halves up, or the fixed amount, then the caps |
| Tokens.RotationIff | src/services/token.service.js:109-121 | a token rotates iff its row is there, not revoked and not expired; it counts as reuse iff one of the last two fails |
| Tokens.NoLateRotation | src/services/token.service.js:116 | over any run no token rotates later than one lifetime after it was handed out |
| Tokens.RotationTables | src/services/token.service.js:116-125 | the rows after a rotation: the old one revoked, the new one in the same chain for one lifetime; after a reuse every open row of the user is revoked |
| Tokens.OtherTables | src/services/token.service.js:82-132 | the rows after a login, a logout, a revocation of a whole user and a cleanup |
| RefreshProtocol.RetriesCarryNewTokens | frontend/js/api.js:28-78 | A: a retry carries an access token that a refresh brought back, and the stored tokens are always a pair that was handed out together |
| RedactionKeys.SensitiveIff | src/config/logger.js:17-18 | a key is sensitive iff one of the ten literals, as spelled there, occurs in it in any case |
| RedactionKeys.CaseIsIrrelevant | src/config/logger.js:17-18 | keys that differ only in the case of letters are masked alike |
| RedactionKeys.RedactShape | src/config/logger.js:21-54 | what comes out of each kind of value: the mask under every key of an object or error that matches the pattern, the redacted value under any other, and an error's name, message and stack before its fields |
| Deduplication.ReferenceAfter | prisma/migrations/20260814050443_wallet_transaction_idempotency_constraint/migration.sql:9-18 | a row's reference gets '#' and its id iff an earlier row has the same wallet, reason and reference |
| RideSchedules.AcceptAloneIsPlan | src/services/ride.service.js:239-274 | an accept stepped alone in the interleaved machine leaves the ride and driver tables of its plan, guard by guard |
| RideSchedules.MoveAloneIsPlan | src/services/ride.service.js:286-357 | likewise arrive, start and complete, with the passenger's ride count |
| RideSchedules.CancelAloneIsPlan | src/services/ride.service.js:365-389 | likewise cancel |
| RideSchedules.SweepAloneIsPlan | src/services/ride.service.js:419-492 | likewise the sweep: three queries, then one step for each ride found |
| RideServer.CallIsWhole | src/services/ride.service.js:91-500 | after any service call the object's tables are those of the whole call, of which RideEffects says column by column what they hold |
| RideServer.CallKeepsConsistent | src/services/ride.service.js:91-492 | after any service call the server satisfies the invariants of B if it did before |
| RideServer.SweepMissesNothing | src/services/ride.service.js:494-499 | run alone, the sweep cancels every ride it found, so expiredCount is the sum of the three lengths |
| RefundRaces.AloneIsServe | src/services/payment.service.js:254-328 | an overlapping refund that nothing comes in between is refundPayment as a whole |
| RefreshProtocol.AloneIsRotation | src/services/token.service.js:109-125 | the server's look-up, revocation and issue with nothing in between leave the rows of a whole rotation |
| RideRuns.CallEffect | src/services/ride.service.js:91-389 | a call other than the sweep moves at most the ride it names, along one edge of the life cycle, logs that move and maintains the index |
| RideRuns.SweepWhole | src/services/ride.service.js:419-492 | the sweep cancels exactly the rides its queries find and leaves every other row as it was |
| RideRuns.StaleIsListed | src/repositories/ride.repository.js:78-105 | the three queries together find exactly the rides past their timeout |
| RideServer.Server.RequestRide | src/services/ride.service.js:91-126 | refused iff the user is no passenger or has an active ride; otherwise creates, logs and indexes the ride, in that order |
| RideServer.Server.AcceptRide | src/services/ride.service.js:239-279 | succeeds iff every guard and the conditional assignment hold; assigns this driver with the vehicle registered for the ride's type, marks busy, unlists and logs, in that order; a refusal changes nothing |
| RideServer.Server.RejectRide | src/services/ride.service.js:281-284 | records the rejection and nothing else |
| RideServer.Server.MarkArrived | src/services/ride.service.js:286-296 | succeeds iff the ride is this driver's and ACCEPTED |
| RideServer.Server.StartRide | src/services/ride.service.js:305-336 | succeeds iff the ride is this driver's, ARRIVED, in its window, within five attempts and the code matches; counts the attempt in any case after the window check |
| RideServer.Server.CompleteRide | src/services/ride.service.js:345-363 | succeeds iff the ride is this driver's and IN_PROGRESS; status, availability and both statistics are one durable step |
| RideServer.Server.CancelRide | src/services/ride.service.js:365-408 | succeeds iff the user is a party to a cancellable ride; cancelling and freeing the driver are one durable step |
| RideServer.Server.ExpireStaleRides | src/services/ride.service.js:419-500 | runs the three queries and then the three loops; returns the three list lengths and the number of iterations that cancelled |
| RideServer.Server.SweepLoop | src/services/ride.service.js:433-492 | one loop: the journal grows by exactly the iterations' steps |
| RideServer.Server.SweepRow | src/services/ride.service.js:450-469 | one iteration: conditional cancel and freeing in one step, clean-up only if a row was cancelled |
| RideServer.Server.GoOnline | src/services/driver.service.js:30-48 | succeeds iff the driver is approved and has a verified vehicle |
| RideServer.Server.GoOffline | src/services/driver.service.js:50-56 | clears both flags |
| RideServer.Server.ExpireStaleHeartbeats | src/services/driver.service.js:72-86 | takes offline exactly the online drivers without a heartbeat; returns how many were checked and expired |
| BankServer.Server.PayForRide | src/services/payment.service.js:24-168 | succeeds iff the ride is the payer's, COMPLETED and unpaid, the coupon is accepted and the write goes through; then there is one new payment, of the fare less the discount, in the state its method starts in; a wallet is down by that amount and otherwise no wallet changes; the coupon is redeemed only then and stays within its terms |
| BankServer.Server.PayByWallet | src/services/payment.service.js:69-99 | debit, ledger row and payment land together or not at all |
| BankServer.Server.RefundPayment | src/services/payment.service.js:254-329 | refused on a wrong status or an amount outside (0, remaining]; otherwise one new refund of the amount asked for, or of the remainder if none is, through the payment's own channel, and the new status |
| BankServer.Server.RefundByWallet | src/services/payment.service.js:321-328 | refund row, credit and status land together or not at all |
| BankServer.Server.RefundByCard | src/services/payment.service.js:299-309 | refund row and status land together |
| BankServer.Server.HandleStripeEvent | src/services/payment.service.js:190-227 | a success tops up or completes a payment that is not COMPLETED, a failure fails only a PENDING one, anything else does nothing |
| BankServer.Server.ConfirmTopUp | src/services/wallet.service.js:44-78 | credits the amount with its ledger row, or changes nothing if the intent was recorded before |
| BankServer.Server.AdjustBalance | src/services/wallet.service.js:86-127 | succeeds iff the wallet exists and a debit is covered; the balance moves by the delta with its ledger row |
| BankServer.Server.CreditRefund | src/services/wallet.service.js:141-161 | succeeds iff the wallet exists and the refund was not credited before |
| Tokens.Server.RotateRefreshToken | src/services/token.service.js:109-125 | unknown token: refused; revoked or expired row: every session of the user revoked; otherwise revoked and replaced |
| Tokens.Server.IssueRefreshToken | src/services/token.service.js:82-95 | one new row, live until now plus the lifetime |
| Tokens.Server.RevokeRefreshTokenByRaw | src/services/token.service.js:127-132 | afterwards the token is not live |
| RefreshProtocol.ApiClient.DoRefresh | frontend/js/api.js:19-27 | starts one refresh that carries the stored token, or fails if the session is gone |
| RefreshProtocol.ApiClient.HandleUnauthorized | frontend/js/api.js:74-77 | joins the refresh in flight; starts one only if there is none |
| RefreshProtocol.ApiClient.HandleReply | frontend/js/api.js:28-32 | overwrites both stored tokens, or rejects |
| RefreshProtocol.ApiClient.Finally | frontend/js/api.js:76 | clears the module variable and settles the promise |
| RefreshProtocol.ApiClient.HandleSettled | frontend/js/api.js:77-83 | retries with the new access token, or drops the session |
| Logger.RedactValue | src/config/logger.js:21-54 | the recursion with its mutable `seen` set computes the specified output and set; every field of an object whose key matches the pattern comes out as the mask |
| Logger.RedactEach | src/config/logger.js:46-50 | the loop that fills the result, threading the one `seen` set through the fields in order |
| Logger.RedactFormat | src/config/logger.js:63-69 | overwrites info in place: level and message untouched, fields that match the pattern masked, others redacted with a fresh `seen` |
| Deduplication.Migrate | prisma/migrations/20260814050443_wallet_transaction_idempotency_constraint/migration.sql:9-18 | the in-place rewrite, whose ranking is read off the table before it, is the specified one |
| Deduplication.Rank | prisma/migrations/20260814050443_wallet_transaction_idempotency_constraint/migration.sql:9-14 | counts, for every row, the rows of its group before it: numbers follow the window's order and lie between 1 and the group's size |
| Deduplication.Rename | prisma/migrations/20260814050443_wallet_transaction_idempotency_constraint/migration.sql:15-18 | rewrites in place exactly the references of rows numbered above 1 |
| RideServer.Server.CountAttempt | src/services/ride.service.js:315-317 | INCR, with EXPIRE only on the first attempt; returns the new count |
| RideServer.Server.TryAssignDriver | src/repositories/ride.repository.js:54-59 | writes status, driver, vehicle and instant into the row iff it is still REQUESTED without a driver, returns 1 exactly then, and touches no other row |
| RideServer.Server.TryUpdateRow | src/repositories/ride.repository.js:74-76 | writes the row iff it is still in the expected status, and returns 1 exactly then |
| RideServer.Server.SetOnlineStatus | src/repositories/driver.repository.js:64-66 | sets both flags of one driver |
| RideServer.Server.SetDriverAvailable | src/repositories/driver.repository.js:75-77 | sets one flag of one driver |
| RideServer.Server.IncrementDriverStats | src/repositories/driver.repository.js:86-91 | adds one ride and the fare |
| RideServer.Server.IncrementPassengerStats | src/repositories/passenger.repository.js:7-9 | adds one ride |
| RideServer.Server.CreateRow | src/repositories/ride.repository.js:12-14 | appends the row under the next id |
| RideServer.Server.UpdateRow | src/repositories/ride.repository.js:61-63 | overwrites the named columns of one row, whatever its status |
| RideServer.Server.SetRideStatus | src/repositories/ride.repository.js:61-63 | the same outside a transaction: one durable step |
| RideServer.Server.RecordStatus | src/repositories/rideStatusLog.repository.js:3-5 | appends one entry to the status log |
| RideServer.Server.AddPendingRide | src/services/geo.service.js:64-70 | puts the ride into the index at its pickup point |
| RideServer.Server.RemovePendingRide | src/services/geo.service.js:72-74 | takes the ride out of the index |
| RideServer.Server.Incr | src/services/ride.service.js:316 | returns one more than the live counter, or 1 for a missing or expired key |
| RideServer.Server.ClearAttempts | src/services/ride.service.js:326 | deletes the counter |
| Rides.FindStale | src/repositories/ride.repository.js:78-105 | returns exactly the rows past their timeout, as they stand |
| Nearby.NearbyMembers | src/services/geo.service.js:191-197 | which offers appear, for arbitrary search replies and unreadable rejection sets |
| Nearby.SortedIs | src/services/ride.service.js:236 | sorting yields an ascending permutation |
| Nearby.ChosenIs | src/services/ride.service.js:218-235 | the filter and map chain keeps exactly the eligible rows of the reply |
| Bank.OneDebitPerRide | prisma/schema.prisma:523 | two debits for one ride would clash in the ledger's key |
| Bank.OneCreditPerRefund | prisma/schema.prisma:523 | and so would two credits for one refund |
| BankServer.Server.TryDebit | src/repositories/wallet.repository.js:37-42 | debits iff the wallet exists and covers the amount, and returns 1 exactly then |
| BankServer.Server.Credit | src/repositories/wallet.repository.js:44-49 | adds the amount to one wallet |
| BankServer.Server.CreateTransaction | src/repositories/wallet.repository.js:51-53 | appends iff (wallet, reason, reference) is free; null references are always free |
| BankServer.Server.CreatePayment | src/repositories/payment.repository.js:3-5 | appends iff neither the ride nor the intent has a payment |
| BankServer.Server.CreateRefund | src/repositories/refund.repository.js:3-5 | appends iff the id is free |
| BankServer.Server.UpdateStatus | src/repositories/payment.repository.js:19-21 | overwrites one payment's status |
| BankServer.Server.SumCompletedByPayment | src/repositories/refund.repository.js:7-13 | the sum of the COMPLETED refunds of one payment |
| StripeEvents.FindByIntent | src/repositories/payment.repository.js:15-17 | finds a payment with the intent iff there is one |
| Tokens.Server.FindRefreshTokenByHash | src/repositories/token.repository.js:13-15 | the row of a token iff there is one |
| Tokens.Server.RevokeRefreshToken | src/repositories/token.repository.js:17-19 | revokes one row and changes no other |
| Tokens.Server.RevokeAllUserRefreshTokens | src/repositories/token.repository.js:27-32 | no live row of the user is left; rows already revoked keep their time |
| Tokens.Server.DeleteExpiredRefreshTokens | src/repositories/token.repository.js:68-73 | exactly the rows neither revoked nor expired stay, unchanged; the others are counted |
| RefreshProtocol.ApiClient.UpdateSessionTokens | frontend/js/state.js:51-57 | overwrites the access token of a session that still exists, and the refresh token if the reply brings one |
| RefreshProtocol.ApiClient.RemoveSession | frontend/js/state.js:65-72 | the session is gone |
| RideServer.Server.ListOnlineIds | src/repositories/driver.repository.js:71-73 | exactly the online drivers, each once |
| RideServer.Server.ExpireListed | src/services/driver.service.js:76-83 | the loop over the listed drivers |
| RideServer.Server.CancelAndFree | src/services/ride.service.js:381-389 | the cancellation transaction: status and driver land as one durable step |
| RideServer.Server.CompleteAndPay | src/services/ride.service.js:348-357 | the completion transaction: status, availability and both statistics land as one durable step |
| RideServer.Server.CarryOutAccept | src/services/ride.service.js:267-274 | the conditional assignment, and the three writes that follow only if it hits |
| RideServer.Server.CarryOutCancel | src/services/ride.service.js:381-396 | the writes of a cancellation, in order |
| RideServer.Server.CarryOutStart | src/services/ride.service.js:326-333 | the writes of a start, in order |
| BankServer.Server.Move | src/services/wallet.service.js:94-101 | the balance update of either kind, by the two statements |
| BankServer.Server.DecideRefund | src/services/payment.service.js:254-270 | the checks of a refund: passes iff they all do, with the amount and the new status |
| BankServer.Server.CarryOutRefund | src/services/payment.service.js:297-328 | the transaction of either channel |
| BankServer.Server.Pay | src/services/payment.service.js:69-140 | the write of each method of payment: one new payment of the amount or nothing |

## Left out

- Express routes, controllers, middlewares, validators, API documentation and the Vue views. What validators guarantee (non-negative amounts, known enum values) is in the types.
- Stripe, Google, SMTP, BullMQ, Socket.IO, bcrypt and JWT: Stripe appears as a sequence of events, a given intent and whether a refund succeeded; an unconfigured Stripe, compensating cancellation of an intent, sockets, metrics, notifications and audit records do not appear.
- Postgres and Prisma: statements and array transactions are atomic, an updated row stays locked to the commit, unique keys wait for and then refuse a second row, rollback is complete.
- Floating point: fares, discounts and tolerances are exact reals over whole cents, and toFixed(2) rounds halves up. The rounding of binary fractions is not modelled.
- Distance, routes, fares and driver positions: distance is an abstract function of the pickup point and a fare is given. `updateLocation`, its plausibility check and the geo set of online drivers feed only notifications and are not modelled.
- Redis failures outside listNearby: the index theorems assume none, since a lost write leaves the set behind by design. The one-hour expiry of rejection sets is longer than a ride can wait and is not modelled.
- Timestamps taken by separate `new Date()` calls inside one call: at granularities B and C a call has one instant; at A each write takes the clock at that step. `otpVerifiedAt` and cancellation texts are dropped.
- Granularity A does not track the pending set, the status log or OTP counters, and takes whether the code matches as given; those belong to C.
- RideInterleaving.SweepIsSound: says nothing of the age of ARRIVED rides, because it is not guaranteed; RideRaces.ArrivedSweepIff says when it is.
- Refunds.RefundsNeverExceed: serial calls only, because overlapping ones can exceed; RefundRaces.OverlapExceedsIff says when.
- RefundRaces.OverlapExceedsIff: card refunds are one step here, because what Stripe does with overlapping requests is not part of this model.
- RideServer.Server.RequestRide: the route and the fare are given, and the offer to drivers nearby is left out, because both are foreign calls or notifications.
- RideServer.Server.RejectRide: does not model the one-hour expiry of the rejection set, because a ride never waits that long.
- RideServer.Server.GoOnline: does not write the position, the geo set of drivers and the heartbeat, because no modelled guard reads them.
- RideServer.Server.GoOffline: does not clear the geo set of drivers and the heartbeat, for the same reason.
- RideServer.Server.ExpireStaleHeartbeats: which heartbeat keys exist is given, and the geo set of drivers is left out.
- BankServer.Server.PayForRide: the PaymentIntent is given; its idempotency key and its cancellation after a failed insert are Stripe calls.
- RefreshProtocol.ApiClient.RemoveSession: does not switch the active user or write local storage, because there is one session.
- Coupon limits under concurrency: the code says they may be oversold. Coupon administration is not modelled.
- Access-token revocation markers, verification tokens and cookies.
- RefreshProtocol.ReuseIsNeverReached: one session in one tab, no refresh response lost, and no token of this client expiring or revoked elsewhere while it is in use; the account stays active.
- RedactionTrees.RedactMasksTree: fields named `__proto__`, getters, proxies and the reordering of integer-like keys are not modelled; an error's name, message and stack are strings.
- Deduplication.UniqueIff: assumes what the schema gives, distinct ids without a '#'.
- Ratings, saved locations, favourites, vehicles and their documents, pagination, reports, analytics, health and metrics.
