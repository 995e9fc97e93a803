# RailBook booking engine: a verified model

This project models the booking engine of RailBook, a train ticket service on PostgreSQL and
Redis, and proves what its concurrency design does and does not guarantee. It models:

- the four transactions `create_booking`, `pay_booking`, `refund_booking` and the cleanup
  pass, as atomic operations on the tables, as interleaved statements, and as methods on a
  session object;
- the mock payment gateway, whose memory is not rolled back;
- the seat map: the outer join, the counting loop and the Redis cache in front of them;
- the sliding-window rate limiter on a Redis sorted set;
- the administrator's aggregates and the two-user race of the demo.

`dafny verify dfyconfig.toml` checks everything.

## How the files fit together

| file | content |
|---|---|
| `Domain.dfy`, `AuditLog.dfy`, `Sets.dfy` | tables and values, the trail of one booking, sums and sizes of sets |
| `Serial.dfy` | each operation as a verdict followed by a write; `Consistent`, the facts about the tables; serial runs |
| `Columns.dfy` | what each operation answers and writes, told by the columns of the tables and plain numbers |
| `Consistency.dfy`, `Guarantees.dfy`, `SerialRuns.dfy`, `AdminStats.dfy` | every operation keeps the tables consistent; what that means for one state, for runs and for the aggregates |
| `Machine.dfy` | the statement machine: program counters, row locks, index entries, private writes, SKIP LOCKED, aborts anywhere |
| `MachineSafety.dfy`, `Refinement.dfy` | the machine's invariant; every interleaved run is a serial run in commit order |
| `OpenCreates.dfy`, `RunAlone.dfy` | how far open creates can always run, and that each request run alone reaches the result of its atomic operation |
| `Interleavings.dfy`, `RefundCalls.dfy`, `Journeys.dfy`, `WriteSkew.dfy`, `CleanupPass.dfy`, `HoldLifetime.dfy`, `Deadlock.dfy`, `Race.dfy`, `StatsReads.dfy` | results about interleaved runs |
| `Witnesses.dfy` | runs from empty tables in which the documentation's promises fail |
| `PaymentGateway.dfy`, `Sessions.dfy`, `BookingService.dfy`, `CleanupTask.dfy` | the imperative code, each handler proved equal to its atomic operation |
| `RateLimit.dfy`, `SeatMaps.dfy`, `SeatCache.dfy` | the limiter and the seat map with its cache |

Identifiers are integers, money is an integer number of hundredths, time is an integer on
one monotone clock. Generated identifiers, the gateway's random number, the clock readings and
whether Redis answers are parameters or nondeterministic choices. Each SQL statement is one
step that reads the tables committed at that moment. A step that would wait for a row lock
or for another transaction's uncommitted index entry is not enabled until the other
transaction ends. Reads of tables that never change are fused with the neighbouring statement.

## Where the code differs from its documentation

The model follows the code.

- **Re-booking.** `docs/architecture/CONCURRENCY.md:35-43` says that a cancelled or refunded
  seat can be booked again. The delete of the old row meets audit rows whose foreign key is
  NOT NULL and has no cascade, so the flush fails: `RetiredSeatStaysBlocked`, and
  `RetiredSeatFails` is a run in which it happens. A create succeeds exactly under the
  conditions of `CreateSucceedsExactly`.
- **Journey overlap.** `docs/architecture/CONCURRENCY.md:72-81` says that check and insert in
  one transaction leave no window. `OverlapSlipsThrough` is a run in which a user gets two
  overlapping journeys. `OverlapDecidesExactly` says which open creates can do so: exactly
  those of one user for overlapping schedules. `JourneysStayDisjoint` proves the rule for
  every user who has no such pair open, whatever other users do, and
  `CommitKeepsJourneysExactly` says of any one commit when it keeps the rule for its user.
- **Double booking.** `docs/architecture/CONCURRENCY.md:28-31` says that the second request
  blocks on its `SELECT FOR UPDATE` and then gets 409. With no row yet there is nothing to
  lock; the UNIQUE constraint decides. The loser gets 409 exactly when it still meets the
  winner's active row (`LoserCode`), and otherwise 500, as in the run `LoserGetsServerError`.
- **Payment retry.** The root `README.md:206` says that a retry returns the original result.
  After a settled payment the status guard answers 400 first: `PayRetryIsRefused`, and the run
  `PayRetryFails`. The early return is reached exactly when the key has paid for a different
  booking: `PayEarlyReturnExactly`, and the run `PayReturnsEarly`.
- **Failed payment.** `docs/architecture/CONCURRENCY.md:169` says that after a failed payment the booking
  is picked up by the next cleanup cycle. The code cancels it in the payment transaction, so no cleanup
  entry follows: `PaidNeverExpires`, and the run `DeclinedIsNotSwept`.
- **Rate limit.** The limiter stores request times, not requests. It bounds distinct times
  (`WindowBound`), so requests by the limit times the most that share a time
  (`RequestBoundPerTime`). It keeps every limit on requests exactly for clients that never
  send two at one time (`RequestsLimitedExactly`); any number of requests at one instant is allowed
  (`OneInstantCountsOnce`). The unit of its clock is arbitrary; the code uses fractions of a
  second.
- **Cache invalidation.** Deleting the key after a commit makes later answers fresh exactly
  when no reader that queried before the commit has yet to write (`DeleteSufficesExactly`). A
  slow reader can bring an old map back for almost five seconds (`DeleteLosesToSlowReader`),
  in which a booked seat is offered as free (`BookedSeatIsStillOffered`).
  The bound that always holds is `AnswersAreRecent`.

## Model

| member | source | states |
|---|---|---|
| Domain.OverlapIsIntersection | backend/app/bookings/service.py:64-73 | A schedule departs before it arrives exactly when, against every such schedule, the query's condition means that the half-open journeys share an instant |
| Consistency.HoldersAreExact | backend/app/models.py:93-107 | Under the UNIQUE constraints the lookups by key and by seat return the one row there is |
| Consistency.EveryBookingHasChildren | loadtest/verify_integrity.py:34-47 | Every booking has an audit row, so the schema never lets it be deleted |
| Consistency.CreateKeeps | backend/app/bookings/service.py:93-117 | The rows a create commits keep uniqueness, foreign keys, price, trail and payments in agreement |
| Consistency.PayKeeps | backend/app/bookings/service.py:153-215 | Status, payment row and both audit rows of a settled payment keep the tables consistent |
| Consistency.RefundKeeps | backend/app/bookings/service.py:256-269 | A refund keeps the tables consistent |
| Consistency.ExpireKeeps | backend/app/bookings/cleanup.py:23-37 | One turn of the cleanup loop keeps the tables consistent |
| Consistency.SweepEffect | backend/app/bookings/cleanup.py:22-37 | A pass cancels exactly the rows of its list, adds one entry to each of their trails and touches nothing else |
| Consistency.SweepKeeps | backend/app/bookings/cleanup.py:14-37 | A whole pass keeps the tables consistent |
| Consistency.CreatedMeansFree | backend/app/bookings/service.py:39-103 | A create that gets past its checks found the key unused, the seat without any row, valid ids and no overlap |
| Consistency.OpKeeps | backend/app/bookings/service.py:31-271 | Every atomic operation keeps the tables consistent with each other and with the gateway |
| Consistency.RunKeeps | backend/app/bookings/service.py:31-271 | Every state of every serial run is consistent |
| Guarantees.TrailReplays | backend/app/audit/service.py:8-28 | A booking's entries chain, start from nothing, end at its current status and form one of five stories |
| Guarantees.CreateSucceedsExactly | backend/app/bookings/service.py:39-103 | A create commits if and only if the key is unused, no row of any status holds the seat, the ids exist and its overlap query was empty; run on the tables, the query is empty if and only if no active booking of the user overlaps |
| Guarantees.RetiredSeatStaysBlocked | backend/app/bookings/service.py:87-91 | Booking a seat whose booking was cancelled or refunded ends in a server error and writes nothing |
| Guarantees.CreateIsIdempotent | backend/app/bookings/service.py:39-44 | A create with a known key returns its booking and writes nothing |
| Guarantees.PayEarlyReturnExactly | backend/app/bookings/service.py:146-151 | The early return is reached if and only if the key paid for another booking, and this one then stays unpaid |
| Guarantees.PayRetryIsRefused | backend/app/bookings/service.py:138-151 | Repeating a settled payment is refused with the status error |
| Guarantees.PaymentsMatchStatus | backend/app/bookings/service.py:170-213 | At most one payment per booking: none while reserved, one success of the full amount when confirmed or refunded, no success when cancelled, always with the gateway's outcome |
| Guarantees.PaidNeverExpires | backend/app/bookings/cleanup.py:17-37 | A booking with a payment row has no cleanup entry |
| Columns.OverlapQueryIsEmpty | backend/app/bookings/service.py:64-73 | The query finds nothing if and only if the user has no reserved or confirmed row on a schedule that departs before this one arrives and arrives after it departs |
| Columns.KnownKey | backend/app/bookings/service.py:40-44 | A key that has a booking is answered with that booking, with code 201 |
| Columns.LiveSeat | backend/app/bookings/service.py:52-57 | A seat with a reserved or confirmed row is refused with 409 |
| Columns.UnknownSchedule | backend/app/bookings/service.py:60-62 | An unknown schedule is refused with 404 |
| Columns.OverlappingJourney | backend/app/bookings/service.py:74-78 | One conflicting journey gives 409, two or more make the lookup raise |
| Columns.BrokenReference | backend/app/bookings/service.py:81-102 | An unknown seat is refused with 404; a retired row on the seat or an unknown user ends in a server error |
| Columns.CreateWrites | backend/app/bookings/service.py:93-117 | Otherwise one row is added: reserved for 300 seconds, at 1500.00 for an "ac" compartment and 800.00 for any other, with one audit entry |
| Columns.PayAnswers | backend/app/bookings/service.py:129-151 | Each refusal of pay if and only if its input: missing, another user's, not reserved, expiry strictly before now, key used; and when it settles |
| Columns.PayWrites | backend/app/bookings/service.py:153-215 | A settled pay writes status and stamp, one payment of the full amount and the attempt and outcome entries |
| Columns.HoldIsPayableForFiveMinutes | backend/app/bookings/service.py:98 | A hold made at t can be paid up to t + 300 and is expired from t + 301 |
| Columns.RefundAnswers | backend/app/bookings/service.py:226-246 | Each refusal of refund if and only if its input; it settles if and only if the row is the user's, confirmed, and departs at least 3600 seconds later |
| Columns.RefundWrites | backend/app/bookings/service.py:256-269 | A refund writes status and stamp and one audit entry |
| Columns.PassLists | backend/app/bookings/cleanup.py:17-21 | A pass lists only reserved rows with an expiry strictly before its cutoff, each once |
| Columns.PassWrites | backend/app/bookings/cleanup.py:22-37 | A pass cancels and stamps its rows and appends one entry for each, in their order, signed by the system user |
| Columns.TrailByStatus | backend/app/bookings/service.py:105-271 | The audit rows of a booking, entry by entry, for each status |
| SerialRuns.OpExtends | backend/app/bookings/service.py:31-271 | No operation removes a row, changes a settled fact or moves a status backwards |
| SerialRuns.RunExtends | backend/app/bookings/service.py:31-271 | Along a run bookings, payments, audit rows and gateway outcomes are permanent and every status only climbs |
| SerialRuns.StatusChangesAreRanked | backend/app/bookings/service.py:138-142 | A booking has changed status at most as often as the rank of its status, so at most twice |
| Interleavings.StatusOnlyClimbs | backend/app/bookings/service.py:138-142 | The same in every interleaved run |
| SerialRuns.PaidInTime | backend/app/bookings/service.py:143-144 | Every confirmed or refunded booking was settled by a pay that decided no later than its expiry |
| SerialRuns.SweptLate | backend/app/bookings/cleanup.py:17-21 | Every cleanup entry comes from a pass whose cutoff lies strictly after the expiry |
| SerialRuns.RefundedInTime | backend/app/bookings/service.py:242-246 | Every refunded booking comes from a refund that decided at least 3600 seconds before the departure |
| SerialRuns.CreateKeepsJourneysExactly | backend/app/bookings/service.py:64-78 | A committed create keeps its user's journeys disjoint if and only if the overlap query is empty in the state it commits to |
| SerialRuns.OpKeepsJourneys | backend/app/bookings/service.py:64-78 | An operation keeps a user's journeys disjoint unless it is a create of that user whose overlap query was out of date |
| SerialRuns.RunKeepsJourneys | backend/app/bookings/service.py:64-78 | In serial runs a user whose creates all had current overlap queries never has overlapping active journeys |
| AdminStats.RevenueIsSumOfTotals | backend/app/admin/service.py:12-14 | The sum over successful payments is the sum of the totals of confirmed and refunded bookings |
| AdminStats.StatsBalance | backend/app/admin/service.py:7-28 | In one state revenue is not reduced by refunds, and the status counts with the open reservations add up to the total |
| AdminStats.StatsInColumns | backend/app/admin/service.py:8-20 | The report counts the rows, and those confirmed, cancelled and refunded |
| StatsReads.ReportInColumns | backend/app/admin/service.py:8-20 | Each number of the report counts the rows of its status at the moment it was read |
| StatsReads.ReportedExactly | backend/app/admin/service.py:7-28 | Read by five statements in any run, the revenue is exact for its moment, and the status counts miss the total by exactly the bookings born between the reads, those refunded between them, counted twice, and those no read counts |
| StatsReads.StillReportBalances | backend/app/admin/service.py:7-28 | When nothing commits between the reads the report is that of one state and balances |
| Witnesses.RefundCountedTwice | backend/app/admin/service.py:7-28 | A run whose report counts one booking as confirmed and as refunded |
| AdminStats.AuditIsBounded | backend/app/models.py:143-158 | There are between one and four audit rows per booking |
| MachineSafety.CreateStatement | backend/app/bookings/service.py:39-103 | Each statement of a create before its commit keeps locks and index entries exclusive and what was read under them true |
| MachineSafety.PayStatement | backend/app/bookings/service.py:129-181 | The same for each statement of a pay, including the charge that is not rolled back |
| MachineSafety.RefundStatement | backend/app/bookings/service.py:226-257 | The same for each statement of a refund |
| MachineSafety.CleanStatement | backend/app/bookings/cleanup.py:16-22 | The same for the snapshot and for each visited row of a SKIP LOCKED scan |
| MachineSafety.KnowsAfterCommit | backend/app/bookings/service.py:46-51 | A commit changes nothing that another open transaction has read under its locks and index entries |
| MachineSafety.SuccessRefExists | backend/app/bookings/service.py:248-254 | The payment lookup of a refund finds exactly one row |
| MachineSafety.StepIsSafe | backend/app/bookings/service.py:31-271 | Every statement, abort, start and clock tick keeps the machine's invariant |
| MachineSafety.RunIsSafe | backend/app/bookings/service.py:31-271 | Every reachable state of every interleaving has consistent tables and no lock or index entry with two owners |
| Refinement.StatementRefines | backend/app/bookings/service.py:31-271 | A statement either changes nothing visible or is exactly one enabled atomic operation; it reports a write if and only if it commits one, with that operation's answer, and any other ending leaves the tables alone |
| Refinement.CreateRefusal | backend/app/bookings/service.py:39-103 | A create is refused only where the atomic create would be, and with its answer unless another request took the key or the seat in between |
| Refinement.PayRefusal | backend/app/bookings/service.py:129-151 | A pay is refused with exactly the answer of the atomic pay, or by the UNIQUE payment key when another pay took it after the lookup |
| Refinement.RefundRefusal | backend/app/bookings/service.py:226-254 | A refund is refused with exactly the answer of the atomic refund |
| Refinement.TimesAreRead | backend/app/bookings/service.py:98-207 | Hold start, decision times, payment and refund times are clock readings of the statements that take them |
| Refinement.PassIsDatedAtBegin | backend/app/bookings/cleanup.py:16-26 | The cutoff of a pass is the clock at the begin of its transaction |
| Refinement.RunIsSerial | backend/app/bookings/service.py:31-271 | Every interleaved run, with aborts anywhere, is a serial run in commit order that ends in the same tables, gateway and clock |
| Refinement.RunOnlyExtends | backend/app/bookings/service.py:31-271 | Nothing that a run has committed or charged is undone later |
| RunAlone.CreateRunsAlone | backend/app/bookings/service.py:31-119 | From every state at rest the statements of a create lead to the tables and the answer of the atomic create |
| RunAlone.PayRunsAlone | backend/app/bookings/service.py:122-217 | The same for a pay, with any decision that the gateway may take |
| RunAlone.RefundRunsAlone | backend/app/bookings/service.py:220-271 | The same for a refund |
| RunAlone.PassRunsAlone | backend/app/bookings/cleanup.py:14-37 | A pass that runs alone sweeps exactly the stale rows, each once |
| Deadlock.ChainsClimb | backend/app/bookings/service.py:46-51 | Along a chain of waits the lock stage strictly climbs |
| Deadlock.NoWaitCycle | backend/app/bookings/cleanup.py:17-21 | Waits never form a cycle, and a cleanup pass never waits |
| Deadlock.SomeoneCanRun | backend/app/bookings/service.py:129-132 | While a transaction is open, some open transaction can run its next statement |
| Deadlock.EachStatementAdvances | backend/app/bookings/service.py:31-271 | Every statement strictly shortens what its transaction has left to run |
| Deadlock.EveryoneCanEnd | backend/app/bookings/service.py:31-271 | From every safe state, whatever is open and whoever waits, statements alone lead to a state in which every transaction has ended |
| Interleavings.EveryStateBalances | backend/app/bookings/service.py:105-271 | In every state of every run trail, status, stamps, payments and revenue of each booking agree |
| Interleavings.RowsAreUnique | backend/app/models.py:93-107 | In every state of every run no two rows share a key, or a seat of a schedule |
| Interleavings.RowsAndPaymentsFit | backend/app/bookings/service.py:170-213 | In every state of every run each row refers to what exists, has the price of its compartment, and its payments fit its status, amount and the gateway's outcome |
| Interleavings.RowsKeepTheirFacts | backend/app/bookings/service.py:93-101 | Along every run user, schedule, seat, key, expiry and total of a booking stay, cancelled and refunded are final, and confirmed leads to refunded only |
| Interleavings.KeyIsAnsweredForever | backend/app/bookings/service.py:39-44 | After a create with a key has committed, every later create with it answers that booking and changes nothing |
| Interleavings.NoKeyOrSeatCommitsTwice | backend/app/models.py:93-107 | Over a whole run no key and no seat of a schedule is committed twice |
| Interleavings.ChargeIsDecidedOnce | backend/app/payments/gateway.py:27-36 | The gateway's decision for a key never changes, and every payment row of the key carries it |
| Interleavings.RetrySettlesWithFirstDecision | backend/app/bookings/service.py:146-217 | A retry after a lost commit settles the booking by the first decision |
| Interleavings.PayAndCleanupExclude | backend/app/bookings/service.py:129-145 | No booking has both a cleanup entry and a payment; pays decided in time, passes strictly late |
| Interleavings.RefundIsBackedByCall | backend/app/bookings/service.py:248-257 | A refund at its commit has one successful payment, whose reference is among the refund calls; `RefundsAreCalled` counts the calls |
| Interleavings.RefundsAreInTime | backend/app/bookings/service.py:242-246 | In every run each refunded booking was refunded by a refund that decided at least 3600 seconds before its departure |
| RefundCalls.RefundsAreCalled | backend/app/bookings/service.py:248-257 | For every reference the gateway has received at least as many refund calls as there are refunded bookings that were paid with it |
| RefundCalls.RefundedHasRef | backend/app/bookings/service.py:248-254 | Every refunded booking is counted there, under the reference of its one successful payment |
| RefundCalls.RefundedRowsAreCalled | backend/app/bookings/service.py:248-257 | Any set of refunded rows paid with one reference is no larger than the number of refund calls with it |
| Journeys.HitsOnlyJoinByCreate | backend/app/bookings/service.py:64-73 | Only a create by the same user for an overlapping schedule adds to the answer of an overlap query |
| Journeys.RunSeesCurrent | backend/app/bookings/service.py:64-78 | For a user who never has two creates open for overlapping journeys, the serial run has every overlap query of that user current at its commit |
| Journeys.JourneysStayDisjoint | backend/app/bookings/service.py:59-78 | A user who never has two creates open for overlapping journeys never has overlapping active journeys, with every other request of every user interleaved freely |
| Journeys.EveryonesJourneysStayDisjoint | backend/app/bookings/service.py:59-78 | When that holds of all users, so does the rule |
| Journeys.JourneysNeverMeet | backend/app/bookings/service.py:59-78 | In the columns: no two reserved or confirmed rows of such a user are on schedules that overlap or share an instant |
| Journeys.CommitKeepsJourneysExactly | backend/app/bookings/service.py:59-117 | In any run, a commit keeps its user's journeys disjoint if and only if no overlapping booking of the user was committed since the check and is still active |
| WriteSkew.OverlapDecidesExactly | backend/app/bookings/service.py:59-117 | Two valid open creates leave the journeys of their users disjoint in every continuation, with any requests of other users, pays, refunds, passes and aborts, if and only if they are not of one user for overlapping schedules |
| OpenCreates.RunUpTo | backend/app/bookings/service.py:39-103 | Whatever else is open, a valid create whose key and seat nobody else is inserting can run up to its commit |
| Witnesses.OverlapSlipsThrough | backend/app/bookings/service.py:59-117 | A run from empty tables in which two creates of one user commit and the journeys overlap |
| Witnesses.LoserGetsServerError | backend/app/demo/service.py:50-56 | A run from empty tables in which the loser of a race for a seat gets 500 |
| Witnesses.RetiredSeatFails | backend/app/bookings/service.py:87-91 | A run from empty tables in which a hold expires, a pass cancels it, and the next create for the seat ends in a server error |
| Witnesses.PayRetryFails | backend/app/bookings/service.py:138-151 | A run in which a settled payment is retried with its key and refused with the status error |
| Witnesses.PayReturnsEarly | backend/app/bookings/service.py:146-151 | A run in which a key that has paid one booking is answered with success for another, which stays unpaid |
| Witnesses.DeclinedIsNotSwept | backend/app/bookings/service.py:193-213 | A run in which a declined payment cancels the booking and the pass after its expiry adds no cleanup entry |
| Race.PickWinner | backend/app/demo/service.py:73-77 | The label goes to the only request with code 201 |
| Race.RaceStatement | backend/app/bookings/service.py:46-103 | Until a racer commits, both stay in the race and neither has failed |
| Race.LostStatement | backend/app/bookings/service.py:46-103 | After the rival's commit a statement of the other racer leads nowhere but to 409, when it meets the rival's active row, or 500 |
| Race.OpLeavesAlone | backend/app/bookings/service.py:46-78 | Pays, refunds, passes and creates for other seats, keys and journeys leave the racers' lookups as they were |
| Race.RaceHasOneWinner | backend/app/demo/service.py:59-79 | Among any pays, refunds, passes, aborts of others and creates elsewhere, two racers that finish get exactly one 201 and the matching label, and the seat's row is the booking that racer reported, for its user; the loser gets 409 or 500 |
| Race.LoserCode | backend/app/demo/service.py:50-56 | The loser gets 409 if and only if, after the winner's commit, its seat lock (or, as the same user, its overlap query) found the winner's row reserved or confirmed |
| Race.LoserCodeAtCommit | backend/app/demo/service.py:50-56 | While that row stays active, the code is decided by whether that lock or query was still to come at the winner's commit |
| CleanupPass.PassIsComplete | backend/app/bookings/cleanup.py:14-37 | A row with an expiry before the cutoff at the scan and still reserved after the pass was held by another transaction when the pass visited it |
| CleanupPass.CommitOfPass | backend/app/bookings/cleanup.py:22-37 | A committing pass cancels exactly the rows it locked, all reserved with an expiry before its cutoff, and adds one entry to each |
| CleanupPass.PassSparesLockedRows | backend/app/bookings/cleanup.py:17-21 | A pass never changes a row that another transaction holds |
| HoldLifetime.PassEndsHold | backend/app/bookings/cleanup.py:14-37 | In any interleaving, a row in the snapshot of a pass that did not find it locked is never again reserved past the cutoff of that pass once the pass has committed |
| HoldLifetime.HoldsEndInTime | backend/app/bookings/cleanup.py:12-42 | In any interleaving with a pass in every period that does not find the booking locked, it is reserved no longer than a period after its expiry, or after its commit if that came later |
| HoldLifetime.PromptHoldsEndInTime | loadtest/verify_integrity.py:50-63 | A reservation whose create commits within its hold outlives its expiry by no more than the period between passes that do not find it locked |
| PaymentGateway.MockPaymentGateway.constructor | backend/app/payments/gateway.py:22-25 | A new gateway remembers nothing |
| PaymentGateway.MockPaymentGateway.ChargeCard | backend/app/payments/gateway.py:27-36 | A known key returns its first outcome unchanged; a new key is decided by the random number and remembered |
| PaymentGateway.MockPaymentGateway.RefundCharge | backend/app/payments/gateway.py:38-40 | A refund call is recorded and changes no outcome |
| Sessions.Session.LogAudit | backend/app/audit/service.py:8-28 | The entry is appended to the pending writes of the transaction |
| Sessions.Session.DeleteBooking | backend/app/bookings/service.py:89-91 | The flushed delete succeeds exactly when no child row refers to the booking |
| Sessions.Session.InsertBooking | backend/app/models.py:92-107 | The flushed insert succeeds exactly when id, key and seat are unused and the foreign keys exist |
| Sessions.Session.Commit | backend/app/bookings/service.py:117 | All pending writes become the committed tables, or all are lost when the commit fails |
| Sessions.Session.Rollback | backend/app/database.py:16-18 | An abandoned session leaves the committed tables as they were |
| BookingService.FindByKey | backend/app/bookings/service.py:40-43 | The lookup finds the row of the key |
| BookingService.LockSeat | backend/app/bookings/service.py:47-52 | The lookup finds the row of the seat |
| BookingService.CreateBooking | backend/app/bookings/service.py:31-119 | Run alone, the handler commits and answers exactly what the atomic create does; a used id is a server error, and a lost commit leaves the tables alone |
| BookingService.PayBooking | backend/app/bookings/service.py:122-217 | Run alone, the handler is the atomic pay, and calls the gateway only when all checks passed; when the commit is lost the tables are as before and the gateway keeps its decision |
| BookingService.RefundBooking | backend/app/bookings/service.py:220-271 | Run alone, the handler is the atomic refund, with one gateway call for the successful payment, which a lost commit does not take back |
| CleanupTask.SelectExpired | backend/app/bookings/cleanup.py:17-22 | The scan returns each unlocked reserved row whose expiry lies before the cutoff once |
| CleanupTask.CleanupPass | backend/app/bookings/cleanup.py:14-37 | The loop over the scanned rows is the atomic sweep of exactly the unlocked reserved rows whose expiry lies before the cutoff, or nothing when the commit is lost |
| RateLimit.Redis.Touch | backend/app/ratelimit/limiter.py:26 | A key whose expiry has come is gone at its next use |
| RateLimit.Redis.ZRemRangeByScore | backend/app/ratelimit/limiter.py:23 | Scores in the closed range are removed |
| RateLimit.Redis.ZAdd | backend/app/ratelimit/limiter.py:24 | The time is a member once |
| RateLimit.Redis.Execute | backend/app/ratelimit/limiter.py:22-27 | The pipeline is one atomic step of the key's store and returns the count after trimming and adding; other keys stay as they were |
| RateLimit.RateLimiter.Check | backend/app/ratelimit/limiter.py:19-34 | One call is one atomic step of its own key's store; it is allowed if and only if the store then holds no more than limit times, with the rest of the limit remaining, and otherwise refused for a window; without Redis it is allowed |
| RateLimit.OneMoreCall | backend/app/ratelimit/limiter.py:22-26 | From a store that holds what is recent, a call makes the store of the longer history |
| RateLimit.StoreIsRecent | backend/app/ratelimit/limiter.py:19-27 | The trimmed and expiring set holds exactly the distinct request times of the last window |
| RateLimit.AnswersFromHistory | backend/app/ratelimit/limiter.py:27-31 | Every answer is the one the full history gives |
| RateLimit.AnswerInNumbers | backend/app/ratelimit/limiter.py:27-31 | A request is allowed if and only if no more than limit distinct request times lie less than a window back; remaining and retry time in numbers |
| RateLimit.SecondRequestIsAllowed | backend/app/ratelimit/dependencies.py:22-26 | With five requests in sixty seconds, the second of two at 0 and 10 is allowed with three remaining |
| RateLimit.WindowBound | backend/app/ratelimit/limiter.py:29-31 | No window holds allowed requests at more than limit distinct times |
| RateLimit.RequestBoundPerTime | backend/app/ratelimit/dependencies.py:22-26 | When no time carries more than m requests, no window holds more than m times the limit of allowed requests |
| RateLimit.RequestBound | backend/app/ratelimit/dependencies.py:22-26 | With distinct request times no window holds more than limit allowed requests |
| RateLimit.RequestsLimitedExactly | backend/app/ratelimit/limiter.py:24-31 | Every limit holds in every window for the number of allowed requests if and only if no two requests of the client have one time |
| RateLimit.OneInstantCountsOnce | backend/app/ratelimit/limiter.py:24-25 | Any number of requests at one instant are all allowed |
| RateLimit.SilenceIsForgiven | backend/app/ratelimit/limiter.py:29-31 | A client that is silent for the announced time is allowed next |
| RateLimit.PollingStaysBlocked | backend/app/ratelimit/limiter.py:22-31 | A client that keeps asking faster than the limit stays blocked for good |
| SeatMaps.BuildSeatMap | backend/app/trains/service.py:70-91 | The loop returns a map with each seat of the train once, in order, with its status, and the exact number of free seats |
| SeatMaps.OneRowPerSeat | backend/app/trains/service.py:57-64 | Seat uniqueness gives the outer join one row per seat |
| SeatMaps.SeatsCounted | backend/app/trains/service.py:48-83 | Rows without a booking are the train's seats less those reserved or confirmed on the schedule |
| SeatMaps.MapIsExact | backend/app/trains/service.py:85-91 | The collected payload shows the tables exactly |
| SeatMaps.MapListsTheTrain | backend/app/trains/service.py:48-91 | In the columns: the map has exactly the seats of the schedule's train, each once, with its columns, by compartment name and number |
| SeatMaps.MapShowsStatuses | backend/app/trains/service.py:57-64 | An entry is free if and only if no reserved or confirmed row holds its seat on the schedule, and otherwise shows that row's status |
| SeatMaps.MapCountsFreeSeats | backend/app/trains/service.py:70-83 | The available seats are the train's seats that no such row holds |
| SeatMaps.AtMostIsLexicographic | backend/app/trains/service.py:67 | Names are ordered by the first character in which they differ |
| SeatCache.Cache.Set | backend/app/trains/service.py:94-98 | An entry lives for five seconds |
| SeatCache.Cache.Invalidate | backend/app/bookings/service.py:15-24 | The delete removes the schedule's entry, or nothing when Redis is down |
| SeatCache.GetSeatAvailability | backend/app/trains/service.py:26-100 | The handler returns a fresh entry, or an exact map that it stores, or nothing for an unknown schedule |
| SeatCache.StepIsSound | backend/app/trains/service.py:31-98 | Every step of readers, commits and deletes keeps cache and answers true to a committed state |
| SeatCache.AnswersAreRecent | backend/app/trains/service.py:31-98 | Under any interleaving and failure an answer equals a state committed less than five seconds plus a reader's query-to-write time ago |
| SeatCache.DeleteSufficesExactly | backend/app/bookings/service.py:15-24 | After a delete, every reader that starts later is answered from the version then current or a later one in every continuation, if and only if no reader that queried an earlier version has yet to write |
| SeatCache.DeleteLosesToSlowReader | backend/app/bookings/service.py:117-118 | A slow reader can write an old map after the delete that follows a commit; for almost five seconds a reader that starts then gets a map that does not show the committed tables |
| SeatCache.CreateSpoilsMaps | backend/app/bookings/service.py:93-118 | A create that commits makes every exact map of the tables before it wrong |
| SeatCache.BookedSeatIsStillOffered | backend/app/bookings/service.py:117-118 | So for almost five seconds after a booking's commit and delete a new reader can be offered its seat as free |

## Left out

- Accounts, tokens, admin checks, HTTP routers, response schemas and `enrich_booking`: plumbing around the modelled operations.
- Frontend, load generator, migrations and seed data: the immutable tables are arbitrary.
- `get_occupancy`: it divides by a fixed 50 seats and the code does not tie a booked seat to the schedule's train.
- `list_user_bookings`, `get_booking`, `list_trains` and `list_schedules`: plain queries that would only add easy members.
- The rows an audit entry carries as metadata and address, the `reserved_at` and `created_at` defaults, and the text of a refusal.
- Gateway restarts: its in-process map is taken to outlive database aborts. A charge whose commit is lost and whose hold then expires stays charged; the code promises nothing there.
- Gateway refunds are calls without a key, so an aborted refund may have called the gateway and a retry may call it again; `RefundIsBackedByCall` speaks of committed refunds only.
- A row lock request on an existing row is one step that waits, so the snapshot a waiting statement started from is not kept; booking rows are never deleted, which makes the two the same.
- A booking that a create commits after the snapshot of a pass is not part of that pass, even when its hold has already run out.
- The endless loop and the sleep of the cleanup task: one pass is a method, and runs contain any number of passes.
- GetSeatAvailability: takes the rows of the SQL query as a parameter that satisfies the join, the filter and the order; seats of equal compartment name and number may come in any order. Names are compared by character code, whatever the collation of the database.
- Check: the history results take Redis as reachable throughout; one call without Redis is covered by its contract.
- StatsBalance: speaks of one committed state, because over five statements the balance can fail; `ReportedExactly` says by how much.
- Floating-point time and Redis server time: one integer clock stands for all.
