# Verification of the booking backend

This project models the stateful core of the trucking backend in Dafny and proves what that core
relies on. `dafny verify dfyconfig.toml` checks all of it.

- **Booking allocation.** A booking is offered to a few drivers and the first to accept wins, while
  rejections, disconnects and a 60 s timeout job race with acceptance. `Allocation.dfy` specifies the
  handlers as functions on the booking table, the Redis keys with their expiry times and the job
  queue, and proves the invariants of their runs; `AllocationSafety.dfy` draws the conclusions,
  `AllocationEffects.dfy` says key by key what each handler does and answers;
  `AllocationService.dfy` holds the services as classes, statement by statement, each method proved
  to have the specified net effect. `AllocationRace.dfy` is a second model of the same protocol in
  which every single await is a step and any number of handlers interleave.
- **Vehicle and driver matching.** `Transport.dfy` (compatibility table, strategies, score
  arithmetic, `validateVehicle`), `Logistics.dfy` (best match and suggestions), `Matching.dfy`
  (search, vehicle check, 70/30 ranking), `StableSort.dfy` (what `sort` and `slice` promise).
- **Sessions.** `Sessions.dfy` (the table operations and what whole runs guarantee) and
  `SessionService.dfy` (AuthService and the hourly clean-up job as classes).
- **Call signalling.** `AudioCalls.dfy`: call ids, handlers on mutable sessions, candidate logs.
- **Earnings and media URLs.** `Earnings.dfy`, `CloudinaryUrl.dfy`.

Conventions. Times are milliseconds. A Redis key whose time has come is gone, so the clock drops it.
What the database, Redis geo search, JWT verification or a failing call would answer is a parameter:
`Fleet` for the driver and vehicle lookups, `claim` for the verified token, a fault for the call that
throws. A run is *orderly* for a booking when the queued timeout job of that booking runs less than
300 s after its dispatch and no acceptance of it dies between saving the row and writing the Redis
status; `CutAcceptanceSurvivesExactly` and `LostStatusWriteIsCancelled` show what either condition is
for, and only timeout safety needs them both.
A run of the interleaved model is *timely* when every attempt gets from its lock to its save or unlock
within the 30 s of the lock; `LockLifeIsExact` shows that this bound is sharp.

The one-statement methods of `BookingStateService` that have no row below (the getters and setters
of single keys) are there for their callers.

Where the code departs from its own comments, the model follows the code: the cargo path of
`findMatchingDrivers` ignores its limit; an acceptance that finds the booking no longer PENDING keeps
the lock until it expires; a tipper is listed for packaged goods but its strategy takes them only when
they must be dumped; a bus is held both to kilograms and to seats with one capacity number; `FLATBED`
has a strategy but no table entry, so validation always refuses it; a booking without cargo
requirements is offered to drivers without a vehicle, whom the acceptance then refuses.

## Model

| member | source | states |
|---|---|---|
| `AllocationRace.SingleWinner` | src/resources/bookings/booking-allocation.service.ts:325-473 | However acceptance attempts, rejections, disconnects, timeouts, crashes and expiring keys interleave await by await, if every attempt gets from lock to save (or unlock) within 30 s, the booking is saved as ACCEPTED at most once, at most one attempt reports success, and it is the one that saved |
| `AllocationRace.WinnersAreEntitled` | src/resources/bookings/booking-allocation.service.ts:297-403 | In every interleaving, timely or not: each ACCEPTED save is that of an attempt whose user was on the pending set at an earlier step, for a driver and with a vehicle that lookups of this attempt answered, and the vehicle suits, holds and is equipped for the cargo of the booking; the cargo of the row never changes |
| `AllocationRace.CancelsAreEntitled` | src/resources/bookings/booking-allocation.service.ts:479-500 | In every interleaving a handler reads the status only as a job just started, or as a rejection or disconnect whose last move found the pending set empty; it removes a user only as that user disconnecting or after it found the user pending |
| `AllocationRace.WhoLeavesPending` | src/resources/bookings/booking-state.service.ts:36-47 | No step adds to the pending set; a step takes out one user, by a rejection or disconnect, or all, by expiry, after a success or after a cancellation |
| `AllocationRace.HowAttemptsEnd` | src/resources/bookings/booking-allocation.service.ts:458-472 | Success is told only after the own save and with pending set, status and lock gone; a failed attempt gives the lock up unless that call throws or the booking was decided |
| `AllocationRace.RaceKeepsInv` | src/resources/bookings/booking-allocation.service.ts:325-403 | The inductive invariant over every timely interleaving: while the row is PENDING whoever is in the lock section owns the lock, at most one attempt has read the row as PENDING, none has once somebody saved |
| `AllocationRace.RaceStepKeepsInv` | src/resources/bookings/booking-state.service.ts:89-102 | Each single await step keeps that invariant, though timeouts delete the lock mid-section and failures unlock unconditionally |
| `AllocationRace.LockLifeIsExact` | src/resources/bookings/booking-state.service.ts:89-94 | The time limit is exact: with a pause dt on the brink of the save there is one winner if and only if dt < 30 s; otherwise both attempts save and both report success |
| `AllocationRace.AcceptanceSurvivesExactly` | src/resources/bookings/booking-allocation.service.ts:512-536 | Over every timely interleaving: a booking ACCEPTED after n steps is ACCEPTED at the end, its row unchanged, if and only if no timeout, rejection or disconnect handler read the status, at whatever step, while no write of ACCEPTED by the winner was standing, and had its next two calls go through, the second after step n; otherwise it ends CANCELLED |
| `AllocationRace.SurvivesUnlessCancelled` | src/resources/bookings/booking-allocation.service.ts:512-536 | The lemma under it: the row changes only by a save of CANCELLED, for good, by a handler that had found another status |
| `AllocationRace.GuardSeesAcceptedExactly` | src/resources/bookings/booking-allocation.service.ts:513-522 | That status read finds ACCEPTED if and only if the winner has written it and since then the key has not expired, been cleared by the success or a timeout, or been overwritten; so handlers pass the guard before that write or after one of these |
| `AllocationRace.GuardedRowSurvives` | src/resources/bookings/booking-allocation.service.ts:512-536 | If no handler is past its status read and every later status read finds ACCEPTED, a saved row never changes again |
| `AllocationRace.TimeoutCanUndoAcceptance` | src/resources/bookings/booking-allocation.service.ts:276-286 | A timely run, with the status written at dispatch and the job fired 60 s later, in which the timeout passes the guard before the status write of the winner and saves CANCELLED after the success |
| `AllocationRace.RejectionCanUndoAcceptance` | src/resources/bookings/booking-allocation.service.ts:488-500 | A timely run in which a rejection makes all its reads after the success has cleared the keys, takes itself for the last one and saves CANCELLED over the ACCEPTED row |
| `AllocationSafety.TimeoutSafety` | src/resources/bookings/booking-allocation.service.ts:512-536 | Over all runs from the empty system that are orderly for a booking, whatever befalls the others: decided (ACCEPTED or CANCELLED) at one moment, it has the same row at every later one; no job, last rejection or disconnect cancels it once accepted |
| `AllocationSafety.DecidedRowsAreFrozen` | src/resources/bookings/booking-allocation.service.ts:495-522 | The same from any state of the invariants: status, driver and vehicle of a decided row never change, with conditions on its own job and replies alone |
| `AllocationSafety.CutAcceptanceSurvivesExactly` | src/resources/bookings/booking-allocation.service.ts:403-410 | An acceptance that dies after its status write and leaves its job queued survives that job if and only if the job runs less than 300 s after the write |
| `AllocationSafety.LostStatusWriteIsCancelled` | src/resources/bookings/booking-allocation.service.ts:402-410 | An acceptance that dies between saving the row and writing the status is cancelled by the queued job whenever that runs |
| `AllocationSafety.NoStuckBooking` | src/resources/bookings/booking-allocation.service.ts:276-286 | In every run, with any fault of the acceptance handler and of other dispatches: a booking dispatched whole, whose own job is in time, has, while PENDING, a driver left to answer and a queued job, and is decided within 300 s of its dispatch |
| `AllocationSafety.CutDispatchStrands` | src/resources/bookings/bookings.service.ts:50-100 | A booking without matching drivers, or whose dispatch threw before its job was queued, is never timed out: what its drivers have not decided within 300 s is PENDING, with nobody to answer and no job, in every later run |
| `AllocationSafety.StuckExactly` | src/resources/bookings/bookings.service.ts:50-100 | Left alone for 300 s or more and then given to the queue worker, a new booking is still PENDING, and for good, if and only if it was not dispatched whole to somebody |
| `AllocationSafety.OrphansStay` | src/resources/bookings/bookings.service.ts:92-100 | Once PENDING without pending driver and job, a booking is so in every later run, whatever happens |
| `AllocationSafety.RejectionMakesProgress` | src/resources/bookings/booking-allocation.service.ts:479-507 | In every reachable state of any run an acting rejection strictly shrinks the pending set of its booking and of no other; the one that empties it takes the booking out of PENDING |
| `AllocationSafety.DisconnectMakesProgress` | src/resources/websockets/booking.gateway.ts:144-180 | In every reachable state of any run an acting disconnect removes the driver from the pending set of the booking it had pending and from no other; emptying it takes the booking out of PENDING |
| `AllocationSafety.IndexAgreement` | src/resources/bookings/booking-state.service.ts:107-155 | In every reachable state of any run a driver's pending request names a booking whose pending set holds the driver; pending drivers were contacted, unless the dispatch died between the two writes |
| `AllocationSafety.ContactsRecordedExactly` | src/resources/bookings/booking-allocation.service.ts:221-222 | After a dispatch its pending drivers are among the contacted if and only if it did not die between the two writes |
| `AllocationSafety.WinnerWasContacted` | src/resources/bookings/booking-allocation.service.ts:426-458 | Whoever is answered with success was contacted (same proviso); afterwards no job, lock, pending set or driver request for the booking is left |
| `AllocationSafety.AcceptedBookingsOfRuns` | src/resources/bookings/booking-allocation.service.ts:375-403 | Every ACCEPTED row of every run, also one left by an acceptance that died after its save, stems from a creation event of the run and a later reply that found the booking PENDING and its driver pending and (same proviso) contacted; the row has that driver and the vehicle of that driver, and the vehicle suits, holds and is equipped for the cargo of the creation event |
| `AllocationSafety.CargoIsKept` | src/resources/bookings/bookings.service.ts:44-50 | A booking is saved PENDING, unassigned and with the cargo it is created with, whatever becomes of its dispatch, and has that cargo in every later run |
| `AllocationSafety.AcceptedBookingsAreJustified` | src/resources/bookings/booking-allocation.service.ts:375-403 | The same for runs from any state, for rows that were not there already: the state in which the reply acted is named |
| `AllocationSafety.MatchedDriverRefusedExactly` | src/resources/bookings/booking-allocation.service.ts:105-174 | A matched driver whose vehicle is unchanged is refused on vehicle grounds if and only if the booking has no cargo requirements and the driver no vehicle |
| `AllocationSafety.MatchedDriverCanAccept` | src/resources/bookings/booking-allocation.service.ts:297-403 | In every run, orderly or not: while a booking with cargo is PENDING, any matched driver still in its pending set succeeds in accepting it if and only if it is not locked, and the row gets the very vehicle matched; otherwise nothing changes |
| `AllocationSafety.PendingLockIsALostUnlock` | src/resources/bookings/booking-allocation.service.ts:469-472 | In every run a PENDING booking is locked between handlers only after an acceptance whose unlock threw, less than 30 s before |
| `AllocationEffects.AnswersToAcceptance` | src/resources/bookings/booking-allocation.service.ts:297-388 | What an accepting driver is told, by the first check that applies in any reachable state: not pending, locked, no driver, decided, no vehicle, vehicle that does not carry the cargo, or success with the row; a refusal changes nothing, but a decided booking is locked for 30 s |
| `AllocationEffects.SuccessEffects` | src/resources/bookings/booking-allocation.service.ts:390-458 | Key by key, what a success leaves: the reported row, no pending set, status, lock or job of the booking, no request of its drivers, everything else as it was |
| `AllocationEffects.CutEffects` | src/resources/bookings/booking-allocation.service.ts:402-472 | Key by key, what a failed acceptance leaves, by the point where it failed: nothing, the row, or the row with ACCEPTED for 300 s, some requests gone and perhaps the job; the lock only if the unlock throws |
| `AllocationEffects.RejectionEffects` | src/resources/bookings/booking-allocation.service.ts:479-507 | Key by key: the driver leaves the pending set and loses its request; the last one cancels the booking and clears its keys unless Redis says ACCEPTED; nothing at all for a driver not pending |
| `AllocationEffects.DisconnectIsRejection` | src/resources/websockets/booking.gateway.ts:144-180 | A disconnect is the rejection of the request the driver has pending, and nothing without one |
| `AllocationEffects.JobEffects` | src/resources/bookings/booking-allocation.service.ts:512-575 | Key by key: a due job leaves the queue and, unless Redis says ACCEPTED, cancels the booking with its driver, vehicle and cargo kept and clears its keys and the requests of its drivers |
| `AllocationEffects.WholeDispatch` | src/resources/bookings/booking-allocation.service.ts:208-291 | Key by key: pending set, status and requests for 300 s, contacted set for 24 hours, job in 60 s; no other booking is touched |
| `AllocationEffects.CutDispatch` | src/resources/bookings/bookings.service.ts:50-100 | Key by key, what a dispatch leaves that is cut short or finds nobody: the row, and the writes before the cut, never the job |
| `AllocationEffects.CutRequests` | src/resources/bookings/booking-allocation.service.ts:234-240 | The requests it leaves: those of the drivers reached name the booking, all others stay |
| `AllocationEffects.TimeDropsExpiredKeys` | src/resources/bookings/booking-state.service.ts:71-71 | Exactly the keys whose time has come go when time passes |
| `Allocation.RunKeepsInv` | src/resources/bookings/booking-allocation.service.ts:208-575 | Every run, with cut dispatches, cut acceptances and throwing unlocks, keeps rows, keys and jobs in agreement: nothing for unknown bookings, Redis says ACCEPTED only of ACCEPTED rows, locks are alive |
| `Allocation.RunKeepsGuard` | src/resources/bookings/booking-allocation.service.ts:405-522 | A run orderly for b keeps b guarded: while its pending set lives or its job may run, b is PENDING or Redis says ACCEPTED at least that long |
| `Allocation.StepKeepsInv` | src/resources/bookings/booking-allocation.service.ts:208-575 | Each handler under any fault, the clock and the job queue keep the agreement |
| `Allocation.StepKeepsGuard` | src/resources/bookings/booking-allocation.service.ts:208-575 | Each of them keeps the guard of b when the job of b is in time and no acceptance of b loses its status write |
| `Allocation.RunKeepsIndex` | src/resources/bookings/booking-state.service.ts:21-39 | All runs, orderly or not, keep the reverse index in agreement with the pending sets, expiry times included |
| `Allocation.AcceptKeepsIndex` | src/resources/bookings/booking-allocation.service.ts:412-458 | Acceptance keeps the index, wherever it is cut short |
| `Allocation.TimeoutKeepsIndex` | src/resources/bookings/booking-allocation.service.ts:554-572 | A timeout keeps the index |
| `Allocation.CreateKeepsIndex` | src/resources/bookings/booking-allocation.service.ts:218-240 | A dispatch keeps the index, wherever it is cut short, even for drivers that hold several offers |
| `Allocation.RunKeepsContacted` | src/resources/bookings/booking-allocation.service.ts:218-222 | A run in which no dispatch of b dies between the two writes keeps its pending set inside the contacted set, which outlives it |
| `AllocationService.BookingStateService.SetPendingDrivers` | src/resources/bookings/booking-state.service.ts:21-31 | Adds the drivers to the live pending set and restarts its 300 s; nothing for no drivers |
| `AllocationService.BookingStateService.RemoveDriver` | src/resources/bookings/booking-state.service.ts:36-39 | Takes one driver out; a set that becomes empty is gone; the expiry time stays |
| `AllocationService.BookingStateService.GetPendingDrivers` | src/resources/bookings/booking-state.service.ts:44-47 | Lists each member of the pending set once |
| `AllocationService.BookingStateService.StoreContactedDrivers` | src/resources/bookings/booking-state.service.ts:146-155 | Adds to the contacted set and restarts its 24 h |
| `AllocationService.BookingStateService.PassTime` | src/resources/bookings/booking-state.service.ts:71-71 | Keys whose time has come disappear, and no others |
| `AllocationService.BookingAllocationService.SendBatchRequest` | src/resources/bookings/booking-allocation.service.ts:208-291 | Statement by statement, and wherever it throws, it has the net effect Allocation.SendBatch; refuses an empty batch and then changes nothing |
| `AllocationService.BookingAllocationService.CreateBooking` | src/resources/bookings/bookings.service.ts:35-101 | Saves a PENDING, unassigned row with the cargo given; offers it to every driver found; what the search or the dispatch throws is caught, leaving what had been written, and then reports nobody notified |
| `AllocationService.BookingAllocationService.HandleDriverResponse` | src/resources/bookings/booking-allocation.service.ts:297-319 | A user not pending changes nothing; otherwise the effect and answer are those of Allocation.Respond |
| `AllocationService.BookingAllocationService.HandleAcceptance` | src/resources/bookings/booking-allocation.service.ts:325-473 | Wherever it throws, at the lock, in the try block or at the unlock, its state and answer are those of Allocation.Accept under the matching fault |
| `AllocationService.BookingAllocationService.TryAcceptance` | src/resources/bookings/booking-allocation.service.ts:345-468 | State and answer of the try block are those of Allocation.TryAccept, wherever it throws |
| `AllocationService.BookingAllocationService.FinishAcceptance` | src/resources/bookings/booking-allocation.service.ts:405-458 | Status write, releases, job removal and key deletion amount to one update, or to the prefix done before a throw |
| `AllocationService.BookingAllocationService.ReleaseDrivers` | src/resources/bookings/booking-allocation.service.ts:413-449 | Clears the requests of the accepting driver and of every other pending driver, or of those before a throw |
| `AllocationService.BookingAllocationService.CheckVehicle` | src/resources/transport/logistics.service.ts:165-182 | Refuses a driver without vehicle, and one whose vehicle cannot carry the cargo |
| `AllocationService.BookingAllocationService.HandleRejection` | src/resources/bookings/booking-allocation.service.ts:479-507 | Withdraws the driver and times the booking out when nobody is left: Allocation.Reject |
| `AllocationService.BookingAllocationService.HandleTimeout` | src/resources/bookings/booking-allocation.service.ts:512-575 | Does nothing for ACCEPTED or unknown bookings; otherwise cancels the row and clears every trace: Allocation.Timeout |
| `AllocationService.BookingAllocationService.ProcessTimeoutJob` | src/resources/queues/processes/booking-allocation.processor.ts:30-46 | Takes the job off the queue and times the booking out |
| `AllocationService.BookingGateway.HandleDriverDisconnection` | src/resources/websockets/booking.gateway.ts:144-186 | Rejects the pending request of the driver, timing the booking out early when it was the last: Allocation.Disconnect |
| `Transport.ValidateVehicleAccepts` | src/resources/transport/logistics.service.ts:218-290 | validateVehicle accepts if and only if vehicle type and cargo suit each other, the equipment required is there, and, column by column, a vehicle capacity that is given holds the weight, without it a capacity, without both 5000 (for a bus 75 kg to each full seat), and a given volume fits a given one |
| `Transport.RefusalsAreTheFirstFailure` | src/resources/transport/logistics.service.ts:218-290 | Otherwise it scores 0 and gives the reason of the first check that fails |
| `Transport.AcceptedScore` | src/resources/transport/logistics.service.ts:285-289 | An accepted vehicle scores the points of its strategy at the fraction its load fills of that capacity, 100 at most |
| `Transport.StrategyTable` | src/resources/transport/vehicles/tipper.ts:13-89 | For each strategy and positive capacity: which cargo it takes, when the weight is too much, and the points for cargo type, requirements and utilisation |
| `Transport.LoadIsLeast` | src/resources/transport/vehicles/bus.strategy.ts:32-40 | The load of a bus is the least number of passengers of 75 kg |
| `Transport.Validate` | src/resources/transport/logistics.service.ts:218-290 | The branches compute that |
| `Transport.ScoreBounds` | src/resources/transport/logistics.service.ts:218-290 | A refusal scores 0 with a reason, an acceptance 25 to 100; the raw score is at least 25 so the clamp at 0 is never active |
| `Transport.LowestScoreReached` | src/resources/transport/vehicles/trailer.strategy.ts:48-81 | 25 is reached |
| `Transport.PositiveCapacity` | src/resources/transport/logistics.service.ts:285-289 | For non-negative weight the utilisation of an accepted load divides by a positive capacity |
| `Transport.FeasibilityIsDownwardClosed` | src/resources/transport/logistics.service.ts:231-254 | What is accepted stays accepted when lighter and of no larger volume, for every vehicle type, through the bus ceiling and the capacity fallback |
| `Transport.CeilMonotone` | src/resources/transport/vehicles/bus.strategy.ts:32-40 | The passenger estimate never falls when the weight grows |
| `Transport.UtilisationIsDivision` | src/resources/transport/vehicles/trailer.strategy.ts:71-76 | The cross-multiplied comparisons are the comparisons of weight / capacity |
| `Transport.CompatibleTypesAgree` | src/resources/transport/vehicle-cargo-compatibility.ts:26-40 | The two readers of the compatibility table agree |
| `Transport.TrailerMatchScore` | src/resources/transport/vehicles/trailer.strategy.ts:13-82 | Stepping the score gives base plus bonuses, clamped |
| `Transport.TipperMatchScore` | src/resources/transport/vehicles/tipper.ts:13-89 | Stepping the score gives base plus bonuses, clamped |
| `Transport.MiningMatchScore` | src/resources/transport/vehicles/mining-transport.strategy.ts:13-82 | Stepping the score gives base plus bonuses, clamped |
| `Transport.BusMatchScore` | src/resources/transport/vehicles/bus.strategy.ts:13-59 | The same without a lower clamp |
| `Transport.GenericMatchScore` | src/resources/transport/vehicles/generic.strategy.ts:13-75 | The same without a lower clamp |
| `Transport.FlatbedMatchScore` | src/resources/transport/vehicles/flatbed.ts:13-92 | Stepping the score gives base plus bonuses, clamped |
| `Transport.TransportMatchScore` | src/resources/transport/logistics/roadLogistics.ts:34-46 | The strategy for a type, generic for unknown ones |
| `Logistics.FindBestMatchFromVehicles` | src/resources/transport/logistics.service.ts:187-210 | The one-pass search returns the first of the ranked suggestions, ties included, for every limit of at least 1; null exactly if no vehicle is feasible; otherwise the first position whose feasible vehicle nobody outscores |
| `Logistics.SuggestionsAreTheBest` | src/resources/transport/logistics.service.ts:120-133 | Suggestions and the ones cut off are together the feasible vehicles, as many as there are feasible positions; none cut off outscores one returned; best first |
| `Logistics.SuggestionsAreFeasible` | src/resources/transport/logistics.service.ts:120-133 | Every suggestion is a feasible vehicle of the list with a score from 25 to 100 |
| `Logistics.FindBestMatch` | src/resources/transport/factory.ts:68-87 | The first index with the highest score among the feasible, null exactly if there is none |
| `StableSort.SortDescFacts` | src/resources/transport/logistics.service.ts:132-132 | The sort is a descending permutation that keeps the order of equal keys |
| `StableSort.SortDescUnique` | src/resources/transport/logistics.service.ts:132-132 | It is the only one: any stable descending sort computes it |
| `StableSort.SortDescHead` | src/resources/transport/logistics.service.ts:196-206 | Appending an element changes the head only if it is strictly better |
| `Matching.FindClosestDriver` | src/resources/websockets/location.gateway.ts:52-115 | The first three online drivers of the geo reply, null when none is online |
| `Matching.ClosestFacts` | src/resources/websockets/location.gateway.ts:86-114 | At most three, all ONLINE, picked in order; fewer than three only when no other is online, and none left out is nearer |
| `Matching.FindMatchingDrivers` | src/resources/bookings/booking-allocation.service.ts:63-202 | The loops compute the matches: refused exactly without coordinates or with a zero one, everybody near by without cargo, the feasible ranked with cargo |
| `Matching.CargoPathFacts` | src/resources/bookings/booking-allocation.service.ts:133-201 | The cargo path offers exactly the drivers of the table whom the search found, at the distance of the first entry that names them, whose vehicle suits, holds and is equipped for the cargo, with its score; at most three, none twice |
| `Matching.OffersInOrder` | src/resources/bookings/booking-allocation.service.ts:192-201 | Their order in the columns: a point of score weighs 0.7, a kilometre up to the tenth 3; who is ahead on balance comes first, equals in the order of the driver table |
| `Matching.CollectAll` | src/resources/bookings/booking-allocation.service.ts:105-128 | The loop without cargo collects every row found near by, in table order, with score 100 |
| `Matching.CollectFeasible` | src/resources/bookings/booking-allocation.service.ts:133-190 | The cargo loop collects exactly the rows whose vehicle validates, skipping drivers that cannot be checked |
| `Matching.PlainPathFacts` | src/resources/bookings/booking-allocation.service.ts:105-128 | Without cargo everybody found is offered, in table order up to the limit, vehicle or not, with score 100 and the distance of the first entry that names the driver |
| `Matching.BetterAndNearerComesFirst` | src/resources/bookings/booking-allocation.service.ts:193-199 | Keys of valid entries lie in 0..100; a better score at no greater distance always comes first |
| `Sessions.CleanupIsInvisible` | src/resources/auth/auth.service.ts:250-261 | Deleting expired sessions anywhere in a run changes the answer of no refresh call, and the tables differ in expired rows only; a token may be signed again while its first login lives |
| `Sessions.ReusedTokenShowsCleanup` | src/resources/auth/entities/user-session.entity.ts:28-29 | A token signed again after its first login has expired would make the answer depend on the clean-up |
| `Sessions.RefreshSucceedsExactly` | src/resources/auth/auth.service.ts:137-192 | Refresh succeeds if and only if the token verifies for an existing user and the first login that issued it is not past its expiry and covered by no later revocation by id, by token or by user |
| `Sessions.UsableIffSurvives` | src/resources/auth/auth.service.ts:194-246 | The session of a login is active and unexpired exactly if the history says so |
| `Sessions.ReissueIsRefused` | src/resources/auth/entities/user-session.entity.ts:28-29 | A second login with a token still alive violates the unique column, so it never has a row, whatever clean-ups and revocations happen |
| `Sessions.RefreshAgrees` | src/resources/auth/auth.service.ts:148-161 | On a cleaned table and the full one a refresh gives the same answer and keeps them matching |
| `Sessions.TokensAreUnique` | src/resources/auth/entities/user-session.entity.ts:28-29 | Every run keeps refresh tokens unique |
| `Sessions.RowsAreKnown` | src/resources/auth/auth.service.ts:194-213 | Every row stems from a login of the run and keeps its user, token and expiry |
| `Sessions.InactiveStaysInactive` | src/resources/auth/auth.service.ts:215-246 | A revoked session is never active again, whatever follows |
| `Sessions.RevokeAllIsPrecise` | src/resources/auth/auth.service.ts:237-246 | Logging out everywhere deactivates all sessions of the user and touches no other row |
| `Sessions.RefreshInColumns` | src/resources/auth/auth.service.ts:137-192 | What a refresh call writes, row by row: nothing unless the token verifies and is that of an active row; an expired one is revoked as token_expired, another gets lastUsedAt when its user exists |
| `SessionService.AuthService.CreateSession` | src/resources/auth/auth.service.ts:194-213 | Stores an active row, or nothing when id or token is taken |
| `SessionService.AuthService.RefreshToken` | src/resources/auth/auth.service.ts:137-192 | Table and answer are those of Sessions.Refresh |
| `SessionService.AuthService.RevokeSession` | src/resources/auth/auth.service.ts:215-221 | Writes inactive, now and the reason (manual_logout by default) to that row and nothing else |
| `SessionService.AuthService.RevokeSessionByRefreshToken` | src/resources/auth/auth.service.ts:223-235 | The same for the rows with that token, active or not |
| `SessionService.AuthService.RevokeAllUserSessions` | src/resources/auth/auth.service.ts:237-246 | The same for the active rows of that user (logout_all by default) |
| `SessionService.AuthService.CleanupExpiredSessions` | src/resources/auth/auth.service.ts:250-261 | Deletes exactly the rows whose expiry lies before now, revoked or not, of one user or of all |
| `SessionService.SessionTable.DeleteExpiredBatch` | src/cron/processors/clean-expired-sessions.cron.ts:45-56 | Deletes rows whose expiry lies before now, revoked or not: the limit, or all there are |
| `SessionService.CleanExpiredSessionsCron.DeleteInBatches` | src/cron/processors/clean-expired-sessions.cron.ts:42-61 | The loop ends after n/1000 + 1 deletes; then exactly the rows are left whose expiry does not lie before now, and the total is the number of the others; a throw at delete k leaves exactly 1000 k removed |
| `SessionService.CleanExpiredSessionsCron.HandleExpiredSessionsCleanup` | src/cron/processors/clean-expired-sessions.cron.ts:21-77 | On every exit the advisory lock is as it was, released exactly if acquired, unless the unlock in the finally block throws: then, and only then, an acquired lock stays taken and the job throws; what is deleted is a clean-up event and its total is their number |
| `AudioCalls.CallIdSymmetric` | src/resources/websockets/audio/audio-call.gateway.ts:37-39 | The call id does not depend on who calls |
| `AudioCalls.CallIdInjective` | src/resources/websockets/audio/audio-call.gateway.ts:37-39 | For ids of one length (three of the four suffice) it determines the unordered pair |
| `AudioCalls.CallIdSpelled` | src/resources/websockets/audio/audio-call.gateway.ts:37-39 | The two ids joined by a hyphen, first the one with the smaller code unit where they differ, or the one the other begins with |
| `AudioCalls.CallIdsCollide` | src/resources/websockets/audio/audio-call.gateway.ts:37-39 | For ids of different lengths it need not |
| `AudioCalls.HistoriesAreCanonical` | src/resources/websockets/audio/audio-call.gateway.ts:58-228 | After any history the session stored at k is one whose call id is k, and the insertion order lists the keys once each |
| `AudioCalls.EitherSideHitsTheSameCall` | src/resources/websockets/audio/audio-call.gateway.ts:138-210 | Either side hanging up or rejecting removes the same session, the one at their call id |
| `AudioCalls.DisconnectEndsOneCall` | src/resources/websockets/audio/audio-call.gateway.ts:215-228 | A disconnect removes the call that is first in insertion order among those the socket takes part in, and no other, nothing when there is none |
| `AudioCalls.InsertionOrder` | src/resources/websockets/audio/audio-call.gateway.ts:44-51 | A new call goes to the end of the order, calling again keeps its place, a call that ends leaves the others in order |
| `AudioCalls.LiveExactly` | src/resources/websockets/audio/audio-call.gateway.ts:58-228 | Over any history with senders of one id length, a call is live if and only if its pair was called and nothing has ended it since: an end or reject of either side, or a disconnect whose first call it was |
| `AudioCalls.LogsAreProjections` | src/resources/websockets/audio/audio-call.gateway.ts:58-188 | Over any history whose senders have ids of one length, addressed to anyone: a live call has caller, callee and offer of the last callUser of its pair, answer and status of the last answer since, and two candidate lists that are exactly what each side has sent the other since |
| `AudioCalls.AudioCallGateway.HandleCallUser` | src/resources/websockets/audio/audio-call.gateway.ts:58-86 | Registers a fresh session at the call id, replacing any |
| `AudioCalls.AudioCallGateway.HandleAnswerCall` | src/resources/websockets/audio/audio-call.gateway.ts:93-131 | Sets answer and status of the session, or reports that there is none |
| `AudioCalls.AudioCallGateway.HandleRejectCall` | src/resources/websockets/audio/audio-call.gateway.ts:138-158 | Removes the session at the call id |
| `AudioCalls.AudioCallGateway.HandleIceCandidate` | src/resources/websockets/audio/audio-call.gateway.ts:165-188 | Appends to the caller's list when the caller sent it, else to the callee's; other sessions are untouched |
| `AudioCalls.AudioCallGateway.HandleEndCall` | src/resources/websockets/audio/audio-call.gateway.ts:195-210 | Removes the session at the call id |
| `AudioCalls.AudioCallGateway.FindCallBySocketId` | src/resources/websockets/audio/audio-call.gateway.ts:44-51 | The first session in insertion order the socket takes part in |
| `AudioCalls.AudioCallGateway.HandleDisconnect` | src/resources/websockets/audio/audio-call.gateway.ts:215-228 | Removes that session |
| `Earnings.PaidTotalsAgree` | src/resources/driver-earnings/driver-earnings.service.ts:113-165 | The unfiltered summary's totalPaid equals getDriverTotalEarnings |
| `Earnings.MonthsAddUp` | src/resources/driver-earnings/driver-earnings.service.ts:124-165 | The summaries of the twelve months add up field by field to that of the year |
| `Earnings.PagesCoverTheList` | src/resources/driver-earnings/driver-earnings.service.ts:22-23 | Pages 1..totalPages concatenate to the whole list; all but the last are full, none is empty |
| `Earnings.FilteredFacts` | src/resources/driver-earnings/driver-earnings.service.ts:30-73 | The list holds each row that no criterion set in the filter speaks against, as often as it is there, and no others, latest date first |
| `Earnings.PagesShowTheFilteredRows` | src/resources/driver-earnings/driver-earnings.service.ts:22-73 | Pages 1..totalPages of the filtered list together show every passing row as often as it is there, and no other, latest first across the pages |
| `Earnings.PeriodFacts` | src/resources/driver-earnings/driver-earnings.service.ts:124-138 | A summary is about the earnings of the driver, of the year and month asked for, each as often as it is there |
| `Earnings.DriverEarningsService.GetDriverEarningsSummary` | src/resources/driver-earnings/driver-earnings.service.ts:124-165 | The fold computes the sums over the selected earnings |
| `Earnings.DriverEarningsService.FindOne` | src/resources/driver-earnings/driver-earnings.service.ts:87-98 | A row with the id, or none exactly if there is none |
| `Earnings.DriverEarningsService.MarkAsPaid` | src/resources/driver-earnings/driver-earnings.service.ts:167-176 | Writes status, date, reference and method to that row only, no other column, and adds its net amount to the total of its driver unless it was paid already, so exactly once |
| `CloudinaryUrl.VersionedRoundTrip` | src/resources/upload/strategies/cloudinary.strategy.ts:67-77 | Any public id at all comes back from its versioned delivery URL |
| `CloudinaryUrl.UnversionedRoundTripExactly` | src/resources/upload/strategies/cloudinary.strategy.ts:67-77 | From a URL without version it comes back if and only if the first segment of the path is not the letter v followed by digits |
| `CloudinaryUrl.ExtractsWhatFollowsUpload` | src/resources/upload/strategies/cloudinary.strategy.ts:67-77 | From any URL: the parts behind the first upload, without a leading v and digits, joined and stripped of the extension |
| `CloudinaryUrl.NothingWithoutUpload` | src/resources/upload/strategies/cloudinary.strategy.ts:70-72 | A URL without an upload part is refused |
| `CloudinaryUrl.ExtractPublicId` | src/resources/upload/strategies/cloudinary.strategy.ts:67-77 | Computes that; refuses exactly the URLs without an upload segment |
| `CloudinaryUrl.StripsExactlyTheExtension` | src/resources/upload/strategies/cloudinary.strategy.ts:76-76 | Removes a dot-free extension |
| `CloudinaryUrl.NothingElseIsStripped` | src/resources/upload/strategies/cloudinary.strategy.ts:76-76 | What does not end in one stays as it is |
| `CloudinaryUrl.JoinSplit` | src/resources/upload/strategies/cloudinary.strategy.ts:69-76 | Joining undoes splitting |
| `CloudinaryUrl.SplitJoin` | src/resources/upload/strategies/cloudinary.strategy.ts:69-76 | Splitting undoes joining when no part contains the separator |

## Left out

- WebSocket emits, rooms, push notifications and logging: no effect on the state modelled; where one may throw inside the acceptance handler it is one of the fault points.
- Failures inside handleRejection and handleTimeout in the handler-atomic model: only dispatch and acceptance are cut short there; the interleaved model lets every step of a timeout or rejection fail.
- Failures between SADD and EXPIRE of one Redis set, which leave a key without expiry, and calls that throw although they took effect.
- Job retries and a failing job: a job runs once in the handler-atomic model; in the interleaved model any number of timeout handlers may start at any time.
- AllocationSafety.TimeoutSafety: is about whole handlers, because at await granularity it is false, as `TimeoutCanUndoAcceptance` and `RejectionCanUndoAcceptance` show; `AcceptanceSurvivesExactly` says when it holds there.
- AllocationRace.SingleWinner: is about one booking; the lock, status and pending keys and the row of different bookings are disjoint, and the expiry of the status and pending keys is allowed at any time.
- BookingsService.acceptBooking and updateStatus: no controller reaches the first, and the second writes any status unchecked.
- The validation with empty cargo requirements during acceptance: its result is ignored by the code, so only the vehicle lookup is modelled.
- Floating-point rounding: scores, distances and utilisation are reals; haversine distances come from Redis.
- Monotonicity of acceptance in the requirement flags: false for a tipper with packaged goods, where requiring a dump makes the strategy accept.
- JWT signing and verification, password checks, registration, password reset: `claim` stands for the verified subject.
- Rows becoming expired or being inserted while the clean-up loop runs: its batches use one cutoff.
- The listing of a user's active sessions: it does not look at the expiry, so a clean-up is visible there.
- Chat, payments, documents, fleet and user management, migrations, seeds, DTO validation and the HTTP layer.
- Query order among earnings of one date, page numbers below 1 and limits below 1: the database decides the first and rejects the others.
- Call signalling messages sent to clients: only the session map is modelled, and the createdAt time of a session is not.
