# Sanitation dispatch: a verified model

A Dafny model of the dispatch back end: vehicles, shifts, trips, maintenance orders, inspections and fuel
records in one SQLite database, and the services that change them. The project proves what ties the tables
together over every run of the program, and what the stand-alone algorithms compute.

`dafny verify dfyconfig.toml` checks the whole project. Nothing was executed.

## How it is laid out

- **Domain** (`vehicle`, `workplan`, `trip`, `maintenance`, `crew`, `fuel`, `policy`): rows and their
  transitions, as values, each file named after the Go package it follows.
- **Algorithms**: `limiter` (token bucket), `schedule` and `checker` (roster and allocation), `businessday`
  (service dates), `inspection` (checklist), `reconciliation` (the day's report), with `sorting`, `sums`,
  `text_order` and `paging` below them.
- **Store**: `schema` holds the database as a value - one map per table, keys, constraints, compare-and-set
  saves; `constraints` says of whole tables what they enforce; `storage` is the store as a class that is
  written in place, with the queries as loops.
- **Services** (`dispatch`, `planning`, `maintenance_service`, `inspection_service`, `fuel_service`): every
  operation twice, as a function from tables to tables in which a failure yields no tables, and as the
  method that writes the store statement by statement and rolls back. Each method is proved against its
  function: the whole effect, or an error and the store as it was.
- **Changes and invariants**: `changes` lists what the operations can do to the tables and under which
  conditions; `invariant` states what ties the tables together and proves it change by change; `exact`,
  `guards` and `recording` prove, per operation, exactly when it commits and which rows it then writes, and
  `refusals` which error it reports if it does not.
- **Runs**: `system` is the running program. A transaction is one step, because there is one connection.
  CancelShift, maintenance Start, inspection Record and the lookup of StartTrip are several steps, between
  which any other step may run - and any of these calls may be abandoned. `steps` ties the steps to the
  methods of the services. `theorems`, `interleaving`,
  `idempotency`, `bookings`, `outbox`, `submissions` and `overwrites` hold what is true of every run; `day`
  and `stranding` are particular runs; `reconciliation_service` joins the day's report to reachable stores.
- **Concurrency beside the store**: `worker` (the outbox runner) and `batch` (goroutines under a
  semaphore), each as a machine over its atomic moves.

## Where the code does not do what one would expect

- A failed inspection opens a repair without looking for another, so a vehicle can have two active orders;
  completing one frees the vehicle with the other still open, and the vehicle is then stranded: no shift, no
  trip and no new order for it, and its open orders cannot be completed, until another inspection of it
  fails. Nothing else strands a vehicle and nothing else frees it (`SecondRepairExactly`,
  `CompletionStrandsExactly`, `StrandedExactly`, `StrandedStays`, and as a run `StrandedIsReachable`).
- Record saves outside a transaction, in several statements, of which only the first compares versions.
  A call that is past it deletes and rewrites the items of an inspection submitted meanwhile. The header is
  final from submission on; the items are exactly when no such call is under way (`HeaderIsFinal`,
  `ItemsAreFinalExactly`, `RecordCanWipeSubmission`).
- Recording an item does not raise the version of the inspection, so of two calls that load the items of a
  draft at the same time the second erases what the first stored, although both succeed (`LostUpdate`). A
  stored item is lost only to a call that loads a draft's items, before or later, and deletes them afterwards
  (`ItemStaysExactly`); no item of a draft is ever safe (`ItemIsFinalExactly`).
- The day's report looks only at trips begun within the day's bounds, so it reports a mismatch for exactly
  those completed shifts whose trip began on another service date (`MismatchExactly`). Starting a trip does
  not compare the clock with the shift's window, so for any limits and calendar there is a run to such a day
  (`MismatchIsReported`).
- `Gap` is negative when the receiver ends where the argument starts; touching windows are accepted all the
  same, in both orders (`GapTestMeansCompatible`).
- Sweeping idle buckets is invisible exactly when one nanosecond more than `maxIdle` earns a whole bucket,
  since only buckets idle for longer than `maxIdle` are swept (`EvictionExactly`).

## Model

| member | source | states |
|---|---|---|
| Theorems.OnDutyMeansOneActiveTrip | internal/service/dispatch/service.go:96-232 | in every run a vehicle is on duty exactly when it has one active trip, and it never has two |
| Theorems.ShiftsAndTripsAgree | internal/service/dispatch/service.go:127-228 | in every run a shift is in progress (completed) exactly when it has one trip, which is active (completed) and runs on the assigned vehicle; any other shift has none |
| Theorems.RepairsAndDutyAgree | internal/service/maintenance/service.go:26-107 | in every run no vehicle on duty has an open or started order, and every vehicle in maintenance has one |
| Theorems.SecondRepairExactly | internal/service/inspection/service.go:91-110 | a vehicle gets a second active order exactly from a failed inspection while it has a first |
| Theorems.CompletionStrandsExactly | internal/service/maintenance/service.go:77-107 | completing an order leaves its vehicle available with an active order exactly if another order of it is active |
| Stranding.StrandedIsReachable | internal/domain/vehicle/vehicle.go:70-88 | for any limits and calendar some run from the empty database strands a vehicle |
| Theorems.StrandedExactly | internal/domain/vehicle/vehicle.go:70-88 | after any step of any run a vehicle is stranded exactly if it was and the step was no failed inspection of it, or if the step completed one of its orders while another was active |
| Theorems.StrandedStays | internal/service/inspection/service.go:91-110 | a stranded vehicle is neither booked nor started nor opened nor closed by any step, and a failed inspection of it, and nothing else, ends this |
| Theorems.DistanceIsConserved | internal/service/dispatch/service.go:180-232 | over any stretch of any run the distance of the trips a vehicle completes, end less start reading, is at most what its odometer gains |
| Theorems.DrivenSinceRegistration | internal/service/fleet/service.go:28-53 | from registration on, the summed distance of a vehicle's completed trips is at most its odometer less its first reading |
| Theorems.OdometerIntervals | internal/service/fuel/service.go:45-75 | in every run two trips of a vehicle share at most an end point of their odometer intervals, and no fuel reading lies strictly inside a trip; a completed trip's distance is not negative |
| System.StepKeepsInvariant | internal/storage/sqlite/db.go:110-125 | every step of the program makes at most one permitted change, keeps all invariants of tables and calls, and takes no version back |
| System.RunKeepsInvariant | internal/storage/sqlite/db.go:49-125 | every interleaving of any calls keeps all invariants, loses no row, and never gives a version two contents |
| Steps.TransactionsAreSteps | internal/storage/sqlite/db.go:110-125 | each transaction step does to the tables what the contract of its service method says of the store, and touches no other call |
| Steps.StartWithoutInterruption | internal/service/dispatch/service.go:96-178 | the lookup and the transaction of StartTrip as two steps do what the whole call does |
| Steps.StatementsAreSteps | internal/storage/sqlite/audit_outbox.go:67-78 | the steps of one statement: what the worker marks, and that an abandoned call leaves the tables alone |
| Invariant.ChangeKeepsInvariant | internal/service/dispatch/service.go:109-232 | all thirteen invariants together survive every permitted change, whichever operation makes it |
| Interleaving.VersionsNameContents | internal/storage/sqlite/workplans.go:106-127 | two moments of a run that agree on the version of a vehicle, shift, trip or order agree on its content |
| Interleaving.CancelIsAtomicWhenItSaves | internal/service/planning/service.go:93-106 | whatever runs between its read and its save, CancelShift saves exactly if the shift is as it was read, and then did what it would do in one piece at that moment; otherwise nothing |
| Interleaving.BeginIsAtomicWhenItSaves | internal/service/maintenance/service.go:62-75 | the same for starting a maintenance order |
| Interleaving.RecordWithoutInterruption | internal/storage/sqlite/inspections.go:102-129 | run without interruption, the separate statements of Record leave what the call leaves, whether it succeeds or one of them fails |
| Idempotency.OneTripPerKey | internal/service/dispatch/service.go:96-178 | however lookups and transactions interleave, a vehicle has at most one trip for a key |
| Idempotency.ReplayReturnsTheTrip | internal/service/dispatch/service.go:103-107 | at any later moment a call with the vehicle and key of a stored trip returns that trip and changes nothing, and a call that had looked before fails in its transaction |
| Idempotency.SharedRowExactly | internal/service/dispatch/service.go:169-169 | the texts of two idempotency rows agree exactly for equal pairs, or if one vehicle id extends the other by a colon and what the key then lacks |
| Idempotency.RowFollowsThePair | internal/storage/sqlite/schema.sql:130-138 | with no colon in vehicle ids, the row exists exactly when the vehicle has a trip for the key |
| Idempotency.RowIsTakenExactly | internal/service/dispatch/service.go:169-169 | the row of a vehicle and key is taken exactly if a stored trip has this pair, or one that differs from it by a colon in a vehicle id |
| Idempotency.RowRefusesExactly | internal/service/dispatch/service.go:109-177 | a start that meets every other condition is refused, by its row alone, exactly if a stored trip has a pair of the same text that differs by a colon |
| Idempotency.RowNeverRefuses | internal/identity/id.go:15-28 | after any run that registers only vehicle ids without a colon, as the generator hands them out, a start commits exactly under its other conditions: the row refuses none |
| Idempotency.ColonsCanRefuse | internal/storage/sqlite/schema.sql:130-138 | that condition is needed: for any limits and calendar some run with colons in vehicle ids leads to a start that the row alone refuses |
| Bookings.WithinTheDay | internal/service/scheduling/checker.go:18-66 | in every run, per vehicle and date, any two shifts that are assigned, in progress or completed touch or are at least the minimum break apart (15 minutes unless configured), and together they last no longer than the maximum duty (16 hours unless configured) |
| Bookings.AcrossAllDays | internal/service/planning/service.go:74-78 | with a calendar of fixed offset no two assigned, running or completed shifts of a vehicle overlap, whatever their dates |
| Bookings.OneShiftAtATime | internal/service/dispatch/service.go:65-90 | with such a calendar at most one assigned, running or completed shift of a vehicle covers any instant |
| Outbox.OneJobPerEvent | internal/service/dispatch/service.go:172-226 | in every run there is exactly one started job per trip, completed job per completed trip, submitted job per submitted inspection and fuel job per fuel record, and no other job of these four kinds |
| Outbox.PayloadsAreCurrent | internal/service/inspection/service.go:112-118 | a completion or submission job carries the row as it is still stored |
| Submissions.HeaderIsFinal | internal/domain/inspection/inspection.go:80-104 | the header of a submitted inspection never changes again |
| Submissions.ItemsAreFinalExactly | internal/storage/sqlite/inspections.go:107-127 | the items of a complete submission keep through every continuation exactly if no call to Record has passed its version check and has still to delete |
| Submissions.RecordCanWipeSubmission | internal/service/inspection/service.go:61-75 | from any moment at which a draft can be submitted, a Record and a Submit can interleave so that the submission has no items |
| Overwrites.ItemStaysExactly | internal/storage/sqlite/inspections.go:107-127 | a stored item keeps through every continuation in which no call loads the draft's items, exactly if no call that has loaded or checked it has still to delete them |
| Overwrites.ItemIsFinalExactly | internal/service/inspection/service.go:61-75 | a stored item keeps through every continuation exactly if its inspection is submitted and no call is past its version check |
| Overwrites.LostUpdate | internal/service/inspection/service.go:61-75 | from any moment with a draft, two permitted calls to Record that both load before either writes both succeed, and the store is then as if the first had never been |
| Exact.StartExactly | internal/service/dispatch/service.go:109-177 | StartTrip's transaction commits exactly under its guards, among them an active driver whose license and certificate for the type are still valid; none of its later statements fails on its own |
| Exact.StartMakesChange | internal/service/dispatch/service.go:136-172 | the rows a committed start writes: vehicle, shift, trip, idempotency row and job |
| Exact.ReturnNeverWedges | internal/service/dispatch/service.go:180-232 | in a store that satisfies the invariants a return commits exactly if the trip is active and the reading is not below its start |
| Guards.ReturnWrites | internal/service/dispatch/service.go:198-226 | the rows a committed return writes |
| Exact.OpenExactly | internal/service/maintenance/service.go:26-60 | an order is opened exactly on an available vehicle with no active order |
| Exact.CompleteExactly | internal/service/maintenance/service.go:77-107 | an order is completed exactly if it is in progress and its vehicle is in maintenance |
| Exact.SubmitExactly | internal/service/inspection/service.go:77-122 | Submit commits exactly for a draft with every required code stored, and if an item failed, only if the vehicle can be taken out of service |
| Guards.SubmitWrites | internal/service/inspection/service.go:77-122 | the rows a committed submission writes: of the header only score, twenty for each stored item that did not fail, status, failed exactly if a stored item did, version and time stamp; one job; and for a failure the vehicle out of service and a repair due in seven days |
| GoodDay.ATripCanBeDriven | internal/service/dispatch/service.go:47-232 | the guards can be met one after the other: for any limits and calendar, any valid window and any instant of the start, inside the window or not, some run from the empty database ends with a completed trip |
| Guards.AssignExactly | internal/service/dispatch/service.go:47-94 | an assignment commits exactly under its guards, among them a break from every assigned, running or completed shift of the vehicle and date and duty left for all of them, and changes that one shift |
| Guards.FuelExactly | internal/service/fuel/service.go:38-86 | when fuel is recorded, and that the vehicle's row changes only if the reading is ahead of it |
| Recording.RecordExactly | internal/service/inspection/service.go:61-75 | uninterrupted, an item is recorded exactly in a draft, for a required code, with a known result and an unused id; it replaces the stored item of its code, and the version stays |
| Guards.CreateInspectionExactly | internal/service/inspection/service.go:34-59 | when an inspection is created, and the draft it stores |
| Dispatch.AssignShift | internal/service/dispatch/service.go:47-94 | the transaction on the store: all its writes, or an error and the store as it was |
| Dispatch.StartTrip | internal/service/dispatch/service.go:96-178 | lookup, then transaction: the stored trip, or all writes, or an error and the store as it was |
| Dispatch.ReturnTrip | internal/service/dispatch/service.go:180-232 | although the trip is saved before later checks, all writes or an error and the store as it was |
| Planning.CreateShift | internal/service/planning/service.go:63-91 | one write, or an error and the store as it was |
| Planning.CancelShift | internal/service/planning/service.go:93-106 | the uninterrupted call on the store |
| Planning.RegisterVehicle | internal/service/fleet/service.go:28-53 | a vehicle is registered available, or an error and the store as it was |
| Upkeep.Open | internal/service/maintenance/service.go:26-60 | the transaction on the store, with rollback |
| Upkeep.Start | internal/service/maintenance/service.go:62-75 | the uninterrupted call on the store |
| Upkeep.Complete | internal/service/maintenance/service.go:77-107 | the transaction on the store, with rollback |
| Inspecting.Create | internal/service/inspection/service.go:34-59 | the transaction on the store, with rollback |
| Inspecting.Record | internal/service/inspection/service.go:61-75 | the uninterrupted call on the store: its result, and which of its statements are done even if one of them fails |
| Inspecting.Submit | internal/service/inspection/service.go:77-122 | the transaction on the store, with the repair it may open and with rollback |
| Fuelling.Record | internal/service/fuel/service.go:38-86 | the transaction on the store, with rollback |
| Storage.Store.SaveShift | internal/storage/sqlite/workplans.go:106-127 | insert under the unique and foreign keys, or compare-and-set on the version; a failure changes nothing |
| Storage.Store.SaveTrip | internal/storage/sqlite/trips.go:78-108 | insert under both unique keys, or compare-and-set |
| Storage.Store.SaveVehicle | internal/storage/sqlite/vehicles.go:75-92 | insert or compare-and-set, with the column checks |
| Storage.Store.SaveMaintenance | internal/storage/sqlite/maintenance.go:60-81 | insert or compare-and-set |
| Storage.Store.SaveInspection | internal/storage/sqlite/inspections.go:102-129 | header, delete, inserts, in this order; a failing statement leaves the earlier ones done |
| Storage.Store.SaveIdempotency | internal/storage/sqlite/audit_outbox.go:36-39 | an insert under the key of scope and text |
| Constraints.VehicleSaves | internal/storage/sqlite/schema.sql:29-41 | on tables that conform to the schema, a save of a vehicle goes through exactly if its key is new (or its version current) and the tables with the row conform, and writes just that; an update without its version is stale, anything else refused a constraint |
| Constraints.ShiftSaves | internal/storage/sqlite/schema.sql:58-71 | the same for shifts, with their references and the unique route and date; the route is written once |
| Constraints.TripSaves | internal/storage/sqlite/schema.sql:74-93 | the same for trips, with their references, the unique shift and the unique vehicle and key; these are written once |
| Constraints.OrderSaves | internal/storage/sqlite/schema.sql:97-109 | the same for maintenance orders |
| Constraints.HeadSaves | internal/storage/sqlite/schema.sql:153-164 | the same for inspections, with the checked score |
| Constraints.ItemInserts | internal/storage/sqlite/schema.sql:167-174 | an item goes in exactly under a new key, for a stored inspection and a code it does not have yet |
| Constraints.FuelInserts | internal/storage/sqlite/schema.sql:176-187 | a fuel entry goes in exactly under a new key, for a stored vehicle and with its checked columns |
| Storage.Store.Enqueue | internal/storage/sqlite/audit_outbox.go:41-46 | a new pending job |
| Storage.Store.Rollback | internal/storage/sqlite/db.go:117-120 | every table is as it was when the transaction began |
| Storage.Store.FindTripByKey | internal/storage/sqlite/trips.go:19-28 | the trip of a vehicle and key, or none if there is none |
| Storage.Store.ActiveMaintenanceForVehicle | internal/storage/sqlite/maintenance.go:18-27 | true exactly if some order of the vehicle is open or in progress |
| Storage.Store.LatestInspectionForVehicle | internal/storage/sqlite/inspections.go:36-48 | an inspection of the vehicle than which none is later, or none if it has none |
| Storage.Store.ListShifts | internal/storage/sqlite/workplans.go:61-104 | every shift of a date once, in order of start |
| Storage.Store.ListTrips | internal/storage/sqlite/trips.go:30-76 | every trip begun within the range, once |
| Storage.Store.LoadItems | internal/storage/sqlite/inspections.go:86-100 | the items of an inspection in order of code |
| Storage.Store.ClaimDue | internal/storage/sqlite/audit_outbox.go:48-66 | due pending jobs, longest due first, at most the limit, and none left out while there is room |
| Schedule.Add | internal/domain/schedule/schedule.go:47-72 | accepts exactly if the window is compatible with all others and duty stays within its maximum; the roster is then the sorted permutation with the window added, its duty the sum |
| Schedule.GapTestMeansCompatible | internal/domain/schedule/schedule.go:23-34 | the overlap and gap tests say exactly that two windows touch or are the minimum break apart, in either order |
| Schedule.TotalDutyPermuted | internal/domain/schedule/schedule.go:63-66 | duty does not depend on the order of the windows |
| Scheduling.CanAssign | internal/service/scheduling/checker.go:18-53 | the paged, incremental loop ends and accepts exactly if all booked windows and the target are pairwise compatible and within maximum duty |
| Scheduling.ListingDecides | internal/service/scheduling/checker.go:18-53 | on any listing of the date's shifts that verdict is a matter of the stored shifts alone |
| Scheduling.OrderDoesNotMatter | internal/service/scheduling/checker.go:18-53 | two listings of the same shifts give the same verdict |
| BusinessDay.BoundsHoldExactlyTheDate | internal/businessday/businessday.go:24-38 | an instant lies in the bounds of a date exactly if that is its service date |
| BusinessDay.DatesStartAtTheCutoff | internal/businessday/businessday.go:31-38 | a date lasts twenty-four hours from the cutoff hour of that day on the local clock |
| BusinessDay.ConsecutiveDaysMeet | internal/businessday/businessday.go:31-64 | consecutive days meet without a gap |
| BusinessDay.DifferentDatesNeverOverlap | internal/businessday/businessday.go:39-51 | windows accepted for different dates never overlap |
| RateLimit.Limiter.Allow | internal/ratelimit/limiter.go:36-66 | the bucket map and decision after one call, as the step function says that `AllowExactly` pins; buckets stay within capacity |
| RateLimit.Limiter.Cleanup | internal/ratelimit/limiter.go:68-80 | exactly the buckets idle for longer than maxIdle are removed, and their number is returned |
| RateLimit.RateBound | internal/ratelimit/limiter.go:36-66 | over any run with a clock that does not go back and any window, a key is admitted at most capacity times plus the seconds of the window times the configured rate |
| RateLimit.LevelExactly | internal/ratelimit/limiter.go:40-52 | an unknown key has a full bucket; a known one has its tokens plus elapsed seconds times the rate, but no more than the capacity |
| RateLimit.AllowExactly | internal/ratelimit/limiter.go:53-64 | a call passes exactly if the level is at least one and then takes one token; a refused one is told the time that earns what is missing, at least a second |
| RateLimit.RemainingExactly | internal/ratelimit/limiter.go:53-56 | the remaining count is exactly how many more calls pass at that instant |
| RateLimit.AllowKeepsSound | internal/ratelimit/limiter.go:44-56 | tokens stay between nothing and capacity |
| RateLimit.KeysAreIndependent | internal/ratelimit/limiter.go:40-64 | the answers to a key are those of its own calls alone |
| RateLimit.EvictionExactly | internal/ratelimit/limiter.go:68-80 | sweeps anywhere in any run change no answer, exactly if the seconds of maxIdle and one nanosecond more, times the rate, are at least the capacity |
| RateLimit.SweepsChangeNothing | internal/ratelimit/limiter.go:68-80 | the simulation behind it: swept and unswept limiters answer alike through every continuation |
| RateLimit.WaitingSuffices | internal/ratelimit/limiter.go:57-63 | one nanosecond more than RetryAfter is long enough for a caller alone on its key |
| RateLimit.ShorterWaitIsRefused | internal/ratelimit/limiter.go:57-63 | a RetryAfter above its minimum is no longer than it must be: a caller that waits less is refused again |
| Inspections.Record | internal/domain/inspection/inspection.go:58-78 | replace or append, then sort, is insertion in place into the ordered list |
| Inspections.Submit | internal/domain/inspection/inspection.go:80-104 | the loop over the required codes computes the submission |
| Inspections.LastWriteWins | internal/domain/inspection/inspection.go:58-78 | after any sequence of records the list is ordered without repetition and holds the last item of each code |
| Inspections.OnlyLastWritesMatter | internal/domain/inspection/inspection.go:58-78 | two histories with the same last items give the same list |
| Inspections.SubmittableExactly | internal/domain/inspection/inspection.go:80-93 | with required codes only, the length test and the lookups succeed exactly if every code is recorded |
| Inspections.SubmissionVerdict | internal/domain/inspection/inspection.go:84-104 | the score is twenty for each code not answered by a failure, the inspection passes exactly if no item failed, and nothing else of the header changes but version and time stamp |
| OutboxWorker.Process | internal/worker/worker.go:61-85 | one cycle claims due jobs and marks each by its verdict, as `HandlingWrites` spells out |
| OutboxWorker.RunCycle | internal/worker/worker.go:31-59 | the same under the configured limits, or five attempts and twenty jobs |
| OutboxWorker.ProcessIsARun | internal/worker/worker.go:61-85 | a cycle is a claim followed by one handling per claimed job |
| OutboxWorker.HandlingWrites | internal/storage/sqlite/audit_outbox.go:67-78 | a success makes the job done and leaves its attempts; a failure counts one attempt and is permanent if it was the last allowed, or else sets the next attempt; no other row changes |
| OutboxWorker.FateExactly | internal/worker/worker.go:66-83 | over any run a pending job ends done exactly if a handling of it succeeded, a permanent failure exactly if none did and the attempts are used up, and pending otherwise; its attempts count failed handlings only |
| OutboxWorker.HandledAtMostMax | internal/worker/worker.go:66-78 | over any run of one runner a job is handled at most the maximum number of times |
| OutboxWorker.PermanentAfterExactlyMax | internal/worker/worker.go:68-72 | a job that always fails is pending until it has been handled exactly that often, and then a permanent failure |
| OutboxWorker.RetriesAreSpaced | internal/worker/worker.go:73-76 | between failure k, from zero, and the next handling lie at least two to the min(k, 6) seconds |
| OutboxWorker.RetryFallsDue | internal/worker/worker.go:73-76 | and no more than that: until handled again the failed job is pending and due exactly when its rest is over |
| OutboxWorker.RestsDouble | internal/worker/worker.go:73-73 | the rest is one second, doubles with each failure, and stays at 64 seconds from the seventh on |
| OutboxWorker.SettledStays | internal/storage/sqlite/audit_outbox.go:48-78 | a job that is done or failed for good is never claimed or handled again |
| OutboxWorker.WorkShrinks | internal/worker/worker.go:66-83 | every handling strictly lowers the attempts left over all pending jobs |
| OutboxWorker.WorkerComesToRest | internal/worker/worker.go:61-85 | without new jobs the handler is called no more often than that |
| Batch.EveryScheduleIsSequential | internal/service/batch/service.go:25-54 | under every schedule and cancellation at most the limit (four unless configured) work at once; at the end every slot is written once, the store is that of the executed assignments one after the other, and successes are as many as newly assigned shifts |
| Batch.EachCallsOnce | internal/service/batch/service.go:33-52 | when all have finished, each goroutine has called AssignShift exactly once and its slot says how the call went on the store as it then was; or it never called, gave up after a cancellation, and its slot says failure; without a cancellation all have called |
| Batch.SuccessMeansItsTurn | internal/service/batch/service.go:46-49 | a slot says success exactly if its assignment went through at its turn |
| Batch.MovesAdvance | internal/service/batch/service.go:33-52 | every move but a cancellation brings the batch nearer to its end |
| Batch.NeverStuck | internal/service/batch/service.go:37-43 | until all are finished some goroutine can go on |
| Batch.CanFinish | internal/service/batch/service.go:25-54 | from every state a batch can come to, some schedule without a cancellation finishes all goroutines |
| Reconciliation.Evaluate | internal/domain/reconciliation/reconciliation.go:36-85 | every finding is made exactly as often as shifts and trips call for it, blocking ones first and then by code; the figures are the count and the sum; closable exactly if none is blocking |
| Reconciliation.ReportExactly | internal/domain/reconciliation/reconciliation.go:36-85 | the report counts the completed shifts, sums end less start reading over the completed trips, makes each finding once per shift or trip that calls for it, and is closable exactly if it has only warnings |
| Reconciliation.ShiftFindings | internal/domain/reconciliation/reconciliation.go:45-69 | the five findings of a shift, each with its severity and exact condition |
| Reconciliation.TripFindings | internal/domain/reconciliation/reconciliation.go:70-77 | the two findings of a trip: active for more than sixteen hours, or completed without distance |
| Reconciliation.ReportOrder | internal/domain/reconciliation/reconciliation.go:78-83 | blocking findings first, and among equals the codes in alphabetical order |
| Reconciliation.OrderDoesNotMatter | internal/domain/reconciliation/reconciliation.go:36-85 | findings and figures do not depend on the order of the inputs |
| Reconciliation.ClosableExactly | internal/domain/reconciliation/reconciliation.go:44-92 | a day is closable exactly if nothing of what blocks it is there, said of shifts and trips |
| Reporting.EvaluateDay | internal/service/reconciliation/service.go:22-43 | the service evaluates all shifts of the date against all trips begun within its bounds |
| Paging.ReadAll | internal/service/reconciliation/service.go:45-76 | while rows only join at the end, and if the rows do not outgrow the queries (at most a page of them per query), the offset loop ends and returns exactly what its last query saw |
| Reporting.StructuralFindingsUnreachable | internal/domain/reconciliation/reconciliation.go:48-68 | in no reachable store do all stored trips yield a trip mismatch or two trips for a shift |
| Reporting.MismatchExactly | internal/service/reconciliation/service.go:30-42 | with only the day's trips, the mismatch is reported exactly for completed shifts whose trip began on another service date |
| Reporting.MismatchIsReported | internal/service/reconciliation/service.go:30-42 | for any limits and calendar, which planning uses too, some run from the empty database leads to a day whose report contains a mismatch, however its rows are listed |
| Guards.UpkeepWrites | internal/service/maintenance/service.go:26-107 | for reference, the transaction spelled out: the rows that opening and completing an order write |
| Guards.CreateShiftExactly | internal/service/planning/service.go:63-91 | for reference, the transaction spelled out: when a shift is created, and the row it gets |
| Guards.CancelExactly | internal/service/planning/service.go:93-106 | for reference, the transaction spelled out: uninterrupted, a shift is cancelled exactly if it is scheduled or assigned |
| Guards.BeginExactly | internal/service/maintenance/service.go:62-75 | for reference, the transaction spelled out: uninterrupted, an order is started exactly if it is open, and the vehicle is not touched |
| Guards.RegisterExactly | internal/service/fleet/service.go:28-53 | for reference, the transaction spelled out: when a vehicle is registered, and its row |
| Guards.SpacesAre | internal/validation/validation.go:36-40 | for reference: the characters that a blank text consists of |
| Refusals.AssignRefusal | internal/service/dispatch/service.go:52-88 | for reference, which error is reported: of several reasons the first in the order of the checks |
| Refusals.StartRefusal | internal/service/dispatch/service.go:110-177 | the same for starting a trip |
| Refusals.ReturnRefusal | internal/service/dispatch/service.go:186-226 | the same for returning |
| Refusals.OpenRefusal | internal/service/maintenance/service.go:26-60 | the same for opening an order |
| Refusals.TransitionRefusals | internal/service/maintenance/service.go:62-107 | the same for cancelling a shift and for starting and completing an order |
| Refusals.CreateShiftRefusal | internal/service/planning/service.go:63-91 | the same for creating a shift |
| Refusals.RegisterRefusal | internal/service/fleet/service.go:28-53 | the same for registering a vehicle |
| Refusals.CreateInspectionRefusal | internal/service/inspection/service.go:34-59 | the same for creating an inspection |
| Refusals.RecordRefusal | internal/service/inspection/service.go:61-75 | the same for recording an item |
| Refusals.SubmitRefusal | internal/service/inspection/service.go:77-122 | the same for submitting |
| Refusals.FuelRefusal | internal/service/fuel/service.go:38-86 | the same for recording fuel |

## Left out

- Dispatch.AssignShift: which of the roster's rules a refused assignment reports is not stated, only that it is refused and nothing changes; every other error is.
- Planning.RegisterVehicle: number plates, their format and their uniqueness are not modelled, nor depots.
- Reporting.EvaluateDay: the two listings are read from a store at rest; `Paging.ReadAll` allows rows to be appended between pages, but a shift created between two pages with an earlier start can be missed or read twice.
- Scheduling.CanAssign: the pages are cut from one result set, as inside the transaction that calls it.
- Paging.ReadAll: rows that change, or join in the middle, between two queries are not covered, nor a result set that keeps outgrowing the queries, for which the loop need not end.
- Outbox.OneJobPerEvent: incident.reported jobs (internal/service/dispatch/service.go:263-266) are left out with incidents; nothing else reads or writes what they carry.
- Storage.Store.SaveVehicle: the unique plate number is not modelled.
- Storage.Store.ActiveMaintenanceForVehicle: says whether there is an order, which is all its callers use, and not which one is returned.
- Storage.Store.ListShifts: filters other than the date and the cut into pages are not part of it; `Scheduling.CanAssign` and `Paging.ReadAll` cut the pages.
- Storage.Store.ListTrips: filters other than the range, the order by creation and the cut into pages are not part of it.
- OutboxWorker.RunCycle: the ticker loop of Run, and what it does with the error of a cycle, are left out.
- RateLimit.Limiter.Allow: tokens are reals, so floating-point rounding is not modelled, nor the rounding of the HTTP header.
- Storage.Store.LatestInspectionForVehicle: among inspections of the same instant any may be returned; the theorems hold for each.
- OutboxWorker.Process: handlers and the clock are parameters, one runner is assumed (ClaimDue reserves nothing), and store writes succeed; the ticker of Run is left out.
- Batch.EveryScheduleIsSequential: the goroutines alone write the store meanwhile; the slice of results is a sequence in the state.
- Audit events and their table: the calls are taken to succeed, and nothing reads them.
- Incidents, routes and crew services: routes and drivers appear as rows that any step may rewrite; `CanOperate` is modelled because starting a trip depends on it.
- HTTP, middleware, authentication, sessions, configuration, seeding and migrations: plumbing without a property of this kind.
- Transitions that no service calls: cancelling a trip, cancelling an order, suspending a driver.
- Rows carry the columns the operations read; creation times, notes, plates and the like are left out.
- Payloads are the rows themselves instead of their JSON; the efficiency figure in the fuel payload is left out.
- Time is whole nanoseconds. The database compares texts that drop trailing zeros, whose order can differ from that of the instants within one second; this is not modelled.
- Calendars have a fixed UTC offset and dates are day numbers; daylight saving, for which bounds and service dates need not agree, is not modelled.
- One clock reading per call; within a call the code reads the clock several times.
- Ids are parameters; an id in use makes the insert fail.
- Integers are unbounded; 64-bit overflow is not modelled.
- Cancelled contexts and database failures show as calls that are abandoned or as transactions that do not happen.
