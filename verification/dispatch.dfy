/** Assigning shifts, starting and returning trips (internal/service/dispatch/service.go).
    Each transaction is given twice: as a function from tables to tables, in which a failure yields no
    tables at all, and as the method that writes the store step by step and rolls back. */
module Dispatch {
  import opened Basics
  import opened Schema
  import opened Storage
  import Scheduling
  import Policy
  import W = Workplan
  import T = Trips
  import I = Inspections

  const START_SCOPE := "start-trip"

  function KeyOf(vehicleId: string, key: string): Key {
    Key(START_SCOPE, vehicleId + ":" + key)
  }

  function Ttl(configured: int): int {
    if configured <= 0 then 24 * HOUR else configured
  }

  datatype AssignInput = AssignInput(shiftId: string, vehicleId: string)

  /** What the database answers to the two queries whose answer the tables do not fix. */
  datatype AssignView = AssignView(rows: seq<W.Shift>, latest: Option<I.Head>)

  ghost predicate Shows(t: Tables, input: AssignInput, view: AssignView) {
    && (input.shiftId in t.shifts ==> IsListing(t.shifts, t.shifts[input.shiftId].serviceDate, view.rows))
    && IsLatest(t.heads, input.vehicleId, view.latest)
  }

  function AssignTx(t: Tables, input: AssignInput, view: AssignView, now: Time,
                    l: Scheduling.Limits): Result<(Tables, W.Shift)> {
    var shift :- Get(t.shifts, input.shiftId);
    var route :- Get(t.routes, shift.routeId);
    var vehicle :- Get(t.vehicles, input.vehicleId);
    var _ :- Need(Scheduling.CanTake(view.rows, shift, vehicle.id, l), Conflict(Unavailable));
    var facts := Policy.AssignmentFacts(vehicle, route, shift, HasActiveOrder(t.orders, vehicle.id), view.latest, now);
    var _ :- Policy.CheckAssignment(facts);
    var taken :- shift.Assign(vehicle.id, now);
    var t1 :- SaveShift(t, taken, shift.version);
    Ok((t1, taken))
  }

  datatype StartInput = StartInput(
    vehicleId: string,
    shiftId: string,
    driverId: string,
    key: string,
    startOdometer: int,
    loadKg: int)

  /** The ids the generator hands out to one call. */
  datatype Ids = Ids(row: string, job: string)

  function StartTx(t: Tables, input: StartInput, ids: Ids, now: Time, ttl: int): Result<(Tables, T.Trip)> {
    var shift :- Get(t.shifts, input.shiftId);
    var route :- Get(t.routes, shift.routeId);
    var vehicle :- Get(t.vehicles, input.vehicleId);
    var facts := Policy.StartFacts(vehicle, route, shift, input.startOdometer, input.loadKg,
                                   HasActiveOrder(t.orders, vehicle.id), now);
    var _ :- Policy.CheckStart(facts);
    var driver :- Get(t.drivers, input.driverId);
    var _ :- driver.CanOperate(vehicle.vehicleType, now);
    var onDuty :- vehicle.StartDispatch(now);
    var t1 :- SaveVehicle(t, onDuty, vehicle.version);
    var started :- shift.Start(now);
    var t2 :- SaveShift(t1, started, shift.version);
    var planned :- T.New(ids.row, vehicle.id, started.id, driver.id, driver.name, input.key, now);
    var trip :- planned.Start(input.startOdometer, input.loadKg, now);
    var t3 :- SaveTrip(t2, trip, 0);
    var t4 :- SaveIdempotency(t3, KeyOf(input.vehicleId, input.key), KeyRow(trip, now, now + Ttl(ttl)));
    var t5 :- Enqueue(t4, ids.job, TripStarted(trip), now);
    Ok((t5, trip))
  }

  /** StartTrip as a whole, given what the lookup before the transaction found. */
  function StartResult(t: Tables, found: Option<T.Trip>, input: StartInput, ids: Ids, now: Time,
                       ttl: int): Result<(Tables, T.Trip)> {
    if input.key == "" then Err(Validation)
    else if found.Some? then Ok((t, found.value))
    else StartTx(t, input, ids, now, ttl)
  }

  function ReturnTx(t: Tables, tripId: string, endOdometer: int, jobId: string, now: Time): Result<(Tables, T.Trip)> {
    var current :- Get(t.trips, tripId);
    var vehicle :- Get(t.vehicles, current.vehicleId);
    var shift :- Get(t.shifts, current.shiftId);
    var completed :- current.Complete(endOdometer, now);
    var t1 :- SaveTrip(t, completed, current.version);
    var back :- vehicle.FinishReturn(endOdometer, now);
    var t2 :- SaveVehicle(t1, back, vehicle.version);
    var done :- shift.Complete(now);
    var t3 :- SaveShift(t2, done, shift.version);
    var t4 :- Enqueue(t3, jobId, TripCompleted(completed), now);
    Ok((t4, completed))
  }

  // ---------------------------------------------------------------------------------------
  // The service methods
  // ---------------------------------------------------------------------------------------

  /** The call did to the store what the transaction function says: all of it, or nothing. */
  ghost predicate Settled<R>(intended: Result<(Tables, R)>, before: Tables, after: Tables, r: Result<R>) {
    match intended
    case Ok(done) => r == Ok(done.1) && after == done.0
    case Err(e) => r == Err(e) && after == before
  }

  method AssignShift(store: Store, input: AssignInput, now: Time, l: Scheduling.Limits)
    returns (r: Result<W.Shift>, ghost view: AssignView)
    requires Keyed(store.View())
    modifies store
    ensures Shows(old(store.View()), input, view)
    ensures match AssignTx(old(store.View()), input, view, now, l)
            case Ok(done) => r == Ok(done.1) && store.View() == done.0
            case Err(e) => r.Err? && (e != Conflict(Unavailable) ==> r.error == e) && store.View() == old(store.View())
  {
    store.Begin();
    r, view := AssignBody(store, input, now, l);
    if r.Err? {
      store.Rollback();
    }
  }

  method AssignBody(store: Store, input: AssignInput, now: Time, l: Scheduling.Limits)
    returns (r: Result<W.Shift>, ghost view: AssignView)
    requires Keyed(store.View())
    modifies store
    ensures store.begun == old(store.begun)
    ensures Shows(old(store.View()), input, view)
    ensures match AssignTx(old(store.View()), input, view, now, l)
            case Ok(done) => r == Ok(done.1) && store.View() == done.0
            case Err(e) => r.Err? && (e != Conflict(Unavailable) ==> r.error == e)
  {
    hide Scheduling.CanTake;
    var latest := store.LatestInspectionForVehicle(input.vehicleId);
    view := AssignView([], latest);
    if input.shiftId !in store.shifts {
      return Err(NotFound), view;
    }
    var shift := store.shifts[input.shiftId];
    var rows := store.ListShifts(shift.serviceDate);
    view := AssignView(rows, latest);
    if shift.routeId !in store.routes || input.vehicleId !in store.vehicles {
      return Err(NotFound), view;
    }
    var route, vehicle := store.routes[shift.routeId], store.vehicles[input.vehicleId];
    var fit := Scheduling.CanAssign(rows, shift, vehicle.id, l);
    if fit.Err? {
      return Err(fit.error), view;
    }
    var active := store.ActiveMaintenanceForVehicle(vehicle.id);
    var allowed := Policy.CheckAssignment(Policy.AssignmentFacts(vehicle, route, shift, active, latest, now));
    if allowed.Err? {
      return Err(allowed.error), view;
    }
    var result := shift.Assign(vehicle.id, now);
    if result.Err? {
      return result, view;
    }
    var saved := store.SaveShift(result.value, shift.version);
    if saved.Err? {
      return Err(saved.error), view;
    }
    r := result;
  }

  method StartTrip(store: Store, input: StartInput, ids: Ids, now: Time, ttl: int)
    returns (r: Result<T.Trip>, ghost found: Option<T.Trip>)
    requires Keyed(store.View())
    modifies store
    ensures IsTripByKey(old(store.trips), input.vehicleId, input.key, found)
    ensures Settled(StartResult(old(store.View()), found, input, ids, now, ttl), old(store.View()), store.View(), r)
  {
    var existing := store.FindTripByKey(input.vehicleId, input.key);
    found := existing;
    if input.key == "" {
      return Err(Validation), found;
    }
    if existing.Some? {
      return Ok(existing.value), found;
    }
    store.Begin();
    r := StartBody(store, input, ids, now, ttl);
    if r.Err? {
      store.Rollback();
    }
  }

  method StartBody(store: Store, input: StartInput, ids: Ids, now: Time, ttl: int) returns (r: Result<T.Trip>)
    modifies store
    ensures store.begun == old(store.begun)
    ensures match StartTx(old(store.View()), input, ids, now, ttl)
            case Ok(done) => r == Ok(done.1) && store.View() == done.0
            case Err(e) => r == Err(e)
  {
    hide Schema.SaveVehicle, Schema.SaveShift, Schema.SaveTrip, Schema.SaveIdempotency, Schema.Enqueue;
    if input.shiftId !in store.shifts {
      return Err(NotFound);
    }
    var shift := store.shifts[input.shiftId];
    if shift.routeId !in store.routes || input.vehicleId !in store.vehicles {
      return Err(NotFound);
    }
    var route, vehicle := store.routes[shift.routeId], store.vehicles[input.vehicleId];
    var active := store.ActiveMaintenanceForVehicle(vehicle.id);
    var allowed := Policy.CheckStart(
      Policy.StartFacts(vehicle, route, shift, input.startOdometer, input.loadKg, active, now));
    if allowed.Err? {
      return Err(allowed.error);
    }
    if input.driverId !in store.drivers {
      return Err(NotFound);
    }
    var driver := store.drivers[input.driverId];
    var qualified := driver.CanOperate(vehicle.vehicleType, now);
    if qualified.Err? {
      return Err(qualified.error);
    }
    var onDuty := vehicle.StartDispatch(now);
    if onDuty.Err? {
      return Err(onDuty.error);
    }
    var saved := store.SaveVehicle(onDuty.value, vehicle.version);
    if saved.Err? {
      return Err(saved.error);
    }
    var started := shift.Start(now);
    if started.Err? {
      return Err(started.error);
    }
    saved := store.SaveShift(started.value, shift.version);
    if saved.Err? {
      return Err(saved.error);
    }
    var planned := T.New(ids.row, vehicle.id, started.value.id, driver.id, driver.name, input.key, now);
    if planned.Err? {
      return Err(planned.error);
    }
    var trip := planned.value.Start(input.startOdometer, input.loadKg, now);
    if trip.Err? {
      return Err(trip.error);
    }
    saved := store.SaveTrip(trip.value, 0);
    if saved.Err? {
      return Err(saved.error);
    }
    saved := store.SaveIdempotency(KeyOf(input.vehicleId, input.key), KeyRow(trip.value, now, now + Ttl(ttl)));
    if saved.Err? {
      return Err(saved.error);
    }
    saved := store.Enqueue(ids.job, TripStarted(trip.value), now);
    if saved.Err? {
      return Err(saved.error);
    }
    r := trip;
  }

  method ReturnTrip(store: Store, tripId: string, endOdometer: int, jobId: string, now: Time)
      returns (r: Result<T.Trip>)
    modifies store
    ensures Settled(ReturnTx(old(store.View()), tripId, endOdometer, jobId, now), old(store.View()), store.View(), r)
  {
    store.Begin();
    r := ReturnBody(store, tripId, endOdometer, jobId, now);
    if r.Err? {
      store.Rollback();
    }
  }

  method ReturnBody(store: Store, tripId: string, endOdometer: int, jobId: string, now: Time)
      returns (r: Result<T.Trip>)
    modifies store
    ensures store.begun == old(store.begun)
    ensures match ReturnTx(old(store.View()), tripId, endOdometer, jobId, now)
            case Ok(done) => r == Ok(done.1) && store.View() == done.0
            case Err(e) => r == Err(e)
  {
    hide Schema.SaveVehicle, Schema.SaveShift, Schema.SaveTrip, Schema.Enqueue;
    if tripId !in store.trips {
      return Err(NotFound);
    }
    var current := store.trips[tripId];
    if current.vehicleId !in store.vehicles || current.shiftId !in store.shifts {
      return Err(NotFound);
    }
    var vehicle, shift := store.vehicles[current.vehicleId], store.shifts[current.shiftId];
    var completed := current.Complete(endOdometer, now);
    if completed.Err? {
      return Err(completed.error);
    }
    var saved := store.SaveTrip(completed.value, current.version);
    if saved.Err? {
      return Err(saved.error);
    }
    var back := vehicle.FinishReturn(endOdometer, now);
    if back.Err? {
      return Err(back.error);
    }
    saved := store.SaveVehicle(back.value, vehicle.version);
    if saved.Err? {
      return Err(saved.error);
    }
    var done := shift.Complete(now);
    if done.Err? {
      return Err(done.error);
    }
    saved := store.SaveShift(done.value, shift.version);
    if saved.Err? {
      return Err(saved.error);
    }
    saved := store.Enqueue(jobId, TripCompleted(completed.value), now);
    if saved.Err? {
      return Err(saved.error);
    }
    r := completed;
  }
}
