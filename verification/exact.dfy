/** Each transaction, in a store that satisfies the invariants: exactly when it commits, and which of
    the permitted changes it then makes. */
module Exact {
  import opened Basics
  import opened Schema
  import opened Dispatch
  import opened Planning
  import opened Upkeep
  import opened Changes
  import opened Invariant
  import Fuelling
  import Inspecting
  import Scheduling
  import Policy
  import V = Vehicles
  import W = Workplan
  import C = Crew
  import T = Trips
  import O = Orders
  import I = Inspections
  import F = Fuel
  import TextOrder

  /** A transaction made a permitted change. */
  ghost predicate Made(t: Tables, cfg: Config, c: Change, after: Tables) {
    Permitted(t, cfg, c) && after == Effect(t, c)
  }

  lemma RegisterMakesChange(t: Tables, cfg: Config, input: VehicleInput, id: string, now: Time)
    ensures RegisterTx(t, input, id, now).Ok? ==>
      Made(t, cfg, VehicleAdded(RegisterTx(t, input, id, now).value.1), RegisterTx(t, input, id, now).value.0)
  {
  }

  lemma CreateShiftMakesChange(t: Tables, cfg: Config, input: ShiftInput, id: string, now: Time)
    ensures CreateShiftTx(t, input, cfg.calendar, id, now).Ok? ==>
      Made(t, cfg, ShiftCreated(CreateShiftTx(t, input, cfg.calendar, id, now).value.1),
           CreateShiftTx(t, input, cfg.calendar, id, now).value.0)
  {
  }

  /** A compare-and-set save of a cancellation, when what was read still stands. */
  lemma CancelMakesChange(t: Tables, cfg: Config, p: Replacement<W.Shift>)
    requires Inv(t, cfg) && p.read.Cancel(p.write.updatedAt) == Ok(p.write)
    requires p.read.id in t.shifts && (t.shifts[p.read.id].version == p.read.version ==> t.shifts[p.read.id] == p.read)
    ensures SaveCancelled(t, p).Ok? <==> t.shifts[p.read.id] == p.read
    ensures SaveCancelled(t, p).Ok? ==> Made(t, cfg, ShiftCancelled(p.write), SaveCancelled(t, p).value.0)
  {
    hide VehiclesOk, TripsOk, TripsUnique, Covered, OrdersOk, OdometerOk, JobsOk, KeysOk, InspectionsOk;
    hide BookingOk, CalendarOk;
  }

  lemma AssignMakesChange(t: Tables, cfg: Config, input: AssignInput, view: AssignView, now: Time)
    requires Inv(t, cfg) && Shows(t, input, view)
    ensures AssignTx(t, input, view, now, cfg.limits).Ok? ==>
      Made(t, cfg, ShiftAssigned(AssignTx(t, input, view, now, cfg.limits).value.1),
           AssignTx(t, input, view, now, cfg.limits).value.0)
  {
    hide TripsOk, TripsUnique, Covered, OrdersOk, OdometerOk, JobsOk, KeysOk, InspectionsOk, BookingOk, CalendarOk;
    hide Scheduling.CanTake, Scheduling.LeavesRoom, HasActiveOrder, IsListing, IsLatest;
    if AssignTx(t, input, view, now, cfg.limits).Ok? {
      Scheduling.ListingDecides(t.shifts, view.rows, t.shifts[input.shiftId], input.vehicleId, cfg.limits);
    }
  }

  /** The guards of starting a trip. */
  ghost predicate StartAllowed(t: Tables, input: StartInput, now: Time) {
    && input.shiftId in t.shifts && input.vehicleId in t.vehicles && input.driverId in t.drivers
    && t.shifts[input.shiftId].routeId in t.routes
    && t.shifts[input.shiftId].status == W.Assigned
    && t.shifts[input.shiftId].assignedVehicleId == Some(input.vehicleId)
    && t.vehicles[input.vehicleId].status == V.Available && now < t.vehicles[input.vehicleId].inspectionDueAt
    && !HasActiveOrder(t.orders, input.vehicleId)
    && t.routes[t.shifts[input.shiftId].routeId].requiredCapacityKg <= t.vehicles[input.vehicleId].capacityKg
    && t.vehicles[input.vehicleId].odometerKm <= input.startOdometer
    && 0 <= input.loadKg <= t.vehicles[input.vehicleId].capacityKg
    && MayDrive(t.drivers[input.driverId], t.vehicles[input.vehicleId].vehicleType, now)
  }

  /** The driver is active, and holds a license and a certificate for the type that are still valid. */
  ghost predicate MayDrive(d: C.Driver, vehicleType: string, now: Time) {
    && d.status == C.Active && now < d.licenseExpiresAt
    && exists i :: 0 <= i < |d.certifications|
                   && d.certifications[i].vehicleType == vehicleType && now < d.certifications[i].expiresAt
  }

  /** The new rows are named, and neither their ids nor the vehicle's key are taken by rows of their tables. */
  ghost predicate StartIsNew(t: Tables, input: StartInput, ids: Ids) {
    && input.key != "" && ids.row != ""
    && ids.row !in t.trips && ids.job !in t.jobs
    && IsTripByKey(t.trips, input.vehicleId, input.key, None)
  }

  /** What starting a trip takes, the idempotency row aside. */
  ghost predicate MayStartByPair(t: Tables, input: StartInput, ids: Ids, now: Time) {
    StartAllowed(t, input, now) && StartIsNew(t, input, ids)
  }

  /** What starting a trip takes. */
  ghost predicate MayStart(t: Tables, input: StartInput, ids: Ids, now: Time) {
    MayStartByPair(t, input, ids, now) && KeyOf(input.vehicleId, input.key) !in t.keys
  }

  /** StartTrip's transaction commits exactly under its guards: none of its seven later steps can fail
      on its own. */
  lemma StartExactly(t: Tables, cfg: Config, input: StartInput, ids: Ids, now: Time, ttl: int)
    requires Inv(t, cfg)
    ensures StartTx(t, input, ids, now, ttl).Ok? <==> MayStart(t, input, ids, now)
  {
    hide TripsUnique, Covered, OrdersOk, OdometerOk, JobsOk, KeysOk, InspectionsOk, BookingOk, CalendarOk, TripsOk;
    hide MayStartByPair, StartTx, VehiclesOk, DriversOk, ShiftsOk;
    if StartTx(t, input, ids, now, ttl).Ok? {
      StartNeeds(t, input, ids, now, ttl);
    }
    if MayStart(t, input, ids, now) {
      StartInShift(t, input, ids, now);
      NoTripYet(t, cfg, input.shiftId);
      StartCommits(t, cfg, input, ids, now, ttl);
    }
  }

  lemma StartInShift(t: Tables, input: StartInput, ids: Ids, now: Time)
    requires MayStart(t, input, ids, now)
    ensures input.shiftId in t.shifts && t.shifts[input.shiftId].status == W.Assigned
  {
  }

  /** A commit implies the guards. */
  lemma StartNeeds(t: Tables, input: StartInput, ids: Ids, now: Time, ttl: int)
    requires VehiclesOk(t.vehicles) && ShiftsOk(t.shifts, t.vehicles) && DriversOk(t.drivers)
    requires StartTx(t, input, ids, now, ttl).Ok?
    ensures MayStart(t, input, ids, now)
  {
    StartNeedsGuards(t, input, ids, now, ttl);
    StartNeedsNew(t, input, ids, now, ttl);
    hide StartTx, StartAllowed, StartIsNew;
  }

  lemma StartNeedsGuards(t: Tables, input: StartInput, ids: Ids, now: Time, ttl: int)
    requires VehiclesOk(t.vehicles) && StartTx(t, input, ids, now, ttl).Ok?
    ensures StartAllowed(t, input, now)
  {
    hide SaveVehicle, SaveShift, SaveTrip, SaveIdempotency, Enqueue, T.New, HasActiveOrder, KeyOf;
  }

  lemma StartNeedsNew(t: Tables, input: StartInput, ids: Ids, now: Time, ttl: int)
    requires VehiclesOk(t.vehicles) && StartTx(t, input, ids, now, ttl).Ok?
    ensures StartIsNew(t, input, ids) && KeyOf(input.vehicleId, input.key) !in t.keys
  {
    hide SaveVehicle, SaveShift, HasActiveOrder, KeyOf, Policy.CheckStart;
    var vehicle, shift := t.vehicles[input.vehicleId], t.shifts[input.shiftId];
    var onDuty, started := vehicle.StartDispatch(now).value, shift.Start(now).value;
    VehicleSavesElsewhere(t, onDuty, vehicle.version);
    ShiftSavesElsewhere(SaveVehicle(t, onDuty, vehicle.version).value, started, shift.version);
  }

  /** The change a permitted start makes. */
  ghost function StartChange(t: Tables, input: StartInput, ids: Ids, now: Time, ttl: int): Change
    requires MayStart(t, input, ids, now)
  {
    var vehicle, shift, driver := t.vehicles[input.vehicleId], t.shifts[input.shiftId], t.drivers[input.driverId];
    var trip := T.Trip(ids.row, input.vehicleId, input.shiftId, input.driverId, T.Active, driver.name, Some(now), None,
                       Some(input.startOdometer), None, input.loadKg, input.key, 2, now);
    TripBegun(vehicle.(status := V.OnDuty, version := vehicle.version + 1, updatedAt := now),
              shift.(status := W.InProgress, version := shift.version + 1, updatedAt := now),
              trip, KeyRow(trip, now, now + (if ttl <= 0 then 24 * HOUR else ttl)),
              Job(ids.job, TripStarted(trip), Pending, 0, now))
  }

  lemma StartCommits(t: Tables, cfg: Config, input: StartInput, ids: Ids, now: Time, ttl: int)
    requires VehiclesOk(t.vehicles) && DriversOk(t.drivers) && ShiftsOk(t.shifts, t.vehicles)
    requires MayStart(t, input, ids, now)
    requires forall k :: k in t.trips ==> t.trips[k].shiftId != input.shiftId
    ensures StartTx(t, input, ids, now, ttl) ==
      Ok((Effect(t, StartChange(t, input, ids, now, ttl)), StartChange(t, input, ids, now, ttl).tr))
  {
    hide HasActiveOrder, KeyOf, SaveVehicle, SaveShift, SaveTrip, IsTripByKey, Policy.CheckStart, StartTx;
    var c := StartChange(t, input, ids, now, ttl);
    VehicleUpdates(t, c.v, t.vehicles[input.vehicleId].version);
    var t1 := t.(vehicles := t.vehicles[c.v.id := c.v]);
    ShiftUpdates(t1, c.s, t.shifts[input.shiftId].version);
    var t2 := t1.(shifts := t.shifts[c.s.id := c.s]);
    TripInserts(t2, c.tr);
    StartChains(t, t1, t2, input, ids, now, ttl);
  }

  /** The statements of a start, given that its saves go through. */
  lemma StartChains(t: Tables, t1: Tables, t2: Tables, input: StartInput, ids: Ids, now: Time, ttl: int)
    requires VehiclesOk(t.vehicles) && DriversOk(t.drivers) && ShiftsOk(t.shifts, t.vehicles)
    requires MayStart(t, input, ids, now)
    requires var c := StartChange(t, input, ids, now, ttl);
      && t1 == t.(vehicles := t.vehicles[c.v.id := c.v]) && t2 == t1.(shifts := t.shifts[c.s.id := c.s])
      && SaveVehicle(t, c.v, t.vehicles[input.vehicleId].version) == Ok(t1)
      && SaveShift(t1, c.s, t.shifts[input.shiftId].version) == Ok(t2)
      && SaveTrip(t2, c.tr, 0) == Ok(t2.(trips := t2.trips[c.tr.id := c.tr]))
    ensures StartTx(t, input, ids, now, ttl) ==
      Ok((Effect(t, StartChange(t, input, ids, now, ttl)), StartChange(t, input, ids, now, ttl).tr))
  {
    hide HasActiveOrder, KeyOf, SaveVehicle, SaveShift, SaveTrip, IsTripByKey, Policy.CheckStart;
    StartPasses(t, input, ids, now);
  }

  /** The guards of a start pass. */
  lemma StartPasses(t: Tables, input: StartInput, ids: Ids, now: Time)
    requires VehiclesOk(t.vehicles) && DriversOk(t.drivers) && ShiftsOk(t.shifts, t.vehicles)
             && MayStart(t, input, ids, now)
    ensures var shift, vehicle, driver :=
        t.shifts[input.shiftId], t.vehicles[input.vehicleId], t.drivers[input.driverId];
      && Policy.CheckStart(Policy.StartFacts(vehicle, t.routes[shift.routeId], shift, input.startOdometer, input.loadKg,
                                             HasActiveOrder(t.orders, vehicle.id), now)).Ok?
      && vehicle.id == input.vehicleId && shift.id == input.shiftId && driver.id == input.driverId
      && vehicle.StartDispatch(now).Ok? && shift.Start(now).Ok?
      && T.New(ids.row, vehicle.id, shift.id, driver.id, driver.name, input.key, now).Ok?
  {
    hide HasActiveOrder, KeyOf;
  }

  /** The change a committed start makes is permitted. */
  lemma StartMakesChange(t: Tables, cfg: Config, input: StartInput, ids: Ids, now: Time, ttl: int)
    requires Inv(t, cfg) && StartTx(t, input, ids, now, ttl).Ok?
    ensures MayStart(t, input, ids, now)
    ensures StartTx(t, input, ids, now, ttl).value.1 == StartChange(t, input, ids, now, ttl).tr
    ensures Made(t, cfg, StartChange(t, input, ids, now, ttl), StartTx(t, input, ids, now, ttl).value.0)
  {
    StartExactly(t, cfg, input, ids, now, ttl);
    NoTripYet(t, cfg, input.shiftId);
    StartCommits(t, cfg, input, ids, now, ttl);
    StartPermitted(t, cfg, input, ids, now, ttl);
  }

  lemma StartPermitted(t: Tables, cfg: Config, input: StartInput, ids: Ids, now: Time, ttl: int)
    requires VehiclesOk(t.vehicles) && DriversOk(t.drivers) && ShiftsOk(t.shifts, t.vehicles)
    requires MayStart(t, input, ids, now)
    requires forall k :: k in t.trips ==> t.trips[k].shiftId != input.shiftId
    ensures Permitted(t, cfg, StartChange(t, input, ids, now, ttl))
  {
    hide HasActiveOrder, KeyOf;
  }

  lemma NoTripYet(t: Tables, cfg: Config, shiftId: string)
    requires Inv(t, cfg) && shiftId in t.shifts
    ensures t.shifts[shiftId].status !in {W.InProgress, W.Completed}
            ==> forall k :: k in t.trips ==> t.trips[k].shiftId != shiftId
  {
  }

  /** Returning never wedges: in a store that satisfies the invariants, the transaction commits exactly
      when the trip is active and the reading is not below its start. The checks that follow the first
      write - of the vehicle, the shift and all three versions - cannot fail. */
  lemma ReturnNeverWedges(t: Tables, cfg: Config, tripId: string, endOdometer: int, jobId: string, now: Time)
    requires Inv(t, cfg) && jobId !in t.jobs
    ensures ReturnTx(t, tripId, endOdometer, jobId, now).Ok? <==>
      tripId in t.trips && t.trips[tripId].status == T.Active && endOdometer >= t.trips[tripId].startOdometer.value
  {
    hide TripsUnique, Covered, OrdersOk, JobsOk, KeysOk, InspectionsOk, BookingOk, CalendarOk, TripsApart;
    hide FuelOutsideTrips;
  }

  lemma ReturnMakesChange(t: Tables, cfg: Config, tripId: string, endOdometer: int, jobId: string, now: Time)
      returns (c: Change)
    requires Inv(t, cfg) && ReturnTx(t, tripId, endOdometer, jobId, now).Ok?
    ensures c.TripEnded? && c.tr == ReturnTx(t, tripId, endOdometer, jobId, now).value.1 && c.tr.id == tripId
    ensures Made(t, cfg, c, ReturnTx(t, tripId, endOdometer, jobId, now).value.0)
  {
    hide ReturnTx, Permitted, Effect;
    ReturnUnfolds(t, cfg, tripId, endOdometer, jobId, now);
    var (after, tr) := ReturnTx(t, tripId, endOdometer, jobId, now).value;
    c := TripEnded(after.vehicles[tr.vehicleId], after.shifts[tr.shiftId], tr, after.jobs[jobId]);
    ReturnIsPermitted(t, cfg, c, endOdometer, now);
    ReturnIsItsEffect(t, c, after);
  }

  lemma ReturnUnfolds(t: Tables, cfg: Config, tripId: string, endOdometer: int, jobId: string, now: Time)
    requires Inv(t, cfg) && ReturnTx(t, tripId, endOdometer, jobId, now).Ok?
    ensures var (after, tr) := ReturnTx(t, tripId, endOdometer, jobId, now).value;
      && tripId in t.trips && t.trips[tripId].Complete(endOdometer, now) == Ok(tr) && tr.id == tripId
      && tr.vehicleId in t.vehicles && tr.shiftId in t.shifts
      && tr.vehicleId in after.vehicles
         && t.vehicles[tr.vehicleId].FinishReturn(endOdometer, now) == Ok(after.vehicles[tr.vehicleId])
      && after.vehicles[tr.vehicleId].id == tr.vehicleId
      && tr.shiftId in after.shifts && t.shifts[tr.shiftId].Complete(now) == Ok(after.shifts[tr.shiftId])
      && after.shifts[tr.shiftId].id == tr.shiftId
      && jobId !in t.jobs && jobId in after.jobs && after.jobs[jobId] == Job(jobId, TripCompleted(tr), Pending, 0, now)
      && after == t.(trips := t.trips[tripId := tr],
                     vehicles := t.vehicles[tr.vehicleId := after.vehicles[tr.vehicleId]],
                     shifts := t.shifts[tr.shiftId := after.shifts[tr.shiftId]],
                     jobs := t.jobs[jobId := after.jobs[jobId]])
  {
    hide TripsUnique, Covered, OrdersOk, JobsOk, KeysOk, InspectionsOk, BookingOk, CalendarOk, TripsApart;
    hide FuelOutsideTrips, OdometerOk, DriversOk;
  }

  lemma ReturnIsPermitted(t: Tables, cfg: Config, c: Change, endOdometer: int, now: Time)
    requires c.TripEnded? && c.tr.id in t.trips && t.trips[c.tr.id].Complete(endOdometer, now) == Ok(c.tr)
    requires c.v.id == c.tr.vehicleId && c.v.id in t.vehicles
             && t.vehicles[c.v.id].FinishReturn(endOdometer, now) == Ok(c.v)
    requires c.s.id == c.tr.shiftId && c.s.id in t.shifts && t.shifts[c.s.id].Complete(now) == Ok(c.s)
    requires NewJob(t, c.job, TripCompleted(c.tr))
    ensures Permitted(t, cfg, c)
  {
  }

  lemma ReturnIsItsEffect(t: Tables, c: Change, after: Tables)
    requires c.TripEnded?
    requires after == t.(trips := t.trips[c.tr.id := c.tr], vehicles := t.vehicles[c.v.id := c.v],
                         shifts := t.shifts[c.s.id := c.s], jobs := t.jobs[c.job.id := c.job])
    ensures after == Effect(t, c)
  {
  }

  // -- maintenance ------------------------------------------------------------------------

  lemma ActiveMeans(orders: map<string, O.Order>, vehicleId: string)
    ensures HasActiveOrder(orders, vehicleId) <==>
      exists k :: k in orders && orders[k].vehicleId == vehicleId && orders[k].status in {O.Open, O.InProgress}
  {
  }

  /** A maintenance order is opened exactly on an available vehicle without an active one. */
  lemma OpenExactly(t: Tables, cfg: Config, vehicleId: string, kind: string, dueAt: Time, id: string, now: Time)
    requires Inv(t, cfg)
    ensures OpenTx(t, vehicleId, kind, dueAt, id, now).Ok? <==>
      && vehicleId in t.vehicles && t.vehicles[vehicleId].status == V.Available
      && (forall k :: k in t.orders && t.orders[k].vehicleId == vehicleId ==>
            t.orders[k].status !in {O.Open, O.InProgress})
      && kind != "" && dueAt > now && id != "" && id !in t.orders
  {
    hide TripsUnique, Covered, TripsOk, OdometerOk, JobsOk, KeysOk, InspectionsOk, BookingOk, CalendarOk;
    ActiveMeans(t.orders, vehicleId);
    hide HasActiveOrder, ShiftsOk, DriversOk;
    hide SaveVehicle;
    if vehicleId in t.vehicles {
      var v := t.vehicles[vehicleId];
      VehicleUpdates(t, v.(status := V.Maintenance, version := v.version + 1, updatedAt := now), v.version);
    }
  }

  lemma OpenMakesChange(t: Tables, cfg: Config, vehicleId: string, kind: string, dueAt: Time, id: string, now: Time)
    requires Inv(t, cfg) && OpenTx(t, vehicleId, kind, dueAt, id, now).Ok?
    ensures vehicleId in t.vehicles
    ensures Made(t, cfg, OrderOpened(OpenTx(t, vehicleId, kind, dueAt, id, now).value.0.vehicles[vehicleId],
                                     OpenTx(t, vehicleId, kind, dueAt, id, now).value.1),
                 OpenTx(t, vehicleId, kind, dueAt, id, now).value.0)
  {
    hide TripsUnique, Covered, TripsOk, OdometerOk, JobsOk, KeysOk, InspectionsOk, BookingOk, CalendarOk;
    hide HasActiveOrder, OrdersOk, ShiftsOk, DriversOk;
  }

  lemma BeginMakesChange(t: Tables, cfg: Config, p: Replacement<O.Order>)
    requires Inv(t, cfg) && p.read.Start(p.write.updatedAt) == Ok(p.write)
    requires p.read.id in t.orders && (t.orders[p.read.id].version == p.read.version ==> t.orders[p.read.id] == p.read)
    ensures SaveStarted(t, p).Ok? <==> t.orders[p.read.id] == p.read
    ensures SaveStarted(t, p).Ok? ==> Made(t, cfg, OrderBegun(p.write), SaveStarted(t, p).value.0)
  {
    hide TripsUnique, Covered, TripsOk, OdometerOk, JobsOk, KeysOk, InspectionsOk, BookingOk, CalendarOk;
  }

  /** An order is completed exactly when it is in progress and its vehicle is in maintenance. */
  lemma CompleteExactly(t: Tables, cfg: Config, id: string, now: Time)
    requires Inv(t, cfg)
    ensures CompleteTx(t, id, now).Ok? <==>
      id in t.orders && t.orders[id].status == O.InProgress
      && t.vehicles[t.orders[id].vehicleId].status == V.Maintenance
    ensures CompleteTx(t, id, now).Ok? ==>
      Made(t, cfg,
           OrderClosed(CompleteTx(t, id, now).value.0.vehicles[t.orders[id].vehicleId], CompleteTx(t, id, now).value.1),
           CompleteTx(t, id, now).value.0)
  {
    hide TripsUnique, Covered, TripsOk, OdometerOk, JobsOk, KeysOk, InspectionsOk, BookingOk, CalendarOk;
    hide HasActiveOrder;
  }

  // -- fuel -------------------------------------------------------------------------------

  /** The change a committed fuel record makes. */
  ghost function FuelChange(t: Tables, input: Fuelling.FuelInput, record: F.Record, jobId: string, now: Time): Change
    requires input.vehicleId in t.vehicles
  {
    var vehicle := t.vehicles[input.vehicleId];
    FuelLogged(if input.odometerKm > vehicle.odometerKm
               then Fuelling.Advanced(vehicle, input.odometerKm, now) else vehicle,
               record, Job(jobId, FuelRecorded(record), Pending, 0, now))
  }

  lemma FuelMakesChange(t: Tables, cfg: Config, input: Fuelling.FuelInput, ids: Ids, now: Time)
    requires Inv(t, cfg) && Fuelling.RecordTx(t, input, ids, now).Ok?
    ensures input.vehicleId in t.vehicles
    ensures Made(t, cfg, FuelChange(t, input, Fuelling.RecordTx(t, input, ids, now).value.1, ids.job, now),
                 Fuelling.RecordTx(t, input, ids, now).value.0)
  {
    hide Fuelling.RecordTx, Permitted, Effect, FuelChange;
    FuelGuards(t, input, ids, now);
    FuelEffect(t, input, ids, now);
    FuelPermitted(t, cfg, input, Fuelling.RecordTx(t, input, ids, now).value.1, ids, now);
  }

  lemma FuelPermitted(t: Tables, cfg: Config, input: Fuelling.FuelInput, record: F.Record, ids: Ids, now: Time)
    requires VehiclesOk(t.vehicles)
    requires input.vehicleId in t.vehicles && t.vehicles[input.vehicleId].status != V.OnDuty
    requires input.odometerKm >= t.vehicles[input.vehicleId].odometerKm
    requires ids.row !in t.fuel && ids.job !in t.jobs
    requires record.id == ids.row && record.vehicleId == input.vehicleId && record.odometerKm == input.odometerKm
    ensures Permitted(t, cfg, FuelChange(t, input, record, ids.job, now))
  {
  }

  lemma FuelGuards(t: Tables, input: Fuelling.FuelInput, ids: Ids, now: Time)
    requires VehiclesOk(t.vehicles) && Fuelling.RecordTx(t, input, ids, now).Ok?
    ensures input.vehicleId in t.vehicles && t.vehicles[input.vehicleId].status != V.OnDuty
    ensures input.odometerKm >= t.vehicles[input.vehicleId].odometerKm
    ensures ids.row !in t.fuel && ids.job !in t.jobs
    ensures var r := Fuelling.RecordTx(t, input, ids, now).value.1;
            r.id == ids.row && r.vehicleId == input.vehicleId && r.odometerKm == input.odometerKm
  {
    hide SaveVehicle;
    var v := t.vehicles[input.vehicleId];
    var logged := t.(fuel := t.fuel[ids.row := Fuelling.RecordTx(t, input, ids, now).value.1]);
    VehicleUpdates(logged, Fuelling.Advanced(v, input.odometerKm, now), v.version);
  }

  lemma FuelEffect(t: Tables, input: Fuelling.FuelInput, ids: Ids, now: Time)
    requires VehiclesOk(t.vehicles) && input.vehicleId in t.vehicles && Fuelling.RecordTx(t, input, ids, now).Ok?
    ensures Fuelling.RecordTx(t, input, ids, now).value.0 ==
      Effect(t, FuelChange(t, input, Fuelling.RecordTx(t, input, ids, now).value.1, ids.job, now))
  {
    hide SaveVehicle;
    var v := t.vehicles[input.vehicleId];
    assert t.vehicles[v.id := v] == t.vehicles;
    var logged := t.(fuel := t.fuel[ids.row := Fuelling.RecordTx(t, input, ids, now).value.1]);
    VehicleUpdates(logged, Fuelling.Advanced(v, input.odometerKm, now), v.version);
  }

  // -- inspections ------------------------------------------------------------------------

  lemma CreateInspectionMakesChange(t: Tables, cfg: Config, vehicleId: string, inspector: string, at: Time, id: string,
                                    validity: int, now: Time)
    requires Inv(t, cfg)
    ensures Inspecting.CreateTx(t, vehicleId, inspector, at, id, validity, now).Ok? ==>
      Made(t, cfg, InspectionCreated(Inspecting.CreateTx(t, vehicleId, inspector, at, id, validity, now).value.1.head),
           Inspecting.CreateTx(t, vehicleId, inspector, at, id, validity, now).value.0)
  {
    hide TripsUnique, Covered, TripsOk, OdometerOk, JobsOk, KeysOk, InspectionsOk, BookingOk, CalendarOk, OrdersOk;
  }

  /** Rewriting the items of an inspection with what was loaded from it changes no row. */
  /** The stored items, but of this inspection's only the first ones of its list. */
  ghost predicate ReinsertedUpTo(items: map<string, I.Item>, id: string, list: seq<I.Item>, done: nat,
                                 part: map<string, I.Item>)
    requires done <= |list|
  {
    && (forall k :: k in part ==> k in items && part[k] == items[k])
    && (forall k :: k in items && items[k].inspectionId != id ==> k in part)
    && (forall k :: k in items && items[k].inspectionId == id ==> (k in part <==> items[k] in list[..done]))
  }

  lemma OneReinserted(items: map<string, I.Item>, id: string, list: seq<I.Item>, done: nat, partial: Tables)
    requires done < |list| && id in partial.heads
    requires CodesUnique(items) && (forall k :: k in items ==> items[k].id == k)
    requires IsItemList(items, id, list) && ReinsertedUpTo(items, id, list, done, partial.items)
    ensures list[done].inspectionId == id
    ensures InsertItem(partial, list[done], id)
            == Ok(partial.(items := partial.items[list[done].id := list[done]]))
    ensures ReinsertedUpTo(items, id, list, done + 1, partial.items[list[done].id := list[done]])
  {
    var x := list[done];
    assert x in list;
    assert x !in list[..done] by {
      if x in list[..done] {
        var j :| 0 <= j < done && list[j] == x;
        TextOrderFacts(list, j, done);
      }
    }
    hide I.Ordered;
    assert list[..done + 1] == list[..done] + [x];
    assert x.(inspectionId := id) == x;
  }

  lemma {:induction false} ReinsertedItems(items: map<string, I.Item>, id: string, list: seq<I.Item>, done: nat,
                                           partial: Tables)
    requires done <= |list| && id in partial.heads
    requires CodesUnique(items) && (forall k :: k in items ==> items[k].id == k)
    requires IsItemList(items, id, list) && ReinsertedUpTo(items, id, list, done, partial.items)
    ensures InsertItems(partial, list[done..], id) == Ok(partial.(items := items))
    decreases |list| - done
  {
    if done == |list| {
      AllReinserted(items, id, list, partial.items);
      assert list[done..] == [];
    } else {
      OneReinserted(items, id, list, done, partial);
      hide ReinsertedUpTo, IsItemList, CodesUnique, InsertItem;
      var x := list[done];
      assert list[done..][0] == x && list[done..][1..] == list[done + 1..];
      ReinsertedItems(items, id, list, done + 1, partial.(items := partial.items[x.id := x]));
    }
  }

  lemma NoneReinserted(items: map<string, I.Item>, id: string, list: seq<I.Item>, part: map<string, I.Item>)
    requires part == map k | k in items && items[k].inspectionId != id :: items[k]
    ensures ReinsertedUpTo(items, id, list, 0, part)
  {
    assert list[..0] == [];
  }

  lemma AllReinserted(items: map<string, I.Item>, id: string, list: seq<I.Item>, part: map<string, I.Item>)
    requires (forall k :: k in items ==> items[k].id == k)
    requires IsItemList(items, id, list) && ReinsertedUpTo(items, id, list, |list|, part)
    ensures part == items
  {
    hide I.Ordered;
    assert list[..|list|] == list;
    forall k | k in items ensures k in part {
      if items[k].inspectionId == id {
        assert items[k] in list;
      }
    }
  }

  lemma TextOrderFacts(list: seq<I.Item>, i: nat, j: nat)
    requires I.Ordered(list) && i < j < |list|
    ensures list[i] != list[j]
  {
    if list[i] == list[j] {
      assert TextOrder.Less(list[i].code, list[j].code);
      TextOrder.Asymmetric(list[i].code, list[j].code);
    }
  }

  /** In a transaction, saving an inspection with the items it was loaded with is one header update. */
  lemma SavingUnchangedItems(t: Tables, cfg: Config, i: I.Inspection, expected: int)
    requires Inv(t, cfg) && i.head.id in t.heads && IsItemList(t.items, i.head.id, i.items)
    requires expected == t.heads[i.head.id].version && 0 <= i.head.score <= 100
    ensures SaveInspection(t, i, expected) ==
      Ok(t.(heads := t.heads[i.head.id := i.head.(vehicleId := t.heads[i.head.id].vehicleId)]))
  {
    hide TripsUnique, Covered, TripsOk, OdometerOk, JobsOk, KeysOk, BookingOk, CalendarOk, OrdersOk;
    hide VehiclesOk, DriversOk, ShiftsOk, InsertItems, ReinsertedUpTo, IsItemList;
    var t1 := SaveHead(t, i.head, expected).value;
    var cleared := DeleteItems(t1, i.head.id);
    assert i.items[0..] == i.items;
    NoneReinserted(t.items, i.head.id, i.items, cleared.items);
    ReinsertedItems(t.items, i.head.id, i.items, 0, cleared);
  }

  lemma LoadedItems(t: Tables, cfg: Config, id: string, list: seq<I.Item>)
    requires Inv(t, cfg) && IsItemList(t.items, id, list)
    ensures I.Ordered(list) && I.AllRequired(list) && I.Recognised(list)
  {
    forall k | 0 <= k < |list| ensures I.Required(list[k].code) && !list[k].outcome.Unrecognised? {
      assert list[k] in list;
    }
  }

  ghost predicate AllCodesStored(items: map<string, I.Item>, id: string) {
    forall code :: code in I.REQUIRED_ITEMS ==> CodeStored(items, id, code)
  }

  ghost predicate CodeStored(items: map<string, I.Item>, id: string, code: string) {
    exists k :: k in items && items[k].inspectionId == id && items[k].code == code
  }

  ghost predicate SomeFailed(items: map<string, I.Item>, id: string) {
    exists k :: k in items && items[k].inspectionId == id && items[k].outcome == I.Fail
  }

  lemma LoadedSaysStored(t: Tables, cfg: Config, id: string, list: seq<I.Item>)
    requires Inv(t, cfg) && IsItemList(t.items, id, list)
    ensures I.EveryCodeRecorded(list) <==> AllCodesStored(t.items, id)
    ensures I.NoneFailed(list) <==> !SomeFailed(t.items, id)
  {
    hide TripsUnique, Covered, TripsOk, OdometerOk, JobsOk, KeysOk, BookingOk, CalendarOk, OrdersOk;
    hide VehiclesOk, DriversOk, ShiftsOk;
    I.MapOfOrdered(list);
    forall code ensures code in I.AsMap(list) <==> CodeStored(t.items, id, code) {
      if code in I.AsMap(list) {
        var k :| 0 <= k < |list| && list[k].code == code;
        assert list[k] in list;
        assert list[k].id in t.items && t.items[list[k].id].code == code;
      }
      if CodeStored(t.items, id, code) {
        var k :| k in t.items && t.items[k].inspectionId == id && t.items[k].code == code;
        assert t.items[k] in list;
      }
    }
    if SomeFailed(t.items, id) {
      var k :| k in t.items && t.items[k].inspectionId == id && t.items[k].outcome == I.Fail;
      assert t.items[k] in list;
    }
    if !I.NoneFailed(list) {
      var k :| 0 <= k < |list| && list[k].outcome == I.Fail;
      assert list[k] in list;
      assert list[k].id in t.items;
    }
  }

  /** What submitting takes: all codes stored, and if an item failed, a vehicle that can be taken out of
      service for the repair. */
  ghost predicate MaySubmit(t: Tables, id: string, ids: Inspecting.SubmitIds) {
    && id in t.heads && t.heads[id].status == I.Draft
    && AllCodesStored(t.items, id)
    && ids.job !in t.jobs
    && (SomeFailed(t.items, id) ==>
          && t.heads[id].vehicleId in t.vehicles
          && t.vehicles[t.heads[id].vehicleId].status !in {V.OnDuty, V.Retired}
          && ids.order != "" && ids.order !in t.orders)
  }

  /** A submission as a change. */
  ghost function SubmitChange(t: Tables, id: string, list: seq<I.Item>, ids: Inspecting.SubmitIds, now: Time): Change
    requires id in t.heads
             && (I.SubmittedHead(I.Inspection(t.heads[id], list), now).status == I.Failed
                 ==> t.heads[id].vehicleId in t.vehicles)
  {
    var head := I.SubmittedHead(I.Inspection(t.heads[id], list), now);
    var job := Job(ids.job, InspectionSubmitted(I.Inspection(head, list)), Pending, 0, now);
    if head.status == I.Failed then
      var v := t.vehicles[head.vehicleId];
      InspectionFailed(head, v.(status := V.Maintenance, version := v.version + 1, updatedAt := now),
                       O.Order(ids.order, v.id, "inspection_failure", O.Open, now,
                               now + Inspecting.REPAIR_DUE, None, 1, now), job)
    else
      InspectionPassed(head, job)
  }

  lemma RepairExactly(t: Tables, vehicleId: string, orderId: string, now: Time)
    requires VehiclesOk(t.vehicles) && vehicleId in t.vehicles
    ensures Inspecting.RepairTx(t, vehicleId, orderId, now).Ok? <==>
      t.vehicles[vehicleId].status !in {V.OnDuty, V.Retired} && orderId != "" && orderId !in t.orders
    ensures Inspecting.RepairTx(t, vehicleId, orderId, now).Ok? ==>
      var v := t.vehicles[vehicleId];
      Inspecting.RepairTx(t, vehicleId, orderId, now).value == t.(
        vehicles := t.vehicles[vehicleId := v.(status := V.Maintenance, version := v.version + 1, updatedAt := now)],
        orders := t.orders[orderId := O.Order(orderId, v.id, "inspection_failure", O.Open, now,
                                              now + Inspecting.REPAIR_DUE, None, 1, now)])
  {
    var v := t.vehicles[vehicleId];
    VehicleUpdates(t, v.(status := V.Maintenance, version := v.version + 1, updatedAt := now), v.version);
    hide SaveVehicle;
  }

  lemma SubmittedScore(t: Tables, cfg: Config, id: string, list: seq<I.Item>, now: Time)
    requires Inv(t, cfg) && id in t.heads && IsItemList(t.items, id, list)
    ensures I.Submittable(I.Inspection(t.heads[id], list))
            <==> t.heads[id].status == I.Draft && AllCodesStored(t.items, id)
    ensures I.Submittable(I.Inspection(t.heads[id], list)) ==>
      var h := I.SubmittedHead(I.Inspection(t.heads[id], list), now);
      && 0 <= h.score <= 100
      && (h.status == I.Failed <==> SomeFailed(t.items, id)) && (h.status == I.Passed <==> !SomeFailed(t.items, id))
  {
    LoadedItems(t, cfg, id, list);
    LoadedSaysStored(t, cfg, id, list);
    var i := I.Inspection(t.heads[id], list);
    I.SubmittableExactly(i);
    if I.Submittable(i) {
      I.SubmissionVerdict(i, now);
    }
  }

  lemma SubmitHeader(t: Tables, cfg: Config, id: string, list: seq<I.Item>, now: Time)
    requires Inv(t, cfg) && id in t.heads && IsItemList(t.items, id, list)
    requires I.Submittable(I.Inspection(t.heads[id], list))
    ensures var i := I.Inspection(t.heads[id], list);
            var r := I.Inspection(I.SubmittedHead(i, now), list);
            SaveInspection(t, r, t.heads[id].version) == Ok(t.(heads := t.heads[id := r.head]))
  {
    SubmittedScore(t, cfg, id, list, now);
    SavingUnchangedItems(t, cfg, I.Inspection(I.SubmittedHead(I.Inspection(t.heads[id], list), now), list),
                         t.heads[id].version);
  }

  /** Submission commits exactly under MaySubmit, and is then one change. */
  lemma SubmitExactly(t: Tables, cfg: Config, id: string, list: seq<I.Item>, ids: Inspecting.SubmitIds, now: Time)
    requires Inv(t, cfg) && IsItemList(t.items, id, list)
    ensures Inspecting.SubmitTx(t, id, list, ids, now).Ok? <==> MaySubmit(t, id, ids)
    ensures MaySubmit(t, id, ids) ==>
      && (I.SubmittedHead(I.Inspection(t.heads[id], list), now).status == I.Failed
          ==> t.heads[id].vehicleId in t.vehicles)
      && Made(t, cfg, SubmitChange(t, id, list, ids, now), Inspecting.SubmitTx(t, id, list, ids, now).value.0)
  {
    hide AllCodesStored, SomeFailed, IsItemList, SaveInspection, Inspecting.RepairTx, I.Submittable;
    hide I.SubmittedHead, Permitted, Effect, Made;
    if id in t.heads {
      SubmittedScore(t, cfg, id, list, now);
      if I.Submittable(I.Inspection(t.heads[id], list)) {
        SubmitHeader(t, cfg, id, list, now);
        SubmitShape(t, cfg, id, list, ids, now);
      }
    }
  }

  lemma SubmitShape(t: Tables, cfg: Config, id: string, list: seq<I.Item>, ids: Inspecting.SubmitIds, now: Time)
    requires Inv(t, cfg) && IsItemList(t.items, id, list) && id in t.heads
    requires I.Submittable(I.Inspection(t.heads[id], list))
    ensures Inspecting.SubmitTx(t, id, list, ids, now).Ok? <==> MaySubmit(t, id, ids)
    ensures MaySubmit(t, id, ids) ==>
      && (I.SubmittedHead(I.Inspection(t.heads[id], list), now).status == I.Failed
          ==> t.heads[id].vehicleId in t.vehicles)
      && Made(t, cfg, SubmitChange(t, id, list, ids, now), Inspecting.SubmitTx(t, id, list, ids, now).value.0)
  {
    hide AllCodesStored, SomeFailed, I.Submittable, I.SubmittedHead, Inspecting.SubmitTx, Inspecting.RepairTx;
    hide Permitted, Effect, SubmitChange;
    SubmittedScore(t, cfg, id, list, now);
    HeadKeeps(t, id, list, now);
    SubmitCommits(t, cfg, id, list, ids, now);
    if MaySubmit(t, id, ids) {
      SubmitEffect(t, cfg, id, list, ids, now);
      SubmitPermitted(t, cfg, id, list, ids, now);
    }
  }

  lemma SubmitCommits(t: Tables, cfg: Config, id: string, list: seq<I.Item>, ids: Inspecting.SubmitIds, now: Time)
    requires Inv(t, cfg) && IsItemList(t.items, id, list) && id in t.heads
    requires I.Submittable(I.Inspection(t.heads[id], list))
    ensures Inspecting.SubmitTx(t, id, list, ids, now).Ok? <==> MaySubmit(t, id, ids)
  {
    SubmittedScore(t, cfg, id, list, now);
    SubmitUnfolds(t, cfg, id, list, ids, now);
    HeadKeeps(t, id, list, now);
    var h := I.SubmittedHead(I.Inspection(t.heads[id], list), now);
    RepairExactly(t.(heads := t.heads[id := h]), h.vehicleId, ids.order, now);
    hide Inspecting.SubmitTx, Inspecting.RepairTx, I.Submittable, I.SubmittedHead, IsItemList, AllCodesStored;
    hide SomeFailed;
    hide TripsUnique, Covered, TripsOk, OdometerOk, JobsOk, KeysOk, BookingOk, CalendarOk, OrdersOk, ShiftsOk;
    hide DriversOk, InspectionsOk, VehiclesOk;
  }

  lemma SubmitEffect(t: Tables, cfg: Config, id: string, list: seq<I.Item>, ids: Inspecting.SubmitIds, now: Time)
    requires Inv(t, cfg) && IsItemList(t.items, id, list) && id in t.heads
    requires I.Submittable(I.Inspection(t.heads[id], list)) && Inspecting.SubmitTx(t, id, list, ids, now).Ok?
    requires I.SubmittedHead(I.Inspection(t.heads[id], list), now).status == I.Failed
             ==> t.heads[id].vehicleId in t.vehicles
    ensures Inspecting.SubmitTx(t, id, list, ids, now).value.0 == Effect(t, SubmitChange(t, id, list, ids, now))
  {
    hide Inspecting.SubmitTx, Inspecting.RepairTx, I.Submittable, I.SubmittedHead, IsItemList;
    SubmitUnfolds(t, cfg, id, list, ids, now);
    HeadKeeps(t, id, list, now);
    hide VehiclesOk, DriversOk, ShiftsOk, TripsOk, TripsUnique, Covered, OrdersOk, OdometerOk, JobsOk, KeysOk;
    hide InspectionsOk, BookingOk, CalendarOk;
    var h := I.SubmittedHead(I.Inspection(t.heads[id], list), now);
    if h.status == I.Failed {
      RepairExactly(t.(heads := t.heads[id := h]), h.vehicleId, ids.order, now);
      FailedEffect(t, h, I.Inspection(h, list), ids, now, SubmitChange(t, id, list, ids, now));
      hide Effect;
    } else {
      PassedEffect(t, h, I.Inspection(h, list), ids, now);
      hide Effect;
    }
  }

  lemma PassedEffect(t: Tables, h: I.Head, i: I.Inspection, ids: Inspecting.SubmitIds, now: Time)
    ensures var job := Job(ids.job, InspectionSubmitted(i), Pending, 0, now);
            Effect(t, InspectionPassed(h, job)) == t.(heads := t.heads[h.id := h], jobs := t.jobs[ids.job := job])
  {
  }

  lemma FailedEffect(t: Tables, h: I.Head, i: I.Inspection, ids: Inspecting.SubmitIds, now: Time, c: Change)
    requires VehiclesOk(t.vehicles) && h.vehicleId in t.vehicles
    requires c.InspectionFailed? && c.h == h && c.job == Job(ids.job, InspectionSubmitted(i), Pending, 0, now)
    requires c.v == t.vehicles[h.vehicleId].(status := V.Maintenance, version := t.vehicles[h.vehicleId].version + 1,
                                             updatedAt := now)
    requires c.o.id == ids.order
    ensures Effect(t, c) == t.(heads := t.heads[h.id := h], vehicles := t.vehicles[h.vehicleId := c.v],
                               orders := t.orders[ids.order := c.o], jobs := t.jobs[ids.job := c.job])
  {
  }

  lemma HeadKeeps(t: Tables, id: string, list: seq<I.Item>, now: Time)
    requires id in t.heads && InspectionsOk(t.heads, t.items, t.vehicles)
    ensures var h := I.SubmittedHead(I.Inspection(t.heads[id], list), now);
            h.id == id && h.vehicleId == t.heads[id].vehicleId && h.vehicleId in t.vehicles
  {
  }

  lemma SubmitUnfolds(t: Tables, cfg: Config, id: string, list: seq<I.Item>, ids: Inspecting.SubmitIds, now: Time)
    requires Inv(t, cfg) && IsItemList(t.items, id, list) && id in t.heads
    requires I.Submittable(I.Inspection(t.heads[id], list))
    ensures
      var result := I.Inspection(I.SubmittedHead(I.Inspection(t.heads[id], list), now), list);
      var t1 := t.(heads := t.heads[id := result.head]);
      var t2 := if result.head.status == I.Failed
                then Inspecting.RepairTx(t1, result.head.vehicleId, ids.order, now) else Ok(t1);
      && (Inspecting.SubmitTx(t, id, list, ids, now).Ok? <==> t2.Ok? && ids.job !in t2.value.jobs)
      && (Inspecting.SubmitTx(t, id, list, ids, now).Ok? ==>
            Inspecting.SubmitTx(t, id, list, ids, now).value ==
              (t2.value.(jobs := t2.value.jobs[ids.job := Job(ids.job, InspectionSubmitted(result), Pending, 0, now)]),
               result))
  {
    SubmitHeader(t, cfg, id, list, now);
    hide SaveInspection, Inspecting.RepairTx, I.Submittable, I.SubmittedHead, IsItemList;
    hide TripsUnique, Covered, TripsOk, OdometerOk, JobsOk, KeysOk, BookingOk, CalendarOk, OrdersOk, ShiftsOk;
    hide DriversOk, InspectionsOk, VehiclesOk;
  }

  lemma SubmitPermitted(t: Tables, cfg: Config, id: string, list: seq<I.Item>, ids: Inspecting.SubmitIds, now: Time)
    requires Inv(t, cfg) && IsItemList(t.items, id, list) && MaySubmit(t, id, ids)
    requires I.Submittable(I.Inspection(t.heads[id], list))
    requires I.SubmittedHead(I.Inspection(t.heads[id], list), now).status == I.Failed <==> SomeFailed(t.items, id)
    requires 0 <= I.SubmittedHead(I.Inspection(t.heads[id], list), now).score <= 100
    ensures Permitted(t, cfg, SubmitChange(t, id, list, ids, now))
  {
    hide AllCodesStored, SomeFailed, IsItemList, I.Submittable;
    hide TripsUnique, Covered, TripsOk, OdometerOk, JobsOk, KeysOk, BookingOk, CalendarOk, OrdersOk, ShiftsOk;
    hide DriversOk;
  }
}
