/** Which error a refused operation reports: of several reasons the first in the order of the code's checks. */
module Refusals {
  import opened Basics
  import opened Schema
  import opened Dispatch
  import opened Planning
  import opened Upkeep
  import opened Changes
  import opened Invariant
  import opened Exact
  import opened Guards
  import Fuelling
  import Inspecting
  import Policy
  import Scheduling
  import V = Vehicles
  import W = Workplan
  import T = Trips
  import I = Inspections
  import Recording

  lemma StartRefusal(t: Tables, cfg: Config, input: StartInput, ids: Ids, now: Time, ttl: int)
    requires Inv(t, cfg) && StartTx(t, input, ids, now, ttl).Err?
    ensures StartTx(t, input, ids, now, ttl).error ==
      if input.shiftId !in t.shifts || t.shifts[input.shiftId].routeId !in t.routes || input.vehicleId !in t.vehicles
      then NotFound
      else
        var shift, vehicle, route :=
          t.shifts[input.shiftId], t.vehicles[input.vehicleId], t.routes[t.shifts[input.shiftId].routeId];
        if shift.status != W.Assigned || shift.assignedVehicleId != Some(input.vehicleId) then Conflict(InvalidState)
        else if vehicle.status != V.Available then Conflict(Unavailable)
        else if vehicle.inspectionDueAt <= now then Conflict(BadInput)
        else if HasActiveOrder(t.orders, input.vehicleId) || vehicle.capacityKg < route.requiredCapacityKg
                || input.startOdometer < vehicle.odometerKm || input.loadKg < 0 || vehicle.capacityKg < input.loadKg
        then Conflict(Unavailable)
        else if input.driverId !in t.drivers then NotFound
        else if !MayDrive(t.drivers[input.driverId], vehicle.vehicleType, now) then Conflict(Unavailable)
        else if ids.row == "" || input.key == "" then Validation
        else Conflict(Constraint)
  {
    hide TripsOk, TripsUnique, Covered, OrdersOk, OdometerOk, JobsOk, KeysOk, InspectionsOk, BookingOk, CalendarOk;
    hide StartTx;
    if StartAllowed(t, input, now) {
      StartRefusedLate(t, cfg, input, ids, now, ttl);
    } else {
      StartRefusedEarly(t, cfg, input, ids, now, ttl);
    }
  }

  lemma StartRefusedEarly(t: Tables, cfg: Config, input: StartInput, ids: Ids, now: Time, ttl: int)
    requires VehiclesOk(t.vehicles) && !StartAllowed(t, input, now)
    ensures StartTx(t, input, ids, now, ttl).Err?
    ensures StartTx(t, input, ids, now, ttl).error ==
      if input.shiftId !in t.shifts || t.shifts[input.shiftId].routeId !in t.routes || input.vehicleId !in t.vehicles
      then NotFound
      else
        var shift, vehicle, route :=
          t.shifts[input.shiftId], t.vehicles[input.vehicleId], t.routes[t.shifts[input.shiftId].routeId];
        if shift.status != W.Assigned || shift.assignedVehicleId != Some(input.vehicleId) then Conflict(InvalidState)
        else if vehicle.status != V.Available then Conflict(Unavailable)
        else if vehicle.inspectionDueAt <= now then Conflict(BadInput)
        else if HasActiveOrder(t.orders, input.vehicleId) || vehicle.capacityKg < route.requiredCapacityKg
                || input.startOdometer < vehicle.odometerKm || input.loadKg < 0 || vehicle.capacityKg < input.loadKg
        then Conflict(Unavailable)
        else if input.driverId !in t.drivers then NotFound
        else Conflict(Unavailable)
  {
    hide SaveVehicle, SaveShift, SaveTrip, SaveIdempotency, Enqueue, T.New, HasActiveOrder, KeyOf;
  }

  lemma StartRefusedLate(t: Tables, cfg: Config, input: StartInput, ids: Ids, now: Time, ttl: int)
    requires VehiclesOk(t.vehicles) && ShiftsOk(t.shifts, t.vehicles) && DriversOk(t.drivers)
    requires StartAllowed(t, input, now) && StartTx(t, input, ids, now, ttl).Err?
    ensures StartTx(t, input, ids, now, ttl).error ==
      if ids.row == "" || input.key == "" then Validation else Conflict(Constraint)
  {
    StartPrefix(t, input, now);
    hide VehiclesOk, ShiftsOk, DriversOk, SaveVehicle, SaveShift, HasActiveOrder, KeyOf, Policy.CheckStart;
    hide StartAllowed;
  }

  /** The guards and the first two saves of a permitted start. */
  lemma StartPrefix(t: Tables, input: StartInput, now: Time)
    requires VehiclesOk(t.vehicles) && ShiftsOk(t.shifts, t.vehicles) && DriversOk(t.drivers)
    requires StartAllowed(t, input, now)
    ensures input.shiftId in t.shifts && input.vehicleId in t.vehicles && input.driverId in t.drivers
    ensures t.shifts[input.shiftId].routeId in t.routes && input.startOdometer >= 0 && input.loadKg >= 0
    ensures var vehicle, shift, driver :=
        t.vehicles[input.vehicleId], t.shifts[input.shiftId], t.drivers[input.driverId];
      && vehicle.id == input.vehicleId && shift.id == input.shiftId && driver.id == input.driverId
      && driver.CanOperate(vehicle.vehicleType, now).Ok?
      && driver.id != "" && driver.name != "" && vehicle.id != "" && shift.id != "" && vehicle.odometerKm >= 0
      && Policy.CheckStart(Policy.StartFacts(vehicle, t.routes[shift.routeId], shift, input.startOdometer, input.loadKg,
                                             HasActiveOrder(t.orders, vehicle.id), now)).Ok?
      && vehicle.StartDispatch(now).Ok? && shift.Start(now).Ok?
      && var t1 := SaveVehicle(t, vehicle.StartDispatch(now).value, vehicle.version);
         t1.Ok? && SaveShift(t1.value, shift.Start(now).value, shift.version).Ok?
  {
    hide HasActiveOrder;
    var vehicle, shift := t.vehicles[input.vehicleId], t.shifts[input.shiftId];
    var onDuty, started := vehicle.StartDispatch(now).value, shift.Start(now).value;
    VehicleUpdates(t, onDuty, vehicle.version);
    ShiftUpdates(t.(vehicles := t.vehicles[input.vehicleId := onDuty]), started, shift.version);
    hide SaveVehicle, SaveShift;
  }

  /** Of a vehicle without room for the shift only the refusal is stated; the roster says which rule it breaks. */
  lemma AssignRefusal(t: Tables, cfg: Config, input: AssignInput, view: AssignView, now: Time)
    requires Inv(t, cfg) && Shows(t, input, view) && AssignTx(t, input, view, now, cfg.limits).Err?
    ensures AssignTx(t, input, view, now, cfg.limits).error ==
      if input.shiftId !in t.shifts || t.shifts[input.shiftId].routeId !in t.routes || input.vehicleId !in t.vehicles
      then NotFound
      else
        var shift, vehicle, route :=
          t.shifts[input.shiftId], t.vehicles[input.vehicleId], t.routes[t.shifts[input.shiftId].routeId];
        if !Scheduling.LeavesRoom(t.shifts, shift, input.vehicleId, cfg.limits) then Conflict(Unavailable)
        else if route.status != W.RouteActive || shift.status != W.Scheduled then Conflict(InvalidState)
        else if vehicle.status != V.Available then Conflict(Unavailable)
        else if vehicle.inspectionDueAt <= now then Conflict(BadInput)
        else Conflict(Unavailable)
  {
    hide TripsOk, TripsUnique, Covered, OrdersOk, OdometerOk, JobsOk, KeysOk, InspectionsOk, BookingOk, CalendarOk;
    hide DriversOk, Scheduling.CanTake, Scheduling.LeavesRoom, HasActiveOrder, IsListing, IsLatest, SaveShift;
    if input.shiftId in t.shifts && input.vehicleId in t.vehicles {
      var shift := t.shifts[input.shiftId];
      Scheduling.ListingDecides(t.shifts, view.rows, shift, input.vehicleId, cfg.limits);
      if shift.status == W.Scheduled {
        ShiftUpdates(t, shift.(status := W.Assigned, assignedVehicleId := Some(input.vehicleId),
                               version := shift.version + 1, updatedAt := now), shift.version);
      }
    }
  }

  lemma ReturnRefusal(t: Tables, cfg: Config, tripId: string, endOdometer: int, jobId: string, now: Time)
    requires Inv(t, cfg) && ReturnTx(t, tripId, endOdometer, jobId, now).Err?
    ensures ReturnTx(t, tripId, endOdometer, jobId, now).error ==
      if tripId !in t.trips then NotFound
      else if t.trips[tripId].status != T.Active || endOdometer < t.trips[tripId].startOdometer.value
      then Conflict(InvalidState)
      else Conflict(Constraint)
  {
    hide TripsUnique, Covered, OrdersOk, JobsOk, KeysOk, InspectionsOk, BookingOk, CalendarOk, TripsApart;
    hide FuelOutsideTrips;
  }

  lemma OpenRefusal(t: Tables, cfg: Config, vehicleId: string, kind: string, dueAt: Time, id: string, now: Time)
    requires Inv(t, cfg) && OpenTx(t, vehicleId, kind, dueAt, id, now).Err?
    ensures OpenTx(t, vehicleId, kind, dueAt, id, now).error ==
      if vehicleId !in t.vehicles then NotFound
      else if t.vehicles[vehicleId].status == V.Retired then Conflict(InvalidState)
      else if HasActiveOrder(t.orders, vehicleId) then Conflict(Conflicting)
      else if t.vehicles[vehicleId].status == V.OnDuty then Conflict(InvalidState)
      else if id == "" || kind == "" || dueAt <= now then Validation
      else Conflict(Constraint)
  {
    hide TripsUnique, Covered, TripsOk, OdometerOk, JobsOk, KeysOk, InspectionsOk, BookingOk, CalendarOk;
    hide HasActiveOrder, ShiftsOk, DriversOk, SaveVehicle, OrdersOk;
    if vehicleId in t.vehicles {
      var v := t.vehicles[vehicleId];
      VehicleUpdates(t, v.(status := V.Maintenance, version := v.version + 1, updatedAt := now), v.version);
    }
  }

  /** Cancelling a shift, starting and completing an order. */
  lemma TransitionRefusals(t: Tables, cfg: Config, id: string, now: Time)
    requires Inv(t, cfg)
    ensures CancelTx(t, id, now).Err? ==>
      CancelTx(t, id, now).error == if id !in t.shifts then NotFound else Conflict(InvalidState)
    ensures BeginTx(t, id, now).Err? ==>
      BeginTx(t, id, now).error == if id !in t.orders then NotFound else Conflict(InvalidState)
    ensures CompleteTx(t, id, now).Err? ==>
      CompleteTx(t, id, now).error == if id !in t.orders then NotFound else Conflict(InvalidState)
  {
    hide TripsUnique, Covered, TripsOk, OdometerOk, JobsOk, KeysOk, InspectionsOk, BookingOk, CalendarOk, DriversOk;
    hide HasActiveOrder, SameRouteAndDate, RouteAndDateTaken;
  }

  lemma CreateShiftRefusal(t: Tables, cfg: Config, input: ShiftInput, id: string, now: Time)
    requires CreateShiftTx(t, input, cfg.calendar, id, now).Err?
    ensures CreateShiftTx(t, input, cfg.calendar, id, now).error ==
      if Blank(input.routeId) || (input.date.Malformed? && Blank(input.date.text))
         || input.startAt == ZERO_TIME || input.endAt == ZERO_TIME || input.endAt <= input.startAt
         || input.endAt - input.startAt > 20 * HOUR || (cfg.calendar.Some? && !WithinDay(cfg.calendar.value, input))
      then Validation
      else if input.routeId !in t.routes then NotFound
      else if id == "" then Validation
      else Conflict(Constraint)
  {
  }

  lemma RegisterRefusal(t: Tables, input: VehicleInput, id: string, now: Time)
    requires RegisterTx(t, input, id, now).Err?
    ensures RegisterTx(t, input, id, now).error ==
      if Blank(input.vehicleType) || input.capacityKg <= 0 || input.odometerKm < 0
         || input.inspectionDueAt == ZERO_TIME || input.inspectionDueAt <= now || id == ""
      then Validation else Conflict(Constraint)
  {
    if input.vehicleType == "" {
      assert Blank(input.vehicleType);
    }
  }

  lemma CreateInspectionRefusal(t: Tables, cfg: Config, vehicleId: string, inspector: string, inspectedAt: Time,
                                id: string, validity: int, now: Time)
    requires Inv(t, cfg) && Inspecting.CreateTx(t, vehicleId, inspector, inspectedAt, id, validity, now).Err?
    ensures Inspecting.CreateTx(t, vehicleId, inspector, inspectedAt, id, validity, now).error ==
      if vehicleId !in t.vehicles then NotFound
      else if t.vehicles[vehicleId].status in {V.OnDuty, V.Retired} then Conflict(Unavailable)
      else if id == "" || inspector == "" then Validation
      else Conflict(Constraint)
  {
    hide TripsOk, TripsUnique, Covered, OrdersOk, OdometerOk, JobsOk, KeysOk, BookingOk, CalendarOk, DriversOk;
    hide ShiftsOk, InspectionsOk;
  }

  lemma FuelRefusal(t: Tables, cfg: Config, input: Fuelling.FuelInput, ids: Ids, now: Time)
    requires Inv(t, cfg) && Fuelling.RecordTx(t, input, ids, now).Err?
    ensures Fuelling.RecordTx(t, input, ids, now).error ==
      if input.vehicleId !in t.vehicles then NotFound
      else if t.vehicles[input.vehicleId].status in {V.OnDuty, V.Retired}
              || input.odometerKm < t.vehicles[input.vehicleId].odometerKm
      then Conflict(InvalidState)
      else if ids.row == "" || input.stationCode == "" || input.quantity <= 0.0 || input.costCents < 0
              || input.fuelType.Unknown? || (input.recordedAt != ZERO_TIME && input.recordedAt > now)
      then Validation
      else Conflict(Constraint)
  {
    hide TripsOk, TripsUnique, Covered, OrdersOk, OdometerOk, JobsOk, KeysOk, InspectionsOk, BookingOk, CalendarOk;
    hide DriversOk, ShiftsOk;
    if input.vehicleId in t.vehicles && FuelIsFine(t, input, ids, now) {
      FuelFailsLate(t, input, ids, now);
    } else {
      hide SaveFuel, SaveVehicle, Enqueue;
    }
  }

  /** The entry is complete, and its reading not below the odometer of a vehicle that may be fuelled. */
  ghost predicate FuelIsFine(t: Tables, input: Fuelling.FuelInput, ids: Ids, now: Time)
    requires input.vehicleId in t.vehicles
  {
    && t.vehicles[input.vehicleId].status !in {V.OnDuty, V.Retired}
    && input.odometerKm >= t.vehicles[input.vehicleId].odometerKm
    && ids.row != "" && input.stationCode != "" && input.quantity > 0.0 && input.costCents >= 0
    && !input.fuelType.Unknown? && (input.recordedAt == ZERO_TIME || input.recordedAt <= now)
  }

  lemma FuelFailsLate(t: Tables, input: Fuelling.FuelInput, ids: Ids, now: Time)
    requires VehiclesOk(t.vehicles) && input.vehicleId in t.vehicles && FuelIsFine(t, input, ids, now)
    ensures var r := Fuelling.RecordTx(t, input, ids, now);
            r.Ok? || r.error == Conflict(Constraint)
  {
    var v := t.vehicles[input.vehicleId];
    var logged := t.(fuel := t.fuel[ids.row := FuelRow(input, ids, now)]);
    VehicleUpdates(logged, Fuelling.Advanced(v, input.odometerKm, now), v.version);
    hide SaveVehicle;
  }

  lemma SubmitRefusal(t: Tables, cfg: Config, id: string, list: seq<I.Item>, ids: Inspecting.SubmitIds, now: Time)
    requires Inv(t, cfg) && IsItemList(t.items, id, list) && Inspecting.SubmitTx(t, id, list, ids, now).Err?
    ensures Inspecting.SubmitTx(t, id, list, ids, now).error ==
      if id !in t.heads then NotFound
      else if t.heads[id].status != I.Draft || !AllCodesStored(t.items, id) then Conflict(InvalidState)
      else if SomeFailed(t.items, id) && t.vehicles[t.heads[id].vehicleId].status in {V.OnDuty, V.Retired}
      then Conflict(InvalidState)
      else if SomeFailed(t.items, id) && ids.order == "" then Validation
      else Conflict(Constraint)
  {
    hide DriversOk, ShiftsOk, TripsOk, TripsUnique, Covered, OrdersOk, OdometerOk, JobsOk, KeysOk, BookingOk;
    hide CalendarOk, IsItemList, I.Submittable, I.SubmittedHead, SaveInspection, AllCodesStored, SomeFailed;
    hide Inspecting.SubmitTx, Inspecting.RepairTx;
    SubmitFailsEarly(t, id, list, ids, now);
    if id in t.heads {
      SubmittedScore(t, cfg, id, list, now);
      if I.Submittable(I.Inspection(t.heads[id], list)) {
        HeadKeeps(t, id, list, now);
        SubmitHeader(t, cfg, id, list, now);
        var head := I.SubmittedHead(I.Inspection(t.heads[id], list), now);
        SubmitFails(t, id, list, ids, now, head);
        RepairExactly(t.(heads := t.heads[id := head]), head.vehicleId, ids.order, now);
        RepairRefusal(t.(heads := t.heads[id := head]), head.vehicleId, ids.order, now);
      }
    }
  }

  lemma SubmitFailsEarly(t: Tables, id: string, list: seq<I.Item>, ids: Inspecting.SubmitIds, now: Time)
    ensures id !in t.heads ==> Inspecting.SubmitTx(t, id, list, ids, now) == Err(NotFound)
    ensures id in t.heads && !I.Submittable(I.Inspection(t.heads[id], list)) ==>
      Inspecting.SubmitTx(t, id, list, ids, now) == Err(Conflict(InvalidState))
  {
    hide SaveInspection, Inspecting.RepairTx, I.Submittable;
  }

  /** Past the header, a submission fails as its repair does, or for its job. */
  lemma SubmitFails(t: Tables, id: string, list: seq<I.Item>, ids: Inspecting.SubmitIds, now: Time, head: I.Head)
    requires id in t.heads && I.SubmittedResult(I.Inspection(t.heads[id], list), now) == Ok(I.Inspection(head, list))
    requires SaveInspection(t, I.Inspection(head, list), t.heads[id].version) == Ok(t.(heads := t.heads[id := head]))
    requires Inspecting.SubmitTx(t, id, list, ids, now).Err?
    ensures var repair := Inspecting.RepairTx(t.(heads := t.heads[id := head]), head.vehicleId, ids.order, now);
      Inspecting.SubmitTx(t, id, list, ids, now).error ==
        if head.status == I.Failed && repair.Err? then repair.error else Conflict(Constraint)
  {
    hide SaveInspection, Inspecting.RepairTx, I.SubmittedResult;
  }

  lemma RepairRefusal(t: Tables, vehicleId: string, orderId: string, now: Time)
    requires VehiclesOk(t.vehicles) && vehicleId in t.vehicles
    ensures Inspecting.RepairTx(t, vehicleId, orderId, now).Err? ==>
      Inspecting.RepairTx(t, vehicleId, orderId, now).error ==
        if t.vehicles[vehicleId].status in {V.OnDuty, V.Retired} then Conflict(InvalidState)
        else if orderId == "" then Validation
        else Conflict(Constraint)
  {
    var v := t.vehicles[vehicleId];
    VehicleUpdates(t, v.(status := V.Maintenance, version := v.version + 1, updatedAt := now), v.version);
    hide SaveVehicle;
  }

  /** Recording an item, with nothing in between. */
  lemma RecordRefusal(t: Tables, cfg: Config, id: string, loaded: seq<I.Item>, input: Inspecting.ItemInput,
                      itemId: string, now: Time)
    requires Inv(t, cfg) && IsItemList(t.items, id, loaded)
    requires Inspecting.RecordTx(t, id, loaded, input, itemId, now).Err?
    ensures Inspecting.RecordTx(t, id, loaded, input, itemId, now).error ==
      if id !in t.heads then NotFound
      else if t.heads[id].status != I.Draft || !I.Required(input.code) || input.outcome.Unrecognised?
      then Conflict(InvalidState)
      else Conflict(Constraint)
  {
    if id in t.heads && t.heads[id].status == I.Draft {
      Recording.DraftSaves(t, cfg, id, now);
    }
    hide Inv, SaveHead, IsItemList, I.Put, I.Required;
    if I.Required(input.code) && id in t.heads && t.heads[id].status == I.Draft && !input.outcome.Unrecognised? {
      var x := I.Item(itemId, id, input.code, input.outcome, input.notes);
      var t1 := t.(heads := t.heads[id := t.heads[id].(updatedAt := now)]);
      InsertsRefusal(DeleteItems(t1, id), I.Put(loaded, x), id);
    }
  }

  lemma {:induction false} InsertsRefusal(t: Tables, items: seq<I.Item>, id: string)
    ensures InsertItems(t, items, id).Err? ==> InsertItems(t, items, id).error == Conflict(Constraint)
    decreases |items|
  {
    hide ItemFits;
    if items != [] && InsertItem(t, items[0], id).Ok? {
      InsertsRefusal(InsertItem(t, items[0], id).value, items[1..], id);
    }
  }
}
