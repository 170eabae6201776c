/** Exactly when the operations go through whose conditions are not yet listed, and all that they then do. */
module Guards {
  import opened Basics
  import opened Schema
  import opened Dispatch
  import opened Planning
  import opened Upkeep
  import opened Changes
  import opened Invariant
  import opened Exact
  import opened Sums
  import Fuelling
  import Inspecting
  import Scheduling
  import BusinessDay
  import V = Vehicles
  import W = Workplan
  import T = Trips
  import O = Orders
  import I = Inspections
  import F = Fuel

  /** The shift keeps the vehicle booked on the date. */
  ghost predicate Held(s: W.Shift, vehicleId: string, date: BusinessDay.ServiceDate) {
    && s.assignedVehicleId == Some(vehicleId) && s.serviceDate == date
    && s.status in {W.Assigned, W.InProgress, W.Completed}
  }

  /** One of two shifts ends before the other starts, and either at once or by at least the pause. */
  ghost predicate Apart(x: W.Shift, y: W.Shift, pause: int) {
    || x.endAt == y.startAt || y.endAt == x.startAt
    || x.endAt + pause <= y.startAt || y.endAt + pause <= x.startAt
  }

  ghost function HeldTime(shifts: map<string, W.Shift>, vehicleId: string,
                          date: BusinessDay.ServiceDate): map<string, int>
  {
    map k | k in shifts && Held(shifts[k], vehicleId, date) :: shifts[k].endAt - shifts[k].startAt
  }

  /** Besides what the vehicle is booked for on the date there is room for the shift: a break from each booked
      shift, and duty left for all of it. */
  ghost predicate HasRoom(shifts: map<string, W.Shift>, s: W.Shift, vehicleId: string, l: Scheduling.Limits) {
    var pause := if l.minimumBreak <= 0 then 15 * MINUTE else l.minimumBreak;
    var most := if l.maximumDuty <= 0 then 16 * HOUR else l.maximumDuty;
    && (forall k :: k in shifts && Held(shifts[k], vehicleId, s.serviceDate) ==> Apart(shifts[k], s, pause))
    && Sum(HeldTime(shifts, vehicleId, s.serviceDate)) + (s.endAt - s.startAt) <= most
  }

  /** In a store that satisfies the invariants, what keeps a vehicle booked is what the code counts. */
  lemma HeldMeans(t: Tables, cfg: Config, vehicleId: string, date: BusinessDay.ServiceDate)
    requires Inv(t, cfg)
    ensures forall k :: k in t.shifts ==>
      && (Held(t.shifts[k], vehicleId, date) <==> Scheduling.BookedOn(t.shifts[k], vehicleId, date))
      && t.shifts[k].id == k && k != "" && t.shifts[k].startAt < t.shifts[k].endAt
    ensures HeldTime(t.shifts, vehicleId, date) == Scheduling.DutyMap(t.shifts, vehicleId, date)
  {
    hide VehiclesOk, DriversOk, TripsOk, TripsUnique, Covered, OrdersOk, OdometerOk, JobsOk, KeysOk;
    hide InspectionsOk, BookingOk, CalendarOk;
  }

  lemma RoomMeans(t: Tables, cfg: Config, s: W.Shift, vehicleId: string)
    requires Inv(t, cfg) && s.id in t.shifts && t.shifts[s.id] == s && s.status == W.Scheduled
    ensures Scheduling.LeavesRoom(t.shifts, s, vehicleId, cfg.limits) <==> HasRoom(t.shifts, s, vehicleId, cfg.limits)
  {
    hide VehiclesOk, DriversOk, ShiftsOk, TripsOk, TripsUnique, Covered, OrdersOk, OdometerOk, JobsOk, KeysOk;
    hide InspectionsOk, CalendarOk, Sum;
    assert WithinLimits(t.shifts, cfg.limits, vehicleId, s.serviceDate);
    HeldMeans(t, cfg, vehicleId, s.serviceDate);
    assert !Held(s, vehicleId, s.serviceDate);
    hide Inv, Scheduling.BookedOn, Scheduling.DutyMap, HeldTime;
  }

  /** What assigning a vehicle to a shift takes. */
  ghost predicate MayAssign(t: Tables, input: AssignInput, latest: Option<I.Head>, now: Time, l: Scheduling.Limits) {
    && input.shiftId in t.shifts && input.vehicleId in t.vehicles && t.shifts[input.shiftId].routeId in t.routes
    && var shift, vehicle, route := t.shifts[input.shiftId], t.vehicles[input.vehicleId],
        t.routes[t.shifts[input.shiftId].routeId];
       && shift.status == W.Scheduled && route.status == W.RouteActive
       && vehicle.status == V.Available && now < vehicle.inspectionDueAt && !HasActiveOrder(t.orders, input.vehicleId)
       && route.requiredCapacityKg <= vehicle.capacityKg
       && (latest.Some? ==> latest.value.status == I.Passed && shift.startAt < latest.value.expiresAt)
       && HasRoom(t.shifts, shift, input.vehicleId, l)
  }

  /** An assignment commits exactly under its guards, with room measured on the stored shifts, and then
      changes that one shift. */
  lemma AssignExactly(t: Tables, cfg: Config, input: AssignInput, view: AssignView, now: Time)
    requires Inv(t, cfg) && Shows(t, input, view)
    ensures var r := AssignTx(t, input, view, now, cfg.limits);
      && (r.Ok? <==> MayAssign(t, input, view.latest, now, cfg.limits))
      && (r.Ok? ==>
            var shift := t.shifts[input.shiftId];
            var taken := shift.(status := W.Assigned, assignedVehicleId := Some(input.vehicleId),
                                version := shift.version + 1, updatedAt := now);
            r.value == (t.(shifts := t.shifts[input.shiftId := taken]), taken))
  {
    hide TripsOk, TripsUnique, Covered, OrdersOk, OdometerOk, JobsOk, KeysOk, InspectionsOk, BookingOk;
    hide CalendarOk, DriversOk;
    hide Scheduling.CanTake, Scheduling.LeavesRoom, HasActiveOrder, IsListing, IsLatest, SaveShift, HasRoom;
    if input.shiftId in t.shifts {
      var shift := t.shifts[input.shiftId];
      if shift.status == W.Scheduled {
        assert shift.id == input.shiftId;
        RoomMeans(t, cfg, shift, input.vehicleId);
      }
      Scheduling.ListingDecides(t.shifts, view.rows, shift, input.vehicleId, cfg.limits);
      if input.vehicleId in t.vehicles && shift.status == W.Scheduled {
        ShiftUpdates(t, shift.(status := W.Assigned, assignedVehicleId := Some(input.vehicleId),
                               version := shift.version + 1, updatedAt := now), shift.version);
      }
    }
  }

  /** A vehicle is registered exactly with a type, a capacity, a reading that is not negative, an inspection that
      falls due later than now, and a new id; and is then available and as it was described. */
  lemma RegisterExactly(t: Tables, input: VehicleInput, id: string, now: Time)
    ensures var r := RegisterTx(t, input, id, now);
      && (r.Ok? <==>
            && !Blank(input.vehicleType) && input.capacityKg > 0 && input.odometerKm >= 0
            && now < input.inspectionDueAt && input.inspectionDueAt != ZERO_TIME && id != "" && id !in t.vehicles)
      && (r.Ok? ==>
            var v := V.Vehicle(id, input.vehicleType, V.Available, input.capacityKg, input.odometerKm,
                               input.inspectionDueAt, 1, now);
            r.value == (t.(vehicles := t.vehicles[id := v]), v))
  {
    if input.vehicleType == "" {
      assert Blank(input.vehicleType);
    }
  }

  /** The white space that a blank text consists of: five control characters, the space, and the others of
      Unicode. */
  lemma SpacesAre(c: char)
    ensures Blank([c]) <==>
      || 9 <= c as int <= 13 || 0x2000 <= c as int <= 0x200A
      || c as int in {0x20, 0x85, 0xA0, 0x1680, 0x2028, 0x2029, 0x202F, 0x205F, 0x3000}
  {
    assert [c][0] == c;
  }

  /** A shift is created exactly with a window of at most twenty hours, within its service date if there is a
      calendar, on a known route that has no shift of that date; and is then scheduled and free. */
  lemma CreateShiftExactly(t: Tables, cfg: Config, input: ShiftInput, id: string, now: Time)
    ensures var r := CreateShiftTx(t, input, cfg.calendar, id, now);
      && (r.Ok? <==>
            && !Blank(input.routeId) && !(input.date.Malformed? && Blank(input.date.text)) && input.routeId in t.routes
            && input.startAt != ZERO_TIME && input.endAt != ZERO_TIME
               && input.startAt < input.endAt <= input.startAt + 20 * HOUR
            && (cfg.calendar.Some? ==> WithinDay(cfg.calendar.value, input))
            && id != "" && id !in t.shifts
            && forall k :: k in t.shifts
                 ==> !(t.shifts[k].routeId == input.routeId && t.shifts[k].serviceDate == input.date))
      && (r.Ok? ==>
            var shift := W.Shift(id, input.routeId, input.date, input.startAt, input.endAt, W.Scheduled, None, 1, now);
            r.value == (t.(shifts := t.shifts[id := shift]), shift))
  {
    if input.date == BusinessDay.Malformed("") {
      assert Blank(input.date.text);
    }
    if input.routeId == "" {
      assert Blank(input.routeId);
    }
  }

  ghost predicate WithinDay(c: BusinessDay.Calendar, input: ShiftInput) {
    && BusinessDay.Bounds(c, input.date).Ok?
    && BusinessDay.Bounds(c, input.date).value.0 <= input.startAt
       && input.endAt <= BusinessDay.Bounds(c, input.date).value.1
  }

  /** With nothing in between, a shift is cancelled exactly when it is scheduled or assigned; its vehicle
      stays noted on it. */
  lemma CancelExactly(t: Tables, cfg: Config, id: string, now: Time)
    requires Inv(t, cfg)
    ensures var r := CancelTx(t, id, now);
      && (r.Ok? <==> id in t.shifts && t.shifts[id].status in {W.Scheduled, W.Assigned})
      && (r.Ok? ==>
            var shift := t.shifts[id].(status := W.Cancelled, version := t.shifts[id].version + 1, updatedAt := now);
            r.value == (t.(shifts := t.shifts[id := shift]), shift))
  {
    hide TripsOk, TripsUnique, Covered, OrdersOk, OdometerOk, JobsOk, KeysOk, InspectionsOk, BookingOk;
    hide CalendarOk, DriversOk, SaveShift;
    if id in t.shifts {
      var shift := t.shifts[id];
      ShiftUpdates(t, shift.(status := W.Cancelled, version := shift.version + 1, updatedAt := now), shift.version);
    }
  }

  /** With nothing in between, a maintenance order is started exactly when it is open; its vehicle is not
      touched. */
  lemma BeginExactly(t: Tables, cfg: Config, id: string, now: Time)
    requires Inv(t, cfg)
    ensures var r := BeginTx(t, id, now);
      && (r.Ok? <==> id in t.orders && t.orders[id].status == O.Open)
      && (r.Ok? ==>
            var order := t.orders[id].(status := O.InProgress, version := t.orders[id].version + 1, updatedAt := now);
            r.value == (t.(orders := t.orders[id := order]), order))
  {
    hide TripsOk, TripsUnique, Covered, OdometerOk, JobsOk, KeysOk, InspectionsOk, BookingOk, CalendarOk;
    hide DriversOk, ShiftsOk, VehiclesOk;
    hide HasActiveOrder;
  }

  /** What recording fuel takes. */
  ghost predicate MayLogFuel(t: Tables, input: Fuelling.FuelInput, ids: Ids, now: Time) {
    && input.vehicleId in t.vehicles && t.vehicles[input.vehicleId].status !in {V.OnDuty, V.Retired}
    && input.odometerKm >= t.vehicles[input.vehicleId].odometerKm
    && input.quantity > 0.0 && input.costCents >= 0 && input.stationCode != "" && !input.fuelType.Unknown?
    && (input.recordedAt == ZERO_TIME || input.recordedAt <= now)
    && ids.row != "" && ids.row !in t.fuel && ids.job !in t.jobs
  }

  ghost function FuelRow(input: Fuelling.FuelInput, ids: Ids, now: Time): F.Record {
    F.Record(ids.row, input.vehicleId, input.fuelType, input.quantity, input.costCents, input.odometerKm,
             input.stationCode,
             if input.recordedAt == ZERO_TIME then now else input.recordedAt)
  }

  /** Fuel is recorded exactly for a vehicle that is neither on duty nor retired, at a reading not below its
      odometer; the vehicle's row changes only if the reading is ahead of it, and then only in the reading. */
  lemma FuelExactly(t: Tables, cfg: Config, input: Fuelling.FuelInput, ids: Ids, now: Time)
    requires Inv(t, cfg)
    ensures var r := Fuelling.RecordTx(t, input, ids, now);
      && (r.Ok? <==> MayLogFuel(t, input, ids, now))
      && (r.Ok? ==>
            var v, record := t.vehicles[input.vehicleId], FuelRow(input, ids, now);
            var ahead := v.(odometerKm := input.odometerKm, version := v.version + 1, updatedAt := now);
            r.value == (t.(fuel := t.fuel[ids.row := record],
                           vehicles := if input.odometerKm > v.odometerKm
                                       then t.vehicles[input.vehicleId := ahead] else t.vehicles,
                           jobs := t.jobs[ids.job := Job(ids.job, FuelRecorded(record), Pending, 0, now)]), record))
  {
    hide TripsOk, TripsUnique, Covered, OrdersOk, OdometerOk, JobsOk, KeysOk, InspectionsOk, BookingOk;
    hide CalendarOk, DriversOk, ShiftsOk;
    hide Fuelling.RecordTx, MayLogFuel, FuelRow;
    if Fuelling.RecordTx(t, input, ids, now).Ok? {
      FuelNeeds(t, input, ids, now);
    }
    if MayLogFuel(t, input, ids, now) {
      FuelGoesThrough(t, input, ids, now);
    }
  }

  lemma FuelNeeds(t: Tables, input: Fuelling.FuelInput, ids: Ids, now: Time)
    requires VehiclesOk(t.vehicles) && Fuelling.RecordTx(t, input, ids, now).Ok?
    ensures MayLogFuel(t, input, ids, now)
  {
    hide SaveVehicle;
    FuelGuards(t, input, ids, now);
  }

  lemma FuelGoesThrough(t: Tables, input: Fuelling.FuelInput, ids: Ids, now: Time)
    requires VehiclesOk(t.vehicles) && MayLogFuel(t, input, ids, now)
    ensures var v, record := t.vehicles[input.vehicleId], FuelRow(input, ids, now);
      var ahead := v.(odometerKm := input.odometerKm, version := v.version + 1, updatedAt := now);
      Fuelling.RecordTx(t, input, ids, now) ==
        Ok((t.(fuel := t.fuel[ids.row := record],
               vehicles := if input.odometerKm > v.odometerKm then t.vehicles[input.vehicleId := ahead] else t.vehicles,
               jobs := t.jobs[ids.job := Job(ids.job, FuelRecorded(record), Pending, 0, now)]), record))
  {
    hide SaveVehicle;
    var v, record := t.vehicles[input.vehicleId], FuelRow(input, ids, now);
    var logged := t.(fuel := t.fuel[ids.row := record]);
    assert SaveFuel(t, record) == Ok(logged);
    VehicleUpdates(logged, Fuelling.Advanced(v, input.odometerKm, now), v.version);
  }

  /** An inspection is created exactly for a vehicle that is neither on duty nor retired, as an empty draft. */
  lemma CreateInspectionExactly(t: Tables, cfg: Config, vehicleId: string, inspector: string, inspectedAt: Time,
                                id: string, validity: int, now: Time)
    requires Inv(t, cfg)
    ensures var r := Inspecting.CreateTx(t, vehicleId, inspector, inspectedAt, id, validity, now);
      && (r.Ok? <==>
            && vehicleId in t.vehicles && t.vehicles[vehicleId].status !in {V.OnDuty, V.Retired}
            && inspector != "" && id != "" && id !in t.heads)
      && (r.Ok? ==>
            var at := if inspectedAt == ZERO_TIME then now else inspectedAt;
            var until := at + (if validity <= 0 then 30 * DAY else validity);
            var head := I.Head(id, vehicleId, inspector, I.Draft, at, until, 0, 1, now);
            r.value == (t.(heads := t.heads[id := head]), I.Inspection(head, [])))
  {
    hide TripsOk, TripsUnique, Covered, OrdersOk, OdometerOk, JobsOk, KeysOk, BookingOk, CalendarOk;
    hide DriversOk, ShiftsOk;
  }

  /** The inspection's stored items that did not fail. */
  ghost function GoodItems(items: map<string, I.Item>, id: string): set<string> {
    set k | k in items && items[k].inspectionId == id && items[k].outcome != I.Fail
  }

  /** The header of a submission: twenty points for each stored item that did not fail, failed exactly if one
      did, and nothing else new but version and time stamp. */
  ghost function Graded(t: Tables, id: string, now: Time): I.Head
    requires id in t.heads
  {
    var failed := exists k :: k in t.items && t.items[k].inspectionId == id && t.items[k].outcome == I.Fail;
    t.heads[id].(score := 20 * |GoodItems(t.items, id)|, status := if failed then I.Failed else I.Passed,
                 version := t.heads[id].version + 1, updatedAt := now)
  }

  /** The rows of a submission: the header, one job with the result, and if it failed, the vehicle out of
      service and a repair that is due in a week. */
  ghost function WithSubmission(t: Tables, head: I.Head, list: seq<I.Item>, ids: Inspecting.SubmitIds,
                                now: Time): Tables
    requires head.vehicleId in t.vehicles
  {
    var job := Job(ids.job, InspectionSubmitted(I.Inspection(head, list)), Pending, 0, now);
    var v := t.vehicles[head.vehicleId];
    var repair := O.Order(ids.order, head.vehicleId, "inspection_failure", O.Open, now, now + 7 * 24 * HOUR, None, 1,
                          now);
    var stored := t.(heads := t.heads[head.id := head], jobs := t.jobs[ids.job := job]);
    if head.status == I.Failed
    then stored.(vehicles := t.vehicles[head.vehicleId := v.(status := V.Maintenance, version := v.version + 1,
                                                             updatedAt := now)],
                 orders := t.orders[ids.order := repair])
    else stored
  }

  /** All that a submission writes if it commits, and that every required code was stored. */
  lemma SubmitWrites(t: Tables, cfg: Config, id: string, list: seq<I.Item>, ids: Inspecting.SubmitIds, now: Time)
    requires Inv(t, cfg) && IsItemList(t.items, id, list) && Inspecting.SubmitTx(t, id, list, ids, now).Ok?
    ensures id in t.heads && t.heads[id].status == I.Draft && t.heads[id].vehicleId in t.vehicles
    ensures CodeStored(t.items, id, "brakes") && CodeStored(t.items, id, "lights")
            && CodeStored(t.items, id, "hydraulics") && CodeStored(t.items, id, "tires")
            && CodeStored(t.items, id, "safety_kit")
    ensures Inspecting.SubmitTx(t, id, list, ids, now).value ==
      (WithSubmission(t, Graded(t, id, now), list, ids, now), I.Inspection(Graded(t, id, now), list))
  {
    SubmitPreconditions(t, cfg, id, list, ids, now);
    SubmittedHeadIs(t, cfg, id, list, now);
    SubmitUnfolds(t, cfg, id, list, ids, now);
    hide Inv, Inspecting.SubmitTx, Inspecting.RepairTx, I.Submittable, I.SubmittedHead, IsItemList, GoodItems;
    hide VehiclesOk, CodeStored, WithSubmission, Graded;
    SubmitRows(t, Graded(t, id, now), list, ids, now);
  }

  lemma SubmitRows(t: Tables, head: I.Head, list: seq<I.Item>, ids: Inspecting.SubmitIds, now: Time)
    requires VehiclesOk(t.vehicles) && head.vehicleId in t.vehicles
    ensures var t1 := t.(heads := t.heads[head.id := head]);
      var t2 := if head.status == I.Failed then Inspecting.RepairTx(t1, head.vehicleId, ids.order, now) else Ok(t1);
      var job := Job(ids.job, InspectionSubmitted(I.Inspection(head, list)), Pending, 0, now);
      t2.Ok? ==> t2.value.(jobs := t2.value.jobs[ids.job := job]) == WithSubmission(t, head, list, ids, now)
  {
    RepairExactly(t.(heads := t.heads[head.id := head]), head.vehicleId, ids.order, now);
    hide Inspecting.RepairTx;
  }

  lemma SubmitPreconditions(t: Tables, cfg: Config, id: string, list: seq<I.Item>, ids: Inspecting.SubmitIds, now: Time)
    requires Inv(t, cfg) && IsItemList(t.items, id, list) && Inspecting.SubmitTx(t, id, list, ids, now).Ok?
    ensures id in t.heads && t.heads[id].status == I.Draft && t.heads[id].vehicleId in t.vehicles
    ensures VehiclesOk(t.vehicles) && t.vehicles[t.heads[id].vehicleId].id == t.heads[id].vehicleId
    ensures I.Submittable(I.Inspection(t.heads[id], list))
    ensures CodeStored(t.items, id, "brakes") && CodeStored(t.items, id, "lights")
            && CodeStored(t.items, id, "hydraulics") && CodeStored(t.items, id, "tires")
            && CodeStored(t.items, id, "safety_kit")
  {
    SubmitExactly(t, cfg, id, list, ids, now);
    SubmittedScore(t, cfg, id, list, now);
    hide Inspecting.SubmitTx, I.Submittable, I.SubmittedHead, SomeFailed, IsItemList, Effect, SubmitChange, Permitted;
    hide DriversOk, ShiftsOk, TripsOk, TripsUnique, Covered, OrdersOk, OdometerOk, JobsOk, KeysOk, BookingOk;
    hide CalendarOk, AllCodesStored, CodeStored;
    FiveCodes(t.items, id);
  }

  lemma FiveCodes(items: map<string, I.Item>, id: string)
    requires AllCodesStored(items, id)
    ensures CodeStored(items, id, "brakes") && CodeStored(items, id, "lights") && CodeStored(items, id, "hydraulics")
            && CodeStored(items, id, "tires") && CodeStored(items, id, "safety_kit")
  {
    hide CodeStored;
    var codes := I.REQUIRED_ITEMS;
    assert codes[0] in codes && codes[1] in codes && codes[2] in codes && codes[3] in codes && codes[4] in codes;
  }

  lemma SubmittedHeadIs(t: Tables, cfg: Config, id: string, list: seq<I.Item>, now: Time)
    requires Inv(t, cfg) && id in t.heads && IsItemList(t.items, id, list)
    requires I.Submittable(I.Inspection(t.heads[id], list))
    ensures I.SubmittedHead(I.Inspection(t.heads[id], list), now) == Graded(t, id, now) && Graded(t, id, now).id == id
    ensures Graded(t, id, now).vehicleId == t.heads[id].vehicleId
  {
    LoadedItems(t, cfg, id, list);
    LoadedSaysStored(t, cfg, id, list);
    GoodItemsByCode(t, cfg, id, list);
    I.SubmissionVerdict(I.Inspection(t.heads[id], list), now);
    HeadsKeyed(t, cfg, id);
    hide Inv, I.Submittable, I.SubmittedHead, IsItemList, GoodItems, I.GoodCodes, I.NoneFailed;
  }

  lemma HeadsKeyed(t: Tables, cfg: Config, id: string)
    requires Inv(t, cfg) && id in t.heads
    ensures t.heads[id].id == id
  {
  }

  /** Each item has a code of its own, so counting items is counting codes. */
  lemma GoodItemsByCode(t: Tables, cfg: Config, id: string, list: seq<I.Item>)
    requires Inv(t, cfg) && IsItemList(t.items, id, list)
    ensures |I.GoodCodes(list)| == |GoodItems(t.items, id)|
  {
    hide VehiclesOk, DriversOk, ShiftsOk, TripsOk, TripsUnique, Covered, OrdersOk, OdometerOk, JobsOk, KeysOk;
    hide BookingOk, CalendarOk, I.Ordered;
    var keys, codes := GoodItems(t.items, id), I.GoodCodes(list);
    forall c | c in codes ensures exists k :: k in keys && t.items[k].code == c {
      var x :| x in list && x.outcome != I.Fail && x.code == c;
      assert x.id in keys;
    }
    forall k | k in keys ensures t.items[k].code in codes {
      assert t.items[k] in list;
    }
    OneToOne(keys, codes, t.items);
  }

  lemma {:induction false} OneToOne(keys: set<string>, codes: set<string>, items: map<string, I.Item>)
    requires forall k :: k in keys ==> k in items && items[k].code in codes
    requires forall c :: c in codes ==> exists k :: k in keys && items[k].code == c
    requires forall a, b :: a in keys && b in keys && items[a].code == items[b].code ==> a == b
    ensures |keys| == |codes|
    decreases |keys|
  {
    if keys == {} {
      assert codes == {} by {
        if c :| c in codes {
          assert false;
        }
      }
    } else {
      var k :| k in keys;
      forall c | c in codes - {items[k].code} ensures exists j :: j in keys - {k} && items[j].code == c {
        var j :| j in keys && items[j].code == c;
        assert j in keys - {k};
      }
      OneToOne(keys - {k}, codes - {items[k].code}, items);
    }
  }

  /** A return that commits completes the trip at its reading, frees its vehicle at that reading, completes
      its shift, and enqueues one job with the trip as stored. */
  lemma ReturnWrites(t: Tables, cfg: Config, tripId: string, endOdometer: int, jobId: string, now: Time)
    requires Inv(t, cfg) && ReturnTx(t, tripId, endOdometer, jobId, now).Ok?
    ensures tripId in t.trips && t.trips[tripId].vehicleId in t.vehicles && t.trips[tripId].shiftId in t.shifts
    ensures var tr, v, s := t.trips[tripId], t.vehicles[t.trips[tripId].vehicleId], t.shifts[t.trips[tripId].shiftId];
      var done := tr.(status := T.Completed, endOdometer := Some(endOdometer), endedAt := Some(now),
                      version := tr.version + 1, updatedAt := now);
      var free := v.(status := V.Available, odometerKm := endOdometer, version := v.version + 1, updatedAt := now);
      var over := s.(status := W.Completed, version := s.version + 1, updatedAt := now);
      ReturnTx(t, tripId, endOdometer, jobId, now).value ==
        (t.(trips := t.trips[tripId := done], vehicles := t.vehicles[tr.vehicleId := free],
            shifts := t.shifts[tr.shiftId := over],
            jobs := t.jobs[jobId := Job(jobId, TripCompleted(done), Pending, 0, now)]), done)
  {
    hide Inv, ReturnTx;
    ReturnUnfolds(t, cfg, tripId, endOdometer, jobId, now);
  }

  /** Opening an order takes the vehicle out of service and adds the order; completing one does the reverse. */
  lemma UpkeepWrites(t: Tables, cfg: Config, vehicleId: string, kind: string, dueAt: Time, id: string, now: Time)
    requires Inv(t, cfg)
    ensures OpenTx(t, vehicleId, kind, dueAt, id, now).Ok? ==>
      var v := t.vehicles[vehicleId];
      var order := O.Order(id, vehicleId, kind, O.Open, now, dueAt, None, 1, now);
      OpenTx(t, vehicleId, kind, dueAt, id, now).value ==
        (t.(vehicles := t.vehicles[vehicleId := v.(status := V.Maintenance, version := v.version + 1,
                                                   updatedAt := now)],
            orders := t.orders[id := order]), order)
    ensures CompleteTx(t, id, now).Ok? ==>
      var order := t.orders[id].(status := O.Completed, closedAt := Some(now), version := t.orders[id].version + 1,
                                 updatedAt := now);
      var v := t.vehicles[order.vehicleId];
      CompleteTx(t, id, now).value ==
        (t.(vehicles := t.vehicles[v.id := v.(status := V.Available, version := v.version + 1, updatedAt := now)],
            orders := t.orders[id := order]), order)
  {
    hide TripsOk, TripsUnique, Covered, OdometerOk, JobsOk, KeysOk, InspectionsOk, BookingOk, CalendarOk;
    hide DriversOk, ShiftsOk, HasActiveOrder, OpenTx, CompleteTx;
    OpenWrites(t, vehicleId, kind, dueAt, id, now);
    CompleteWrites(t, id, now);
  }

  lemma OpenWrites(t: Tables, vehicleId: string, kind: string, dueAt: Time, id: string, now: Time)
    requires VehiclesOk(t.vehicles)
    ensures OpenTx(t, vehicleId, kind, dueAt, id, now).Ok? ==>
      var v := t.vehicles[vehicleId];
      var order := O.Order(id, vehicleId, kind, O.Open, now, dueAt, None, 1, now);
      OpenTx(t, vehicleId, kind, dueAt, id, now).value ==
        (t.(vehicles := t.vehicles[vehicleId := v.(status := V.Maintenance, version := v.version + 1,
                                                   updatedAt := now)],
            orders := t.orders[id := order]), order)
  {
    hide HasActiveOrder;
  }

  lemma CompleteWrites(t: Tables, id: string, now: Time)
    requires VehiclesOk(t.vehicles) && OrdersOk(t.orders, t.vehicles)
    ensures CompleteTx(t, id, now).Ok? ==>
      var order := t.orders[id].(status := O.Completed, closedAt := Some(now), version := t.orders[id].version + 1,
                                 updatedAt := now);
      var v := t.vehicles[order.vehicleId];
      CompleteTx(t, id, now).value ==
        (t.(vehicles := t.vehicles[v.id := v.(status := V.Available, version := v.version + 1, updatedAt := now)],
            orders := t.orders[id := order]), order)
  {
    hide HasActiveOrder;
  }
}
