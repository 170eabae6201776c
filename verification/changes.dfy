/** What the operations can do to the tables. Every successful operation of every service makes one of
    these changes; the invariants are proved change by change. */
module Changes {
  import opened Basics
  import opened Schema
  import opened Dispatch
  import Scheduling
  import BusinessDay
  import V = Vehicles
  import W = Workplan
  import T = Trips
  import O = Orders
  import I = Inspections
  import F = Fuel
  import C = Crew

  datatype Config = Config(limits: Scheduling.Limits, calendar: Option<BusinessDay.Calendar>)

  datatype Change =
    | VehicleAdded(v: V.Vehicle)
    | RouteSaved(route: W.Route)
    | DriverSaved(driver: C.Driver)
    | ShiftCreated(s: W.Shift)
    | ShiftCancelled(s: W.Shift)
    | ShiftAssigned(s: W.Shift)
    | TripBegun(v: V.Vehicle, s: W.Shift, tr: T.Trip, row: KeyRow, job: Job)
    | TripEnded(v: V.Vehicle, s: W.Shift, tr: T.Trip, job: Job)
    | OrderOpened(v: V.Vehicle, o: O.Order)
    | OrderBegun(o: O.Order)
    | OrderClosed(v: V.Vehicle, o: O.Order)
    | InspectionCreated(h: I.Head)
    | HeadSaved(h: I.Head)
    | ItemsCleared(inspectionId: string)
    | ItemAdded(item: I.Item)
    | InspectionPassed(h: I.Head, job: Job)
    | InspectionFailed(h: I.Head, v: V.Vehicle, o: O.Order, job: Job)
    | FuelLogged(v: V.Vehicle, record: F.Record, job: Job)
    | JobMarked(job: Job)

  predicate WritesVehicle(c: Change) {
    c.VehicleAdded? || c.TripBegun? || c.TripEnded? || c.OrderOpened? || c.OrderClosed? || c.InspectionFailed?
    || c.FuelLogged?
  }

  predicate WritesShift(c: Change) {
    c.ShiftCreated? || c.ShiftCancelled? || c.ShiftAssigned? || c.TripBegun? || c.TripEnded?
  }

  predicate WritesTrip(c: Change) {
    c.TripBegun? || c.TripEnded?
  }

  predicate WritesOrder(c: Change) {
    c.OrderOpened? || c.OrderBegun? || c.OrderClosed? || c.InspectionFailed?
  }

  predicate WritesHead(c: Change) {
    c.InspectionCreated? || c.HeadSaved? || c.InspectionPassed? || c.InspectionFailed?
  }

  predicate WritesJob(c: Change) {
    c.TripBegun? || c.TripEnded? || c.InspectionPassed? || c.InspectionFailed? || c.FuelLogged? || c.JobMarked?
  }

  /** A change writes at most one row of each table; only clearing a checklist removes rows. */
  function Effect(t: Tables, c: Change): Tables {
    Tables(
      if WritesVehicle(c) then t.vehicles[c.v.id := c.v] else t.vehicles,
      if c.RouteSaved? then t.routes[c.route.id := c.route] else t.routes,
      if c.DriverSaved? then t.drivers[c.driver.id := c.driver] else t.drivers,
      if WritesShift(c) then t.shifts[c.s.id := c.s] else t.shifts,
      if WritesTrip(c) then t.trips[c.tr.id := c.tr] else t.trips,
      if WritesOrder(c) then t.orders[c.o.id := c.o] else t.orders,
      if WritesHead(c) then t.heads[c.h.id := c.h] else t.heads,
      if c.ItemsCleared? then DeleteItems(t, c.inspectionId).items
      else if c.ItemAdded? then t.items[c.item.id := c.item] else t.items,
      if c.FuelLogged? then t.fuel[c.record.id := c.record] else t.fuel,
      if c.TripBegun? then t.keys[KeyOf(c.v.id, c.tr.idempotencyKey) := c.row] else t.keys,
      if WritesJob(c) then t.jobs[c.job.id := c.job] else t.jobs)
  }

  ghost predicate NewJob(t: Tables, job: Job, payload: Payload) {
    job.id !in t.jobs && job.payload == payload && job.status == Pending && job.attempts == 0
  }

  ghost predicate NewOrder(t: Tables, o: O.Order, vehicleId: string) {
    o.id !in t.orders && o.status == O.Open && o.version == 1 && o.vehicleId == vehicleId
  }

  /** A draft's submission, with the items it had. */
  ghost predicate Settles(t: Tables, h: I.Head, job: Job) {
    && h.id in t.heads && t.heads[h.id].status == I.Draft
    && h.vehicleId == t.heads[h.id].vehicleId && h.version == t.heads[h.id].version + 1
    && 0 <= h.score <= 100
    && exists list ::
      && IsItemList(t.items, h.id, list) && I.Submittable(I.Inspection(t.heads[h.id], list))
      && h == I.SubmittedHead(I.Inspection(t.heads[h.id], list), h.updatedAt)
      && NewJob(t, job, InspectionSubmitted(I.Inspection(h, list)))
  }

  ghost predicate Permitted(t: Tables, cfg: Config, c: Change) {
    match c
    case VehicleAdded(v) =>
      v.id !in t.vehicles && v.id != "" && v.status == V.Available && v.version == 1 && v.capacityKg > 0
      && v.odometerKm >= 0
    case RouteSaved(r) => true
    case DriverSaved(d) => d.id != "" && d.name != ""
    case ShiftCreated(s) =>
      && s.id !in t.shifts && s.id != "" && s.routeId in t.routes
      && s.status == W.Scheduled && s.assignedVehicleId == None && s.version == 1 && s.endAt > s.startAt
      && (forall k :: k in t.shifts ==> !SameRouteAndDate(t.shifts[k], s))
      && (cfg.calendar.Some? ==> BusinessDay.ValidateWindow(cfg.calendar.value, s.serviceDate, s.startAt, s.endAt).Ok?)
    case ShiftCancelled(s) =>
      s.id in t.shifts && t.shifts[s.id].Cancel(s.updatedAt) == Ok(s)
    case ShiftAssigned(s) =>
      && s.id in t.shifts && s.assignedVehicleId.Some? && s.assignedVehicleId.value in t.vehicles
      && t.shifts[s.id].Assign(s.assignedVehicleId.value, s.updatedAt) == Ok(s)
      && t.vehicles[s.assignedVehicleId.value].status == V.Available
      && !HasActiveOrder(t.orders, s.assignedVehicleId.value)
      && Scheduling.LeavesRoom(t.shifts, t.shifts[s.id], s.assignedVehicleId.value, cfg.limits)
    case TripBegun(v, s, tr, row, job) =>
      && v.id in t.vehicles && t.vehicles[v.id].StartDispatch(v.updatedAt) == Ok(v)
      && s.id in t.shifts && t.shifts[s.id].Start(s.updatedAt) == Ok(s) && s.assignedVehicleId == Some(v.id)
      && !HasActiveOrder(t.orders, v.id)
      && tr.id !in t.trips && tr.vehicleId == v.id && tr.shiftId == s.id && tr.status == T.Active && tr.version == 2
      && tr.startedAt.Some? && tr.endOdometer == None
      && tr.startOdometer.Some? && tr.startOdometer.value >= t.vehicles[v.id].odometerKm
      && (forall k :: k in t.trips ==> t.trips[k].shiftId != s.id)
      && (forall k :: k in t.trips
            ==> !(t.trips[k].vehicleId == v.id && t.trips[k].idempotencyKey == tr.idempotencyKey))
      && KeyOf(v.id, tr.idempotencyKey) !in t.keys && row.response == tr
      && NewJob(t, job, TripStarted(tr))
    case TripEnded(v, s, tr, job) =>
      && tr.id in t.trips && tr.endOdometer.Some?
         && t.trips[tr.id].Complete(tr.endOdometer.value, tr.updatedAt) == Ok(tr)
      && v.id == tr.vehicleId && v.id in t.vehicles
         && t.vehicles[v.id].FinishReturn(tr.endOdometer.value, v.updatedAt) == Ok(v)
      && s.id == tr.shiftId && s.id in t.shifts && t.shifts[s.id].Complete(s.updatedAt) == Ok(s)
      && NewJob(t, job, TripCompleted(tr))
    case OrderOpened(v, o) =>
      && v.id in t.vehicles && t.vehicles[v.id].MarkMaintenance(v.updatedAt) == Ok(v)
      && !HasActiveOrder(t.orders, v.id)
      && NewOrder(t, o, v.id)
    case OrderBegun(o) =>
      o.id in t.orders && t.orders[o.id].Start(o.updatedAt) == Ok(o)
    case OrderClosed(v, o) =>
      && o.id in t.orders && t.orders[o.id].Complete(o.updatedAt) == Ok(o)
      && v.id == o.vehicleId && v.id in t.vehicles && t.vehicles[v.id].ReleaseMaintenance(v.updatedAt) == Ok(v)
    case InspectionCreated(h) =>
      h.id !in t.heads && h.vehicleId in t.vehicles && h.status == I.Draft && h.version == 1 && h.score == 0
    case HeadSaved(h) =>
      h.id in t.heads && t.heads[h.id].status == I.Draft && h == t.heads[h.id].(updatedAt := h.updatedAt)
    case ItemsCleared(id) => true
    case ItemAdded(item) =>
      && item.inspectionId in t.heads && ItemFits(t.items, item)
      && I.Required(item.code) && !item.outcome.Unrecognised?
    case InspectionPassed(h, job) =>
      Settles(t, h, job) && h.status == I.Passed
    case InspectionFailed(h, v, o, job) =>
      && Settles(t, h, job) && h.status == I.Failed
      && v.id == h.vehicleId && v.id in t.vehicles && t.vehicles[v.id].MarkMaintenance(v.updatedAt) == Ok(v)
      && NewOrder(t, o, v.id)
    case FuelLogged(v, record, job) =>
      && v.id in t.vehicles && t.vehicles[v.id].status != V.OnDuty
      && record.id !in t.fuel && record.vehicleId == v.id && record.odometerKm >= t.vehicles[v.id].odometerKm
      && (v == t.vehicles[v.id] || (v.odometerKm > t.vehicles[v.id].odometerKm
           && v == t.vehicles[v.id].(odometerKm := v.odometerKm, version := t.vehicles[v.id].version + 1,
                                     updatedAt := v.updatedAt)))
      && v.odometerKm == record.odometerKm
      && NewJob(t, job, FuelRecorded(record))
    case JobMarked(job) =>
      job.id in t.jobs && job.payload == t.jobs[job.id].payload
  }

  // ---------------------------------------------------------------------------------------
  // What a permitted change does to one row
  // ---------------------------------------------------------------------------------------

  lemma VehicleWritten(t: Tables, cfg: Config, c: Change)
    requires Permitted(t, cfg, c) && WritesVehicle(c)
    ensures c.VehicleAdded? <==> c.v.id !in t.vehicles
    ensures c.VehicleAdded? ==>
      c.v.id != "" && c.v.status == V.Available && c.v.version == 1 && c.v.capacityKg > 0 && c.v.odometerKm >= 0
    ensures !c.VehicleAdded? ==>
      && c.v.capacityKg == t.vehicles[c.v.id].capacityKg && c.v.odometerKm >= t.vehicles[c.v.id].odometerKm
      && (c.v == t.vehicles[c.v.id] || c.v.version == t.vehicles[c.v.id].version + 1)
      && (t.vehicles[c.v.id].status == V.OnDuty <==> c.TripEnded?)
      && (c.v.odometerKm > t.vehicles[c.v.id].odometerKm ==> c.TripEnded? || c.FuelLogged?)
    ensures c.v.status == V.OnDuty <==> c.TripBegun?
    ensures c.TripBegun? ==> !HasActiveOrder(t.orders, c.v.id)
    ensures c.v.status == V.Maintenance ==> c.OrderOpened? || c.InspectionFailed? || c.FuelLogged?
    ensures c.FuelLogged? ==> c.v.status == t.vehicles[c.v.id].status
  {
    hide Settles, Scheduling.LeavesRoom, HasActiveOrder, SameRouteAndDate, KeyOf;
  }

  lemma ShiftWritten(t: Tables, cfg: Config, c: Change)
    requires Permitted(t, cfg, c) && WritesShift(c)
    ensures c.ShiftCreated? <==> c.s.id !in t.shifts
    ensures c.ShiftCreated? ==>
      && c.s.id != "" && c.s.status == W.Scheduled && c.s.assignedVehicleId == None && c.s.version == 1
         && c.s.endAt > c.s.startAt
      && (cfg.calendar.Some?
          ==> BusinessDay.ValidateWindow(cfg.calendar.value, c.s.serviceDate, c.s.startAt, c.s.endAt).Ok?)
    ensures !c.ShiftCreated? ==>
      && c.s.version == t.shifts[c.s.id].version + 1
      && c.s.startAt == t.shifts[c.s.id].startAt && c.s.endAt == t.shifts[c.s.id].endAt
         && c.s.serviceDate == t.shifts[c.s.id].serviceDate
      && (c.ShiftAssigned? || c.s.assignedVehicleId == t.shifts[c.s.id].assignedVehicleId)
      && (t.shifts[c.s.id].status == W.InProgress <==> c.TripEnded?)
         && t.shifts[c.s.id].status !in {W.Completed, W.Cancelled}
    ensures c.ShiftAssigned? ==> c.s.assignedVehicleId.Some? && c.s.assignedVehicleId.value in t.vehicles
    ensures c.TripBegun? ==> c.s.assignedVehicleId == Some(c.v.id)
    ensures c.s.status == (if c.ShiftCreated? then W.Scheduled else if c.ShiftCancelled? then W.Cancelled
                           else if c.ShiftAssigned? then W.Assigned
                           else if c.TripBegun? then W.InProgress else W.Completed)
  {
    hide Settles, Scheduling.LeavesRoom, HasActiveOrder, SameRouteAndDate, KeyOf;
  }

  lemma TripWritten(t: Tables, cfg: Config, c: Change)
    requires Permitted(t, cfg, c) && WritesTrip(c)
    ensures c.tr.vehicleId == c.v.id && c.tr.shiftId == c.s.id
    ensures c.TripBegun? <==> c.tr.id !in t.trips
    ensures c.TripEnded? ==>
      && c.tr.vehicleId == t.trips[c.tr.id].vehicleId && c.tr.shiftId == t.trips[c.tr.id].shiftId
      && c.tr.idempotencyKey == t.trips[c.tr.id].idempotencyKey && c.tr.version == t.trips[c.tr.id].version + 1
      && t.trips[c.tr.id].status == T.Active && c.tr.startedAt == t.trips[c.tr.id].startedAt
      && c.tr.startOdometer == t.trips[c.tr.id].startOdometer && c.tr.startOdometer.Some?
      && c.tr.endOdometer.Some? && c.tr.endOdometer.value >= c.tr.startOdometer.value
         && c.v.odometerKm == c.tr.endOdometer.value
      && t.trips[c.tr.id].Complete(c.tr.endOdometer.value, c.tr.updatedAt) == Ok(c.tr)
      && c.v.id in t.vehicles && t.vehicles[c.v.id].FinishReturn(c.tr.endOdometer.value, c.v.updatedAt) == Ok(c.v)
    ensures c.TripBegun? ==>
      && c.v.id in t.vehicles && t.vehicles[c.v.id].StartDispatch(c.v.updatedAt) == Ok(c.v)
      && c.tr.startedAt.Some? && c.tr.startOdometer.Some? && c.tr.endOdometer == None && c.tr.version == 2
      && c.tr.startOdometer.value >= c.v.odometerKm
    ensures c.tr.status == (if c.TripBegun? then T.Active else T.Completed)
    ensures c.v.status == (if c.TripBegun? then V.OnDuty else V.Available)
  {
    hide Settles, Scheduling.LeavesRoom, HasActiveOrder, SameRouteAndDate, KeyOf;
  }

  lemma OrderWritten(t: Tables, cfg: Config, c: Change)
    requires Permitted(t, cfg, c) && WritesOrder(c)
    ensures c.OrderOpened? || c.InspectionFailed? <==> c.o.id !in t.orders
    ensures c.o.id !in t.orders ==> NewOrder(t, c.o, c.v.id) && c.v.status == V.Maintenance
    ensures c.o.id in t.orders ==>
      && c.o.vehicleId == t.orders[c.o.id].vehicleId && c.o.version == t.orders[c.o.id].version + 1
         && t.orders[c.o.id].Active()
    ensures c.OrderBegun? ==> t.orders[c.o.id].Start(c.o.updatedAt) == Ok(c.o)
    ensures c.OrderClosed? ==>
      && t.orders[c.o.id].Complete(c.o.updatedAt) == Ok(c.o) && c.v.id == c.o.vehicleId
      && c.v.id in t.vehicles && t.vehicles[c.v.id].ReleaseMaintenance(c.v.updatedAt) == Ok(c.v)
  {
    hide Settles, Scheduling.LeavesRoom, HasActiveOrder, SameRouteAndDate, KeyOf;
  }

  lemma HeadWritten(t: Tables, cfg: Config, c: Change)
    requires Permitted(t, cfg, c) && WritesHead(c)
    ensures c.InspectionCreated? <==> c.h.id !in t.heads
    ensures c.InspectionCreated? ==>
      c.h.vehicleId in t.vehicles && c.h.status == I.Draft && c.h.version == 1 && c.h.score == 0
    ensures !c.InspectionCreated? ==> t.heads[c.h.id].status == I.Draft && c.h.vehicleId == t.heads[c.h.id].vehicleId
    ensures c.HeadSaved? ==> c.h == t.heads[c.h.id].(updatedAt := c.h.updatedAt)
    ensures c.InspectionPassed? || c.InspectionFailed? ==>
      && Settles(t, c.h, c.job) && 0 <= c.h.score <= 100 && c.h.version == t.heads[c.h.id].version + 1
      && c.h.status == (if c.InspectionPassed? then I.Passed else I.Failed)
  {
    hide Scheduling.LeavesRoom, HasActiveOrder, SameRouteAndDate, KeyOf, IsItemList, I.Submittable;
    hide I.SubmittedHead, NewJob, NewOrder;
  }

  lemma TripIsNew(t: Tables, cfg: Config, c: Change)
    requires Permitted(t, cfg, c) && c.TripBegun?
    ensures forall k :: k in t.trips ==> t.trips[k].shiftId != c.s.id
    ensures forall k :: k in t.trips
              ==> !(t.trips[k].vehicleId == c.v.id && t.trips[k].idempotencyKey == c.tr.idempotencyKey)
    ensures KeyOf(c.v.id, c.tr.idempotencyKey) !in t.keys && c.row.response == c.tr
    ensures NewJob(t, c.job, TripStarted(c.tr))
  {
    hide HasActiveOrder, KeyOf;
  }

  lemma FuelWritten(t: Tables, cfg: Config, c: Change)
    requires Permitted(t, cfg, c) && c.FuelLogged?
    ensures c.record.id !in t.fuel && c.record.vehicleId == c.v.id && c.v.odometerKm == c.record.odometerKm
    ensures c.record.odometerKm >= t.vehicles[c.v.id].odometerKm
  {
  }

  lemma ItemWritten(t: Tables, cfg: Config, c: Change)
    requires Permitted(t, cfg, c) && c.ItemAdded?
    ensures c.item.inspectionId in t.heads && ItemFits(t.items, c.item)
    ensures I.Required(c.item.code) && !c.item.outcome.Unrecognised?
  {
  }

  lemma ShiftTaken(t: Tables, cfg: Config, c: Change)
    requires Permitted(t, cfg, c) && c.ShiftAssigned?
    ensures t.shifts[c.s.id].Assign(c.s.assignedVehicleId.value, c.s.updatedAt) == Ok(c.s)
    ensures Scheduling.LeavesRoom(t.shifts, t.shifts[c.s.id], c.s.assignedVehicleId.value, cfg.limits)
  {
    hide Scheduling.LeavesRoom, HasActiveOrder;
  }

  lemma EventJob(t: Tables, cfg: Config, c: Change)
    requires Permitted(t, cfg, c)
    ensures c.TripEnded? ==> NewJob(t, c.job, TripCompleted(c.tr))
    ensures c.FuelLogged? ==> NewJob(t, c.job, FuelRecorded(c.record)) && c.record.id !in t.fuel
    ensures c.JobMarked? ==> c.job.id in t.jobs && c.job.payload == t.jobs[c.job.id].payload
  {
    hide Scheduling.LeavesRoom, HasActiveOrder, Settles, NewJob, NewOrder;
  }
}
