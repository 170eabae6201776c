/** The invariants that tie the tables together. None of them is stated by any one operation. */
module Invariant {
  import opened Basics
  import opened Schema
  import opened Sums
  import Scheduling
  import Schedule
  import BusinessDay
  import Dispatch
  import V = Vehicles
  import W = Workplan
  import T = Trips
  import O = Orders
  import I = Inspections
  import F = Fuel
  import C = Crew
  import opened Changes

  ghost predicate VehiclesOk(vehicles: map<string, V.Vehicle>) {
    forall k :: k in vehicles ==>
      && vehicles[k].id == k && k != "" && vehicles[k].version >= 1
      && vehicles[k].capacityKg > 0 && vehicles[k].odometerKm >= 0
  }

  ghost predicate DriversOk(drivers: map<string, C.Driver>) {
    forall k :: k in drivers ==> drivers[k].id == k && k != "" && drivers[k].name != ""
  }

  ghost predicate ShiftsOk(shifts: map<string, W.Shift>, vehicles: map<string, V.Vehicle>) {
    forall k :: k in shifts ==>
      var s := shifts[k];
      && s.id == k && k != "" && s.version >= 1 && s.endAt > s.startAt && s.status != W.Draft
      && (s.assignedVehicleId.Some? ==> s.assignedVehicleId.value in vehicles)
      && (s.status == W.Scheduled ==> s.assignedVehicleId == None)
      && (s.status in {W.Assigned, W.InProgress, W.Completed} ==> s.assignedVehicleId.Some?)
  }

  /** A trip is active while its vehicle is on duty and its shift in progress, and completed with its
      shift; it always runs on the vehicle its shift is assigned to. */
  ghost predicate TripsOk(trips: map<string, T.Trip>, shifts: map<string, W.Shift>, vehicles: map<string, V.Vehicle>) {
    forall k :: k in trips ==>
      var tr := trips[k];
      && tr.id == k && tr.version >= 1
      && tr.vehicleId in vehicles && tr.shiftId in shifts
      && shifts[tr.shiftId].assignedVehicleId == Some(tr.vehicleId)
      && tr.startedAt.Some? && tr.startOdometer.Some?
      && (tr.status == T.Active || tr.status == T.Completed)
      && (tr.status == T.Active ==>
            tr.endOdometer == None && shifts[tr.shiftId].status == W.InProgress
            && vehicles[tr.vehicleId].status == V.OnDuty)
      && (tr.status == T.Completed ==>
            tr.endOdometer.Some? && tr.endOdometer.value >= tr.startOdometer.value
            && shifts[tr.shiftId].status == W.Completed)
  }

  ghost predicate TripsUnique(trips: map<string, T.Trip>) {
    forall a, b :: a in trips && b in trips && a != b ==>
      && trips[a].shiftId != trips[b].shiftId
      && !(trips[a].vehicleId == trips[b].vehicleId && trips[a].idempotencyKey == trips[b].idempotencyKey)
      && !(trips[a].vehicleId == trips[b].vehicleId && trips[a].status == T.Active && trips[b].status == T.Active)
  }

  ghost predicate HasTrip(trips: map<string, T.Trip>, shiftId: string) {
    exists k :: k in trips && trips[k].shiftId == shiftId
  }

  ghost predicate HasActiveTrip(trips: map<string, T.Trip>, vehicleId: string) {
    exists k :: k in trips && trips[k].vehicleId == vehicleId && trips[k].status == T.Active
  }

  /** Nothing is on duty, in progress or completed without a trip to show for it. */
  ghost predicate Covered(trips: map<string, T.Trip>, shifts: map<string, W.Shift>, vehicles: map<string, V.Vehicle>) {
    && (forall k :: k in shifts && shifts[k].status in {W.InProgress, W.Completed} ==> HasTrip(trips, k))
    && (forall k :: k in vehicles && vehicles[k].status == V.OnDuty ==> HasActiveTrip(trips, k))
  }

  ghost predicate OrdersOk(orders: map<string, O.Order>, vehicles: map<string, V.Vehicle>) {
    && (forall k :: k in orders ==> orders[k].id == k && orders[k].version >= 1 && orders[k].vehicleId in vehicles)
    && (forall k :: k in vehicles && vehicles[k].status == V.OnDuty ==> !HasActiveOrder(orders, k))
    && (forall k :: k in vehicles && vehicles[k].status == V.Maintenance ==> HasActiveOrder(orders, k))
  }

  /** One trip ended no later on the odometer than another began. */
  ghost predicate Precedes(a: T.Trip, b: T.Trip) {
    a.status == T.Completed && a.endOdometer.Some? && b.startOdometer.Some?
    && a.endOdometer.value <= b.startOdometer.value
  }

  /** The odometer is past everything completed, but not past the start of a trip under way. */
  ghost predicate TripsMetered(trips: map<string, T.Trip>, vehicles: map<string, V.Vehicle>) {
    forall k :: k in trips && trips[k].vehicleId in vehicles && trips[k].startOdometer.Some? ==>
      && (trips[k].status == T.Completed && trips[k].endOdometer.Some? ==>
            trips[k].endOdometer.value <= vehicles[trips[k].vehicleId].odometerKm)
      && (trips[k].status == T.Active ==> vehicles[trips[k].vehicleId].odometerKm <= trips[k].startOdometer.value)
  }

  /** The odometer is past every fuel reading. */
  ghost predicate FuelMetered(fuel: map<string, F.Record>, vehicles: map<string, V.Vehicle>) {
    forall k :: k in fuel ==>
      fuel[k].id == k && fuel[k].vehicleId in vehicles && fuel[k].odometerKm <= vehicles[fuel[k].vehicleId].odometerKm
  }

  /** Trips of one vehicle share at most an end point on the odometer. */
  ghost predicate TripsApart(trips: map<string, T.Trip>) {
    forall a, b :: a in trips && b in trips && a != b && trips[a].vehicleId == trips[b].vehicleId ==>
      Precedes(trips[a], trips[b]) || Precedes(trips[b], trips[a])
  }

  /** No fuel reading falls strictly inside a trip. */
  ghost predicate FuelOutsideTrips(fuel: map<string, F.Record>, trips: map<string, T.Trip>) {
    forall f, k :: f in fuel && k in trips && fuel[f].vehicleId == trips[k].vehicleId
                   && trips[k].startOdometer.Some? ==>
      Outside(fuel[f], trips[k])
  }

  ghost predicate Outside(r: F.Record, tr: T.Trip)
    requires tr.startOdometer.Some?
  {
    || r.odometerKm <= tr.startOdometer.value
    || (tr.endOdometer.Some? && tr.endOdometer.value <= r.odometerKm)
  }

  ghost predicate OdometerOk(trips: map<string, T.Trip>, vehicles: map<string, V.Vehicle>,
                             fuel: map<string, F.Record>) {
    && TripsMetered(trips, vehicles)
    && FuelMetered(fuel, vehicles)
    && TripsApart(trips)
    && FuelOutsideTrips(fuel, trips)
  }

  /** What a job is about. */
  datatype Topic =
    | StartOf(tripId: string)
    | EndOf(tripId: string)
    | SubmissionOf(inspectionId: string)
    | FuelOf(recordId: string)

  function TopicOf(p: Payload): Topic {
    match p
    case TripStarted(tr) => StartOf(tr.id)
    case TripCompleted(tr) => EndOf(tr.id)
    case InspectionSubmitted(i) => SubmissionOf(i.head.id)
    case FuelRecorded(r) => FuelOf(r.id)
  }

  ghost predicate HasJob(jobs: map<string, Job>, topic: Topic) {
    exists k :: k in jobs && TopicOf(jobs[k].payload) == topic
  }

  /** The topics that stored rows call for. */
  ghost predicate Called(trips: map<string, T.Trip>, heads: map<string, I.Head>, fuel: map<string, F.Record>,
                         topic: Topic) {
    match topic
    case StartOf(id) => id in trips
    case EndOf(id) => id in trips && trips[id].status == T.Completed
    case SubmissionOf(id) => id in heads && heads[id].status != I.Draft
    case FuelOf(id) => id in fuel
  }

  /** A job's payload matches the final row it is about. */
  ghost predicate PayloadMatches(p: Payload, trips: map<string, T.Trip>, heads: map<string, I.Head>) {
    match p
    case TripCompleted(tr) => tr.id in trips ==> trips[tr.id] == tr
    case InspectionSubmitted(i) => i.head.id in heads ==> heads[i.head.id] == i.head
    case _ => true
  }

  ghost predicate JobsOk(jobs: map<string, Job>, trips: map<string, T.Trip>, heads: map<string, I.Head>,
                         fuel: map<string, F.Record>) {
    && (forall k :: k in jobs ==> jobs[k].id == k)
    && (forall a, b :: a in jobs && b in jobs && a != b ==> TopicOf(jobs[a].payload) != TopicOf(jobs[b].payload))
    && (forall topic :: HasJob(jobs, topic) <==> Called(trips, heads, fuel, topic))
    && (forall k :: k in jobs ==> PayloadMatches(jobs[k].payload, trips, heads))
  }

  /** Every trip has its idempotency row, and every row its trip. */
  ghost predicate KeysOk(keys: map<Key, KeyRow>, trips: map<string, T.Trip>) {
    && (forall k :: k in trips ==>
          Dispatch.KeyOf(trips[k].vehicleId, trips[k].idempotencyKey) in keys
          && keys[Dispatch.KeyOf(trips[k].vehicleId, trips[k].idempotencyKey)].response.id == k)
    && (forall key :: key in keys ==>
          && keys[key].response.id in trips
          && key == Dispatch.KeyOf(trips[keys[key].response.id].vehicleId, trips[keys[key].response.id].idempotencyKey))
  }

  ghost predicate InspectionsOk(heads: map<string, I.Head>, items: map<string, I.Item>,
                                vehicles: map<string, V.Vehicle>) {
    && (forall k :: k in heads ==>
          && heads[k].id == k && heads[k].vehicleId in vehicles && 0 <= heads[k].score <= 100
          && heads[k].status != I.Submitted
          && heads[k].version == (if heads[k].status == I.Draft then 1 else 2))
    && (forall k :: k in items ==>
          && items[k].id == k && items[k].inspectionId in heads
          && I.Required(items[k].code) && !items[k].outcome.Unrecognised?)
    && CodesUnique(items)
  }

  ghost predicate WithinLimits(shifts: map<string, W.Shift>, l: Scheduling.Limits, vehicleId: string,
                               date: BusinessDay.ServiceDate) {
    && Scheduling.BookedApart(shifts, vehicleId, date, Scheduling.MinimumBreak(l))
    && Sum(Scheduling.DutyMap(shifts, vehicleId, date)) <= Scheduling.MaximumDuty(l)
  }

  /** No double booking: per vehicle and date, the booked shifts are compatible and within duty. */
  ghost predicate BookingOk(shifts: map<string, W.Shift>, l: Scheduling.Limits) {
    forall vehicleId, date :: WithinLimits(shifts, l, vehicleId, date)
  }

  ghost predicate CalendarOk(shifts: map<string, W.Shift>, calendar: Option<BusinessDay.Calendar>) {
    calendar.Some? ==> forall k :: k in shifts ==>
      BusinessDay.ValidateWindow(calendar.value, shifts[k].serviceDate, shifts[k].startAt, shifts[k].endAt).Ok?
  }

  ghost predicate Inv(t: Tables, cfg: Config) {
    && VehiclesOk(t.vehicles)
    && DriversOk(t.drivers)
    && ShiftsOk(t.shifts, t.vehicles)
    && TripsOk(t.trips, t.shifts, t.vehicles)
    && TripsUnique(t.trips)
    && Covered(t.trips, t.shifts, t.vehicles)
    && OrdersOk(t.orders, t.vehicles)
    && OdometerOk(t.trips, t.vehicles, t.fuel)
    && JobsOk(t.jobs, t.trips, t.heads, t.fuel)
    && KeysOk(t.keys, t.trips)
    && InspectionsOk(t.heads, t.items, t.vehicles)
    && BookingOk(t.shifts, cfg.limits)
    && CalendarOk(t.shifts, cfg.calendar)
  }

  // ---------------------------------------------------------------------------------------
  // Change by change
  // ---------------------------------------------------------------------------------------

  lemma KeepsVehicles(t: Tables, cfg: Config, c: Change)
    requires VehiclesOk(t.vehicles) && Permitted(t, cfg, c)
    ensures VehiclesOk(Effect(t, c).vehicles)
  {
    hide Permitted;
    if WritesVehicle(c) {
      VehicleWritten(t, cfg, c);
    }
  }

  lemma KeepsDrivers(t: Tables, cfg: Config, c: Change)
    requires DriversOk(t.drivers) && Permitted(t, cfg, c)
    ensures DriversOk(Effect(t, c).drivers)
  {
    hide Settles, Scheduling.LeavesRoom;
  }

  lemma KeepsShifts(t: Tables, cfg: Config, c: Change)
    requires VehiclesOk(t.vehicles) && ShiftsOk(t.shifts, t.vehicles) && Permitted(t, cfg, c)
    ensures ShiftsOk(Effect(t, c).shifts, Effect(t, c).vehicles)
  {
    hide Permitted;
    if WritesShift(c) {
      ShiftWritten(t, cfg, c);
    }
  }

  /** Changing a vehicle that is not on duty concerns no trip. */
  lemma OffDutyVehicleChanges(trips: map<string, T.Trip>, shifts: map<string, W.Shift>,
                              vehicles: map<string, V.Vehicle>, v: V.Vehicle)
    requires TripsOk(trips, shifts, vehicles)
    requires v.id in vehicles ==> vehicles[v.id].status != V.OnDuty
    ensures TripsOk(trips, shifts, vehicles[v.id := v])
  {
  }

  /** Changing a shift that has not started concerns no trip. */
  lemma UnstartedShiftChanges(trips: map<string, T.Trip>, shifts: map<string, W.Shift>,
                              vehicles: map<string, V.Vehicle>, s: W.Shift)
    requires TripsOk(trips, shifts, vehicles)
    requires s.id in shifts ==> shifts[s.id].status !in {W.InProgress, W.Completed}
    ensures TripsOk(trips, shifts[s.id := s], vehicles)
    ensures forall k :: k in trips ==> trips[k].shiftId != s.id
  {
  }

  lemma KeepsTrips(t: Tables, cfg: Config, c: Change)
    requires TripsOk(t.trips, t.shifts, t.vehicles) && TripsUnique(t.trips) && Permitted(t, cfg, c)
    ensures TripsOk(Effect(t, c).trips, Effect(t, c).shifts, Effect(t, c).vehicles)
  {
    hide Permitted, TripsOk, TripsUnique;
    if c.TripEnded? {
      EndedTripKeepsTrips(t, cfg, c);
    } else if c.TripBegun? {
      BegunTripKeepsTrips(t, cfg, c);
    } else {
      if WritesVehicle(c) {
        VehicleWritten(t, cfg, c);
        OffDutyVehicleChanges(t.trips, t.shifts, t.vehicles, c.v);
      }
      if WritesShift(c) {
        ShiftWritten(t, cfg, c);
        UnstartedShiftChanges(t.trips, t.shifts, t.vehicles, c.s);
      }
    }
  }

  lemma BegunTripKeepsTrips(t: Tables, cfg: Config, c: Change)
    requires TripsOk(t.trips, t.shifts, t.vehicles) && c.TripBegun? && Permitted(t, cfg, c)
    ensures TripsOk(Effect(t, c).trips, Effect(t, c).shifts, Effect(t, c).vehicles)
  {
    hide Permitted;
    VehicleWritten(t, cfg, c);
    ShiftWritten(t, cfg, c);
    TripWritten(t, cfg, c);
    OffDutyVehicleChanges(t.trips, t.shifts, t.vehicles, c.v);
    UnstartedShiftChanges(t.trips, t.shifts, t.vehicles[c.v.id := c.v], c.s);
  }

  lemma EndedTripKeepsTrips(t: Tables, cfg: Config, c: Change)
    requires TripsOk(t.trips, t.shifts, t.vehicles) && TripsUnique(t.trips)
    requires c.TripEnded? && Permitted(t, cfg, c)
    ensures TripsOk(Effect(t, c).trips, Effect(t, c).shifts, Effect(t, c).vehicles)
  {
    hide Permitted;
    VehicleWritten(t, cfg, c);
    ShiftWritten(t, cfg, c);
    TripWritten(t, cfg, c);
    var after := Effect(t, c);
    forall k | k in after.trips && k != c.tr.id
      ensures after.trips[k] == t.trips[k]
      ensures after.shifts[t.trips[k].shiftId] == t.shifts[t.trips[k].shiftId]
      ensures t.trips[k].status == T.Active ==> after.vehicles[t.trips[k].vehicleId] == t.vehicles[t.trips[k].vehicleId]
    {
      assert k in t.trips && t.trips[k].shiftId != t.trips[c.tr.id].shiftId;
    }
  }

  lemma KeepsUnique(t: Tables, cfg: Config, c: Change)
    requires TripsOk(t.trips, t.shifts, t.vehicles) && TripsUnique(t.trips) && Permitted(t, cfg, c)
    ensures TripsUnique(Effect(t, c).trips)
  {
    hide Permitted;
    if WritesTrip(c) {
      VehicleWritten(t, cfg, c);
      TripWritten(t, cfg, c);
      if c.TripBegun? {
        TripIsNew(t, cfg, c);
      }
    }
  }

  // -- coverage ---------------------------------------------------------------------------

  /** Rewriting a trip row, or adding one, keeps what the other rows cover. */
  lemma CoverageOfOthers(trips: map<string, T.Trip>, tr: T.Trip)
    requires tr.id in trips ==> trips[tr.id].shiftId == tr.shiftId
    ensures forall id :: HasTrip(trips, id) ==> HasTrip(trips[tr.id := tr], id)
    ensures HasTrip(trips[tr.id := tr], tr.shiftId)
    ensures tr.status == T.Active ==> HasActiveTrip(trips[tr.id := tr], tr.vehicleId)
    ensures forall id :: (HasActiveTrip(trips, id) && (tr.id in trips ==> trips[tr.id].vehicleId != id))
                         ==> HasActiveTrip(trips[tr.id := tr], id)
  {
    var after := trips[tr.id := tr];
    assert tr.id in after && after[tr.id] == tr;
    forall id | HasTrip(trips, id) ensures HasTrip(after, id) {
      var k :| k in trips && trips[k].shiftId == id;
      assert k in after && after[k].shiftId == id;
    }
    forall id | HasActiveTrip(trips, id) && (tr.id in trips ==> trips[tr.id].vehicleId != id)
      ensures HasActiveTrip(after, id)
    {
      var k :| k in trips && trips[k].vehicleId == id && trips[k].status == T.Active;
      assert k in after && after[k] == trips[k];
    }
  }

  lemma KeepsCovered(t: Tables, cfg: Config, c: Change)
    requires TripsOk(t.trips, t.shifts, t.vehicles) && TripsUnique(t.trips)
    requires Covered(t.trips, t.shifts, t.vehicles) && Permitted(t, cfg, c)
    ensures Covered(Effect(t, c).trips, Effect(t, c).shifts, Effect(t, c).vehicles)
  {
    hide Covered, TripsOk, TripsUnique;
    if WritesTrip(c) {
      TripWritten(t, cfg, c);
      TripCovers(t.trips, t.shifts, t.vehicles, c.v, c.s, c.tr);
    } else {
      hide Permitted;
      if WritesVehicle(c) {
        VehicleWritten(t, cfg, c);
        VehicleStaysCovered(t.trips, t.shifts, t.vehicles, c.v);
      }
      if WritesShift(c) {
        ShiftWritten(t, cfg, c);
        ShiftStaysCovered(t.trips, t.shifts, t.vehicles, c.s);
      }
    }
  }

  lemma VehicleStaysCovered(trips: map<string, T.Trip>, shifts: map<string, W.Shift>, vehicles: map<string, V.Vehicle>,
                            v: V.Vehicle)
    requires Covered(trips, shifts, vehicles) && v.status != V.OnDuty
    ensures Covered(trips, shifts, vehicles[v.id := v])
  {
    hide HasTrip, HasActiveTrip;
  }

  lemma ShiftStaysCovered(trips: map<string, T.Trip>, shifts: map<string, W.Shift>, vehicles: map<string, V.Vehicle>,
                          s: W.Shift)
    requires Covered(trips, shifts, vehicles) && s.status !in {W.InProgress, W.Completed}
    ensures Covered(trips, shifts[s.id := s], vehicles)
  {
    hide HasTrip, HasActiveTrip;
  }

  lemma TripCovers(trips: map<string, T.Trip>, shifts: map<string, W.Shift>, vehicles: map<string, V.Vehicle>,
                   v: V.Vehicle, s: W.Shift, tr: T.Trip)
    requires Covered(trips, shifts, vehicles)
    requires tr.vehicleId == v.id && tr.shiftId == s.id
    requires tr.id in trips ==> trips[tr.id].shiftId == s.id && trips[tr.id].vehicleId == v.id
    requires v.status == V.OnDuty ==> tr.status == T.Active
    ensures Covered(trips[tr.id := tr], shifts[s.id := s], vehicles[v.id := v])
  {
    hide HasTrip, HasActiveTrip;
    CoverageOfOthers(trips, tr);
  }

  // -- maintenance orders -----------------------------------------------------------------

  lemma OrderChanges(orders: map<string, O.Order>, o: O.Order)
    requires o.id in orders ==> orders[o.id].vehicleId == o.vehicleId
    ensures forall id :: id != o.vehicleId ==> (HasActiveOrder(orders[o.id := o], id) <==> HasActiveOrder(orders, id))
    ensures o.Active() ==> HasActiveOrder(orders[o.id := o], o.vehicleId)
    ensures (o.id in orders ==> orders[o.id].Active()) && HasActiveOrder(orders[o.id := o], o.vehicleId) && !o.Active()
      ==> HasActiveOrder(orders, o.vehicleId)
  {
    var after := orders[o.id := o];
    assert o.id in after && after[o.id] == o;
    forall id | id != o.vehicleId ensures HasActiveOrder(after, id) <==> HasActiveOrder(orders, id) {
      if HasActiveOrder(after, id) {
        var k :| k in after && after[k].vehicleId == id && after[k].Active();
        assert k in orders && orders[k] == after[k];
      }
      if HasActiveOrder(orders, id) {
        var k :| k in orders && orders[k].vehicleId == id && orders[k].Active();
        assert k in after && after[k] == orders[k];
      }
    }
  }

  /** A vehicle and one of its orders change together, and stay in step. */
  lemma OrderAndVehicleChange(orders: map<string, O.Order>, vehicles: map<string, V.Vehicle>, v: V.Vehicle, o: O.Order)
    requires OrdersOk(orders, vehicles)
    requires o.vehicleId == v.id && o.version >= 1 && (o.id in orders ==> orders[o.id].vehicleId == v.id)
    requires v.status != V.OnDuty && (v.status == V.Maintenance ==> o.Active())
    ensures OrdersOk(orders[o.id := o], vehicles[v.id := v])
  {
    hide HasActiveOrder;
    OrderChanges(orders, o);
  }

  lemma VehicleAloneChanges(orders: map<string, O.Order>, vehicles: map<string, V.Vehicle>, v: V.Vehicle)
    requires OrdersOk(orders, vehicles)
    requires v.status == V.OnDuty ==> !HasActiveOrder(orders, v.id)
    requires v.status == V.Maintenance ==> HasActiveOrder(orders, v.id)
    ensures OrdersOk(orders, vehicles[v.id := v])
  {
    hide HasActiveOrder;
  }

  lemma KeepsOrders(t: Tables, cfg: Config, c: Change)
    requires VehiclesOk(t.vehicles) && OrdersOk(t.orders, t.vehicles) && Permitted(t, cfg, c)
    ensures OrdersOk(Effect(t, c).orders, Effect(t, c).vehicles)
  {
    hide Permitted, HasActiveOrder, OrdersOk;
    if WritesVehicle(c) {
      VehicleWritten(t, cfg, c);
    }
    if WritesOrder(c) {
      OrderWritten(t, cfg, c);
      if c.OrderBegun? {
        BegunOrderKeepsOrders(t, c.o);
      } else if c.OrderClosed? {
        ClosedOrderKeepsOrders(t, c.v, c.o);
      } else {
        OrderAndVehicleChange(t.orders, t.vehicles, c.v, c.o);
      }
    } else if c.FuelLogged? {
      FuelKeepsOrders(t, c.v);
    } else if WritesVehicle(c) {
      VehicleAloneChanges(t.orders, t.vehicles, c.v);
    }
  }

  lemma FuelKeepsOrders(t: Tables, v: V.Vehicle)
    requires OrdersOk(t.orders, t.vehicles) && v.id in t.vehicles && v.status == t.vehicles[v.id].status
    ensures OrdersOk(t.orders, t.vehicles[v.id := v])
  {
    hide HasActiveOrder;
  }

  lemma BegunOrderKeepsOrders(t: Tables, o: O.Order)
    requires VehiclesOk(t.vehicles) && OrdersOk(t.orders, t.vehicles)
    requires o.id in t.orders && t.orders[o.id].Start(o.updatedAt) == Ok(o)
    ensures OrdersOk(t.orders[o.id := o], t.vehicles)
  {
    OpenOrderIsActive(t.orders, o.id);
    hide HasActiveOrder;
    OrderChanges(t.orders, o);
  }

  lemma ClosedOrderKeepsOrders(t: Tables, v: V.Vehicle, o: O.Order)
    requires OrdersOk(t.orders, t.vehicles)
    requires o.id in t.orders && t.orders[o.id].Complete(o.updatedAt) == Ok(o)
    requires v.id == o.vehicleId && v.id in t.vehicles && t.vehicles[v.id].ReleaseMaintenance(v.updatedAt) == Ok(v)
    ensures OrdersOk(t.orders[o.id := o], t.vehicles[v.id := v])
  {
    OrderAndVehicleChange(t.orders, t.vehicles, v, o);
  }

  lemma OpenOrderIsActive(orders: map<string, O.Order>, id: string)
    requires id in orders && orders[id].Active()
    ensures HasActiveOrder(orders, orders[id].vehicleId)
  {
  }

  // -- odometer ---------------------------------------------------------------------------

  /** A vehicle's odometer moves forward while none of its trips is active. */
  lemma OdometerAdvances(trips: map<string, T.Trip>, vehicles: map<string, V.Vehicle>, fuel: map<string, F.Record>,
                         v: V.Vehicle)
    requires TripsMetered(trips, vehicles) && FuelMetered(fuel, vehicles)
    requires v.id in vehicles && v.odometerKm >= vehicles[v.id].odometerKm
    requires v.odometerKm > vehicles[v.id].odometerKm ==>
      forall k :: k in trips && trips[k].vehicleId == v.id ==> trips[k].status != T.Active
    ensures TripsMetered(trips, vehicles[v.id := v]) && FuelMetered(fuel, vehicles[v.id := v])
  {
  }

  lemma KeepsOdometer(t: Tables, cfg: Config, c: Change)
    requires VehiclesOk(t.vehicles) && TripsOk(t.trips, t.shifts, t.vehicles) && TripsUnique(t.trips)
    requires OdometerOk(t.trips, t.vehicles, t.fuel) && Permitted(t, cfg, c)
    ensures OdometerOk(Effect(t, c).trips, Effect(t, c).vehicles, Effect(t, c).fuel)
  {
    hide Permitted, TripsMetered, FuelMetered, TripsApart, FuelOutsideTrips, VehiclesOk, TripsUnique, TripsOk;
    if WritesVehicle(c) {
      VehicleWritten(t, cfg, c);
      if c.TripBegun? {
        TripWritten(t, cfg, c);
        BegunTripKeepsOdometer(t, c.v, c.tr);
      } else if c.TripEnded? {
        TripWritten(t, cfg, c);
        EndedTripKeepsOdometer(t, c.v, c.tr);
      } else if c.FuelLogged? {
        FuelWritten(t, cfg, c);
        FuelKeepsOdometer(t, c.v, c.record);
      } else if c.VehicleAdded? {
        NewVehicleKeepsOdometer(t, c.v);
      } else {
        OdometerAdvances(t.trips, t.vehicles, t.fuel, c.v);
      }
    }
  }

  lemma NewVehicleKeepsOdometer(t: Tables, v: V.Vehicle)
    requires TripsOk(t.trips, t.shifts, t.vehicles) && OdometerOk(t.trips, t.vehicles, t.fuel) && v.id !in t.vehicles
    ensures OdometerOk(t.trips, t.vehicles[v.id := v], t.fuel)
  {
    hide TripsApart, FuelOutsideTrips;
  }

  lemma NoneActive(t: Tables, vehicleId: string)
    requires TripsOk(t.trips, t.shifts, t.vehicles) && vehicleId in t.vehicles
             && t.vehicles[vehicleId].status != V.OnDuty
    ensures forall k :: k in t.trips && t.trips[k].vehicleId == vehicleId ==> t.trips[k].status == T.Completed
  {
  }

  lemma BegunTripKeepsOdometer(t: Tables, v: V.Vehicle, tr: T.Trip)
    requires TripsOk(t.trips, t.shifts, t.vehicles) && OdometerOk(t.trips, t.vehicles, t.fuel)
    requires v.id in t.vehicles && t.vehicles[v.id].StartDispatch(v.updatedAt) == Ok(v)
    requires tr.id !in t.trips && tr.vehicleId == v.id && tr.status == T.Active
    requires tr.startOdometer.Some? && tr.startOdometer.value >= v.odometerKm
    ensures OdometerOk(t.trips[tr.id := tr], t.vehicles[v.id := v], t.fuel)
  {
    NoneActive(t, v.id);
    OdometerAdvances(t.trips, t.vehicles, t.fuel, v);
    var after := t.trips[tr.id := tr];
    assert TripsApart(after) by {
      forall a, b | a in after && b in after && a != b && after[a].vehicleId == after[b].vehicleId
        ensures Precedes(after[a], after[b]) || Precedes(after[b], after[a])
      {
        if a == tr.id {
          assert Precedes(t.trips[b], tr);
        } else if b == tr.id {
          assert Precedes(t.trips[a], tr);
        } else {
          assert a in t.trips && b in t.trips;
        }
      }
    }
  }

  lemma EndedTripKeepsOdometer(t: Tables, v: V.Vehicle, tr: T.Trip)
    requires TripsOk(t.trips, t.shifts, t.vehicles) && TripsUnique(t.trips) && OdometerOk(t.trips, t.vehicles, t.fuel)
    requires tr.id in t.trips && tr.endOdometer.Some?
             && t.trips[tr.id].Complete(tr.endOdometer.value, tr.updatedAt) == Ok(tr)
    requires v.id == tr.vehicleId && v.id in t.vehicles
    requires t.vehicles[v.id].FinishReturn(tr.endOdometer.value, v.updatedAt) == Ok(v)
    ensures OdometerOk(t.trips[tr.id := tr], t.vehicles[v.id := v], t.fuel)
  {
    var after := t.trips[tr.id := tr];
    OthersNotActive(t, tr.id);
    EndedTripStaysApart(t, tr);
    assert FuelMetered(t.fuel, t.vehicles[v.id := v]);
    assert FuelOutsideTrips(t.fuel, after) by {
      forall f, k | f in t.fuel && k in after && t.fuel[f].vehicleId == after[k].vehicleId
        && after[k].startOdometer.Some?
        ensures Outside(t.fuel[f], after[k])
      {
        assert k in t.trips && Outside(t.fuel[f], t.trips[k]);
      }
    }
  }

  lemma OthersNotActive(t: Tables, id: string)
    requires TripsOk(t.trips, t.shifts, t.vehicles) && TripsUnique(t.trips) && id in t.trips
             && t.trips[id].status == T.Active
    ensures forall k :: k in t.trips && k != id && t.trips[k].vehicleId == t.trips[id].vehicleId
              ==> t.trips[k].status == T.Completed
  {
  }

  lemma EndedTripStaysApart(t: Tables, tr: T.Trip)
    requires TripsOk(t.trips, t.shifts, t.vehicles) && TripsUnique(t.trips) && TripsApart(t.trips)
    requires tr.id in t.trips && tr.endOdometer.Some?
             && t.trips[tr.id].Complete(tr.endOdometer.value, tr.updatedAt) == Ok(tr)
    ensures TripsApart(t.trips[tr.id := tr])
  {
    var after := t.trips[tr.id := tr];
    forall a, b | a in after && b in after && a != b && after[a].vehicleId == after[b].vehicleId
      ensures Precedes(after[a], after[b]) || Precedes(after[b], after[a])
    {
      assert a in t.trips && b in t.trips;
      assert Precedes(t.trips[a], t.trips[b]) || Precedes(t.trips[b], t.trips[a]);
    }
  }

  lemma FuelKeepsOdometer(t: Tables, v: V.Vehicle, r: F.Record)
    requires TripsOk(t.trips, t.shifts, t.vehicles) && OdometerOk(t.trips, t.vehicles, t.fuel)
    requires v.id in t.vehicles && t.vehicles[v.id].status != V.OnDuty
    requires r.id !in t.fuel && r.vehicleId == v.id && r.odometerKm == v.odometerKm >= t.vehicles[v.id].odometerKm
    ensures OdometerOk(t.trips, t.vehicles[v.id := v], t.fuel[r.id := r])
  {
    NoneActive(t, v.id);
    OdometerAdvances(t.trips, t.vehicles, t.fuel, v);
    var after := t.fuel[r.id := r];
    assert FuelOutsideTrips(after, t.trips) by {
      forall f, k | f in after && k in t.trips && after[f].vehicleId == t.trips[k].vehicleId
        && t.trips[k].startOdometer.Some?
        ensures Outside(after[f], t.trips[k])
      {
        if f != r.id {
          assert f in t.fuel && Outside(t.fuel[f], t.trips[k]);
        } else {
          assert t.trips[k].status == T.Completed;
        }
      }
    }
  }

  // -- outbox -----------------------------------------------------------------------------

  lemma OneMoreJob(jobs: map<string, Job>, job: Job)
    requires job.id !in jobs
    ensures forall topic :: HasJob(jobs[job.id := job], topic) <==> HasJob(jobs, topic) || topic == TopicOf(job.payload)
  {
    var after := jobs[job.id := job];
    forall topic ensures HasJob(after, topic) <==> HasJob(jobs, topic) || topic == TopicOf(job.payload) {
      if HasJob(jobs, topic) {
        var k :| k in jobs && TopicOf(jobs[k].payload) == topic;
        assert k in after && after[k] == jobs[k];
      }
      if topic == TopicOf(job.payload) {
        assert job.id in after && after[job.id] == job;
      }
    }
  }

  /** A job enqueued together with the one row that newly calls for it. */
  lemma JobWithItsRow(jobs: map<string, Job>, job: Job,
                      trips: map<string, T.Trip>, heads: map<string, I.Head>, fuel: map<string, F.Record>,
                      trips': map<string, T.Trip>, heads': map<string, I.Head>, fuel': map<string, F.Record>)
    requires JobsOk(jobs, trips, heads, fuel)
    requires job.id !in jobs && !Called(trips, heads, fuel, TopicOf(job.payload))
    requires forall topic :: Called(trips', heads', fuel', topic)
               <==> Called(trips, heads, fuel, topic) || topic == TopicOf(job.payload)
    requires PayloadMatches(job.payload, trips', heads')
    requires forall k :: k in jobs && PayloadMatches(jobs[k].payload, trips, heads)
               ==> PayloadMatches(jobs[k].payload, trips', heads')
    ensures JobsOk(jobs[job.id := job], trips', heads', fuel')
  {
    hide HasJob, Called;
    OneMoreJob(jobs, job);
    forall k | k in jobs ensures TopicOf(jobs[k].payload) != TopicOf(job.payload) {
      JobHasItsTopic(jobs, k);
    }
  }

  lemma JobHasItsTopic(jobs: map<string, Job>, k: string)
    requires k in jobs
    ensures HasJob(jobs, TopicOf(jobs[k].payload))
  {
  }

  /** Rows that call for nothing new, and agree with every payload, leave the correspondence alone. */
  lemma SameCalls(jobs: map<string, Job>,
                  trips: map<string, T.Trip>, heads: map<string, I.Head>, fuel: map<string, F.Record>,
                  heads': map<string, I.Head>)
    requires JobsOk(jobs, trips, heads, fuel)
    requires forall topic :: Called(trips, heads', fuel, topic) <==> Called(trips, heads, fuel, topic)
    requires forall k :: k in jobs && PayloadMatches(jobs[k].payload, trips, heads)
               ==> PayloadMatches(jobs[k].payload, trips, heads')
    ensures JobsOk(jobs, trips, heads', fuel)
  {
  }

  lemma KeepsJobs(t: Tables, cfg: Config, c: Change)
    requires TripsOk(t.trips, t.shifts, t.vehicles) && JobsOk(t.jobs, t.trips, t.heads, t.fuel)
    requires Permitted(t, cfg, c)
    ensures JobsOk(Effect(t, c).jobs, Effect(t, c).trips, Effect(t, c).heads, Effect(t, c).fuel)
  {
    hide Permitted, JobsOk, TripsOk, Settles;
    if c.TripBegun? {
      TripWritten(t, cfg, c);
      TripIsNew(t, cfg, c);
      BegunTripJobs(t, c.tr, c.job);
    } else if c.TripEnded? {
      TripWritten(t, cfg, c);
      EventJob(t, cfg, c);
      EndedTripJobs(t, c.tr, c.job);
    } else if WritesHead(c) {
      HeadWritten(t, cfg, c);
      if c.InspectionCreated? || c.HeadSaved? {
        DraftJobs(t, c.h);
      } else {
        SettledJobs(t, c.h, c.job);
      }
    } else if c.FuelLogged? {
      EventJob(t, cfg, c);
      FuelJobs(t, c.record, c.job);
    } else if c.JobMarked? {
      EventJob(t, cfg, c);
      MarkedJobs(t, c.job);
    }
  }

  lemma FuelJobs(t: Tables, record: F.Record, job: Job)
    requires JobsOk(t.jobs, t.trips, t.heads, t.fuel) && record.id !in t.fuel && NewJob(t, job, FuelRecorded(record))
    ensures JobsOk(t.jobs[job.id := job], t.trips, t.heads, t.fuel[record.id := record])
  {
    JobsAreCalled(t);
    hide JobsOk;
    JobWithItsRow(t.jobs, job, t.trips, t.heads, t.fuel, t.trips, t.heads, t.fuel[record.id := record]);
  }

  lemma JobsAreCalled(t: Tables)
    requires JobsOk(t.jobs, t.trips, t.heads, t.fuel)
    ensures forall k :: k in t.jobs ==> Called(t.trips, t.heads, t.fuel, TopicOf(t.jobs[k].payload))
  {
    forall k | k in t.jobs ensures Called(t.trips, t.heads, t.fuel, TopicOf(t.jobs[k].payload)) {
      JobHasItsTopic(t.jobs, k);
    }
  }

  lemma BegunTripJobs(t: Tables, tr: T.Trip, job: Job)
    requires JobsOk(t.jobs, t.trips, t.heads, t.fuel) && tr.id !in t.trips && tr.status == T.Active
    requires NewJob(t, job, TripStarted(tr))
    ensures JobsOk(t.jobs[job.id := job], t.trips[tr.id := tr], t.heads, t.fuel)
  {
    JobsAreCalled(t);
    hide JobsOk;
    JobWithItsRow(t.jobs, job, t.trips, t.heads, t.fuel, t.trips[tr.id := tr], t.heads, t.fuel);
  }

  lemma EndedTripJobs(t: Tables, tr: T.Trip, job: Job)
    requires JobsOk(t.jobs, t.trips, t.heads, t.fuel)
    requires tr.id in t.trips && t.trips[tr.id].status == T.Active && tr.status == T.Completed
    requires NewJob(t, job, TripCompleted(tr))
    ensures JobsOk(t.jobs[job.id := job], t.trips[tr.id := tr], t.heads, t.fuel)
  {
    JobsAreCalled(t);
    hide JobsOk;
    JobWithItsRow(t.jobs, job, t.trips, t.heads, t.fuel, t.trips[tr.id := tr], t.heads, t.fuel);
  }

  lemma SettledJobs(t: Tables, h: I.Head, job: Job)
    requires JobsOk(t.jobs, t.trips, t.heads, t.fuel) && Settles(t, h, job) && h.status != I.Draft
    ensures JobsOk(t.jobs[job.id := job], t.trips, t.heads[h.id := h], t.fuel)
  {
    JobsAreCalled(t);
    hide JobsOk, IsItemList, I.Submittable, I.SubmittedHead;
    JobWithItsRow(t.jobs, job, t.trips, t.heads, t.fuel, t.trips, t.heads[h.id := h], t.fuel);
  }

  lemma DraftJobs(t: Tables, h: I.Head)
    requires JobsOk(t.jobs, t.trips, t.heads, t.fuel) && h.status == I.Draft
    requires h.id in t.heads ==> t.heads[h.id].status == I.Draft
    ensures JobsOk(t.jobs, t.trips, t.heads[h.id := h], t.fuel)
  {
    JobsAreCalled(t);
    hide JobsOk;
    SameCalls(t.jobs, t.trips, t.heads, t.fuel, t.heads[h.id := h]);
  }

  lemma MarkedJobs(t: Tables, job: Job)
    requires JobsOk(t.jobs, t.trips, t.heads, t.fuel)
    requires job.id in t.jobs && job.payload == t.jobs[job.id].payload
    ensures JobsOk(t.jobs[job.id := job], t.trips, t.heads, t.fuel)
  {
    var after := t.jobs[job.id := job];
    forall topic ensures HasJob(after, topic) <==> HasJob(t.jobs, topic) {
      if HasJob(t.jobs, topic) {
        var k :| k in t.jobs && TopicOf(t.jobs[k].payload) == topic;
        assert k in after && TopicOf(after[k].payload) == topic;
      }
      if HasJob(after, topic) {
        var k :| k in after && TopicOf(after[k].payload) == topic;
        assert k in t.jobs && TopicOf(t.jobs[k].payload) == topic;
      }
    }
  }

  // -- idempotency rows -------------------------------------------------------------------

  lemma KeepsKeys(t: Tables, cfg: Config, c: Change)
    requires TripsOk(t.trips, t.shifts, t.vehicles) && KeysOk(t.keys, t.trips) && Permitted(t, cfg, c)
    ensures KeysOk(Effect(t, c).keys, Effect(t, c).trips)
  {
    hide Permitted, KeysOk, TripsOk;
    if WritesTrip(c) {
      TripWritten(t, cfg, c);
      if c.TripBegun? {
        TripIsNew(t, cfg, c);
        BegunTripKeys(t.keys, t.trips, c.tr, c.row);
      } else {
        EndedTripKeys(t.keys, t.trips, c.tr);
      }
    }
  }

  lemma BegunTripKeys(keys: map<Key, KeyRow>, trips: map<string, T.Trip>, tr: T.Trip, row: KeyRow)
    requires KeysOk(keys, trips) && tr.id !in trips && row.response == tr
    requires Dispatch.KeyOf(tr.vehicleId, tr.idempotencyKey) !in keys
    ensures KeysOk(keys[Dispatch.KeyOf(tr.vehicleId, tr.idempotencyKey) := row], trips[tr.id := tr])
  {
    hide Dispatch.KeyOf;
  }

  lemma EndedTripKeys(keys: map<Key, KeyRow>, trips: map<string, T.Trip>, tr: T.Trip)
    requires KeysOk(keys, trips) && tr.id in trips
    requires trips[tr.id].vehicleId == tr.vehicleId && trips[tr.id].idempotencyKey == tr.idempotencyKey
    ensures KeysOk(keys, trips[tr.id := tr])
  {
    hide Dispatch.KeyOf;
  }

  // -- inspections ------------------------------------------------------------------------

  lemma KeepsInspections(t: Tables, cfg: Config, c: Change)
    requires InspectionsOk(t.heads, t.items, t.vehicles) && Permitted(t, cfg, c)
    ensures InspectionsOk(Effect(t, c).heads, Effect(t, c).items, Effect(t, c).vehicles)
  {
    hide Permitted, InspectionsOk, ItemFits, Settles;
    MoreVehicles(t.heads, t.items, t.vehicles, Effect(t, c).vehicles);
    var vehicles := Effect(t, c).vehicles;
    if WritesHead(c) {
      HeadWritten(t, cfg, c);
      NewHead(t.heads, t.items, vehicles, c.h);
    } else if c.ItemsCleared? {
      FewerItems(t, vehicles, c.inspectionId);
    } else if c.ItemAdded? {
      ItemWritten(t, cfg, c);
      OneMoreItem(t.heads, t.items, vehicles, c.item);
    }
  }

  lemma MoreVehicles(heads: map<string, I.Head>, items: map<string, I.Item>, vehicles: map<string, V.Vehicle>,
                     more: map<string, V.Vehicle>)
    requires InspectionsOk(heads, items, vehicles) && vehicles.Keys <= more.Keys
    ensures InspectionsOk(heads, items, more)
    ensures forall k :: k in heads
              ==> heads[k].vehicleId in more && heads[k].version == (if heads[k].status == I.Draft then 1 else 2)
  {
  }

  lemma NewHead(heads: map<string, I.Head>, items: map<string, I.Item>, vehicles: map<string, V.Vehicle>, h: I.Head)
    requires InspectionsOk(heads, items, vehicles) && h.vehicleId in vehicles
    requires 0 <= h.score <= 100 && h.status != I.Submitted && h.version == (if h.status == I.Draft then 1 else 2)
    ensures InspectionsOk(heads[h.id := h], items, vehicles)
  {
  }

  lemma FewerItems(t: Tables, vehicles: map<string, V.Vehicle>, id: string)
    requires InspectionsOk(t.heads, t.items, vehicles)
    ensures InspectionsOk(t.heads, DeleteItems(t, id).items, vehicles)
  {
  }

  lemma OneMoreItem(heads: map<string, I.Head>, items: map<string, I.Item>, vehicles: map<string, V.Vehicle>,
                    item: I.Item)
    requires InspectionsOk(heads, items, vehicles) && item.inspectionId in heads && ItemFits(items, item)
    requires I.Required(item.code) && !item.outcome.Unrecognised?
    ensures InspectionsOk(heads, items[item.id := item], vehicles)
  {
  }

  // -- bookings ---------------------------------------------------------------------------

  /** A shift whose booking does not change, or is given up, keeps every limit. */
  lemma BookingShrinks(shifts: map<string, W.Shift>, s: W.Shift, l: Scheduling.Limits, vehicles: map<string, V.Vehicle>)
    requires BookingOk(shifts, l) && ShiftsOk(shifts, vehicles)
    requires forall v, d :: Scheduling.BookedOn(s, v, d) ==>
      s.id in shifts && Scheduling.BookedOn(shifts[s.id], v, d)
      && Scheduling.WindowOf(s) == Scheduling.WindowOf(shifts[s.id])
    ensures BookingOk(shifts[s.id := s], l)
  {
    var after := shifts[s.id := s];
    forall v, d ensures WithinLimits(after, l, v, d) {
      assert WithinLimits(shifts, l, v, d);
      SumOfPart(Scheduling.DutyMap(after, v, d), Scheduling.DutyMap(shifts, v, d));
    }
  }

  lemma BookingGrows(t: Tables, s: W.Shift, vehicleId: string, l: Scheduling.Limits)
    requires BookingOk(t.shifts, l) && ShiftsOk(t.shifts, t.vehicles)
    requires s.id in t.shifts && t.shifts[s.id].Assign(vehicleId, s.updatedAt) == Ok(s)
    requires Scheduling.LeavesRoom(t.shifts, t.shifts[s.id], vehicleId, l)
    ensures BookingOk(t.shifts[s.id := s], l)
  {
    var after := t.shifts[s.id := s];
    forall v, d ensures WithinLimits(after, l, v, d) {
      assert WithinLimits(t.shifts, l, v, d);
      if v == vehicleId && d == s.serviceDate {
        RoomIsEnough(t, s, vehicleId, l);
      } else {
        UnbookedElsewhere(t.shifts, s, v, d, l);
      }
    }
  }

  lemma RoomIsEnough(t: Tables, s: W.Shift, vehicleId: string, l: Scheduling.Limits)
    requires ShiftsOk(t.shifts, t.vehicles) && WithinLimits(t.shifts, l, vehicleId, s.serviceDate)
    requires s.id in t.shifts && t.shifts[s.id].Assign(vehicleId, s.updatedAt) == Ok(s)
    requires Scheduling.LeavesRoom(t.shifts, t.shifts[s.id], vehicleId, l)
    ensures WithinLimits(t.shifts[s.id := s], l, vehicleId, s.serviceDate)
  {
    hide Schedule.Compatible;
    var d := s.serviceDate;
    OneMoreDuty(t.shifts, s, vehicleId);
    BookedApartGrows(t.shifts, s, vehicleId, d, Scheduling.MinimumBreak(l));
  }

  lemma OneMoreDuty(shifts: map<string, W.Shift>, s: W.Shift, vehicleId: string)
    requires s.id in shifts && Scheduling.Books(s, vehicleId) && !Scheduling.Books(shifts[s.id], vehicleId)
    ensures Sum(Scheduling.DutyMap(shifts[s.id := s], vehicleId, s.serviceDate))
            == Sum(Scheduling.DutyMap(shifts, vehicleId, s.serviceDate)) + (s.endAt - s.startAt)
  {
    var before, now := Scheduling.DutyMap(shifts, vehicleId, s.serviceDate),
        Scheduling.DutyMap(shifts[s.id := s], vehicleId, s.serviceDate);
    assert now == before[s.id := s.endAt - s.startAt];
    SumPlus(before, s.id, s.endAt - s.startAt);
  }

  lemma UnbookedElsewhere(shifts: map<string, W.Shift>, s: W.Shift, v: string, d: BusinessDay.ServiceDate,
                          l: Scheduling.Limits)
    requires s.id in shifts && !Scheduling.BookedOn(s, v, d) && !Scheduling.BookedOn(shifts[s.id], v, d)
    requires WithinLimits(shifts, l, v, d)
    ensures WithinLimits(shifts[s.id := s], l, v, d)
  {
    SameDuty(shifts, s, v, d);
    SameApart(shifts, s, v, d, Scheduling.MinimumBreak(l));
    hide Sum, Scheduling.DutyMap, Scheduling.BookedApart;
  }

  lemma SameDuty(shifts: map<string, W.Shift>, s: W.Shift, v: string, d: BusinessDay.ServiceDate)
    requires s.id in shifts && !Scheduling.BookedOn(s, v, d) && !Scheduling.BookedOn(shifts[s.id], v, d)
    ensures Scheduling.DutyMap(shifts[s.id := s], v, d) == Scheduling.DutyMap(shifts, v, d)
  {
  }

  lemma SameApart(shifts: map<string, W.Shift>, s: W.Shift, v: string, d: BusinessDay.ServiceDate, minimumBreak: int)
    requires s.id in shifts && !Scheduling.BookedOn(s, v, d) && Scheduling.BookedApart(shifts, v, d, minimumBreak)
    ensures Scheduling.BookedApart(shifts[s.id := s], v, d, minimumBreak)
  {
    hide Schedule.Compatible;
  }

  lemma BookedApartGrows(shifts: map<string, W.Shift>, s: W.Shift, v: string, d: BusinessDay.ServiceDate,
                         minimumBreak: int)
    requires Scheduling.BookedApart(shifts, v, d, minimumBreak) && Scheduling.Keyed(shifts)
    requires forall k :: k in shifts && k != s.id && Scheduling.BookedOn(shifts[k], v, d) ==>
      Schedule.Compatible(Scheduling.WindowOf(shifts[k]), Scheduling.WindowOf(s), minimumBreak)
    ensures Scheduling.BookedApart(shifts[s.id := s], v, d, minimumBreak)
  {
  }

  lemma KeepsBookings(t: Tables, cfg: Config, c: Change)
    requires ShiftsOk(t.shifts, t.vehicles) && BookingOk(t.shifts, cfg.limits) && Permitted(t, cfg, c)
    ensures BookingOk(Effect(t, c).shifts, cfg.limits)
  {
    hide BookingOk, Permitted, Scheduling.LeavesRoom;
    if WritesShift(c) {
      ShiftWritten(t, cfg, c);
      if c.ShiftAssigned? {
        ShiftTaken(t, cfg, c);
        BookingGrows(t, c.s, c.s.assignedVehicleId.value, cfg.limits);
      } else {
        BookingShrinks(t.shifts, c.s, cfg.limits, t.vehicles);
      }
    }
  }

  lemma KeepsCalendar(t: Tables, cfg: Config, c: Change)
    requires CalendarOk(t.shifts, cfg.calendar) && Permitted(t, cfg, c)
    ensures CalendarOk(Effect(t, c).shifts, cfg.calendar)
  {
    hide Permitted, BusinessDay.ValidateWindow;
    if WritesShift(c) {
      ShiftWritten(t, cfg, c);
    }
  }

  // -- all together -----------------------------------------------------------------------

  /** Every permitted change keeps every invariant. */
  lemma ChangeKeepsInvariant(t: Tables, cfg: Config, c: Change)
    requires Inv(t, cfg) && Permitted(t, cfg, c)
    ensures Inv(Effect(t, c), cfg)
  {
    hide VehiclesOk, DriversOk, ShiftsOk, TripsOk, TripsUnique, Covered, OrdersOk, OdometerOk, JobsOk, KeysOk;
    hide InspectionsOk, BookingOk, CalendarOk;
    hide Permitted, Effect;
    KeepsVehicles(t, cfg, c);
    KeepsDrivers(t, cfg, c);
    KeepsShifts(t, cfg, c);
    KeepsTrips(t, cfg, c);
    KeepsUnique(t, cfg, c);
    KeepsCovered(t, cfg, c);
    KeepsOrders(t, cfg, c);
    KeepsOdometer(t, cfg, c);
    KeepsJobs(t, cfg, c);
    KeepsKeys(t, cfg, c);
    KeepsInspections(t, cfg, c);
    KeepsBookings(t, cfg, c);
    KeepsCalendar(t, cfg, c);
  }

  lemma EmptyStoreIsFine(cfg: Config)
    ensures Inv(EMPTY, cfg)
  {
    hide BookingOk, JobsOk, OdometerOk, InspectionsOk, KeysOk;
    NoBookings(cfg.limits);
    NoJobs();
    NoRows();
  }

  lemma NoJobs()
    ensures JobsOk(map[], map[], map[], map[])
  {
    var jobs: map<string, Job> := map[];
    forall topic ensures HasJob(jobs, topic) <==> Called(map[], map[], map[], topic) {
    }
    hide HasJob, Called, PayloadMatches, TopicOf;
  }

  lemma NoRows()
    ensures OdometerOk(map[], map[], map[])
    ensures InspectionsOk(map[], map[], map[]) && KeysOk(map[], map[])
  {
  }

  lemma NoBookings(l: Scheduling.Limits)
    ensures BookingOk(map[], l)
  {
    forall v, d ensures WithinLimits(map[], l, v, d) {
      assert Scheduling.DutyMap(map[], v, d) == map[];
    }
  }
}
