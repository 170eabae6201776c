/** What holds of every run of the program. */
module Theorems {
  import opened Basics
  import opened Schema
  import opened Dispatch
  import opened Planning
  import opened Upkeep
  import opened Changes
  import opened Invariant
  import opened Exact
  import opened System
  import opened Sums
  import Scheduling
  import V = Vehicles
  import W = Workplan
  import T = Trips
  import O = Orders

  /** A moment of some run of the program from its empty database. */
  ghost predicate Reached(s: Sys, cfg: Config) {
    exists steps :: s == Run(START, cfg, steps)
  }

  lemma ReachedIsFine(s: Sys, cfg: Config)
    requires Reached(s, cfg)
    ensures SysInv(s, cfg)
  {
    var steps :| s == Run(START, cfg, steps);
    hide Run, Next, SysInv;
    StartIsFine(cfg);
    RunKeepsInvariant(START, cfg, steps);
  }

  // ---------------------------------------------------------------------------------------
  // Vehicles, shifts, trips and orders agree
  // ---------------------------------------------------------------------------------------

  ghost function ActiveTrips(t: Tables, vehicleId: string): set<string> {
    set k | k in t.trips && t.trips[k].vehicleId == vehicleId && t.trips[k].status == T.Active
  }

  ghost function TripsOf(t: Tables, shiftId: string): set<string> {
    set k | k in t.trips && t.trips[k].shiftId == shiftId
  }

  lemma AtMostOne(s: set<string>)
    requires forall a, b :: a in s && b in s ==> a == b
    ensures |s| <= 1
    ensures |s| == 1 <==> s != {}
  {
    if s != {} {
      var x :| x in s;
      assert s == {x};
    }
  }

  /** A vehicle is on duty exactly when one trip of it is active, and never has two. */
  lemma OnDutyMeansOneActiveTrip(s: Sys, cfg: Config, vehicleId: string)
    requires Reached(s, cfg) && vehicleId in s.db.vehicles
    ensures |ActiveTrips(s.db, vehicleId)| <= 1
    ensures s.db.vehicles[vehicleId].status == V.OnDuty <==> |ActiveTrips(s.db, vehicleId)| == 1
  {
    hide Reached;
    ReachedIsFine(s, cfg);
    hide Inv, PendingOk;
    DutyInStore(s.db, cfg, vehicleId);
  }

  lemma DutyInStore(t: Tables, cfg: Config, vehicleId: string)
    requires Inv(t, cfg) && vehicleId in t.vehicles
    ensures |ActiveTrips(t, vehicleId)| <= 1
    ensures t.vehicles[vehicleId].status == V.OnDuty <==> |ActiveTrips(t, vehicleId)| == 1
  {
    hide VehiclesOk, DriversOk, ShiftsOk, OrdersOk, OdometerOk, JobsOk, KeysOk, InspectionsOk, BookingOk, CalendarOk;
    AtMostOne(ActiveTrips(t, vehicleId));
    if t.vehicles[vehicleId].status == V.OnDuty {
      var k :| k in t.trips && t.trips[k].vehicleId == vehicleId && t.trips[k].status == T.Active;
      assert k in ActiveTrips(t, vehicleId);
    }
    if ActiveTrips(t, vehicleId) != {} {
      var k :| k in ActiveTrips(t, vehicleId);
    }
  }

  /** A shift is in progress (completed) exactly when it has one trip and that trip is active (completed)
      on the vehicle the shift is assigned to; any other shift has no trip. */
  lemma ShiftsAndTripsAgree(s: Sys, cfg: Config, shiftId: string)
    requires Reached(s, cfg) && shiftId in s.db.shifts
    ensures |TripsOf(s.db, shiftId)| <= 1
    ensures |TripsOf(s.db, shiftId)| == 1 <==> s.db.shifts[shiftId].status in {W.InProgress, W.Completed}
    ensures forall k :: k in TripsOf(s.db, shiftId) ==>
      && s.db.shifts[shiftId].assignedVehicleId == Some(s.db.trips[k].vehicleId)
      && (s.db.trips[k].status == T.Active <==> s.db.shifts[shiftId].status == W.InProgress)
      && (s.db.trips[k].status == T.Completed <==> s.db.shifts[shiftId].status == W.Completed)
  {
    hide Reached;
    ReachedIsFine(s, cfg);
    hide Inv, PendingOk;
    TripsInStore(s.db, cfg, shiftId);
  }

  lemma TripsInStore(t: Tables, cfg: Config, shiftId: string)
    requires Inv(t, cfg) && shiftId in t.shifts
    ensures |TripsOf(t, shiftId)| <= 1
    ensures |TripsOf(t, shiftId)| == 1 <==> t.shifts[shiftId].status in {W.InProgress, W.Completed}
    ensures forall k :: k in TripsOf(t, shiftId) ==>
      && t.shifts[shiftId].assignedVehicleId == Some(t.trips[k].vehicleId)
      && (t.trips[k].status == T.Active <==> t.shifts[shiftId].status == W.InProgress)
      && (t.trips[k].status == T.Completed <==> t.shifts[shiftId].status == W.Completed)
  {
    hide VehiclesOk, DriversOk, OrdersOk, OdometerOk, JobsOk, KeysOk, InspectionsOk, BookingOk, CalendarOk, ShiftsOk;
    AtMostOne(TripsOf(t, shiftId));
    if t.shifts[shiftId].status in {W.InProgress, W.Completed} {
      var k :| k in t.trips && t.trips[k].shiftId == shiftId;
      assert k in TripsOf(t, shiftId);
    }
    if TripsOf(t, shiftId) != {} {
      var k :| k in TripsOf(t, shiftId);
    }
  }

  /** No vehicle is on duty with a repair open, and none is in maintenance without one. */
  lemma RepairsAndDutyAgree(s: Sys, cfg: Config, vehicleId: string)
    requires Reached(s, cfg) && vehicleId in s.db.vehicles
    ensures s.db.vehicles[vehicleId].status == V.OnDuty ==>
      forall k :: k in s.db.orders && s.db.orders[k].vehicleId == vehicleId ==>
        s.db.orders[k].status !in {O.Open, O.InProgress}
    ensures s.db.vehicles[vehicleId].status == V.Maintenance ==>
      exists k :: k in s.db.orders && s.db.orders[k].vehicleId == vehicleId
                  && s.db.orders[k].status in {O.Open, O.InProgress}
  {
    ReachedIsFine(s, cfg);
  }

  // ---------------------------------------------------------------------------------------
  // The stranded vehicle
  // ---------------------------------------------------------------------------------------

  /** Available, yet with a repair still open. */
  ghost predicate Stranded(t: Tables, vehicleId: string) {
    vehicleId in t.vehicles && t.vehicles[vehicleId].status == V.Available && HasActiveOrder(t.orders, vehicleId)
  }

  /** An order other than this one is active for the vehicle. */
  ghost predicate AnotherRepair(orders: map<string, O.Order>, id: string, vehicleId: string) {
    exists other :: other in orders && other != id && orders[other].Active() && orders[other].vehicleId == vehicleId
  }

  ghost predicate OneRepairAtMost(orders: map<string, O.Order>, vehicleId: string) {
    forall a, b :: (a in orders && b in orders && orders[a].vehicleId == vehicleId && orders[b].vehicleId == vehicleId
                    && orders[a].Active() && orders[b].Active()) ==> a == b
  }

  /** A vehicle's second active order comes exactly from a failed inspection of it while it has a first. */
  lemma SecondRepairExactly(t: Tables, cfg: Config, c: Change, vehicleId: string)
    requires Permitted(t, cfg, c) && OneRepairAtMost(t.orders, vehicleId)
    ensures OneRepairAtMost(Effect(t, c).orders, vehicleId) <==>
      !(c.InspectionFailed? && c.v.id == vehicleId && HasActiveOrder(t.orders, vehicleId))
  {
    hide Permitted;
    if WritesOrder(c) {
      OrderWritten(t, cfg, c);
      if c.OrderOpened? {
        OpenedAlone(t, cfg, c);
      }
      var after := t.orders[c.o.id := c.o];
      assert c.o.id in after && after[c.o.id] == c.o;
      if c.InspectionFailed? && c.v.id == vehicleId && HasActiveOrder(t.orders, vehicleId) {
        var k :| k in t.orders && t.orders[k].vehicleId == vehicleId && t.orders[k].Active();
        assert k in after && after[k] == t.orders[k];
      }
    }
  }

  lemma OpenedAlone(t: Tables, cfg: Config, c: Change)
    requires Permitted(t, cfg, c) && c.OrderOpened?
    ensures !HasActiveOrder(t.orders, c.v.id)
  {
    hide HasActiveOrder;
  }

  /** Completing an order always releases its vehicle, and strands it exactly if another order of the
      vehicle is still active. */
  lemma CompletionStrandsExactly(t: Tables, cfg: Config, id: string, now: Time)
    requires Inv(t, cfg) && CompleteTx(t, id, now).Ok?
    ensures Stranded(CompleteTx(t, id, now).value.0, t.orders[id].vehicleId) <==>
      AnotherRepair(t.orders, id, t.orders[id].vehicleId)
  {
    hide Inv, CompleteTx;
    CompleteExactly(t, cfg, id, now);
    var v, o := CompleteTx(t, id, now).value.0.vehicles[t.orders[id].vehicleId], CompleteTx(t, id, now).value.1;
    OrderWritten(t, cfg, OrderClosed(v, o));
    hide Permitted;
    ClosingStrands(t, v, o, CompleteTx(t, id, now).value.0);
  }

  lemma ClosingStrands(t: Tables, v: V.Vehicle, o: O.Order, after: Tables)
    requires o.id in t.orders && t.orders[o.id].Complete(o.updatedAt) == Ok(o)
    requires v.id == o.vehicleId && v.id in t.vehicles && t.vehicles[v.id].ReleaseMaintenance(v.updatedAt) == Ok(v)
    requires after.orders == t.orders[o.id := o] && after.vehicles == t.vehicles[v.id := v]
    ensures Stranded(after, v.id) <==>
      AnotherRepair(t.orders, o.id, v.id)
  {
    if other :| other in t.orders && other != o.id && t.orders[other].Active() && t.orders[other].vehicleId == v.id {
      assert other in after.orders && after.orders[other] == t.orders[other];
    }
    if HasActiveOrder(after.orders, v.id) {
      var k :| k in after.orders && after.orders[k].vehicleId == v.id && after.orders[k].Active();
      assert k in t.orders && k != o.id;
    }
  }

  /** A vehicle is stranded after a step exactly if it was and the step was not a failed inspection of it,
      or the step completed an order of it while another was active. */
  lemma StrandedExactly(s: Sys, cfg: Config, step: Step, vehicleId: string) returns (c: Option<Change>)
    requires SysInv(s, cfg)
    ensures StepOk(s, cfg, c, Next(s, cfg, step))
    ensures Stranded(Next(s, cfg, step).db, vehicleId) <==>
      || (Stranded(s.db, vehicleId) && !(c.Some? && c.value.InspectionFailed? && c.value.v.id == vehicleId))
      || (c.Some? && c.value.OrderClosed? && c.value.v.id == vehicleId
          && AnotherRepair(s.db.orders, c.value.o.id, vehicleId))
  {
    hide Next, Stranded, AnotherRepair, Permitted, Effect, Inv;
    OrdersAreOk(s, cfg);
    c := StepKeepsInvariant(s, cfg, step);
    if c.Some? {
      StrandedAfter(s.db, cfg, c.value, vehicleId);
    }
  }

  /** A stranded vehicle gets no shift, no trip and no new order, and none of its orders can be completed:
      a failed inspection of it, and nothing else, ends this. */
  lemma StrandedStays(s: Sys, cfg: Config, step: Step, vehicleId: string) returns (c: Option<Change>)
    requires SysInv(s, cfg) && Stranded(s.db, vehicleId)
    ensures StepOk(s, cfg, c, Next(s, cfg, step))
    ensures Stranded(Next(s, cfg, step).db, vehicleId) <==>
      !(c.Some? && c.value.InspectionFailed? && c.value.v.id == vehicleId)
    ensures c.Some? ==> Passive(c.value, vehicleId)
  {
    hide Next, Stranded, AnotherRepair, Permitted, Effect, Inv;
    c := StrandedExactly(s, cfg, step, vehicleId);
    if c.Some? {
      StrandedUnder(s.db, cfg, c.value, vehicleId);
    }
  }

  /** A change that neither books, nor starts, nor opens or closes a repair on a vehicle. */
  ghost predicate Passive(c: Change, vehicleId: string) {
    && !(c.ShiftAssigned? && c.s.assignedVehicleId == Some(vehicleId))
    && !((c.TripBegun? || c.TripEnded? || c.OrderOpened? || c.OrderClosed? || c.VehicleAdded?) && c.v.id == vehicleId)
  }

  lemma StrandedUnder(t: Tables, cfg: Config, c: Change, vehicleId: string)
    requires Permitted(t, cfg, c) && Stranded(t, vehicleId)
    ensures Passive(c, vehicleId)
  {
    hide Settles, Scheduling.LeavesRoom, HasActiveOrder;
  }

  lemma OrdersAreOk(s: Sys, cfg: Config)
    requires SysInv(s, cfg)
    ensures OrdersOk(s.db.orders, s.db.vehicles)
  {
    hide OrdersOk;
  }

  lemma StrandedAfter(t: Tables, cfg: Config, c: Change, vehicleId: string)
    requires OrdersOk(t.orders, t.vehicles) && Permitted(t, cfg, c)
    ensures Stranded(Effect(t, c), vehicleId) <==>
      || (Stranded(t, vehicleId) && !(c.InspectionFailed? && c.v.id == vehicleId))
      || (c.OrderClosed? && c.v.id == vehicleId && AnotherRepair(t.orders, c.o.id, vehicleId))
  {
    hide Permitted, HasActiveOrder, AnotherRepair, OrdersOk;
    if WritesVehicle(c) && c.v.id == vehicleId {
      if WritesOrder(c) {
        RepairWritten(t, cfg, c);
      } else {
        OrdersAfter(t, cfg, c, vehicleId);
        VehicleAlone(t, cfg, c);
      }
    } else {
      OrdersAfter(t, cfg, c, vehicleId);
    }
  }

  /** A change that writes a vehicle and no order. */
  lemma VehicleAlone(t: Tables, cfg: Config, c: Change)
    requires OrdersOk(t.orders, t.vehicles) && Permitted(t, cfg, c) && WritesVehicle(c) && !WritesOrder(c)
    ensures c.v.status == V.Available && HasActiveOrder(t.orders, c.v.id) <==> Stranded(t, c.v.id)
  {
    hide Permitted, HasActiveOrder;
    VehicleWritten(t, cfg, c);
    if c.VehicleAdded? {
      NoOrdersYet(t.orders, t.vehicles, c.v.id);
    }
  }

  /** A change that writes a vehicle and an order of it. */
  lemma RepairWritten(t: Tables, cfg: Config, c: Change)
    requires Permitted(t, cfg, c) && WritesVehicle(c) && WritesOrder(c)
    ensures Stranded(Effect(t, c), c.v.id) <==> c.OrderClosed? && AnotherRepair(t.orders, c.o.id, c.v.id)
    ensures c.OrderClosed? ==> !Stranded(t, c.v.id)
    ensures c.OrderOpened? ==> !Stranded(t, c.v.id)
  {
    OrderWritten(t, cfg, c);
    if c.OrderClosed? {
      hide Permitted, HasActiveOrder;
      ClosingStrands(t, c.v, c.o, Effect(t, c));
    } else if c.OrderOpened? {
      OpenedAlone(t, cfg, c);
      hide Permitted, HasActiveOrder;
    }
  }

  /** Opening and closing an order of another vehicle, or beginning one, does not touch a vehicle's repairs. */
  lemma OrdersAfter(t: Tables, cfg: Config, c: Change, vehicleId: string)
    requires Permitted(t, cfg, c) && (WritesOrder(c) && !c.OrderBegun? ==> c.v.id != vehicleId)
    ensures HasActiveOrder(Effect(t, c).orders, vehicleId) <==> HasActiveOrder(t.orders, vehicleId)
  {
    hide Permitted, HasActiveOrder;
    if WritesOrder(c) {
      OrderWritten(t, cfg, c);
      OrderChanges(t.orders, c.o);
      if c.OrderBegun? {
        BegunOrderKeepsActive(t.orders, c.o);
      }
    }
  }

  lemma NoOrdersYet(orders: map<string, O.Order>, vehicles: map<string, V.Vehicle>, vehicleId: string)
    requires OrdersOk(orders, vehicles) && vehicleId !in vehicles
    ensures !HasActiveOrder(orders, vehicleId)
  {
  }

  lemma BegunOrderKeepsActive(orders: map<string, O.Order>, o: O.Order)
    requires o.id in orders && orders[o.id].Start(o.updatedAt) == Ok(o)
    ensures forall id :: HasActiveOrder(orders[o.id := o], id) <==> HasActiveOrder(orders, id)
  {
    OrderChanges(orders, o);
    hide HasActiveOrder;
    StartedWasActive(orders, o);
  }

  lemma StartedWasActive(orders: map<string, O.Order>, o: O.Order)
    requires o.id in orders && orders[o.id].Start(o.updatedAt) == Ok(o)
    ensures HasActiveOrder(orders, o.vehicleId)
  {
    assert orders[o.id].Active() && orders[o.id].vehicleId == o.vehicleId;
  }

  // ---------------------------------------------------------------------------------------
  // Odometers
  // ---------------------------------------------------------------------------------------

  /** The distance of each completed trip of a vehicle. */
  ghost function Distances(trips: map<string, T.Trip>, vehicleId: string): map<string, int> {
    map k | k in trips && trips[k].vehicleId == vehicleId && trips[k].status == T.Completed
            && trips[k].startOdometer.Some? && trips[k].endOdometer.Some?
      :: trips[k].endOdometer.value - trips[k].startOdometer.value
  }

  ghost function Driven(t: Tables, vehicleId: string): int {
    Sum(Distances(t.trips, vehicleId))
  }

  /** One change never lets the distance driven grow by more than the odometer. */
  lemma ChangeConservesDistance(t: Tables, cfg: Config, c: Change, vehicleId: string)
    requires Inv(t, cfg) && Permitted(t, cfg, c) && vehicleId in t.vehicles
    ensures vehicleId in Effect(t, c).vehicles
    ensures Driven(Effect(t, c), vehicleId) - Driven(t, vehicleId)
            <= Effect(t, c).vehicles[vehicleId].odometerKm - t.vehicles[vehicleId].odometerKm
  {
    hide Permitted, Distances, Sum, VehiclesOk, DriversOk, ShiftsOk, TripsOk, TripsUnique, Covered, OrdersOk;
    hide JobsOk, KeysOk;
    hide InspectionsOk, BookingOk, CalendarOk, FuelMetered, TripsApart, FuelOutsideTrips;
    if WritesVehicle(c) {
      VehicleWritten(t, cfg, c);
    }
    if WritesTrip(c) {
      TripWritten(t, cfg, c);
      if c.TripBegun? {
        BegunTripDrivesNothing(t.trips, c.tr, vehicleId);
      } else {
        EndedTripAddsItsDistance(t.trips, c.tr, vehicleId);
      }
    }
  }

  lemma BegunTripDrivesNothing(trips: map<string, T.Trip>, tr: T.Trip, vehicleId: string)
    requires tr.id !in trips && tr.status == T.Active
    ensures Distances(trips[tr.id := tr], vehicleId) == Distances(trips, vehicleId)
  {
  }

  lemma EndedTripAddsItsDistance(trips: map<string, T.Trip>, tr: T.Trip, vehicleId: string)
    requires tr.id in trips && trips[tr.id].status == T.Active && tr.status == T.Completed
             && tr.vehicleId == trips[tr.id].vehicleId && tr.startOdometer.Some? && tr.endOdometer.Some?
    ensures Sum(Distances(trips[tr.id := tr], vehicleId)) ==
      Sum(Distances(trips, vehicleId)) + (if tr.vehicleId == vehicleId then tr.Distance() else 0)
  {
    var before, after := Distances(trips, vehicleId), Distances(trips[tr.id := tr], vehicleId);
    if tr.vehicleId == vehicleId {
      assert after == before[tr.id := tr.Distance()];
      SumPlus(before, tr.id, tr.Distance());
    } else {
      assert after == before;
    }
  }

  /** Conservation: over any stretch of any run, the distance of the trips a vehicle completes in it is
      at most what its odometer gains in it. */
  lemma {:induction false} DistanceIsConserved(s: Sys, cfg: Config, steps: seq<Step>, vehicleId: string)
    requires SysInv(s, cfg) && vehicleId in s.db.vehicles
    ensures vehicleId in Run(s, cfg, steps).db.vehicles
    ensures Driven(Run(s, cfg, steps).db, vehicleId) - Driven(s.db, vehicleId)
            <= Run(s, cfg, steps).db.vehicles[vehicleId].odometerKm - s.db.vehicles[vehicleId].odometerKm
    decreases |steps|
  {
    hide Inv, Next, Driven, Permitted, Effect;
    if steps != [] {
      var next := Next(s, cfg, steps[0]);
      var c := StepKeepsInvariant(s, cfg, steps[0]);
      if c.Some? {
        ChangeConservesDistance(s.db, cfg, c.value, vehicleId);
      }
      DistanceIsConserved(next, cfg, steps[1..], vehicleId);
    }
  }

  /** A vehicle just registered has driven nothing, so ever after the distance of its completed trips is
      at most its odometer less the reading it was registered with. */
  lemma DrivenSinceRegistration(s: Sys, cfg: Config, input: VehicleInput, id: string, now: Time, steps: seq<Step>)
    requires SysInv(s, cfg) && RegisterTx(s.db, input, id, now).Ok?
    ensures var after := Run(Next(s, cfg, Register(input, id, now)), cfg, steps).db;
            id in after.vehicles && Driven(after, id) <= after.vehicles[id].odometerKm - input.odometerKm
  {
    hide Inv, Next, Driven, RegisterTx;
    var next := Next(s, cfg, Register(input, id, now));
    var c := StepKeepsInvariant(s, cfg, Register(input, id, now));
    RegisteredVehicle(s, cfg, input, id, now);
    DistanceIsConserved(next, cfg, steps, id);
  }

  lemma RegisteredVehicle(s: Sys, cfg: Config, input: VehicleInput, id: string, now: Time)
    requires SysInv(s, cfg) && RegisterTx(s.db, input, id, now).Ok?
    ensures var next := Next(s, cfg, Register(input, id, now)).db;
            id in next.vehicles && next.vehicles[id].odometerKm == input.odometerKm && Driven(next, id) == 0
  {
    hide VehiclesOk, DriversOk, ShiftsOk, TripsUnique, Covered, OrdersOk, OdometerOk, JobsOk, KeysOk;
    hide InspectionsOk, BookingOk, CalendarOk;
    hide TripsOk, PendingOk, Distances;
    NewVehicleHasDrivenNothing(s.db, cfg, id);
  }

  lemma NewVehicleHasDrivenNothing(t: Tables, cfg: Config, id: string)
    requires TripsOk(t.trips, t.shifts, t.vehicles) && id !in t.vehicles
    ensures Driven(t, id) == 0
  {
    assert Distances(t.trips, id) == map[];
  }

  /** On the odometer, two trips of a vehicle share at most an end point, and no fuel reading lies strictly
      inside a trip. */
  lemma OdometerIntervals(s: Sys, cfg: Config)
    requires Reached(s, cfg)
    ensures TripsApart(s.db.trips) && FuelOutsideTrips(s.db.fuel, s.db.trips)
    ensures forall k :: k in s.db.trips ==>
      && s.db.trips[k].startOdometer.Some?
      && (s.db.trips[k].status == T.Completed ==> s.db.trips[k].endOdometer.Some? && s.db.trips[k].Distance() >= 0)
  {
    ReachedIsFine(s, cfg);
  }
}
