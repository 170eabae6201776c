/** A vehicle's working day, as a run: the guards can be met one after the other, from any moment at which
    the vehicle and its shift are new. StartTrip never compares the clock with the shift's window, so the
    trip may start at any instant. */
module GoodDay {
  import opened Basics
  import opened Schema
  import opened Sums
  import opened Dispatch
  import opened Planning
  import opened Changes
  import opened Invariant
  import opened System
  import opened Theorems
  import opened Exact
  import opened Interleaving
  import Guards
  import BusinessDay
  import V = Vehicles
  import W = Workplan
  import T = Trips
  import C = Crew

  /** A shift of one nanosecond, and when its trip starts. */
  datatype Plan = Plan(
    routeId: string,
    driverId: string,
    vehicleId: string,
    shiftId: string,
    key: string,
    date: BusinessDay.ServiceDate,
    startAt: Time,
    at: Time)
  {
    /** After the trip's start, and not the zero time. */
    function Due(): Time { if at + 1 == ZERO_TIME then at + 2 else at + 1 }

    function Route(): W.Route { W.Route(routeId, 0, W.RouteActive) }

    function Driver(): C.Driver { C.Driver(driverId, "D", C.Active, Due(), [C.Certification("t", Due())]) }

    function Truck(): V.Vehicle { V.Vehicle(vehicleId, "t", V.Available, 1, 0, Due(), 1, at) }

    function Shift(): W.Shift {
      W.Shift(shiftId, routeId, date, startAt, startAt + 1, W.Scheduled, None, 1, at)
    }

    function Booked(): W.Shift {
      Shift().(status := W.Assigned, assignedVehicleId := Some(vehicleId), version := 2)
    }

    function Input(): StartInput { StartInput(vehicleId, shiftId, driverId, key, 0, 0) }

    function ShiftInput(): Planning.ShiftInput { Planning.ShiftInput(routeId, date, startAt, startAt + 1) }
  }

  /** The vehicle and the shift are new, no shift of the date is planned, and the shift's window is valid. */
  ghost predicate Possible(t: Tables, cfg: Config, p: Plan) {
    && !Blank(p.routeId) && p.driverId != "" && p.vehicleId != "" && p.shiftId != "" && p.key != ""
    && p.vehicleId !in t.vehicles && p.shiftId !in t.shifts
    && (forall k :: k in t.shifts ==> t.shifts[k].serviceDate != p.date)
    && !(p.date.Malformed? && Blank(p.date.text))
    && p.startAt != ZERO_TIME && p.startAt + 1 != ZERO_TIME
    && (cfg.calendar.Some? ==> Guards.WithinDay(cfg.calendar.value, p.ShiftInput()))
  }

  function Preparation(p: Plan): seq<Step> {
    [SaveRoute(p.Route()), SaveDriver(p.Driver()),
     Register(VehicleInput("t", 1, 0, p.Due()), p.vehicleId, p.at),
     CreateShift(p.ShiftInput(), p.shiftId, p.at),
     Assign(AssignInput(p.shiftId, p.vehicleId), AssignView([p.Shift()], None), p.at)]
  }

  function Planned(t: Tables, p: Plan): Tables {
    t.(routes := t.routes[p.routeId := p.Route()], drivers := t.drivers[p.driverId := p.Driver()],
       vehicles := t.vehicles[p.vehicleId := p.Truck()], shifts := t.shifts[p.shiftId := p.Shift()])
  }

  function Prepared(t: Tables, p: Plan): Tables {
    Planned(t, p).(shifts := t.shifts[p.shiftId := p.Booked()])
  }

  /** No row concerns the vehicle. */
  ghost predicate Unknown(t: Tables, vehicleId: string) {
    && (forall k :: k in t.shifts ==> t.shifts[k].assignedVehicleId != Some(vehicleId))
    && (forall k :: k in t.heads ==> t.heads[k].vehicleId != vehicleId)
    && (forall k :: k in t.trips ==> t.trips[k].vehicleId != vehicleId)
    && !HasActiveOrder(t.orders, vehicleId)
  }

  lemma NewVehicleIsUnknown(t: Tables, cfg: Config, vehicleId: string)
    requires Inv(t, cfg) && vehicleId !in t.vehicles
    ensures Unknown(t, vehicleId)
  {
  }

  lemma Registers(t: Tables, p: Plan)
    requires p.vehicleId != "" && p.vehicleId !in t.vehicles
    ensures RegisterTx(t, VehicleInput("t", 1, 0, p.Due()), p.vehicleId, p.at)
            == Ok((t.(vehicles := t.vehicles[p.vehicleId := p.Truck()]), p.Truck()))
  {
    assert !IsSpace("t"[0]);
  }

  /** Four steps plan the shift. */
  lemma Plans(s: Sys, cfg: Config, p: Plan)
    requires Possible(s.db, cfg, p)
    ensures Run(s, cfg, Preparation(p)[..4]) == s.(db := Planned(s.db, p))
  {
    hide Run, Next, RegisterTx, CreateShiftTx;
    var t2 := s.db.(routes := s.db.routes[p.routeId := p.Route()], drivers := s.db.drivers[p.driverId := p.Driver()]);
    var t3 := t2.(vehicles := t2.vehicles[p.vehicleId := p.Truck()]);
    var steps := Preparation(p);
    Registers(t2, p);
    Guards.CreateShiftExactly(t3, cfg, p.ShiftInput(), p.shiftId, p.at);
    assert steps[..4] == [steps[0], steps[1]] + [steps[2], steps[3]];
    RunInTwo(s, cfg, [steps[0], steps[1]], [steps[2], steps[3]]);
    TwoSteps(s, cfg, steps[0], steps[1]);
    OutsideSaves(s, cfg, p);
    TwoSteps(s.(db := t2), cfg, steps[2], steps[3]);
    PlanCommits(s, cfg, p, t2, t3);
  }

  lemma OutsideSaves(s: Sys, cfg: Config, p: Plan)
    requires p.driverId != ""
    ensures Next(Next(s, cfg, SaveRoute(p.Route())), cfg, SaveDriver(p.Driver())) ==
      s.(db := s.db.(routes := s.db.routes[p.routeId := p.Route()], drivers := s.db.drivers[p.driverId := p.Driver()]))
  {
    RouteSaves(s, cfg, p);
    DriverSaves(s.(db := s.db.(routes := s.db.routes[p.routeId := p.Route()])), cfg, p);
    hide Next;
  }

  lemma RouteSaves(s: Sys, cfg: Config, p: Plan)
    ensures Next(s, cfg, SaveRoute(p.Route())) == s.(db := s.db.(routes := s.db.routes[p.routeId := p.Route()]))
  {
  }

  lemma DriverSaves(s: Sys, cfg: Config, p: Plan)
    requires p.driverId != ""
    ensures Next(s, cfg, SaveDriver(p.Driver())) == s.(db := s.db.(drivers := s.db.drivers[p.driverId := p.Driver()]))
  {
  }

  lemma PlanCommits(s: Sys, cfg: Config, p: Plan, t2: Tables, t3: Tables)
    requires RegisterTx(t2, VehicleInput("t", 1, 0, p.Due()), p.vehicleId, p.at) == Ok((t3, p.Truck()))
    requires CreateShiftTx(t3, p.ShiftInput(), cfg.calendar, p.shiftId, p.at) == Ok((Planned(s.db, p), p.Shift()))
    ensures Next(Next(s.(db := t2), cfg, Preparation(p)[2]), cfg, Preparation(p)[3]) == s.(db := Planned(s.db, p))
  {
    RegisterCommits(s.(db := t2), cfg, p, t3);
    PlanningCommits(s.(db := t3), cfg, p, Planned(s.db, p));
    hide Next, RegisterTx, CreateShiftTx, Planned;
  }

  lemma RegisterCommits(s: Sys, cfg: Config, p: Plan, after: Tables)
    requires RegisterTx(s.db, VehicleInput("t", 1, 0, p.Due()), p.vehicleId, p.at) == Ok((after, p.Truck()))
    ensures Next(s, cfg, Preparation(p)[2]) == s.(db := after)
  {
    hide RegisterTx;
  }

  lemma PlanningCommits(s: Sys, cfg: Config, p: Plan, after: Tables)
    requires CreateShiftTx(s.db, p.ShiftInput(), cfg.calendar, p.shiftId, p.at) == Ok((after, p.Shift()))
    ensures Next(s, cfg, Preparation(p)[3]) == s.(db := after)
  {
    hide CreateShiftTx;
  }

  // ---------------------------------------------------------------------------------------

  /** The only shift of its date, on a vehicle without bookings, fits under any limits. */
  lemma Fits(t: Tables, cfg: Config, p: Plan)
    requires Unknown(t, p.vehicleId) && p.shiftId != "" && p.shiftId !in t.shifts
    ensures Guards.HasRoom(t.shifts[p.shiftId := p.Shift()], p.Shift(), p.vehicleId, cfg.limits)
  {
    assert Guards.HeldTime(t.shifts[p.shiftId := p.Shift()], p.vehicleId, p.date) == map[];
  }

  lemma ShownToAssign(t: Tables, p: Plan)
    requires Unknown(t, p.vehicleId) && p.shiftId !in t.shifts
    requires forall k :: k in t.shifts ==> t.shifts[k].serviceDate != p.date
    ensures Shows(Planned(t, p), AssignInput(p.shiftId, p.vehicleId), AssignView([p.Shift()], None))
  {
  }

  lemma Assigns(s: Sys, cfg: Config, p: Plan)
    requires Inv(Planned(s.db, p), cfg) && Possible(s.db, cfg, p) && Unknown(s.db, p.vehicleId)
    ensures Next(s.(db := Planned(s.db, p)), cfg, Preparation(p)[4]) == s.(db := Prepared(s.db, p))
  {
    hide Inv, AssignTx, Next, Guards.HasRoom, Shows;
    var t := Planned(s.db, p);
    ShownToAssign(s.db, p);
    Fits(s.db, cfg, p);
    var input, view := AssignInput(p.shiftId, p.vehicleId), AssignView([p.Shift()], None);
    Guards.AssignExactly(t, cfg, input, view, p.at);
    assert s.db.shifts[p.shiftId := p.Shift()][p.shiftId := p.Booked()] == s.db.shifts[p.shiftId := p.Booked()];
    AssignCommits(s.(db := t), cfg, input, view, p.at);
  }

  lemma AssignCommits(s: Sys, cfg: Config, input: AssignInput, view: AssignView, now: Time)
    requires Shows(s.db, input, view) && AssignTx(s.db, input, view, now, cfg.limits).Ok?
    ensures Next(s, cfg, Assign(input, view, now)) == s.(db := AssignTx(s.db, input, view, now, cfg.limits).value.0)
  {
    hide AssignTx, Shows;
  }

  /** Five steps after any moment at which the plan is possible, the trip may start but for its ids. */
  lemma Prepares(s: Sys, cfg: Config, p: Plan)
    requires SysInv(s, cfg) && Possible(s.db, cfg, p)
    ensures Run(s, cfg, Preparation(p)) == s.(db := Prepared(s.db, p))
    ensures SysInv(s.(db := Prepared(s.db, p)), cfg)
    ensures StartAllowed(Prepared(s.db, p), p.Input(), p.at)
    ensures IsTripByKey(s.db.trips, p.vehicleId, p.key, None)
  {
    hide Run, Next, SysInv, Possible, Planned, Prepared, Unknown, Preparation, StartAllowed, IsTripByKey, Advances;
    PreparationInTwo(p);
    StoreOf(s, cfg);
    NewVehicle(s.db, cfg, p);
    Plans(s, cfg, p);
    var steps := Preparation(p);
    var planned := s.(db := Planned(s.db, p));
    RunKeepsInvariant(s, cfg, steps[..4]);
    StoreOf(planned, cfg);
    Assigns(s, cfg, p);
    RunInTwo(s, cfg, steps[..4], [steps[4]]);
    OneStep(planned, cfg, steps[4]);
    RunKeepsInvariant(s, cfg, steps);
    MayStartNow(s.db, cfg, p);
  }

  lemma PreparationInTwo(p: Plan)
    ensures |Preparation(p)| == 5 && Preparation(p) == Preparation(p)[..4] + [Preparation(p)[4]]
  {
  }

  lemma NewVehicle(t: Tables, cfg: Config, p: Plan)
    requires Inv(t, cfg) && Possible(t, cfg, p)
    ensures Unknown(t, p.vehicleId) && IsTripByKey(t.trips, p.vehicleId, p.key, None)
  {
    hide Inv;
    NewVehicleIsUnknown(t, cfg, p.vehicleId);
  }

  lemma MayStartNow(t: Tables, cfg: Config, p: Plan)
    requires Possible(t, cfg, p) && Unknown(t, p.vehicleId)
    ensures StartAllowed(Prepared(t, p), p.Input(), p.at)
  {
    hide HasActiveOrder;
    assert p.Driver().certifications[0].vehicleType == "t" && p.at < p.Driver().certifications[0].expiresAt;
  }

  // ---------------------------------------------------------------------------------------

  function Drive(p: Plan, ids: Ids, returnJob: string): seq<Step> {
    [StartLookup(0, p.Input(), None), StartCommit(0, ids, p.at, 0), Return(ids.row, 7, returnJob, p.at)]
  }

  /** What is left of a drive: the trip, its shift and its idempotency row; other rows keep their ids. */
  ghost predicate Drove(a: Tables, b: Tables, p: Plan, ids: Ids, returnJob: string) {
    && ids.row in b.trips && b.trips.Keys == a.trips.Keys + {ids.row}
    && b.trips[ids.row].status == T.Completed && b.trips[ids.row].Distance() == 7
    && b.trips[ids.row].shiftId == p.shiftId && b.trips[ids.row].startedAt == Some(p.at)
    && p.shiftId in a.shifts && b.shifts.Keys == a.shifts.Keys && b.shifts[p.shiftId].status == W.Completed
    && (forall k :: k in a.shifts ==> b.shifts[k].serviceDate == a.shifts[k].serviceDate)
    && b.vehicles.Keys == a.vehicles.Keys && b.jobs.Keys == a.jobs.Keys + {ids.job, returnJob}
    && b.keys.Keys == a.keys.Keys + {KeyOf(p.vehicleId, p.key)}
  }

  /** The lookup finds nothing, the start commits, and the return completes the trip. */
  lemma Drives(s: Sys, cfg: Config, p: Plan, ids: Ids, returnJob: string)
    requires SysInv(s, cfg) && !Waits(s, 0) && MayStart(s.db, p.Input(), ids, p.at)
    requires returnJob != ids.job && returnJob !in s.db.jobs
    ensures var after := Run(s, cfg, Drive(p, ids, returnJob));
            SysInv(after, cfg) && !Waits(after, 0) && Drove(s.db, after.db, p, ids, returnJob)
  {
    hide SysInv, Next, Run, MayStart, Drove, Underway;
    var steps := Drive(p, ids, returnJob);
    LooksUp(s, cfg, p, ids);
    var s1 := Park(s, 0, Starting(p.Input()));
    var c1 := StepKeepsInvariant(s, cfg, steps[0]);
    Starts(s1, cfg, p, ids);
    var s2 := Next(s1, cfg, steps[1]);
    var c2 := StepKeepsInvariant(s1, cfg, steps[1]);
    Returns(s.db, s2, cfg, p, ids, returnJob);
    RunKeepsInvariant(s, cfg, steps);
    assert steps == [steps[0], steps[1]] + [steps[2]];
    RunInTwo(s, cfg, [steps[0], steps[1]], [steps[2]]);
    TwoSteps(s, cfg, steps[0], steps[1]);
    OneStep(s2, cfg, steps[2]);
  }

  lemma LooksUp(s: Sys, cfg: Config, p: Plan, ids: Ids)
    requires !Waits(s, 0) && MayStart(s.db, p.Input(), ids, p.at)
    ensures Next(s, cfg, StartLookup(0, p.Input(), None)) == Park(s, 0, Starting(p.Input()))
  {
    hide StartAllowed, IsTripByKey, KeyOf;
    LookupParks(s, cfg, p.Input());
  }

  lemma LookupParks(s: Sys, cfg: Config, input: StartInput)
    requires !Waits(s, 0) && input.key != "" && IsTripByKey(s.db.trips, input.vehicleId, input.key, None)
    ensures Next(s, cfg, StartLookup(0, input, None)) == Park(s, 0, Starting(input))
  {
    hide IsTripByKey;
  }

  ghost predicate Underway(a: Tables, b: Tables, p: Plan, ids: Ids) {
    && ids.row in b.trips && b.trips.Keys == a.trips.Keys + {ids.row}
    && b.trips[ids.row].status == T.Active && b.trips[ids.row].startOdometer == Some(0)
    && b.trips[ids.row].shiftId == p.shiftId && b.trips[ids.row].startedAt == Some(p.at)
    && p.shiftId in a.shifts && b.shifts.Keys == a.shifts.Keys
    && (forall k :: k in a.shifts ==> b.shifts[k].serviceDate == a.shifts[k].serviceDate)
    && b.vehicles.Keys == a.vehicles.Keys && b.jobs.Keys == a.jobs.Keys + {ids.job}
    && b.keys.Keys == a.keys.Keys + {KeyOf(p.vehicleId, p.key)}
  }

  lemma Starts(s: Sys, cfg: Config, p: Plan, ids: Ids)
    requires SysInv(s, cfg) && Waits(s, 0) && s.pending[0] == Starting(p.Input())
    requires MayStart(s.db, p.Input(), ids, p.at)
    ensures var after := Next(s, cfg, StartCommit(0, ids, p.at, 0));
            !Waits(after, 0) && Underway(s.db, after.db, p, ids)
  {
    StartCommitIs(s, cfg, 0, ids, p.at, 0);
    hide SysInv, Next, StartTx, MayStart, Underway;
    StoreOf(s, cfg);
    StartIsStored(s.db, cfg, p, ids);
  }

  lemma StartIsStored(t: Tables, cfg: Config, p: Plan, ids: Ids)
    requires Inv(t, cfg) && MayStart(t, p.Input(), ids, p.at)
    ensures match StartTx(t, p.Input(), ids, p.at, 0)
            case Ok(done) => Underway(t, done.0, p, ids)
            case Err(_) => false
  {
    hide Inv, StartTx, MayStart, Permitted, StartChange, Effect;
    StartExactly(t, cfg, p.Input(), ids, p.at, 0);
    StartMakesChange(t, cfg, p.Input(), ids, p.at, 0);
    EffectOfStart(t, cfg, p, ids);
  }

  lemma EffectOfStart(t: Tables, cfg: Config, p: Plan, ids: Ids)
    requires Inv(t, cfg) && MayStart(t, p.Input(), ids, p.at)
    ensures Underway(t, Effect(t, StartChange(t, p.Input(), ids, p.at, 0)), p, ids)
  {
    hide DriversOk, TripsOk, TripsUnique, Covered, OrdersOk, OdometerOk, JobsOk, KeysOk, InspectionsOk;
    hide BookingOk, CalendarOk;
    hide HasActiveOrder, KeyOf, StartIsNew;
  }

  lemma Returns(a: Tables, s: Sys, cfg: Config, p: Plan, ids: Ids, returnJob: string)
    requires SysInv(s, cfg) && Underway(a, s.db, p, ids) && returnJob !in a.jobs && returnJob != ids.job
    ensures var after := Next(s, cfg, Return(ids.row, 7, returnJob, p.at));
            after.pending == s.pending && Drove(a, after.db, p, ids, returnJob)
  {
    ReturnIs(s, cfg, ids.row, returnJob, p.at);
    hide SysInv, Next, ReturnTx, Underway, Drove;
    StoreOf(s, cfg);
    ReturnIsStored(a, s.db, cfg, p, ids, returnJob);
  }

  lemma ReturnIsStored(a: Tables, b: Tables, cfg: Config, p: Plan, ids: Ids, returnJob: string)
    requires Inv(b, cfg) && Underway(a, b, p, ids) && returnJob !in a.jobs && returnJob != ids.job
    ensures match ReturnTx(b, ids.row, 7, returnJob, p.at)
            case Ok(done) => Drove(a, done.0, p, ids, returnJob)
            case Err(_) => false
  {
    hide Inv, ReturnTx;
    ReturnNeverWedges(b, cfg, ids.row, 7, returnJob, p.at);
    Guards.ReturnWrites(b, cfg, ids.row, 7, returnJob, p.at);
    var tr, v, s := b.trips[ids.row], b.vehicles[b.trips[ids.row].vehicleId], b.shifts[b.trips[ids.row].shiftId];
    var after := ReturnTx(b, ids.row, 7, returnJob, p.at).value.0;
    assert after.trips == b.trips[ids.row := after.trips[ids.row]];
    assert after.shifts == b.shifts[tr.shiftId := after.shifts[tr.shiftId]];
    assert after.vehicles == b.vehicles[tr.vehicleId := after.vehicles[tr.vehicleId]];
    assert after.jobs == b.jobs[returnJob := after.jobs[returnJob]];
  }

  lemma ReturnIs(s: Sys, cfg: Config, tripId: string, jobId: string, now: Time)
    ensures Next(s, cfg, Return(tripId, 7, jobId, now)) == Commit(s, ReturnTx(s.db, tripId, 7, jobId, now))
  {
    hide ReturnTx;
  }

  // ---------------------------------------------------------------------------------------

  /** For any limits and calendar, and any valid window and instant of the start, a run from the empty
      database drives the trip. */
  lemma ATripCanBeDriven(cfg: Config, p: Plan)
    requires Possible(EMPTY, cfg, p)
    ensures exists s :: Reached(s, cfg) && !Waits(s, 0) && Drove(Prepared(EMPTY, p), s.db, p, Ids("t", "j"), "jj")
  {
    hide SysInv, Next, Run, Possible, Prepared, Drove, StartAllowed;
    StartIsFine(cfg);
    Prepares(START, cfg, p);
    var ready := START.(db := Prepared(EMPTY, p));
    NothingTaken(cfg, p);
    Drives(ready, cfg, p, Ids("t", "j"), "jj");
    var prepare, drive := Preparation(p), Drive(p, Ids("t", "j"), "jj");
    RunInTwo(START, cfg, prepare, drive);
    assert Reached(Run(START, cfg, prepare + drive), cfg);
  }

  lemma NothingTaken(cfg: Config, p: Plan)
    requires Possible(EMPTY, cfg, p) && StartAllowed(Prepared(EMPTY, p), p.Input(), p.at)
    ensures MayStart(Prepared(EMPTY, p), p.Input(), Ids("t", "j"), p.at)
    ensures Prepared(EMPTY, p).trips == map[] && Prepared(EMPTY, p).keys == map[] && Prepared(EMPTY, p).jobs == map[]
  {
    hide StartAllowed;
  }
}
