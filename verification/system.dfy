/** The running program: the tables, and the calls that are between two statements. Transactions are one
    step, because there is one connection; the calls that read and later save outside a transaction
    are two steps or more, between which any other step may run. */
module System {
  import opened Basics
  import opened Schema
  import opened Dispatch
  import opened Planning
  import opened Upkeep
  import opened Changes
  import opened Invariant
  import opened Exact
  import Fuelling
  import Inspecting
  import V = Vehicles
  import W = Workplan
  import T = Trips
  import O = Orders
  import I = Inspections
  import C = Crew

  /** A call between two of its statements. */
  datatype Pending =
    | Cancelling(shift: Replacement<W.Shift>)
    | Beginning(order: Replacement<O.Order>)
    | Starting(input: StartInput)
    | Loading(head: I.Head)
    | Recording(rewrite: Inspecting.Rewrite)
    | Clearing(write: I.Inspection)
    | Refilling(inspectionId: string, left: seq<I.Item>)

  datatype Sys = Sys(db: Tables, pending: map<nat, Pending>)

  datatype Step =
    | Register(vehicle: VehicleInput, id: string, now: Time)
    | SaveRoute(route: W.Route)
    | SaveDriver(driver: C.Driver)
    | CreateShift(shift: ShiftInput, id: string, now: Time)
    | CancelRead(pid: nat, id: string, now: Time)
    | CancelSave(pid: nat)
    | Assign(assign: AssignInput, view: AssignView, now: Time)
    | StartLookup(pid: nat, start: StartInput, found: Option<T.Trip>)
    | StartCommit(pid: nat, ids: Ids, now: Time, ttl: int)
    | Return(tripId: string, endOdometer: int, jobId: string, now: Time)
    | OpenOrder(vehicleId: string, kind: string, dueAt: Time, id: string, now: Time)
    | BeginRead(pid: nat, id: string, now: Time)
    | BeginSave(pid: nat)
    | CompleteOrder(id: string, now: Time)
    | CreateInspection(vehicleId: string, inspector: string, inspectedAt: Time, id: string, validity: int, now: Time)
    | RecordRead(pid: nat, id: string)
    | RecordLoad(pid: nat, loaded: seq<I.Item>, item: Inspecting.ItemInput, itemId: string, now: Time)
    | RecordHead(pid: nat)
    | RecordDelete(pid: nat)
    | RecordInsert(pid: nat)
    | Submit(id: string, loaded: seq<I.Item>, submitIds: Inspecting.SubmitIds, now: Time)
    | LogFuel(fuel: Fuelling.FuelInput, ids: Ids, now: Time)
    | MarkDone(jobId: string)
    | MarkRetry(jobId: string, next: Time)
    | MarkPermanent(jobId: string)
    | Abandon(pid: nat)

  /** A transaction commits or leaves the tables alone. */
  ghost function Commit<R>(s: Sys, r: Result<(Tables, R)>): Sys {
    if r.Ok? then s.(db := r.value.0) else s
  }

  ghost function Park(s: Sys, pid: nat, p: Pending): Sys {
    s.(pending := s.pending[pid := p])
  }

  ghost function Finish(s: Sys, pid: nat): Sys {
    s.(pending := s.pending - {pid})
  }

  predicate Waits(s: Sys, pid: nat) {
    pid in s.pending
  }

  ghost function Next(s: Sys, cfg: Config, step: Step): Sys {
    match step
    case Register(vehicle, id, now) => Commit(s, RegisterTx(s.db, vehicle, id, now))
    case SaveRoute(route) => s.(db := Effect(s.db, RouteSaved(route)))
    case SaveDriver(driver) =>
      if driver.id != "" && driver.name != "" then s.(db := Effect(s.db, DriverSaved(driver))) else s
    case CreateShift(shift, id, now) => Commit(s, CreateShiftTx(s.db, shift, cfg.calendar, id, now))
    case CancelRead(pid, id, now) =>
      if Waits(s, pid) then s
      else var p := PlanCancel(s.db, id, now); if p.Ok? then Park(s, pid, Cancelling(p.value)) else s
    case CancelSave(pid) =>
      if Waits(s, pid) && s.pending[pid].Cancelling?
      then Finish(Commit(s, SaveCancelled(s.db, s.pending[pid].shift)), pid) else s
    case Assign(input, view, now) =>
      if Shows(s.db, input, view) then Commit(s, AssignTx(s.db, input, view, now, cfg.limits)) else s
    case StartLookup(pid, input, found) =>
      if Waits(s, pid) || input.key == "" || !IsTripByKey(s.db.trips, input.vehicleId, input.key, found) || found.Some?
      then s
      else Park(s, pid, Starting(input))
    case StartCommit(pid, ids, now, ttl) =>
      if Waits(s, pid) && s.pending[pid].Starting?
      then Finish(Commit(s, StartTx(s.db, s.pending[pid].input, ids, now, ttl)), pid) else s
    case Return(tripId, endOdometer, jobId, now) => Commit(s, ReturnTx(s.db, tripId, endOdometer, jobId, now))
    case OpenOrder(vehicleId, kind, dueAt, id, now) => Commit(s, OpenTx(s.db, vehicleId, kind, dueAt, id, now))
    case BeginRead(pid, id, now) =>
      if Waits(s, pid) then s
      else var p := PlanStart(s.db, id, now); if p.Ok? then Park(s, pid, Beginning(p.value)) else s
    case BeginSave(pid) =>
      if Waits(s, pid) && s.pending[pid].Beginning?
      then Finish(Commit(s, SaveStarted(s.db, s.pending[pid].order)), pid) else s
    case CompleteOrder(id, now) => Commit(s, CompleteTx(s.db, id, now))
    case CreateInspection(vehicleId, inspector, at, id, validity, now) =>
      Commit(s, Inspecting.CreateTx(s.db, vehicleId, inspector, at, id, validity, now))
    case RecordRead(pid, id) =>
      if Waits(s, pid) || id !in s.db.heads then s else Park(s, pid, Loading(s.db.heads[id]))
    case RecordLoad(pid, loaded, item, itemId, now) =>
      if Waits(s, pid) && s.pending[pid].Loading? && IsItemList(s.db.items, s.pending[pid].head.id, loaded) then
        var p := Inspecting.Entered(s.pending[pid].head, loaded, item, itemId, now);
        if p.Ok? then Park(s, pid, Recording(p.value)) else Finish(s, pid)
      else s
    case RecordHead(pid) =>
      if Waits(s, pid) && s.pending[pid].Recording? then
        var w := s.pending[pid].rewrite;
        var r := SaveHead(s.db, w.write.head, w.read.head.version);
        if r.Ok? then Park(s.(db := r.value), pid, Clearing(w.write)) else Finish(s, pid)
      else s
    case RecordDelete(pid) =>
      if Waits(s, pid) && s.pending[pid].Clearing? then
        var write := s.pending[pid].write;
        Park(s.(db := DeleteItems(s.db, write.head.id)), pid, Refilling(write.head.id, write.items))
      else s
    case RecordInsert(pid) =>
      if Waits(s, pid) && s.pending[pid].Refilling? then
        var id, left := s.pending[pid].inspectionId, s.pending[pid].left;
        if left == [] then Finish(s, pid)
        else
          var r := InsertItem(s.db, left[0], id);
          if r.Ok? then Park(s.(db := r.value), pid, Refilling(id, left[1..])) else Finish(s, pid)
      else s
    case Submit(id, loaded, ids, now) =>
      if IsItemList(s.db.items, id, loaded) then Commit(s, Inspecting.SubmitTx(s.db, id, loaded, ids, now)) else s
    case LogFuel(fuel, ids, now) => Commit(s, Fuelling.RecordTx(s.db, fuel, ids, now))
    case MarkDone(id) => Mark(s, id, Done, 0, None)
    case MarkRetry(id, next) => Mark(s, id, JobStatus.Pending, 1, Some(next))
    case MarkPermanent(id) => Mark(s, id, PermanentFailure, 1, None)
    case Abandon(pid) => Finish(s, pid)
  }

  /** The worker's updates of a job row (internal/storage/sqlite/audit_outbox.go:67-78). */
  ghost function Mark(s: Sys, id: string, status: JobStatus, more: int, next: Option<Time>): Sys {
    s.(db := s.db.(jobs := Marked(s.db.jobs, id, status, more, next)))
  }

  // ---------------------------------------------------------------------------------------
  // Rows only move forward
  // ---------------------------------------------------------------------------------------

  ghost predicate VehiclesAdvance(a: map<string, V.Vehicle>, b: map<string, V.Vehicle>) {
    forall k :: k in a ==> k in b && a[k].version <= b[k].version && a[k].odometerKm <= b[k].odometerKm
                           && (a[k].version == b[k].version ==> a[k] == b[k])
  }

  ghost predicate ShiftsAdvance(a: map<string, W.Shift>, b: map<string, W.Shift>) {
    forall k :: k in a ==> k in b && a[k].version <= b[k].version && (a[k].version == b[k].version ==> a[k] == b[k])
  }

  ghost predicate TripsAdvance(a: map<string, T.Trip>, b: map<string, T.Trip>) {
    forall k :: k in a ==> k in b && a[k].version <= b[k].version && (a[k].version == b[k].version ==> a[k] == b[k])
                           && (a[k].status == T.Completed ==> a[k] == b[k])
                           && a[k].vehicleId == b[k].vehicleId && a[k].idempotencyKey == b[k].idempotencyKey
  }

  ghost predicate OrdersAdvance(a: map<string, O.Order>, b: map<string, O.Order>) {
    forall k :: k in a ==> k in b && a[k].version <= b[k].version && (a[k].version == b[k].version ==> a[k] == b[k])
  }

  /** A header changes only its time stamp while it is a draft, and nothing once it is submitted. */
  ghost predicate HeadsAdvance(a: map<string, I.Head>, b: map<string, I.Head>) {
    forall k :: k in a ==> k in b
                           && (b[k].status == I.Draft ==> a[k] == b[k].(updatedAt := a[k].updatedAt))
                           && (a[k].status != I.Draft ==> a[k] == b[k])
  }

  /** From one moment to a later one: no row is lost, no version goes back, and a row that still has its
      version still has its content. */
  ghost predicate Advances(a: Tables, b: Tables) {
    && VehiclesAdvance(a.vehicles, b.vehicles)
    && ShiftsAdvance(a.shifts, b.shifts)
    && TripsAdvance(a.trips, b.trips)
    && OrdersAdvance(a.orders, b.orders)
    && HeadsAdvance(a.heads, b.heads)
  }

  lemma ChangeAdvances(t: Tables, cfg: Config, c: Change)
    requires Inv(t, cfg) && Permitted(t, cfg, c)
    ensures Advances(t, Effect(t, c))
  {
    ChangeAdvancesVehicles(t, cfg, c);
    ChangeAdvancesShifts(t, cfg, c);
    ChangeAdvancesTrips(t, cfg, c);
    ChangeAdvancesOrders(t, cfg, c);
    ChangeAdvancesHeads(t, cfg, c);
  }

  lemma ChangeAdvancesVehicles(t: Tables, cfg: Config, c: Change)
    requires Permitted(t, cfg, c)
    ensures VehiclesAdvance(t.vehicles, Effect(t, c).vehicles)
  {
    hide Permitted;
    if WritesVehicle(c) {
      VehicleWritten(t, cfg, c);
    }
  }

  lemma ChangeAdvancesShifts(t: Tables, cfg: Config, c: Change)
    requires Permitted(t, cfg, c)
    ensures ShiftsAdvance(t.shifts, Effect(t, c).shifts)
  {
    hide Permitted;
    if WritesShift(c) {
      ShiftWritten(t, cfg, c);
    }
  }

  lemma ChangeAdvancesTrips(t: Tables, cfg: Config, c: Change)
    requires Permitted(t, cfg, c)
    ensures TripsAdvance(t.trips, Effect(t, c).trips)
  {
    hide Permitted;
    if WritesTrip(c) {
      TripWritten(t, cfg, c);
    }
  }

  lemma ChangeAdvancesOrders(t: Tables, cfg: Config, c: Change)
    requires Permitted(t, cfg, c)
    ensures OrdersAdvance(t.orders, Effect(t, c).orders)
  {
    hide Permitted, HasActiveOrder;
    if WritesOrder(c) {
      OrderWritten(t, cfg, c);
    }
  }

  lemma ChangeAdvancesHeads(t: Tables, cfg: Config, c: Change)
    requires Permitted(t, cfg, c)
    ensures HeadsAdvance(t.heads, Effect(t, c).heads)
  {
    hide Permitted, Settles;
    if WritesHead(c) {
      HeadWritten(t, cfg, c);
    }
  }

  lemma AdvancesChains(a: Tables, b: Tables, c: Tables)
    requires Advances(a, b) && Advances(b, c)
    ensures Advances(a, c)
  {
    VehiclesChain(a.vehicles, b.vehicles, c.vehicles);
    TripsChain(a.trips, b.trips, c.trips);
    HeadsChain(a.heads, b.heads, c.heads);
    hide VehiclesAdvance, TripsAdvance, HeadsAdvance;
  }

  lemma VehiclesChain(a: map<string, V.Vehicle>, b: map<string, V.Vehicle>, c: map<string, V.Vehicle>)
    requires VehiclesAdvance(a, b) && VehiclesAdvance(b, c)
    ensures VehiclesAdvance(a, c)
  {
  }

  lemma TripsChain(a: map<string, T.Trip>, b: map<string, T.Trip>, c: map<string, T.Trip>)
    requires TripsAdvance(a, b) && TripsAdvance(b, c)
    ensures TripsAdvance(a, c)
  {
  }

  lemma HeadsChain(a: map<string, I.Head>, b: map<string, I.Head>, c: map<string, I.Head>)
    requires HeadsAdvance(a, b) && HeadsAdvance(b, c)
    ensures HeadsAdvance(a, c)
  {
  }

  // ---------------------------------------------------------------------------------------
  // What is known about a call between two statements
  // ---------------------------------------------------------------------------------------

  ghost predicate ItemsFine(items: seq<I.Item>) {
    I.AllRequired(items) && I.Recognised(items)
  }

  /** What was read is the stored row or an older version of it. */
  ghost predicate ReadShift(t: Tables, read: W.Shift) {
    && read.id in t.shifts && read.version <= t.shifts[read.id].version
    && (read.version == t.shifts[read.id].version ==> read == t.shifts[read.id])
  }

  ghost predicate ReadOrder(t: Tables, read: O.Order) {
    && read.id in t.orders && read.version <= t.orders[read.id].version
    && (read.version == t.orders[read.id].version ==> read == t.orders[read.id])
  }

  /** A draft was read; it is still that draft but for its time stamp, or has been submitted since. */
  ghost predicate ReadDraft(t: Tables, read: I.Head) {
    && read.id in t.heads && read.status == I.Draft && read.version == 1
    && (t.heads[read.id].status == I.Draft ==> read == t.heads[read.id].(updatedAt := read.updatedAt))
  }

  ghost predicate PendingOk(t: Tables, p: Pending) {
    match p
    case Cancelling(c) => ReadShift(t, c.read) && c.read.Cancel(c.write.updatedAt) == Ok(c.write)
    case Beginning(b) => ReadOrder(t, b.read) && b.read.Start(b.write.updatedAt) == Ok(b.write)
    case Starting(input) => input.key != ""
    case Loading(head) => head.id in t.heads && (head.status == I.Draft ==> ReadDraft(t, head))
    case Recording(w) =>
      && ReadDraft(t, w.read.head)
      && w.write.head == w.read.head.(updatedAt := w.write.head.updatedAt)
      && ItemsFine(w.write.items)
    case Clearing(write) => write.head.id in t.heads && ItemsFine(write.items)
    case Refilling(id, left) => id in t.heads && ItemsFine(left)
  }

  ghost predicate SysInv(s: Sys, cfg: Config) {
    && Inv(s.db, cfg)
    && forall pid :: pid in s.pending ==> PendingOk(s.db, s.pending[pid])
  }

  lemma StoreOf(s: Sys, cfg: Config)
    requires SysInv(s, cfg)
    ensures Inv(s.db, cfg)
  {
  }

  lemma PendingStaysOk(a: Tables, b: Tables, cfg: Config, p: Pending)
    requires Inv(a, cfg) && Advances(a, b) && PendingOk(a, p)
    ensures PendingOk(b, p)
  {
    hide VehiclesOk, DriversOk, ShiftsOk, TripsOk, TripsUnique, Covered, OrdersOk, OdometerOk, JobsOk, KeysOk;
    hide BookingOk, CalendarOk, ItemsFine;
  }

  /** The rows as they are after a step that made at most one permitted change. */
  ghost predicate StepOk(s: Sys, cfg: Config, c: Option<Change>, after: Sys) {
    match c
    case None => after.db == s.db
    case Some(change) => Made(s.db, cfg, change, after.db)
  }

  ghost predicate LeavesItems(c: Option<Change>) {
    c.Some? ==> !c.value.ItemsCleared? && !c.value.ItemAdded?
  }

  /** Only registration adds a vehicle. */
  ghost predicate FromRegister(step: Step, c: Option<Change>) {
    c.Some? && c.value.VehicleAdded? ==> step.Register? && c.value.v.id == step.id
  }

  lemma MadeKeeps(t: Tables, cfg: Config, c: Option<Change>, after: Tables)
    requires Inv(t, cfg) && (c.Some? ==> Made(t, cfg, c.value, after)) && (c == None ==> after == t)
    ensures Inv(after, cfg) && Advances(t, after)
  {
    hide Permitted, Effect, Inv, VehiclesAdvance, ShiftsAdvance, TripsAdvance, OrdersAdvance, HeadsAdvance;
    if c.Some? {
      ChangeKeepsInvariant(t, cfg, c.value);
      ChangeAdvances(t, cfg, c.value);
    } else {
      SameAdvances(t);
    }
  }

  lemma RecordedItemsAreFine(t: Tables, cfg: Config, head: I.Head, loaded: seq<I.Item>, item: Inspecting.ItemInput,
                             itemId: string, now: Time)
    requires Inv(t, cfg) && IsItemList(t.items, head.id, loaded)
    requires Inspecting.Entered(head, loaded, item, itemId, now).Ok?
    ensures ItemsFine(Inspecting.Entered(head, loaded, item, itemId, now).value.write.items)
  {
    LoadedItems(t, cfg, head.id, loaded);
    var x := I.Item(itemId, head.id, item.code, item.outcome, item.notes);
    I.PutKeepsOrder(loaded, x);
    var items := I.Put(loaded, x);
    forall k | 0 <= k < |items| ensures I.Required(items[k].code) && !items[k].outcome.Unrecognised? {
      if items[k] != x {
        assert items[k] in loaded;
      }
    }
  }

  /** The two-statement reads. */
  lemma ReadsAreOk(s: Sys, cfg: Config, step: Step)
    requires SysInv(s, cfg)
    requires step.CancelRead? || step.BeginRead? || step.StartLookup? || step.RecordRead?
    ensures SysInv(Next(s, cfg, step), cfg) && Next(s, cfg, step).db == s.db
  {
    ReadIs(s, cfg, step);
    hide Inv, Next, PlanCancel, PlanStart, IsTripByKey, ReadDraft, ReadShift, ReadOrder;
    match step {
      case CancelRead(pid, id, now) =>
        if !Waits(s, pid) && PlanCancel(s.db, id, now).Ok? {
          CancelIsParked(s.db, cfg, id, now);
        }
      case BeginRead(pid, id, now) =>
        if !Waits(s, pid) && PlanStart(s.db, id, now).Ok? {
          BeginIsParked(s.db, cfg, id, now);
        }
      case RecordRead(pid, id) =>
        if !Waits(s, pid) && id in s.db.heads {
          DraftIsParked(s.db, cfg, id);
        }
      case _ =>
    }
  }

  lemma ReadIs(s: Sys, cfg: Config, step: Step)
    ensures match step
            case CancelRead(pid, id, now) =>
              Next(s, cfg, step) ==
                if !Waits(s, pid) && PlanCancel(s.db, id, now).Ok?
                then Park(s, pid, Cancelling(PlanCancel(s.db, id, now).value)) else s
            case BeginRead(pid, id, now) =>
              Next(s, cfg, step) ==
                if !Waits(s, pid) && PlanStart(s.db, id, now).Ok?
                then Park(s, pid, Beginning(PlanStart(s.db, id, now).value)) else s
            case StartLookup(pid, input, found) =>
              Next(s, cfg, step) == s || (input.key != "" && Next(s, cfg, step) == Park(s, pid, Starting(input)))
            case RecordRead(pid, id) =>
              Next(s, cfg, step) ==
                if Waits(s, pid) || id !in s.db.heads then s else Park(s, pid, Loading(s.db.heads[id]))
            case _ => true
  {
    hide PlanCancel, PlanStart, IsTripByKey;
  }

  lemma CancelIsParked(t: Tables, cfg: Config, id: string, now: Time)
    requires Inv(t, cfg) && PlanCancel(t, id, now).Ok?
    ensures PendingOk(t, Cancelling(PlanCancel(t, id, now).value))
  {
    hide VehiclesOk, TripsOk, TripsUnique, Covered, OrdersOk, OdometerOk, JobsOk, KeysOk, InspectionsOk;
    hide BookingOk, CalendarOk;
  }

  lemma BeginIsParked(t: Tables, cfg: Config, id: string, now: Time)
    requires Inv(t, cfg) && PlanStart(t, id, now).Ok?
    ensures PendingOk(t, Beginning(PlanStart(t, id, now).value))
  {
    hide VehiclesOk, TripsOk, TripsUnique, Covered, ShiftsOk, OdometerOk, JobsOk, KeysOk, InspectionsOk;
    hide BookingOk, CalendarOk;
  }

  lemma DraftIsParked(t: Tables, cfg: Config, id: string)
    requires Inv(t, cfg) && id in t.heads
    ensures PendingOk(t, Loading(t.heads[id]))
  {
    hide VehiclesOk, TripsOk, TripsUnique, Covered, ShiftsOk, OrdersOk, OdometerOk, JobsOk, KeysOk;
    hide BookingOk, CalendarOk;
  }

  lemma LoadIs(s: Sys, cfg: Config, pid: nat, loaded: seq<I.Item>, item: Inspecting.ItemInput, itemId: string,
               now: Time)
    ensures Next(s, cfg, RecordLoad(pid, loaded, item, itemId, now)) ==
      if Waits(s, pid) && s.pending[pid].Loading? && IsItemList(s.db.items, s.pending[pid].head.id, loaded) then
        var p := Inspecting.Entered(s.pending[pid].head, loaded, item, itemId, now);
        if p.Ok? then Park(s, pid, Recording(p.value)) else Finish(s, pid)
      else s
  {
    hide IsItemList, Inspecting.Entered;
  }

  /** Record loads the items in a statement of its own. */
  lemma LoadIsOk(s: Sys, cfg: Config, pid: nat, loaded: seq<I.Item>, item: Inspecting.ItemInput, itemId: string,
                 now: Time)
    requires SysInv(s, cfg)
    ensures SysInv(Next(s, cfg, RecordLoad(pid, loaded, item, itemId, now)), cfg)
    ensures Next(s, cfg, RecordLoad(pid, loaded, item, itemId, now)).db == s.db
  {
    LoadIs(s, cfg, pid, loaded, item, itemId, now);
    hide Inv, Next, IsItemList, ItemsFine, ReadDraft, I.Put;
    if Waits(s, pid) && s.pending[pid].Loading? && IsItemList(s.db.items, s.pending[pid].head.id, loaded) {
      assert PendingOk(s.db, s.pending[pid]);
      var head := s.pending[pid].head;
      if Inspecting.Entered(head, loaded, item, itemId, now).Ok? {
        RecordedItemsAreFine(s.db, cfg, head, loaded, item, itemId, now);
      }
    }
  }

  lemma HeadIs(s: Sys, cfg: Config, pid: nat)
    ensures Next(s, cfg, RecordHead(pid)) ==
      if Waits(s, pid) && s.pending[pid].Recording? then
        var w := s.pending[pid].rewrite;
        var r := SaveHead(s.db, w.write.head, w.read.head.version);
        if r.Ok? then Park(s.(db := r.value), pid, Clearing(w.write)) else Finish(s, pid)
      else s
  {
    hide SaveHead;
  }

  /** The header update of Record: a draft's time stamp, or nothing. */
  lemma HeadStep(s: Sys, cfg: Config, pid: nat) returns (c: Option<Change>)
    requires SysInv(s, cfg)
    ensures StepOk(s, cfg, c, Next(s, cfg, RecordHead(pid))) && (c.Some? ==> c.value.HeadSaved?)
    ensures OthersWait(s, Next(s, cfg, RecordHead(pid)))
  {
    HeadIs(s, cfg, pid);
    hide Inv, Next, SaveHead, Permitted, Effect, ItemsFine;
    c := None;
    if Waits(s, pid) && s.pending[pid].Recording? {
      var w := s.pending[pid].rewrite;
      assert PendingOk(s.db, s.pending[pid]);
      SavedDraft(s.db, cfg, w);
      if SaveHead(s.db, w.write.head, w.read.head.version).Ok? {
        c := Some(HeadSaved(w.write.head));
      }
    }
  }

  lemma SavedDraft(t: Tables, cfg: Config, w: Inspecting.Rewrite)
    requires Inv(t, cfg) && ReadDraft(t, w.read.head)
             && w.write.head == w.read.head.(updatedAt := w.write.head.updatedAt)
    ensures var r := SaveHead(t, w.write.head, w.read.head.version);
            r.Ok? ==> Made(t, cfg, HeadSaved(w.write.head), r.value) && w.write.head.id in r.value.heads
  {
    hide VehiclesOk, DriversOk, ShiftsOk, TripsOk, TripsUnique, Covered, OrdersOk, OdometerOk, JobsOk, KeysOk;
    hide BookingOk, CalendarOk;
  }

  lemma DeleteIs(s: Sys, cfg: Config, pid: nat)
    ensures Next(s, cfg, RecordDelete(pid)) ==
      if Waits(s, pid) && s.pending[pid].Clearing? then
        var write := s.pending[pid].write;
        Park(s.(db := DeleteItems(s.db, write.head.id)), pid, Refilling(write.head.id, write.items))
      else s
  {
  }

  lemma InsertIs(s: Sys, cfg: Config, pid: nat)
    ensures Next(s, cfg, RecordInsert(pid)) ==
      if Waits(s, pid) && s.pending[pid].Refilling? then
        var id, left := s.pending[pid].inspectionId, s.pending[pid].left;
        if left != [] && InsertItem(s.db, left[0], id).Ok?
        then Park(s.(db := InsertItem(s.db, left[0], id).value), pid, Refilling(id, left[1..]))
        else Finish(s, pid)
      else s
  {
    hide InsertItem;
  }

  /** The delete of Record. */
  lemma DeleteStep(s: Sys, cfg: Config, pid: nat) returns (c: Option<Change>)
    requires SysInv(s, cfg)
    ensures StepOk(s, cfg, c, Next(s, cfg, RecordDelete(pid))) && (c.Some? ==> c.value.ItemsCleared?)
    ensures OthersWait(s, Next(s, cfg, RecordDelete(pid)))
  {
    DeleteIs(s, cfg, pid);
    hide Inv, Next, I.Required;
    c := None;
    if Waits(s, pid) && s.pending[pid].Clearing? {
      assert PendingOk(s.db, s.pending[pid]);
      c := Some(ItemsCleared(s.pending[pid].write.head.id));
    }
  }

  lemma InsertMakesChange(t: Tables, cfg: Config, item: I.Item, id: string)
    requires InsertItem(t, item, id).Ok? && I.Required(item.code) && !item.outcome.Unrecognised?
    ensures Made(t, cfg, ItemAdded(item.(inspectionId := id)), InsertItem(t, item, id).value)
    ensures InsertItem(t, item, id).value.heads == t.heads
  {
  }

  /** One insert of Record. */
  lemma InsertStep(s: Sys, cfg: Config, pid: nat) returns (c: Option<Change>)
    requires SysInv(s, cfg)
    ensures StepOk(s, cfg, c, Next(s, cfg, RecordInsert(pid))) && (c.Some? ==> c.value.ItemAdded?)
    ensures OthersWait(s, Next(s, cfg, RecordInsert(pid)))
  {
    InsertIs(s, cfg, pid);
    hide Inv, Next, Permitted, Effect, InsertItem;
    c := None;
    if Waits(s, pid) && s.pending[pid].Refilling? && s.pending[pid].left != [] {
      assert PendingOk(s.db, s.pending[pid]);
      var id, left := s.pending[pid].inspectionId, s.pending[pid].left;
      if InsertItem(s.db, left[0], id).Ok? {
        InsertMakesChange(s.db, cfg, left[0], id);
        c := Some(ItemAdded(left[0].(inspectionId := id)));
      }
    }
  }

  /** A pending call is as before the step, or sound after it. */
  ghost predicate OthersWait(s: Sys, after: Sys) {
    forall q :: q in after.pending ==>
      (q in s.pending && after.pending[q] == s.pending[q]) || PendingOk(after.db, after.pending[q])
  }

  ghost predicate NothingNewPending(s: Sys, after: Sys) {
    forall q :: q in after.pending ==> q in s.pending && after.pending[q] == s.pending[q]
  }

  /** Transactions of planning, dispatch and upkeep. */
  lemma DispatchStep(s: Sys, cfg: Config, step: Step) returns (c: Option<Change>)
    requires SysInv(s, cfg)
    requires step.Register? || step.CreateShift? || step.Assign? || step.Return? || step.OpenOrder?
             || step.CompleteOrder?
    ensures StepOk(s, cfg, c, Next(s, cfg, step)) && LeavesItems(c) && FromRegister(step, c)
    ensures NothingNewPending(s, Next(s, cfg, step))
  {
    hide StartTx, PlanCancel, SaveCancelled, PlanStart, SaveStarted, Inspecting.CreateTx, Inspecting.SubmitTx;
    hide Inspecting.Entered, Fuelling.RecordTx;
    hide IsItemList, IsTripByKey, SaveHead, InsertItem, DeleteItems;
    hide Inv, Permitted, Effect, RegisterTx, CreateShiftTx, AssignTx, ReturnTx, OpenTx, CompleteTx, Shows;
    hide PendingOk, Made;
    c := None;
    if Next(s, cfg, step).db != s.db {
      match step {
        case Register(vehicle, id, now) =>
          RegisterMakesChange(s.db, cfg, vehicle, id, now);
          RegisterKeepsId(s.db, vehicle, id, now);
          c := Some(VehicleAdded(RegisterTx(s.db, vehicle, id, now).value.1));
        case CreateShift(shift, id, now) =>
          CreateShiftMakesChange(s.db, cfg, shift, id, now);
          c := Some(ShiftCreated(CreateShiftTx(s.db, shift, cfg.calendar, id, now).value.1));
        case Assign(input, view, now) =>
          AssignMakesChange(s.db, cfg, input, view, now);
          c := Some(ShiftAssigned(AssignTx(s.db, input, view, now, cfg.limits).value.1));
        case Return(tripId, endOdometer, jobId, now) =>
          var change := ReturnMakesChange(s.db, cfg, tripId, endOdometer, jobId, now);
          c := Some(change);
        case OpenOrder(vehicleId, kind, dueAt, id, now) =>
          var change := OpenedOrder(s.db, cfg, vehicleId, kind, dueAt, id, now);
          c := Some(change);
        case CompleteOrder(id, now) =>
          var change := CompletedOrder(s.db, cfg, id, now);
          c := Some(change);
        case _ =>
      }
    }
  }

  lemma RegisterKeepsId(t: Tables, vehicle: VehicleInput, id: string, now: Time)
    requires RegisterTx(t, vehicle, id, now).Ok?
    ensures RegisterTx(t, vehicle, id, now).value.1.id == id
  {
  }

  lemma CompletedOrder(t: Tables, cfg: Config, id: string, now: Time) returns (c: Change)
    requires Inv(t, cfg) && CompleteTx(t, id, now).Ok?
    ensures c.OrderClosed? && Made(t, cfg, c, CompleteTx(t, id, now).value.0)
  {
    CompleteExactly(t, cfg, id, now);
    c := OrderClosed(CompleteTx(t, id, now).value.0.vehicles[t.orders[id].vehicleId], CompleteTx(t, id, now).value.1);
  }

  lemma OpenedOrder(t: Tables, cfg: Config, vehicleId: string, kind: string, dueAt: Time, id: string, now: Time)
      returns (c: Change)
    requires Inv(t, cfg) && OpenTx(t, vehicleId, kind, dueAt, id, now).Ok?
    ensures c.OrderOpened? && Made(t, cfg, c, OpenTx(t, vehicleId, kind, dueAt, id, now).value.0)
  {
    OpenMakesChange(t, cfg, vehicleId, kind, dueAt, id, now);
    c := OrderOpened(OpenTx(t, vehicleId, kind, dueAt, id, now).value.0.vehicles[vehicleId],
                     OpenTx(t, vehicleId, kind, dueAt, id, now).value.1);
  }

  lemma CreatedInspection(t: Tables, cfg: Config, vehicleId: string, inspector: string, at: Time, id: string,
                          validity: int, now: Time)
    returns (c: Change)
    requires Inv(t, cfg) && Inspecting.CreateTx(t, vehicleId, inspector, at, id, validity, now).Ok?
    ensures c.InspectionCreated?
            && Made(t, cfg, c, Inspecting.CreateTx(t, vehicleId, inspector, at, id, validity, now).value.0)
  {
    CreateInspectionMakesChange(t, cfg, vehicleId, inspector, at, id, validity, now);
    c := InspectionCreated(Inspecting.CreateTx(t, vehicleId, inspector, at, id, validity, now).value.1.head);
  }

  lemma SubmittedInspection(t: Tables, cfg: Config, id: string, loaded: seq<I.Item>, ids: Inspecting.SubmitIds,
                            now: Time) returns (c: Change)
    requires Inv(t, cfg) && IsItemList(t.items, id, loaded) && Inspecting.SubmitTx(t, id, loaded, ids, now).Ok?
    ensures (c.InspectionPassed? || c.InspectionFailed?)
            && Made(t, cfg, c, Inspecting.SubmitTx(t, id, loaded, ids, now).value.0)
  {
    SubmitExactly(t, cfg, id, loaded, ids, now);
    c := SubmitChange(t, id, loaded, ids, now);
  }

  lemma LoggedFuel(t: Tables, cfg: Config, fuel: Fuelling.FuelInput, ids: Ids, now: Time) returns (c: Change)
    requires Inv(t, cfg) && Fuelling.RecordTx(t, fuel, ids, now).Ok?
    ensures c.FuelLogged? && Made(t, cfg, c, Fuelling.RecordTx(t, fuel, ids, now).value.0)
  {
    FuelMakesChange(t, cfg, fuel, ids, now);
    c := FuelChange(t, fuel, Fuelling.RecordTx(t, fuel, ids, now).value.1, ids.job, now);
  }

  /** Transactions of inspection and fuel. */
  lemma InspectionStep(s: Sys, cfg: Config, step: Step) returns (c: Option<Change>)
    requires SysInv(s, cfg)
    requires step.CreateInspection? || step.Submit? || step.LogFuel?
    ensures StepOk(s, cfg, c, Next(s, cfg, step)) && LeavesItems(c) && FromRegister(step, c)
    ensures NothingNewPending(s, Next(s, cfg, step))
  {
    hide RegisterTx, CreateShiftTx, AssignTx, ReturnTx, OpenTx, CompleteTx, StartTx, PlanCancel;
    hide SaveCancelled, PlanStart, SaveStarted;
    hide Inspecting.Entered, Shows, IsTripByKey, SaveHead, InsertItem, DeleteItems;
    hide Inv, Permitted, Effect, Made, Inspecting.CreateTx, Inspecting.SubmitTx, Fuelling.RecordTx, PendingOk;
    hide IsItemList;
    c := None;
    if Next(s, cfg, step).db != s.db {
      match step {
        case CreateInspection(vehicleId, inspector, at, id, validity, now) =>
          var change := CreatedInspection(s.db, cfg, vehicleId, inspector, at, id, validity, now);
          c := Some(change);
        case Submit(id, loaded, ids, now) =>
          var change := SubmittedInspection(s.db, cfg, id, loaded, ids, now);
          c := Some(change);
        case LogFuel(fuel, ids, now) =>
          var change := LoggedFuel(s.db, cfg, fuel, ids, now);
          c := Some(change);
        case _ =>
      }
    }
  }

  /** The crew and route services. */
  lemma OutsideStep(s: Sys, cfg: Config, step: Step) returns (c: Option<Change>)
    requires SysInv(s, cfg) && (step.SaveRoute? || step.SaveDriver? || step.Abandon?)
    ensures StepOk(s, cfg, c, Next(s, cfg, step)) && LeavesItems(c) && FromRegister(step, c)
    ensures NothingNewPending(s, Next(s, cfg, step))
  {
    hide Inv, PendingOk, Permitted, Effect, Made;
    c := None;
    match step {
      case SaveRoute(route) =>
        RouteIsPermitted(s.db, cfg, route);
        c := Some(RouteSaved(route));
      case SaveDriver(driver) =>
        if driver.id != "" && driver.name != "" {
          DriverIsPermitted(s.db, cfg, driver);
          c := Some(DriverSaved(driver));
        }
      case Abandon(pid) =>
    }
  }

  lemma WorkerIs(s: Sys, cfg: Config, step: Step)
    ensures match step
            case MarkDone(id) => Next(s, cfg, step) == Mark(s, id, Done, 0, None)
            case MarkRetry(id, next) => Next(s, cfg, step) == Mark(s, id, JobStatus.Pending, 1, Some(next))
            case MarkPermanent(id) => Next(s, cfg, step) == Mark(s, id, PermanentFailure, 1, None)
            case _ => true
  {
    hide Mark;
  }

  /** The worker. */
  lemma WorkerStep(s: Sys, cfg: Config, step: Step) returns (c: Option<Change>)
    requires SysInv(s, cfg) && (step.MarkDone? || step.MarkRetry? || step.MarkPermanent?)
    ensures StepOk(s, cfg, c, Next(s, cfg, step)) && LeavesItems(c) && FromRegister(step, c)
    ensures NothingNewPending(s, Next(s, cfg, step))
  {
    WorkerIs(s, cfg, step);
    hide Inv, PendingOk, Permitted, Effect, Made, Mark, Next;
    match step {
      case MarkDone(id) => c := MarkedJob(s, cfg, id, Done, 0, None);
      case MarkRetry(id, next) => c := MarkedJob(s, cfg, id, JobStatus.Pending, 1, Some(next));
      case MarkPermanent(id) => c := MarkedJob(s, cfg, id, PermanentFailure, 1, None);
    }
  }

  lemma RouteIsPermitted(t: Tables, cfg: Config, route: W.Route)
    ensures Made(t, cfg, RouteSaved(route), Effect(t, RouteSaved(route)))
  {
  }

  lemma DriverIsPermitted(t: Tables, cfg: Config, driver: C.Driver)
    requires driver.id != "" && driver.name != ""
    ensures Made(t, cfg, DriverSaved(driver), Effect(t, DriverSaved(driver)))
  {
  }

  lemma MarkedJob(s: Sys, cfg: Config, id: string, status: JobStatus, more: int, next: Option<Time>)
      returns (c: Option<Change>)
    requires Inv(s.db, cfg)
    ensures StepOk(s, cfg, c, Mark(s, id, status, more, next)) && (c.Some? ==> c.value.JobMarked?)
    ensures Mark(s, id, status, more, next).pending == s.pending
  {
    c := None;
    if id in s.db.jobs {
      c := Some(JobMarked(Mark(s, id, status, more, next).db.jobs[id]));
    }
  }

  /** The compare-and-set save that concludes CancelShift. */
  lemma CancelStep(s: Sys, cfg: Config, pid: nat) returns (c: Option<Change>)
    requires SysInv(s, cfg)
    ensures StepOk(s, cfg, c, Next(s, cfg, CancelSave(pid))) && (c.Some? ==> c.value.ShiftCancelled?)
    ensures NothingNewPending(s, Next(s, cfg, CancelSave(pid)))
  {
    CancelSaveIs(s, cfg, pid);
    hide Inv, Permitted, Effect, Made, SaveCancelled, Next, ItemsFine, ReadDraft, ReadOrder;
    c := None;
    if Waits(s, pid) && s.pending[pid].Cancelling? {
      assert PendingOk(s.db, s.pending[pid]);
      var p := s.pending[pid].shift;
      CancelMakesChange(s.db, cfg, p);
      if SaveCancelled(s.db, p).Ok? {
        c := Some(ShiftCancelled(p.write));
      }
    }
  }

  lemma CancelSaveIs(s: Sys, cfg: Config, pid: nat)
    ensures Next(s, cfg, CancelSave(pid)) ==
      if Waits(s, pid) && s.pending[pid].Cancelling?
      then Finish(Commit(s, SaveCancelled(s.db, s.pending[pid].shift)), pid) else s
  {
    hide SaveCancelled;
  }

  /** The compare-and-set save that concludes starting an order. */
  lemma BeginStep(s: Sys, cfg: Config, pid: nat) returns (c: Option<Change>)
    requires SysInv(s, cfg)
    ensures StepOk(s, cfg, c, Next(s, cfg, BeginSave(pid))) && (c.Some? ==> c.value.OrderBegun?)
    ensures NothingNewPending(s, Next(s, cfg, BeginSave(pid)))
  {
    BeginSaveIs(s, cfg, pid);
    hide Inv, Permitted, Effect, Made, SaveStarted, Next, ItemsFine, ReadDraft, ReadShift;
    c := None;
    if Waits(s, pid) && s.pending[pid].Beginning? {
      assert PendingOk(s.db, s.pending[pid]);
      var p := s.pending[pid].order;
      BeginMakesChange(s.db, cfg, p);
      if SaveStarted(s.db, p).Ok? {
        c := Some(OrderBegun(p.write));
      }
    }
  }

  lemma BeginSaveIs(s: Sys, cfg: Config, pid: nat)
    ensures Next(s, cfg, BeginSave(pid)) ==
      if Waits(s, pid) && s.pending[pid].Beginning?
      then Finish(Commit(s, SaveStarted(s.db, s.pending[pid].order)), pid) else s
  {
    hide SaveStarted;
  }

  /** The transaction that concludes StartTrip. */
  lemma StartStep(s: Sys, cfg: Config, pid: nat, ids: Ids, now: Time, ttl: int) returns (c: Option<Change>)
    requires SysInv(s, cfg)
    ensures StepOk(s, cfg, c, Next(s, cfg, StartCommit(pid, ids, now, ttl))) && (c.Some? ==> c.value.TripBegun?)
    ensures NothingNewPending(s, Next(s, cfg, StartCommit(pid, ids, now, ttl)))
  {
    StartCommitIs(s, cfg, pid, ids, now, ttl);
    hide Inv, Permitted, Effect, Made, StartTx, MayStart, Next, PendingOk;
    c := None;
    if Waits(s, pid) && s.pending[pid].Starting? && StartTx(s.db, s.pending[pid].input, ids, now, ttl).Ok? {
      StartMakesChange(s.db, cfg, s.pending[pid].input, ids, now, ttl);
      c := Some(StartChange(s.db, s.pending[pid].input, ids, now, ttl));
    }
  }

  lemma StartCommitIs(s: Sys, cfg: Config, pid: nat, ids: Ids, now: Time, ttl: int)
    ensures Next(s, cfg, StartCommit(pid, ids, now, ttl)) ==
      if Waits(s, pid) && s.pending[pid].Starting?
      then Finish(Commit(s, StartTx(s.db, s.pending[pid].input, ids, now, ttl)), pid) else s
  {
    hide StartTx;
  }

  /** Step by step, the one change made; a call that waits is as before the step, or sound after it. */
  lemma StepMakesChange(s: Sys, cfg: Config, step: Step) returns (c: Option<Change>)
    requires SysInv(s, cfg)
    ensures StepOk(s, cfg, c, Next(s, cfg, step)) && FromRegister(step, c)
    ensures !step.RecordDelete? && !step.RecordInsert? ==> LeavesItems(c)
    ensures OthersWait(s, Next(s, cfg, step))
  {
    hide Inv, Permitted, Effect, Made, Next, PendingOk;
    c := None;
    if step.RecordLoad? {
      LoadIsOk(s, cfg, step.pid, step.loaded, step.item, step.itemId, step.now);
    } else if step.CancelRead? || step.BeginRead? || step.StartLookup? || step.RecordRead? {
      ReadsAreOk(s, cfg, step);
    } else if step.RecordHead? {
      c := HeadStep(s, cfg, step.pid);
    } else if step.RecordDelete? {
      c := DeleteStep(s, cfg, step.pid);
    } else if step.RecordInsert? {
      c := InsertStep(s, cfg, step.pid);
    } else if step.CancelSave? {
      c := CancelStep(s, cfg, step.pid);
    } else if step.BeginSave? {
      c := BeginStep(s, cfg, step.pid);
    } else if step.StartCommit? {
      c := StartStep(s, cfg, step.pid, step.ids, step.now, step.ttl);
    } else if step.CreateInspection? || step.Submit? || step.LogFuel? {
      c := InspectionStep(s, cfg, step);
    } else if step.MarkDone? || step.MarkRetry? || step.MarkPermanent? {
      c := WorkerStep(s, cfg, step);
    } else if step.SaveRoute? || step.SaveDriver? || step.Abandon? {
      c := OutsideStep(s, cfg, step);
    } else {
      c := DispatchStep(s, cfg, step);
    }
  }

  /** Every step of the program makes at most one permitted change, and keeps the invariants of the tables
      and of the calls under way. */
  lemma StepKeepsInvariant(s: Sys, cfg: Config, step: Step) returns (c: Option<Change>)
    requires SysInv(s, cfg)
    ensures StepOk(s, cfg, c, Next(s, cfg, step))
    ensures !step.RecordDelete? && !step.RecordInsert? ==> LeavesItems(c)
    ensures FromRegister(step, c)
    ensures SysInv(Next(s, cfg, step), cfg)
    ensures Advances(s.db, Next(s, cfg, step).db)
  {
    hide Inv, Permitted, Effect, Made, Next, PendingOk, Advances;
    var after := Next(s, cfg, step);
    c := StepMakesChange(s, cfg, step);
    MadeKeeps(s.db, cfg, c, after.db);
    forall q | q in after.pending ensures PendingOk(after.db, after.pending[q]) {
      if q in s.pending && after.pending[q] == s.pending[q] {
        PendingStaysOk(s.db, after.db, cfg, s.pending[q]);
      }
    }
  }

  // ---------------------------------------------------------------------------------------
  // Runs
  // ---------------------------------------------------------------------------------------

  ghost function Run(s: Sys, cfg: Config, steps: seq<Step>): Sys
    decreases |steps|
  {
    if steps == [] then s else Run(Next(s, cfg, steps[0]), cfg, steps[1..])
  }

  const START: Sys := Sys(EMPTY, map[])

  /** Every interleaving of every calls keeps all invariants, loses no row, and never takes a version
      back or gives a version two contents. */
  lemma {:induction false} RunKeepsInvariant(s: Sys, cfg: Config, steps: seq<Step>)
    requires SysInv(s, cfg)
    ensures SysInv(Run(s, cfg, steps), cfg)
    ensures Advances(s.db, Run(s, cfg, steps).db)
    decreases |steps|
  {
    hide SysInv, Next, VehiclesAdvance, ShiftsAdvance, TripsAdvance, OrdersAdvance, HeadsAdvance;
    if steps == [] {
      SameAdvances(s.db);
    } else {
      var next := Next(s, cfg, steps[0]);
      var c := StepKeepsInvariant(s, cfg, steps[0]);
      RunKeepsInvariant(next, cfg, steps[1..]);
      AdvancesChains(s.db, next.db, Run(next, cfg, steps[1..]).db);
    }
  }

  lemma SameAdvances(t: Tables)
    ensures Advances(t, t)
  {
  }

  lemma StartIsFine(cfg: Config)
    ensures SysInv(START, cfg)
  {
    EmptyStoreIsFine(cfg);
    hide Inv;
  }
}
