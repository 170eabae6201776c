/** The database as a value: one map per table, with the keys, constraints and compare-and-set saves
    of internal/storage/sqlite. A save that fails yields an error and no new tables. */
module Schema {
  import opened Basics
  import V = Vehicles
  import W = Workplan
  import T = Trips
  import O = Orders
  import I = Inspections
  import F = Fuel
  import C = Crew
  import BusinessDay

  datatype Payload =
    | TripStarted(trip: T.Trip)
    | TripCompleted(trip: T.Trip)
    | InspectionSubmitted(inspection: I.Inspection)
    | FuelRecorded(record: F.Record)

  datatype JobStatus = Pending | Done | PermanentFailure

  datatype Job = Job(id: string, payload: Payload, status: JobStatus, attempts: int, nextAttemptAt: Time)

  /** A row of idempotency_keys; its response is the trip that was started. */
  datatype KeyRow = KeyRow(response: T.Trip, createdAt: Time, expiresAt: Time)

  datatype Key = Key(scope: string, key: string)

  datatype Tables = Tables(
    vehicles: map<string, V.Vehicle>,
    routes: map<string, W.Route>,
    drivers: map<string, C.Driver>,
    shifts: map<string, W.Shift>,
    trips: map<string, T.Trip>,
    orders: map<string, O.Order>,
    heads: map<string, I.Head>,
    items: map<string, I.Item>,
    fuel: map<string, F.Record>,
    keys: map<Key, KeyRow>,
    jobs: map<string, Job>)

  const EMPTY: Tables :=
    Tables(map[], map[], map[], map[], map[], map[], map[], map[], map[], map[], map[])

  function Get<R>(rows: map<string, R>, id: string): Result<R> {
    if id in rows then Ok(rows[id]) else Err(NotFound)
  }

  const VIOLATION: Error := Conflict(Constraint)
  const STALE: Error := Conflict(StaleVersion)

  function SaveVehicle(t: Tables, v: V.Vehicle, expected: int): Result<Tables> {
    if expected == 0 then
      var _ :- Need(v.id !in t.vehicles && v.capacityKg > 0 && v.odometerKm >= 0, VIOLATION);
      Ok(t.(vehicles := t.vehicles[v.id := v]))
    else
      var _ :- Need(v.id in t.vehicles && t.vehicles[v.id].version == expected, STALE);
      var _ :- Need(v.capacityKg > 0 && v.odometerKm >= 0, VIOLATION);
      Ok(t.(vehicles := t.vehicles[v.id := v]))
  }

  predicate SameRouteAndDate(a: W.Shift, b: W.Shift) {
    a.routeId == b.routeId && a.serviceDate == b.serviceDate
  }

  /** Another shift already has this route and date. */
  predicate RouteAndDateTaken(shifts: map<string, W.Shift>, sh: W.Shift) {
    exists k :: k in shifts && k != sh.id && SameRouteAndDate(shifts[k], sh)
  }

  /** A shift's route is written once; its pair of route and date is unique, which an update that keeps the
      date cannot break. */
  function SaveShift(t: Tables, sh: W.Shift, expected: int): Result<Tables> {
    if expected == 0 then
      var _ :- Need(sh.id !in t.shifts && sh.routeId in t.routes
                    && (sh.assignedVehicleId.Some? ==> sh.assignedVehicleId.value in t.vehicles)
                    && forall k :: k in t.shifts ==> !SameRouteAndDate(t.shifts[k], sh), VIOLATION);
      Ok(t.(shifts := t.shifts[sh.id := sh]))
    else
      var _ :- Need(sh.id in t.shifts && t.shifts[sh.id].version == expected, STALE);
      var row := sh.(routeId := t.shifts[sh.id].routeId);
      var _ :- Need((sh.assignedVehicleId.Some? ==> sh.assignedVehicleId.value in t.vehicles)
                    && (t.shifts[sh.id].serviceDate == sh.serviceDate || !RouteAndDateTaken(t.shifts, row)), VIOLATION);
      Ok(t.(shifts := t.shifts[sh.id := row]))
  }

  function SaveTrip(t: Tables, tr: T.Trip, expected: int): Result<Tables> {
    if expected == 0 then
      var _ :- Need(tr.id !in t.trips
                    && tr.vehicleId in t.vehicles && tr.shiftId in t.shifts && tr.driverId in t.drivers
                    && (forall k :: k in t.trips ==> t.trips[k].shiftId != tr.shiftId)
                    && (forall k :: k in t.trips ==> !(t.trips[k].vehicleId == tr.vehicleId
                                                       && t.trips[k].idempotencyKey == tr.idempotencyKey)), VIOLATION);
      Ok(t.(trips := t.trips[tr.id := tr]))
    else
      var _ :- Need(tr.id in t.trips && t.trips[tr.id].version == expected, STALE);
      var row := t.trips[tr.id];
      Ok(t.(trips := t.trips[tr.id := tr.(vehicleId := row.vehicleId, shiftId := row.shiftId,
                                          driverId := row.driverId, idempotencyKey := row.idempotencyKey)]))
  }

  function SaveMaintenance(t: Tables, o: O.Order, expected: int): Result<Tables> {
    if expected == 0 then
      var _ :- Need(o.id !in t.orders && o.vehicleId in t.vehicles, VIOLATION);
      Ok(t.(orders := t.orders[o.id := o]))
    else
      var _ :- Need(o.id in t.orders && t.orders[o.id].version == expected, STALE);
      var row := t.orders[o.id];
      Ok(t.(orders := t.orders[o.id := o.(vehicleId := row.vehicleId, openedAt := row.openedAt)]))
  }

  /** First statement of SaveInspection: the header row. */
  function SaveHead(t: Tables, h: I.Head, expected: int): Result<Tables> {
    if expected == 0 then
      var _ :- Need(h.id !in t.heads && h.vehicleId in t.vehicles && 0 <= h.score <= 100, VIOLATION);
      Ok(t.(heads := t.heads[h.id := h]))
    else
      var _ :- Need(h.id in t.heads && t.heads[h.id].version == expected, STALE);
      var _ :- Need(0 <= h.score <= 100, VIOLATION);
      Ok(t.(heads := t.heads[h.id := h.(vehicleId := t.heads[h.id].vehicleId)]))
  }

  /** Second statement of SaveInspection on an existing inspection. */
  function DeleteItems(t: Tables, inspectionId: string): Tables {
    t.(items := map k | k in t.items && t.items[k].inspectionId != inspectionId :: t.items[k])
  }

  predicate ItemFits(items: map<string, I.Item>, item: I.Item) {
    item.id !in items
    && forall k :: k in items ==> !(items[k].inspectionId == item.inspectionId && items[k].code == item.code)
  }

  /** One of the last statements of SaveInspection. */
  function InsertItem(t: Tables, item: I.Item, inspectionId: string): Result<Tables> {
    var row := item.(inspectionId := inspectionId);
    var _ :- Need(inspectionId in t.heads && ItemFits(t.items, row), VIOLATION);
    Ok(t.(items := t.items[row.id := row]))
  }

  function InsertItems(t: Tables, items: seq<I.Item>, inspectionId: string): Result<Tables>
    decreases |items|
  {
    if items == [] then Ok(t)
    else
      var t1 :- InsertItem(t, items[0], inspectionId);
      InsertItems(t1, items[1..], inspectionId)
  }

  /** All statements of SaveInspection at once, as inside a transaction. */
  function SaveInspection(t: Tables, i: I.Inspection, expected: int): Result<Tables> {
    var t1 :- SaveHead(t, i.head, expected);
    var t2 := if expected == 0 then t1 else DeleteItems(t1, i.head.id);
    InsertItems(t2, i.items, i.head.id)
  }

  /** The inserts up to the first that fails: each stands on its own outside a transaction. */
  function InsertsDone(t: Tables, items: seq<I.Item>, inspectionId: string): (done: Tables)
    ensures InsertItems(t, items, inspectionId).Ok? ==> done == InsertItems(t, items, inspectionId).value
    decreases |items|
  {
    if items == [] || InsertItem(t, items[0], inspectionId).Err? then t
    else InsertsDone(InsertItem(t, items[0], inspectionId).value, items[1..], inspectionId)
  }

  /** What the statements of SaveInspection leave behind outside a transaction, the last of them failed or not. */
  function SavedInPart(t: Tables, i: I.Inspection, expected: int): (done: Tables)
    ensures SaveInspection(t, i, expected).Ok? ==> done == SaveInspection(t, i, expected).value
  {
    var head := SaveHead(t, i.head, expected);
    if head.Err? then t
    else InsertsDone(if expected == 0 then head.value else DeleteItems(head.value, i.head.id), i.items, i.head.id)
  }

  function SaveFuel(t: Tables, r: F.Record): Result<Tables> {
    var _ :- Need(r.id !in t.fuel && r.vehicleId in t.vehicles && r.quantity > 0.0
                  && r.costCents >= 0 && r.odometerKm >= 0, VIOLATION);
    Ok(t.(fuel := t.fuel[r.id := r]))
  }

  function SaveIdempotency(t: Tables, key: Key, row: KeyRow): Result<Tables> {
    var _ :- Need(key !in t.keys, VIOLATION);
    Ok(t.(keys := t.keys[key := row]))
  }

  function Enqueue(t: Tables, id: string, payload: Payload, due: Time): Result<Tables> {
    var _ :- Need(id !in t.jobs, VIOLATION);
    Ok(t.(jobs := t.jobs[id := Job(id, payload, Pending, 0, due)]))
  }

  /** The worker's updates of a job: its new status, its attempts, and if it is to be retried, when. */
  function Marked(jobs: map<string, Job>, id: string, status: JobStatus, more: int,
                  next: Option<Time>): map<string, Job> {
    if id in jobs then
      var job := jobs[id];
      jobs[id := job.(status := status, attempts := job.attempts + more,
                      nextAttemptAt := if next.Some? then next.value else job.nextAttemptAt)]
    else jobs
  }

  // ---------------------------------------------------------------------------------------
  // Reads
  // ---------------------------------------------------------------------------------------

  /** ActiveMaintenanceForVehicle, of which the callers use only whether there is one. */
  predicate HasActiveOrder(orders: map<string, O.Order>, vehicleId: string) {
    exists k :: k in orders && orders[k].vehicleId == vehicleId && orders[k].Active()
  }

  /** A result of FindTripByKey. */
  predicate IsTripByKey(trips: map<string, T.Trip>, vehicleId: string, key: string, found: Option<T.Trip>) {
    match found
    case None => forall k :: k in trips ==> !(trips[k].vehicleId == vehicleId && trips[k].idempotencyKey == key)
    case Some(tr) => tr.id in trips && trips[tr.id] == tr && tr.vehicleId == vehicleId && tr.idempotencyKey == key
  }

  ghost predicate DistinctIds(rows: seq<W.Shift>) {
    forall i, j :: 0 <= i < j < |rows| ==> rows[i].id != rows[j].id
  }

  /** The result set of ListShifts for a date, all pages in a row: every shift of the date once, in
      some order of start. */
  ghost predicate IsListing(shifts: map<string, W.Shift>, date: BusinessDay.ServiceDate, rows: seq<W.Shift>) {
    && DistinctIds(rows)
    && (forall i :: 0 <= i < |rows|
          ==> rows[i].id in shifts && shifts[rows[i].id] == rows[i] && rows[i].serviceDate == date)
    && (forall k :: k in shifts && shifts[k].serviceDate == date ==> shifts[k] in rows)
    && (forall i, j :: 0 <= i < j < |rows| ==> rows[i].startAt <= rows[j].startAt)
  }

  function StartedWithin(trips: map<string, T.Trip>, from: Time, to: Time): map<string, T.Trip> {
    map k | k in trips && trips[k].startedAt.Some? && from <= trips[k].startedAt.value < to :: trips[k]
  }

  /** The result set of ListTrips for some of the trips: each once, in any order. */
  ghost predicate IsTripList(trips: map<string, T.Trip>, rows: seq<T.Trip>) {
    && (forall i, j :: 0 <= i < j < |rows| ==> rows[i].id != rows[j].id)
    && (forall i :: 0 <= i < |rows| ==> rows[i].id in trips && trips[rows[i].id] == rows[i])
    && (forall k :: k in trips ==> trips[k] in rows)
  }

  /** A result of LatestInspectionForVehicle; where instants tie, any of the latest. */
  ghost predicate IsLatest(heads: map<string, I.Head>, vehicleId: string, found: Option<I.Head>) {
    match found
    case None => forall k :: k in heads ==> heads[k].vehicleId != vehicleId
    case Some(h) =>
      && h.id in heads && heads[h.id] == h && h.vehicleId == vehicleId
      && forall k :: k in heads && heads[k].vehicleId == vehicleId ==> heads[k].inspectedAt <= h.inspectedAt
  }

  predicate Due(job: Job, now: Time) {
    job.status == Pending && job.nextAttemptAt <= now
  }

  ghost predicate DistinctJobs(rows: seq<Job>) {
    forall i, j :: 0 <= i < j < |rows| ==> rows[i].id != rows[j].id
  }

  /** A result of ClaimDue: due jobs, the longest due first, and none left out while there is room. */
  ghost predicate IsClaim(jobs: map<string, Job>, now: Time, limit: nat, rows: seq<Job>) {
    && |rows| <= limit && DistinctJobs(rows)
    && (forall i :: 0 <= i < |rows| ==> rows[i].id in jobs && jobs[rows[i].id] == rows[i] && Due(rows[i], now))
    && (forall i, j :: 0 <= i < j < |rows| ==> rows[i].nextAttemptAt <= rows[j].nextAttemptAt)
    && (forall k :: k in jobs && Due(jobs[k], now) ==>
          jobs[k] in rows
          || (|rows| == limit && forall i :: 0 <= i < |rows| ==> rows[i].nextAttemptAt <= jobs[k].nextAttemptAt))
  }

  /** The items of an inspection as loaded: its rows in order of code. */
  ghost predicate IsItemList(items: map<string, I.Item>, inspectionId: string, list: seq<I.Item>) {
    && I.Ordered(list)
    && forall x: I.Item :: x in list <==> x.id in items && items[x.id] == x && x.inspectionId == inspectionId
  }

  /** UNIQUE(inspection_id, item_code). */
  ghost predicate CodesUnique(items: map<string, I.Item>) {
    forall a, b :: (a in items && b in items && items[a].inspectionId == items[b].inspectionId
                    && items[a].code == items[b].code) ==> a == b
  }

  /** Every table is keyed by the id column of its rows. */
  ghost predicate Keyed(t: Tables) {
    && (forall k :: k in t.vehicles ==> t.vehicles[k].id == k)
    && (forall k :: k in t.shifts ==> t.shifts[k].id == k)
    && (forall k :: k in t.trips ==> t.trips[k].id == k)
    && (forall k :: k in t.orders ==> t.orders[k].id == k)
    && (forall k :: k in t.heads ==> t.heads[k].id == k)
    && (forall k :: k in t.items ==> t.items[k].id == k)
    && CodesUnique(t.items)
  }

  // ---------------------------------------------------------------------------------------
  // Saves that go through
  // ---------------------------------------------------------------------------------------

  lemma VehicleUpdates(t: Tables, v: V.Vehicle, expected: int)
    requires expected >= 1 && v.capacityKg > 0 && v.odometerKm >= 0
    ensures SaveVehicle(t, v, expected) ==
      if v.id in t.vehicles && t.vehicles[v.id].version == expected
      then Ok(t.(vehicles := t.vehicles[v.id := v])) else Err(STALE)
  {
  }

  lemma ShiftUpdates(t: Tables, s: W.Shift, expected: int)
    requires expected >= 1 && (s.assignedVehicleId.Some? ==> s.assignedVehicleId.value in t.vehicles)
    requires s.id in t.shifts && t.shifts[s.id].version == expected
    requires t.shifts[s.id].routeId == s.routeId && t.shifts[s.id].serviceDate == s.serviceDate
    ensures SaveShift(t, s, expected) == Ok(t.(shifts := t.shifts[s.id := s]))
  {
  }

  /** A save writes its own table only. */
  lemma VehicleSavesElsewhere(t: Tables, v: V.Vehicle, expected: int)
    requires SaveVehicle(t, v, expected).Ok?
    ensures SaveVehicle(t, v, expected).value == t.(vehicles := t.vehicles[v.id := v])
  {
  }

  lemma ShiftSavesElsewhere(t: Tables, s: W.Shift, expected: int)
    requires SaveShift(t, s, expected).Ok?
    ensures expected == 0 || s.id in t.shifts
    ensures SaveShift(t, s, expected).value ==
      t.(shifts := t.shifts[s.id := if expected == 0 then s else s.(routeId := t.shifts[s.id].routeId)])
  {
    hide SameRouteAndDate, RouteAndDateTaken;
  }

  lemma TripInserts(t: Tables, tr: T.Trip)
    requires tr.id !in t.trips && tr.vehicleId in t.vehicles && tr.shiftId in t.shifts && tr.driverId in t.drivers
    requires forall k :: k in t.trips ==> t.trips[k].shiftId != tr.shiftId
    requires IsTripByKey(t.trips, tr.vehicleId, tr.idempotencyKey, None)
    ensures SaveTrip(t, tr, 0) == Ok(t.(trips := t.trips[tr.id := tr]))
  {
  }
}
