/** The constraints of the schema (internal/storage/sqlite/schema.sql), as they hold of whole tables, and that the
    saves enforce exactly these. */
module Constraints {
  import opened Basics
  import opened Schema
  import V = Vehicles
  import W = Workplan
  import T = Trips
  import O = Orders
  import I = Inspections
  import F = Fuel
  import C = Crew

  /** Every row has the key of its table, every reference its row, every checked column a legal value, and no two
      rows share what is unique. */
  ghost predicate Conforms(t: Tables) {
    && VehiclesFit(t.vehicles) && ShiftsFit(t.shifts, t.routes, t.vehicles)
    && TripsFit(t.trips, t.vehicles, t.shifts, t.drivers) && OrdersFit(t.orders, t.vehicles)
    && HeadsFit(t.heads, t.vehicles) && ItemsFit(t.items, t.heads) && FuelFits(t.fuel, t.vehicles)
  }

  ghost predicate VehiclesFit(vehicles: map<string, V.Vehicle>) {
    forall k :: k in vehicles ==> vehicles[k].id == k && vehicles[k].capacityKg > 0 && vehicles[k].odometerKm >= 0
  }

  ghost predicate ShiftsFit(shifts: map<string, W.Shift>, routes: map<string, W.Route>,
                            vehicles: map<string, V.Vehicle>)
  {
    && (forall k :: k in shifts ==>
          && shifts[k].id == k && shifts[k].routeId in routes
          && (shifts[k].assignedVehicleId == None || shifts[k].assignedVehicleId.value in vehicles))
    && forall a, b :: a in shifts && b in shifts && a != b ==>
      shifts[a].routeId != shifts[b].routeId || shifts[a].serviceDate != shifts[b].serviceDate
  }

  ghost predicate TripsFit(trips: map<string, T.Trip>, vehicles: map<string, V.Vehicle>, shifts: map<string, W.Shift>,
                           drivers: map<string, C.Driver>)
  {
    && (forall k :: k in trips ==>
          && trips[k].id == k && trips[k].vehicleId in vehicles && trips[k].shiftId in shifts
          && trips[k].driverId in drivers)
    && (forall a, b :: a in trips && b in trips && a != b ==> trips[a].shiftId != trips[b].shiftId)
    && forall a, b :: a in trips && b in trips && a != b ==>
      trips[a].vehicleId != trips[b].vehicleId || trips[a].idempotencyKey != trips[b].idempotencyKey
  }

  ghost predicate OrdersFit(orders: map<string, O.Order>, vehicles: map<string, V.Vehicle>) {
    forall k :: k in orders ==> orders[k].id == k && orders[k].vehicleId in vehicles
  }

  ghost predicate HeadsFit(heads: map<string, I.Head>, vehicles: map<string, V.Vehicle>) {
    forall k :: k in heads ==> heads[k].id == k && heads[k].vehicleId in vehicles && 0 <= heads[k].score <= 100
  }

  ghost predicate ItemsFit(items: map<string, I.Item>, heads: map<string, I.Head>) {
    && (forall k :: k in items ==> items[k].id == k && items[k].inspectionId in heads)
    && forall a, b :: a in items && b in items && a != b ==>
      items[a].inspectionId != items[b].inspectionId || items[a].code != items[b].code
  }

  ghost predicate FuelFits(fuel: map<string, F.Record>, vehicles: map<string, V.Vehicle>) {
    forall k :: k in fuel ==>
      && fuel[k].id == k && fuel[k].vehicleId in vehicles && fuel[k].quantity > 0.0
      && fuel[k].costCents >= 0 && fuel[k].odometerKm >= 0
  }

  /** A save goes through exactly if its condition on the key holds and the tables still conform after it; and
      then it writes just that. An update that does not find its version is stale; what else is refused would
      violate a constraint. */
  ghost predicate Enforces(r: Result<Tables>, update: bool, allowed: bool, after: Tables) {
    && (r.Ok? <==> allowed && Conforms(after))
    && (r.Ok? ==> r.value == after)
    && (r.Err? ==> r.error == Conflict(if update && !allowed then StaleVersion else Constraint))
  }

  /** Inserts take a new key; updates take the row whose version they expect. */
  ghost predicate Allowed<R>(rows: map<string, R>, version: R -> int, id: string, expected: int) {
    if expected == 0 then id !in rows else id in rows && version(rows[id]) == expected
  }

  lemma VehicleSaves(t: Tables, v: V.Vehicle, expected: int)
    requires Conforms(t)
    ensures Enforces(SaveVehicle(t, v, expected), expected != 0,
                     Allowed(t.vehicles, (row: V.Vehicle) => row.version, v.id, expected),
                     t.(vehicles := t.vehicles[v.id := v]))
  {
    var after := t.(vehicles := t.vehicles[v.id := v]);
    assert v.id in after.vehicles && after.vehicles[v.id] == v;
  }

  /** The route of a shift is written once, when it is inserted. */
  ghost function ShiftRow(t: Tables, s: W.Shift, expected: int): W.Shift {
    if expected != 0 && s.id in t.shifts then s.(routeId := t.shifts[s.id].routeId) else s
  }

  lemma ShiftSaves(t: Tables, s: W.Shift, expected: int)
    requires Conforms(t)
    ensures Enforces(SaveShift(t, s, expected), expected != 0,
                     Allowed(t.shifts, (row: W.Shift) => row.version, s.id, expected),
                     t.(shifts := t.shifts[s.id := ShiftRow(t, s, expected)]))
  {
    hide VehiclesFit, OrdersFit, HeadsFit, ItemsFit, FuelFits;
    var row := ShiftRow(t, s, expected);
    NoTwoShifts(t, row);
    MoreShifts(t.trips, t.vehicles, t.shifts, t.shifts[s.id := row], t.drivers);
    ShiftSaveIs(t, s, expected);
    hide ShiftsFit, TripsFit, SaveShift, RouteAndDateTaken;
  }

  lemma ShiftSaveIs(t: Tables, s: W.Shift, expected: int)
    ensures var row := ShiftRow(t, s, expected);
      && (SaveShift(t, s, expected).Ok? <==>
            && Allowed(t.shifts, (r: W.Shift) => r.version, s.id, expected)
            && (expected == 0 ==> s.routeId in t.routes)
            && (s.assignedVehicleId == None || s.assignedVehicleId.value in t.vehicles)
            && ((s.id in t.shifts && SameRouteAndDate(t.shifts[s.id], row)) || !RouteAndDateTaken(t.shifts, row)))
      && (SaveShift(t, s, expected).Ok? ==>
            SaveShift(t, s, expected).value == t.(shifts := t.shifts[s.id := row]))
      && (SaveShift(t, s, expected).Err? ==>
            SaveShift(t, s, expected).error ==
              Conflict(if expected != 0 && !(s.id in t.shifts && t.shifts[s.id].version == expected)
                       then StaleVersion else Constraint))
  {
    if expected == 0 && s.id !in t.shifts {
      assert RouteAndDateTaken(t.shifts, s) <==> exists k :: k in t.shifts && SameRouteAndDate(t.shifts[k], s);
    }
  }

  lemma NoTwoShifts(t: Tables, row: W.Shift)
    requires ShiftsFit(t.shifts, t.routes, t.vehicles)
    ensures ShiftsFit(t.shifts[row.id := row], t.routes, t.vehicles) <==>
      && row.routeId in t.routes && (row.assignedVehicleId == None || row.assignedVehicleId.value in t.vehicles)
      && !RouteAndDateTaken(t.shifts, row)
    ensures row.id in t.shifts && SameRouteAndDate(t.shifts[row.id], row) ==> !RouteAndDateTaken(t.shifts, row)
    ensures row.id in t.shifts ==> t.shifts[row.id].routeId in t.routes
  {
    var after := t.shifts[row.id := row];
    assert row.id in after && after[row.id] == row;
    if RouteAndDateTaken(t.shifts, row) {
      var k :| k in t.shifts && k != row.id && SameRouteAndDate(t.shifts[k], row);
      assert k in after && after[k] == t.shifts[k];
    }
  }

  /** What a trip refers to is written once, when it is inserted. */
  ghost function TripRow(t: Tables, tr: T.Trip, expected: int): T.Trip {
    if expected != 0 && tr.id in t.trips then
      var stored := t.trips[tr.id];
      tr.(vehicleId := stored.vehicleId, shiftId := stored.shiftId, driverId := stored.driverId,
          idempotencyKey := stored.idempotencyKey)
    else tr
  }

  lemma TripSaves(t: Tables, tr: T.Trip, expected: int)
    requires Conforms(t)
    ensures Enforces(SaveTrip(t, tr, expected), expected != 0,
                     Allowed(t.trips, (row: T.Trip) => row.version, tr.id, expected),
                     t.(trips := t.trips[tr.id := TripRow(t, tr, expected)]))
  {
    hide VehiclesFit, ShiftsFit, OrdersFit, HeadsFit, ItemsFit, FuelFits;
    var row := TripRow(t, tr, expected);
    TripFits(t, row);
    hide TripsFit;
  }

  ghost predicate Clashes(trips: map<string, T.Trip>, row: T.Trip) {
    exists k :: k in trips && k != row.id
                && (trips[k].shiftId == row.shiftId
                    || (trips[k].vehicleId == row.vehicleId && trips[k].idempotencyKey == row.idempotencyKey))
  }

  lemma TripFits(t: Tables, row: T.Trip)
    requires TripsFit(t.trips, t.vehicles, t.shifts, t.drivers)
    ensures TripsFit(t.trips[row.id := row], t.vehicles, t.shifts, t.drivers) <==>
      row.vehicleId in t.vehicles && row.shiftId in t.shifts && row.driverId in t.drivers && !Clashes(t.trips, row)
    ensures row.id in t.trips && row == row.(vehicleId := t.trips[row.id].vehicleId, shiftId := t.trips[row.id].shiftId,
                                             driverId := t.trips[row.id].driverId,
                                             idempotencyKey := t.trips[row.id].idempotencyKey) ==>
      TripsFit(t.trips[row.id := row], t.vehicles, t.shifts, t.drivers)
  {
    var after := t.trips[row.id := row];
    assert row.id in after && after[row.id] == row;
    if Clashes(t.trips, row) {
      var k :| k in t.trips && k != row.id
               && (t.trips[k].shiftId == row.shiftId
                   || (t.trips[k].vehicleId == row.vehicleId && t.trips[k].idempotencyKey == row.idempotencyKey));
      assert k in after && after[k] == t.trips[k];
    }
  }

  lemma OrderSaves(t: Tables, o: O.Order, expected: int)
    requires Conforms(t)
    ensures var row := if expected != 0 && o.id in t.orders
                       then o.(vehicleId := t.orders[o.id].vehicleId, openedAt := t.orders[o.id].openedAt) else o;
            Enforces(SaveMaintenance(t, o, expected), expected != 0,
                     Allowed(t.orders, (row: O.Order) => row.version, o.id, expected),
                     t.(orders := t.orders[o.id := row]))
  {
    var row := if expected != 0 && o.id in t.orders
               then o.(vehicleId := t.orders[o.id].vehicleId, openedAt := t.orders[o.id].openedAt) else o;
    OrderFits(t, row);
    hide VehiclesFit, ShiftsFit, TripsFit, OrdersFit, HeadsFit, ItemsFit, FuelFits;
  }

  lemma OrderFits(t: Tables, row: O.Order)
    requires OrdersFit(t.orders, t.vehicles)
    ensures OrdersFit(t.orders[row.id := row], t.vehicles) <==> row.vehicleId in t.vehicles
    ensures row.id in t.orders ==> t.orders[row.id].vehicleId in t.vehicles
  {
    var after := t.orders[row.id := row];
    assert row.id in after && after[row.id] == row;
  }

  lemma HeadFits(t: Tables, row: I.Head)
    requires HeadsFit(t.heads, t.vehicles)
    ensures HeadsFit(t.heads[row.id := row], t.vehicles) <==> row.vehicleId in t.vehicles && 0 <= row.score <= 100
    ensures row.id in t.heads ==> t.heads[row.id].vehicleId in t.vehicles
  {
    var after := t.heads[row.id := row];
    assert row.id in after && after[row.id] == row;
  }

  lemma MoreHeads(items: map<string, I.Item>, a: map<string, I.Head>, b: map<string, I.Head>)
    requires ItemsFit(items, a) && a.Keys <= b.Keys
    ensures ItemsFit(items, b)
  {
  }

  lemma MoreShifts(trips: map<string, T.Trip>, vehicles: map<string, V.Vehicle>, a: map<string, W.Shift>,
                   b: map<string, W.Shift>, drivers: map<string, C.Driver>)
    requires TripsFit(trips, vehicles, a, drivers) && a.Keys <= b.Keys
    ensures TripsFit(trips, vehicles, b, drivers)
  {
  }

  lemma HeadSaves(t: Tables, h: I.Head, expected: int)
    requires Conforms(t)
    ensures var row := if expected != 0 && h.id in t.heads then h.(vehicleId := t.heads[h.id].vehicleId) else h;
            Enforces(SaveHead(t, h, expected), expected != 0,
                     Allowed(t.heads, (row: I.Head) => row.version, h.id, expected),
                     t.(heads := t.heads[h.id := row]))
  {
    var row := if expected != 0 && h.id in t.heads then h.(vehicleId := t.heads[h.id].vehicleId) else h;
    MoreHeads(t.items, t.heads, t.heads[h.id := row]);
    HeadFits(t, row);
    hide VehiclesFit, ShiftsFit, TripsFit, OrdersFit, FuelFits, ItemsFit, HeadsFit;
  }

  lemma ItemInserts(t: Tables, item: I.Item, id: string)
    requires Conforms(t)
    ensures var row := item.(inspectionId := id);
            Enforces(InsertItem(t, item, id), false, item.id !in t.items, t.(items := t.items[item.id := row]))
  {
    hide VehiclesFit, ShiftsFit, TripsFit, OrdersFit, HeadsFit, FuelFits;
    var row := item.(inspectionId := id);
    var after := t.(items := t.items[item.id := row]);
    assert row.id in after.items && after.items[row.id] == row;
    if item.id !in t.items && ItemsFit(after.items, t.heads) {
      forall k | k in t.items ensures !(t.items[k].inspectionId == id && t.items[k].code == item.code) {
        assert k in after.items && after.items[k] == t.items[k];
      }
    }
  }

  lemma FuelInserts(t: Tables, r: F.Record)
    requires Conforms(t)
    ensures Enforces(SaveFuel(t, r), false, r.id !in t.fuel, t.(fuel := t.fuel[r.id := r]))
  {
    hide VehiclesFit, ShiftsFit, TripsFit, OrdersFit, HeadsFit, ItemsFit;
    var after := t.(fuel := t.fuel[r.id := r]);
    assert r.id in after.fuel && after.fuel[r.id] == r;
  }
}
