/** The SQLite store (internal/storage/sqlite): one connection, so a transaction runs alone, works on
    the tables in place, and puts them back when it is rolled back. */
module Storage {
  import opened Basics
  import opened Schema
  import V = Vehicles
  import W = Workplan
  import T = Trips
  import O = Orders
  import I = Inspections
  import F = Fuel
  import C = Crew
  import BusinessDay
  import Sorting
  import TextOrder

  /** A write did what the table function says, or failed as it says and changed nothing. */
  predicate Wrote(intended: Result<Tables>, before: Tables, after: Tables, r: Check) {
    match intended
    case Ok(t) => r == PASS && after == t
    case Err(e) => r == Err(e) && after == before
  }

  /** Tables put back column by column are the tables. */
  lemma Rebuilt(b: Tables)
    ensures Tables(b.vehicles, b.routes, b.drivers, b.shifts, b.trips, b.orders, b.heads, b.items, b.fuel, b.keys,
                   b.jobs) == b
  {
  }

  class Store {
    var vehicles: map<string, V.Vehicle>
    var routes: map<string, W.Route>
    var drivers: map<string, C.Driver>
    var shifts: map<string, W.Shift>
    var trips: map<string, T.Trip>
    var orders: map<string, O.Order>
    var heads: map<string, I.Head>
    var items: map<string, I.Item>
    var fuel: map<string, F.Record>
    var keys: map<Key, KeyRow>
    var jobs: map<string, Job>
    /** What a rollback returns to. */
    var begun: Tables

    constructor ()
      ensures View() == EMPTY
    {
      vehicles, routes, drivers, shifts, trips, orders := map[], map[], map[], map[], map[], map[];
      heads, items, fuel, keys, jobs := map[], map[], map[], map[], map[];
      begun := EMPTY;
    }

    function View(): Tables
      reads this
    {
      Tables(vehicles, routes, drivers, shifts, trips, orders, heads, items, fuel, keys, jobs)
    }

    method Begin()
      modifies this`begun
      ensures begun == View()
    {
      begun := View();
    }

    method Rollback()
      modifies this
      ensures View() == old(begun)
    {
      var b := begun;
      vehicles, routes, drivers := b.vehicles, b.routes, b.drivers;
      shifts, trips, orders := b.shifts, b.trips, b.orders;
      heads, items, fuel := b.heads, b.items, b.fuel;
      keys, jobs := b.keys, b.jobs;
      Rebuilt(b);
    }

    method SaveVehicle(v: V.Vehicle, expected: int) returns (r: Check)
      modifies this
      ensures Wrote(Schema.SaveVehicle(old(View()), v, expected), old(View()), View(), r)
      ensures begun == old(begun)
    {
      if expected == 0 {
        if v.id in vehicles || v.capacityKg <= 0 || v.odometerKm < 0 {
          return Err(VIOLATION);
        }
      } else {
        if v.id !in vehicles || vehicles[v.id].version != expected {
          return Err(STALE);
        }
        if v.capacityKg <= 0 || v.odometerKm < 0 {
          return Err(VIOLATION);
        }
      }
      vehicles := vehicles[v.id := v];
      r := PASS;
    }

    method SaveShift(sh: W.Shift, expected: int) returns (r: Check)
      modifies this
      ensures Wrote(Schema.SaveShift(old(View()), sh, expected), old(View()), View(), r)
      ensures begun == old(begun)
    {
      if expected != 0 && (sh.id !in shifts || shifts[sh.id].version != expected) {
        return Err(STALE);
      }
      if sh.assignedVehicleId.Some? && sh.assignedVehicleId.value !in vehicles {
        return Err(VIOLATION);
      }
      if expected == 0 {
        if sh.id in shifts || sh.routeId !in routes
           || exists k :: k in shifts && SameRouteAndDate(shifts[k], sh) {
          return Err(VIOLATION);
        }
        shifts := shifts[sh.id := sh];
      } else {
        var row := sh.(routeId := shifts[sh.id].routeId);
        if shifts[sh.id].serviceDate != sh.serviceDate && RouteAndDateTaken(shifts, row) {
          return Err(VIOLATION);
        }
        shifts := shifts[sh.id := row];
      }
      r := PASS;
    }

    method SaveTrip(tr: T.Trip, expected: int) returns (r: Check)
      modifies this
      ensures Wrote(Schema.SaveTrip(old(View()), tr, expected), old(View()), View(), r)
      ensures begun == old(begun)
    {
      if expected == 0 {
        if tr.id in trips || tr.vehicleId !in vehicles || tr.shiftId !in shifts || tr.driverId !in drivers {
          return Err(VIOLATION);
        }
        if exists k :: k in trips && trips[k].shiftId == tr.shiftId {
          return Err(VIOLATION);
        }
        if exists k :: k in trips && trips[k].vehicleId == tr.vehicleId
            && trips[k].idempotencyKey == tr.idempotencyKey {
          return Err(VIOLATION);
        }
        trips := trips[tr.id := tr];
      } else {
        if tr.id !in trips || trips[tr.id].version != expected {
          return Err(STALE);
        }
        var row := trips[tr.id];
        trips := trips[tr.id := tr.(vehicleId := row.vehicleId, shiftId := row.shiftId,
                                    driverId := row.driverId, idempotencyKey := row.idempotencyKey)];
      }
      r := PASS;
    }

    method SaveMaintenance(o: O.Order, expected: int) returns (r: Check)
      modifies this
      ensures Wrote(Schema.SaveMaintenance(old(View()), o, expected), old(View()), View(), r)
      ensures begun == old(begun)
    {
      if expected == 0 {
        if o.id in orders || o.vehicleId !in vehicles {
          return Err(VIOLATION);
        }
        orders := orders[o.id := o];
      } else {
        if o.id !in orders || orders[o.id].version != expected {
          return Err(STALE);
        }
        orders := orders[o.id := o.(vehicleId := orders[o.id].vehicleId, openedAt := orders[o.id].openedAt)];
      }
      r := PASS;
    }

    method SaveHead(h: I.Head, expected: int) returns (r: Check)
      modifies this
      ensures Wrote(Schema.SaveHead(old(View()), h, expected), old(View()), View(), r)
      ensures begun == old(begun)
    {
      if expected == 0 {
        if h.id in heads || h.vehicleId !in vehicles || h.score < 0 || h.score > 100 {
          return Err(VIOLATION);
        }
        heads := heads[h.id := h];
      } else {
        if h.id !in heads || heads[h.id].version != expected {
          return Err(STALE);
        }
        if h.score < 0 || h.score > 100 {
          return Err(VIOLATION);
        }
        heads := heads[h.id := h.(vehicleId := heads[h.id].vehicleId)];
      }
      r := PASS;
    }

    method DeleteItems(inspectionId: string)
      modifies this
      ensures View() == Schema.DeleteItems(old(View()), inspectionId)
      ensures begun == old(begun)
    {
      items := map k | k in items && items[k].inspectionId != inspectionId :: items[k];
    }

    method InsertItem(item: I.Item, inspectionId: string) returns (r: Check)
      modifies this
      ensures Wrote(Schema.InsertItem(old(View()), item, inspectionId), old(View()), View(), r)
      ensures begun == old(begun)
    {
      var row := item.(inspectionId := inspectionId);
      if inspectionId !in heads || row.id in items
         || exists k :: k in items && items[k].inspectionId == row.inspectionId && items[k].code == row.code {
        return Err(VIOLATION);
      }
      items := items[row.id := row];
      r := PASS;
    }

    /** SaveInspection: header, delete, one insert per item. A failing statement leaves the earlier
        ones done; only a surrounding transaction undoes them. */
    method SaveInspection(i: I.Inspection, expected: int) returns (r: Check)
      modifies this
      ensures begun == old(begun)
      ensures match Schema.SaveInspection(old(View()), i, expected)
              case Ok(t) => r == PASS && View() == t
              case Err(e) => r == Err(e)
      ensures View() == Schema.SavedInPart(old(View()), i, expected)
    {
      r := SaveHead(i.head, expected);
      if r.Err? {
        return;
      }
      if expected != 0 {
        DeleteItems(i.head.id);
      }
      ghost var ready := View();
      for k := 0 to |i.items|
        invariant begun == old(begun)
        invariant InsertsDone(ready, i.items, i.head.id) == InsertsDone(View(), i.items[k..], i.head.id)
        invariant InsertItems(ready, i.items, i.head.id) == InsertItems(View(), i.items[k..], i.head.id)
      {
        assert i.items[k..][1..] == i.items[k + 1..];
        r := InsertItem(i.items[k], i.head.id);
        if r.Err? {
          return;
        }
      }
      assert i.items[|i.items|..] == [];
      r := PASS;
    }

    method SaveFuel(record: F.Record) returns (r: Check)
      modifies this
      ensures Wrote(Schema.SaveFuel(old(View()), record), old(View()), View(), r)
      ensures begun == old(begun)
    {
      if record.id in fuel || record.vehicleId !in vehicles || record.quantity <= 0.0
         || record.costCents < 0 || record.odometerKm < 0 {
        return Err(VIOLATION);
      }
      fuel := fuel[record.id := record];
      r := PASS;
    }

    method SaveIdempotency(key: Key, row: KeyRow) returns (r: Check)
      modifies this
      ensures Wrote(Schema.SaveIdempotency(old(View()), key, row), old(View()), View(), r)
      ensures begun == old(begun)
    {
      if key in keys {
        return Err(VIOLATION);
      }
      keys := keys[key := row];
      r := PASS;
    }

    method Enqueue(id: string, payload: Payload, due: Time) returns (r: Check)
      modifies this
      ensures Wrote(Schema.Enqueue(old(View()), id, payload, due), old(View()), View(), r)
      ensures begun == old(begun)
    {
      if id in jobs {
        return Err(VIOLATION);
      }
      jobs := jobs[id := Job(id, payload, Pending, 0, due)];
      r := PASS;
    }

    method MarkJobDone(id: string)
      modifies this`jobs
      ensures jobs == Marked(old(jobs), id, Done, 0, None)
      ensures jobs == if id in old(jobs) then old(jobs)[id := old(jobs)[id].(status := Done)] else old(jobs)
    {
      if id in jobs {
        jobs := jobs[id := jobs[id].(status := Done)];
      }
    }

    method MarkJobRetry(id: string, next: Time)
      modifies this`jobs
      ensures jobs == Marked(old(jobs), id, Pending, 1, Some(next))
      ensures jobs == if id in old(jobs)
                      then old(jobs)[id := old(jobs)[id].(status := Pending, attempts := old(jobs)[id].attempts + 1,
                                                          nextAttemptAt := next)]
                      else old(jobs)
    {
      if id in jobs {
        jobs := jobs[id := jobs[id].(status := Pending, attempts := jobs[id].attempts + 1, nextAttemptAt := next)];
      }
    }

    method MarkJobPermanent(id: string)
      modifies this`jobs
      ensures jobs == Marked(old(jobs), id, PermanentFailure, 1, None)
      ensures jobs == if id in old(jobs)
                      then old(jobs)[id := old(jobs)[id].(status := PermanentFailure,
                                                          attempts := old(jobs)[id].attempts + 1)]
                      else old(jobs)
    {
      if id in jobs {
        jobs := jobs[id := jobs[id].(status := PermanentFailure, attempts := jobs[id].attempts + 1)];
      }
    }

    // -------------------------------------------------------------------------------------
    // Queries
    // -------------------------------------------------------------------------------------

    method FindTripByKey(vehicleId: string, key: string) returns (found: Option<T.Trip>)
      requires forall k :: k in trips ==> trips[k].id == k
      ensures IsTripByKey(trips, vehicleId, key, found)
      ensures found == None <==>
        forall k :: k in trips ==> trips[k].vehicleId != vehicleId || trips[k].idempotencyKey != key
      ensures found.Some? ==>
        found.value.id in trips && trips[found.value.id] == found.value
        && found.value.vehicleId == vehicleId && found.value.idempotencyKey == key
    {
      var todo := trips.Keys;
      while todo != {}
        invariant todo <= trips.Keys
        invariant forall k :: k in trips && k !in todo ==>
          !(trips[k].vehicleId == vehicleId && trips[k].idempotencyKey == key)
        decreases todo
      {
        var k :| k in todo;
        if trips[k].vehicleId == vehicleId && trips[k].idempotencyKey == key {
          return Some(trips[k]);
        }
        todo := todo - {k};
      }
      found := None;
    }

    method ActiveMaintenanceForVehicle(vehicleId: string) returns (active: bool)
      ensures active <==> HasActiveOrder(orders, vehicleId)
      ensures active <==>
        exists k :: k in orders && orders[k].vehicleId == vehicleId && orders[k].status in {O.Open, O.InProgress}
    {
      var todo := orders.Keys;
      while todo != {}
        invariant todo <= orders.Keys
        invariant forall k :: k in orders && k !in todo ==> !(orders[k].vehicleId == vehicleId && orders[k].Active())
        decreases todo
      {
        var k :| k in todo;
        if orders[k].vehicleId == vehicleId && orders[k].Active() {
          return true;
        }
        todo := todo - {k};
      }
      active := false;
    }

    method LatestInspectionForVehicle(vehicleId: string) returns (found: Option<I.Head>)
      requires forall k :: k in heads ==> heads[k].id == k
      ensures IsLatest(heads, vehicleId, found)
      ensures found == None <==> forall k :: k in heads ==> heads[k].vehicleId != vehicleId
      ensures found.Some? ==>
        && found.value.id in heads && heads[found.value.id] == found.value && found.value.vehicleId == vehicleId
        && forall k :: k in heads && heads[k].vehicleId == vehicleId ==> heads[k].inspectedAt <= found.value.inspectedAt
    {
      found := None;
      var todo := heads.Keys;
      while todo != {}
        invariant todo <= heads.Keys
        invariant found == None ==> forall k :: k in heads && k !in todo ==> heads[k].vehicleId != vehicleId
        invariant found.Some? ==>
          && found.value.id in heads && heads[found.value.id] == found.value && found.value.vehicleId == vehicleId
          && forall k :: k in heads && k !in todo && heads[k].vehicleId == vehicleId ==>
            heads[k].inspectedAt <= found.value.inspectedAt
        decreases todo
      {
        var k :| k in todo;
        if heads[k].vehicleId == vehicleId && (found == None || heads[k].inspectedAt > found.value.inspectedAt) {
          found := Some(heads[k]);
        }
        todo := todo - {k};
      }
    }

    /** All pages of ListShifts for one date. */
    method ListShifts(date: BusinessDay.ServiceDate) returns (rows: seq<W.Shift>)
      requires forall k :: k in shifts ==> shifts[k].id == k
      ensures IsListing(shifts, date, rows)
      ensures forall i, j :: 0 <= i < j < |rows| ==> rows[i].id != rows[j].id && rows[i].startAt <= rows[j].startAt
      ensures forall s :: s in rows <==> s.id in shifts && shifts[s.id] == s && s.serviceDate == date
    {
      var found: seq<W.Shift> := [];
      var todo := shifts.Keys;
      while todo != {}
        invariant todo <= shifts.Keys
        invariant DistinctIds(found)
        invariant forall i :: 0 <= i < |found| ==>
          found[i].id in shifts && found[i].id !in todo && shifts[found[i].id] == found[i]
          && found[i].serviceDate == date
        invariant forall k :: k in shifts && k !in todo && shifts[k].serviceDate == date ==> shifts[k] in found
        decreases todo
      {
        var k :| k in todo;
        if shifts[k].serviceDate == date {
          found := found + [shifts[k]];
        }
        todo := todo - {k};
      }
      rows := Sorting.Sort(found, StartsEarlier);
      SortedListing(shifts, date, found, rows);
    }

    /** All pages of ListTrips for a range of starts. */
    method ListTrips(from: Time, to: Time) returns (rows: seq<T.Trip>)
      requires forall k :: k in trips ==> trips[k].id == k
      ensures IsTripList(StartedWithin(trips, from, to), rows)
      ensures forall i, j :: 0 <= i < j < |rows| ==> rows[i].id != rows[j].id
      ensures forall tr :: tr in rows <==>
        tr.id in trips && trips[tr.id] == tr && tr.startedAt.Some? && from <= tr.startedAt.value < to
    {
      rows := [];
      var wanted := StartedWithin(trips, from, to);
      var todo := wanted.Keys;
      while todo != {}
        invariant todo <= wanted.Keys
        invariant forall i, j :: 0 <= i < j < |rows| ==> rows[i].id != rows[j].id
        invariant forall i :: 0 <= i < |rows| ==>
          rows[i].id in wanted && rows[i].id !in todo && wanted[rows[i].id] == rows[i]
        invariant forall k :: k in wanted && k !in todo ==> wanted[k] in rows
        decreases todo
      {
        var k :| k in todo;
        rows := rows + [wanted[k]];
        todo := todo - {k};
      }
      forall tr | tr in rows ensures tr.id in wanted && wanted[tr.id] == tr {
        var i :| 0 <= i < |rows| && rows[i] == tr;
      }
      forall tr: T.Trip | tr.id in trips && trips[tr.id] == tr && tr.startedAt.Some? && from <= tr.startedAt.value < to
        ensures tr in rows
      {
        assert tr.id in wanted && wanted[tr.id] == tr;
      }
    }

    method ClaimDue(now: Time, limit: nat) returns (rows: seq<Job>)
      requires forall k :: k in jobs ==> jobs[k].id == k
      ensures IsClaim(jobs, now, limit, rows)
      ensures |rows| <= limit
      ensures forall i, j :: 0 <= i < j < |rows| ==>
        rows[i].id != rows[j].id && rows[i].nextAttemptAt <= rows[j].nextAttemptAt
      ensures forall job :: job in rows ==>
        job.id in jobs && jobs[job.id] == job && job.status == Pending && job.nextAttemptAt <= now
      ensures forall k :: k in jobs && jobs[k].status == Pending && jobs[k].nextAttemptAt <= now && jobs[k] !in rows ==>
        |rows| == limit && forall job :: job in rows ==> job.nextAttemptAt <= jobs[k].nextAttemptAt
    {
      var found: seq<Job> := [];
      var todo := jobs.Keys;
      while todo != {}
        invariant todo <= jobs.Keys
        invariant DistinctJobs(found)
        invariant forall i :: 0 <= i < |found| ==>
          found[i].id in jobs && found[i].id !in todo && jobs[found[i].id] == found[i] && Due(found[i], now)
        invariant forall k :: k in jobs && k !in todo && Due(jobs[k], now) ==> jobs[k] in found
        decreases todo
      {
        var k :| k in todo;
        if Due(jobs[k], now) {
          found := found + [jobs[k]];
        }
        todo := todo - {k};
      }
      var sorted := Sorting.Sort(found, DueEarlier);
      SortedJobs(found, sorted);
      rows := if |sorted| <= limit then sorted else sorted[..limit];
      CutClaim(jobs, now, limit, found, sorted, rows);
    }

    /** The items of an inspection, in order of code. */
    method LoadItems(inspectionId: string) returns (list: seq<I.Item>)
      requires forall k :: k in items ==> items[k].id == k
      requires CodesUnique(items)
      ensures IsItemList(items, inspectionId, list)
      ensures forall x: I.Item :: x in list <==> x.id in items && items[x.id] == x && x.inspectionId == inspectionId
      ensures forall i, j :: 0 <= i < j < |list| ==> TextOrder.Less(list[i].code, list[j].code)
    {
      list := [];
      var todo := items.Keys;
      while todo != {}
        invariant todo <= items.Keys
        invariant I.Ordered(list)
        invariant forall x: I.Item :: x in list <==>
          x.id in items && x.id !in todo && items[x.id] == x && x.inspectionId == inspectionId
        decreases todo
      {
        var k :| k in todo;
        if items[k].inspectionId == inspectionId {
          PutNew(list, items[k]);
          list := I.Put(list, items[k]);
        }
        todo := todo - {k};
      }
    }
  }

  predicate DueEarlier(a: Job, b: Job) {
    a.nextAttemptAt < b.nextAttemptAt
  }

  lemma SortedJobs(found: seq<Job>, rows: seq<Job>)
    requires DistinctJobs(found) && multiset(rows) == multiset(found) && Sorting.Sorted(rows, DueEarlier)
    ensures forall x :: x in rows <==> x in found
    ensures DistinctJobs(rows)
    ensures forall i, j :: 0 <= i < j < |rows| ==> rows[i].nextAttemptAt <= rows[j].nextAttemptAt
  {
    forall x ensures x in rows <==> x in found {
      Sorting.SameMembers(rows, found, x);
    }
    forall i, j | 0 <= i < j < |rows|
      ensures rows[i].nextAttemptAt <= rows[j].nextAttemptAt && rows[i].id != rows[j].id
    {
      assert !DueEarlier(rows[j], rows[i]);
      if rows[i].id == rows[j].id {
        assert rows[i] in found && rows[j] in found;
        assert rows[i] == rows[j];
        Sorting.TwiceCounts(rows, i, j);
        OnceAmongJobs(found, rows[i]);
      }
    }
  }

  lemma OnceAmongJobs(found: seq<Job>, x: Job)
    requires DistinctJobs(found)
    ensures multiset(found)[x] <= 1
  {
    if x in found {
      var i :| 0 <= i < |found| && found[i] == x;
      assert found == found[..i] + [x] + found[i + 1..];
      assert x !in found[..i] && x !in found[i + 1..];
    }
  }

  lemma CutClaim(jobs: map<string, Job>, now: Time, limit: nat, found: seq<Job>, sorted: seq<Job>, rows: seq<Job>)
    requires forall k :: k in jobs ==> jobs[k].id == k
    requires forall x :: x in sorted <==> x in found
    requires forall i :: 0 <= i < |found| ==> found[i].id in jobs && jobs[found[i].id] == found[i] && Due(found[i], now)
    requires forall k :: k in jobs && Due(jobs[k], now) ==> jobs[k] in found
    requires DistinctJobs(sorted)
    requires forall i, j :: 0 <= i < j < |sorted| ==> sorted[i].nextAttemptAt <= sorted[j].nextAttemptAt
    requires rows == if |sorted| <= limit then sorted else sorted[..limit]
    ensures IsClaim(jobs, now, limit, rows)
  {
    forall i | 0 <= i < |rows| ensures rows[i].id in jobs && jobs[rows[i].id] == rows[i] && Due(rows[i], now) {
      assert rows[i] == sorted[i];
      assert sorted[i] in found;
    }
    forall k | k in jobs && Due(jobs[k], now) && jobs[k] !in rows
      ensures |rows| == limit && forall i :: 0 <= i < |rows| ==> rows[i].nextAttemptAt <= jobs[k].nextAttemptAt
    {
      assert jobs[k] in sorted;
      var j :| 0 <= j < |sorted| && sorted[j] == jobs[k];
      assert j >= |rows|;
    }
  }

  predicate StartsEarlier(a: W.Shift, b: W.Shift) {
    a.startAt < b.startAt
  }

  lemma SortedListing(shifts: map<string, W.Shift>, date: BusinessDay.ServiceDate, found: seq<W.Shift>,
                      rows: seq<W.Shift>)
    requires DistinctIds(found)
    requires forall i :: 0 <= i < |found|
               ==> found[i].id in shifts && shifts[found[i].id] == found[i] && found[i].serviceDate == date
    requires forall k :: k in shifts && shifts[k].serviceDate == date ==> shifts[k] in found
    requires multiset(rows) == multiset(found) && Sorting.Sorted(rows, StartsEarlier)
    ensures IsListing(shifts, date, rows)
  {
    forall i | 0 <= i < |rows|
      ensures rows[i].id in shifts && shifts[rows[i].id] == rows[i] && rows[i].serviceDate == date
    {
      Sorting.SameMembers(rows, found, rows[i]);
    }
    forall k | k in shifts && shifts[k].serviceDate == date ensures shifts[k] in rows {
      Sorting.SameMembers(rows, found, shifts[k]);
    }
    forall i, j | 0 <= i < j < |rows| ensures rows[i].startAt <= rows[j].startAt {
      assert !StartsEarlier(rows[j], rows[i]);
    }
    forall i, j | 0 <= i < j < |rows| ensures rows[i].id != rows[j].id {
      if rows[i].id == rows[j].id {
        assert rows[i] == rows[j];
        OnceInDistinct(found, rows[i]);
        Sorting.TwiceCounts(rows, i, j);
      }
    }
  }

  lemma OnceInDistinct(found: seq<W.Shift>, x: W.Shift)
    requires DistinctIds(found)
    ensures multiset(found)[x] <= 1
  {
    if x in found {
      var i :| 0 <= i < |found| && found[i] == x;
      assert found == found[..i] + [x] + found[i + 1..];
      assert x !in found[..i] && x !in found[i + 1..];
    }
  }

  /** An item of a new code joins the ordered list. */
  lemma PutNew(list: seq<I.Item>, item: I.Item)
    requires I.Ordered(list)
    requires forall k :: 0 <= k < |list| ==> list[k].code != item.code
    ensures I.Ordered(I.Put(list, item))
    ensures forall x :: x in I.Put(list, item) <==> x in list || x == item
  {
    I.PutKeepsOrder(list, item);
    forall x ensures x in I.Put(list, item) <==> x in list || x == item {
      I.MapOfMembers(list, x);
      I.MapOfMembers(I.Put(list, item), x);
      I.MapOfOrdered(list);
    }
  }
}
