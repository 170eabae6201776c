/** Opening, starting and completing maintenance orders (internal/service/maintenance/service.go). */
module Upkeep {
  import opened Basics
  import opened Schema
  import opened Storage
  import opened Dispatch
  import opened Planning
  import V = Vehicles
  import O = Orders

  function OpenTx(t: Tables, vehicleId: string, kind: string, dueAt: Time, id: string,
                  now: Time): Result<(Tables, O.Order)> {
    var current :- Get(t.vehicles, vehicleId);
    var _ :- Need(current.status != V.Retired, Conflict(InvalidState));
    var _ :- Need(!HasActiveOrder(t.orders, vehicleId), Conflict(Conflicting));
    var marked :- current.MarkMaintenance(now);
    var t1 :- SaveVehicle(t, marked, current.version);
    var order :- O.New(id, vehicleId, kind, now, dueAt, now);
    var t2 :- SaveMaintenance(t1, order, 0);
    Ok((t2, order))
  }

  method Open(store: Store, vehicleId: string, kind: string, dueAt: Time, id: string, now: Time)
      returns (r: Result<O.Order>)
    modifies store
    ensures Settled(OpenTx(old(store.View()), vehicleId, kind, dueAt, id, now), old(store.View()), store.View(), r)
  {
    store.Begin();
    r := OpenBody(store, vehicleId, kind, dueAt, id, now);
    if r.Err? {
      store.Rollback();
    }
  }

  method OpenBody(store: Store, vehicleId: string, kind: string, dueAt: Time, id: string, now: Time)
      returns (r: Result<O.Order>)
    modifies store
    ensures store.begun == old(store.begun)
    ensures match OpenTx(old(store.View()), vehicleId, kind, dueAt, id, now)
            case Ok(done) => r == Ok(done.1) && store.View() == done.0
            case Err(e) => r == Err(e)
  {
    if vehicleId !in store.vehicles {
      return Err(NotFound);
    }
    var current := store.vehicles[vehicleId];
    if current.status == V.Retired {
      return Err(Conflict(InvalidState));
    }
    var active := store.ActiveMaintenanceForVehicle(vehicleId);
    if active {
      return Err(Conflict(Conflicting));
    }
    var marked := current.MarkMaintenance(now);
    if marked.Err? {
      return Err(marked.error);
    }
    var saved := store.SaveVehicle(marked.value, current.version);
    if saved.Err? {
      return Err(saved.error);
    }
    r := O.New(id, vehicleId, kind, now, dueAt, now);
    if r.Err? {
      return;
    }
    saved := store.SaveMaintenance(r.value, 0);
    if saved.Err? {
      return Err(saved.error);
    }
  }

  /** First half of Start, outside any transaction. */
  function PlanStart(t: Tables, id: string, now: Time): Result<Replacement<O.Order>> {
    var current :- Get(t.orders, id);
    var updated :- current.Start(now);
    Ok(Replacement(current, updated))
  }

  function SaveStarted(t: Tables, p: Replacement<O.Order>): Result<(Tables, O.Order)> {
    var t1 :- SaveMaintenance(t, p.write, p.read.version);
    Ok((t1, p.write))
  }

  function BeginTx(t: Tables, id: string, now: Time): Result<(Tables, O.Order)> {
    var p :- PlanStart(t, id, now);
    SaveStarted(t, p)
  }

  method Start(store: Store, id: string, now: Time) returns (r: Result<O.Order>)
    modifies store
    ensures Settled(BeginTx(old(store.View()), id, now), old(store.View()), store.View(), r)
  {
    if id !in store.orders {
      return Err(NotFound);
    }
    var current := store.orders[id];
    r := current.Start(now);
    if r.Err? {
      return;
    }
    var saved := store.SaveMaintenance(r.value, current.version);
    if saved.Err? {
      return Err(saved.error);
    }
  }

  function CompleteTx(t: Tables, id: string, now: Time): Result<(Tables, O.Order)> {
    var current :- Get(t.orders, id);
    var vehicle :- Get(t.vehicles, current.vehicleId);
    var closed :- current.Complete(now);
    var t1 :- SaveMaintenance(t, closed, current.version);
    var released :- vehicle.ReleaseMaintenance(now);
    var t2 :- SaveVehicle(t1, released, vehicle.version);
    Ok((t2, closed))
  }

  method Complete(store: Store, id: string, now: Time) returns (r: Result<O.Order>)
    modifies store
    ensures Settled(CompleteTx(old(store.View()), id, now), old(store.View()), store.View(), r)
  {
    store.Begin();
    r := CompleteBody(store, id, now);
    if r.Err? {
      store.Rollback();
    }
  }

  method CompleteBody(store: Store, id: string, now: Time) returns (r: Result<O.Order>)
    modifies store
    ensures store.begun == old(store.begun)
    ensures match CompleteTx(old(store.View()), id, now)
            case Ok(done) => r == Ok(done.1) && store.View() == done.0
            case Err(e) => r == Err(e)
  {
    if id !in store.orders {
      return Err(NotFound);
    }
    var current := store.orders[id];
    if current.vehicleId !in store.vehicles {
      return Err(NotFound);
    }
    var vehicle := store.vehicles[current.vehicleId];
    r := current.Complete(now);
    if r.Err? {
      return;
    }
    var saved := store.SaveMaintenance(r.value, current.version);
    if saved.Err? {
      return Err(saved.error);
    }
    var released := vehicle.ReleaseMaintenance(now);
    if released.Err? {
      return Err(released.error);
    }
    saved := store.SaveVehicle(released.value, vehicle.version);
    if saved.Err? {
      return Err(saved.error);
    }
  }
}
