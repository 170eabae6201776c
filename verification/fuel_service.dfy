/** Recording fuel (internal/service/fuel/service.go), the second writer of the odometer. */
module Fuelling {
  import opened Basics
  import opened Schema
  import opened Storage
  import opened Dispatch
  import V = Vehicles
  import F = Fuel

  datatype FuelInput = FuelInput(
    vehicleId: string,
    fuelType: F.FuelType,
    quantity: real,
    costCents: int,
    odometerKm: int,
    stationCode: string,
    recordedAt: Time)

  /** The vehicle's new row, if the reading is ahead of its odometer. */
  function Advanced(v: V.Vehicle, odometer: int, now: Time): V.Vehicle {
    v.(odometerKm := odometer, version := v.version + 1, updatedAt := now)
  }

  function RecordTx(t: Tables, input: FuelInput, ids: Ids, now: Time): Result<(Tables, F.Record)> {
    var vehicle :- Get(t.vehicles, input.vehicleId);
    var _ :- Need(!(vehicle.status == V.OnDuty || vehicle.status == V.Retired || input.odometerKm < vehicle.odometerKm),
                  Conflict(InvalidState));
    var recorded := if input.recordedAt == ZERO_TIME then now else input.recordedAt;
    var record :- F.New(ids.row, vehicle.id, input.fuelType, input.quantity, input.costCents,
                        input.odometerKm, input.stationCode, recorded, now);
    var t1 :- SaveFuel(t, record);
    var t2 :- if input.odometerKm > vehicle.odometerKm
              then SaveVehicle(t1, Advanced(vehicle, input.odometerKm, now), vehicle.version)
              else Ok(t1);
    var t3 :- Enqueue(t2, ids.job, FuelRecorded(record), now);
    Ok((t3, record))
  }

  method Record(store: Store, input: FuelInput, ids: Ids, now: Time) returns (r: Result<F.Record>)
    modifies store
    ensures Settled(RecordTx(old(store.View()), input, ids, now), old(store.View()), store.View(), r)
  {
    store.Begin();
    r := RecordBody(store, input, ids, now);
    if r.Err? {
      store.Rollback();
    }
  }

  method RecordBody(store: Store, input: FuelInput, ids: Ids, now: Time) returns (r: Result<F.Record>)
    modifies store
    ensures store.begun == old(store.begun)
    ensures match RecordTx(old(store.View()), input, ids, now)
            case Ok(done) => r == Ok(done.1) && store.View() == done.0
            case Err(e) => r == Err(e)
  {
    hide Schema.SaveFuel, Schema.SaveVehicle, Schema.Enqueue, F.New;
    if input.vehicleId !in store.vehicles {
      return Err(NotFound);
    }
    var vehicle := store.vehicles[input.vehicleId];
    if vehicle.status == V.OnDuty || vehicle.status == V.Retired || input.odometerKm < vehicle.odometerKm {
      return Err(Conflict(InvalidState));
    }
    var recorded := input.recordedAt;
    if recorded == ZERO_TIME {
      recorded := now;
    }
    r := F.New(ids.row, vehicle.id, input.fuelType, input.quantity, input.costCents,
               input.odometerKm, input.stationCode, recorded, now);
    if r.Err? {
      return;
    }
    var saved := store.SaveFuel(r.value);
    if saved.Err? {
      return Err(saved.error);
    }
    if input.odometerKm > vehicle.odometerKm {
      var previousVersion := vehicle.version;
      vehicle := vehicle.(odometerKm := input.odometerKm);
      vehicle := vehicle.(version := vehicle.version + 1);
      vehicle := vehicle.(updatedAt := now);
      saved := store.SaveVehicle(vehicle, previousVersion);
      if saved.Err? {
        return Err(saved.error);
      }
    }
    saved := store.Enqueue(ids.job, FuelRecorded(r.value), now);
    if saved.Err? {
      return Err(saved.error);
    }
  }
}
