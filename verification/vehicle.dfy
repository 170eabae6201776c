/** The vehicle and its transitions (internal/domain/vehicle/vehicle.go). */
module Vehicles {
  import opened Basics

  datatype Status = Available | OnDuty | Maintenance | Retired

  datatype Vehicle = Vehicle(
    id: string,
    vehicleType: string,
    status: Status,
    capacityKg: int,
    odometerKm: int,
    inspectionDueAt: Time,
    version: int,
    updatedAt: Time)
  {
    function CanDispatch(at: Time): Check {
      if status != Available then Err(Conflict(Unavailable))
      else if !(at < inspectionDueAt) then Err(Conflict(BadInput))
      else PASS
    }

    function StartDispatch(at: Time): Result<Vehicle> {
      var _ :- CanDispatch(at);
      Ok(this.(status := OnDuty, version := version + 1, updatedAt := at))
    }

    function FinishReturn(odometer: int, at: Time): Result<Vehicle> {
      if status != OnDuty || odometer < odometerKm then Err(Conflict(InvalidState))
      else Ok(this.(status := Available, odometerKm := odometer, version := version + 1, updatedAt := at))
    }

    function MarkMaintenance(at: Time): Result<Vehicle> {
      if status == Retired || status == OnDuty then Err(Conflict(InvalidState))
      else Ok(this.(status := Maintenance, version := version + 1, updatedAt := at))
    }

    function ReleaseMaintenance(at: Time): Result<Vehicle> {
      if status != Maintenance then Err(Conflict(InvalidState))
      else Ok(this.(status := Available, version := version + 1, updatedAt := at))
    }
  }

  function New(id: string, vehicleType: string, capacity: int, odometer: int, due: Time, now: Time): Result<Vehicle> {
    if id == "" || vehicleType == "" || capacity <= 0 || odometer < 0 then Err(Validation)
    else Ok(Vehicle(id, vehicleType, Available, capacity, odometer, due, 1, now))
  }
}
