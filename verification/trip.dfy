/** The trip and its transitions (internal/domain/trip/trip.go). */
module Trips {
  import opened Basics

  datatype Status = Planned | Active | Completed | Cancelled

  datatype Trip = Trip(
    id: string,
    vehicleId: string,
    shiftId: string,
    driverId: string,
    status: Status,
    driverName: string,
    startedAt: Option<Time>,
    endedAt: Option<Time>,
    startOdometer: Option<int>,
    endOdometer: Option<int>,
    loadKg: int,
    idempotencyKey: string,
    version: int,
    updatedAt: Time)
  {
    function Start(odometer: int, load: int, at: Time): Result<Trip> {
      if status != Planned || odometer < 0 || load < 0 then Err(Conflict(InvalidState))
      else Ok(this.(status := Active, startOdometer := Some(odometer), loadKg := load,
                    startedAt := Some(at), version := version + 1, updatedAt := at))
    }

    function Complete(odometer: int, at: Time): Result<Trip> {
      if status != Active || startOdometer == None || odometer < startOdometer.value
      then Err(Conflict(InvalidState))
      else Ok(this.(status := Completed, endOdometer := Some(odometer), endedAt := Some(at),
                    version := version + 1, updatedAt := at))
    }

    function Distance(): int {
      if startOdometer == None || endOdometer == None then 0
      else endOdometer.value - startOdometer.value
    }
  }

  function New(id: string, vehicleId: string, shiftId: string, driverId: string, driver: string, key: string,
               now: Time): Result<Trip> {
    if id == "" || vehicleId == "" || shiftId == "" || driverId == "" || driver == "" || key == ""
    then Err(Validation)
    else Ok(Trip(id, vehicleId, shiftId, driverId, Planned, driver, None, None, None, None, 0, key, 1, now))
  }
}
