/** The fuel log entry (internal/domain/fuel/fuel.go). */
module Fuel {
  import opened Basics

  datatype FuelType = Diesel | Gasoline | Electric | Unknown(name: string)

  datatype Record = Record(
    id: string,
    vehicleId: string,
    fuelType: FuelType,
    quantity: real,
    costCents: int,
    odometerKm: int,
    stationCode: string,
    recordedAt: Time)

  function New(id: string, vehicleId: string, fuelType: FuelType, quantity: real, cost: int, odometer: int,
               station: string, recorded: Time, now: Time): Result<Record> {
    if id == "" || vehicleId == "" || station == "" || quantity <= 0.0 || cost < 0 || odometer < 0 || recorded > now
    then Err(Validation)
    else if fuelType.Unknown? then Err(Validation)
    else Ok(Record(id, vehicleId, fuelType, quantity, cost, odometer, station, recorded))
  }
}
