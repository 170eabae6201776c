/** Routes and shifts (internal/domain/workplan/workplan.go). */
module Workplan {
  import opened Basics
  import opened BusinessDay

  datatype RouteStatus = RouteActive | RoutePaused | RouteClosed

  datatype Route = Route(id: string, requiredCapacityKg: int, status: RouteStatus)

  datatype ShiftStatus = Draft | Scheduled | Assigned | InProgress | Completed | Cancelled

  datatype Shift = Shift(
    id: string,
    routeId: string,
    serviceDate: ServiceDate,
    startAt: Time,
    endAt: Time,
    status: ShiftStatus,
    assignedVehicleId: Option<string>,
    version: int,
    updatedAt: Time)
  {
    function Assign(vehicleId: string, now: Time): Result<Shift> {
      if status != Scheduled || vehicleId == "" then Err(Conflict(InvalidState))
      else Ok(this.(assignedVehicleId := Some(vehicleId), status := Assigned, version := version + 1, updatedAt := now))
    }

    function Start(now: Time): Result<Shift> {
      if status != Assigned || assignedVehicleId == None then Err(Conflict(InvalidState))
      else Ok(this.(status := InProgress, version := version + 1, updatedAt := now))
    }

    function Complete(now: Time): Result<Shift> {
      if status != InProgress then Err(Conflict(InvalidState))
      else Ok(this.(status := Completed, version := version + 1, updatedAt := now))
    }

    function Cancel(now: Time): Result<Shift> {
      if status == Completed || status == Cancelled || status == InProgress then Err(Conflict(InvalidState))
      else Ok(this.(status := Cancelled, version := version + 1, updatedAt := now))
    }
  }

  function NewShift(id: string, routeId: string, date: ServiceDate, start: Time, end: Time, now: Time): Result<Shift> {
    if id == "" || routeId == "" || date == Malformed("") || !(end > start) then Err(Validation)
    else Ok(Shift(id, routeId, date, start, end, Scheduled, None, 1, now))
  }
}
