/** The maintenance order and its transitions (internal/domain/maintenance/order.go). */
module Orders {
  import opened Basics

  datatype Status = Open | InProgress | Completed | Cancelled

  datatype Order = Order(
    id: string,
    vehicleId: string,
    kind: string,
    status: Status,
    openedAt: Time,
    dueAt: Time,
    closedAt: Option<Time>,
    version: int,
    updatedAt: Time)
  {
    predicate Active() { status == Open || status == InProgress }

    function Start(now: Time): Result<Order> {
      if status != Open then Err(Conflict(InvalidState))
      else Ok(this.(status := InProgress, version := version + 1, updatedAt := now))
    }

    function Complete(now: Time): Result<Order> {
      if status != InProgress then Err(Conflict(InvalidState))
      else Ok(this.(status := Completed, closedAt := Some(now), version := version + 1, updatedAt := now))
    }
  }

  function New(id: string, vehicleId: string, kind: string, openAt: Time, due: Time, now: Time): Result<Order> {
    if id == "" || vehicleId == "" || kind == "" || !(due > openAt) then Err(Validation)
    else Ok(Order(id, vehicleId, kind, Open, openAt, due, None, 1, now))
  }
}
