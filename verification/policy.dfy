/** The guards of assigning a shift and of starting a trip (internal/policy/dispatch.go). */
module Policy {
  import opened Basics
  import V = Vehicles
  import W = Workplan
  import I = Inspections

  datatype AssignmentFacts = AssignmentFacts(
    vehicle: V.Vehicle,
    route: W.Route,
    shift: W.Shift,
    activeMaintenance: bool,
    latestInspection: Option<I.Head>,
    at: Time)

  function CheckAssignment(f: AssignmentFacts): Check {
    if f.route.status != W.RouteActive || f.shift.status != W.Scheduled then Err(Conflict(InvalidState))
    else
      var _ :- f.vehicle.CanDispatch(f.at);
      if f.activeMaintenance || f.vehicle.capacityKg < f.route.requiredCapacityKg then Err(Conflict(Unavailable))
      else if f.latestInspection.Some?
        && (f.latestInspection.value.status != I.Passed || !(f.shift.startAt < f.latestInspection.value.expiresAt))
      then Err(Conflict(Unavailable))
      else PASS
  }

  datatype StartFacts = StartFacts(
    vehicle: V.Vehicle,
    route: W.Route,
    shift: W.Shift,
    startOdometer: int,
    loadKg: int,
    activeMaintenance: bool,
    at: Time)

  function CheckStart(f: StartFacts): Check {
    if f.shift.status != W.Assigned || f.shift.assignedVehicleId != Some(f.vehicle.id)
    then Err(Conflict(InvalidState))
    else
      var _ :- f.vehicle.CanDispatch(f.at);
      if f.activeMaintenance || f.vehicle.capacityKg < f.route.requiredCapacityKg then Err(Conflict(Unavailable))
      else if f.startOdometer < f.vehicle.odometerKm || f.loadKg < 0 || f.loadKg > f.vehicle.capacityKg
      then Err(Conflict(Unavailable))
      else PASS
  }
}
