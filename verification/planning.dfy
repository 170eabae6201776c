/** Creating and cancelling shifts (internal/service/planning/service.go) and registering vehicles
    (internal/service/fleet/service.go). */
module Planning {
  import opened Basics
  import opened Schema
  import opened Storage
  import opened Dispatch
  import BusinessDay
  import V = Vehicles
  import W = Workplan

  predicate IsSpace(c: char) {
    c in {' ', '\t', '\n', '\r', '\U{0B}', '\U{0C}', '\U{85}', '\U{A0}', '\U{1680}', '\U{2028}', '\U{2029}', '\U{202F}',
          '\U{205F}', '\U{3000}'}
    || '\U{2000}' <= c <= '\U{200A}'
  }

  /** What strings.TrimSpace empties. */
  predicate Blank(s: string) {
    forall i :: 0 <= i < |s| ==> IsSpace(s[i])
  }

  datatype ShiftInput = ShiftInput(routeId: string, date: BusinessDay.ServiceDate, startAt: Time, endAt: Time)

  const LONGEST_SHIFT: int := 20 * HOUR

  function ValidateInput(input: ShiftInput, calendar: Option<BusinessDay.Calendar>): Check {
    if Blank(input.routeId) || (input.date.Malformed? && Blank(input.date.text)) then Err(Validation)
    else if input.startAt == ZERO_TIME || input.endAt == ZERO_TIME
        || !(input.endAt > input.startAt) then Err(Validation)
    else if input.endAt - input.startAt > LONGEST_SHIFT then Err(Validation)
    else if calendar.Some? then BusinessDay.ValidateWindow(calendar.value, input.date, input.startAt, input.endAt)
    else PASS
  }

  /** CreateShift makes one write; the route it reads before is never deleted. */
  function CreateShiftTx(t: Tables, input: ShiftInput, calendar: Option<BusinessDay.Calendar>, id: string,
                         now: Time): Result<(Tables, W.Shift)> {
    var _ :- ValidateInput(input, calendar);
    var _ :- Get(t.routes, input.routeId);
    var shift :- W.NewShift(id, input.routeId, input.date, input.startAt, input.endAt, now);
    var t1 :- SaveShift(t, shift, 0);
    Ok((t1, shift))
  }

  method CreateShift(store: Store, input: ShiftInput, calendar: Option<BusinessDay.Calendar>, id: string, now: Time)
    returns (r: Result<W.Shift>)
    modifies store
    ensures Settled(CreateShiftTx(old(store.View()), input, calendar, id, now), old(store.View()), store.View(), r)
  {
    var valid := ValidateInput(input, calendar);
    if valid.Err? {
      return Err(valid.error);
    }
    if input.routeId !in store.routes {
      return Err(NotFound);
    }
    r := W.NewShift(id, input.routeId, input.date, input.startAt, input.endAt, now);
    if r.Err? {
      return;
    }
    var saved := store.SaveShift(r.value, 0);
    if saved.Err? {
      return Err(saved.error);
    }
  }

  /** A row as read and the row to be saved in its place if its version still stands. */
  datatype Replacement<R> = Replacement(read: R, write: R)

  /** First half of CancelShift: read and compute, outside any transaction. */
  function PlanCancel(t: Tables, id: string, now: Time): Result<Replacement<W.Shift>> {
    var current :- Get(t.shifts, id);
    var updated :- current.Cancel(now);
    Ok(Replacement(current, updated))
  }

  /** Second half: the compare-and-set save. */
  function SaveCancelled(t: Tables, p: Replacement<W.Shift>): Result<(Tables, W.Shift)> {
    var t1 :- SaveShift(t, p.write, p.read.version);
    Ok((t1, p.write))
  }

  /** Both halves with nothing in between. */
  function CancelTx(t: Tables, id: string, now: Time): Result<(Tables, W.Shift)> {
    var p :- PlanCancel(t, id, now);
    SaveCancelled(t, p)
  }

  method CancelShift(store: Store, id: string, now: Time) returns (r: Result<W.Shift>)
    modifies store
    ensures Settled(CancelTx(old(store.View()), id, now), old(store.View()), store.View(), r)
  {
    if id !in store.shifts {
      return Err(NotFound);
    }
    var current := store.shifts[id];
    r := current.Cancel(now);
    if r.Err? {
      return;
    }
    var saved := store.SaveShift(r.value, current.version);
    if saved.Err? {
      return Err(saved.error);
    }
  }

  datatype VehicleInput = VehicleInput(vehicleType: string, capacityKg: int, odometerKm: int, inspectionDueAt: Time)

  function RegisterTx(t: Tables, input: VehicleInput, id: string, now: Time): Result<(Tables, V.Vehicle)> {
    var _ :- Need(!Blank(input.vehicleType) && input.capacityKg > 0 && input.odometerKm >= 0
                  && input.inspectionDueAt != ZERO_TIME && input.inspectionDueAt > now, Validation);
    var vehicle :- V.New(id, input.vehicleType, input.capacityKg, input.odometerKm, input.inspectionDueAt, now);
    var t1 :- SaveVehicle(t, vehicle, 0);
    Ok((t1, vehicle))
  }

  method RegisterVehicle(store: Store, input: VehicleInput, id: string, now: Time) returns (r: Result<V.Vehicle>)
    modifies store
    ensures Settled(RegisterTx(old(store.View()), input, id, now), old(store.View()), store.View(), r)
  {
    if Blank(input.vehicleType) || input.capacityKg <= 0 || input.odometerKm < 0
       || input.inspectionDueAt == ZERO_TIME || input.inspectionDueAt <= now {
      return Err(Validation);
    }
    r := V.New(id, input.vehicleType, input.capacityKg, input.odometerKm, input.inspectionDueAt, now);
    if r.Err? {
      return;
    }
    var saved := store.SaveVehicle(r.value, 0);
    if saved.Err? {
      return Err(saved.error);
    }
  }
}
