/** No vehicle is ever booked twice for the same time. A shift keeps its vehicle booked while it is assigned,
    in progress or completed. */
module Bookings {
  import opened Basics
  import opened Schema
  import opened Sums
  import opened Changes
  import opened Invariant
  import opened System
  import opened Theorems
  import Guards
  import BusinessDay
  import W = Workplan

  /** At every moment of every run, for each vehicle and service date: any two shifts that keep the vehicle
      booked touch or are at least the minimum break apart, and together they are no longer than the maximum
      duty. */
  lemma WithinTheDay(s: Sys, cfg: Config, vehicleId: string, date: BusinessDay.ServiceDate)
    requires Reached(s, cfg)
    ensures var shifts := s.db.shifts;
      var pause := if cfg.limits.minimumBreak <= 0 then 15 * MINUTE else cfg.limits.minimumBreak;
      forall a, b :: a in shifts && b in shifts && a != b
                     && shifts[a].assignedVehicleId == shifts[b].assignedVehicleId == Some(vehicleId)
                     && shifts[a].serviceDate == shifts[b].serviceDate == date
                     && shifts[a].status in {W.Assigned, W.InProgress, W.Completed}
                     && shifts[b].status in {W.Assigned, W.InProgress, W.Completed} ==>
        || shifts[a].endAt == shifts[b].startAt || shifts[b].endAt == shifts[a].startAt
        || shifts[a].endAt + pause <= shifts[b].startAt || shifts[b].endAt + pause <= shifts[a].startAt
    ensures Sum(Guards.HeldTime(s.db.shifts, vehicleId, date))
            <= if cfg.limits.maximumDuty <= 0 then 16 * HOUR else cfg.limits.maximumDuty
  {
    hide Reached, Sum, Guards.HeldTime;
    ReachedIsFine(s, cfg);
    StoreOf(s, cfg);
    hide SysInv;
    DayInStore(s.db, cfg, vehicleId, date);
  }

  lemma DayInStore(t: Tables, cfg: Config, vehicleId: string, date: BusinessDay.ServiceDate)
    requires Inv(t, cfg)
    ensures var pause := if cfg.limits.minimumBreak <= 0 then 15 * MINUTE else cfg.limits.minimumBreak;
      forall a, b :: a in t.shifts && b in t.shifts && a != b
                     && Guards.Held(t.shifts[a], vehicleId, date) && Guards.Held(t.shifts[b], vehicleId, date) ==>
        Guards.Apart(t.shifts[a], t.shifts[b], pause)
    ensures Sum(Guards.HeldTime(t.shifts, vehicleId, date))
            <= if cfg.limits.maximumDuty <= 0 then 16 * HOUR else cfg.limits.maximumDuty
  {
    hide VehiclesOk, DriversOk, ShiftsOk, TripsOk, TripsUnique, Covered, OrdersOk, OdometerOk, JobsOk, KeysOk;
    hide InspectionsOk, CalendarOk, Sum;
    assert WithinLimits(t.shifts, cfg.limits, vehicleId, date);
    Guards.HeldMeans(t, cfg, vehicleId, date);
  }

  /** With a calendar of fixed offset, no two booked shifts of a vehicle overlap, on whatever dates. */
  lemma AcrossAllDays(s: Sys, cfg: Config, vehicleId: string, a: string, b: string)
    requires Reached(s, cfg) && cfg.calendar.Some? && BusinessDay.Usable(cfg.calendar.value)
    requires a in s.db.shifts && b in s.db.shifts && a != b
    requires s.db.shifts[a].assignedVehicleId == s.db.shifts[b].assignedVehicleId == Some(vehicleId)
    requires s.db.shifts[a].status in {W.Assigned, W.InProgress, W.Completed}
    requires s.db.shifts[b].status in {W.Assigned, W.InProgress, W.Completed}
    ensures !(s.db.shifts[a].startAt < s.db.shifts[b].endAt && s.db.shifts[b].startAt < s.db.shifts[a].endAt)
  {
    hide Reached, Sum;
    ReachedIsFine(s, cfg);
    hide PendingOk, VehiclesOk, DriversOk, TripsOk, TripsUnique, Covered, OrdersOk, OdometerOk, JobsOk;
    hide KeysOk, InspectionsOk, BookingOk;
    hide BusinessDay.ValidateWindow;
    var x, y := s.db.shifts[a], s.db.shifts[b];
    if x.serviceDate == y.serviceDate {
      WithinTheDay(s, cfg, vehicleId, x.serviceDate);
    } else {
      BusinessDay.DifferentDatesNeverOverlap(cfg.calendar.value, x.serviceDate, y.serviceDate, x.startAt, x.endAt,
                                             y.startAt, y.endAt);
    }
  }

  /** An instant at which a vehicle is booked belongs to one shift only. */
  lemma OneShiftAtATime(s: Sys, cfg: Config, vehicleId: string, at: Time)
    requires Reached(s, cfg) && cfg.calendar.Some? && BusinessDay.Usable(cfg.calendar.value)
    ensures |BookedAt(s.db, vehicleId, at)| <= 1
  {
    forall a, b | a in BookedAt(s.db, vehicleId, at) && b in BookedAt(s.db, vehicleId, at) ensures a == b {
      if a != b {
        AcrossAllDays(s, cfg, vehicleId, a, b);
      }
    }
    AtMostOne(BookedAt(s.db, vehicleId, at));
  }

  ghost function BookedAt(t: Tables, vehicleId: string, at: Time): set<string> {
    set k | k in t.shifts && t.shifts[k].assignedVehicleId == Some(vehicleId)
      && t.shifts[k].status in {W.Assigned, W.InProgress, W.Completed}
      && t.shifts[k].startAt <= at < t.shifts[k].endAt
  }
}
