/** The report of a stored day (internal/service/reconciliation/service.go). */
module Reporting {
  import opened Basics
  import opened Schema
  import opened Storage
  import opened Paging
  import opened Reconciliation
  import opened Changes
  import opened Invariant
  import opened System
  import opened Theorems
  import BusinessDay
  import Dispatch
  import GoodDay
  import Planning
  import Scheduling
  import T = Trips
  import W = Workplan

  method EvaluateDay(store: Store, calendar: BusinessDay.Calendar, date: BusinessDay.ServiceDate, now: Time)
    returns (r: Result<Report>, ghost shifts: seq<W.Shift>, ghost trips: seq<T.Trip>)
    requires Keyed(store.View())
    ensures match BusinessDay.Bounds(calendar, date)
            case Err(e) => r == Err(e)
            case Ok(bounds) =>
              && IsListing(store.shifts, date, shifts)
              && IsTripList(StartedWithin(store.trips, bounds.0, bounds.1), trips)
              && r.Ok? && fresh(r.value) && Describes(r.value, date, shifts, trips, now)
  {
    hide Describes;
    shifts, trips := [], [];
    var bounds := BusinessDay.Bounds(calendar, date);
    if bounds.Err? {
      return Err(bounds.error), [], [];
    }
    var shiftRows := store.ListShifts(date);
    var allShifts := ReadSnapshot(shiftRows);
    var tripRows := store.ListTrips(bounds.value.0, bounds.value.1);
    var allTrips := ReadSnapshot(tripRows);
    shifts, trips := allShifts, allTrips;
    var report := Evaluate(date, allShifts, allTrips, now);
    r := Ok(report);
  }

  /** While the store rests, the loop over pages reads the whole result set, each row once. */
  method ReadSnapshot<X>(rows: seq<X>) returns (result: seq<X>)
    ensures result == rows
  {
    var views := seq(|rows| / PAGE + 1, _ => rows);
    result := ReadAll(views);
  }

  lemma {:induction false} CountOnce<X>(items: seq<X>, p: X -> bool)
    requires forall i, j :: 0 <= i < j < |items| ==> !(p(items[i]) && p(items[j]))
    ensures Count(items, p) == if exists x :: x in items && p(x) then 1 else 0
    decreases |items|
  {
    CountsSome(items, p);
    if items != [] {
      var rest, last := items[..|items| - 1], items[|items| - 1];
      CountOnce(rest, p);
      forall x | x in rest && p(last) ensures !p(x) {
        var i :| 0 <= i < |rest| && rest[i] == x;
        assert items[i] == x;
      }
    }
  }

  ghost predicate PartOf(part: map<string, T.Trip>, trips: map<string, T.Trip>) {
    forall k :: k in part ==> k in trips && part[k] == trips[k]
  }

  /** Of some of the stored trips, a shift counts its only trip if it is among them. */
  lemma TripsCounted(t: Tables, cfg: Config, part: map<string, T.Trip>, rows: seq<T.Trip>, shiftId: string)
    requires Inv(t, cfg) && PartOf(part, t.trips) && IsTripList(part, rows)
    ensures Count(rows, OnShift(shiftId)) == if HasTrip(part, shiftId) then 1 else 0
    ensures Count(rows, CompletedOn(shiftId)) ==
      if HasTrip(part, shiftId) && shiftId in t.shifts && t.shifts[shiftId].status == W.Completed then 1 else 0
  {
    hide VehiclesOk, DriversOk, ShiftsOk, Covered, OrdersOk, OdometerOk, JobsOk, KeysOk, InspectionsOk;
    hide BookingOk, CalendarOk, Count, HasTrip;
    forall i, j | 0 <= i < j < |rows| ensures rows[i].shiftId != rows[j].shiftId {
      assert rows[i].id in t.trips && rows[j].id in t.trips;
    }
    CountOnce(rows, OnShift(shiftId));
    CountOnce(rows, CompletedOn(shiftId));
    Listed(t, cfg, part, rows, shiftId);
  }

  lemma Listed(t: Tables, cfg: Config, part: map<string, T.Trip>, rows: seq<T.Trip>, shiftId: string)
    requires Inv(t, cfg) && PartOf(part, t.trips) && IsTripList(part, rows)
    ensures (exists x :: x in rows && OnShift(shiftId)(x)) <==> HasTrip(part, shiftId)
    ensures (exists x :: x in rows && CompletedOn(shiftId)(x)) <==>
      HasTrip(part, shiftId) && shiftId in t.shifts && t.shifts[shiftId].status == W.Completed
  {
    hide VehiclesOk, DriversOk, ShiftsOk, Covered, OrdersOk, OdometerOk, JobsOk, KeysOk, InspectionsOk;
    hide BookingOk, CalendarOk, TripsUnique;
    if x :| x in rows && OnShift(shiftId)(x) {
      assert x.id in part && part[x.id] == x;
    }
    if HasTrip(part, shiftId) {
      var k :| k in part && part[k].shiftId == shiftId;
      assert part[k] in rows && OnShift(shiftId)(part[k]);
      assert CompletedOn(shiftId)(part[k]) <==> t.shifts[shiftId].status == W.Completed;
    }
  }

  predicate ForShifts(code: Code) {
    code != LongRunningTrip && code != ZeroDistanceTrip
  }

  /** A finding about a shift is made once for a stored shift of the date that calls for it, and for no other. */
  lemma ShiftFindingOnce(shifts: map<string, W.Shift>, date: BusinessDay.ServiceDate, rows: seq<W.Shift>,
                         trips: seq<T.Trip>, at: Time, f: Finding)
    requires IsListing(shifts, date, rows) && ForShifts(f.code) && forall k :: k in shifts ==> shifts[k].id == k
    ensures Occurrences(rows, trips, at, f) ==
      if f.shiftId in shifts && shifts[f.shiftId].serviceDate == date && ShiftCallsFor(shifts[f.shiftId], trips, at, f)
      then 1 else 0
  {
    hide Count, HasItsTrip;
    var calls := ShiftsCallingFor(trips, at, f);
    CountOnce(rows, calls);
    CountsSome(trips, TripsCallingFor(at, f));
    if x :| x in rows && calls(x) {
      assert x.id in shifts && shifts[x.id] == x;
    }
    if f.shiftId in shifts && shifts[f.shiftId].serviceDate == date && ShiftCallsFor(shifts[f.shiftId], trips, at, f) {
      assert shifts[f.shiftId] in rows && calls(shifts[f.shiftId]);
    }
  }

  lemma ShiftsAreKeyed(t: Tables, cfg: Config)
    requires Inv(t, cfg)
    ensures forall k :: k in t.shifts ==> t.shifts[k].id == k
  {
  }

  lemma DoneMeansTrip(t: Tables, cfg: Config, shiftId: string)
    requires Inv(t, cfg) && shiftId in t.shifts && t.shifts[shiftId].status == W.Completed
    ensures HasTrip(t.trips, shiftId)
  {
  }

  /** In no reachable store does a day's report over all stored trips contain a structural finding: every
      completed shift has exactly its completed trip, and no shift has two. */
  lemma StructuralFindingsUnreachable(s: Sys, cfg: Config, date: BusinessDay.ServiceDate, shifts: seq<W.Shift>,
                                      trips: seq<T.Trip>, at: Time, f: Finding)
    requires Reached(s, cfg) && IsListing(s.db.shifts, date, shifts) && IsTripList(s.db.trips, trips)
    requires f.code == CompletedShiftTripMismatch || f.code == MultipleTripsForShift
    ensures Occurrences(shifts, trips, at, f) == 0
  {
    hide Reached, SysInv, Inv, Count, IsListing, IsTripList;
    ReachedIsFine(s, cfg);
    StoreOf(s, cfg);
    ShiftsAreKeyed(s.db, cfg);
    ShiftFindingOnce(s.db.shifts, date, shifts, trips, at, f);
    TripsCounted(s.db, cfg, s.db.trips, trips, f.shiftId);
    if f.shiftId in s.db.shifts && s.db.shifts[f.shiftId].status == W.Completed {
      DoneMeansTrip(s.db, cfg, f.shiftId);
    }
  }

  /** The trip of this shift began on another service date. */
  ghost predicate BeganAnotherDay(trips: map<string, T.Trip>, calendar: BusinessDay.Calendar,
                                  date: BusinessDay.ServiceDate, shiftId: string) {
    exists k :: k in trips && trips[k].shiftId == shiftId && trips[k].startedAt.Some?
                && BusinessDay.DateOf(calendar, trips[k].startedAt.value) != date
  }

  /** The service evaluates only the trips begun within the day, so there the mismatch is reported exactly for
      the completed shifts whose trip began on another service date; two trips it never reports. */
  lemma MismatchExactly(s: Sys, cfg: Config, calendar: BusinessDay.Calendar, date: BusinessDay.ServiceDate,
                        shifts: seq<W.Shift>, trips: seq<T.Trip>, at: Time, shiftId: string)
    requires Reached(s, cfg) && BusinessDay.Usable(calendar) && date.Day? && IsListing(s.db.shifts, date, shifts)
    requires var bounds := BusinessDay.Bounds(calendar, date).value;
             IsTripList(StartedWithin(s.db.trips, bounds.0, bounds.1), trips)
    requires shiftId in s.db.shifts && s.db.shifts[shiftId].serviceDate == date
    ensures Occurrences(shifts, trips, at, Finding(CompletedShiftTripMismatch, Blocking, shiftId, "")) ==
      if s.db.shifts[shiftId].status == W.Completed && BeganAnotherDay(s.db.trips, calendar, date, shiftId)
      then 1 else 0
    ensures Occurrences(shifts, trips, at, Finding(MultipleTripsForShift, Blocking, shiftId, "")) == 0
  {
    hide Reached, SysInv, Inv, Count, IsListing, IsTripList, StartedWithin, HasTrip, BeganAnotherDay;
    var bounds := BusinessDay.Bounds(calendar, date).value;
    var part := StartedWithin(s.db.trips, bounds.0, bounds.1);
    ReachedIsFine(s, cfg);
    StoreOf(s, cfg);
    ShiftsAreKeyed(s.db, cfg);
    ShiftFindingOnce(s.db.shifts, date, shifts, trips, at, Finding(CompletedShiftTripMismatch, Blocking, shiftId, ""));
    ShiftFindingOnce(s.db.shifts, date, shifts, trips, at, Finding(MultipleTripsForShift, Blocking, shiftId, ""));
    PartIsPart(s.db.trips, bounds.0, bounds.1);
    TripsCounted(s.db, cfg, part, trips, shiftId);
    if s.db.shifts[shiftId].status == W.Completed {
      BeganThatDay(s.db, cfg, calendar, date, shiftId);
    }
  }

  lemma PartIsPart(trips: map<string, T.Trip>, from: Time, to: Time)
    ensures PartOf(StartedWithin(trips, from, to), trips)
  {
  }

  lemma BeganThatDay(t: Tables, cfg: Config, calendar: BusinessDay.Calendar, date: BusinessDay.ServiceDate,
                     shiftId: string)
    requires Inv(t, cfg) && BusinessDay.Usable(calendar) && date.Day?
    requires shiftId in t.shifts && t.shifts[shiftId].status == W.Completed
    ensures var bounds := BusinessDay.Bounds(calendar, date).value;
            HasTrip(StartedWithin(t.trips, bounds.0, bounds.1), shiftId)
            <==> !BeganAnotherDay(t.trips, calendar, date, shiftId)
  {
    hide VehiclesOk, DriversOk, ShiftsOk, Covered, OrdersOk, OdometerOk, JobsOk, KeysOk, InspectionsOk;
    hide BookingOk, CalendarOk;
    DoneMeansTrip(t, cfg, shiftId);
    var k :| k in t.trips && t.trips[k].shiftId == shiftId;
    var bounds := BusinessDay.Bounds(calendar, date).value;
    var part := StartedWithin(t.trips, bounds.0, bounds.1);
    BusinessDay.BoundsHoldExactlyTheDate(calendar, date, t.trips[k].startedAt.value);
    forall j | j in t.trips && t.trips[j].shiftId == shiftId ensures j == k {
    }
    hide BusinessDay.DateOf, BusinessDay.Bounds;
    assert k in part <==> BusinessDay.DateOf(calendar, t.trips[k].startedAt.value) == date;
  }

  // ---------------------------------------------------------------------------------------
  // A reported mismatch
  // ---------------------------------------------------------------------------------------

  /** However the date's shifts and the trips begun within its bounds are listed, and whenever it is evaluated,
      the day's report makes the mismatch of this completed shift once; and such listings there are. */
  ghost predicate AlwaysMismatched(t: Tables, calendar: BusinessDay.Calendar, date: BusinessDay.ServiceDate,
                                   shiftId: string)
    requires date.Day?
  {
    var bounds := BusinessDay.Bounds(calendar, date).value;
    var within := StartedWithin(t.trips, bounds.0, bounds.1);
    && shiftId in t.shifts && t.shifts[shiftId].status == W.Completed
    && IsListing(t.shifts, date, [t.shifts[shiftId]]) && IsTripList(within, [])
    && forall shifts, trips, at :: IsListing(t.shifts, date, shifts) && IsTripList(within, trips) ==>
      Occurrences(shifts, trips, at, Finding(CompletedShiftTripMismatch, Blocking, shiftId, "")) == 1
  }

  /** A shift at the start of a service date, whose trip starts as the date ends. */
  lemma LatePlan(limits: Scheduling.Limits, calendar: BusinessDay.Calendar) returns (p: GoodDay.Plan)
    requires BusinessDay.Usable(calendar)
    ensures p.shiftId == "s" && p.date.Day? && GoodDay.Possible(EMPTY, Config(limits, Some(calendar)), p)
    ensures BusinessDay.DateOf(calendar, p.at) != p.date
  {
    var first := BusinessDay.Bounds(calendar, BusinessDay.Day(0)).value.0;
    var date := if first == ZERO_TIME || first + 1 == ZERO_TIME then BusinessDay.Day(1) else BusinessDay.Day(0);
    var bounds := BusinessDay.Bounds(calendar, date).value;
    p := GoodDay.Plan("r", "d", "v", "s", "k", date, bounds.0, bounds.1);
    assert !Planning.IsSpace("r"[0]);
    BusinessDay.BoundsHoldExactlyTheDate(calendar, date, p.at);
    hide BusinessDay.DateOf;
  }

  /** For any limits and any calendar, which the planning service uses too, a run from the empty database
      leads to a day whose report always contains a mismatch, although the shift has its completed trip. */
  lemma MismatchIsReported(limits: Scheduling.Limits, calendar: BusinessDay.Calendar)
    requires BusinessDay.Usable(calendar)
    ensures exists s, date: BusinessDay.ServiceDate ::
      Reached(s, Config(limits, Some(calendar))) && date.Day? && AlwaysMismatched(s.db, calendar, date, "s")
  {
    hide Reached, AlwaysMismatched, GoodDay.Possible, GoodDay.Drove, GoodDay.Prepared, BusinessDay.DateOf;
    var cfg := Config(limits, Some(calendar));
    var p := LatePlan(limits, calendar);
    GoodDay.ATripCanBeDriven(cfg, p);
    var s :| Reached(s, cfg) && GoodDay.Drove(GoodDay.Prepared(EMPTY, p), s.db, p, Dispatch.Ids("t", "j"), "jj");
    LateTrip(s, cfg, calendar, p);
  }

  lemma LateTrip(s: Sys, cfg: Config, calendar: BusinessDay.Calendar, p: GoodDay.Plan)
    requires Reached(s, cfg) && BusinessDay.Usable(calendar) && p.date.Day?
             && BusinessDay.DateOf(calendar, p.at) != p.date
    requires GoodDay.Drove(GoodDay.Prepared(EMPTY, p), s.db, p, Dispatch.Ids("t", "j"), "jj")
    ensures AlwaysMismatched(s.db, calendar, p.date, p.shiftId)
  {
    hide Reached, Occurrences, BusinessDay.DateOf, GoodDay.Drove, BeganAnotherDay, StartedWithin, IsListing, IsTripList;
    var bounds := BusinessDay.Bounds(calendar, p.date).value;
    var within := StartedWithin(s.db.trips, bounds.0, bounds.1);
    ReachedIsFine(s, cfg);
    StoreOf(s, cfg);
    ShiftsAreKeyed(s.db, cfg);
    hide SysInv;
    LateRows(s.db, calendar, p);
    TripIsOutside(s.db, calendar, p);
    forall shifts, trips, at | IsListing(s.db.shifts, p.date, shifts) && IsTripList(within, trips)
      ensures Occurrences(shifts, trips, at, Finding(CompletedShiftTripMismatch, Blocking, p.shiftId, "")) == 1
    {
      MismatchExactly(s, cfg, calendar, p.date, shifts, trips, at, p.shiftId);
    }
  }

  lemma LateRows(t: Tables, calendar: BusinessDay.Calendar, p: GoodDay.Plan)
    requires BusinessDay.DateOf(calendar, p.at) != p.date && (forall k :: k in t.shifts ==> t.shifts[k].id == k)
    requires GoodDay.Drove(GoodDay.Prepared(EMPTY, p), t, p, Dispatch.Ids("t", "j"), "jj")
    ensures t.trips.Keys == {"t"} && t.trips["t"].startedAt == Some(p.at)
    ensures p.shiftId in t.shifts && t.shifts[p.shiftId].status == W.Completed
            && t.shifts[p.shiftId].serviceDate == p.date
    ensures IsListing(t.shifts, p.date, [t.shifts[p.shiftId]])
    ensures BeganAnotherDay(t.trips, calendar, p.date, p.shiftId)
  {
    hide BusinessDay.DateOf, Dispatch.KeyOf;
    assert t.trips["t"].shiftId == p.shiftId;
    assert t.shifts.Keys == {p.shiftId};
  }

  lemma TripIsOutside(t: Tables, calendar: BusinessDay.Calendar, p: GoodDay.Plan)
    requires BusinessDay.Usable(calendar) && p.date.Day? && BusinessDay.DateOf(calendar, p.at) != p.date
    requires t.trips.Keys == {"t"} && t.trips["t"].startedAt == Some(p.at)
    ensures var bounds := BusinessDay.Bounds(calendar, p.date).value;
            IsTripList(StartedWithin(t.trips, bounds.0, bounds.1), [])
  {
    BusinessDay.BoundsHoldExactlyTheDate(calendar, p.date, p.at);
    hide BusinessDay.DateOf;
  }
}
