/** Starting a trip twice: the lookup before the transaction, the unique pair of vehicle and key, and the
    row of idempotency_keys. */
module Idempotency {
  import opened Basics
  import opened Schema
  import opened Dispatch
  import opened Changes
  import opened Invariant
  import opened Exact
  import opened System
  import opened Theorems
  import BusinessDay
  import GoodDay
  import Interleaving
  import Planning
  import T = Trips

  ghost function TripsByKey(trips: map<string, T.Trip>, vehicleId: string, key: string): set<string> {
    set k | k in trips && trips[k].vehicleId == vehicleId && trips[k].idempotencyKey == key
  }

  /** However lookups and transactions interleave, a vehicle has at most one trip for a key. */
  lemma OneTripPerKey(s: Sys, cfg: Config, vehicleId: string, key: string)
    requires Reached(s, cfg)
    ensures |TripsByKey(s.db.trips, vehicleId, key)| <= 1
  {
    hide Reached;
    ReachedIsFine(s, cfg);
    hide PendingOk, VehiclesOk, DriversOk, ShiftsOk, TripsOk, Covered, OrdersOk, OdometerOk, JobsOk, KeysOk;
    hide InspectionsOk, BookingOk, CalendarOk;
    AtMostOne(TripsByKey(s.db.trips, vehicleId, key));
  }

  /** Once a trip is stored, every later call with its vehicle and key - whatever else it asks for, and
      whatever ran in between - returns that trip and changes nothing; and a call that had looked before
      the trip was stored fails in its transaction. */
  lemma ReplayReturnsTheTrip(s: Sys, cfg: Config, tripId: string, steps: seq<Step>, input: StartInput,
                             found: Option<T.Trip>, ids: Ids, now: Time, ttl: int)
    requires SysInv(s, cfg) && tripId in s.db.trips && input.key != ""
    requires input.vehicleId == s.db.trips[tripId].vehicleId && input.key == s.db.trips[tripId].idempotencyKey
    requires IsTripByKey(Run(s, cfg, steps).db.trips, input.vehicleId, input.key, found)
    ensures var later := Run(s, cfg, steps).db;
            && tripId in later.trips && later.trips[tripId].id == tripId
            && StartResult(later, found, input, ids, now, ttl) == Ok((later, later.trips[tripId]))
            && StartTx(later, input, ids, now, ttl).Err?
  {
    hide Run, SysInv, StartTx, VehiclesAdvance, ShiftsAdvance, OrdersAdvance, HeadsAdvance;
    RunKeepsInvariant(s, cfg, steps);
    var later := Run(s, cfg, steps).db;
    FoundByKey(later, cfg, tripId, input, found) by {
      StoreOf(Run(s, cfg, steps), cfg);
      StoreOf(s, cfg);
    }
    if StartTx(later, input, ids, now, ttl).Ok? {
      StoreOf(Run(s, cfg, steps), cfg);
      StartExactly(later, cfg, input, ids, now, ttl);
      assert false;
    }
  }

  lemma FoundByKey(t: Tables, cfg: Config, tripId: string, input: StartInput, found: Option<T.Trip>)
    requires Inv(t, cfg) && tripId in t.trips && IsTripByKey(t.trips, input.vehicleId, input.key, found)
    requires input.vehicleId == t.trips[tripId].vehicleId && input.key == t.trips[tripId].idempotencyKey
    ensures found == Some(t.trips[tripId]) && t.trips[tripId].id == tripId
  {
    hide VehiclesOk, DriversOk, ShiftsOk, Covered, OrdersOk, OdometerOk, JobsOk, KeysOk, InspectionsOk;
    hide BookingOk, CalendarOk;
  }

  // ---------------------------------------------------------------------------------------
  // The text of the idempotency row
  // ---------------------------------------------------------------------------------------

  /** Two pairs of vehicle and key share the text of their row exactly when they are the same, or one
      vehicle id extends the other by a colon and more. */
  lemma SharedRowExactly(v1: string, k1: string, v2: string, k2: string)
    ensures KeyOf(v1, k1) == KeyOf(v2, k2) <==>
      (v1 == v2 && k1 == k2) || ExtendsByColon(v1, k1, v2, k2) || ExtendsByColon(v2, k2, v1, k1)
  {
    var a, b := v1 + ":" + k1, v2 + ":" + k2;
    if a == b {
      if |v1| <= |v2| {
        SplitOfEqual(v1, k1, v2, k2);
      } else {
        SplitOfEqual(v2, k2, v1, k1);
      }
    }
    if ExtendsByColon(v1, k1, v2, k2) {
      ExtensionIsEqual(v1, k1, v2, k2);
    }
    if ExtendsByColon(v2, k2, v1, k1) {
      ExtensionIsEqual(v2, k2, v1, k1);
    }
  }

  /** The longer vehicle id takes a colon and a word from the front of the shorter one's key. */
  ghost predicate ExtendsByColon(v1: string, k1: string, v2: string, k2: string) {
    exists w: string :: v2 == v1 + ":" + w && k1 == w + ":" + k2
  }

  lemma SplitOfEqual(v1: string, k1: string, v2: string, k2: string)
    requires v1 + ":" + k1 == v2 + ":" + k2 && |v1| <= |v2|
    ensures (v1 == v2 && k1 == k2) || ExtendsByColon(v1, k1, v2, k2)
  {
    var a, b := v1 + ":" + k1, v2 + ":" + k2;
    assert v1 == a[..|v1|] && v2 == b[..|v2|];
    assert k1 == a[|v1| + 1..] && k2 == b[|v2| + 1..];
    if |v1| < |v2| {
      var w := v2[|v1| + 1..];
      assert v2[|v1|] == b[|v1|] == a[|v1|] == ':';
      assert v2 == v1 + ":" + w;
      assert k1 == w + ":" + k2;
    }
  }

  lemma ExtensionIsEqual(v1: string, k1: string, v2: string, k2: string)
    requires ExtendsByColon(v1, k1, v2, k2)
    ensures v1 + ":" + k1 == v2 + ":" + k2
  {
    var w :| v2 == v1 + ":" + w && k1 == w + ":" + k2;
    assert v1 + ":" + (w + ":" + k2) == (v1 + ":" + w) + ":" + k2;
  }

  ghost predicate NoColons(t: Tables) {
    forall k :: k in t.vehicles ==> ':' !in k
  }

  /** With no colon in any vehicle id, the idempotency row never refuses a start that the unique pair of
      vehicle and key allows. */
  lemma RowFollowsThePair(t: Tables, cfg: Config, vehicleId: string, key: string)
    requires Inv(t, cfg) && NoColons(t) && vehicleId in t.vehicles
    ensures KeyOf(vehicleId, key) in t.keys <==> !IsTripByKey(t.trips, vehicleId, key, None)
  {
    hide VehiclesOk, DriversOk, ShiftsOk, Covered, OrdersOk, OdometerOk, JobsOk, InspectionsOk, BookingOk;
    hide CalendarOk, TripsUnique, KeyOf;
    if KeyOf(vehicleId, key) in t.keys {
      var tr := t.trips[t.keys[KeyOf(vehicleId, key)].response.id];
      SharedRowExactly(vehicleId, key, tr.vehicleId, tr.idempotencyKey);
      assert ':' !in vehicleId && ':' !in tr.vehicleId;
      NoExtension(vehicleId, key, tr.vehicleId, tr.idempotencyKey);
      NoExtension(tr.vehicleId, tr.idempotencyKey, vehicleId, key);
    }
  }

  lemma NoExtension(v1: string, k1: string, v2: string, k2: string)
    requires ':' !in v2
    ensures !ExtendsByColon(v1, k1, v2, k2)
  {
    forall w: string ensures v2 != v1 + ":" + w {
      assert (v1 + ":" + w)[|v1|] == ':';
    }
  }

  // ---------------------------------------------------------------------------------------
  // Exactly when the row refuses
  // ---------------------------------------------------------------------------------------

  /** Two pairs of vehicle and key have one text. */
  ghost predicate SharesText(v1: string, k1: string, v2: string, k2: string) {
    (v1 == v2 && k1 == k2) || ExtendsByColon(v1, k1, v2, k2) || ExtendsByColon(v2, k2, v1, k1)
  }

  /** The row of a pair is taken exactly if a stored trip has that pair, or one whose text is the same by a
      colon in a vehicle id. */
  lemma RowIsTakenExactly(t: Tables, cfg: Config, vehicleId: string, key: string)
    requires Inv(t, cfg)
    ensures KeyOf(vehicleId, key) in t.keys <==>
      exists k :: k in t.trips && SharesText(vehicleId, key, t.trips[k].vehicleId, t.trips[k].idempotencyKey)
  {
    hide VehiclesOk, DriversOk, ShiftsOk, Covered, OrdersOk, OdometerOk, JobsOk, InspectionsOk, BookingOk, CalendarOk;
    hide TripsOk, TripsUnique, KeyOf, ExtendsByColon;
    if KeyOf(vehicleId, key) in t.keys {
      var id := t.keys[KeyOf(vehicleId, key)].response.id;
      SharedRowExactly(vehicleId, key, t.trips[id].vehicleId, t.trips[id].idempotencyKey);
      assert SharesText(vehicleId, key, t.trips[id].vehicleId, t.trips[id].idempotencyKey);
    }
    if k :| k in t.trips && SharesText(vehicleId, key, t.trips[k].vehicleId, t.trips[k].idempotencyKey) {
      SharedRowExactly(vehicleId, key, t.trips[k].vehicleId, t.trips[k].idempotencyKey);
    }
  }

  /** A start that meets every other condition is refused, by its row alone, exactly if a stored trip's pair
      has its text by a colon in a vehicle id. */
  lemma RowRefusesExactly(t: Tables, cfg: Config, input: StartInput, ids: Ids, now: Time, ttl: int)
    requires Inv(t, cfg) && MayStartByPair(t, input, ids, now)
    ensures StartTx(t, input, ids, now, ttl).Err? <==>
      exists k :: k in t.trips && DiffersByColon(input, t.trips[k])
  {
    hide Inv, StartTx, StartAllowed;
    StartExactly(t, cfg, input, ids, now, ttl);
    RowIsTakenExactly(t, cfg, input.vehicleId, input.key);
    hide KeyOf, ExtendsByColon, MayStartByPair;
    NoneHasThePair(t, input, ids);
    if k :| k in t.trips && SharesText(input.vehicleId, input.key, t.trips[k].vehicleId, t.trips[k].idempotencyKey) {
      assert DiffersByColon(input, t.trips[k]);
    }
    if k :| k in t.trips && DiffersByColon(input, t.trips[k]) {
      assert SharesText(input.vehicleId, input.key, t.trips[k].vehicleId, t.trips[k].idempotencyKey);
    }
  }

  ghost predicate DiffersByColon(input: StartInput, tr: T.Trip) {
    || ExtendsByColon(input.vehicleId, input.key, tr.vehicleId, tr.idempotencyKey)
    || ExtendsByColon(tr.vehicleId, tr.idempotencyKey, input.vehicleId, input.key)
  }

  lemma NoneHasThePair(t: Tables, input: StartInput, ids: Ids)
    requires StartIsNew(t, input, ids)
    ensures forall k :: k in t.trips
              ==> !(t.trips[k].vehicleId == input.vehicleId && t.trips[k].idempotencyKey == input.key)
  {
  }

  // ---------------------------------------------------------------------------------------
  // Runs whose vehicle ids hold no colon, as those of the generator
  // ---------------------------------------------------------------------------------------

  ghost predicate ColonFree(steps: seq<Step>) {
    forall i :: 0 <= i < |steps| && steps[i].Register? ==> ':' !in steps[i].id
  }

  lemma StepAddsNoColon(s: Sys, cfg: Config, step: Step)
    requires SysInv(s, cfg) && NoColons(s.db) && (step.Register? ==> ':' !in step.id)
    ensures SysInv(Next(s, cfg, step), cfg) && NoColons(Next(s, cfg, step).db)
  {
    hide SysInv, Next, Permitted, Effect, Advances;
    var c := StepKeepsInvariant(s, cfg, step);
    if c.Some? {
      OnlyRegistrationAdds(s.db, cfg, c.value);
    }
  }

  lemma OnlyRegistrationAdds(t: Tables, cfg: Config, c: Change)
    requires Permitted(t, cfg, c)
    ensures Effect(t, c).vehicles.Keys <= t.vehicles.Keys + (if c.VehicleAdded? then {c.v.id} else {})
  {
    hide Permitted;
    if WritesVehicle(c) {
      VehicleWritten(t, cfg, c);
    }
  }

  lemma {:induction false} RunAddsNoColon(s: Sys, cfg: Config, steps: seq<Step>)
    requires SysInv(s, cfg) && NoColons(s.db) && ColonFree(steps)
    ensures SysInv(Run(s, cfg, steps), cfg) && NoColons(Run(s, cfg, steps).db)
    decreases |steps|
  {
    hide SysInv, Next, NoColons;
    if steps != [] {
      StepAddsNoColon(s, cfg, steps[0]);
      RunAddsNoColon(Next(s, cfg, steps[0]), cfg, steps[1..]);
    }
  }

  /** After any run in which no registered vehicle id holds a colon, a start commits exactly under its other
      conditions: the idempotency row never refuses one that the unique pair allows. */
  lemma RowNeverRefuses(cfg: Config, steps: seq<Step>, input: StartInput, ids: Ids, now: Time, ttl: int)
    requires ColonFree(steps)
    ensures var t := Run(START, cfg, steps).db;
            NoColons(t) && (StartTx(t, input, ids, now, ttl).Ok? <==> MayStartByPair(t, input, ids, now))
  {
    hide SysInv, Run, StartTx, StartAllowed, NoColons;
    StartIsFine(cfg);
    NoVehiclesNoColons();
    RunAddsNoColon(START, cfg, steps);
    StoreOf(Run(START, cfg, steps), cfg);
    hide Inv;
    var t := Run(START, cfg, steps).db;
    StartExactly(t, cfg, input, ids, now, ttl);
    if MayStartByPair(t, input, ids, now) {
      VehicleIsKnown(t, input, now);
      RowFollowsThePair(t, cfg, input.vehicleId, input.key);
    }
  }

  lemma NoVehiclesNoColons()
    ensures NoColons(EMPTY)
  {
  }

  lemma VehicleIsKnown(t: Tables, input: StartInput, now: Time)
    requires StartAllowed(t, input, now)
    ensures input.vehicleId in t.vehicles
  {
  }

  // ---------------------------------------------------------------------------------------
  // With colons it can refuse one
  // ---------------------------------------------------------------------------------------

  /** The texts of two pairs of different vehicles. */
  lemma RowsCanCollide()
    ensures KeyOf("truck", "7:morning") == KeyOf("truck:7", "morning")
  {
    assert ExtendsByColon("truck", "7:morning", "truck:7", "morning") by {
      assert "truck:7" == "truck" + ":" + "7" && "7:morning" == "7" + ":" + "morning";
    }
    SharedRowExactly("truck", "7:morning", "truck:7", "morning");
  }

  function PlanOf(calendar: BusinessDay.Calendar, day: int, vehicleId: string, shiftId: string,
                  key: string): GoodDay.Plan {
    var first := BusinessDay.Bounds(calendar, BusinessDay.Day(day)).value.0;
    GoodDay.Plan("r", "d", vehicleId, shiftId, key, BusinessDay.Day(day), first, first)
  }

  ghost predicate Avoids(calendar: BusinessDay.Calendar, day: int) {
    var first := BusinessDay.Bounds(calendar, BusinessDay.Day(day)).value.0;
    first != ZERO_TIME && first + 1 != ZERO_TIME
  }

  /** A start that the idempotency row alone refuses. */
  ghost predicate OnlyRowRefuses(t: Tables, input: StartInput, ids: Ids, now: Time) {
    MayStartByPair(t, input, ids, now) && StartTx(t, input, ids, now, 0).Err?
  }

  /** For any limits and calendar a run in which vehicle ids hold colons leads to a start that only the
      idempotency row refuses. */
  lemma ColonsCanRefuse(cfg: Config)
    ensures exists s, input, ids, now :: Reached(s, cfg) && OnlyRowRefuses(s.db, input, ids, now)
  {
    hide Reached, PlanOf, OnlyRowRefuses, GoodDay.Possible, GoodDay.Prepared, GoodDay.Drove;
    var calendar := if cfg.calendar.Some? then cfg.calendar.value else BusinessDay.Calendar(0, 0);
    var day := FreeDays(calendar);
    FirstIsPossible(cfg, calendar, day);
    var p := PlanOf(calendar, day, "truck", "s", "7:morning");
    GoodDay.ATripCanBeDriven(cfg, p);
    var s :| Reached(s, cfg) && GoodDay.Drove(GoodDay.Prepared(EMPTY, p), s.db, p, Ids("t", "j"), "jj");
    var after, input, ids, now := SecondTrip(s, cfg, calendar, day);
  }

  /** After the first trip, the second is prepared and then refused. */
  lemma SecondTrip(s: Sys, cfg: Config, calendar: BusinessDay.Calendar, day: int)
    returns (after: Sys, input: StartInput, ids: Ids, now: Time)
    requires Reached(s, cfg) && (cfg.calendar.Some? ==> calendar == cfg.calendar.value) && Avoids(calendar, day + 1)
    requires var p := PlanOf(calendar, day, "truck", "s", "7:morning");
             GoodDay.Drove(GoodDay.Prepared(EMPTY, p), s.db, p, Ids("t", "j"), "jj")
    ensures Reached(after, cfg) && OnlyRowRefuses(after.db, input, ids, now)
  {
    hide Reached, PlanOf, SysInv, Run, StartAllowed, StartTx, MayStartByPair, IsTripByKey, Avoids;
    hide GoodDay.Possible, GoodDay.Prepared, GoodDay.Drove, GoodDay.Preparation;
    var q := PlanOf(calendar, day + 1, "truck:7", "ss", "morning");
    ReachedIsFine(s, cfg);
    SecondIsPossible(cfg, calendar, day, s.db);
    GoodDay.Prepares(s, cfg, q);
    after := s.(db := GoodDay.Prepared(s.db, q));
    StillReached(s, cfg, GoodDay.Preparation(q));
    StoreOf(after, cfg);
    SecondIsRefused(cfg, calendar, day, s.db);
    input, ids, now := q.Input(), Ids("tt", "jjj"), q.at;
  }

  lemma StillReached(s: Sys, cfg: Config, more: seq<Step>)
    requires Reached(s, cfg)
    ensures Reached(Run(s, cfg, more), cfg)
  {
    hide Run;
    var steps :| s == Run(START, cfg, steps);
    Interleaving.RunInTwo(START, cfg, steps, more);
    assert Run(START, cfg, steps + more) == Run(s, cfg, more);
  }

  /** Two consecutive days whose first instants are not the zero time. */
  lemma FreeDays(calendar: BusinessDay.Calendar) returns (day: int)
    ensures Avoids(calendar, day) && Avoids(calendar, day + 1)
  {
    day := 0;
    if !Avoids(calendar, 0) || !Avoids(calendar, 1) {
      day := 2;
    }
  }

  lemma FirstIsPossible(cfg: Config, calendar: BusinessDay.Calendar, day: int)
    requires cfg.calendar.Some? ==> calendar == cfg.calendar.value
    requires Avoids(calendar, day)
    ensures GoodDay.Possible(EMPTY, cfg, PlanOf(calendar, day, "truck", "s", "7:morning"))
  {
    assert !Planning.IsSpace("r"[0]);
  }

  lemma SecondIsPossible(cfg: Config, calendar: BusinessDay.Calendar, day: int, t: Tables)
    requires (cfg.calendar.Some? ==> calendar == cfg.calendar.value) && Avoids(calendar, day + 1)
    requires var p := PlanOf(calendar, day, "truck", "s", "7:morning");
             GoodDay.Drove(GoodDay.Prepared(EMPTY, p), t, p, Ids("t", "j"), "jj")
    ensures GoodDay.Possible(t, cfg, PlanOf(calendar, day + 1, "truck:7", "ss", "morning"))
  {
    AfterFirst(calendar, day, t);
    hide GoodDay.Drove, GoodDay.Prepared;
    assert !Planning.IsSpace("r"[0]);
    assert |"truck"| == 5 && |"truck:7"| == 7 && |"s"| == 1 && |"ss"| == 2;
  }

  lemma AfterFirst(calendar: BusinessDay.Calendar, day: int, t: Tables)
    requires var p := PlanOf(calendar, day, "truck", "s", "7:morning");
             GoodDay.Drove(GoodDay.Prepared(EMPTY, p), t, p, Ids("t", "j"), "jj")
    ensures t.vehicles.Keys == {"truck"} && t.shifts.Keys == {"s"}
    ensures t.shifts["s"].serviceDate == BusinessDay.Day(day)
  {
    hide KeyOf;
  }

  lemma SecondIsRefused(cfg: Config, calendar: BusinessDay.Calendar, day: int, t: Tables)
    requires var p := PlanOf(calendar, day, "truck", "s", "7:morning");
             GoodDay.Drove(GoodDay.Prepared(EMPTY, p), t, p, Ids("t", "j"), "jj")
    requires var q := PlanOf(calendar, day + 1, "truck:7", "ss", "morning");
      && Inv(GoodDay.Prepared(t, q), cfg) && StartAllowed(GoodDay.Prepared(t, q), q.Input(), q.at)
      && IsTripByKey(t.trips, q.vehicleId, q.key, None)
    ensures var q := PlanOf(calendar, day + 1, "truck:7", "ss", "morning");
      && MayStartByPair(GoodDay.Prepared(t, q), q.Input(), Ids("tt", "jjj"), q.at)
      && StartTx(GoodDay.Prepared(t, q), q.Input(), Ids("tt", "jjj"), q.at, 0).Err?
  {
    hide Inv, StartTx, StartAllowed, KeyOf, IsTripByKey;
    var q := PlanOf(calendar, day + 1, "truck:7", "ss", "morning");
    RowsCanCollide();
    assert |"t"| == 1 && |"tt"| == 2 && |"j"| == 1 && |"jj"| == 2 && |"jjj"| == 3;
    assert t.trips.Keys == {"t"} && t.jobs.Keys == {"j", "jj"};
    StartExactly(GoodDay.Prepared(t, q), cfg, q.Input(), Ids("tt", "jjj"), q.at, 0);
  }
}
