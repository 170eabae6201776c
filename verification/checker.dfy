/** Whether a vehicle can take one more shift (internal/service/scheduling/checker.go). */
module Scheduling {
  import opened Basics
  import opened BusinessDay
  import opened Schedule
  import opened Sums
  import opened Paging
  import Sorting
  import W = Workplan
  import Schema

  datatype Limits = Limits(maximumDuty: int, minimumBreak: int)

  function MaximumDuty(l: Limits): int { if l.maximumDuty <= 0 then 16 * HOUR else l.maximumDuty }

  function MinimumBreak(l: Limits): int { if l.minimumBreak <= 0 then 15 * MINUTE else l.minimumBreak }

  predicate Books(s: W.Shift, vehicleId: string) {
    s.assignedVehicleId == Some(vehicleId) && s.status != W.Cancelled
  }

  function WindowOf(s: W.Shift): Window { Window(s.id, s.startAt, s.endAt) }

  /** The windows that shifts of a result set book on a vehicle, in the order of the result set. */
  function BookedWindows(rows: seq<W.Shift>, vehicleId: string): seq<Window> {
    if rows == [] then []
    else
      BookedWindows(rows[..|rows| - 1], vehicleId)
      + (if Books(rows[|rows| - 1], vehicleId) then [WindowOf(rows[|rows| - 1])] else [])
  }

  predicate AllValid(ws: seq<Window>) {
    forall i :: 0 <= i < |ws| ==> ValidWindow(ws[i])
  }

  predicate PairwiseCompatible(ws: seq<Window>, minimumBreak: int) {
    forall i, j :: 0 <= i < j < |ws| && ws[i].shiftId != ws[j].shiftId ==> Compatible(ws[i], ws[j], minimumBreak)
  }

  /** What a set of windows must satisfy together, whatever their order. */
  predicate Feasible(ws: seq<Window>, l: Limits) {
    && AllValid(ws)
    && PairwiseCompatible(ws, MinimumBreak(l))
    && TotalDuty(ws) <= MaximumDuty(l)
  }

  predicate CanTake(rows: seq<W.Shift>, target: W.Shift, vehicleId: string, l: Limits) {
    Feasible(BookedWindows(rows, vehicleId) + [WindowOf(target)], l)
  }

  /** The roster holds exactly the windows booked by the rows read so far, and they are feasible. */
  ghost predicate Tracks(roster: Roster, seen: seq<W.Shift>, vehicleId: string, l: Limits) {
    && WellKept(roster)
    && multiset(roster.windows) == multiset(BookedWindows(seen, vehicleId))
    && AllValid(roster.windows)
    && Feasible(BookedWindows(seen, vehicleId), l)
  }

  /** The loop body: one row of a page. */
  method Consider(roster: Roster, ghost seen: seq<W.Shift>, existing: W.Shift, vehicleId: string, l: Limits)
    returns (r: Result<Roster>)
    requires Tracks(roster, seen, vehicleId, l)
    ensures r.Ok? ==> Tracks(r.value, seen + [existing], vehicleId, l)
    ensures r.Err? ==> !Feasible(BookedWindows(seen + [existing], vehicleId), l)
  {
    assert (seen + [existing])[..|seen|] == seen;
    if !Books(existing, vehicleId) {
      assert BookedWindows(seen + [existing], vehicleId) == BookedWindows(seen, vehicleId);
      return Ok(roster);
    }
    ghost var sofar := BookedWindows(seen, vehicleId);
    ghost var part := sofar + [WindowOf(existing)];
    assert part == BookedWindows(seen + [existing], vehicleId);
    var window := NewWindow(existing.id, existing.startAt, existing.endAt);
    if window.Err? {
      assert !ValidWindow(part[|part| - 1]);
      return Err(window.error);
    }
    FitsExactly(roster, sofar, window.value, l);
    r := Add(roster, window.value, MaximumDuty(l), MinimumBreak(l));
    if r.Ok? {
      SameValidity(r.value.windows, part);
    }
  }

  method CanAssign(rows: seq<W.Shift>, target: W.Shift, vehicleId: string, l: Limits) returns (r: Check)
    ensures r.Ok? <==> CanTake(rows, target, vehicleId, l)
  {
    hide Tracks, CanTake;
    var roster := Roster(vehicleId, [], 0);
    NothingSeen(vehicleId, l);
    assert rows[..0] == [];
    var offset := 0;
    while true
      invariant 0 <= offset <= |rows|
      invariant Tracks(roster, rows[..offset], vehicleId, l)
      decreases |rows| - offset
    {
      var items := PageAt(rows, offset);
      var next := ReadPage(roster, rows, offset, items, target, vehicleId, l);
      if next.Err? {
        return Err(next.error);
      }
      roster := next.value;
      offset := offset + |items|;
      if offset >= |rows| {
        break;
      }
    }
    assert rows[..offset] == rows;
    r := Finish(roster, rows, target, vehicleId, l);
  }

  lemma NothingSeen(vehicleId: string, l: Limits)
    ensures Tracks(Roster(vehicleId, [], 0), [], vehicleId, l)
  {
  }

  method ReadPage(start: Roster, ghost rows: seq<W.Shift>, ghost offset: nat, items: seq<W.Shift>,
                  ghost target: W.Shift, vehicleId: string, l: Limits) returns (r: Result<Roster>)
    requires offset <= |rows| && items <= rows[offset..]
    requires Tracks(start, rows[..offset], vehicleId, l)
    ensures r.Ok? ==> Tracks(r.value, rows[..offset + |items|], vehicleId, l)
    ensures r.Err? ==> !CanTake(rows, target, vehicleId, l)
  {
    hide Tracks, CanTake;
    var roster := start;
    for k := 0 to |items|
      invariant Tracks(roster, rows[..offset + k], vehicleId, l)
    {
      assert items[k] == rows[offset + k];
      assert rows[..offset + k] + [items[k]] == rows[..offset + k + 1];
      var next := Consider(roster, rows[..offset + k], items[k], vehicleId, l);
      if next.Err? {
        InfeasiblePart(rows, offset + k + 1, target, vehicleId, l);
        return Err(next.error);
      }
      roster := next.value;
    }
    r := Ok(roster);
  }

  /** After the loop: the target itself. */
  method Finish(roster: Roster, ghost rows: seq<W.Shift>, target: W.Shift, vehicleId: string, l: Limits)
      returns (r: Check)
    requires Tracks(roster, rows, vehicleId, l)
    ensures r.Ok? <==> CanTake(rows, target, vehicleId, l)
  {
    ghost var all := BookedWindows(rows, vehicleId) + [WindowOf(target)];
    var window := NewWindow(target.id, target.startAt, target.endAt);
    if window.Err? {
      assert !ValidWindow(all[|all| - 1]);
      return Err(window.error);
    }
    FitsExactly(roster, BookedWindows(rows, vehicleId), window.value, l);
    var added := Add(roster, window.value, MaximumDuty(l), MinimumBreak(l));
    r := if added.Err? then Err(added.error) else PASS;
  }

  /** An infeasible prefix of the result set rules the target out. */
  lemma InfeasiblePart(rows: seq<W.Shift>, n: nat, target: W.Shift, vehicleId: string, l: Limits)
    requires n <= |rows| && !Feasible(BookedWindows(rows[..n], vehicleId), l)
    ensures !CanTake(rows, target, vehicleId, l)
  {
    PrefixOfBooked(rows, n, vehicleId);
    PartOfFeasible(BookedWindows(rows[..n], vehicleId), BookedWindows(rows, vehicleId) + [WindowOf(target)], l);
  }

  lemma {:induction false} PrefixOfBooked(rows: seq<W.Shift>, n: nat, vehicleId: string)
    requires n <= |rows|
    ensures BookedWindows(rows[..n], vehicleId) <= BookedWindows(rows, vehicleId)
    decreases |rows| - n
  {
    if n == |rows| {
      assert rows[..n] == rows;
    } else {
      PrefixOfBooked(rows, n + 1, vehicleId);
      assert rows[..n + 1][..n] == rows[..n];
    }
  }

  lemma SameValidity(a: seq<Window>, b: seq<Window>)
    requires multiset(a) == multiset(b)
    ensures AllValid(a) <==> AllValid(b)
  {
    if AllValid(a) {
      forall i | 0 <= i < |b| ensures ValidWindow(b[i]) { Sorting.SameMembers(a, b, b[i]); }
    }
    if AllValid(b) {
      forall i | 0 <= i < |a| ensures ValidWindow(a[i]) { Sorting.SameMembers(a, b, a[i]); }
    }
  }

  /** Every initial part of a feasible list is feasible. */
  lemma PartOfFeasible(part: seq<Window>, all: seq<Window>, l: Limits)
    requires part <= all
    ensures Feasible(all, l) ==> Feasible(part, l)
  {
    if !Feasible(all, l) {
      return;
    }
    var rest := all[|part|..];
    assert all == part + rest;
    TotalDutySplit(part, rest);
    assert AllValid(rest) by {
      forall i | 0 <= i < |rest| ensures ValidWindow(rest[i]) { assert rest[i] == all[|part| + i]; }
    }
    DutyIsPositive(rest);
  }

  /** What the roster tests for one more window is what makes the longer list feasible. */
  lemma FitsExactly(r: Roster, ws: seq<Window>, w: Window, l: Limits)
    requires multiset(r.windows) == multiset(ws) && Feasible(ws, l) && ValidWindow(w)
    ensures Fits(r.windows, w, MaximumDuty(l), MinimumBreak(l)) <==> Feasible(ws + [w], l)
  {
    var all := ws + [w];
    TotalDutyPermuted(r.windows, ws);
    TotalDutyAppend(ws, w);
    if Fits(r.windows, w, MaximumDuty(l), MinimumBreak(l)) {
      forall i, j | 0 <= i < j < |all| && all[i].shiftId != all[j].shiftId
        ensures Compatible(all[i], all[j], MinimumBreak(l))
      {
        if j == |ws| {
          Sorting.SameMembers(r.windows, ws, all[i]);
        }
      }
    }
    if Feasible(all, l) {
      forall i | 0 <= i < |r.windows| && r.windows[i].shiftId != w.shiftId
        ensures Compatible(r.windows[i], w, MinimumBreak(l))
      {
        Sorting.SameMembers(r.windows, ws, r.windows[i]);
        var k :| 0 <= k < |ws| && ws[k] == r.windows[i];
        assert all[k] == ws[k] && all[|ws|] == w;
      }
    }
  }

  lemma {:induction false} DutyIsPositive(ws: seq<Window>)
    requires AllValid(ws)
    ensures TotalDuty(ws) >= 0
    decreases |ws|
  {
    if ws != [] {
      DutyIsPositive(ws[..|ws| - 1]);
      assert ws == ws[..|ws| - 1] + [ws[|ws| - 1]];
      TotalDutyAppend(ws[..|ws| - 1], ws[|ws| - 1]);
    }
  }

  // ---------------------------------------------------------------------------------------
  // The verdict is a matter of the stored shifts alone
  // ---------------------------------------------------------------------------------------

  predicate BookedOn(s: W.Shift, vehicleId: string, date: ServiceDate) {
    Books(s, vehicleId) && s.serviceDate == date
  }

  /** The duty of each shift that is booked on a vehicle for a date. */
  ghost function DutyMap(shifts: map<string, W.Shift>, vehicleId: string, date: ServiceDate): map<string, int> {
    map k | k in shifts && BookedOn(shifts[k], vehicleId, date) :: shifts[k].endAt - shifts[k].startAt
  }

  ghost predicate Keyed(shifts: map<string, W.Shift>) {
    forall k :: k in shifts ==> shifts[k].id == k
  }

  ghost predicate BookedValid(shifts: map<string, W.Shift>, vehicleId: string, date: ServiceDate) {
    forall k :: k in shifts && BookedOn(shifts[k], vehicleId, date) ==> ValidWindow(WindowOf(shifts[k]))
  }

  ghost predicate BookedApart(shifts: map<string, W.Shift>, vehicleId: string, date: ServiceDate, minimumBreak: int) {
    forall a, b :: a in shifts && b in shifts && a != b
      && BookedOn(shifts[a], vehicleId, date) && BookedOn(shifts[b], vehicleId, date)
      ==> Compatible(WindowOf(shifts[a]), WindowOf(shifts[b]), minimumBreak)
  }

  ghost predicate ApartFrom(shifts: map<string, W.Shift>, target: W.Shift, vehicleId: string, date: ServiceDate,
                            minimumBreak: int) {
    forall k :: k in shifts && k != target.id && BookedOn(shifts[k], vehicleId, date)
      ==> Compatible(WindowOf(shifts[k]), WindowOf(target), minimumBreak)
  }

  /** The vehicle's stored bookings of the target's date leave room for the target. */
  ghost predicate LeavesRoom(shifts: map<string, W.Shift>, target: W.Shift, vehicleId: string, l: Limits) {
    var date := target.serviceDate;
    && BookedValid(shifts, vehicleId, date)
    && BookedApart(shifts, vehicleId, date, MinimumBreak(l))
    && ValidWindow(WindowOf(target))
    && ApartFrom(shifts, target, vehicleId, date, MinimumBreak(l))
    && Sum(DutyMap(shifts, vehicleId, date)) + WindowOf(target).Duration() <= MaximumDuty(l)
  }

  lemma {:induction false} BookedMembers(rows: seq<W.Shift>, vehicleId: string)
    ensures forall w :: w in BookedWindows(rows, vehicleId) ==>
      exists i :: 0 <= i < |rows| && Books(rows[i], vehicleId) && WindowOf(rows[i]) == w
    ensures forall i :: 0 <= i < |rows| && Books(rows[i], vehicleId)
              ==> WindowOf(rows[i]) in BookedWindows(rows, vehicleId)
    decreases |rows|
  {
    if rows != [] {
      var front := rows[..|rows| - 1];
      BookedMembers(front, vehicleId);
      forall w | w in BookedWindows(rows, vehicleId)
        ensures exists i :: 0 <= i < |rows| && Books(rows[i], vehicleId) && WindowOf(rows[i]) == w
      {
        if w in BookedWindows(front, vehicleId) {
          var i :| 0 <= i < |front| && Books(front[i], vehicleId) && WindowOf(front[i]) == w;
          assert rows[i] == front[i];
        } else {
          assert WindowOf(rows[|rows| - 1]) == w;
        }
      }
      forall i | 0 <= i < |rows| && Books(rows[i], vehicleId)
        ensures WindowOf(rows[i]) in BookedWindows(rows, vehicleId)
      {
        if i < |rows| - 1 {
          assert rows[i] == front[i];
        }
      }
    }
  }

  lemma {:induction false} BookedDistinct(rows: seq<W.Shift>, vehicleId: string)
    requires Schema.DistinctIds(rows)
    ensures forall i, j :: 0 <= i < j < |BookedWindows(rows, vehicleId)| ==>
      BookedWindows(rows, vehicleId)[i].shiftId != BookedWindows(rows, vehicleId)[j].shiftId
    decreases |rows|
  {
    if rows != [] {
      var front, last := rows[..|rows| - 1], rows[|rows| - 1];
      BookedDistinct(front, vehicleId);
      BookedMembers(front, vehicleId);
      var ws := BookedWindows(front, vehicleId);
      forall i | 0 <= i < |ws| ensures ws[i].shiftId != last.id {
        assert ws[i] in ws;
        var k :| 0 <= k < |front| && WindowOf(front[k]) == ws[i];
        assert rows[k] == front[k];
      }
    }
  }

  /** The duty booked by the first rows of a result set, by shift. */
  ghost function RowDuty(rows: seq<W.Shift>, vehicleId: string): map<string, int> {
    if rows == [] then map[]
    else
      var last := rows[|rows| - 1];
      if Books(last, vehicleId)
      then RowDuty(rows[..|rows| - 1], vehicleId)[last.id := last.endAt - last.startAt]
      else RowDuty(rows[..|rows| - 1], vehicleId)
  }

  ghost predicate ComesFromRow(rows: seq<W.Shift>, vehicleId: string, id: string, duty: int) {
    exists i :: 0 <= i < |rows| && rows[i].id == id && Books(rows[i], vehicleId)
      && duty == rows[i].endAt - rows[i].startAt
  }

  lemma RowDutyComesFrom(rows: seq<W.Shift>, vehicleId: string)
    requires Schema.DistinctIds(rows) && rows != []
    requires var front := rows[..|rows| - 1];
             && (forall k :: k in RowDuty(front, vehicleId)
                   ==> ComesFromRow(front, vehicleId, k, RowDuty(front, vehicleId)[k]))
             && (forall i :: 0 <= i < |front| && Books(front[i], vehicleId)
                   ==> front[i].id in RowDuty(front, vehicleId))
    ensures forall k :: k in RowDuty(rows, vehicleId) ==> ComesFromRow(rows, vehicleId, k, RowDuty(rows, vehicleId)[k])
    ensures forall i :: 0 <= i < |rows| && Books(rows[i], vehicleId) ==> rows[i].id in RowDuty(rows, vehicleId)
    ensures rows[|rows| - 1].id !in RowDuty(rows[..|rows| - 1], vehicleId)
  {
    var front, last := rows[..|rows| - 1], rows[|rows| - 1];
    var before := RowDuty(front, vehicleId);
    forall k | k in before ensures k != last.id {
      var i :| 0 <= i < |front| && front[i].id == k;
      assert rows[i] == front[i];
    }
    forall k | k in RowDuty(rows, vehicleId)
      ensures ComesFromRow(rows, vehicleId, k, RowDuty(rows, vehicleId)[k])
    {
      if k in before && k != last.id {
        var i :| 0 <= i < |front| && front[i].id == k && Books(front[i], vehicleId)
            && before[k] == front[i].endAt - front[i].startAt;
        assert rows[i] == front[i];
      } else {
        assert rows[|rows| - 1].id == k;
      }
    }
    forall i | 0 <= i < |rows| && Books(rows[i], vehicleId) ensures rows[i].id in RowDuty(rows, vehicleId) {
      if i < |rows| - 1 {
        assert rows[i] == front[i];
      }
    }
  }

  lemma {:induction false} RowDutyIsTotal(rows: seq<W.Shift>, vehicleId: string)
    requires Schema.DistinctIds(rows)
    ensures Sum(RowDuty(rows, vehicleId)) == TotalDuty(BookedWindows(rows, vehicleId))
    ensures forall k :: k in RowDuty(rows, vehicleId) ==> ComesFromRow(rows, vehicleId, k, RowDuty(rows, vehicleId)[k])
    ensures forall i :: 0 <= i < |rows| && Books(rows[i], vehicleId) ==> rows[i].id in RowDuty(rows, vehicleId)
    decreases |rows|
  {
    if rows == [] {
      assert TotalDuty([]) == 0;
    } else {
      RowDutyIsTotal(rows[..|rows| - 1], vehicleId);
      RowDutyComesFrom(rows, vehicleId);
      LastRowDuty(rows, vehicleId);
    }
  }

  lemma LastRowDuty(rows: seq<W.Shift>, vehicleId: string)
    requires rows != [] && rows[|rows| - 1].id !in RowDuty(rows[..|rows| - 1], vehicleId)
    requires Sum(RowDuty(rows[..|rows| - 1], vehicleId)) == TotalDuty(BookedWindows(rows[..|rows| - 1], vehicleId))
    ensures Sum(RowDuty(rows, vehicleId)) == TotalDuty(BookedWindows(rows, vehicleId))
  {
    hide Sum, TotalDuty;
    var front, last := rows[..|rows| - 1], rows[|rows| - 1];
    SumPlus(RowDuty(front, vehicleId), last.id, last.endAt - last.startAt);
    TotalDutyAppend(BookedWindows(front, vehicleId), WindowOf(last));
    assert !Books(last, vehicleId) ==> BookedWindows(rows, vehicleId) == BookedWindows(front, vehicleId);
  }

  lemma ListedDuty(shifts: map<string, W.Shift>, date: ServiceDate, rows: seq<W.Shift>, vehicleId: string)
    requires Keyed(shifts) && Schema.IsListing(shifts, date, rows)
    ensures TotalDuty(BookedWindows(rows, vehicleId)) == Sum(DutyMap(shifts, vehicleId, date))
  {
    RowDutyIsTotal(rows, vehicleId);
    hide Sum, TotalDuty, RowDuty, BookedWindows, Books, DutyMap, Schema.IsListing;
    var listed, stored := RowDuty(rows, vehicleId), DutyMap(shifts, vehicleId, date);
    forall k | k in listed ensures k in stored && stored[k] == listed[k] {
      ListedIsStored(shifts, date, rows, vehicleId, k, listed[k]);
    }
    forall k | k in stored ensures k in listed {
      var i := StoredIsListed(shifts, date, rows, vehicleId, k);
    }
    assert listed == stored;
  }

  lemma ListedIsStored(shifts: map<string, W.Shift>, date: ServiceDate, rows: seq<W.Shift>, vehicleId: string,
                       id: string, duty: int)
    requires Keyed(shifts) && Schema.IsListing(shifts, date, rows) && ComesFromRow(rows, vehicleId, id, duty)
    ensures id in DutyMap(shifts, vehicleId, date) && DutyMap(shifts, vehicleId, date)[id] == duty
  {
  }

  lemma StoredIsListed(shifts: map<string, W.Shift>, date: ServiceDate, rows: seq<W.Shift>, vehicleId: string,
                       id: string)
    returns (i: nat)
    requires Keyed(shifts) && Schema.IsListing(shifts, date, rows) && id in DutyMap(shifts, vehicleId, date)
    ensures i < |rows| && rows[i].id == id && Books(rows[i], vehicleId)
  {
    assert shifts[id] in rows;
    i :| 0 <= i < |rows| && rows[i] == shifts[id];
  }

  /** A stored shift of the date is booked on the vehicle exactly when its window is listed. */
  lemma ListedWindows(shifts: map<string, W.Shift>, date: ServiceDate, rows: seq<W.Shift>, vehicleId: string)
    requires Keyed(shifts) && Schema.IsListing(shifts, date, rows)
    ensures forall w :: w in BookedWindows(rows, vehicleId) ==>
      w.shiftId in shifts && BookedOn(shifts[w.shiftId], vehicleId, date) && w == WindowOf(shifts[w.shiftId])
    ensures forall k :: k in shifts && BookedOn(shifts[k], vehicleId, date)
              ==> WindowOf(shifts[k]) in BookedWindows(rows, vehicleId)
  {
    BookedMembers(rows, vehicleId);
    forall w | w in BookedWindows(rows, vehicleId)
      ensures w.shiftId in shifts && BookedOn(shifts[w.shiftId], vehicleId, date) && w == WindowOf(shifts[w.shiftId])
    {
      var i :| 0 <= i < |rows| && Books(rows[i], vehicleId) && WindowOf(rows[i]) == w;
    }
    forall k | k in shifts && BookedOn(shifts[k], vehicleId, date)
      ensures WindowOf(shifts[k]) in BookedWindows(rows, vehicleId)
    {
      assert shifts[k] in rows;
      var i :| 0 <= i < |rows| && rows[i] == shifts[k];
    }
  }

  /** The paged, incremental check of the code accepts exactly when the stored bookings leave room,
      whatever the order in which the database lists them. */
  lemma ListingDecides(shifts: map<string, W.Shift>, rows: seq<W.Shift>, target: W.Shift, vehicleId: string, l: Limits)
    requires Keyed(shifts) && Schema.IsListing(shifts, target.serviceDate, rows)
    ensures CanTake(rows, target, vehicleId, l) <==> LeavesRoom(shifts, target, vehicleId, l)
  {
    var date, ws := target.serviceDate, BookedWindows(rows, vehicleId);
    ListedDuty(shifts, date, rows, vehicleId);
    TotalDutyAppend(ws, WindowOf(target));
    ListedWindows(shifts, date, rows, vehicleId);
    if CanTake(rows, target, vehicleId, l) {
      RoomFromListing(shifts, rows, target, vehicleId, l);
    }
    if LeavesRoom(shifts, target, vehicleId, l) {
      ListingFromRoom(shifts, rows, target, vehicleId, l);
    }
  }

  lemma RoomFromListing(shifts: map<string, W.Shift>, rows: seq<W.Shift>, target: W.Shift, vehicleId: string, l: Limits)
    requires Keyed(shifts) && Schema.IsListing(shifts, target.serviceDate, rows)
    requires CanTake(rows, target, vehicleId, l)
    ensures BookedValid(shifts, vehicleId, target.serviceDate) && ValidWindow(WindowOf(target))
    ensures BookedApart(shifts, vehicleId, target.serviceDate, MinimumBreak(l))
    ensures ApartFrom(shifts, target, vehicleId, target.serviceDate, MinimumBreak(l))
  {
    var date, ws := target.serviceDate, BookedWindows(rows, vehicleId);
    var all := ws + [WindowOf(target)];
    ListedWindows(shifts, date, rows, vehicleId);
    assert all[|ws|] == WindowOf(target);
    forall k | k in shifts && BookedOn(shifts[k], vehicleId, date)
      ensures ValidWindow(WindowOf(shifts[k]))
      ensures k != target.id ==> Compatible(WindowOf(shifts[k]), WindowOf(target), MinimumBreak(l))
    {
      var i :| 0 <= i < |ws| && ws[i] == WindowOf(shifts[k]);
      assert all[i] == ws[i];
    }
    forall a, b | a in shifts && b in shifts && a != b
      && BookedOn(shifts[a], vehicleId, date) && BookedOn(shifts[b], vehicleId, date)
      ensures Compatible(WindowOf(shifts[a]), WindowOf(shifts[b]), MinimumBreak(l))
    {
      var i :| 0 <= i < |ws| && ws[i] == WindowOf(shifts[a]);
      var j :| 0 <= j < |ws| && ws[j] == WindowOf(shifts[b]);
      assert all[i] == ws[i] && all[j] == ws[j];
      GapTestMeansCompatible(ws[i], ws[j], MinimumBreak(l));
    }
  }

  lemma ListingFromRoom(shifts: map<string, W.Shift>, rows: seq<W.Shift>, target: W.Shift, vehicleId: string, l: Limits)
    requires Keyed(shifts) && Schema.IsListing(shifts, target.serviceDate, rows)
    requires LeavesRoom(shifts, target, vehicleId, l)
    ensures AllValid(BookedWindows(rows, vehicleId) + [WindowOf(target)])
    ensures PairwiseCompatible(BookedWindows(rows, vehicleId) + [WindowOf(target)], MinimumBreak(l))
  {
    var date, ws := target.serviceDate, BookedWindows(rows, vehicleId);
    var all := ws + [WindowOf(target)];
    ListedWindows(shifts, date, rows, vehicleId);
    forall i | 0 <= i < |all| ensures ValidWindow(all[i]) {
      if i < |ws| {
        assert ws[i] in ws;
      }
    }
    forall i, j | 0 <= i < j < |all| && all[i].shiftId != all[j].shiftId
      ensures Compatible(all[i], all[j], MinimumBreak(l))
    {
      assert ws[i] in ws;
      if j < |ws| {
        assert ws[j] in ws;
      }
    }
  }

  /** Two orders of the same stored shifts give the same verdict. */
  lemma OrderDoesNotMatter(shifts: map<string, W.Shift>, a: seq<W.Shift>, b: seq<W.Shift>, target: W.Shift,
                           vehicleId: string, l: Limits)
    requires Keyed(shifts)
    requires Schema.IsListing(shifts, target.serviceDate, a) && Schema.IsListing(shifts, target.serviceDate, b)
    ensures CanTake(a, target, vehicleId, l) <==> CanTake(b, target, vehicleId, l)
  {
    ListingDecides(shifts, a, target, vehicleId, l);
    ListingDecides(shifts, b, target, vehicleId, l);
  }
}
