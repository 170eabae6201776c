/** The day's report (internal/domain/reconciliation/reconciliation.go). */
module Reconciliation {
  import opened Basics
  import opened BusinessDay
  import Sorting
  import TextOrder
  import opened Sums
  import T = Trips
  import W = Workplan

  datatype Severity = Warning | Blocking

  datatype Code =
    | CompletedShiftTripMismatch
    | ShiftOverrun
    | AssignedShiftNotStarted
    | ScheduledShiftUnassigned
    | MultipleTripsForShift
    | LongRunningTrip
    | ZeroDistanceTrip

  function Text(code: Code): string {
    match code
    case CompletedShiftTripMismatch => "completed_shift_trip_mismatch"
    case ShiftOverrun => "shift_overrun"
    case AssignedShiftNotStarted => "assigned_shift_not_started"
    case ScheduledShiftUnassigned => "scheduled_shift_unassigned"
    case MultipleTripsForShift => "multiple_trips_for_shift"
    case LongRunningTrip => "long_running_trip"
    case ZeroDistanceTrip => "zero_distance_trip"
  }

  datatype Finding = Finding(code: Code, severity: Severity, shiftId: string, tripId: string)

  const LONGEST_TRIP: int := 16 * HOUR

  // ---------------------------------------------------------------------------------------
  // What a report should say
  // ---------------------------------------------------------------------------------------

  function Count<X>(items: seq<X>, p: X -> bool): nat {
    if items == [] then 0
    else Count(items[..|items| - 1], p) + (if p(items[|items| - 1]) then 1 else 0)
  }

  function OnShift(id: string): T.Trip -> bool {
    (tr: T.Trip) => tr.shiftId == id
  }

  function CompletedOn(id: string): T.Trip -> bool {
    (tr: T.Trip) => tr.shiftId == id && tr.status == T.Completed
  }

  predicate HasItsTrip(shiftId: string, trips: seq<T.Trip>) {
    Count(trips, OnShift(shiftId)) == 1 && Count(trips, CompletedOn(shiftId)) == 1
  }

  /** The findings a shift calls for. */
  predicate ShiftCallsFor(s: W.Shift, trips: seq<T.Trip>, at: Time, f: Finding) {
    && f.shiftId == s.id && f.tripId == ""
    && match f.code
       case CompletedShiftTripMismatch => f.severity == Blocking && s.status == W.Completed && !HasItsTrip(s.id, trips)
       case ShiftOverrun => f.severity == Blocking && s.status == W.InProgress && at > s.endAt
       case AssignedShiftNotStarted => f.severity == Blocking && s.status == W.Assigned && at > s.endAt
       case ScheduledShiftUnassigned => f.severity == Warning && s.status == W.Scheduled && at > s.startAt
       case MultipleTripsForShift => f.severity == Blocking && Count(trips, OnShift(s.id)) > 1
       case _ => false
  }

  predicate RunsTooLong(tr: T.Trip, at: Time) {
    tr.status == T.Active && tr.startedAt.Some? && at - tr.startedAt.value > LONGEST_TRIP
  }

  /** The findings a trip calls for. */
  predicate TripCallsFor(tr: T.Trip, at: Time, f: Finding) {
    && f.shiftId == tr.shiftId && f.tripId == tr.id
    && match f.code
       case LongRunningTrip => f.severity == Blocking && RunsTooLong(tr, at)
       case ZeroDistanceTrip => f.severity == Warning && tr.status == T.Completed && tr.Distance() == 0
       case _ => false
  }

  function ShiftsCallingFor(trips: seq<T.Trip>, at: Time, f: Finding): W.Shift -> bool {
    (s: W.Shift) => ShiftCallsFor(s, trips, at, f)
  }

  function TripsCallingFor(at: Time, f: Finding): T.Trip -> bool {
    (tr: T.Trip) => TripCallsFor(tr, at, f)
  }

  /** How often a report must contain a finding. */
  function Occurrences(shifts: seq<W.Shift>, trips: seq<T.Trip>, at: Time, f: Finding): nat {
    Count(shifts, ShiftsCallingFor(trips, at, f)) + Count(trips, TripsCallingFor(at, f))
  }

  function IsCompleted(): W.Shift -> bool {
    (s: W.Shift) => s.status == W.Completed
  }

  function CompletedDistance(trips: seq<T.Trip>): int {
    if trips == [] then 0
    else
      var tr := trips[|trips| - 1];
      CompletedDistance(trips[..|trips| - 1]) + (if tr.status == T.Completed then tr.Distance() else 0)
  }

  predicate FindingBefore(a: Finding, b: Finding) {
    if a.severity == b.severity then TextOrder.Less(Text(a.code), Text(b.code)) else a.severity == Blocking
  }

  ghost predicate InReportOrder(a: Finding, b: Finding) {
    && (b.severity == Blocking ==> a.severity == Blocking)
    && (a.severity == b.severity ==> !TextOrder.Less(Text(b.code), Text(a.code)))
  }

  ghost predicate BlockingFirstThenByCode(findings: seq<Finding>) {
    forall i, j :: 0 <= i < j < |findings| ==> InReportOrder(findings[i], findings[j])
  }

  ghost predicate NoneBlocking(findings: seq<Finding>) {
    forall f :: f in findings ==> f.severity != Blocking
  }

  // ---------------------------------------------------------------------------------------
  // Evaluate
  // ---------------------------------------------------------------------------------------

  class Report {
    const serviceDate: ServiceDate
    const shiftCount: int
    const tripCount: int
    const evaluatedAt: Time
    var completedShifts: int
    var totalDistanceKm: int
    var findings: seq<Finding>
    var closable: bool

    constructor (serviceDate: ServiceDate, shiftCount: int, tripCount: int, evaluatedAt: Time)
      ensures this.serviceDate == serviceDate && this.shiftCount == shiftCount
      ensures this.tripCount == tripCount && this.evaluatedAt == evaluatedAt
      ensures completedShifts == 0 && totalDistanceKm == 0 && findings == [] && closable
    {
      this.serviceDate, this.shiftCount, this.tripCount := serviceDate, shiftCount, tripCount;
      this.evaluatedAt := evaluatedAt;
      completedShifts, totalDistanceKm, findings, closable := 0, 0, [], true;
    }

    method Add(value: Finding)
      modifies this`findings, this`closable
      ensures findings == old(findings) + [value]
      ensures closable == (old(closable) && value.severity != Blocking)
    {
      findings := findings + [value];
      if value.severity == Blocking {
        closable := false;
      }
    }
  }

  /** The trips of one shift, in the order given. */
  function TripsFor(trips: seq<T.Trip>, id: string): seq<T.Trip> {
    if trips == [] then []
    else TripsFor(trips[..|trips| - 1], id) + (if trips[|trips| - 1].shiftId == id then [trips[|trips| - 1]] else [])
  }

  ghost predicate Grouped(byShift: map<string, seq<T.Trip>>, trips: seq<T.Trip>) {
    forall id :: TripsFor(trips, id) == if id in byShift then byShift[id] else []
  }

  lemma {:induction false} TripsForCounts(trips: seq<T.Trip>, id: string)
    ensures |TripsFor(trips, id)| == Count(trips, OnShift(id))
    ensures |TripsFor(trips, id)| == 1 ==>
      (TripsFor(trips, id)[0].status == T.Completed <==> Count(trips, CompletedOn(id)) == 1)
    ensures Count(trips, CompletedOn(id)) <= |TripsFor(trips, id)|
    decreases |trips|
  {
    if trips != [] {
      TripsForCounts(trips[..|trips| - 1], id);
    }
  }

  /** Every finding occurs as often as the first shifts and trips call for it. */
  ghost predicate Reports(findings: seq<Finding>, shifts: seq<W.Shift>, trips: seq<T.Trip>, all: seq<T.Trip>,
                          at: Time) {
    forall f :: multiset(findings)[f]
      == Count(shifts, ShiftsCallingFor(all, at, f)) + Count(trips, TripsCallingFor(at, f))
  }

  /** The report says exactly what the shifts and trips call for. */
  ghost predicate Describes(report: Report, date: ServiceDate, shifts: seq<W.Shift>, trips: seq<T.Trip>, at: Time)
    reads report
  {
    && report.serviceDate == date && report.evaluatedAt == at
    && report.shiftCount == |shifts| && report.tripCount == |trips|
    && report.completedShifts == Count(shifts, IsCompleted())
    && report.totalDistanceKm == CompletedDistance(trips)
    && (forall f :: multiset(report.findings)[f] == Occurrences(shifts, trips, at, f))
    && BlockingFirstThenByCode(report.findings)
    && (report.closable <==> NoneBlocking(report.findings))
  }

  method Evaluate(serviceDate: ServiceDate, shifts: seq<W.Shift>, trips: seq<T.Trip>, evaluated: Time)
      returns (report: Report)
    ensures fresh(report) && Describes(report, serviceDate, shifts, trips, evaluated)
  {
    hide ShiftCallsFor, TripCallsFor, TripsFor, FindingBefore, NoneBlocking;
    report := new Report(serviceDate, |shifts|, |trips|, evaluated);
    assert NoneBlocking(report.findings) by { NothingFound(); }
    var tripsByShift := GroupTrips(report, trips);
    ConsiderShifts(report, shifts, tripsByShift, trips, evaluated);
    ConsiderTrips(report, shifts, trips, evaluated);
    FindingsAreStrictlyOrdered();
    ghost var unsorted := report.findings;
    var sorted := Sorting.Sort(report.findings, FindingBefore);
    report.findings := sorted;
    SameVerdict(unsorted, sorted);
    SortedMeansBlockingFirst(sorted);
  }

  /** The loop over shifts. */
  method ConsiderShifts(report: Report, shifts: seq<W.Shift>, tripsByShift: map<string, seq<T.Trip>>,
                        ghost trips: seq<T.Trip>, evaluated: Time)
    requires Grouped(tripsByShift, trips)
    requires report.findings == [] && report.completedShifts == 0 && report.closable
    modifies report`findings, report`closable, report`completedShifts
    ensures Reports(report.findings, shifts, [], trips, evaluated)
    ensures report.completedShifts == Count(shifts, IsCompleted())
    ensures report.closable <==> NoneBlocking(report.findings)
  {
    hide ShiftCallsFor, TripCallsFor, TripsFor, NoneBlocking, ShiftAdds;
    NothingFound();
    assert shifts[..0] == [];
    for i := 0 to |shifts|
      invariant Reports(report.findings, shifts[..i], [], trips, evaluated)
      invariant report.completedShifts == Count(shifts[..i], IsCompleted())
      invariant report.closable <==> NoneBlocking(report.findings)
    {
      var shift := shifts[i];
      assert shifts[..i + 1][..i] == shifts[..i];
      var values := if shift.id in tripsByShift then tripsByShift[shift.id] else [];
      assert values == TripsFor(trips, shift.id);
      if shift.status == W.Completed {
        report.completedShifts := report.completedShifts + 1;
      }
      ghost var before := report.findings;
      ConsiderShift(report, shift, values, trips, evaluated);
      OneMoreShift(before, report.findings, shifts, i, trips, evaluated);
    }
    assert shifts[..|shifts|] == shifts;
  }

  /** The loop over trips. */
  method ConsiderTrips(report: Report, ghost shifts: seq<W.Shift>, trips: seq<T.Trip>, evaluated: Time)
    requires Reports(report.findings, shifts, [], trips, evaluated)
    requires report.closable <==> NoneBlocking(report.findings)
    modifies report`findings, report`closable
    ensures Reports(report.findings, shifts, trips, trips, evaluated)
    ensures report.closable <==> NoneBlocking(report.findings)
  {
    hide Reports, NoneBlocking, TripAdds;
    assert trips[..0] == [];
    for i := 0 to |trips|
      invariant Reports(report.findings, shifts, trips[..i], trips, evaluated)
      invariant report.closable <==> NoneBlocking(report.findings)
    {
      ghost var before := report.findings;
      ConsiderTrip(report, trips[i], evaluated);
      OneMoreTrip(before, report.findings, shifts, i, trips, evaluated);
    }
    assert trips[..|trips|] == trips;
  }

  lemma SortedMeansBlockingFirst(findings: seq<Finding>)
    requires Sorting.Sorted(findings, FindingBefore)
    ensures BlockingFirstThenByCode(findings)
  {
    forall i, j | 0 <= i < j < |findings|
      ensures InReportOrder(findings[i], findings[j])
    {
      assert !FindingBefore(findings[j], findings[i]);
    }
  }

  lemma NothingFound()
    ensures NoneBlocking([])
  {
  }

  lemma OneMoreShift(before: seq<Finding>, after: seq<Finding>, shifts: seq<W.Shift>, i: nat, trips: seq<T.Trip>,
                     at: Time)
    requires i < |shifts| && Reports(before, shifts[..i], [], trips, at)
             && ShiftAdds(before, after, shifts[i], trips, at)
    ensures Reports(after, shifts[..i + 1], [], trips, at)
  {
    hide ShiftCallsFor;
    assert shifts[..i + 1][..i] == shifts[..i];
  }

  lemma OneMoreTrip(before: seq<Finding>, after: seq<Finding>, shifts: seq<W.Shift>, i: nat, trips: seq<T.Trip>,
                    at: Time)
    requires i < |trips| && Reports(before, shifts, trips[..i], trips, at) && TripAdds(before, after, trips[i], at)
    ensures Reports(after, shifts, trips[..i + 1], trips, at)
  {
    hide TripCallsFor;
    assert trips[..i + 1][..i] == trips[..i];
  }

  /** The loop that groups the trips and adds up their distance. */
  method GroupTrips(report: Report, trips: seq<T.Trip>) returns (tripsByShift: map<string, seq<T.Trip>>)
    requires report.totalDistanceKm == 0
    modifies report`totalDistanceKm
    ensures Grouped(tripsByShift, trips)
    ensures report.totalDistanceKm == CompletedDistance(trips)
  {
    tripsByShift := map[];
    for i := 0 to |trips|
      invariant Grouped(tripsByShift, trips[..i])
      invariant report.totalDistanceKm == CompletedDistance(trips[..i])
    {
      var value := trips[i];
      assert trips[..i + 1][..i] == trips[..i];
      ghost var before := tripsByShift;
      var values := if value.shiftId in tripsByShift then tripsByShift[value.shiftId] else [];
      tripsByShift := tripsByShift[value.shiftId := values + [value]];
      OneMoreGrouped(before, trips, i, tripsByShift);
      if value.status == T.Completed {
        report.totalDistanceKm := report.totalDistanceKm + value.Distance();
      }
    }
    assert trips[..|trips|] == trips;
  }

  lemma SameVerdict(a: seq<Finding>, b: seq<Finding>)
    requires multiset(a) == multiset(b)
    ensures NoneBlocking(a) <==> NoneBlocking(b)
  {
    forall f ensures f in a <==> f in b {
      Sorting.SameMembers(a, b, f);
    }
  }

  lemma OneMoreGrouped(before: map<string, seq<T.Trip>>, trips: seq<T.Trip>, i: nat, after: map<string, seq<T.Trip>>)
    requires i < |trips| && Grouped(before, trips[..i])
    requires var shiftId := trips[i].shiftId;
             after == before[shiftId := (if shiftId in before then before[shiftId] else []) + [trips[i]]]
    ensures Grouped(after, trips[..i + 1])
  {
    assert trips[..i + 1][..i] == trips[..i];
    forall id ensures TripsFor(trips[..i + 1], id) == if id in after then after[id] else [] {
      assert TripsFor(trips[..i], id) == if id in before then before[id] else [];
    }
  }

  ghost predicate ShiftAdds(before: seq<Finding>, after: seq<Finding>, s: W.Shift, trips: seq<T.Trip>, at: Time) {
    forall f :: multiset(after)[f] == multiset(before)[f] + (if ShiftCallsFor(s, trips, at, f) then 1 else 0)
  }

  ghost predicate TripAdds(before: seq<Finding>, after: seq<Finding>, tr: T.Trip, at: Time) {
    forall f :: multiset(after)[f] == multiset(before)[f] + (if TripCallsFor(tr, at, f) then 1 else 0)
  }

  /** What the status of a shift calls for, if anything. */
  function StatusFinding(s: W.Shift, trips: seq<T.Trip>, at: Time): seq<Finding> {
    match s.status
    case Completed => if HasItsTrip(s.id, trips) then [] else [Finding(CompletedShiftTripMismatch, Blocking, s.id, "")]
    case InProgress => if at > s.endAt then [Finding(ShiftOverrun, Blocking, s.id, "")] else []
    case Assigned => if at > s.endAt then [Finding(AssignedShiftNotStarted, Blocking, s.id, "")] else []
    case Scheduled => if at > s.startAt then [Finding(ScheduledShiftUnassigned, Warning, s.id, "")] else []
    case _ => []
  }

  lemma FoundOnce(before: seq<Finding>, s: W.Shift, trips: seq<T.Trip>, at: Time, several: seq<Finding>)
    requires several ==
      if Count(trips, OnShift(s.id)) > 1 then [Finding(MultipleTripsForShift, Blocking, s.id, "")] else []
    ensures ShiftAdds(before, before + StatusFinding(s, trips, at) + several, s, trips, at)
  {
    var first := StatusFinding(s, trips, at);
    hide StatusFinding, ShiftCallsFor;
    assert multiset(before + first + several) == multiset(before) + multiset(first) + multiset(several);
    forall f ensures multiset(before + first + several)[f]
      == multiset(before)[f] + (if ShiftCallsFor(s, trips, at, f) then 1 else 0) {
      StatusOnce(s, trips, at, f);
      SeveralOnce(s, trips, at, f, several);
    }
  }

  lemma StatusOnce(s: W.Shift, trips: seq<T.Trip>, at: Time, f: Finding)
    ensures multiset(StatusFinding(s, trips, at))[f]
            == (if ShiftCallsFor(s, trips, at, f) && f.code != MultipleTripsForShift then 1 else 0)
  {
    hide HasItsTrip, Count;
    var found := StatusFinding(s, trips, at);
    assert found == [] || found == [found[0]];
  }

  lemma SeveralOnce(s: W.Shift, trips: seq<T.Trip>, at: Time, f: Finding, several: seq<Finding>)
    requires several ==
      if Count(trips, OnShift(s.id)) > 1 then [Finding(MultipleTripsForShift, Blocking, s.id, "")] else []
    ensures multiset(several)[f] == (if ShiftCallsFor(s, trips, at, f) && f.code == MultipleTripsForShift then 1 else 0)
  {
    hide HasItsTrip, Count;
  }

  /** The body of the loop over shifts: its findings are added, each once. */
  method ConsiderShift(report: Report, shift: W.Shift, values: seq<T.Trip>, ghost trips: seq<T.Trip>, evaluated: Time)
    requires values == TripsFor(trips, shift.id)
    requires report.closable <==> NoneBlocking(report.findings)
    modifies report`findings, report`closable
    ensures ShiftAdds(old(report.findings), report.findings, shift, trips, evaluated)
    ensures report.closable <==> NoneBlocking(report.findings)
  {
    hide ShiftAdds;
    TripsForCounts(trips, shift.id);
    match shift.status {
      case Completed =>
        if |values| != 1 || values[0].status != T.Completed {
          report.Add(Finding(CompletedShiftTripMismatch, Blocking, shift.id, ""));
        }
      case InProgress =>
        if evaluated > shift.endAt {
          report.Add(Finding(ShiftOverrun, Blocking, shift.id, ""));
        }
      case Assigned =>
        if evaluated > shift.endAt {
          report.Add(Finding(AssignedShiftNotStarted, Blocking, shift.id, ""));
        }
      case Scheduled =>
        if evaluated > shift.startAt {
          report.Add(Finding(ScheduledShiftUnassigned, Warning, shift.id, ""));
        }
      case _ =>
    }
    assert report.findings == old(report.findings) + StatusFinding(shift, trips, evaluated);
    ghost var several := [];
    if |values| > 1 {
      report.Add(Finding(MultipleTripsForShift, Blocking, shift.id, ""));
      several := [Finding(MultipleTripsForShift, Blocking, shift.id, "")];
    }
    FoundOnce(old(report.findings), shift, trips, evaluated, several);
    assert report.findings == old(report.findings) + StatusFinding(shift, trips, evaluated) + several;
  }

  function TripFinding(tr: T.Trip, at: Time): seq<Finding> {
    if RunsTooLong(tr, at) then [Finding(LongRunningTrip, Blocking, tr.shiftId, tr.id)]
    else if tr.status == T.Completed && tr.Distance() == 0 then [Finding(ZeroDistanceTrip, Warning, tr.shiftId, tr.id)]
    else []
  }

  lemma TripFoundOnce(before: seq<Finding>, tr: T.Trip, at: Time)
    ensures TripAdds(before, before + TripFinding(tr, at), tr, at)
  {
    var found := TripFinding(tr, at);
    assert found == [] || found == [found[0]];
    assert multiset(before + found) == multiset(before) + multiset(found);
    forall f ensures multiset(found)[f] == (if TripCallsFor(tr, at, f) then 1 else 0) {
    }
    hide TripFinding, TripCallsFor;
  }

  /** The body of the loop over trips. */
  method ConsiderTrip(report: Report, value: T.Trip, evaluated: Time)
    requires report.closable <==> NoneBlocking(report.findings)
    modifies report`findings, report`closable
    ensures TripAdds(old(report.findings), report.findings, value, evaluated)
    ensures report.closable <==> NoneBlocking(report.findings)
  {
    hide TripAdds;
    if value.status == T.Active && value.startedAt != None && evaluated - value.startedAt.value > LONGEST_TRIP {
      report.Add(Finding(LongRunningTrip, Blocking, value.shiftId, value.id));
    }
    if value.status == T.Completed && value.Distance() == 0 {
      report.Add(Finding(ZeroDistanceTrip, Warning, value.shiftId, value.id));
    }
    TripFoundOnce(old(report.findings), value, evaluated);
    assert report.findings == old(report.findings) + TripFinding(value, evaluated);
  }

  lemma FindingsAreStrictlyOrdered()
    ensures Sorting.StrictOrder(FindingBefore)
  {
    forall a, b | FindingBefore(a, b) ensures !FindingBefore(b, a) {
      if a.severity == b.severity {
        TextOrder.Asymmetric(Text(a.code), Text(b.code));
      }
    }
    forall a, b, c | FindingBefore(a, b) && FindingBefore(b, c) ensures FindingBefore(a, c) {
      if a.severity == b.severity == c.severity {
        TextOrder.Transitive(Text(a.code), Text(b.code), Text(c.code));
      }
    }
    forall a, b, c | !FindingBefore(a, b) && !FindingBefore(b, c) ensures !FindingBefore(a, c) {
      if a.severity == b.severity == c.severity {
        TextOrder.NegativelyTransitive(Text(a.code), Text(b.code), Text(c.code));
      }
    }
  }

  // ---------------------------------------------------------------------------------------
  // What the report depends on
  // ---------------------------------------------------------------------------------------

  lemma {:induction false} CountSplit<X>(a: seq<X>, b: seq<X>, p: X -> bool)
    ensures Count(a + b, p) == Count(a, p) + Count(b, p)
    decreases |b|
  {
    if b == [] {
      assert a + b == a;
    } else {
      assert (a + b)[..|a + b| - 1] == a + b[..|b| - 1];
      CountSplit(a, b[..|b| - 1], p);
    }
  }

  lemma {:induction false} CountPermuted<X>(a: seq<X>, b: seq<X>, p: X -> bool)
    requires multiset(a) == multiset(b)
    ensures Count(a, p) == Count(b, p)
    decreases |a|
  {
    if a == [] {
      Sorting.SameSize(a, b);
    } else {
      var i := Sorting.LastOfBoth(a, b);
      var rest, x := a[..|a| - 1], b[i];
      CountPermuted(rest, b[..i] + b[i + 1..], p);
      CountSplit(b[..i], b[i + 1..], p);
      CountSplit(b[..i] + [x], b[i + 1..], p);
      CountSplit(b[..i], [x], p);
      assert Count([x], p) == Count([], p) + (if p(x) then 1 else 0);
    }
  }

  lemma {:induction false} DistanceSplit(a: seq<T.Trip>, b: seq<T.Trip>)
    ensures CompletedDistance(a + b) == CompletedDistance(a) + CompletedDistance(b)
    decreases |b|
  {
    if b == [] {
      assert a + b == a;
    } else {
      assert (a + b)[..|a + b| - 1] == a + b[..|b| - 1];
      DistanceSplit(a, b[..|b| - 1]);
    }
  }

  lemma {:induction false} DistancePermuted(a: seq<T.Trip>, b: seq<T.Trip>)
    requires multiset(a) == multiset(b)
    ensures CompletedDistance(a) == CompletedDistance(b)
    decreases |a|
  {
    if a == [] {
      Sorting.SameSize(a, b);
    } else {
      var i := Sorting.LastOfBoth(a, b);
      var rest, x := a[..|a| - 1], b[i];
      DistancePermuted(rest, b[..i] + b[i + 1..]);
      DistanceSplit(b[..i], b[i + 1..]);
      DistanceSplit(b[..i] + [x], b[i + 1..]);
      DistanceSplit(b[..i], [x]);
      DistanceSplit([], [x]);
      DistanceSplit(rest, [x]);
    }
  }

  /** The report's findings and figures do not depend on the order in which shifts and trips come. */
  lemma OrderDoesNotMatter(shifts: seq<W.Shift>, shifts': seq<W.Shift>, trips: seq<T.Trip>, trips': seq<T.Trip>,
                           at: Time)
    requires multiset(shifts) == multiset(shifts') && multiset(trips) == multiset(trips')
    ensures forall f :: Occurrences(shifts, trips, at, f) == Occurrences(shifts', trips', at, f)
    ensures CompletedDistance(trips) == CompletedDistance(trips')
    ensures Count(shifts, IsCompleted()) == Count(shifts', IsCompleted())
  {
    hide Count, CompletedDistance;
    DistancePermuted(trips, trips');
    CountPermuted(shifts, shifts', IsCompleted());
    forall f ensures Occurrences(shifts, trips, at, f) == Occurrences(shifts', trips', at, f) {
      forall s ensures ShiftCallsFor(s, trips, at, f) <==> ShiftCallsFor(s, trips', at, f) {
        CountPermuted(trips, trips', OnShift(s.id));
        CountPermuted(trips, trips', CompletedOn(s.id));
      }
      hide ShiftCallsFor, TripCallsFor;
      CountPermuted(shifts, shifts', ShiftsCallingFor(trips, at, f));
      SameCount(shifts', ShiftsCallingFor(trips, at, f), ShiftsCallingFor(trips', at, f));
      CountPermuted(trips, trips', TripsCallingFor(at, f));
    }
  }

  lemma {:induction false} SameCount<X>(items: seq<X>, p: X -> bool, q: X -> bool)
    requires forall x :: x in items ==> p(x) == q(x)
    ensures Count(items, p) == Count(items, q)
    decreases |items|
  {
    if items != [] {
      SameCount(items[..|items| - 1], p, q);
    }
  }

  lemma {:induction false} CountsSome<X>(items: seq<X>, p: X -> bool)
    ensures Count(items, p) > 0 <==> exists x :: x in items && p(x)
    decreases |items|
  {
    if items != [] {
      var last := items[|items| - 1];
      assert items == items[..|items| - 1] + [last];
      CountsSome(items[..|items| - 1], p);
      if exists x :: x in items && p(x) {
        var x :| x in items && p(x);
        assert x in items[..|items| - 1] || x == last;
      }
    }
  }

  /** What keeps a day from being closed. */
  ghost predicate NothingBlocks(shifts: seq<W.Shift>, trips: seq<T.Trip>, at: Time) {
    && (forall s :: s in shifts ==>
          && (s.status == W.Completed ==> HasItsTrip(s.id, trips))
          && (s.status == W.InProgress || s.status == W.Assigned ==> at <= s.endAt)
          && Count(trips, OnShift(s.id)) <= 1)
    && (forall tr :: tr in trips ==> !RunsTooLong(tr, at))
  }

  /** A day is closable exactly when every completed shift has its one completed trip, no shift under way or
      waiting to start is past its end, no shift has two trips, and no trip runs too long. */
  lemma ClosableExactly(findings: seq<Finding>, shifts: seq<W.Shift>, trips: seq<T.Trip>, at: Time)
    requires forall f :: multiset(findings)[f] == Occurrences(shifts, trips, at, f)
    ensures NoneBlocking(findings) <==> NothingBlocks(shifts, trips, at)
  {
    hide Count, HasItsTrip, RunsTooLong, CalledFor;
    forall f ensures f in findings <==> CalledFor(shifts, trips, at, f) {
      assert f in findings <==> multiset(findings)[f] > 0;
      OccursWhenCalledFor(shifts, trips, at, f);
    }
    if !NoneBlocking(findings) {
      var f :| f in findings && f.severity == Blocking;
      CalledForBlocks(shifts, trips, at, f);
    }
    if !NothingBlocks(shifts, trips, at) {
      var f := BlockCallsFor(shifts, trips, at);
      assert f in findings;
    }
  }

  ghost predicate CalledFor(shifts: seq<W.Shift>, trips: seq<T.Trip>, at: Time, f: Finding) {
    || (exists s :: s in shifts && ShiftCallsFor(s, trips, at, f))
    || (exists tr :: tr in trips && TripCallsFor(tr, at, f))
  }

  lemma OccursWhenCalledFor(shifts: seq<W.Shift>, trips: seq<T.Trip>, at: Time, f: Finding)
    ensures Occurrences(shifts, trips, at, f) > 0 <==> CalledFor(shifts, trips, at, f)
  {
    hide Count, ShiftCallsFor, TripCallsFor;
    CountsSome(shifts, ShiftsCallingFor(trips, at, f));
    CountsSome(trips, TripsCallingFor(at, f));
    forall s ensures ShiftsCallingFor(trips, at, f)(s) == ShiftCallsFor(s, trips, at, f) {
    }
    forall tr ensures TripsCallingFor(at, f)(tr) == TripCallsFor(tr, at, f) {
    }
  }

  lemma CalledForBlocks(shifts: seq<W.Shift>, trips: seq<T.Trip>, at: Time, f: Finding)
    requires CalledFor(shifts, trips, at, f) && f.severity == Blocking
    ensures !NothingBlocks(shifts, trips, at)
  {
    hide Count, HasItsTrip, RunsTooLong;
  }

  lemma BlockCallsFor(shifts: seq<W.Shift>, trips: seq<T.Trip>, at: Time) returns (f: Finding)
    requires !NothingBlocks(shifts, trips, at)
    ensures CalledFor(shifts, trips, at, f) && f.severity == Blocking
  {
    hide Count, HasItsTrip, RunsTooLong;
    if tr :| tr in trips && RunsTooLong(tr, at) {
      f := Finding(LongRunningTrip, Blocking, tr.shiftId, tr.id);
      assert TripCallsFor(tr, at, f);
    } else {
      var s :| s in shifts && !((s.status == W.Completed ==> HasItsTrip(s.id, trips))
                                && (s.status == W.InProgress || s.status == W.Assigned ==> at <= s.endAt)
                                && Count(trips, OnShift(s.id)) <= 1);
      var code := if Count(trips, OnShift(s.id)) > 1 then MultipleTripsForShift
                  else if s.status == W.Completed then CompletedShiftTripMismatch
                  else if s.status == W.InProgress then ShiftOverrun
                  else AssignedShiftNotStarted;
      f := Finding(code, Blocking, s.id, "");
      assert ShiftCallsFor(s, trips, at, f);
    }
  }

  // ---------------------------------------------------------------------------------------
  // The report in plain terms
  // ---------------------------------------------------------------------------------------

  /** The shift has a trip, that trip is completed, and there is no other. */
  ghost predicate OnlyTripCompleted(trips: seq<T.Trip>, id: string) {
    exists i: nat :: i < |trips| && trips[i].shiftId == id && trips[i].status == T.Completed
                     && forall j: nat :: j < |trips| && trips[j].shiftId == id ==> j == i
  }

  ghost predicate TwoTrips(trips: seq<T.Trip>, id: string) {
    exists i: nat, j: nat :: i < j < |trips| && trips[i].shiftId == id && trips[j].shiftId == id
  }

  ghost function Places<X>(items: seq<X>, p: X -> bool): set<nat> {
    set i: nat | i < |items| && p(items[i])
  }

  /** Counting is the number of places. */
  lemma {:induction false} CountIsPlaces<X>(items: seq<X>, p: X -> bool)
    ensures Count(items, p) == |Places(items, p)|
    decreases |items|
  {
    if items == [] {
      assert Places(items, p) == {};
    } else {
      var front, last := items[..|items| - 1], |items| - 1;
      CountIsPlaces(front, p);
      assert Places(items, p) == if p(items[last]) then Places(front, p) + {last} else Places(front, p);
    }
  }

  lemma OneOrMore(trips: seq<T.Trip>, id: string)
    ensures Count(trips, OnShift(id)) > 1 <==> TwoTrips(trips, id)
    ensures HasItsTrip(id, trips) <==> OnlyTripCompleted(trips, id)
  {
    CountIsPlaces(trips, OnShift(id));
    CountIsPlaces(trips, CompletedOn(id));
    hide Count;
    SeveralPlaces(trips, id);
    SinglePlace(trips, id);
  }

  lemma SeveralPlaces(trips: seq<T.Trip>, id: string)
    ensures |Places(trips, OnShift(id))| > 1 <==> TwoTrips(trips, id)
  {
    var all := Places(trips, OnShift(id));
    if TwoTrips(trips, id) {
      var i: nat, j: nat :| i < j < |trips| && trips[i].shiftId == id && trips[j].shiftId == id;
      SizeOfPart({i, j}, all);
    }
    if |all| > 1 {
      var i, j := TwoOf(all);
      assert trips[i].shiftId == id && trips[j].shiftId == id;
    }
  }

  lemma SinglePlace(trips: seq<T.Trip>, id: string)
    ensures |Places(trips, OnShift(id))| == 1 && |Places(trips, CompletedOn(id))| == 1 <==> OnlyTripCompleted(trips, id)
  {
    var all, done := Places(trips, OnShift(id)), Places(trips, CompletedOn(id));
    if OnlyTripCompleted(trips, id) {
      var i: nat :| i < |trips| && trips[i].shiftId == id && trips[i].status == T.Completed
                    && forall j: nat :: j < |trips| && trips[j].shiftId == id ==> j == i;
      assert all == {i} && done == {i};
    }
    if |all| == 1 && |done| == 1 {
      var i :| i in done;
      assert trips[i].shiftId == id && trips[i].status == T.Completed && i in all;
      OnlyElement(all, i);
      forall j: nat | j < |trips| && trips[j].shiftId == id ensures j == i {
        assert j in all;
      }
    }
  }

  lemma OnlyElement(all: set<nat>, i: nat)
    requires |all| == 1 && i in all
    ensures all == {i}
  {
    assert |all - {i}| == 0;
    assert all == (all - {i}) + {i};
  }

  lemma TwoOf(all: set<nat>) returns (i: nat, j: nat)
    requires |all| > 1
    ensures i in all && j in all && i < j
  {
    var a :| a in all;
    assert |all - {a}| == |all| - 1;
    var b :| b in all - {a};
    i, j := if a < b then a else b, if a < b then b else a;
  }

  lemma SizeOfPart(part: set<nat>, whole: set<nat>)
    requires part <= whole
    ensures |part| <= |whole|
  {
    assert whole == part + (whole - part);
  }

  /** The findings of a shift, spelled out. */
  lemma ShiftFindings(s: W.Shift, trips: seq<T.Trip>, at: Time, f: Finding)
    ensures ShiftCallsFor(s, trips, at, f) <==>
      || (f == Finding(CompletedShiftTripMismatch, Blocking, s.id, "") && s.status == W.Completed
          && !OnlyTripCompleted(trips, s.id))
      || (f == Finding(ShiftOverrun, Blocking, s.id, "") && s.status == W.InProgress && s.endAt < at)
      || (f == Finding(AssignedShiftNotStarted, Blocking, s.id, "") && s.status == W.Assigned && s.endAt < at)
      || (f == Finding(ScheduledShiftUnassigned, Warning, s.id, "") && s.status == W.Scheduled && s.startAt < at)
      || (f == Finding(MultipleTripsForShift, Blocking, s.id, "") && TwoTrips(trips, s.id))
  {
    OneOrMore(trips, s.id);
    hide HasItsTrip, Count, OnlyTripCompleted, TwoTrips;
  }

  /** The findings of a trip, spelled out. */
  lemma TripFindings(tr: T.Trip, at: Time, f: Finding)
    ensures TripCallsFor(tr, at, f) <==>
      || (f == Finding(LongRunningTrip, Blocking, tr.shiftId, tr.id) && tr.status == T.Active && tr.startedAt.Some?
          && tr.startedAt.value + 16 * HOUR < at)
      || (f == Finding(ZeroDistanceTrip, Warning, tr.shiftId, tr.id) && tr.status == T.Completed
          && (tr.startOdometer == None || tr.endOdometer == None || tr.endOdometer == tr.startOdometer))
  {
  }

  /** The driven distance of each completed trip that has both readings, by its place. */
  ghost function Driven(trips: seq<T.Trip>): map<int, int> {
    map i | 0 <= i < |trips| && trips[i].status == T.Completed
            && trips[i].startOdometer.Some? && trips[i].endOdometer.Some?
      :: trips[i].endOdometer.value - trips[i].startOdometer.value
  }

  lemma DrivenOfLast(trips: seq<T.Trip>)
    requires trips != []
    ensures var front, last, tr := Driven(trips[..|trips| - 1]), |trips| - 1, trips[|trips| - 1];
      && last !in front
      && Driven(trips) ==
         if tr.status == T.Completed && tr.startOdometer.Some? && tr.endOdometer.Some?
         then front[last := tr.endOdometer.value - tr.startOdometer.value] else front
  {
  }

  lemma {:induction false} DistanceIsDriven(trips: seq<T.Trip>)
    ensures CompletedDistance(trips) == Sum(Driven(trips))
    decreases |trips|
  {
    hide Driven, Sum;
    if trips == [] {
      NothingDriven();
    } else {
      var front, last := trips[..|trips| - 1], |trips| - 1;
      DistanceIsDriven(front);
      DrivenOfLast(trips);
      var tr := trips[last];
      if tr.status == T.Completed && tr.startOdometer.Some? && tr.endOdometer.Some? {
        SumPlus(Driven(front), last, tr.endOdometer.value - tr.startOdometer.value);
        assert tr.Distance() == tr.endOdometer.value - tr.startOdometer.value;
      } else if tr.status == T.Completed {
        assert tr.Distance() == 0;
      }
    }
  }

  lemma NothingDriven()
    ensures Sum(Driven([])) == 0
  {
    assert Driven([]) == map[];
  }

  /** What Evaluate returns, in plain terms: how many shifts are completed, the distance of the completed trips,
      and how often each finding is made. */
  lemma ReportExactly(report: Report, date: ServiceDate, shifts: seq<W.Shift>, trips: seq<T.Trip>, at: Time)
    requires Describes(report, date, shifts, trips, at)
    ensures report.completedShifts == |set i: nat | i < |shifts| && shifts[i].status == W.Completed|
    ensures report.totalDistanceKm == Sum(Driven(trips))
    ensures forall f ::
      multiset(report.findings)[f] ==
        |set i: nat | i < |shifts| && ShiftCallsFor(shifts[i], trips, at, f)|
        + |set i: nat | i < |trips| && TripCallsFor(trips[i], at, f)|
    ensures report.closable <==> forall f :: f in report.findings ==> f.severity == Warning
  {
    CountIsPlaces(shifts, IsCompleted());
    assert Places(shifts, IsCompleted()) == set i: nat | i < |shifts| && shifts[i].status == W.Completed;
    DistanceIsDriven(trips);
    forall f ensures multiset(report.findings)[f] ==
        |set i: nat | i < |shifts| && ShiftCallsFor(shifts[i], trips, at, f)|
        + |set i: nat | i < |trips| && TripCallsFor(trips[i], at, f)|
    {
      PlacesOf(shifts, trips, at, f);
    }
  }

  lemma PlacesOf(shifts: seq<W.Shift>, trips: seq<T.Trip>, at: Time, f: Finding)
    ensures Occurrences(shifts, trips, at, f) ==
      |set i: nat | i < |shifts| && ShiftCallsFor(shifts[i], trips, at, f)|
      + |set i: nat | i < |trips| && TripCallsFor(trips[i], at, f)|
  {
    hide ShiftCallsFor, TripCallsFor, Count;
    CountIsPlaces(shifts, ShiftsCallingFor(trips, at, f));
    CountIsPlaces(trips, TripsCallingFor(at, f));
    assert Places(shifts, ShiftsCallingFor(trips, at, f))
        == set i: nat | i < |shifts| && ShiftCallsFor(shifts[i], trips, at, f);
    assert Places(trips, TripsCallingFor(at, f)) == set i: nat | i < |trips| && TripCallsFor(trips[i], at, f);
  }

  /** The alphabetical order of the codes. */
  function Rank(code: Code): nat {
    match code
    case AssignedShiftNotStarted => 0
    case CompletedShiftTripMismatch => 1
    case LongRunningTrip => 2
    case MultipleTripsForShift => 3
    case ScheduledShiftUnassigned => 4
    case ShiftOverrun => 5
    case ZeroDistanceTrip => 6
  }

  lemma RankIsAlphabetical(a: Code, b: Code)
    ensures TextOrder.Less(Text(a), Text(b)) <==> Rank(a) < Rank(b)
  {
    if a == b {
      if TextOrder.Less(Text(a), Text(b)) {
        TextOrder.Asymmetric(Text(a), Text(b));
      }
    } else {
      TwoCharacters(Text(a), Text(b));
      hide TextOrder.Less;
    }
  }

  /** Texts that differ in their first two characters are in the order of these. */
  lemma TwoCharacters(x: string, y: string)
    requires |x| >= 2 && |y| >= 2 && (x[0] != y[0] || x[1] != y[1])
    ensures TextOrder.Less(x, y) <==> x[0] < y[0] || (x[0] == y[0] && x[1] < y[1])
  {
    assert x[1..][0] == x[1] && y[1..][0] == y[1];
    assert TextOrder.Less(x, y) <==> x[0] < y[0] || (x[0] == y[0] && TextOrder.Less(x[1..], y[1..]));
  }

  /** Findings come blocking ones first, and among equals in the alphabetical order of their codes. */
  lemma ReportOrder(findings: seq<Finding>)
    ensures BlockingFirstThenByCode(findings) <==>
      forall i, j :: 0 <= i < j < |findings| ==>
        || (findings[i].severity == Blocking && findings[j].severity == Warning)
        || (findings[i].severity == findings[j].severity && Rank(findings[i].code) <= Rank(findings[j].code))
  {
    forall a: Code, b: Code ensures TextOrder.Less(Text(a), Text(b)) <==> Rank(a) < Rank(b) {
      RankIsAlphabetical(a, b);
    }
    hide Text, Rank, TextOrder.Less;
  }
}
