/** Duty windows and the roster (internal/domain/schedule/schedule.go). */
module Schedule {
  import opened Basics
  import Sorting
  import opened Sums

  datatype Window = Window(shiftId: string, start: Time, end: Time) {
    function Duration(): int { end - start }

    predicate Overlaps(other: Window) {
      start < other.end && other.start < end
    }

    function Gap(other: Window): int {
      if Overlaps(other) then 0
      else if end < other.start then other.start - end
      else start - other.end
    }
  }

  predicate ValidWindow(w: Window) {
    w.shiftId != "" && w.end > w.start
  }

  function NewWindow(shiftId: string, start: Time, end: Time): Result<Window> {
    if shiftId == "" || !(end > start) then Err(Validation) else Ok(Window(shiftId, start, end))
  }

  datatype Roster = Roster(vehicleId: string, windows: seq<Window>, duty: int)

  /** Apart in the sense a dispatcher means: the windows do not overlap, and the pause between them
      is either nothing at all or at least the minimum break. */
  predicate Compatible(a: Window, b: Window, minimumBreak: int) {
    || a.end == b.start || b.end == a.start
    || (a.end < b.start && b.start - a.end >= minimumBreak)
    || (b.end < a.start && a.start - b.end >= minimumBreak)
  }

  function Durations(ws: seq<Window>): seq<int> {
    seq(|ws|, i requires 0 <= i < |ws| => ws[i].Duration())
  }

  function TotalDuty(ws: seq<Window>): int {
    SumSeq(Durations(ws))
  }

  predicate WithinDuty(duty: int, maximumDuty: int) {
    maximumDuty > 0 ==> duty <= maximumDuty
  }

  /** What a roster demands of one more window. */
  predicate Fits(ws: seq<Window>, w: Window, maximumDuty: int, minimumBreak: int) {
    && (forall i :: 0 <= i < |ws| && ws[i].shiftId != w.shiftId ==> Compatible(ws[i], w, minimumBreak))
    && WithinDuty(TotalDuty(ws) + w.Duration(), maximumDuty)
  }

  predicate StartsBefore(a: Window, b: Window) {
    a.start < b.start
  }

  ghost predicate InOrder(ws: seq<Window>) {
    forall i, j :: 0 <= i < j < |ws| ==> ws[i].start <= ws[j].start
  }

  /** The roster holds its windows in order of start, and its duty is their sum. */
  ghost predicate WellKept(r: Roster) {
    InOrder(r.windows) && r.duty == TotalDuty(r.windows)
  }

  lemma TotalDutyAppend(ws: seq<Window>, w: Window)
    ensures TotalDuty(ws + [w]) == TotalDuty(ws) + w.Duration()
  {
    assert Durations(ws + [w]) == Durations(ws) + [w.Duration()];
    SumSeqSplit(Durations(ws), [w.Duration()]);
    assert SumSeq([w.Duration()]) == w.Duration() + SumSeq([]);
  }

  lemma TotalDutySplit(a: seq<Window>, b: seq<Window>)
    ensures TotalDuty(a + b) == TotalDuty(a) + TotalDuty(b)
  {
    assert Durations(a + b) == Durations(a) + Durations(b);
    SumSeqSplit(Durations(a), Durations(b));
  }

  /** Duty does not depend on the order of the windows. */
  lemma {:induction false} TotalDutyPermuted(a: seq<Window>, b: seq<Window>)
    requires multiset(a) == multiset(b)
    ensures TotalDuty(a) == TotalDuty(b)
    decreases |a|
  {
    if a == [] {
      Sorting.SameSize(a, b);
    } else {
      var i := Sorting.LastOfBoth(a, b);
      TotalDutyPermuted(a[..|a| - 1], b[..i] + b[i + 1..]);
      TotalDutySplit(a[..|a| - 1], [b[i]]);
      TotalDutySplit(b[..i] + [b[i]], b[i + 1..]);
      TotalDutySplit(b[..i], [b[i]]);
      TotalDutySplit(b[..i], b[i + 1..]);
    }
  }

  /** The gap test of the code says exactly that the windows are compatible, although the gap is
      negative when the receiver ends where the argument starts. */
  lemma GapTestMeansCompatible(a: Window, b: Window, minimumBreak: int)
    requires ValidWindow(a) && ValidWindow(b)
    ensures !a.Overlaps(b) && !(0 < a.Gap(b) < minimumBreak) <==> Compatible(a, b, minimumBreak)
    ensures a.end == b.start ==> a.Gap(b) < 0
    ensures Compatible(a, b, minimumBreak) <==> Compatible(b, a, minimumBreak)
    ensures Compatible(a, b, minimumBreak) ==> !a.Overlaps(b)
  {
  }

  method Add(r: Roster, window: Window, maximumDuty: int, minimumBreak: int) returns (result: Result<Roster>)
    requires r.duty == TotalDuty(r.windows) && ValidWindow(window)
    requires forall i :: 0 <= i < |r.windows| ==> ValidWindow(r.windows[i])
    ensures result.Ok? <==> Fits(r.windows, window, maximumDuty, minimumBreak)
    ensures result.Ok? <==>
      && (forall w :: w in r.windows && w.shiftId != window.shiftId ==>
            || w.end == window.start || (w.end < window.start && w.end + minimumBreak <= window.start)
            || window.end == w.start || (window.end < w.start && window.end + minimumBreak <= w.start))
      && (maximumDuty <= 0 || r.duty + (window.end - window.start) <= maximumDuty)
    ensures result.Ok? ==>
      && WellKept(result.value)
      && multiset(result.value.windows) == multiset(r.windows) + multiset{window}
      && (forall i, j :: 0 <= i < j < |result.value.windows| ==>
            result.value.windows[i].start <= result.value.windows[j].start)
      && result.value.vehicleId == r.vehicleId && result.value.duty == r.duty + (window.end - window.start)
    ensures result.Err? ==> result.error.Conflict?
  {
    var items := r.windows;
    for i := 0 to |items|
      invariant forall k :: 0 <= k < i && items[k].shiftId != window.shiftId ==>
        Compatible(items[k], window, minimumBreak)
    {
      var existing := items[i];
      if existing.shiftId == window.shiftId {
        continue;
      }
      GapTestMeansCompatible(existing, window, minimumBreak);
      if existing.Overlaps(window) {
        return Err(Conflict(Conflicting));
      }
      var gap := existing.Gap(window);
      if gap > 0 && gap < minimumBreak {
        return Err(Conflict(Unavailable));
      }
    }
    items := items + [window];
    var appended := items;
    items := Sorting.Sort(items, StartsBefore);
    TotalDutyPermuted(items, appended);
    TotalDutyAppend(r.windows, window);
    assert InOrder(items) by {
      forall i, j | 0 <= i < j < |items| ensures items[i].start <= items[j].start {
        assert !StartsBefore(items[j], items[i]);
      }
    }
    var duty := 0;
    for i := 0 to |items|
      invariant duty == TotalDuty(items[..i])
    {
      assert items[..i + 1] == items[..i] + [items[i]];
      TotalDutyAppend(items[..i], items[i]);
      duty := duty + items[i].Duration();
    }
    assert items[..|items|] == items;
    if maximumDuty > 0 && duty > maximumDuty {
      return Err(Conflict(Unavailable));
    }
    result := Ok(r.(windows := items, duty := duty));
  }
}
