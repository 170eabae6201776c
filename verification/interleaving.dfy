/** Calls that read, and later save or start a transaction: what they amount to, whatever runs between. */
module Interleaving {
  import opened Basics
  import opened Schema
  import opened Dispatch
  import opened Planning
  import opened Upkeep
  import opened Changes
  import opened Invariant
  import opened Exact
  import opened System
  import opened Theorems
  import W = Workplan
  import O = Orders
  import I = Inspections
  import Inspecting

  // ---------------------------------------------------------------------------------------
  // Runs in pieces
  // ---------------------------------------------------------------------------------------

  lemma {:induction false} RunInTwo(s: Sys, cfg: Config, a: seq<Step>, b: seq<Step>)
    ensures Run(s, cfg, a + b) == Run(Run(s, cfg, a), cfg, b)
    decreases |a|
  {
    if a == [] {
      assert a + b == b;
    } else {
      assert (a + b)[0] == a[0] && (a + b)[1..] == a[1..] + b;
      RunInTwo(Next(s, cfg, a[0]), cfg, a[1..], b);
    }
  }

  /** Over a whole run, a version of a vehicle, shift, trip or order names one content: two moments that
      agree on the version of a row agree on the row. */
  lemma VersionsNameContents(cfg: Config, steps: seq<Step>, i: nat, j: nat)
    requires i <= j <= |steps|
    ensures var a, b := Run(START, cfg, steps[..i]).db, Run(START, cfg, steps[..j]).db;
      && (forall k :: k in a.vehicles
            ==> k in b.vehicles && (a.vehicles[k].version == b.vehicles[k].version ==> a.vehicles[k] == b.vehicles[k]))
      && (forall k :: k in a.shifts
            ==> k in b.shifts && (a.shifts[k].version == b.shifts[k].version ==> a.shifts[k] == b.shifts[k]))
      && (forall k :: k in a.trips
            ==> k in b.trips && (a.trips[k].version == b.trips[k].version ==> a.trips[k] == b.trips[k]))
      && (forall k :: k in a.orders
            ==> k in b.orders && (a.orders[k].version == b.orders[k].version ==> a.orders[k] == b.orders[k]))
  {
    hide Run, SysInv;
    assert steps[..j] == steps[..i] + steps[i..j];
    RunInTwo(START, cfg, steps[..i], steps[i..j]);
    StartIsFine(cfg);
    RunKeepsInvariant(START, cfg, steps[..i]);
    RunKeepsInvariant(Run(START, cfg, steps[..i]), cfg, steps[i..j]);
  }

  /** The call whose statement a step is, if it is part of one. */
  function CallOf(step: Step): Option<nat> {
    match step
    case CancelRead(pid, _, _) => Some(pid)
    case CancelSave(pid) => Some(pid)
    case StartLookup(pid, _, _) => Some(pid)
    case StartCommit(pid, _, _, _) => Some(pid)
    case BeginRead(pid, _, _) => Some(pid)
    case BeginSave(pid) => Some(pid)
    case RecordRead(pid, _) => Some(pid)
    case RecordLoad(pid, _, _, _, _) => Some(pid)
    case RecordHead(pid) => Some(pid)
    case RecordDelete(pid) => Some(pid)
    case RecordInsert(pid) => Some(pid)
    case Abandon(pid) => Some(pid)
    case _ => None
  }

  /** None of the steps belongs to this call. */
  ghost predicate LeavesCall(steps: seq<Step>, pid: nat) {
    forall i :: 0 <= i < |steps| ==> CallOf(steps[i]) != Some(pid)
  }

  lemma OthersLeaveCall(s: Sys, cfg: Config, step: Step, pid: nat)
    requires CallOf(step) != Some(pid)
    ensures pid in s.pending <==> pid in Next(s, cfg, step).pending
    ensures pid in s.pending ==> Next(s, cfg, step).pending[pid] == s.pending[pid]
  {
    hide RegisterTx, CreateShiftTx, AssignTx, ReturnTx, OpenTx, CompleteTx, StartTx, PlanCancel;
    hide SaveCancelled, PlanStart, SaveStarted;
    hide Shows, IsItemList, IsTripByKey, Effect, SaveHead, InsertItem, DeleteItems;
  }

  lemma {:induction false} CallWaits(s: Sys, cfg: Config, steps: seq<Step>, pid: nat)
    requires LeavesCall(steps, pid)
    ensures pid in s.pending <==> pid in Run(s, cfg, steps).pending
    ensures pid in s.pending ==> Run(s, cfg, steps).pending[pid] == s.pending[pid]
    decreases |steps|
  {
    hide Next;
    if steps != [] {
      assert CallOf(steps[0]) != Some(pid);
      OthersLeaveCall(s, cfg, steps[0], pid);
      forall i | 0 <= i < |steps[1..]| ensures CallOf(steps[1..][i]) != Some(pid) {
        assert steps[1..][i] == steps[i + 1];
      }
      CallWaits(Next(s, cfg, steps[0]), cfg, steps[1..], pid);
    }
  }

  // ---------------------------------------------------------------------------------------
  // CancelShift and maintenance Start
  // ---------------------------------------------------------------------------------------

  /** CancelShift reads, everything else runs, and CancelShift saves: the save goes through exactly when
      the shift is still as it was read, and the call then did what it would do in one piece at the
      moment of the save; otherwise it does nothing. */
  lemma CancelIsAtomicWhenItSaves(s: Sys, cfg: Config, pid: nat, id: string, now: Time, between: seq<Step>)
    requires SysInv(s, cfg) && !Waits(s, pid) && PlanCancel(s.db, id, now).Ok? && LeavesCall(between, pid)
    ensures
      var before := Run(Next(s, cfg, CancelRead(pid, id, now)), cfg, between).db;
      var after := Run(s, cfg, [CancelRead(pid, id, now)] + between + [CancelSave(pid)]).db;
      && id in before.shifts
      && (before.shifts[id] == s.db.shifts[id]
          ==> CancelTx(before, id, now).Ok? && after == CancelTx(before, id, now).value.0)
      && (before.shifts[id] != s.db.shifts[id] ==> after == before)
  {
    hide Inv, Next, Run, PlanCancel, SaveCancelled;
    var read, save := CancelRead(pid, id, now), CancelSave(pid);
    var p := PlanCancel(s.db, id, now).value;
    var parked := Next(s, cfg, read);
    ParkedCancel(s, cfg, pid, id, now);
    var c := StepKeepsInvariant(s, cfg, read);
    CallWaits(parked, cfg, between, pid);
    RunKeepsInvariant(parked, cfg, between);
    var mid := Run(parked, cfg, between);
    assert PendingOk(mid.db, mid.pending[pid]);
    ThreePieces(s, cfg, read, between, save);
    CancelMakesChange(mid.db, cfg, p);
    SavedCancel(mid, cfg, pid, id, now, p);
  }

  lemma ThreePieces(s: Sys, cfg: Config, first: Step, between: seq<Step>, last: Step)
    ensures Run(s, cfg, [first] + between + [last]) == Next(Run(Next(s, cfg, first), cfg, between), cfg, last)
  {
    hide Next;
    RunInTwo(s, cfg, [first] + between, [last]);
    RunInTwo(s, cfg, [first], between);
  }

  lemma ParkedCancel(s: Sys, cfg: Config, pid: nat, id: string, now: Time)
    requires SysInv(s, cfg) && !Waits(s, pid) && PlanCancel(s.db, id, now).Ok?
    ensures var p := PlanCancel(s.db, id, now).value;
            && Next(s, cfg, CancelRead(pid, id, now)) == Park(s, pid, Cancelling(p))
            && id in s.db.shifts && p.read == s.db.shifts[id] && p.read.id == id
            && p.read.Cancel(now) == Ok(p.write) && p.write.updatedAt == now
  {
    hide VehiclesOk, TripsOk, TripsUnique, Covered, OrdersOk, OdometerOk, JobsOk, KeysOk, InspectionsOk;
    hide BookingOk, CalendarOk, PendingOk;
  }

  lemma SavedCancel(s: Sys, cfg: Config, pid: nat, id: string, now: Time, p: Replacement<W.Shift>)
    requires Waits(s, pid) && s.pending[pid] == Cancelling(p) && id in s.db.shifts
    requires p.read.Cancel(now) == Ok(p.write)
    requires SaveCancelled(s.db, p).Ok? <==> s.db.shifts[id] == p.read
    ensures var after := Next(s, cfg, CancelSave(pid)).db;
            && (s.db.shifts[id] == p.read ==> CancelTx(s.db, id, now).Ok? && after == CancelTx(s.db, id, now).value.0)
            && (s.db.shifts[id] != p.read ==> after == s.db)
  {
    hide SaveCancelled;
  }

  /** Likewise starting a maintenance order. */
  lemma BeginIsAtomicWhenItSaves(s: Sys, cfg: Config, pid: nat, id: string, now: Time, between: seq<Step>)
    requires SysInv(s, cfg) && !Waits(s, pid) && PlanStart(s.db, id, now).Ok? && LeavesCall(between, pid)
    ensures
      var before := Run(Next(s, cfg, BeginRead(pid, id, now)), cfg, between).db;
      var after := Run(s, cfg, [BeginRead(pid, id, now)] + between + [BeginSave(pid)]).db;
      && id in before.orders
      && (before.orders[id] == s.db.orders[id]
          ==> BeginTx(before, id, now).Ok? && after == BeginTx(before, id, now).value.0)
      && (before.orders[id] != s.db.orders[id] ==> after == before)
  {
    hide Inv, Next, Run, PlanStart, SaveStarted;
    var read, save := BeginRead(pid, id, now), BeginSave(pid);
    var p := PlanStart(s.db, id, now).value;
    var parked := Next(s, cfg, read);
    ParkedBegin(s, cfg, pid, id, now);
    var c := StepKeepsInvariant(s, cfg, read);
    CallWaits(parked, cfg, between, pid);
    RunKeepsInvariant(parked, cfg, between);
    var mid := Run(parked, cfg, between);
    assert PendingOk(mid.db, mid.pending[pid]);
    ThreePieces(s, cfg, read, between, save);
    BeginMakesChange(mid.db, cfg, p);
    SavedBegin(mid, cfg, pid, id, now, p);
  }

  lemma ParkedBegin(s: Sys, cfg: Config, pid: nat, id: string, now: Time)
    requires SysInv(s, cfg) && !Waits(s, pid) && PlanStart(s.db, id, now).Ok?
    ensures var p := PlanStart(s.db, id, now).value;
            && Next(s, cfg, BeginRead(pid, id, now)) == Park(s, pid, Beginning(p))
            && id in s.db.orders && p.read == s.db.orders[id] && p.read.id == id
            && p.read.Start(now) == Ok(p.write) && p.write.updatedAt == now
  {
    hide VehiclesOk, TripsOk, TripsUnique, Covered, ShiftsOk, OdometerOk, JobsOk, KeysOk, InspectionsOk;
    hide BookingOk, CalendarOk, PendingOk;
  }

  lemma SavedBegin(s: Sys, cfg: Config, pid: nat, id: string, now: Time, p: Replacement<O.Order>)
    requires Waits(s, pid) && s.pending[pid] == Beginning(p) && id in s.db.orders
    requires p.read.Start(now) == Ok(p.write)
    requires SaveStarted(s.db, p).Ok? <==> s.db.orders[id] == p.read
    ensures var after := Next(s, cfg, BeginSave(pid)).db;
            && (s.db.orders[id] == p.read ==> BeginTx(s.db, id, now).Ok? && after == BeginTx(s.db, id, now).value.0)
            && (s.db.orders[id] != p.read ==> after == s.db)
  {
    hide SaveStarted;
  }

  // ---------------------------------------------------------------------------------------
  // Inspection Record
  // ---------------------------------------------------------------------------------------

  function Inserts(pid: nat, n: nat): seq<Step> {
    if n == 0 then [] else [RecordInsert(pid)] + Inserts(pid, n - 1)
  }

  lemma {:induction false} IdleInserts(s: Sys, cfg: Config, pid: nat, n: nat)
    requires !Waits(s, pid)
    ensures Run(s, cfg, Inserts(pid, n)) == s
  {
    hide Next;
    if n > 0 {
      InsertIs(s, cfg, pid);
      assert Inserts(pid, n)[1..] == Inserts(pid, n - 1);
      IdleInserts(s, cfg, pid, n - 1);
    }
  }

  lemma {:induction false} InsertsInARow(s: Sys, cfg: Config, pid: nat, n: nat)
    requires Waits(s, pid) && s.pending[pid].Refilling? && |s.pending[pid].left| <= n
    ensures Run(s, cfg, Inserts(pid, n)).db == InsertsDone(s.db, s.pending[pid].left, s.pending[pid].inspectionId)
    decreases n
  {
    hide Next, InsertItem;
    InsertIs(s, cfg, pid);
    var id, left := s.pending[pid].inspectionId, s.pending[pid].left;
    if n > 0 {
      var next := Next(s, cfg, RecordInsert(pid));
      assert Inserts(pid, n)[0] == RecordInsert(pid) && Inserts(pid, n)[1..] == Inserts(pid, n - 1);
      if left != [] && InsertItem(s.db, left[0], id).Ok? {
        assert next.pending[pid] == Refilling(id, left[1..]);
        InsertsInARow(next, cfg, pid, n - 1);
      } else {
        IdleInserts(next, cfg, pid, n - 1);
      }
    }
  }

  /** The statements of a Record that has loaded its items. */
  function Rewrite(pid: nat, n: nat): seq<Step> {
    [RecordHead(pid), RecordDelete(pid)] + Inserts(pid, n)
  }

  lemma RewriteInThree(s: Sys, cfg: Config, pid: nat, n: nat)
    ensures Run(s, cfg, Rewrite(pid, n))
            == Run(Next(Next(s, cfg, RecordHead(pid)), cfg, RecordDelete(pid)), cfg, Inserts(pid, n))
  {
    hide Next, Run;
    RunInTwo(s, cfg, [RecordHead(pid), RecordDelete(pid)], Inserts(pid, n));
    TwoSteps(s, cfg, RecordHead(pid), RecordDelete(pid));
  }

  lemma IdleRewrite(s: Sys, cfg: Config, pid: nat, n: nat)
    requires !Waits(s, pid)
    ensures Run(s, cfg, Rewrite(pid, n)) == s
  {
    HeadIs(s, cfg, pid);
    DeleteIs(s, cfg, pid);
    hide Next, Run, Rewrite;
    RewriteInThree(s, cfg, pid, n);
    IdleInserts(s, cfg, pid, n);
  }

  /** Uninterrupted, they do what saving the parked inspection does, in whole or up to the failing statement. */
  lemma RewriteRuns(s: Sys, cfg: Config, pid: nat, n: nat)
    requires Waits(s, pid) && s.pending[pid].Recording? && s.pending[pid].rewrite.read.head.version != 0
    requires |s.pending[pid].rewrite.write.items| <= n
    ensures var w := s.pending[pid].rewrite;
            Run(s, cfg, Rewrite(pid, n)).db == SavedInPart(s.db, w.write, w.read.head.version)
  {
    HeadIs(s, cfg, pid);
    hide Next, Run, Rewrite, SaveHead, DeleteItems, InsertsDone, SaveInspection;
    RewriteInThree(s, cfg, pid, n);
    var s1 := Next(s, cfg, RecordHead(pid));
    DeleteIs(s1, cfg, pid);
    if Waits(s1, pid) {
      InsertsInARow(Next(s1, cfg, RecordDelete(pid)), cfg, pid, n);
    } else {
      IdleInserts(s1, cfg, pid, n);
    }
  }

  /** With nothing in between, Record's statements - two reads, the header, the delete and the inserts - do
      what the whole call does, in whole or up to the failing statement. */
  lemma RecordWithoutInterruption(s: Sys, cfg: Config, pid: nat, id: string, loaded: seq<I.Item>,
                                  item: Inspecting.ItemInput, itemId: string, now: Time, n: nat)
    requires SysInv(s, cfg) && !Waits(s, pid) && IsItemList(s.db.items, id, loaded)
    requires var p := Inspecting.PlanRecord(s.db, id, loaded, item, itemId, now);
             p.Ok? ==> |p.value.write.items| <= n
    ensures Run(s, cfg, [RecordRead(pid, id), RecordLoad(pid, loaded, item, itemId, now)] + Rewrite(pid, n)).db
            == Inspecting.RecordedInPart(s.db, id, loaded, item, itemId, now)
  {
    hide SysInv, Next, Run, SavedInPart, SaveInspection, IsItemList, Inspecting.Entered, Inspecting.RecordTx, Rewrite;
    var read, load := RecordRead(pid, id), RecordLoad(pid, loaded, item, itemId, now);
    RunInTwo(s, cfg, [read, load], Rewrite(pid, n));
    TwoSteps(s, cfg, read, load);
    ReadIs(s, cfg, read);
    var s1 := Next(s, cfg, read);
    LoadIs(s1, cfg, pid, loaded, item, itemId, now);
    var s2 := Next(s1, cfg, load);
    if Waits(s2, pid) {
      HeadIsNumbered(s, cfg, id);
      ReadsTheHead(s.db, id, loaded, item, itemId, now);
      RewriteRuns(s2, cfg, pid, n);
    } else {
      IdleRewrite(s2, cfg, pid, n);
    }
  }

  lemma HeadIsNumbered(s: Sys, cfg: Config, id: string)
    requires SysInv(s, cfg) && id in s.db.heads
    ensures s.db.heads[id].id == id && s.db.heads[id].version != 0
  {
    hide VehiclesOk, DriversOk, ShiftsOk, TripsOk, TripsUnique, Covered, OrdersOk, OdometerOk, JobsOk, KeysOk;
    hide BookingOk, CalendarOk, PendingOk;
  }

  lemma TwoSteps(s: Sys, cfg: Config, a: Step, b: Step)
    ensures Run(s, cfg, [a, b]) == Next(Next(s, cfg, a), cfg, b)
  {
    hide Next;
    assert [a, b] == [a] + [b];
    RunInTwo(s, cfg, [a], [b]);
    OneStep(s, cfg, a);
    OneStep(Next(s, cfg, a), cfg, b);
  }

  lemma OneStep(s: Sys, cfg: Config, step: Step)
    ensures Run(s, cfg, [step]) == Next(s, cfg, step)
  {
    hide Next;
    assert [step][1..] == [];
  }

  lemma ReadParks(s: Sys, cfg: Config, pid: nat, id: string)
    requires !Waits(s, pid) && id in s.db.heads
    ensures Next(s, cfg, RecordRead(pid, id)) == Park(s, pid, Loading(s.db.heads[id]))
  {
    ReadIs(s, cfg, RecordRead(pid, id));
    hide Next;
  }

  lemma ReadsTheHead(t: Tables, id: string, loaded: seq<I.Item>, item: Inspecting.ItemInput, itemId: string, now: Time)
    requires id in t.heads && t.heads[id].id == id && Inspecting.Entered(t.heads[id], loaded, item, itemId, now).Ok?
    ensures var w := Inspecting.Entered(t.heads[id], loaded, item, itemId, now).value;
            w.read.head == t.heads[id] && w.write.head == t.heads[id].(updatedAt := now)
  {
  }
}
