/** When an item that Record has stored is lost to another call of Record. */
module Overwrites {
  import opened Basics
  import opened Schema
  import opened Changes
  import opened Invariant
  import opened Exact
  import opened System
  import opened Dispatch
  import opened Planning
  import opened Upkeep
  import opened Interleaving
  import opened Recording
  import Fuelling
  import Inspecting
  import Stranding
  import Submissions
  import I = Inspections

  ghost predicate Holds(t: Tables, x: I.Item) {
    x.id in t.items && t.items[x.id] == x
  }

  ghost predicate IsDraft(t: Tables, id: string) {
    id in t.heads && t.heads[id].status == I.Draft
  }

  /** A call that will delete the inspection's items, whatever they are by then: it has passed its version
      check, or has loaded the items of what is still a draft. */
  ghost predicate Rewriting(t: Tables, p: Pending, id: string) {
    || (p.Clearing? && p.write.head.id == id)
    || (p.Recording? && p.rewrite.write.head.id == id && IsDraft(t, id))
  }

  ghost predicate RewriteUnderWay(s: Sys, id: string) {
    exists pid :: Waits(s, pid) && Rewriting(s.db, s.pending[pid], id)
  }

  /** The step is a Record's load of this inspection's items, while it is a draft. */
  ghost predicate LoadsDraft(s: Sys, step: Step, id: string) {
    && step.RecordLoad? && Waits(s, step.pid)
    && s.pending[step.pid].Loading? && s.pending[step.pid].head.id == id && IsDraft(s.db, id)
  }

  ghost predicate NoneLoads(s: Sys, cfg: Config, steps: seq<Step>, id: string)
    decreases |steps|
  {
    steps == [] || (!LoadsDraft(s, steps[0], id) && NoneLoads(Next(s, cfg, steps[0]), cfg, steps[1..], id))
  }

  // ---------------------------------------------------------------------------------------
  // Where no rewrite is under way, an item stays
  // ---------------------------------------------------------------------------------------

  lemma DeletesElsewhere(s: Sys, cfg: Config, pid: nat, x: I.Item)
    requires Holds(s.db, x) && !RewriteUnderWay(s, x.inspectionId)
    ensures Holds(Next(s, cfg, RecordDelete(pid)).db, x)
  {
    DeleteIs(s, cfg, pid);
    hide Next;
  }

  lemma InsertsBeside(s: Sys, cfg: Config, pid: nat, x: I.Item)
    requires Holds(s.db, x)
    ensures Holds(Next(s, cfg, RecordInsert(pid)).db, x)
  {
    InsertIs(s, cfg, pid);
    hide Next;
  }

  /** A call comes to rewrite an inspection only by a load or by the header update. */
  lemma OnlyRecordRewrites(s: Sys, cfg: Config, step: Step, q: nat)
    requires q in Next(s, cfg, step).pending && !(step.RecordLoad? && step.pid == q)
             && !(step.RecordHead? && step.pid == q)
    requires Next(s, cfg, step).pending[q].Clearing? || Next(s, cfg, step).pending[q].Recording?
    ensures q in s.pending && s.pending[q] == Next(s, cfg, step).pending[q]
  {
    hide RegisterTx, CreateShiftTx, AssignTx, ReturnTx, OpenTx, CompleteTx, StartTx, PlanCancel;
    hide SaveCancelled, PlanStart, SaveStarted;
    hide Shows, IsItemList, IsTripByKey, Effect, InsertItem, DeleteItems, SaveHead, Inspecting.Entered;
    hide Inspecting.SubmitTx;
    hide Inspecting.CreateTx, Fuelling.RecordTx;
  }

  lemma NoDraftAgain(s: Sys, cfg: Config, step: Step, id: string)
    requires SysInv(s, cfg) && id in s.db.heads && IsDraft(Next(s, cfg, step).db, id)
    ensures IsDraft(s.db, id)
  {
    hide SysInv, Next, VehiclesAdvance, ShiftsAdvance, TripsAdvance, OrdersAdvance;
    var c := StepKeepsInvariant(s, cfg, step);
  }

  lemma LoadStartsNone(s: Sys, cfg: Config, step: Step, id: string)
    requires step.RecordLoad? && !LoadsDraft(s, step, id) && !RewriteUnderWay(s, id)
    ensures var after := Next(s, cfg, step);
            Waits(after, step.pid) ==> !Rewriting(after.db, after.pending[step.pid], id)
  {
    LoadIs(s, cfg, step.pid, step.loaded, step.item, step.itemId, step.now);
    hide Next, IsItemList;
  }

  lemma HeadStartsNone(s: Sys, cfg: Config, pid: nat, id: string)
    requires SysInv(s, cfg) && !RewriteUnderWay(s, id)
    ensures var after := Next(s, cfg, RecordHead(pid));
            Waits(after, pid) ==> !Rewriting(after.db, after.pending[pid], id)
  {
    HeadIs(s, cfg, pid);
    hide Next, VehiclesOk, DriversOk, ShiftsOk, TripsOk, TripsUnique, Covered, OrdersOk, OdometerOk, JobsOk;
    hide KeysOk, BookingOk, CalendarOk;
    hide ItemsFine;
    if Waits(s, pid) {
      assert PendingOk(s.db, s.pending[pid]);
    }
  }

  lemma NoNewRewrite(s: Sys, cfg: Config, step: Step, id: string)
    requires SysInv(s, cfg) && id in s.db.heads && !LoadsDraft(s, step, id) && !RewriteUnderWay(s, id)
    ensures !RewriteUnderWay(Next(s, cfg, step), id)
  {
    hide SysInv, Next, LoadsDraft, IsDraft;
    var after := Next(s, cfg, step);
    if pid :| Waits(after, pid) && Rewriting(after.db, after.pending[pid], id) {
      if step.RecordLoad? && step.pid == pid {
        LoadStartsNone(s, cfg, step, id);
      } else if step.RecordHead? && step.pid == pid {
        HeadStartsNone(s, cfg, pid, id);
      } else {
        OnlyRecordRewrites(s, cfg, step, pid);
        if IsDraft(after.db, id) {
          NoDraftAgain(s, cfg, step, id);
        }
      }
      assert false;
    }
  }

  lemma ItemHasHead(t: Tables, cfg: Config, x: I.Item)
    requires Inv(t, cfg) && Holds(t, x)
    ensures x.inspectionId in t.heads
  {
    hide VehiclesOk, DriversOk, ShiftsOk, TripsOk, TripsUnique, Covered, OrdersOk, OdometerOk, JobsOk, KeysOk;
    hide BookingOk, CalendarOk;
  }

  lemma StepKeepsItem(s: Sys, cfg: Config, step: Step, x: I.Item)
    requires SysInv(s, cfg) && Holds(s.db, x)
    requires !LoadsDraft(s, step, x.inspectionId) && !RewriteUnderWay(s, x.inspectionId)
    ensures Holds(Next(s, cfg, step).db, x) && !RewriteUnderWay(Next(s, cfg, step), x.inspectionId)
  {
    hide SysInv, Next, LoadsDraft, RewriteUnderWay, Holds;
    StoreOf(s, cfg);
    ItemHasHead(s.db, cfg, x);
    NoNewRewrite(s, cfg, step, x.inspectionId);
    if step.RecordDelete? {
      DeletesElsewhere(s, cfg, step.pid, x);
    } else if step.RecordInsert? {
      InsertsBeside(s, cfg, step.pid, x);
    } else {
      Submissions.OtherStepsKeepItems(s, cfg, step);
      SameItemsHold(s.db, Next(s, cfg, step).db, x);
    }
  }

  lemma SameItemsHold(a: Tables, b: Tables, x: I.Item)
    requires Holds(a, x) && a.items == b.items
    ensures Holds(b, x)
  {
  }

  lemma {:induction false} RunKeepsItem(s: Sys, cfg: Config, steps: seq<Step>, x: I.Item)
    requires SysInv(s, cfg) && Holds(s.db, x) && !RewriteUnderWay(s, x.inspectionId)
    requires NoneLoads(s, cfg, steps, x.inspectionId)
    ensures Holds(Run(s, cfg, steps).db, x)
    decreases |steps|
  {
    hide SysInv, Next, LoadsDraft, RewriteUnderWay, Holds, Advances;
    if steps != [] {
      StepKeepsItem(s, cfg, steps[0], x);
      var c := StepKeepsInvariant(s, cfg, steps[0]);
      RunKeepsItem(Next(s, cfg, steps[0]), cfg, steps[1..], x);
    }
  }

  // ---------------------------------------------------------------------------------------
  // A rewrite under way can lose it
  // ---------------------------------------------------------------------------------------

  lemma ClearingLoses(s: Sys, cfg: Config, pid: nat, x: I.Item)
    requires Waits(s, pid) && s.pending[pid].Clearing? && s.pending[pid].write.head.id == x.inspectionId
    ensures !Holds(Next(s, cfg, RecordDelete(pid)).db, x)
  {
    DeleteIs(s, cfg, pid);
    hide Next;
  }

  lemma RecordingPasses(s: Sys, cfg: Config, pid: nat, id: string)
    requires SysInv(s, cfg) && Waits(s, pid) && s.pending[pid].Recording? && Rewriting(s.db, s.pending[pid], id)
    ensures var after := Next(s, cfg, RecordHead(pid));
            Waits(after, pid) && after.pending[pid].Clearing? && after.pending[pid].write.head.id == id
  {
    HeadIs(s, cfg, pid);
    hide Next, VehiclesOk, DriversOk, ShiftsOk, TripsOk, TripsUnique, Covered, OrdersOk, OdometerOk, JobsOk;
    hide KeysOk, BookingOk, CalendarOk;
    hide ItemsFine;
    assert PendingOk(s.db, s.pending[pid]);
  }

  lemma RewriteLoses(s: Sys, cfg: Config, x: I.Item) returns (steps: seq<Step>)
    requires SysInv(s, cfg) && RewriteUnderWay(s, x.inspectionId)
    ensures NoneLoads(s, cfg, steps, x.inspectionId) && !Holds(Run(s, cfg, steps).db, x)
  {
    hide SysInv, Next, Holds, Run;
    var pid :| Waits(s, pid) && Rewriting(s.db, s.pending[pid], x.inspectionId);
    if s.pending[pid].Clearing? {
      steps := [RecordDelete(pid)];
      ClearingLoses(s, cfg, pid, x);
      OneStep(s, cfg, steps[0]);
      assert steps[1..] == [];
    } else {
      steps := [RecordHead(pid), RecordDelete(pid)];
      RecordingPasses(s, cfg, pid, x.inspectionId);
      ClearingLoses(Next(s, cfg, steps[0]), cfg, pid, x);
      TwoSteps(s, cfg, steps[0], steps[1]);
      var next := Next(s, cfg, steps[0]);
      assert steps[1..] == [RecordDelete(pid)] && steps[1..][1..] == [];
      assert NoneLoads(Next(next, cfg, steps[1]), cfg, [], x.inspectionId);
      assert NoneLoads(next, cfg, steps[1..], x.inspectionId);
    }
  }

  /** A stored item stays as it is through every continuation in which no call loads the draft's items,
      exactly if none has loaded them that still has to delete them. */
  lemma ItemStaysExactly(s: Sys, cfg: Config, x: I.Item)
    requires SysInv(s, cfg) && Holds(s.db, x)
    ensures (forall steps :: NoneLoads(s, cfg, steps, x.inspectionId) ==> Holds(Run(s, cfg, steps).db, x)) <==>
      !RewriteUnderWay(s, x.inspectionId)
  {
    hide SysInv, Holds, Run, NoneLoads, RewriteUnderWay;
    if RewriteUnderWay(s, x.inspectionId) {
      var steps := RewriteLoses(s, cfg, x);
    } else {
      forall steps | NoneLoads(s, cfg, steps, x.inspectionId) ensures Holds(Run(s, cfg, steps).db, x) {
        RunKeepsItem(s, cfg, steps, x);
      }
    }
  }

  // ---------------------------------------------------------------------------------------
  // Every continuation: only a submission makes an item final
  // ---------------------------------------------------------------------------------------

  lemma {:induction false} SettledLoadsNone(s: Sys, cfg: Config, steps: seq<Step>, id: string)
    requires SysInv(s, cfg) && id in s.db.heads && !IsDraft(s.db, id)
    ensures NoneLoads(s, cfg, steps, id)
    decreases |steps|
  {
    hide SysInv, Next, VehiclesAdvance, ShiftsAdvance, TripsAdvance, OrdersAdvance;
    if steps != [] {
      var c := StepKeepsInvariant(s, cfg, steps[0]);
      SettledLoadsNone(Next(s, cfg, steps[0]), cfg, steps[1..], id);
    }
  }

  /** Some call number is free. */
  lemma {:induction false} FreeCall(pending: map<nat, Pending>) returns (pid: nat)
    ensures forall q :: q in pending ==> q < pid
    decreases |pending|
  {
    if pending == map[] {
      pid := 0;
    } else {
      var q :| q in pending;
      var rest := FreeCall(pending - {q});
      pid := if q < rest then rest else q + 1;
      forall other | other in pending ensures other < pid {
        assert other == q || other in pending - {q};
      }
    }
  }

  lemma DraftCanLose(s: Sys, cfg: Config, x: I.Item) returns (steps: seq<Step>)
    requires SysInv(s, cfg) && IsDraft(s.db, x.inspectionId)
    ensures !Holds(Run(s, cfg, steps).db, x)
  {
    hide SysInv, Next, Holds, Run, IsItemList;
    StoreOf(s, cfg);
    StoredIds(s.db, cfg);
    var pid := FreeCall(s.pending);
    var id := x.inspectionId;
    var loaded := Stranding.ListExists(s.db.items, id);
    var code := I.REQUIRED_ITEMS[0];
    var read, load := RecordRead(pid, id), RecordLoad(pid, loaded, Inspecting.ItemInput(code, I.Pass, ""), "", 0);
    Submissions.RecordReachesDelete(s, cfg, pid, id, loaded, load.item, "", 0);
    steps := [read, load] + [RecordHead(pid), RecordDelete(pid)];
    RunInTwo(s, cfg, [read, load], [RecordHead(pid), RecordDelete(pid)]);
    TwoSteps(s, cfg, read, load);
    TwoSteps(Next(Next(s, cfg, read), cfg, load), cfg, RecordHead(pid), RecordDelete(pid));
    ClearingLoses(Next(Next(Next(s, cfg, read), cfg, load), cfg, RecordHead(pid)), cfg, pid, x);
  }

  /** Through every continuation whatever, an item stays exactly if its inspection is submitted and no call
      is past its version check: no item of a draft is ever safe. */
  lemma ItemIsFinalExactly(s: Sys, cfg: Config, x: I.Item)
    requires SysInv(s, cfg) && Holds(s.db, x)
    ensures (forall steps :: Holds(Run(s, cfg, steps).db, x)) <==>
      !IsDraft(s.db, x.inspectionId) && !Submissions.WipeUnderWay(s, x.inspectionId)
  {
    hide SysInv, Holds, Run, NoneLoads, IsDraft;
    StoreOf(s, cfg);
    ItemHasHead(s.db, cfg, x);
    if IsDraft(s.db, x.inspectionId) {
      var steps := DraftCanLose(s, cfg, x);
    } else {
      WipeIsRewrite(s, x.inspectionId);
      ItemStaysExactly(s, cfg, x);
      forall steps ensures NoneLoads(s, cfg, steps, x.inspectionId) {
        SettledLoadsNone(s, cfg, steps, x.inspectionId);
      }
    }
  }

  lemma WipeIsRewrite(s: Sys, id: string)
    requires !IsDraft(s.db, id)
    ensures Submissions.WipeUnderWay(s, id) <==> RewriteUnderWay(s, id)
  {
    if pid :| Waits(s, pid) && s.pending[pid].Clearing? && s.pending[pid].write.head.id == id {
      assert Rewriting(s.db, s.pending[pid], id);
    }
  }

  // ---------------------------------------------------------------------------------------
  // Two Records of one draft
  // ---------------------------------------------------------------------------------------

  lemma {:induction false} InsertsLeaveCall(pid: nat, n: nat, q: nat)
    requires q != pid
    ensures LeavesCall(Inserts(pid, n), q)
  {
    if n > 0 {
      InsertsLeaveCall(pid, n - 1, q);
    }
  }

  lemma RewriteLeavesCall(pid: nat, n: nat, q: nat)
    requires q != pid
    ensures LeavesCall(Rewrite(pid, n), q)
  {
    InsertsLeaveCall(pid, n, q);
  }

  /** What a Record that goes through has loaded, and what its save will do. */
  lemma WillSave(t: Tables, cfg: Config, id: string, loaded: seq<I.Item>, item: Inspecting.ItemInput, itemId: string,
                 now: Time)
    returns (w: Inspecting.Rewrite)
    requires Inv(t, cfg) && IsItemList(t.items, id, loaded) && MayRecord(t, id, item, itemId)
    ensures Inspecting.Entered(t.heads[id], loaded, item, itemId, now) == Ok(w)
    ensures w.read.head.version == 1 && w.write.head.id == id
    ensures var r := Inspecting.RecordTx(t, id, loaded, item, itemId, now);
      && r.Ok? && r.value.1 == w.write && SaveInspection(t, w.write, 1) == Ok(r.value.0)
      && r.value.0 == t.(heads := t.heads[id := t.heads[id].(updatedAt := now)],
                         items := Replaced(t.items, I.Item(itemId, id, item.code, item.outcome, item.notes)))
  {
    hide Inv, IsItemList, I.Put, I.Required, SaveInspection, Replaced;
    DraftSaves(t, cfg, id, now);
    RecordExactly(t, cfg, id, loaded, item, itemId, now);
    w := Inspecting.Entered(t.heads[id], loaded, item, itemId, now).value;
  }

  /** Reading and loading parks the call and touches nothing else. */
  lemma Loads(s: Sys, cfg: Config, pid: nat, id: string, loaded: seq<I.Item>, item: Inspecting.ItemInput,
              itemId: string, now: Time, w: Inspecting.Rewrite)
    requires !Waits(s, pid) && IsItemList(s.db.items, id, loaded) && id in s.db.heads && s.db.heads[id].id == id
    requires Inspecting.Entered(s.db.heads[id], loaded, item, itemId, now) == Ok(w)
    ensures Run(s, cfg, [RecordRead(pid, id), RecordLoad(pid, loaded, item, itemId, now)]) == Park(s, pid, Recording(w))
  {
    hide Next, Run, IsItemList, Inspecting.Entered;
    ReadParks(s, cfg, pid, id);
    var s1 := Park(s, pid, Loading(s.db.heads[id]));
    LoadIs(s1, cfg, pid, loaded, item, itemId, now);
    TwoSteps(s, cfg, RecordRead(pid, id), RecordLoad(pid, loaded, item, itemId, now));
    assert s1.pending[pid := Recording(w)] == s.pending[pid := Recording(w)];
  }

  /** The second rewrite finds the store as the first one did, but for what it replaces anyway. */
  lemma SavesOver(t: Tables, after: Tables, x: I.Item, i: I.Inspection)
    requires i.head.id in t.heads && x.inspectionId == i.head.id
    requires x.id in t.items ==> t.items[x.id].inspectionId == x.inspectionId
    requires exists at ::
      after == t.(heads := t.heads[i.head.id := t.heads[i.head.id].(updatedAt := at)], items := Replaced(t.items, x))
    ensures SaveInspection(after, i, 1) == SaveInspection(t, i, 1)
  {
    hide InsertItems;
    var a, b := SaveHead(t, i.head, 1), SaveHead(after, i.head, 1);
    if a.Ok? {
      assert b.value.heads == a.value.heads;
      assert DeleteItems(b.value, i.head.id).items == DeleteItems(a.value, i.head.id).items;
    }
  }

  function BothLoad(a: nat, b: nat, id: string, loaded: seq<I.Item>, itemA: Inspecting.ItemInput, idA: string,
                    itemB: Inspecting.ItemInput, idB: string, now: Time): seq<Step>
  {
    [RecordRead(a, id), RecordLoad(a, loaded, itemA, idA, now)]
    + [RecordRead(b, id), RecordLoad(b, loaded, itemB, idB, now)]
  }

  lemma BothPark(s: Sys, cfg: Config, a: nat, b: nat, id: string, loaded: seq<I.Item>, itemA: Inspecting.ItemInput,
                 idA: string, itemB: Inspecting.ItemInput, idB: string, now: Time, wA: Inspecting.Rewrite,
                 wB: Inspecting.Rewrite)
    requires a != b && !Waits(s, a) && !Waits(s, b) && IsItemList(s.db.items, id, loaded)
    requires id in s.db.heads && s.db.heads[id].id == id
    requires Inspecting.Entered(s.db.heads[id], loaded, itemA, idA, now) == Ok(wA)
    requires Inspecting.Entered(s.db.heads[id], loaded, itemB, idB, now) == Ok(wB)
    ensures Run(s, cfg, BothLoad(a, b, id, loaded, itemA, idA, itemB, idB, now))
            == Park(Park(s, a, Recording(wA)), b, Recording(wB))
  {
    hide Next, Run, IsItemList, Inspecting.Entered;
    Loads(s, cfg, a, id, loaded, itemA, idA, now, wA);
    Loads(Park(s, a, Recording(wA)), cfg, b, id, loaded, itemB, idB, now, wB);
    RunInTwo(s, cfg, [RecordRead(a, id), RecordLoad(a, loaded, itemA, idA, now)],
             [RecordRead(b, id), RecordLoad(b, loaded, itemB, idB, now)]);
  }

  /** Two calls to Record load the items of a draft and then write one after the other: the first goes
      through, and after the second the store is as if the first had never been. */
  lemma LostUpdate(s: Sys, cfg: Config, a: nat, b: nat, id: string, loaded: seq<I.Item>, itemA: Inspecting.ItemInput,
                   idA: string, itemB: Inspecting.ItemInput, idB: string, now: Time)
    requires SysInv(s, cfg) && a != b && !Waits(s, a) && !Waits(s, b) && IsItemList(s.db.items, id, loaded)
    requires MayRecord(s.db, id, itemA, idA) && MayRecord(s.db, id, itemB, idB)
    ensures var first := Inspecting.RecordTx(s.db, id, loaded, itemA, idA, now);
      var second := Inspecting.RecordTx(s.db, id, loaded, itemB, idB, now);
      var loads := BothLoad(a, b, id, loaded, itemA, idA, itemB, idB, now);
      && first.Ok? && second.Ok?
      && Run(s, cfg, loads + Rewrite(a, |first.value.1.items|)).db == first.value.0
      && Run(s, cfg, loads + Rewrite(a, |first.value.1.items|) + Rewrite(b, |second.value.1.items|)).db
         == second.value.0
  {
    hide SysInv, Inv, Next, Run, IsItemList, Replaced, SaveInspection, Inspecting.Entered;
    hide Inspecting.RecordTx, Rewrite, LeavesCall;
    hide BothLoad;
    StoreOf(s, cfg);
    DraftSaves(s.db, cfg, id, now);
    var wA := WillSave(s.db, cfg, id, loaded, itemA, idA, now);
    var wB := WillSave(s.db, cfg, id, loaded, itemB, idB, now);
    BothPark(s, cfg, a, b, id, loaded, itemA, idA, itemB, idB, now, wA, wB);
    hide MayRecord, I.Required;
    var parked := Park(Park(s, a, Recording(wA)), b, Recording(wB));
    var loads := BothLoad(a, b, id, loaded, itemA, idA, itemB, idB, now);
    var one, two := Rewrite(a, |wA.write.items|), Rewrite(b, |wB.write.items|);
    RunInTwo(s, cfg, loads, one);
    RunInTwo(s, cfg, loads + one, two);
    RewriteRuns(parked, cfg, a, |wA.write.items|);
    RewriteLeavesCall(a, |wA.write.items|, b);
    CallWaits(parked, cfg, one, b);
    var x := I.Item(idA, id, itemA.code, itemA.outcome, itemA.notes);
    SavesOver(s.db, Run(parked, cfg, one).db, x, wB.write);
    RewriteRuns(Run(parked, cfg, one), cfg, b, |wB.write.items|);
  }
}
