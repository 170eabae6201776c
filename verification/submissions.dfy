/** What becomes of a submitted inspection while stale calls to Record are still under way. */
module Submissions {
  import opened Basics
  import opened Schema
  import opened Dispatch
  import opened Planning
  import opened Upkeep
  import opened Changes
  import opened Invariant
  import opened Exact
  import opened System
  import Fuelling
  import Interleaving
  import Recording
  import Inspecting
  import I = Inspections

  /** The stored items of an inspection. */
  ghost function ItemsOf(items: map<string, I.Item>, id: string): map<string, I.Item> {
    map k | k in items && items[k].inspectionId == id :: items[k]
  }

  ghost predicate Settled(t: Tables, id: string) {
    id in t.heads && t.heads[id].status != I.Draft
  }

  /** A submitted header never changes again, whatever runs. */
  lemma HeaderIsFinal(s: Sys, cfg: Config, id: string, steps: seq<Step>)
    requires SysInv(s, cfg) && Settled(s.db, id)
    ensures id in Run(s, cfg, steps).db.heads && Run(s, cfg, steps).db.heads[id] == s.db.heads[id]
  {
    hide Run, SysInv, VehiclesAdvance, ShiftsAdvance, TripsAdvance, OrdersAdvance;
    RunKeepsInvariant(s, cfg, steps);
  }

  /** Some call to Record has passed its version check for this inspection, and has yet to delete its items. */
  ghost predicate WipeUnderWay(s: Sys, id: string) {
    exists pid :: Waits(s, pid) && s.pending[pid].Clearing? && s.pending[pid].write.head.id == id
  }

  ghost predicate Complete(s: Sys, id: string) {
    Settled(s.db, id) && AllCodesStored(s.db.items, id)
  }

  /** Only the two last statements of Record write items. */
  lemma OtherStepsKeepItems(s: Sys, cfg: Config, step: Step)
    requires SysInv(s, cfg) && !step.RecordDelete? && !step.RecordInsert?
    ensures Next(s, cfg, step).db.items == s.db.items
  {
    hide SysInv, Next, Permitted, Effect, Advances;
    var c := StepKeepsInvariant(s, cfg, step);
    if c.Some? {
      OtherChangesKeepItems(s.db, c.value);
    }
  }

  lemma OtherChangesKeepItems(t: Tables, c: Change)
    requires !c.ItemsCleared? && !c.ItemAdded?
    ensures Effect(t, c).items == t.items
  {
  }

  /** A complete submission that no Record is about to wipe stays so, and keeps its items. */
  lemma CompleteStays(s: Sys, cfg: Config, step: Step, id: string)
    requires SysInv(s, cfg) && Complete(s, id) && !WipeUnderWay(s, id)
    ensures ItemsOf(Next(s, cfg, step).db.items, id) == ItemsOf(s.db.items, id)
    ensures Complete(Next(s, cfg, step), id) && !WipeUnderWay(Next(s, cfg, step), id)
  {
    hide Next, WipeUnderWay, AllCodesStored, SysInv, VehiclesAdvance, ShiftsAdvance, TripsAdvance, OrdersAdvance;
    var c := StepKeepsInvariant(s, cfg, step);
    if step.RecordDelete? {
      DeleteElsewhere(s, cfg, step.pid, id);
    } else if step.RecordInsert? {
      InsertElsewhere(s, cfg, step.pid, id);
    } else {
      OtherStepsKeepItems(s, cfg, step);
    }
    NoNewWipe(s, cfg, step, id);
    SameItemsSameCodes(s.db.items, Next(s, cfg, step).db.items, id);
  }

  lemma SameItemsSameCodes(a: map<string, I.Item>, b: map<string, I.Item>, id: string)
    requires ItemsOf(a, id) == ItemsOf(b, id) && AllCodesStored(a, id)
    ensures AllCodesStored(b, id)
  {
    forall code | code in I.REQUIRED_ITEMS ensures CodeStored(b, id, code) {
      assert CodeStored(a, id, code);
      var k :| k in a && a[k].inspectionId == id && a[k].code == code;
      assert k in ItemsOf(a, id);
      assert k in ItemsOf(b, id);
    }
  }

  lemma DeleteElsewhere(s: Sys, cfg: Config, pid: nat, id: string)
    requires !WipeUnderWay(s, id)
    ensures ItemsOf(Next(s, cfg, RecordDelete(pid)).db.items, id) == ItemsOf(s.db.items, id)
  {
  }

  /** An insert into a complete checklist hits the unique constraint. */
  lemma InsertElsewhere(s: Sys, cfg: Config, pid: nat, id: string)
    requires SysInv(s, cfg) && AllCodesStored(s.db.items, id)
    ensures ItemsOf(Next(s, cfg, RecordInsert(pid)).db.items, id) == ItemsOf(s.db.items, id)
  {
    InsertIs(s, cfg, pid);
    hide Inv, Next, AllCodesStored, ItemsOf, I.Required;
    if Waits(s, pid) && s.pending[pid].Refilling? && s.pending[pid].left != [] {
      assert PendingOk(s.db, s.pending[pid]);
      var target, item := s.pending[pid].inspectionId, s.pending[pid].left[0];
      InsertMisses(s.db, item, target, id);
    }
  }

  lemma InsertMisses(t: Tables, item: I.Item, target: string, id: string)
    requires AllCodesStored(t.items, id) && I.Required(item.code)
    ensures InsertItem(t, item, target).Ok?
            ==> ItemsOf(InsertItem(t, item, target).value.items, id) == ItemsOf(t.items, id)
  {
    assert CodeStored(t.items, id, item.code);
  }

  lemma NoNewWipe(s: Sys, cfg: Config, step: Step, id: string)
    requires SysInv(s, cfg) && Settled(s.db, id) && !WipeUnderWay(s, id)
    ensures !WipeUnderWay(Next(s, cfg, step), id)
  {
    hide RegisterTx, CreateShiftTx, AssignTx, ReturnTx, OpenTx, CompleteTx, StartTx, PlanCancel;
    hide SaveCancelled, PlanStart, SaveStarted;
    hide Shows, IsItemList, IsTripByKey, Effect, InsertItem, DeleteItems, Inspecting.Entered;
    hide Inspecting.SubmitTx, Inspecting.CreateTx;
    hide Fuelling.RecordTx, VehiclesOk, DriversOk, ShiftsOk, TripsOk, TripsUnique, Covered, OrdersOk;
    hide OdometerOk, JobsOk, KeysOk, BookingOk, CalendarOk;
    if step.RecordHead? && Waits(s, step.pid) {
      assert PendingOk(s.db, s.pending[step.pid]);
    }
  }

  lemma {:induction false} CompleteStaysForever(s: Sys, cfg: Config, id: string, steps: seq<Step>)
    requires SysInv(s, cfg) && Complete(s, id) && !WipeUnderWay(s, id)
    ensures ItemsOf(Run(s, cfg, steps).db.items, id) == ItemsOf(s.db.items, id)
    decreases |steps|
  {
    hide Next, SysInv, Complete, WipeUnderWay, ItemsOf;
    if steps != [] {
      CompleteStays(s, cfg, steps[0], id);
      var c := StepKeepsInvariant(s, cfg, steps[0]);
      CompleteStaysForever(Next(s, cfg, steps[0]), cfg, id, steps[1..]);
    }
  }

  /** The items of a complete submission keep through every continuation exactly when no call to Record
      has already got past its version check: Record's statements run outside a transaction, so one that
      has updated the draft's header still deletes the items after the submission. */
  lemma ItemsAreFinalExactly(s: Sys, cfg: Config, id: string)
    requires SysInv(s, cfg) && Complete(s, id)
    ensures (forall steps :: ItemsOf(Run(s, cfg, steps).db.items, id) == ItemsOf(s.db.items, id))
              <==> !WipeUnderWay(s, id)
  {
    hide SysInv, ItemsOf, Run, Next;
    if WipeUnderWay(s, id) {
      var pid :| Waits(s, pid) && s.pending[pid].Clearing? && s.pending[pid].write.head.id == id;
      WipeLosesItems(s, cfg, pid, id);
    } else {
      forall steps ensures ItemsOf(Run(s, cfg, steps).db.items, id) == ItemsOf(s.db.items, id) {
        CompleteStaysForever(s, cfg, id, steps);
      }
    }
  }

  lemma WipeLosesItems(s: Sys, cfg: Config, pid: nat, id: string)
    requires Complete(s, id) && Waits(s, pid) && s.pending[pid].Clearing? && s.pending[pid].write.head.id == id
    ensures ItemsOf(Run(s, cfg, [RecordDelete(pid)]).db.items, id) != ItemsOf(s.db.items, id)
  {
    var next := Next(s, cfg, RecordDelete(pid));
    assert [RecordDelete(pid)][1..] == [];
    assert Run(s, cfg, [RecordDelete(pid)]) == Run(next, cfg, []) == next;
    assert I.REQUIRED_ITEMS[0] in I.REQUIRED_ITEMS;
    assert CodeStored(s.db.items, id, I.REQUIRED_ITEMS[0]);
    var k :| k in s.db.items && s.db.items[k].inspectionId == id && s.db.items[k].code == I.REQUIRED_ITEMS[0];
    assert k in ItemsOf(s.db.items, id);
    assert k !in next.db.items;
  }

  /** And such calls there are: from any moment at which a draft is ready for submission, one call to
      Record with a permitted item and one to Submit can run so that the submission is left without
      any items. */
  lemma RecordCanWipeSubmission(s: Sys, cfg: Config, pid: nat, id: string, loaded: seq<I.Item>,
                                item: Inspecting.ItemInput, itemId: string, now: Time, ids: Inspecting.SubmitIds)
    requires SysInv(s, cfg) && !Waits(s, pid)
    requires MaySubmit(s.db, id, ids) && IsItemList(s.db.items, id, loaded)
    requires I.Required(item.code) && !item.outcome.Unrecognised?
    ensures var after := Run(s, cfg, [RecordRead(pid, id), RecordLoad(pid, loaded, item, itemId, now), RecordHead(pid),
                                      Submit(id, loaded, ids, now), RecordDelete(pid)]);
            Settled(after.db, id) && ItemsOf(after.db.items, id) == map[]
  {
    hide SysInv, Next, Run, AllCodesStored, SomeFailed, IsItemList, Settled, ItemsOf, I.Required;
    hide VehiclesAdvance, ShiftsAdvance, TripsAdvance, OrdersAdvance, HeadsAdvance;
    var load := RecordLoad(pid, loaded, item, itemId, now);
    var s1 := Next(s, cfg, RecordRead(pid, id));
    var c1 := StepKeepsInvariant(s, cfg, RecordRead(pid, id));
    var s2 := Next(s1, cfg, load);
    var c2 := StepKeepsInvariant(s1, cfg, load);
    var s3 := Next(s2, cfg, RecordHead(pid));
    var c3 := StepKeepsInvariant(s2, cfg, RecordHead(pid));
    var s4 := Next(s3, cfg, Submit(id, loaded, ids, now));
    FirstStep(s, cfg, RecordRead(pid, id), [load, RecordHead(pid), Submit(id, loaded, ids, now), RecordDelete(pid)]);
    FourSteps(s1, cfg, load, RecordHead(pid), Submit(id, loaded, ids, now), RecordDelete(pid));
    assert [RecordRead(pid, id)] + [load, RecordHead(pid), Submit(id, loaded, ids, now), RecordDelete(pid)]
        == [RecordRead(pid, id), load, RecordHead(pid), Submit(id, loaded, ids, now), RecordDelete(pid)];
    RecordReachesDelete(s, cfg, pid, id, loaded, item, itemId, now);
    StillSubmittable(s.db, s3.db, id, ids);
    SubmitGoesThrough(s3, cfg, pid, id, loaded, ids, now);
    DeleteEmpties(s4, cfg, pid, id);
  }

  lemma FirstStep(s: Sys, cfg: Config, step: Step, rest: seq<Step>)
    ensures Run(s, cfg, [step] + rest) == Run(Next(s, cfg, step), cfg, rest)
  {
    hide Next;
    assert ([step] + rest)[1..] == rest;
  }

  lemma FourSteps(s: Sys, cfg: Config, a: Step, b: Step, c: Step, d: Step)
    ensures Run(s, cfg, [a, b, c, d]) == Next(Next(Next(Next(s, cfg, a), cfg, b), cfg, c), cfg, d)
  {
    hide Next;
    FirstStep(s, cfg, a, [b, c, d]);
    FirstStep(Next(s, cfg, a), cfg, b, [c, d]);
    FirstStep(Next(Next(s, cfg, a), cfg, b), cfg, c, [d]);
    FirstStep(Next(Next(Next(s, cfg, a), cfg, b), cfg, c), cfg, d, []);
    assert [a] + [b, c, d] == [a, b, c, d] && [b] + [c, d] == [b, c, d] && [c] + [d] == [c, d] && [d] + [] == [d];
  }

  lemma RecordReachesDelete(s: Sys, cfg: Config, pid: nat, id: string, loaded: seq<I.Item>, item: Inspecting.ItemInput,
                            itemId: string, now: Time)
    requires SysInv(s, cfg) && !Waits(s, pid) && id in s.db.heads && s.db.heads[id].status == I.Draft
    requires IsItemList(s.db.items, id, loaded) && I.Required(item.code) && !item.outcome.Unrecognised?
    ensures var s3 := Next(Next(Next(s, cfg, RecordRead(pid, id)), cfg, RecordLoad(pid, loaded, item, itemId, now)),
                           cfg, RecordHead(pid));
            && s3.db == s.db.(heads := s.db.heads[id := s.db.heads[id].(updatedAt := now)])
            && Waits(s3, pid) && s3.pending[pid].Clearing? && s3.pending[pid].write.head.id == id
  {
    hide Inv, PendingOk, IsItemList, SaveHead, I.Required, I.Put, Next;
    Recording.DraftSaves(s.db, cfg, id, now);
    Interleaving.ReadParks(s, cfg, pid, id);
    var s1 := Next(s, cfg, RecordRead(pid, id));
    LoadIs(s1, cfg, pid, loaded, item, itemId, now);
    HeadIs(Next(s1, cfg, RecordLoad(pid, loaded, item, itemId, now)), cfg, pid);
  }

  lemma StillSubmittable(a: Tables, b: Tables, id: string, ids: Inspecting.SubmitIds)
    requires MaySubmit(a, id, ids) && b == a.(heads := b.heads)
    requires id in b.heads && b.heads[id] == a.heads[id].(updatedAt := b.heads[id].updatedAt)
    ensures MaySubmit(b, id, ids)
  {
    hide AllCodesStored, SomeFailed;
  }

  lemma SubmitGoesThrough(s: Sys, cfg: Config, pid: nat, id: string, loaded: seq<I.Item>, ids: Inspecting.SubmitIds,
                          now: Time)
    requires SysInv(s, cfg) && MaySubmit(s.db, id, ids) && IsItemList(s.db.items, id, loaded) && Waits(s, pid)
    ensures var after := Next(s, cfg, Submit(id, loaded, ids, now));
            Settled(after.db, id) && Waits(after, pid) && after.pending[pid] == s.pending[pid]
  {
    hide SysInv, Next, IsItemList, AllCodesStored, SomeFailed, Inspecting.SubmitTx, Settled;
    Interleaving.OthersLeaveCall(s, cfg, Submit(id, loaded, ids, now), pid);
    StoreOf(s, cfg);
    HeadsAreKeyed(s.db, cfg);
    SubmitSettles(s.db, cfg, id, loaded, ids, now);
    Committed(s, cfg, id, loaded, ids, now);
  }

  lemma Committed(s: Sys, cfg: Config, id: string, loaded: seq<I.Item>, ids: Inspecting.SubmitIds, now: Time)
    requires IsItemList(s.db.items, id, loaded) && Inspecting.SubmitTx(s.db, id, loaded, ids, now).Ok?
    ensures Next(s, cfg, Submit(id, loaded, ids, now)).db == Inspecting.SubmitTx(s.db, id, loaded, ids, now).value.0
  {
    hide Inspecting.SubmitTx, IsItemList;
  }

  lemma HeadsAreKeyed(t: Tables, cfg: Config)
    requires Inv(t, cfg)
    ensures forall k :: k in t.heads ==> t.heads[k].id == k
  {
  }

  lemma SubmitSettles(t: Tables, cfg: Config, id: string, loaded: seq<I.Item>, ids: Inspecting.SubmitIds, now: Time)
    requires Inv(t, cfg) && MaySubmit(t, id, ids) && IsItemList(t.items, id, loaded) && t.heads[id].id == id
    ensures Inspecting.SubmitTx(t, id, loaded, ids, now).Ok?
    ensures Settled(Inspecting.SubmitTx(t, id, loaded, ids, now).value.0, id)
  {
    hide Inv, IsItemList, AllCodesStored, SomeFailed, Inspecting.SubmitTx, Permitted, Effect, SubmitChange;
    hide Settled, I.SubmittedHead;
    SubmitExactly(t, cfg, id, loaded, ids, now);
    ChangeSettles(t, id, loaded, ids, now);
  }

  lemma ChangeSettles(t: Tables, id: string, list: seq<I.Item>, ids: Inspecting.SubmitIds, now: Time)
    requires id in t.heads && t.heads[id].id == id
    requires I.SubmittedHead(I.Inspection(t.heads[id], list), now).status == I.Failed
             ==> t.heads[id].vehicleId in t.vehicles
    ensures Settled(Effect(t, SubmitChange(t, id, list, ids, now)), id)
  {
    hide I.PassedAmong;
  }

  lemma DeleteEmpties(s: Sys, cfg: Config, pid: nat, id: string)
    requires Settled(s.db, id) && Waits(s, pid) && s.pending[pid].Clearing? && s.pending[pid].write.head.id == id
    ensures Settled(Next(s, cfg, RecordDelete(pid)).db, id)
            && ItemsOf(Next(s, cfg, RecordDelete(pid)).db.items, id) == map[]
  {
  }
}
