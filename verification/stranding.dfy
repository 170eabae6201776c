/** A run that strands a vehicle: two failed inspections, two repairs, one of them completed. */
module Stranding {
  import opened Basics
  import opened Schema
  import opened Dispatch
  import opened Planning
  import opened Upkeep
  import opened Changes
  import opened Invariant
  import opened Exact
  import opened System
  import opened Theorems
  import opened Interleaving
  import Guards
  import Recording
  import Submissions
  import Inspecting
  import V = Vehicles
  import O = Orders
  import I = Inspections

  /** The items of an inspection can always be listed in order. */
  lemma {:induction false} ListExists(items: map<string, I.Item>, id: string) returns (list: seq<I.Item>)
    requires CodesUnique(items) && forall k :: k in items ==> items[k].id == k
    ensures IsItemList(items, id, list)
    decreases |items|
  {
    if items == map[] {
      list := [];
    } else {
      var k :| k in items;
      var rest := items - {k};
      list := ListExists(rest, id);
      if items[k].inspectionId == id {
        Listed(items, id, k, list);
        list := I.Put(list, items[k]);
      }
    }
  }

  lemma Listed(items: map<string, I.Item>, id: string, k: string, list: seq<I.Item>)
    requires CodesUnique(items) && (forall j :: j in items ==> items[j].id == j)
    requires k in items && items[k].inspectionId == id && IsItemList(items - {k}, id, list)
    ensures IsItemList(items, id, I.Put(list, items[k]))
  {
    hide I.Put, I.Ordered;
    I.PutKeepsOrder(list, items[k]);
    forall y: I.Item ensures y in I.Put(list, items[k]) <==> y.id in items && items[y.id] == y && y.inspectionId == id {
      Recording.PutMembers(list, items[k], y);
    }
  }

  /** One call to Record, as steps. */
  lemma RecordRuns(s: Sys, cfg: Config, id: string, code: string, itemId: string) returns (steps: seq<Step>)
    requires SysInv(s, cfg) && !Waits(s, 0) && id in s.db.heads && s.db.heads[id].status == I.Draft
    requires I.Required(code) && itemId !in s.db.items
    ensures SysInv(Run(s, cfg, steps), cfg) && !Waits(Run(s, cfg, steps), 0)
    ensures Run(s, cfg, steps).db ==
      s.db.(heads := s.db.heads[id := s.db.heads[id].(updatedAt := 0)],
            items := Recording.Replaced(s.db.items, I.Item(itemId, id, code, I.Fail, "")))
  {
    hide SysInv, Run, Inspecting.RecordTx, I.Put, Recording.Replaced, Next;
    StoreOf(s, cfg);
    Recording.StoredIds(s.db, cfg);
    var loaded := ListExists(s.db.items, id);
    var input := Inspecting.ItemInput(code, I.Fail, "");
    Recording.RecordExactly(s.db, cfg, id, loaded, input, itemId, 0);
    var items := Inspecting.RecordTx(s.db, id, loaded, input, itemId, 0).value.1.items;
    RecordWithoutInterruption(s, cfg, 0, id, loaded, input, itemId, 0, |items|);
    var body := [RecordRead(0, id), RecordLoad(0, loaded, input, itemId, 0)] + Rewrite(0, |items|);
    steps := body + [Abandon(0)];
    RunInTwo(s, cfg, body, [Abandon(0)]);
    OneStep(Run(s, cfg, body), cfg, Abandon(0));
    Abandons(Run(s, cfg, body), cfg);
    RunKeepsInvariant(s, cfg, steps);
  }

  lemma Abandons(s: Sys, cfg: Config)
    ensures Next(s, cfg, Abandon(0)) == Finish(s, 0)
  {
  }

  /** The first n required codes are stored for the inspection, each as failed. */
  ghost predicate FilledTo(items: map<string, I.Item>, id: string, n: nat)
    requires n <= |I.REQUIRED_ITEMS|
  {
    forall i :: 0 <= i < n ==> FailedAt(items, id, I.REQUIRED_ITEMS[i])
  }

  ghost predicate FailedAt(items: map<string, I.Item>, id: string, code: string) {
    exists k :: k in items && items[k].inspectionId == id && items[k].code == code && items[k].outcome == I.Fail
  }

  ghost function Used(ids: seq<string>, n: nat): set<string>
    requires n <= |ids|
  {
    set i | 0 <= i < n :: ids[i]
  }

  /** The tables differ only in what Record writes: the draft's time stamp and new items. */
  ghost predicate OnlyRecorded(a: Tables, b: Tables, id: string, ids: set<string>) {
    && id in a.heads
    && b == a.(heads := a.heads[id := a.heads[id].(updatedAt := if id in b.heads then b.heads[id].updatedAt else 0)],
               items := b.items)
    && b.items.Keys <= a.items.Keys + ids
  }

  lemma ReplacedKeeps(items: map<string, I.Item>, x: I.Item, id: string, n: nat)
    requires n < |I.REQUIRED_ITEMS| && FilledTo(items, id, n) && x.inspectionId == id
    requires x.code == I.REQUIRED_ITEMS[n] && x.outcome == I.Fail && x.id !in items
    ensures FilledTo(Recording.Replaced(items, x), id, n + 1)
    ensures Recording.Replaced(items, x).Keys <= items.Keys + {x.id}
  {
    var after := Recording.Replaced(items, x);
    forall i | 0 <= i < n + 1 ensures FailedAt(after, id, I.REQUIRED_ITEMS[i]) {
      if i == n {
        assert x.id in after && after[x.id] == x;
      } else {
        assert FailedAt(items, id, I.REQUIRED_ITEMS[i]);
        var k :| k in items && items[k].inspectionId == id && items[k].code == I.REQUIRED_ITEMS[i]
            && items[k].outcome == I.Fail;
        CodesDiffer(i, n);
        assert k in after && after[k] == items[k];
      }
    }
  }

  lemma CodesDiffer(i: nat, n: nat)
    requires i < n < |I.REQUIRED_ITEMS|
    ensures I.REQUIRED_ITEMS[i] != I.REQUIRED_ITEMS[n]
  {
    I.RequiredAreDistinct();
  }

  /** Recording the first n codes of a draft, all as failed. */
  lemma {:induction false} Fills(s: Sys, cfg: Config, id: string, ids: seq<string>, n: nat) returns (steps: seq<Step>)
    requires SysInv(s, cfg) && !Waits(s, 0) && id in s.db.heads && s.db.heads[id].status == I.Draft
    requires n <= |I.REQUIRED_ITEMS| == |ids| && (forall i, j :: 0 <= i < j < |ids| ==> ids[i] != ids[j])
    requires forall i :: 0 <= i < |ids| ==> ids[i] !in s.db.items
    ensures var after := Run(s, cfg, steps);
            && SysInv(after, cfg) && !Waits(after, 0) && FilledTo(after.db.items, id, n)
            && OnlyRecorded(s.db, after.db, id, Used(ids, n))
    decreases n
  {
    hide SysInv, Run, Next, Recording.Replaced, FilledTo, OnlyRecorded, I.Required;
    if n == 0 {
      steps := [];
      NothingRuns(s, cfg, id);
      assert Used(ids, 0) == {};
    } else {
      var before := Fills(s, cfg, id, ids, n - 1);
      var mid := Run(s, cfg, before);
      var code := I.REQUIRED_ITEMS[n - 1];
      StillDraft(s.db, mid.db, id, ids, n - 1);
      var last := RecordRuns(mid, cfg, id, code, ids[n - 1]);
      RunInTwo(s, cfg, before, last);
      steps := before + last;
      ReplacedKeeps(mid.db.items, I.Item(ids[n - 1], id, code, I.Fail, ""), id, n - 1);
      RecordedOneMore(s.db, mid.db, Run(s, cfg, steps).db, id, ids, n - 1);
    }
  }

  lemma StillDraft(a: Tables, b: Tables, id: string, ids: seq<string>, n: nat)
    requires n < |ids| == |I.REQUIRED_ITEMS| && (forall i, j :: 0 <= i < j < |ids| ==> ids[i] != ids[j])
    requires forall i :: 0 <= i < |ids| ==> ids[i] !in a.items
    requires OnlyRecorded(a, b, id, Used(ids, n)) && a.heads[id].status == I.Draft
    ensures id in b.heads && b.heads[id].status == I.Draft && ids[n] !in b.items && I.Required(I.REQUIRED_ITEMS[n])
  {
  }

  lemma RecordedOneMore(a: Tables, b: Tables, c: Tables, id: string, ids: seq<string>, n: nat)
    requires n < |ids| && OnlyRecorded(a, b, id, Used(ids, n)) && id in b.heads
    requires c == b.(heads := b.heads[id := b.heads[id].(updatedAt := 0)], items := c.items)
    requires c.items.Keys <= b.items.Keys + {ids[n]}
    ensures OnlyRecorded(a, c, id, Used(ids, n + 1))
  {
    var few, more := Used(ids, n), Used(ids, n + 1);
    assert ids[n] in more;
    forall x | x in few ensures x in more {
    }
  }

  lemma NothingRuns(s: Sys, cfg: Config, id: string)
    requires id in s.db.heads
    ensures Run(s, cfg, []) == s
    ensures OnlyRecorded(s.db, s.db, id, {}) && FilledTo(s.db.items, id, 0)
  {
  }

  // ---------------------------------------------------------------------------------------

  /** What the ids of one failed inspection must be. */
  ghost predicate Fresh(t: Tables, id: string, ids: seq<string>, orderId: string, jobId: string) {
    && id != "" && id !in t.heads && orderId != "" && orderId !in t.orders && jobId !in t.jobs
    && |ids| == |I.REQUIRED_ITEMS| && (forall i, j :: 0 <= i < j < |ids| ==> ids[i] != ids[j])
    && forall i :: 0 <= i < |ids| ==> ids[i] !in t.items
  }

  /** The vehicle is in maintenance with one more order open; of the other tables only these ids are used. */
  ghost predicate OneMoreRepair(a: Tables, b: Tables, vehicleId: string, id: string, ids: seq<string>, orderId: string,
                                jobId: string) {
    && vehicleId in b.vehicles && b.vehicles[vehicleId].status == V.Maintenance
    && orderId in b.orders && b.orders == a.orders[orderId := b.orders[orderId]]
    && b.orders[orderId].vehicleId == vehicleId && b.orders[orderId].status == O.Open
    && b.heads.Keys <= a.heads.Keys + {id} && b.jobs.Keys <= a.jobs.Keys + {jobId}
    && b.items.Keys <= a.items.Keys + Used(ids, |ids|)
  }

  /** A vehicle off duty is inspected and fails, whatever repairs it has: one more order is open. */
  lemma FailsInspection(s: Sys, cfg: Config, vehicleId: string, id: string, ids: seq<string>, orderId: string,
                        jobId: string)
    returns (steps: seq<Step>)
    requires SysInv(s, cfg) && !Waits(s, 0) && Fresh(s.db, id, ids, orderId, jobId)
    requires vehicleId in s.db.vehicles && s.db.vehicles[vehicleId].status in {V.Available, V.Maintenance}
    ensures SysInv(Run(s, cfg, steps), cfg) && !Waits(Run(s, cfg, steps), 0)
    ensures OneMoreRepair(s.db, Run(s, cfg, steps).db, vehicleId, id, ids, orderId, jobId)
  {
    hide SysInv, Run, Next, OnlyRecorded, FilledTo, IsItemList, OneMoreRepair, MaySubmit, SomeFailed, Advances, StepOk;
    var create := CreateInspection(vehicleId, "i", 0, id, 0, 0);
    var s1 := Next(s, cfg, create);
    var c1 := StepKeepsInvariant(s, cfg, create);
    Creates(s, cfg, vehicleId, id);
    var fills := Fills(s1, cfg, id, ids, |ids|);
    var s2 := Run(s1, cfg, fills);
    StoreOf(s2, cfg);
    Recording.StoredIds(s2.db, cfg);
    FilledMaySubmit(s1.db, s2.db, vehicleId, id, ids, orderId, jobId);
    var loaded := ListExists(s2.db.items, id);
    var submit := Submit(id, loaded, Inspecting.SubmitIds(orderId, jobId), 0);
    SubmitsFailed(s2, cfg, vehicleId, id, ids, loaded, orderId, jobId);
    Chained(s.db, s1.db, s2.db, Next(s2, cfg, submit).db, vehicleId, id, ids, orderId, jobId);
    steps := [create] + fills + [submit];
    ThreePieces(s, cfg, create, fills, submit);
  }

  lemma SubmitsFailed(s: Sys, cfg: Config, vehicleId: string, id: string, ids: seq<string>, loaded: seq<I.Item>,
                      orderId: string, jobId: string)
    requires SysInv(s, cfg) && !Waits(s, 0)
    requires MaySubmit(s.db, id, Inspecting.SubmitIds(orderId, jobId)) && SomeFailed(s.db.items, id)
    requires IsItemList(s.db.items, id, loaded) && s.db.heads[id].vehicleId == vehicleId && vehicleId in s.db.vehicles
    ensures var after := Next(s, cfg, Submit(id, loaded, Inspecting.SubmitIds(orderId, jobId), 0));
      SysInv(after, cfg) && !Waits(after, 0) && OneMoreRepair(s.db, after.db, vehicleId, id, [], orderId, jobId)
  {
    hide SysInv, Next, IsItemList, SomeFailed, AllCodesStored, Advances, StepOk;
    var submit := Submit(id, loaded, Inspecting.SubmitIds(orderId, jobId), 0);
    var c := StepKeepsInvariant(s, cfg, submit);
    FailsSubmission(s, cfg, vehicleId, id, loaded, orderId, jobId);
    OthersLeaveCall(s, cfg, submit, 0);
  }

  lemma Chained(a: Tables, b: Tables, c: Tables, d: Tables, vehicleId: string, id: string, ids: seq<string>,
                orderId: string, jobId: string)
    requires id in b.heads && b == a.(heads := a.heads[id := b.heads[id]])
    requires c == b.(heads := c.heads, items := c.items) && c.heads.Keys == b.heads.Keys
    requires c.items.Keys <= b.items.Keys + Used(ids, |ids|)
    requires OneMoreRepair(c, d, vehicleId, id, [], orderId, jobId)
    ensures OneMoreRepair(a, d, vehicleId, id, ids, orderId, jobId)
  {
  }

  lemma Creates(s: Sys, cfg: Config, vehicleId: string, id: string)
    requires SysInv(s, cfg) && !Waits(s, 0) && id != "" && id !in s.db.heads
    requires vehicleId in s.db.vehicles && s.db.vehicles[vehicleId].status in {V.Available, V.Maintenance}
    ensures var after := Next(s, cfg, CreateInspection(vehicleId, "i", 0, id, 0, 0));
      && !Waits(after, 0) && id in after.db.heads && after.db == s.db.(heads := s.db.heads[id := after.db.heads[id]])
      && after.db.heads[id].status == I.Draft && after.db.heads[id].vehicleId == vehicleId
         && after.db.heads[id].id == id
  {
    hide Inv, PendingOk, Inspecting.CreateTx;
    Guards.CreateInspectionExactly(s.db, cfg, vehicleId, "i", 0, id, 0, 0);
  }

  lemma FilledMaySubmit(a: Tables, b: Tables, vehicleId: string, id: string, ids: seq<string>, orderId: string,
                        jobId: string)
    requires id in a.heads && a.heads[id].status == I.Draft && a.heads[id].vehicleId == vehicleId
             && a.heads[id].id == id
    requires OnlyRecorded(a, b, id, Used(ids, |ids|)) && FilledTo(b.items, id, |I.REQUIRED_ITEMS|)
    requires vehicleId in a.vehicles && a.vehicles[vehicleId].status in {V.Available, V.Maintenance}
    requires orderId != "" && orderId !in a.orders && jobId !in a.jobs
    ensures MaySubmit(b, id, Inspecting.SubmitIds(orderId, jobId)) && SomeFailed(b.items, id)
    ensures b == a.(heads := b.heads, items := b.items) && b.heads.Keys == a.heads.Keys
    ensures b.heads[id].vehicleId == vehicleId && b.heads[id].id == id
    ensures b.items.Keys <= a.items.Keys + Used(ids, |ids|)
  {
    forall code | code in I.REQUIRED_ITEMS ensures CodeStored(b.items, id, code) {
      var i :| 0 <= i < |I.REQUIRED_ITEMS| && I.REQUIRED_ITEMS[i] == code;
      assert FailedAt(b.items, id, I.REQUIRED_ITEMS[i]);
    }
    assert FailedAt(b.items, id, I.REQUIRED_ITEMS[0]);
  }

  lemma FailsSubmission(s: Sys, cfg: Config, vehicleId: string, id: string, loaded: seq<I.Item>, orderId: string,
                        jobId: string)
    requires SysInv(s, cfg) && MaySubmit(s.db, id, Inspecting.SubmitIds(orderId, jobId)) && SomeFailed(s.db.items, id)
    requires IsItemList(s.db.items, id, loaded) && s.db.heads[id].vehicleId == vehicleId && vehicleId in s.db.vehicles
    ensures var t := Next(s, cfg, Submit(id, loaded, Inspecting.SubmitIds(orderId, jobId), 0)).db;
      && vehicleId in t.vehicles && t.vehicles[vehicleId].status == V.Maintenance
      && orderId in t.orders && t.orders == s.db.orders[orderId := t.orders[orderId]]
      && t.orders[orderId].vehicleId == vehicleId && t.orders[orderId].status == O.Open
      && t.heads.Keys <= s.db.heads.Keys + {id} && t.items == s.db.items && t.jobs.Keys <= s.db.jobs.Keys + {jobId}
  {
    hide SysInv, Next, IsItemList, SomeFailed, AllCodesStored, Inspecting.SubmitTx;
    StoreOf(s, cfg);
    Submissions.Committed(s, cfg, id, loaded, Inspecting.SubmitIds(orderId, jobId), 0) by {
      SubmitExactly(s.db, cfg, id, loaded, Inspecting.SubmitIds(orderId, jobId), 0);
    }
    FailedTables(s.db, cfg, vehicleId, id, loaded, orderId, jobId);
  }

  lemma FailedTables(t: Tables, cfg: Config, vehicleId: string, id: string, loaded: seq<I.Item>, orderId: string,
                     jobId: string)
    requires Inv(t, cfg) && MaySubmit(t, id, Inspecting.SubmitIds(orderId, jobId)) && SomeFailed(t.items, id)
    requires IsItemList(t.items, id, loaded) && t.heads[id].vehicleId == vehicleId && vehicleId in t.vehicles
    ensures Inspecting.SubmitTx(t, id, loaded, Inspecting.SubmitIds(orderId, jobId), 0).Ok?
    ensures var after := Inspecting.SubmitTx(t, id, loaded, Inspecting.SubmitIds(orderId, jobId), 0).value.0;
      && vehicleId in after.vehicles && after.vehicles[vehicleId].status == V.Maintenance
      && orderId in after.orders && after.orders == t.orders[orderId := after.orders[orderId]]
      && after.orders[orderId].vehicleId == vehicleId && after.orders[orderId].status == O.Open
      && after.heads.Keys <= t.heads.Keys + {id} && after.items == t.items && after.jobs.Keys <= t.jobs.Keys + {jobId}
  {
    hide Inv, IsItemList, SomeFailed, AllCodesStored, Inspecting.SubmitTx, I.SubmittedHead, Permitted;
    hide I.Submittable, SubmitChange;
    SubmitExactly(t, cfg, id, loaded, Inspecting.SubmitIds(orderId, jobId), 0);
    SubmittedScore(t, cfg, id, loaded, 0);
    Submissions.HeadsAreKeyed(t, cfg);
    FailedChange(t, cfg, id, loaded, orderId, jobId);
  }

  lemma FailedChange(t: Tables, cfg: Config, id: string, loaded: seq<I.Item>, orderId: string, jobId: string)
    requires Inv(t, cfg) && id in t.heads && t.heads[id].vehicleId in t.vehicles && t.heads[id].id == id
    requires I.SubmittedHead(I.Inspection(t.heads[id], loaded), 0).status == I.Failed
    ensures var c := SubmitChange(t, id, loaded, Inspecting.SubmitIds(orderId, jobId), 0);
      && c.InspectionFailed? && c.v.id == t.heads[id].vehicleId && c.v.status == V.Maintenance
      && c.o.id == orderId && c.o.status == O.Open && c.o.vehicleId == c.v.id && c.job.id == jobId && c.h.id == id
  {
    hide DriversOk, ShiftsOk, TripsOk, TripsUnique, Covered, OrdersOk, OdometerOk, JobsOk, KeysOk;
    hide InspectionsOk, BookingOk, CalendarOk;
    hide I.PassedAmong;
  }

  // ---------------------------------------------------------------------------------------

  const TRUCK := VehicleInput("t", 1, 0, HOUR)

  function Tag(n: nat): (tag: string)
    ensures |tag| == n
  {
    seq(n, _ => 'a')
  }

  function Tags(from: nat): seq<string> { seq(5, i requires 0 <= i < 5 => Tag(from + i)) }

  lemma TagsAreDistinct(from: nat)
    ensures |Tags(from)| == |I.REQUIRED_ITEMS|
    ensures forall i, j :: 0 <= i < j < |Tags(from)| ==> Tags(from)[i] != Tags(from)[j]
    ensures forall x :: x in Used(Tags(from), |Tags(from)|) ==> from <= |x| < from + 5
  {
    forall i | 0 <= i < 5 ensures |Tags(from)[i]| == from + i {
      assert Tags(from)[i] == Tag(from + i);
    }
  }

  /** A vehicle is registered. */
  lemma Registers(cfg: Config)
    ensures var s := Next(START, cfg, Register(TRUCK, "v", 0));
      && !Waits(s, 0) && "v" in s.db.vehicles && s.db.vehicles["v"].status == V.Available
      && s.db == EMPTY.(vehicles := s.db.vehicles)
  {
    assert !IsSpace("t"[0]);
    assert RegisterTx(EMPTY, TRUCK, "v", 0).Ok?;
    hide RegisterTx;
    Commits(cfg);
  }

  lemma Commits(cfg: Config)
    ensures Next(START, cfg, Register(TRUCK, "v", 0)).pending == map[]
    ensures Next(START, cfg, Register(TRUCK, "v", 0)) == Commit(START, RegisterTx(EMPTY, TRUCK, "v", 0))
  {
    hide RegisterTx;
  }

  /** After two failed inspections, the first repair is begun and completed. */
  lemma Repairs(s: Sys, cfg: Config)
    requires SysInv(s, cfg) && !Waits(s, 0) && "v" in s.db.vehicles && s.db.vehicles["v"].status == V.Maintenance
    requires "o" in s.db.orders && "oo" in s.db.orders && s.db.orders["o"].status == s.db.orders["oo"].status == O.Open
    requires s.db.orders["o"].vehicleId == s.db.orders["oo"].vehicleId == "v"
    ensures Stranded(Run(s, cfg, [BeginRead(0, "o", 0), BeginSave(0), CompleteOrder("o", 0)]).db, "v")
  {
    hide SysInv, Next, Run, Stranded;
    var begin := [BeginRead(0, "o", 0)] + [] + [BeginSave(0)];
    RunKeepsInvariant(s, cfg, begin);
    RepairBegins(s, cfg);
    RepairEnds(Run(s, cfg, begin), cfg);
    RunInTwo(s, cfg, begin, [CompleteOrder("o", 0)]);
    OneStep(Run(s, cfg, begin), cfg, CompleteOrder("o", 0));
    assert begin + [CompleteOrder("o", 0)] == [BeginRead(0, "o", 0), BeginSave(0), CompleteOrder("o", 0)];
  }

  lemma RepairBegins(s: Sys, cfg: Config)
    requires SysInv(s, cfg) && !Waits(s, 0) && "o" in s.db.orders && s.db.orders["o"].status == O.Open
    ensures Run(s, cfg, [BeginRead(0, "o", 0)] + [] + [BeginSave(0)]).db ==
      var order := s.db.orders["o"];
      s.db.(orders := s.db.orders["o" := order.(status := O.InProgress, version := order.version + 1, updatedAt := 0)])
  {
    hide SysInv, Next, Run, PlanStart, BeginTx;
    StoreOf(s, cfg);
    Begun(s.db, cfg);
    BeginIsAtomicWhenItSaves(s, cfg, 0, "o", 0, []);
    NoSteps(Next(s, cfg, BeginRead(0, "o", 0)), cfg);
    ReadsOnly(s, cfg);
  }

  lemma RepairEnds(s: Sys, cfg: Config)
    requires SysInv(s, cfg) && "v" in s.db.vehicles && s.db.vehicles["v"].status == V.Maintenance
    requires "o" in s.db.orders && s.db.orders["o"].status == O.InProgress && s.db.orders["o"].vehicleId == "v"
    requires "oo" in s.db.orders && s.db.orders["oo"].status == O.Open && s.db.orders["oo"].vehicleId == "v"
    ensures Stranded(Next(s, cfg, CompleteOrder("o", 0)).db, "v")
  {
    hide SysInv, Next, CompleteTx, Stranded, Permitted, Effect;
    StoreOf(s, cfg);
    CompleteExactly(s.db, cfg, "o", 0);
    CompletionStrandsExactly(s.db, cfg, "o", 0);
    Completes(s, cfg);
    assert s.db.orders["oo"].Active();
  }

  lemma NoSteps(s: Sys, cfg: Config)
    ensures Run(s, cfg, []) == s && LeavesCall([], 0)
  {
  }

  lemma ReadsOnly(s: Sys, cfg: Config)
    ensures Next(s, cfg, BeginRead(0, "o", 0)).db == s.db
  {
  }

  lemma Completes(s: Sys, cfg: Config)
    requires CompleteTx(s.db, "o", 0).Ok?
    ensures Next(s, cfg, CompleteOrder("o", 0)).db == CompleteTx(s.db, "o", 0).value.0
  {
    hide CompleteTx;
  }

  lemma Begun(t: Tables, cfg: Config)
    requires Inv(t, cfg) && "o" in t.orders && t.orders["o"].status == O.Open
    ensures PlanStart(t, "o", 0).Ok? && BeginTx(t, "o", 0).Ok?
    ensures var after := BeginTx(t, "o", 0).value.0;
      after == t.(orders := t.orders["o" := t.orders["o"].(status := O.InProgress, version := t.orders["o"].version + 1,
                                                           updatedAt := 0)])
  {
    hide Inv, BeginTx;
    Guards.BeginExactly(t, cfg, "o", 0);
  }

  /** From the empty database, for any limits and calendar, the program can come to leave an available
      vehicle with a repair still open. */
  lemma StrandedIsReachable(cfg: Config)
    ensures exists s :: Reached(s, cfg) && Stranded(s.db, "v")
  {
    hide SysInv, Next, Run, Stranded, OneMoreRepair, Fresh, Tags, Advances, StepOk;
    var register := Register(TRUCK, "v", 0);
    var s1 := Next(START, cfg, register);
    StartIsFine(cfg);
    var c := StepKeepsInvariant(START, cfg, register);
    Registers(cfg);
    FreshFirst(s1.db);
    var first := FailsInspection(s1, cfg, "v", "i", Tags(1), "o", "j");
    var s2 := Run(s1, cfg, first);
    FreshAgain(s1.db, s2.db);
    var second := FailsInspection(s2, cfg, "v", "ii", Tags(6), "oo", "jj");
    var s3 := Run(s2, cfg, second);
    BothOpen(s1.db, s2.db, s3.db);
    Repairs(s3, cfg);
    var last := [BeginRead(0, "o", 0), BeginSave(0), CompleteOrder("o", 0)];
    var steps := [register] + first + second + last;
    RunInTwo(START, cfg, [register] + first + second, last);
    RunInTwo(START, cfg, [register] + first, second);
    RunInTwo(START, cfg, [register], first);
    OneStep(START, cfg, register);
    assert Reached(Run(START, cfg, steps), cfg);
  }

  lemma FreshFirst(t: Tables)
    requires t == EMPTY.(vehicles := t.vehicles)
    ensures Fresh(t, "i", Tags(1), "o", "j")
  {
    TagsAreDistinct(1);
  }

  lemma FreshAgain(a: Tables, b: Tables)
    requires a == EMPTY.(vehicles := a.vehicles) && OneMoreRepair(a, b, "v", "i", Tags(1), "o", "j")
    ensures Fresh(b, "ii", Tags(6), "oo", "jj")
    ensures "v" in b.vehicles && b.vehicles["v"].status == V.Maintenance
  {
    TagsAreDistinct(1);
    TagsAreDistinct(6);
    hide Tags, Used;
    assert |"i"| == |"o"| == |"j"| == 1 && |"ii"| == |"oo"| == |"jj"| == 2;
    OtherIds(a, b, "v", "i", Tags(1), "o", "j", "ii", Tags(6), "oo", "jj");
  }

  lemma OtherIds(a: Tables, b: Tables, vehicleId: string, id: string, ids: seq<string>, orderId: string, jobId: string,
                 id': string, ids': seq<string>, orderId': string, jobId': string)
    requires a == EMPTY.(vehicles := a.vehicles) && OneMoreRepair(a, b, vehicleId, id, ids, orderId, jobId)
    requires |id'| > |id| && |orderId'| > |orderId| && |jobId'| > |jobId|
    requires |ids'| == |I.REQUIRED_ITEMS| && (forall i, j :: 0 <= i < j < |ids'| ==> ids'[i] != ids'[j])
    requires forall x :: x in Used(ids, |ids|) ==> |x| < 6
    requires forall x :: x in Used(ids', |ids'|) ==> 6 <= |x|
    ensures Fresh(b, id', ids', orderId', jobId')
  {
    NewTags(b.items.Keys, ids, ids');
    hide Used;
  }

  lemma NewTags(keys: set<string>, first: seq<string>, second: seq<string>)
    requires keys <= Used(first, |first|) && (forall x :: x in Used(first, |first|) ==> |x| < 6)
    requires forall x :: x in Used(second, |second|) ==> 6 <= |x|
    ensures forall i :: 0 <= i < |second| ==> second[i] !in keys
  {
    forall i | 0 <= i < |second| ensures second[i] !in keys {
      assert second[i] in Used(second, |second|);
    }
  }

  lemma BothOpen(a: Tables, b: Tables, c: Tables)
    requires OneMoreRepair(a, b, "v", "i", Tags(1), "o", "j") && OneMoreRepair(b, c, "v", "ii", Tags(6), "oo", "jj")
    ensures "v" in c.vehicles && c.vehicles["v"].status == V.Maintenance
    ensures "o" in c.orders && "oo" in c.orders && c.orders["o"].status == c.orders["oo"].status == O.Open
    ensures c.orders["o"].vehicleId == c.orders["oo"].vehicleId == "v"
  {
  }
}
