/** Creating, recording and submitting inspections (internal/service/inspection/service.go). */
module Inspecting {
  import opened Basics
  import opened Schema
  import opened Storage
  import opened Dispatch
  import V = Vehicles
  import O = Orders
  import I = Inspections

  function Validity(configured: int): int {
    if configured <= 0 then 30 * DAY else configured
  }

  function CreateTx(t: Tables, vehicleId: string, inspector: string, inspectedAt: Time, id: string, validity: int,
                    now: Time):
    Result<(Tables, I.Inspection)>
  {
    var vehicle :- Get(t.vehicles, vehicleId);
    var _ :- Need(vehicle.status != V.OnDuty && vehicle.status != V.Retired, Conflict(Unavailable));
    var inspected := if inspectedAt == ZERO_TIME then now else inspectedAt;
    var inspection :- I.New(id, vehicle.id, inspector, inspected, inspected + Validity(validity), now);
    var t1 :- SaveInspection(t, inspection, 0);
    Ok((t1, inspection))
  }

  method Create(store: Store, vehicleId: string, inspector: string, inspectedAt: Time, id: string, validity: int,
                now: Time)
    returns (r: Result<I.Inspection>)
    modifies store
    ensures Settled(CreateTx(old(store.View()), vehicleId, inspector, inspectedAt, id, validity, now),
                    old(store.View()), store.View(), r)
  {
    store.Begin();
    if vehicleId !in store.vehicles {
      return Err(NotFound);
    }
    var vehicle := store.vehicles[vehicleId];
    if vehicle.status == V.OnDuty || vehicle.status == V.Retired {
      return Err(Conflict(Unavailable));
    }
    var inspected := inspectedAt;
    if inspected == ZERO_TIME {
      inspected := now;
    }
    r := I.New(id, vehicle.id, inspector, inspected, inspected + Validity(validity), now);
    if r.Err? {
      return;
    }
    var saved := store.SaveInspection(r.value, 0);
    if saved.Err? {
      store.Rollback();
      return Err(saved.error);
    }
  }

  datatype ItemInput = ItemInput(code: string, outcome: I.Outcome, notes: string)

  datatype Rewrite = Rewrite(read: I.Inspection, write: I.Inspection)

  /** What Record makes of a header and the items loaded for it. */
  function Entered(head: I.Head, loaded: seq<I.Item>, input: ItemInput, itemId: string, now: Time): Result<Rewrite> {
    var current := I.Inspection(head, loaded);
    var updated :- I.Recorded(current, I.Item(itemId, head.id, input.code, input.outcome, input.notes), now);
    Ok(Rewrite(current, updated))
  }

  /** First part of Record, outside any transaction: read the inspection and put the item in. */
  function PlanRecord(t: Tables, id: string, loaded: seq<I.Item>, input: ItemInput, itemId: string,
                      now: Time): Result<Rewrite> {
    var head :- Get(t.heads, id);
    Entered(head, loaded, input, itemId, now)
  }

  /** Record with nothing in between its statements. */
  function RecordTx(t: Tables, id: string, loaded: seq<I.Item>, input: ItemInput, itemId: string,
                    now: Time): Result<(Tables, I.Inspection)> {
    var p :- PlanRecord(t, id, loaded, input, itemId, now);
    var t1 :- SaveInspection(t, p.write, p.read.head.version);
    Ok((t1, p.write))
  }

  /** Record saves outside a transaction, so a failing save leaves its earlier statements done. */
  function RecordedInPart(t: Tables, id: string, loaded: seq<I.Item>, input: ItemInput, itemId: string,
                          now: Time): (done: Tables)
    ensures RecordTx(t, id, loaded, input, itemId, now).Ok?
            ==> done == RecordTx(t, id, loaded, input, itemId, now).value.0
  {
    match PlanRecord(t, id, loaded, input, itemId, now)
    case Ok(p) => SavedInPart(t, p.write, p.read.head.version)
    case Err(_) => t
  }

  /** The result, and the store, whether or not the save goes through. */
  method Record(store: Store, id: string, input: ItemInput, itemId: string, now: Time)
    returns (r: Result<I.Inspection>, ghost loaded: seq<I.Item>)
    requires Keyed(store.View())
    modifies store
    ensures IsItemList(old(store.items), id, loaded)
    ensures match RecordTx(old(store.View()), id, loaded, input, itemId, now)
            case Ok(done) => r == Ok(done.1)
            case Err(e) => r == Err(e)
    ensures store.View() == RecordedInPart(old(store.View()), id, loaded, input, itemId, now)
  {
    hide Schema.SaveInspection, Schema.SavedInPart;
    var list := store.LoadItems(id);
    loaded := list;
    if id !in store.heads {
      return Err(NotFound), loaded;
    }
    var head := store.heads[id];
    r := I.Record(I.Inspection(head, list), I.Item(itemId, head.id, input.code, input.outcome, input.notes), now);
    if r.Err? {
      return;
    }
    var saved := store.SaveInspection(r.value, head.version);
    if saved.Err? {
      return Err(saved.error), loaded;
    }
  }

  const REPAIR_DUE: int := 7 * 24 * HOUR

  /** The repair that a failed inspection opens. */
  function RepairTx(t: Tables, vehicleId: string, orderId: string, now: Time): Result<Tables> {
    var vehicle :- Get(t.vehicles, vehicleId);
    var marked :- vehicle.MarkMaintenance(now);
    var t1 :- SaveVehicle(t, marked, vehicle.version);
    var order :- O.New(orderId, marked.id, "inspection_failure", now, now + REPAIR_DUE, now);
    SaveMaintenance(t1, order, 0)
  }

  datatype SubmitIds = SubmitIds(order: string, job: string)

  function SubmitTx(t: Tables, id: string, loaded: seq<I.Item>, ids: SubmitIds,
                    now: Time): Result<(Tables, I.Inspection)> {
    var head :- Get(t.heads, id);
    var result :- I.SubmittedResult(I.Inspection(head, loaded), now);
    var t1 :- SaveInspection(t, result, head.version);
    var t2 :- if result.head.status == I.Failed then RepairTx(t1, result.head.vehicleId, ids.order, now) else Ok(t1);
    var t3 :- Enqueue(t2, ids.job, InspectionSubmitted(result), now);
    Ok((t3, result))
  }

  method Submit(store: Store, id: string, ids: SubmitIds, now: Time)
    returns (r: Result<I.Inspection>, ghost loaded: seq<I.Item>)
    requires Keyed(store.View())
    modifies store
    ensures IsItemList(old(store.items), id, loaded)
    ensures Settled(SubmitTx(old(store.View()), id, loaded, ids, now), old(store.View()), store.View(), r)
  {
    store.Begin();
    r, loaded := SubmitBody(store, id, ids, now);
    if r.Err? {
      store.Rollback();
    }
  }

  method SubmitBody(store: Store, id: string, ids: SubmitIds, now: Time)
    returns (r: Result<I.Inspection>, ghost loaded: seq<I.Item>)
    requires Keyed(store.View())
    modifies store
    ensures store.begun == old(store.begun)
    ensures IsItemList(old(store.items), id, loaded)
    ensures match SubmitTx(old(store.View()), id, loaded, ids, now)
            case Ok(done) => r == Ok(done.1) && store.View() == done.0
            case Err(e) => r == Err(e)
  {
    hide Schema.SaveInspection, I.SubmittedResult, RepairTx, Schema.Enqueue;
    var list := store.LoadItems(id);
    loaded := list;
    if id !in store.heads {
      return Err(NotFound), loaded;
    }
    var head := store.heads[id];
    var result := I.Submit(I.Inspection(head, list), now);
    if result.Err? {
      return result, loaded;
    }
    var saved := store.SaveInspection(result.value, head.version);
    if saved.Err? {
      return Err(saved.error), loaded;
    }
    if result.value.head.status == I.Failed {
      saved := OpenRepair(store, result.value.head.vehicleId, ids.order, now);
      if saved.Err? {
        return Err(saved.error), loaded;
      }
    }
    saved := store.Enqueue(ids.job, InspectionSubmitted(result.value), now);
    if saved.Err? {
      return Err(saved.error), loaded;
    }
    r := result;
  }

  method OpenRepair(store: Store, vehicleId: string, orderId: string, now: Time) returns (r: Check)
    modifies store
    ensures store.begun == old(store.begun)
    ensures match RepairTx(old(store.View()), vehicleId, orderId, now)
            case Ok(t) => r == PASS && store.View() == t
            case Err(e) => r == Err(e)
  {
    if vehicleId !in store.vehicles {
      return Err(NotFound);
    }
    var vehicle := store.vehicles[vehicleId];
    var marked := vehicle.MarkMaintenance(now);
    if marked.Err? {
      return Err(marked.error);
    }
    r := store.SaveVehicle(marked.value, vehicle.version);
    if r.Err? {
      return;
    }
    var order := O.New(orderId, marked.value.id, "inspection_failure", now, now + REPAIR_DUE, now);
    if order.Err? {
      return Err(order.error);
    }
    r := store.SaveMaintenance(order.value, 0);
  }
}
