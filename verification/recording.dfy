/** Recording an inspection item, as an update of the stored items. */
module Recording {
  import opened Basics
  import opened Schema
  import opened Changes
  import opened Invariant
  import opened Exact
  import Inspecting
  import I = Inspections

  /** The items with x in the place of what the inspection had for its code. */
  ghost function Replaced(items: map<string, I.Item>, x: I.Item): map<string, I.Item> {
    (map k | k in items && !(items[k].inspectionId == x.inspectionId && items[k].code == x.code) :: items[k])[x.id := x]
  }

  /** What recording takes: a draft, a required code, a known result, and an id that no item but the one
      replaced has. */
  ghost predicate MayRecord(t: Tables, id: string, input: Inspecting.ItemInput, itemId: string) {
    && id in t.heads && t.heads[id].status == I.Draft
    && I.Required(input.code) && !input.outcome.Unrecognised?
    && (itemId in t.items ==> t.items[itemId].inspectionId == id && t.items[itemId].code == input.code)
  }

  /** Uninterrupted, an item is recorded exactly under these conditions; it then replaces the stored item of
      its code, and of the header only the time stamp changes - not the version. */
  lemma RecordExactly(t: Tables, cfg: Config, id: string, loaded: seq<I.Item>, input: Inspecting.ItemInput,
                      itemId: string, now: Time)
    requires Inv(t, cfg) && IsItemList(t.items, id, loaded)
    ensures var r := Inspecting.RecordTx(t, id, loaded, input, itemId, now);
      && (r.Ok? <==> MayRecord(t, id, input, itemId))
      && (r.Ok? ==>
            var x := I.Item(itemId, id, input.code, input.outcome, input.notes);
            var head := t.heads[id].(updatedAt := now);
            r.value == (t.(heads := t.heads[id := head], items := Replaced(t.items, x)),
                        I.Inspection(head, I.Put(loaded, x))))
  {
    hide Inspecting.RecordTx, MayRecord, IsItemList, Replaced;
    if Inspecting.RecordTx(t, id, loaded, input, itemId, now).Ok? {
      RecordsEnds(t, cfg, id, loaded, input, itemId, now);
    }
    if MayRecord(t, id, input, itemId) {
      RecordGoesThrough(t, cfg, id, loaded, input, itemId, now);
    }
  }

  /** Put keeps the items of other codes. */
  lemma PutMembers(list: seq<I.Item>, x: I.Item, y: I.Item)
    requires I.Ordered(list)
    ensures y in I.Put(list, x) <==> y == x || (y in list && y.code != x.code)
  {
    I.PutKeepsOrder(list, x);
    I.MapOfMembers(list, y);
    I.MapOfMembers(I.Put(list, x), y);
  }

  /** Inserts that go through have ids that are new and distinct. */
  lemma {:induction false} InsertedIdsAreNew(t: Tables, list: seq<I.Item>, id: string)
    requires InsertItems(t, list, id).Ok?
    ensures forall i :: 0 <= i < |list| ==> list[i].id !in t.items
    ensures forall i, j :: 0 <= i < j < |list| ==> list[i].id != list[j].id
    decreases |list|
  {
    if list != [] {
      var t1 := InsertItem(t, list[0], id).value;
      InsertedIdsAreNew(t1, list[1..], id);
      forall i | 1 <= i < |list| ensures list[i].id !in t.items && list[i].id != list[0].id {
        assert list[1..][i - 1] == list[i];
      }
      forall i, j | 0 <= i < j < |list| ensures list[i].id != list[j].id {
        if i > 0 {
          assert list[1..][i - 1] == list[i] && list[1..][j - 1] == list[j];
        }
      }
    }
  }

  lemma DraftSaves(t: Tables, cfg: Config, id: string, now: Time)
    requires Inv(t, cfg) && id in t.heads && t.heads[id].status == I.Draft
    ensures SaveHead(t, t.heads[id].(updatedAt := now), t.heads[id].version)
            == Ok(t.(heads := t.heads[id := t.heads[id].(updatedAt := now)]))
    ensures t.heads[id].id == id && t.heads[id].version == 1
  {
    hide VehiclesOk, DriversOk, ShiftsOk, TripsOk, TripsUnique, Covered, OrdersOk, OdometerOk, JobsOk, KeysOk;
    hide BookingOk, CalendarOk;
  }

  lemma RecordsEnds(t: Tables, cfg: Config, id: string, loaded: seq<I.Item>, input: Inspecting.ItemInput,
                    itemId: string, now: Time)
    requires Inv(t, cfg) && IsItemList(t.items, id, loaded)
             && Inspecting.RecordTx(t, id, loaded, input, itemId, now).Ok?
    ensures MayRecord(t, id, input, itemId)
  {
    hide Inv, I.Put, I.Ordered, I.Required, InsertItems, SaveHead;
    var x := I.Item(itemId, id, input.code, input.outcome, input.notes);
    DraftSaves(t, cfg, id, now);
    var t1 := t.(heads := t.heads[id := t.heads[id].(updatedAt := now)]);
    var list := I.Put(loaded, x);
    assert InsertItems(DeleteItems(t1, id), list, id).Ok?;
    InsertedIdsAreNew(DeleteItems(t1, id), list, id);
    PutMembers(loaded, x, x);
    if itemId in t.items {
      var y := t.items[itemId];
      PutMembers(loaded, x, y);
      StoredIds(t, cfg);
      if y.inspectionId == id && y.code != input.code {
        assert y in loaded;
        var i :| 0 <= i < |list| && list[i] == x;
        var j :| 0 <= j < |list| && list[j] == y;
        assert false;
      }
    }
  }

  lemma StoredIds(t: Tables, cfg: Config)
    requires Inv(t, cfg)
    ensures forall k :: k in t.items ==> t.items[k].id == k
    ensures CodesUnique(t.items)
  {
  }

  lemma RecordGoesThrough(t: Tables, cfg: Config, id: string, loaded: seq<I.Item>, input: Inspecting.ItemInput,
                          itemId: string, now: Time)
    requires Inv(t, cfg) && IsItemList(t.items, id, loaded) && MayRecord(t, id, input, itemId)
    ensures var x := I.Item(itemId, id, input.code, input.outcome, input.notes);
      var head := t.heads[id].(updatedAt := now);
      Inspecting.RecordTx(t, id, loaded, input, itemId, now) ==
        Ok((t.(heads := t.heads[id := head], items := Replaced(t.items, x)), I.Inspection(head, I.Put(loaded, x))))
  {
    hide Inv, I.Put, I.Ordered, I.Required, InsertItems, SaveHead, Replaced, IsItemList;
    var x := I.Item(itemId, id, input.code, input.outcome, input.notes);
    DraftSaves(t, cfg, id, now);
    StoredIds(t, cfg);
    ListAfter(t, id, loaded, x);
    var t1 := t.(heads := t.heads[id := t.heads[id].(updatedAt := now)]);
    var list := I.Put(loaded, x);
    Refilled(t, t1, id, x, list);
  }

  lemma ListAfter(t: Tables, id: string, loaded: seq<I.Item>, x: I.Item)
    requires IsItemList(t.items, id, loaded) && x.inspectionId == id
    requires forall k :: k in t.items ==> t.items[k].id == k
    requires x.id in t.items ==> t.items[x.id].inspectionId == id && t.items[x.id].code == x.code
    ensures IsItemList(Replaced(t.items, x), id, I.Put(loaded, x))
  {
    hide I.Put, I.Ordered;
    I.PutKeepsOrder(loaded, x);
    forall y: I.Item
      ensures y in I.Put(loaded, x)
              <==> y.id in Replaced(t.items, x) && Replaced(t.items, x)[y.id] == y && y.inspectionId == id
    {
      PutMembers(loaded, x, y);
    }
  }

  lemma Refilled(t: Tables, t1: Tables, id: string, x: I.Item, list: seq<I.Item>)
    requires t1 == t.(heads := t1.heads) && id in t1.heads && x.inspectionId == id
    requires CodesUnique(t.items) && forall k :: k in t.items ==> t.items[k].id == k
    requires x.id in t.items ==> t.items[x.id].inspectionId == id && t.items[x.id].code == x.code
    requires IsItemList(Replaced(t.items, x), id, list)
    ensures InsertItems(DeleteItems(t1, id), list, id) == Ok(t1.(items := Replaced(t.items, x)))
  {
    var final, cleared := t1.(items := Replaced(t.items, x)), DeleteItems(t1, id);
    ReplacedIsFine(t.items, x);
    OthersAsBefore(t, t1, id, x);
    hide InsertItems, IsItemList, ReinsertedUpTo, Replaced, CodesUnique, DeleteItems;
    assert list[0..] == list;
    NoneReinserted(final.items, id, list, cleared.items);
    ReinsertedItems(final.items, id, list, 0, cleared);
  }

  lemma ReplacedIsFine(items: map<string, I.Item>, x: I.Item)
    requires CodesUnique(items) && forall k :: k in items ==> items[k].id == k
    requires x.id in items ==> items[x.id].inspectionId == x.inspectionId && items[x.id].code == x.code
    ensures CodesUnique(Replaced(items, x)) && forall k :: k in Replaced(items, x) ==> Replaced(items, x)[k].id == k
  {
  }

  /** Replacing an item of an inspection leaves the items of the others. */
  lemma OthersAsBefore(t: Tables, t1: Tables, id: string, x: I.Item)
    requires t1.items == t.items && x.inspectionId == id
    requires x.id in t.items ==> t.items[x.id].inspectionId == id
    ensures DeleteItems(t1, id).items ==
      map k | k in Replaced(t.items, x) && Replaced(t.items, x)[k].inspectionId != id :: Replaced(t.items, x)[k]
    ensures DeleteItems(t1, id) == t1.(items := DeleteItems(t1, id).items)
  {
  }
}
