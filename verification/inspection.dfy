/** The inspection and its checklist (internal/domain/inspection/inspection.go). */
module Inspections {
  import opened Basics
  import opened TextOrder
  import Sorting

  datatype Status = Draft | Submitted | Passed | Failed

  datatype Outcome = Pass | Fail | NotApplicable | Unrecognised(text: string)

  datatype Item = Item(id: string, inspectionId: string, code: string, outcome: Outcome, notes: string)

  /** The columns of the inspections table. */
  datatype Head = Head(
    id: string,
    vehicleId: string,
    inspector: string,
    status: Status,
    inspectedAt: Time,
    expiresAt: Time,
    score: int,
    version: int,
    updatedAt: Time)

  datatype Inspection = Inspection(head: Head, items: seq<Item>)

  const REQUIRED_ITEMS: seq<string> := ["brakes", "lights", "hydraulics", "tires", "safety_kit"]

  predicate Required(code: string) {
    code in REQUIRED_ITEMS
  }

  function New(id: string, vehicleId: string, inspector: string, inspectedAt: Time, expiresAt: Time,
               now: Time): Result<Inspection> {
    if id == "" || vehicleId == "" || inspector == "" || expiresAt < inspectedAt then Err(Validation)
    else Ok(Inspection(Head(id, vehicleId, inspector, Draft, inspectedAt, expiresAt, 0, 1, now), []))
  }

  // ---------------------------------------------------------------------------------------
  // The checklist as a sorted list and as a map
  // ---------------------------------------------------------------------------------------

  /** In order of code, each code at most once. */
  ghost predicate Ordered(items: seq<Item>) {
    forall i, j :: 0 <= i < j < |items| ==> Less(items[i].code, items[j].code)
  }

  ghost predicate AllRequired(items: seq<Item>) {
    forall i :: 0 <= i < |items| ==> Required(items[i].code)
  }

  /** What a list says about each code; the first entry of a code counts. */
  function AsMap(items: seq<Item>): map<string, Item> {
    if items == [] then map[] else AsMap(items[1..])[items[0].code := items[0]]
  }

  /** The item in its place: replacing the entry of its code, or inserted in order. */
  function Put(items: seq<Item>, item: Item): seq<Item> {
    if items == [] then [item]
    else if items[0].code == item.code then [item] + items[1..]
    else if Less(item.code, items[0].code) then [item] + items
    else [items[0]] + Put(items[1..], item)
  }

  predicate Recordable(i: Inspection, item: Item) {
    i.head.status == Draft && Required(item.code) && !item.outcome.Unrecognised?
  }

  function Recorded(i: Inspection, item: Item, now: Time): Result<Inspection> {
    if !Recordable(i, item) then Err(Conflict(InvalidState))
    else Ok(Inspection(i.head.(updatedAt := now), Put(i.items, item)))
  }

  predicate Good(item: Item) {
    item.outcome == Pass || item.outcome == NotApplicable
  }

  /** How many of some codes a list answers well. */
  function PassedAmong(items: seq<Item>, codes: seq<string>): nat {
    if codes == [] then 0
    else PassedAmong(items, codes[..|codes| - 1])
         + (var m := AsMap(items); if codes[|codes| - 1] in m && Good(m[codes[|codes| - 1]]) then 1 else 0)
  }

  predicate Submittable(i: Inspection) {
    && i.head.status == Draft
    && |i.items| == |REQUIRED_ITEMS|
    && forall k :: 0 <= k < |REQUIRED_ITEMS| ==> REQUIRED_ITEMS[k] in AsMap(i.items)
  }

  function SubmittedHead(i: Inspection, now: Time): Head {
    var score := PassedAmong(i.items, REQUIRED_ITEMS) * 100 / |REQUIRED_ITEMS|;
    i.head.(score := score, status := if score == 100 then Passed else Failed,
            version := i.head.version + 1, updatedAt := now)
  }

  function SubmittedResult(i: Inspection, now: Time): Result<Inspection> {
    if !Submittable(i) then Err(Conflict(InvalidState))
    else Ok(Inspection(SubmittedHead(i, now), i.items))
  }

  // ---------------------------------------------------------------------------------------
  // Record and Submit, step by step
  // ---------------------------------------------------------------------------------------

  predicate CodeBefore(a: Item, b: Item) {
    Less(a.code, b.code)
  }

  method Record(i: Inspection, item: Item, now: Time) returns (r: Result<Inspection>)
    requires Ordered(i.items)
    ensures r == Recorded(i, item, now)
    ensures r.Ok? ==> Ordered(r.value.items)
  {
    var known := false;
    for k := 0 to |REQUIRED_ITEMS|
      invariant known <==> item.code in REQUIRED_ITEMS[..k]
    {
      if REQUIRED_ITEMS[k] == item.code {
        known := true;
      }
    }
    if i.head.status != Draft || !known
       || (item.outcome != Pass && item.outcome != Fail && item.outcome != NotApplicable) {
      return Err(Conflict(InvalidState));
    }
    var copyItems := i.items;
    var found := false;
    var index := 0;
    while index < |copyItems| && !found
      invariant 0 <= index <= |copyItems| == |i.items|
      invariant !found ==> copyItems == i.items
      invariant !found ==> forall k :: 0 <= k < index ==> i.items[k].code != item.code
      invariant found ==> index < |i.items| && i.items[index].code == item.code && copyItems == i.items[index := item]
      decreases |copyItems| - index, !found
    {
      if copyItems[index].code == item.code {
        copyItems := copyItems[index := item];
        found := true;
      } else {
        index := index + 1;
      }
    }
    if !found {
      copyItems := copyItems + [item];
    }
    var placed := copyItems;
    CodesAreStrictlyOrdered();
    copyItems := Sorting.Sort(copyItems, CodeBefore);
    PutKeepsOrder(i.items, item);
    SortedIsPut(i.items, item, if found then index else |i.items|, placed, copyItems);
    r := Ok(Inspection(i.head.(updatedAt := now), copyItems));
  }

  method Submit(i: Inspection, now: Time) returns (r: Result<Inspection>)
    ensures r == SubmittedResult(i, now)
  {
    if i.head.status != Draft || |i.items| != |REQUIRED_ITEMS| {
      return Err(Conflict(InvalidState));
    }
    var passed := 0;
    for k := 0 to |REQUIRED_ITEMS|
      invariant passed == PassedAmong(i.items, REQUIRED_ITEMS[..k])
      invariant forall j :: 0 <= j < k ==> REQUIRED_ITEMS[j] in AsMap(i.items)
    {
      var code := REQUIRED_ITEMS[k];
      var item := Lookup(i.items, code);
      assert REQUIRED_ITEMS[..k + 1][..k] == REQUIRED_ITEMS[..k];
      if item == None {
        return Err(Conflict(InvalidState));
      }
      if item.value.outcome == Pass || item.value.outcome == NotApplicable {
        passed := passed + 1;
      }
    }
    assert REQUIRED_ITEMS[..|REQUIRED_ITEMS|] == REQUIRED_ITEMS;
    var head := i.head.(status := Submitted, score := passed * 100 / |REQUIRED_ITEMS|);
    if head.score == 100 {
      head := head.(status := Passed);
    } else {
      head := head.(status := Failed);
    }
    r := Ok(Inspection(head.(version := head.version + 1, updatedAt := now), i.items));
  }

  /** The first entry of a code. */
  method Lookup(items: seq<Item>, code: string) returns (r: Option<Item>)
    ensures r == if code in AsMap(items) then Some(AsMap(items)[code]) else None
  {
    for k := 0 to |items|
      invariant code in AsMap(items[k..]) <==> code in AsMap(items)
      invariant code in AsMap(items) ==> AsMap(items[k..])[code] == AsMap(items)[code]
    {
      assert items[k..][1..] == items[k + 1..];
      if items[k].code == code {
        return Some(items[k]);
      }
    }
    assert items[|items|..] == [];
    r := None;
  }

  // ---------------------------------------------------------------------------------------
  // A sorted checklist is exactly its map
  // ---------------------------------------------------------------------------------------

  lemma CodesAreStrictlyOrdered()
    ensures Sorting.StrictOrder(CodeBefore)
  {
    forall a: Item, b: Item | CodeBefore(a, b) ensures !CodeBefore(b, a) {
      Asymmetric(a.code, b.code);
    }
    forall a: Item, b: Item, c: Item | CodeBefore(a, b) && CodeBefore(b, c) ensures CodeBefore(a, c) {
      Transitive(a.code, b.code, c.code);
    }
    forall a: Item, b: Item, c: Item | !CodeBefore(a, b) && !CodeBefore(b, c) ensures !CodeBefore(a, c) {
      NegativelyTransitive(a.code, b.code, c.code);
    }
  }

  lemma {:induction false} MapOfOrdered(items: seq<Item>)
    requires Ordered(items)
    ensures forall k :: 0 <= k < |items| ==> items[k].code in AsMap(items) && AsMap(items)[items[k].code] == items[k]
    ensures forall c :: c in AsMap(items) ==> exists k :: 0 <= k < |items| && items[k].code == c
    ensures |AsMap(items)| == |items|
    decreases |items|
  {
    if items != [] {
      var rest := items[1..];
      MapOfOrdered(rest);
      assert items[0].code !in AsMap(rest) by {
        if items[0].code in AsMap(rest) {
          var k :| 0 <= k < |rest| && rest[k].code == items[0].code;
          assert rest[k] == items[k + 1];
          assert Less(items[0].code, items[k + 1].code);
          Asymmetric(items[0].code, items[k + 1].code);
        }
      }
      forall k | 0 <= k < |items|
        ensures items[k].code in AsMap(items) && AsMap(items)[items[k].code] == items[k]
      {
        if k > 0 {
          assert items[k] == rest[k - 1];
        }
      }
      forall c | c in AsMap(items) ensures exists k :: 0 <= k < |items| && items[k].code == c {
        if c != items[0].code {
          var k :| 0 <= k < |rest| && rest[k].code == c;
          assert items[k + 1].code == c;
        }
      }
    }
  }

  /** Recording is a map update that keeps the list in order. */
  lemma PutKeepsOrder(items: seq<Item>, item: Item)
    requires Ordered(items)
    ensures Ordered(Put(items, item))
    ensures AsMap(Put(items, item)) == AsMap(items)[item.code := item]
    ensures forall k :: 0 <= k < |Put(items, item)| ==> Put(items, item)[k] == item || Put(items, item)[k] in items
  {
    PutMembers(items, item);
    PutOrdered(items, item);
    PutUpdates(items, item);
  }

  lemma {:induction false} PutMembers(items: seq<Item>, item: Item)
    ensures forall k :: 0 <= k < |Put(items, item)| ==> Put(items, item)[k] == item || Put(items, item)[k] in items
    decreases |items|
  {
    hide Less;
    if items != [] {
      PutMembers(items[1..], item);
    }
  }

  lemma {:induction false} PutUpdates(items: seq<Item>, item: Item)
    ensures AsMap(Put(items, item)) == AsMap(items)[item.code := item]
    decreases |items|
  {
    hide Less;
    if items != [] {
      var r := Put(items, item);
      if items[0].code == item.code {
        assert r[1..] == items[1..];
      } else if Less(item.code, items[0].code) {
        assert r[1..] == items;
      } else {
        PutUpdates(items[1..], item);
        assert r[1..] == Put(items[1..], item);
      }
    }
  }

  lemma {:induction false} PutOrdered(items: seq<Item>, item: Item)
    requires Ordered(items)
    ensures Ordered(Put(items, item))
    decreases |items|
  {
    if items != [] && items[0].code != item.code {
      if Less(item.code, items[0].code) {
        FirstInOrder(item, items);
      } else {
        if !Less(items[0].code, item.code) {
          Total(items[0].code, item.code);
        }
        PutOrdered(items[1..], item);
        PutMembers(items[1..], item);
        BeforeAll(items, item);
        PrependedInOrder(items[0], Put(items[1..], item));
      }
    }
  }

  lemma BeforeAll(items: seq<Item>, item: Item)
    requires Ordered(items) && items != [] && Less(items[0].code, item.code)
    requires forall k :: 0 <= k < |Put(items[1..], item)|
               ==> Put(items[1..], item)[k] == item || Put(items[1..], item)[k] in items[1..]
    ensures forall j :: 0 <= j < |Put(items[1..], item)| ==> Less(items[0].code, Put(items[1..], item)[j].code)
  {
    hide Less, Put;
    var placed := Put(items[1..], item);
    forall j | 0 <= j < |placed| ensures Less(items[0].code, placed[j].code) {
      if placed[j] != item {
        var k :| 0 <= k < |items[1..]| && items[1..][k] == placed[j];
        assert items[k + 1] == placed[j];
      }
    }
  }

  lemma FirstInOrder(item: Item, items: seq<Item>)
    requires Ordered(items) && items != [] && Less(item.code, items[0].code)
    ensures Ordered([item] + items)
  {
    forall j | 0 <= j < |items| ensures Less(item.code, items[j].code) {
      if j > 0 {
        Transitive(item.code, items[0].code, items[j].code);
      }
    }
    hide Less;
    PrependedInOrder(item, items);
  }

  lemma PrependedInOrder(first: Item, items: seq<Item>)
    requires Ordered(items) && forall j :: 0 <= j < |items| ==> Less(first.code, items[j].code)
    ensures Ordered([first] + items)
  {
    hide Less;
  }

  /** Two ordered lists that say the same are the same. */
  lemma {:induction false} OrderedListIsItsMap(a: seq<Item>, b: seq<Item>)
    requires Ordered(a) && Ordered(b)
    requires AsMap(a) == AsMap(b)
    ensures a == b
    decreases |a|
  {
    MapOfOrdered(a);
    MapOfOrdered(b);
    if a != [] {
      assert b != [];
      FirstCodesAgree(a, b);
      HeadOnce(a);
      HeadOnce(b);
      OrderedListIsItsMap(a[1..], b[1..]);
      assert a == [a[0]] + a[1..] && b == [b[0]] + b[1..];
    }
  }

  lemma FirstCodesAgree(a: seq<Item>, b: seq<Item>)
    requires Ordered(a) && Ordered(b) && a != [] && b != []
    requires AsMap(a) == AsMap(b)
    ensures a[0] == b[0]
  {
    MapOfOrdered(a);
    MapOfOrdered(b);
    var i :| 0 <= i < |b| && b[i].code == a[0].code;
    var j :| 0 <= j < |a| && a[j].code == b[0].code;
    if i > 0 && j > 0 {
      Asymmetric(a[0].code, b[0].code);
    }
  }

  lemma HeadOnce(items: seq<Item>)
    requires Ordered(items) && items != []
    ensures Ordered(items[1..])
    ensures AsMap(items[1..]) == AsMap(items) - {items[0].code}
  {
    var rest := items[1..];
    MapOfOrdered(rest);
    if items[0].code in AsMap(rest) {
      var k :| 0 <= k < |rest| && rest[k].code == items[0].code;
      Asymmetric(items[0].code, items[k + 1].code);
    }
    DropAdded(AsMap(rest), items[0].code, items[0]);
  }

  lemma DropAdded(m: map<string, Item>, code: string, item: Item)
    requires code !in m
    ensures m[code := item] - {code} == m
  {
  }

  /** Every element of an ordered list is found in its map, and nothing else is. */
  lemma MapOfMembers(items: seq<Item>, x: Item)
    requires Ordered(items)
    ensures x in items <==> x.code in AsMap(items) && AsMap(items)[x.code] == x
  {
    MapOfOrdered(items);
    if x.code in AsMap(items) && AsMap(items)[x.code] == x {
      var k :| 0 <= k < |items| && items[k].code == x.code;
      assert items[k] == x;
    }
  }

  ghost predicate Placed(items: seq<Item>, item: Item, at: nat, placed: seq<Item>) {
    || (at < |items| && items[at].code == item.code && placed == items[at := item])
    || (at == |items| && placed == items + [item] && forall k :: 0 <= k < |items| ==> items[k].code != item.code)
  }

  /** Sorting the list with the item placed in it gives Put's answer. */
  lemma SortedIsPut(items: seq<Item>, item: Item, at: nat, placed: seq<Item>, sorted: seq<Item>)
    requires Ordered(items) && Placed(items, item, at, placed)
    requires multiset(sorted) == multiset(placed) && Sorting.Sorted(sorted, CodeBefore)
    ensures sorted == Put(items, item)
  {
    PutKeepsOrder(items, item);
    PutIsPermutation(items, item, at, placed);
    SortedPermutation(sorted, Put(items, item));
  }

  lemma PlacedFirst(items: seq<Item>, item: Item, at: nat, placed: seq<Item>)
    requires Ordered(items) && Placed(items, item, at, placed) && items != []
    ensures items[0].code == item.code ==> placed == [item] + items[1..]
    ensures Less(item.code, items[0].code) ==> placed == items + [item]
  {
    if 0 < at < |items| {
      Asymmetric(items[0].code, item.code);
    }
    if Less(item.code, items[0].code) {
      Asymmetric(item.code, items[0].code);
    }
    hide Less;
  }

  lemma PlacedInRest(items: seq<Item>, item: Item, at: nat, placed: seq<Item>)
    requires Placed(items, item, at, placed) && items != [] && items[0].code != item.code
    ensures at > 0 && placed == [items[0]] + placed[1..] && Placed(items[1..], item, at - 1, placed[1..])
  {
    assert items == [items[0]] + items[1..];
    assert at < |items| ==> items[1..][at - 1] == items[at];
  }

  lemma {:induction false} PutIsPermutation(items: seq<Item>, item: Item, at: nat, placed: seq<Item>)
    requires Ordered(items) && Placed(items, item, at, placed)
    ensures multiset(Put(items, item)) == multiset(placed)
    decreases |items|
  {
    if items != [] {
      PlacedFirst(items, item, at, placed);
      if items[0].code != item.code {
        PlacedInRest(items, item, at, placed);
        if !Less(item.code, items[0].code) {
          RestInOrder(items);
          PutIsPermutation(items[1..], item, at - 1, placed[1..]);
        }
      }
      hide Less, Placed, Ordered;
      PutAgrees(items, item, placed);
    }
  }

  lemma RestInOrder(items: seq<Item>)
    requires Ordered(items) && items != []
    ensures Ordered(items[1..])
  {
    hide Less;
  }

  lemma PutAgrees(items: seq<Item>, item: Item, placed: seq<Item>)
    requires items != []
    requires items[0].code == item.code ==> placed == [item] + items[1..]
    requires Less(item.code, items[0].code) ==> placed == items + [item]
    requires items[0].code != item.code && !Less(item.code, items[0].code) ==>
      placed != [] && placed == [items[0]] + placed[1..] && multiset(Put(items[1..], item)) == multiset(placed[1..])
    ensures multiset(Put(items, item)) == multiset(placed)
  {
    hide Less;
    if items[0].code != item.code && Less(item.code, items[0].code) {
      assert multiset(items + [item]) == multiset([item] + items);
    }
  }

  /** A strictly ordered list is the only sorted permutation of itself. */
  lemma {:induction false} SortedPermutation(sorted: seq<Item>, list: seq<Item>)
    requires Ordered(list) && Sorting.Sorted(sorted, CodeBefore)
    requires multiset(sorted) == multiset(list)
    ensures sorted == list
    decreases |list|
  {
    Sorting.SameSize(sorted, list);
    if list != [] {
      SmallestFirst(sorted, list);
      hide Less, CodeBefore;
      TailsAgree(sorted, list);
      SortedPermutation(sorted[1..], list[1..]);
      assert sorted == [sorted[0]] + sorted[1..] && list == [list[0]] + list[1..];
    }
  }

  lemma TailsAgree(a: seq<Item>, b: seq<Item>)
    requires a != [] && b != [] && a[0] == b[0] && multiset(a) == multiset(b)
    ensures multiset(a[1..]) == multiset(b[1..])
  {
    assert a == [a[0]] + a[1..] && b == [b[0]] + b[1..];
    assert multiset(a[1..]) == multiset(a) - multiset{a[0]};
    assert multiset(b[1..]) == multiset(b) - multiset{b[0]};
  }

  lemma SmallestFirst(sorted: seq<Item>, list: seq<Item>)
    requires Ordered(list) && Sorting.Sorted(sorted, CodeBefore) && sorted != [] && list != []
    requires multiset(sorted) == multiset(list)
    ensures sorted[0] == list[0]
  {
    Sorting.SameMembers(sorted, list, sorted[0]);
    Sorting.SameMembers(sorted, list, list[0]);
    var k :| 0 <= k < |list| && list[k] == sorted[0];
    var j :| 0 <= j < |sorted| && sorted[j] == list[0];
    if k > 0 && j > 0 {
      assert false;
    }
  }

  // ---------------------------------------------------------------------------------------
  // Histories of records
  // ---------------------------------------------------------------------------------------

  /** Recording one item after another on an empty checklist. */
  function RecordAll(history: seq<Item>): seq<Item> {
    if history == [] then [] else Put(RecordAll(history[..|history| - 1]), history[|history| - 1])
  }

  /** For each code, the last item recorded. */
  function LastWrites(history: seq<Item>): map<string, Item> {
    if history == [] then map[]
    else LastWrites(history[..|history| - 1])[history[|history| - 1].code := history[|history| - 1]]
  }

  /** After any history the checklist is in order, has each code once, and holds the last item
      recorded for each code. */
  lemma {:induction false} LastWriteWins(history: seq<Item>)
    ensures Ordered(RecordAll(history))
    ensures AsMap(RecordAll(history)) == LastWrites(history)
    decreases |history|
  {
    if history != [] {
      LastWriteWins(history[..|history| - 1]);
      PutKeepsOrder(RecordAll(history[..|history| - 1]), history[|history| - 1]);
    }
  }

  /** Histories that agree on the last item per code leave the very same checklist. */
  lemma OnlyLastWritesMatter(a: seq<Item>, b: seq<Item>)
    requires LastWrites(a) == LastWrites(b)
    ensures RecordAll(a) == RecordAll(b)
  {
    LastWriteWins(a);
    LastWriteWins(b);
    OrderedListIsItsMap(RecordAll(a), RecordAll(b));
  }

  // ---------------------------------------------------------------------------------------
  // Submission
  // ---------------------------------------------------------------------------------------

  ghost predicate EveryCodeRecorded(items: seq<Item>) {
    forall code :: code in REQUIRED_ITEMS ==> code in AsMap(items)
  }

  lemma RequiredAreFive(m: map<string, Item>)
    requires forall c :: c in m ==> c in REQUIRED_ITEMS
    requires forall c :: c in REQUIRED_ITEMS ==> c in m
    ensures |m| == 5
  {
    var five := {"brakes", "lights", "hydraulics", "tires", "safety_kit"};
    assert m.Keys == five;
    assert "brakes"[0] == 'b' && "lights"[0] == 'l' && "hydraulics"[0] == 'h' && "tires"[0] == 't'
           && "safety_kit"[0] == 's';
    assert |five| == 5;
  }

  /** A draft with an ordered checklist of required codes can be submitted exactly when every required
      code is recorded: the length test adds nothing. */
  lemma SubmittableExactly(i: Inspection)
    requires Ordered(i.items) && AllRequired(i.items)
    ensures Submittable(i) <==> i.head.status == Draft && EveryCodeRecorded(i.items)
  {
    MapOfOrdered(i.items);
    if EveryCodeRecorded(i.items) {
      forall c | c in AsMap(i.items) ensures c in REQUIRED_ITEMS {
        var k :| 0 <= k < |i.items| && i.items[k].code == c;
      }
      RequiredAreFive(AsMap(i.items));
      forall k | 0 <= k < |REQUIRED_ITEMS| ensures REQUIRED_ITEMS[k] in AsMap(i.items) {
        assert REQUIRED_ITEMS[k] in REQUIRED_ITEMS;
      }
    }
    if Submittable(i) {
      forall code | code in REQUIRED_ITEMS ensures code in AsMap(i.items) {
        var k :| 0 <= k < |REQUIRED_ITEMS| && REQUIRED_ITEMS[k] == code;
      }
    }
  }

  lemma {:induction false} PassedCounts(items: seq<Item>, codes: seq<string>)
    requires forall k :: 0 <= k < |codes| ==> codes[k] in AsMap(items)
    ensures PassedAmong(items, codes) <= |codes|
    ensures PassedAmong(items, codes) == |codes| <==> forall k :: 0 <= k < |codes| ==> Good(AsMap(items)[codes[k]])
    decreases |codes|
  {
    if codes != [] {
      PassedCounts(items, codes[..|codes| - 1]);
    }
  }

  ghost predicate NoneFailed(items: seq<Item>) {
    forall k :: 0 <= k < |items| ==> items[k].outcome != Fail
  }

  ghost predicate Recognised(items: seq<Item>) {
    forall k :: 0 <= k < |items| ==> !items[k].outcome.Unrecognised?
  }

  /** The codes that a list answers with anything but a failure. */
  ghost function GoodCodes(items: seq<Item>): set<string> {
    set x | x in items && x.outcome != Fail :: x.code
  }

  ghost function GoodAmong(m: map<string, Item>, codes: seq<string>): set<string> {
    set c | c in codes && c in m && Good(m[c])
  }

  lemma {:induction false} PassedIsACount(items: seq<Item>, codes: seq<string>)
    requires forall i, j :: 0 <= i < j < |codes| ==> codes[i] != codes[j]
    ensures PassedAmong(items, codes) == |GoodAmong(AsMap(items), codes)|
    decreases |codes|
  {
    hide AsMap, Good;
    if codes == [] {
      assert GoodAmong(AsMap(items), codes) == {};
    } else {
      var front, last := codes[..|codes| - 1], codes[|codes| - 1];
      PassedIsACount(items, front);
      assert codes == front + [last];
      assert last !in front;
      var before, after := GoodAmong(AsMap(items), front), GoodAmong(AsMap(items), codes);
      if last in AsMap(items) && Good(AsMap(items)[last]) {
        assert after == before + {last};
      } else {
        assert after == before;
      }
    }
  }

  lemma RequiredAreDistinct()
    ensures forall i, j :: 0 <= i < j < |REQUIRED_ITEMS| ==> REQUIRED_ITEMS[i] != REQUIRED_ITEMS[j]
  {
    assert "brakes"[0] == 'b' && "lights"[0] == 'l' && "hydraulics"[0] == 'h' && "tires"[0] == 't'
           && "safety_kit"[0] == 's';
  }

  lemma PassedIsGoodCodes(items: seq<Item>)
    requires Ordered(items) && AllRequired(items) && Recognised(items)
    ensures PassedAmong(items, REQUIRED_ITEMS) == |GoodCodes(items)|
  {
    RequiredAreDistinct();
    PassedIsACount(items, REQUIRED_ITEMS);
    GoodCodesAreGood(items, REQUIRED_ITEMS);
    hide AsMap, Ordered, PassedAmong, GoodAmong, GoodCodes;
  }

  lemma GoodCodesAreGood(items: seq<Item>, codes: seq<string>)
    requires Ordered(items) && Recognised(items)
    requires forall k :: 0 <= k < |items| ==> items[k].code in codes
    ensures GoodAmong(AsMap(items), codes) == GoodCodes(items)
  {
    MapOfOrdered(items);
    hide AsMap, Ordered;
    forall c | c in GoodAmong(AsMap(items), codes) ensures c in GoodCodes(items) {
      var k :| 0 <= k < |items| && items[k].code == c;
      assert items[k] in items;
    }
    forall c | c in GoodCodes(items) ensures c in GoodAmong(AsMap(items), codes) {
      GoodCodeIsGood(items, codes, c);
    }
    hide GoodAmong, GoodCodes, Recognised;
  }

  lemma GoodCodeIsGood(items: seq<Item>, codes: seq<string>, c: string)
    requires Ordered(items) && Recognised(items) && c in GoodCodes(items)
    requires forall k :: 0 <= k < |items| ==> items[k].code in codes
    ensures c in GoodAmong(AsMap(items), codes)
  {
    MapOfOrdered(items);
    hide AsMap, Ordered;
    var x :| x in items && x.outcome != Fail && x.code == c;
    var k :| 0 <= k < |items| && items[k] == x;
  }

  lemma SubmissionScore(i: Inspection, now: Time)
    requires Ordered(i.items) && AllRequired(i.items) && Recognised(i.items) && Submittable(i)
    ensures SubmittedHead(i, now).score == 20 * |GoodCodes(i.items)| <= 100
    ensures SubmittedHead(i, now).status == if NoneFailed(i.items) then Passed else Failed
  {
    PassedIsGoodCodes(i.items);
    PassedCounts(i.items, REQUIRED_ITEMS);
    GoodMeansNoneFailed(i.items, REQUIRED_ITEMS);
    hide AsMap, Ordered, GoodCodes, PassedAmong, NoneFailed, Good;
  }

  lemma SubmissionKeeps(i: Inspection, now: Time)
    ensures SubmittedHead(i, now) ==
      i.head.(score := SubmittedHead(i, now).score, status := SubmittedHead(i, now).status,
              version := i.head.version + 1, updatedAt := now)
  {
  }

  /** A submission gives twenty points per code not answered by a failure, passes exactly when no recorded item
      failed, raises the version and stamps the time; nothing else of the header changes. */
  lemma SubmissionVerdict(i: Inspection, now: Time)
    requires Ordered(i.items) && AllRequired(i.items) && Recognised(i.items) && Submittable(i)
    ensures 20 * |GoodCodes(i.items)| <= 100
    ensures SubmittedHead(i, now) ==
      i.head.(score := 20 * |GoodCodes(i.items)|, status := if NoneFailed(i.items) then Passed else Failed,
              version := i.head.version + 1, updatedAt := now)
  {
    SubmissionScore(i, now);
    SubmissionKeeps(i, now);
    hide SubmittedHead, GoodCodes, NoneFailed, Submittable, Ordered;
  }

  lemma GoodMeansNoneFailed(items: seq<Item>, codes: seq<string>)
    requires Ordered(items) && Recognised(items)
    requires forall j :: 0 <= j < |items| ==> items[j].code in codes
    requires forall k :: 0 <= k < |codes| ==> codes[k] in AsMap(items)
    ensures (forall k :: 0 <= k < |codes| ==> Good(AsMap(items)[codes[k]])) <==> NoneFailed(items)
  {
    if NoneFailed(items) {
      NoFailureIsGood(items, codes);
    }
    if forall k :: 0 <= k < |codes| ==> Good(AsMap(items)[codes[k]]) {
      GoodIsNoFailure(items, codes);
    }
  }

  lemma NoFailureIsGood(items: seq<Item>, codes: seq<string>)
    requires Ordered(items) && Recognised(items) && NoneFailed(items)
    requires forall k :: 0 <= k < |codes| ==> codes[k] in AsMap(items)
    ensures forall k :: 0 <= k < |codes| ==> Good(AsMap(items)[codes[k]])
  {
    MapOfOrdered(items);
    hide AsMap, Ordered;
    forall k | 0 <= k < |codes| ensures Good(AsMap(items)[codes[k]]) {
      var j :| 0 <= j < |items| && items[j].code == codes[k];
    }
  }

  lemma GoodIsNoFailure(items: seq<Item>, codes: seq<string>)
    requires Ordered(items) && forall j :: 0 <= j < |items| ==> items[j].code in codes
    requires forall k :: 0 <= k < |codes| ==> codes[k] in AsMap(items) && Good(AsMap(items)[codes[k]])
    ensures NoneFailed(items)
  {
    MapOfOrdered(items);
    hide AsMap, Ordered;
    forall j | 0 <= j < |items| ensures items[j].outcome != Fail {
      var k :| 0 <= k < |codes| && codes[k] == items[j].code;
      assert Good(AsMap(items)[codes[k]]);
    }
  }
}
