/** The contract of sort.Slice, which the program calls with strict orders: a permutation in which no
    element precedes a smaller one. Where the order ties, nothing more is said. */
module Sorting {

  ghost predicate StrictOrder<T(!new)>(less: (T, T) -> bool) {
    && (forall a, b :: less(a, b) ==> !less(b, a))
    && (forall a, b, c :: less(a, b) && less(b, c) ==> less(a, c))
    && (forall a, b, c :: !less(a, b) && !less(b, c) ==> !less(a, c))
  }

  ghost predicate Sorted<T>(items: seq<T>, less: (T, T) -> bool) {
    forall i, j :: 0 <= i < j < |items| ==> !less(items[j], items[i])
  }

  method Insert<T(!new)>(items: seq<T>, item: T, less: (T, T) -> bool) returns (r: seq<T>)
    requires StrictOrder(less) && Sorted(items, less)
    ensures Sorted(r, less)
    ensures multiset(r) == multiset(items) + multiset{item}
  {
    var at := |items|;
    while at > 0 && less(item, items[at - 1])
      invariant 0 <= at <= |items|
      invariant forall k :: at <= k < |items| ==> less(item, items[k])
    {
      at := at - 1;
    }
    r := items[..at] + [item] + items[at..];
    assert items == items[..at] + items[at..];
    InsertedInOrder(items, at, item, less);
  }

  lemma InsertedInOrder<T(!new)>(items: seq<T>, at: nat, item: T, less: (T, T) -> bool)
    requires StrictOrder(less) && Sorted(items, less) && at <= |items|
    requires forall k :: at <= k < |items| ==> less(item, items[k])
    requires at > 0 ==> !less(item, items[at - 1])
    ensures Sorted(items[..at] + [item] + items[at..], less)
  {
    var r := items[..at] + [item] + items[at..];
    forall i, j | 0 <= i < j < |r| ensures !less(r[j], r[i]) {
      if j < at {
        assert r[i] == items[i] && r[j] == items[j];
      } else if j == at {
        assert r[i] == items[i] && r[j] == item;
        if i < at - 1 {
          assert !less(items[at - 1], items[i]);
        }
      } else if i == at {
        assert r[i] == item && r[j] == items[j - 1];
        assert less(item, items[j - 1]);
      } else {
        var p := if i < at then i else i - 1;
        assert r[i] == items[p] && r[j] == items[j - 1] && p < j - 1;
      }
    }
  }

  method Sort<T(!new)>(items: seq<T>, less: (T, T) -> bool) returns (r: seq<T>)
    requires StrictOrder(less)
    ensures Sorted(r, less)
    ensures multiset(r) == multiset(items)
    ensures |r| == |items|
  {
    r := [];
    for i := 0 to |items|
      invariant Sorted(r, less)
      invariant multiset(r) == multiset(items[..i])
    {
      assert items[..i + 1] == items[..i] + [items[i]];
      r := Insert(r, items[i], less);
    }
    assert items[..|items|] == items;
    SameSize(r, items);
  }

  lemma SameSize<T>(a: seq<T>, b: seq<T>)
    requires multiset(a) == multiset(b)
    ensures |a| == |b|
  {
    assert |multiset(a)| == |multiset(b)|;
  }

  lemma SameMembers<T>(a: seq<T>, b: seq<T>, x: T)
    requires multiset(a) == multiset(b)
    ensures x in a <==> x in b
  {
    assert x in multiset(a) <==> x in multiset(b);
  }

  /** Of two permutations of each other, the last element of one can be taken out of both. */
  lemma LastOfBoth<T>(a: seq<T>, b: seq<T>) returns (i: nat)
    requires multiset(a) == multiset(b) && a != []
    ensures i < |b| && b[i] == a[|a| - 1]
    ensures b == b[..i] + [b[i]] + b[i + 1..] && a == a[..|a| - 1] + [b[i]]
    ensures multiset(a[..|a| - 1]) == multiset(b[..i] + b[i + 1..])
  {
    var x := a[|a| - 1];
    assert a == a[..|a| - 1] + [x];
    assert x in multiset(a);
    assert x in multiset(b);
    i :| 0 <= i < |b| && b[i] == x;
    assert b == b[..i] + [x] + b[i + 1..];
    assert multiset(a[..|a| - 1]) == multiset(a) - multiset{x};
    assert multiset(b[..i] + b[i + 1..]) == multiset(b) - multiset{x};
  }

  lemma TwiceCounts<T>(rows: seq<T>, i: nat, j: nat)
    requires i < j < |rows| && rows[i] == rows[j]
    ensures multiset(rows)[rows[i]] >= 2
  {
    assert rows == rows[..j] + [rows[j]] + rows[j + 1..];
    assert rows[i] in rows[..j];
  }
}
