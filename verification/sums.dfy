/** Sums over sequences and over finite maps, independent of the order of summation. */
module Sums {

  function SumSeq(s: seq<int>): int {
    if s == [] then 0 else s[0] + SumSeq(s[1..])
  }

  lemma {:induction false} SumSeqSplit(a: seq<int>, b: seq<int>)
    ensures SumSeq(a + b) == SumSeq(a) + SumSeq(b)
    decreases |a|
  {
    if a == [] {
      assert a + b == b;
    } else {
      assert (a + b)[1..] == a[1..] + b;
      SumSeqSplit(a[1..], b);
    }
  }

  /** The sum of a map's values. */
  ghost function Sum<K>(m: map<K, int>): int
    decreases |m|
  {
    if m == map[] then 0
    else
      var k :| k in m;
      m[k] + Sum(m - {k})
  }

  /** Any entry can be split off first. */
  lemma {:induction false} SumWithout<K>(m: map<K, int>, k: K)
    requires k in m
    ensures Sum(m) == m[k] + Sum(m - {k})
    decreases |m|
  {
    var first :| first in m && Sum(m) == m[first] + Sum(m - {first});
    if first != k {
      SumWithout(m - {first}, k);
      SumWithout(m - {k}, first);
      assert m - {first} - {k} == m - {k} - {first};
    }
  }

  lemma SumPlus<K>(m: map<K, int>, k: K, x: int)
    ensures k !in m ==> Sum(m[k := x]) == Sum(m) + x
    ensures k in m ==> Sum(m[k := x]) == Sum(m) - m[k] + x
  {
    SumWithout(m[k := x], k);
    if k in m {
      SumWithout(m, k);
      assert m[k := x] - {k} == m - {k};
    } else {
      assert m[k := x] - {k} == m;
    }
  }

  /** A map of non-negative values sums to no less than any of its restrictions. */
  lemma {:induction false} SumOfPart<K>(part: map<K, int>, whole: map<K, int>)
    requires forall k :: k in part ==> k in whole && whole[k] == part[k]
    requires forall k :: k in whole ==> whole[k] >= 0
    ensures 0 <= Sum(part) <= Sum(whole)
    decreases |whole|
  {
    if whole == map[] {
      assert part == map[];
    } else {
      var k :| k in whole;
      SumWithout(whole, k);
      if k in part {
        SumWithout(part, k);
        SumOfPart(part - {k}, whole - {k});
      } else {
        SumOfPart(part, whole - {k});
      }
    }
  }
}
