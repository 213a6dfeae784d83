/** The library sorts the measures rely on: a stable sort by an integer key, and the
    removal of adjacent repeats from a sorted list. */
module Sorting {

  /** Where a new element with this key goes: after every element whose key is not larger. */
  function Insert<T>(x: T, key: T -> int, sorted: seq<T>): seq<T> {
    if sorted == [] || key(sorted[|sorted| - 1]) <= key(x) then sorted + [x]
    else Insert(x, key, sorted[..|sorted| - 1]) + [sorted[|sorted| - 1]]
  }

  function SortStable<T>(xs: seq<T>, key: T -> int): seq<T> {
    if xs == [] then [] else Insert(xs[|xs| - 1], key, SortStable(xs[..|xs| - 1], key))
  }

  /** The order a stable sort must produce on positions: by key, then by original place. */
  ghost predicate Precedes<T>(xs: seq<T>, key: T -> int, i: nat, j: nat)
    requires i < |xs| && j < |xs|
  {
    key(xs[i]) < key(xs[j]) || (key(xs[i]) == key(xs[j]) && i < j)
  }

  /** idx lists the positions of xs, each exactly once, in the stable order, and out reads xs along it. */
  ghost predicate IsStableSort<T>(xs: seq<T>, key: T -> int, out: seq<T>, idx: seq<nat>) {
    && |out| == |idx| == |xs|
    && (forall k :: 0 <= k < |idx| ==> idx[k] < |xs| && out[k] == xs[idx[k]])
    && (forall i: nat :: i < |xs| ==> i in idx)
    && (forall a, b :: 0 <= a < b < |idx| ==> Precedes(xs, key, idx[a], idx[b]))
  }

  lemma {:induction false} InsertKeepsOrder<T>(xs: seq<T>, x: T, key: T -> int, sorted: seq<T>, idx: seq<nat>)
    returns (idx': seq<nat>)
    requires |sorted| == |idx|
    requires forall k :: 0 <= k < |idx| ==> idx[k] < |xs| && sorted[k] == xs[idx[k]]
    requires forall a, b :: 0 <= a < b < |idx| ==> Precedes(xs, key, idx[a], idx[b])
    ensures |Insert(x, key, sorted)| == |idx'| == |sorted| + 1
    ensures forall k :: 0 <= k < |idx'| ==> idx'[k] < |xs| + 1 && Insert(x, key, sorted)[k] == (xs + [x])[idx'[k]]
    ensures forall i: nat :: i in idx' <==> i in idx || i == |xs|
    ensures forall a, b :: 0 <= a < b < |idx'| ==> Precedes(xs + [x], key, idx'[a], idx'[b])
  {
    if sorted == [] || key(sorted[|sorted| - 1]) <= key(x) {
      idx' := idx + [|xs|];
    } else {
      var n := |sorted| - 1;
      var rest := InsertKeepsOrder(xs, x, key, sorted[..n], idx[..n]);
      idx' := rest + [idx[n]];
      assert idx == idx[..n] + [idx[n]];
      forall a, b | 0 <= a < b < |idx'| ensures Precedes(xs + [x], key, idx'[a], idx'[b]) {
        if b == n + 1 {
          assert idx'[a] in rest;
        }
      }
    }
  }

  lemma {:induction false} SortStableIsStable<T>(xs: seq<T>, key: T -> int) returns (idx: seq<nat>)
    ensures IsStableSort(xs, key, SortStable(xs, key), idx)
  {
    if xs == [] {
      idx := [];
    } else {
      var n := |xs| - 1;
      var rest := SortStableIsStable(xs[..n], key);
      idx := InsertKeepsOrder(xs[..n], xs[n], key, SortStable(xs[..n], key), rest);
      assert xs[..n] + [xs[n]] == xs;
    }
  }

  ghost predicate Ascending(xs: seq<int>) {
    forall a, b :: 0 <= a < b < |xs| ==> xs[a] < xs[b]
  }

  /** Sorted integers with each value kept once. */
  function SortedOnce(xs: seq<int>): (out: seq<int>)
  {
    Compact(SortStable(xs, (x: int) => x))
  }

  function Compact(xs: seq<int>): seq<int> {
    if |xs| < 2 then xs
    else if xs[|xs| - 2] == xs[|xs| - 1] then Compact(xs[..|xs| - 1])
    else Compact(xs[..|xs| - 1]) + [xs[|xs| - 1]]
  }

  lemma {:induction false} CompactKeeps(xs: seq<int>)
    requires forall a, b :: 0 <= a < b < |xs| ==> xs[a] <= xs[b]
    ensures Ascending(Compact(xs))
    ensures forall x :: x in Compact(xs) <==> x in xs
    ensures xs != [] ==> Compact(xs) != [] && Compact(xs)[|Compact(xs)| - 1] == xs[|xs| - 1]
  {
    if |xs| >= 2 {
      var n := |xs| - 1;
      CompactKeeps(xs[..n]);
      SameElements(xs, n);
      if xs[n - 1] != xs[n] {
        OneLarger(Compact(xs[..n]), xs[n]);
      }
    }
  }

  lemma SameElements(xs: seq<int>, n: nat)
    requires n + 1 == |xs|
    ensures forall x :: x in xs <==> x in xs[..n] || x == xs[n]
  {
    assert xs == xs[..n] + [xs[n]];
  }

  lemma OneLarger(xs: seq<int>, x: int)
    requires Ascending(xs) && (xs != [] ==> xs[|xs| - 1] < x)
    ensures Ascending(xs + [x])
  {
  }

  lemma SortedOnceIsTheSet(xs: seq<int>)
    ensures Ascending(SortedOnce(xs))
    ensures forall x :: x in SortedOnce(xs) <==> x in xs
  {
    var key := (x: int) => x;
    var idx := SortStableIsStable(xs, key);
    var out := SortStable(xs, key);
    forall x | x in xs ensures x in out {
      var i: nat :| i < |xs| && xs[i] == x;
      assert i in idx;
    }
    CompactKeeps(out);
  }
}
