/** excursor/algos.py: recursion exercises (`count`, `max`) and a quicksort
    whose `partition` pops elements out of the list it is given. The random
    pivot is an input: a function choosing an index of the list. */
module Algos {
  import opened Wrappers
  import opened Seqs

  /** `count(arr, tot)`: one more for each element, added to `tot`. */
  function Count<T>(arr: seq<T>, tot: int): (r: int)
    ensures r == tot + |arr|
    decreases |arr|
  {
    if |arr| == 0 then tot else Count(arr[1..], tot + 1)
  }

  /** `max(arr, m)`: `m` for an empty list; otherwise the greatest of the
      elements and `m` when `m` is set, and always one of them. */
  function Max(arr: seq<int>, m: Option<int>): (r: Option<int>)
    ensures |arr| == 0 ==> r == m
    ensures r.None? <==> |arr| == 0 && m.None?
    ensures r.Some? ==> r.value in arr || m == Some(r.value)
    ensures r.Some? ==> forall i :: 0 <= i < |arr| ==> arr[i] <= r.value
    ensures r.Some? && m.Some? ==> m.value <= r.value
    decreases |arr|
  {
    if |arr| == 0 then m
    else
      var head := arr[0];
      var next := if m.None? then head else if head > m.value then head else m.value;
      Max(arr[1..], Some(next))
  }

  /** The elements below the pivot value, in order. */
  function Below(s: seq<int>, p: int): (r: seq<int>)
    ensures |r| <= |s|
    ensures forall i :: 0 <= i < |r| ==> r[i] < p
    decreases |s|
  {
    if |s| == 0 then []
    else if s[0] < p then [s[0]] + Below(s[1..], p)
    else Below(s[1..], p)
  }

  /** The elements at or above the pivot value, in order. */
  function AtLeast(s: seq<int>, p: int): (r: seq<int>)
    ensures |r| <= |s|
    ensures forall i :: 0 <= i < |r| ==> r[i] >= p
    decreases |s|
  {
    if |s| == 0 then []
    else if s[0] < p then AtLeast(s[1..], p)
    else [s[0]] + AtLeast(s[1..], p)
  }

  /** Below and at-or-above split the elements between them. */
  lemma {:induction false} SplitPermutes(s: seq<int>, p: int)
    ensures multiset(Below(s, p)) + multiset(AtLeast(s, p)) == multiset(s)
    decreases |s|
  {
    if |s| > 0 {
      SplitPermutes(s[1..], p);
      assert s == [s[0]] + s[1..];
    }
  }

  /** What `partition` gives back, besides the pivot value: together with
      it, a permutation of the list it was handed. */
  lemma PartitionPermutes(s: seq<int>, k: nat)
    requires k < |s|
    ensures var rest := s[..k] + s[k + 1..];
      multiset(Reverse(Below(rest, s[k]))) + multiset{s[k]} + multiset(AtLeast(rest, s[k])) == multiset(s)
  {
    var rest := s[..k] + s[k + 1..];
    SplitPermutes(rest, s[k]);
    ReversePermutes(Below(rest, s[k]));
    RemovePermutes(s, k);
  }

  /** What `partition` leaves in `arr` is part of the list it was handed. */
  lemma PartitionKeeps(s: seq<int>, k: nat)
    requires k < |s|
    ensures multiset(AtLeast(s[..k] + s[k + 1..], s[k])) <= multiset(s)
  {
    var rest := s[..k] + s[k + 1..];
    SplitPermutes(rest, s[k]);
    RemovePermutes(s, k);
  }

  /** Removing one element takes it out of the multiset. */
  lemma RemovePermutes(s: seq<int>, k: nat)
    requires k < |s|
    ensures multiset(s[..k] + s[k + 1..]) + multiset{s[k]} == multiset(s)
  {
    assert s == s[..k] + ([s[k]] + s[k + 1..]);
  }

  /** One step of the partition loop, read from the back. */
  lemma BelowStep(s: seq<int>, i: nat, p: int)
    requires 0 < i <= |s|
    ensures Below(s[i - 1..], p) == if s[i - 1] < p then [s[i - 1]] + Below(s[i..], p) else Below(s[i..], p)
    ensures AtLeast(s[i - 1..], p) == if s[i - 1] < p then AtLeast(s[i..], p) else [s[i - 1]] + AtLeast(s[i..], p)
  {
    assert s[i - 1..][1..] == s[i..];
  }

  predicate Sorted(s: seq<int>) {
    forall i, j :: 0 <= i < j < |s| ==> s[i] <= s[j]
  }

  /** A Python list of integers, changed in place by `pop` and by
      assignment to its items. */
  class IntList {
    var items: seq<int>

    constructor (items: seq<int>)
      ensures this.items == items
    {
      this.items := items;
    }

    /** `pop(i)`: removes the item at `i` and returns it. */
    method Pop(i: nat) returns (x: int)
      requires i < |items|
      modifies this`items
      ensures x == old(items)[i]
      ensures items == old(items)[..i] + old(items)[i + 1..]
    {
      x := items[i];
      items := items[..i] + items[i + 1..];
    }
  }

  /** `partition(arr, pivot)`: pops the pivot value, then, from the last
      index down, pops every smaller element onto `lesser`; `arr` itself is
      returned with the rest. A negative pivot counts from the end. */
  method Partition(arr: IntList, pivot: int) returns (lesser: seq<int>, pVal: int, greater: IntList)
    requires -|arr.items| <= pivot < |arr.items|
    modifies arr
    ensures var k := if pivot < 0 then pivot + |old(arr.items)| else pivot;
      && pVal == old(arr.items)[k]
      && lesser == Reverse(Below(old(arr.items)[..k] + old(arr.items)[k + 1..], pVal))
      && arr.items == AtLeast(old(arr.items)[..k] + old(arr.items)[k + 1..], pVal)
    ensures greater == arr
  {
    var k := if pivot < 0 then pivot + |arr.items| else pivot;
    pVal := arr.Pop(k);
    lesser := PopSmaller(arr, pVal);
    greater := arr;
  }

  /** The loop of `partition`: from the last index down, every element
      below `pVal` is popped and appended to `lesser`. */
  method PopSmaller(arr: IntList, pVal: int) returns (lesser: seq<int>)
    modifies arr
    ensures lesser == Reverse(Below(old(arr.items), pVal))
    ensures arr.items == AtLeast(old(arr.items), pVal)
  {
    ghost var rest := arr.items;
    lesser := [];
    var i := |arr.items|;
    while i > 0
      invariant 0 <= i <= |rest|
      invariant arr.items == rest[..i] + AtLeast(rest[i..], pVal)
      invariant lesser == Reverse(Below(rest[i..], pVal))
    {
      if arr.items[i - 1] < pVal {
        PopTaken(rest, i, pVal, arr.items);
        var x := arr.Pop(i - 1);
        ReverseCons(x, Below(rest[i..], pVal));
        lesser := lesser + [x];
      } else {
        PopKept(rest, i, pVal, arr.items);
      }
      i := i - 1;
    }
    assert rest[0..] == rest;
  }

  /** A pass of the loop that pops a smaller element. */
  lemma PopTaken(rest: seq<int>, i: nat, p: int, items: seq<int>)
    requires 0 < i <= |rest|
    requires items == rest[..i] + AtLeast(rest[i..], p)
    requires items[i - 1] < p
    ensures items[i - 1] == rest[i - 1]
    ensures items[..i - 1] + items[i..] == rest[..i - 1] + AtLeast(rest[i - 1..], p)
    ensures Below(rest[i - 1..], p) == [rest[i - 1]] + Below(rest[i..], p)
  {
    assert items[..i] == rest[..i];
    BelowStep(rest, i, p);
    assert items[..i - 1] == rest[..i - 1];
    assert items[i..] == AtLeast(rest[i..], p);
  }

  /** A pass of the loop that keeps an element at or above the pivot. */
  lemma PopKept(rest: seq<int>, i: nat, p: int, items: seq<int>)
    requires 0 < i <= |rest|
    requires items == rest[..i] + AtLeast(rest[i..], p)
    requires items[i - 1] >= p
    ensures items == rest[..i - 1] + AtLeast(rest[i - 1..], p)
    ensures Below(rest[i - 1..], p) == Below(rest[i..], p)
  {
    var kept := AtLeast(rest[i..], p);
    assert rest[i - 1] >= p by {
      assert items[..i] == rest[..i];
    }
    BelowStep(rest, i, p);
    assert items == rest[..i - 1] + ([rest[i - 1]] + kept) by {
      assert rest[..i] == rest[..i - 1] + [rest[i - 1]];
    }
  }

  /** `qs(arr)` with `pick` for `randint(0, len(arr) - 1)`: a two-element
      list is swapped in place when out of order and returned, as is a
      shorter one; longer lists are partitioned and the sorted parts
      joined around the pivot value. */
  method Qs(arr: IntList, pick: seq<int> -> int) returns (r: seq<int>)
    requires forall s: seq<int> :: |s| > 0 ==> 0 <= pick(s) < |s|
    modifies arr
    ensures Sorted(r)
    ensures multiset(r) == multiset(old(arr.items))
    ensures |old(arr.items)| <= 2 ==> arr.items == r
    ensures multiset(arr.items) <= multiset(old(arr.items))
    decreases |arr.items|, 1
  {
    if |arr.items| == 2 {
      SortPair(arr);
      r := arr.items;
    } else if |arr.items| < 2 {
      r := arr.items;
    } else {
      r := SortAround(arr, pick);
    }
  }

  /** The two-element case of `qs`: the pair is swapped in place when out
      of order. */
  method SortPair(arr: IntList)
    requires |arr.items| == 2
    modifies arr
    ensures Sorted(arr.items)
    ensures arr.items == if old(arr.items[0]) > old(arr.items[1])
                         then [old(arr.items[1]), old(arr.items[0])] else old(arr.items)
    ensures multiset(arr.items) == multiset(old(arr.items))
  {
    if arr.items[0] > arr.items[1] {
      ghost var s := arr.items;
      arr.items := [arr.items[1], arr.items[0]];
      assert s == [s[0]] + [s[1]];
    }
  }

  /** The divide-and-conquer case of `qs`: partition around the picked
      pivot, sort the smaller elements (a new list) and the rest (the same
      list), and join them around the pivot value. */
  method SortAround(arr: IntList, pick: seq<int> -> int) returns (r: seq<int>)
    requires forall s: seq<int> :: |s| > 0 ==> 0 <= pick(s) < |s|
    requires |arr.items| > 2
    modifies arr
    ensures Sorted(r)
    ensures multiset(r) == multiset(old(arr.items))
    ensures multiset(arr.items) <= multiset(old(arr.items))
    decreases |arr.items|, 0
  {
    ghost var s := arr.items;
    var pivot := pick(arr.items);
    var lesser, p, greater := Partition(arr, pivot);
    ghost var rest := s[..pivot] + s[pivot + 1..];
    ghost var kept := arr.items;
    assert p == s[pivot] && lesser == Reverse(Below(rest, p)) && kept == AtLeast(rest, p);
    assert multiset(kept) <= multiset(s) by {
      PartitionKeeps(s, pivot);
    }
    var lower := new IntList(lesser);
    var left := Qs(lower, pick);
    assert multiset(left) == multiset(Reverse(Below(rest, p)));
    assert arr.items == kept;
    var right := Qs(greater, pick);
    assert multiset(right) == multiset(AtLeast(rest, p));
    assert multiset(arr.items) <= multiset(kept);
    SortedAround(s, pivot, left, right);
    r := left + [p] + right;
  }

  /** Sorting both parts of a partition and joining them around the pivot
      value sorts the whole list. */
  lemma SortedAround(s: seq<int>, k: nat, left: seq<int>, right: seq<int>)
    requires k < |s|
    requires Sorted(left) && Sorted(right)
    requires multiset(left) == multiset(Reverse(Below(s[..k] + s[k + 1..], s[k])))
    requires multiset(right) == multiset(AtLeast(s[..k] + s[k + 1..], s[k]))
    ensures Sorted(left + [s[k]] + right)
    ensures multiset(left + [s[k]] + right) == multiset(s)
  {
    var rest := s[..k] + s[k + 1..];
    PartitionPermutes(s, k);
    ReversePermutes(Below(rest, s[k]));
    JoinSorted(left, s[k], right, Below(rest, s[k]), AtLeast(rest, s[k]));
  }

  /** Sorted parts below and at or above the pivot value join into a
      sorted list. */
  lemma JoinSorted(left: seq<int>, p: int, right: seq<int>, low: seq<int>, high: seq<int>)
    requires Sorted(left) && Sorted(right)
    requires multiset(left) == multiset(low) && multiset(right) == multiset(high)
    requires forall i :: 0 <= i < |low| ==> low[i] < p
    requires forall i :: 0 <= i < |high| ==> high[i] >= p
    ensures Sorted(left + [p] + right)
  {
    forall i | 0 <= i < |left| ensures left[i] < p {
      assert left[i] in left;
      assert left[i] in multiset(low);
      var j :| 0 <= j < |low| && low[j] == left[i];
    }
    forall i | 0 <= i < |right| ensures right[i] >= p {
      assert right[i] in right;
      assert right[i] in multiset(high);
      assert right[i] in high;
      var j :| 0 <= j < |high| && high[j] == right[i];
    }
  }
}
