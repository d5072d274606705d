/** The in-place sort by longest path (quickSort.cpp, list.h), from the largest to the smallest. An
    instruction is named by its position in its block; `lp` holds the longest-path fields. */
module QuickSort {

  /** A list that removes and inserts in place. */
  class List {
    var elems: seq<nat>

    constructor ()
      ensures elems == []
    {
      elems := [];
    }

    method Append(x: nat)
      modifies this
      ensures elems == old(elems) + [x]
    {
      elems := elems + [x];
    }

    method InsertAt(x: nat, index: nat)
      requires index <= |elems|
      modifies this
      ensures elems == old(elems)[..index] + [x] + old(elems)[index..]
    {
      elems := elems[..index] + [x] + elems[index..];
    }

    method RemoveAt(index: nat)
      requires index < |elems|
      modifies this
      ensures elems == old(elems)[..index] + old(elems)[index + 1..]
    {
      elems := elems[..index] + elems[index + 1..];
    }
  }

  function Swapped(s: seq<nat>, x: nat, y: nat): seq<nat>
    requires x < |s| && y < |s|
  {
    s[x := s[y]][y := s[x]]
  }

  method Swap(list: List, x: nat, y: nat)
    requires x <= y < |list.elems|
    modifies list
    ensures list.elems == Swapped(old(list.elems), x, y)
  {
    var tempX, tempY := list.elems[x], list.elems[y];
    list.RemoveAt(x);
    list.InsertAt(tempY, x);
    assert list.elems == old(list.elems)[x := tempY];
    list.RemoveAt(y);
    list.InsertAt(tempX, y);
  }

  /** Only `[left, right]` changed, and there only the order. */
  ghost predicate Shuffled(s: seq<nat>, t: seq<nat>, left: int, right: int) {
    && |s| == |t| && multiset(s) == multiset(t)
    && (forall k :: 0 <= k < |s| && !(left <= k <= right) ==> s[k] == t[k])
    && (forall k :: 0 <= k < |t| && left <= k <= right ==> Within(s, left, right, t[k]))
  }

  ghost predicate Within(s: seq<nat>, left: int, right: int, x: nat) {
    exists j :: 0 <= j < |s| && left <= j <= right && s[j] == x
  }

  lemma {:induction false} ShuffledSelf(s: seq<nat>, left: int, right: int)
    ensures Shuffled(s, s, left, right)
  {
  }

  lemma {:induction false} SwapShuffles(s: seq<nat>, t: seq<nat>, left: int, right: int, x: nat, y: nat)
    requires Shuffled(s, t, left, right) && left <= x <= y <= right && y < |t|
    ensures Shuffled(s, Swapped(t, x, y), left, right)
  {
    var u := Swapped(t, x, y);
    SwapMultiset(t, x, y);
    forall k | 0 <= k < |u| && left <= k <= right ensures Within(s, left, right, u[k]) {
      assert Within(s, left, right, t[if k == x then y else if k == y then x else k]);
    }
  }

  lemma {:induction false} SwapMultiset(t: seq<nat>, x: nat, y: nat)
    requires x < |t| && y < |t|
    ensures multiset(Swapped(t, x, y)) == multiset(t)
  {
  }

  lemma {:induction false} ShuffledTrans(s: seq<nat>, t: seq<nat>, u: seq<nat>, left: int, right: int, l: int, r: int)
    requires Shuffled(s, t, left, right) && Shuffled(t, u, l, r) && left <= l && r <= right
    ensures Shuffled(s, u, left, right)
  {
    forall k | 0 <= k < |u| && left <= k <= right ensures Within(s, left, right, u[k]) {
      if l <= k <= r {
        assert Within(t, l, r, u[k]);
        var j :| 0 <= j < |t| && l <= j <= r && t[j] == u[k];
        assert Within(s, left, right, t[j]);
      } else {
        assert Within(s, left, right, t[k]);
      }
    }
  }

  /** Every position names a value of at least (at most) `v`. */
  ghost predicate AtLeast(lp: seq<int>, s: seq<nat>, lo: int, hi: int, v: int) {
    forall k :: lo <= k < hi && 0 <= k < |s| && s[k] < |lp| ==> lp[s[k]] >= v
  }

  ghost predicate AtMost(lp: seq<int>, s: seq<nat>, lo: int, hi: int, v: int) {
    forall k :: lo <= k < hi && 0 <= k < |s| && s[k] < |lp| ==> lp[s[k]] <= v
  }

  ghost predicate Names(lp: seq<int>, s: seq<nat>) {
    forall k :: 0 <= k < |s| ==> s[k] < |lp|
  }

  /** The pivot ends at `p`, with nothing smaller before it and nothing larger after it. */
  method PartitionLongestPath(list: List, lp: array<int>, left0: nat, right0: nat) returns (p: nat)
    requires left0 < right0 < |list.elems| && Names(lp[..], list.elems)
    modifies list
    ensures left0 <= p <= right0 && Shuffled(old(list.elems), list.elems, left0, right0)
    ensures Names(lp[..], list.elems)
    ensures AtLeast(lp[..], list.elems, left0, p + 1, lp[list.elems[p]])
    ensures AtMost(lp[..], list.elems, p, right0 + 1, lp[list.elems[p]])
  {
    ghost var s := list.elems;
    var pivotValue := lp[list.elems[left0]];
    ShuffledSelf(s, left0, right0);
    var left, right := PartitionStep(list, lp, s, left0, right0, left0, right0, pivotValue);
    while left < right
      invariant 0 <= left && 0 <= right < |list.elems|
      invariant Halves(lp[..], s, list.elems, left0, right0, left, right, pivotValue)
      decreases right - left
    {
      left, right := PartitionStep(list, lp, s, left0, right0, left, right, pivotValue);
    }
    PivotPlaced(lp[..], s, list.elems, left0, right0, left, right, pivotValue);
    Swap(list, left0, right);
    p := right;
  }

  /** The state of the outer loop. */
  ghost predicate Halves(v: seq<int>, s: seq<nat>, t: seq<nat>, left0: nat, right0: nat, left: nat, right: nat, pivot: int) {
    && left0 <= left <= right0 && left0 <= right <= right0 < |t| && Shuffled(s, t, left0, right0) && Names(v, t)
    && v[t[left0]] == pivot
    && AtLeast(v, t, left0, if left < right then left + 1 else right + 1, pivot)
    && AtMost(v, t, right + 1, right0 + 1, pivot)
    && (left < right && right < right0 ==> v[t[right]] <= pivot)
  }

  /** One turn of the outer loop. */
  method PartitionStep(list: List, lp: array<int>, ghost s: seq<nat>, left0: nat, right0: nat, left1: nat, right1: nat, pivotValue: int)
    returns (left: nat, right: nat)
    requires left1 < right1 <= right0 < |list.elems|
    requires Halves(lp[..], s, list.elems, left0, right0, left1, right1, pivotValue)
    modifies list
    ensures Halves(lp[..], s, list.elems, left0, right0, left, right, pivotValue)
    ensures left1 < left && right <= right1
  {
    hide Shuffled, AtLeast, AtMost;
    ghost var t := list.elems;
    left := AdvanceLeft(list, lp, left1, right1, pivotValue);
    right := RetreatRight(list, lp, left0, right1, pivotValue);
    StepHalves(lp[..], s, t, left0, right0, left1, right1, left, right, pivotValue);
    if left < right { Swap(list, left, right); }
  }

  lemma {:induction false} StepHalves(v: seq<int>, s: seq<nat>, t: seq<nat>, left0: nat, right0: nat, left1: nat, right1: nat,
                                      left: nat, right: nat, pivot: int)
    requires Halves(v, s, t, left0, right0, left1, right1, pivot) && left1 < left <= right1 && left0 <= right <= right1
    requires (forall k :: left1 < k < left ==> v[t[k]] > pivot) && (left < right1 ==> v[t[left]] <= pivot)
    requires (forall k :: right < k <= right1 ==> v[t[k]] < pivot) && v[t[right]] >= pivot
    ensures Halves(v, s, if left < right then Swapped(t, left, right) else t, left0, right0, left, right, pivot)
  {
    hide Shuffled;
    if left < right {
      SwapShuffles(s, t, left0, right0, left, right);
      SwapKeeps(v, t, left0, right0, left1, right1, left, right, pivot);
    }
  }

  lemma {:induction false} SwapKeeps(v: seq<int>, t: seq<nat>, left0: nat, right0: nat, left1: nat, right1: nat,
                                     left: nat, right: nat, pivot: int)
    requires left0 <= left1 < left < right <= right1 <= right0 < |t| && Names(v, t)
    requires AtLeast(v, t, left0, left1 + 1, pivot) && AtMost(v, t, right1 + 1, right0 + 1, pivot)
    requires (forall k :: left1 < k < left ==> v[t[k]] > pivot) && v[t[left]] <= pivot
    requires (forall k :: right < k <= right1 ==> v[t[k]] < pivot) && v[t[right]] >= pivot
    ensures var w := Swapped(t, left, right);
            && Names(v, w) && w[left0] == t[left0] && v[w[right]] <= pivot
            && AtLeast(v, w, left0, left + 1, pivot) && AtMost(v, w, right + 1, right0 + 1, pivot)
  {
  }

  lemma {:induction false} PivotPlaced(v: seq<int>, s: seq<nat>, t: seq<nat>, left0: nat, right0: nat, left: nat, right: nat, pivot: int)
    requires Halves(v, s, t, left0, right0, left, right, pivot) && left >= right
    ensures var w := Swapped(t, left0, right);
            && Shuffled(s, w, left0, right0) && Names(v, w) && v[w[right]] == pivot
            && AtLeast(v, w, left0, right + 1, pivot) && AtMost(v, w, right, right0 + 1, pivot)
  {
    SwapShuffles(s, t, left0, right0, left0, right);
  }

  /** The inner do-while loop: steps at least once. */
  method AdvanceLeft(list: List, lp: array<int>, left0: nat, right: nat, pivotValue: int) returns (left: nat)
    requires left0 < right < |list.elems| && Names(lp[..], list.elems)
    ensures left0 < left <= right
    ensures forall k :: left0 < k < left ==> lp[list.elems[k]] > pivotValue
    ensures left < right ==> lp[list.elems[left]] <= pivotValue
  {
    left := left0 + 1;
    while left < right && lp[list.elems[left]] > pivotValue
      invariant left0 < left <= right
      invariant forall k :: left0 < k < left ==> lp[list.elems[k]] > pivotValue
    {
      left := left + 1;
    }
  }

  method RetreatRight(list: List, lp: array<int>, bottom: nat, right0: nat, pivotValue: int) returns (right: nat)
    requires bottom <= right0 < |list.elems| && Names(lp[..], list.elems)
    requires lp[list.elems[bottom]] == pivotValue
    ensures bottom <= right <= right0 && lp[list.elems[right]] >= pivotValue
    ensures forall k :: right < k <= right0 ==> lp[list.elems[k]] < pivotValue
  {
    right := right0;
    while lp[list.elems[right]] < pivotValue
      invariant bottom <= right <= right0
      invariant forall k :: right < k <= right0 ==> lp[list.elems[k]] < pivotValue
      decreases right
    {
      right := right - 1;
    }
  }

  ghost predicate Descending(lp: seq<int>, s: seq<nat>, left: int, right: int) {
    forall j, k :: 0 <= j && left <= j < k <= right && k < |s| && s[j] < |lp| && s[k] < |lp| ==> lp[s[j]] >= lp[s[k]]
  }

  /** Sorts in descending order, whatever the source's comment says of increasing order. */
  method QuicksortLongestPath(list: List, lp: array<int>, left: int, right: int)
    requires 0 <= left && right < |list.elems| && Names(lp[..], list.elems)
    modifies list
    ensures Shuffled(old(list.elems), list.elems, left, right) && Names(lp[..], list.elems)
    ensures Descending(lp[..], list.elems, left, right)
    decreases right - left
  {
    ghost var s, v := list.elems, lp[..];
    ShuffledSelf(s, left, right);
    if left < right {
      var p: int := PartitionLongestPath(list, lp, left, right);
      ghost var t := list.elems;
      ghost var x := lp[t[p]];
      QuicksortLongestPath(list, lp, left, p - 1);
      ghost var u := list.elems;
      QuicksortLongestPath(list, lp, p + 1, right);
      SortedAround(v, s, t, u, list.elems, left, p, right);
    }
  }

  lemma {:induction false} SortedAround(v: seq<int>, s: seq<nat>, t: seq<nat>, u: seq<nat>, w: seq<nat>, left: nat, p: nat, right: nat)
    requires left <= p <= right < |s| && Shuffled(s, t, left, right)
    requires Shuffled(t, u, left, p - 1) && Shuffled(u, w, p + 1, right)
    requires Names(v, t) && Names(v, u) && Names(v, w)
    requires AtLeast(v, t, left, p + 1, v[t[p]]) && AtMost(v, t, p, right + 1, v[t[p]])
    requires Descending(v, u, left, p - 1) && Descending(v, w, p + 1, right)
    ensures Shuffled(s, w, left, right) && Descending(v, w, left, right)
  {
    ShuffledTrans(s, t, u, left, right, left, p - 1);
    ShuffledTrans(s, u, w, left, right, p + 1, right);
    forall j | left <= j <= p ensures v[w[j]] >= v[t[p]] { KeepsLow(v, t, u, w, left, p, right, j); }
    forall k | p <= k <= right ensures v[w[k]] <= v[t[p]] { KeepsHigh(v, t, u, w, left, p, right, k); }
    forall j, k | left <= j < k <= right ensures v[w[j]] >= v[w[k]] {
      if k < p { assert w[j] == u[j] && w[k] == u[k]; }
    }
  }

  lemma {:induction false} KeepsLow(v: seq<int>, t: seq<nat>, u: seq<nat>, w: seq<nat>, left: nat, p: nat, right: nat, j: nat)
    requires left <= j <= p <= right < |t| && Shuffled(t, u, left, p - 1) && Shuffled(u, w, p + 1, right)
    requires Names(v, t) && Names(v, w) && AtLeast(v, t, left, p + 1, v[t[p]])
    ensures v[w[j]] >= v[t[p]]
  {
    assert w[j] == u[j];
    if j < p {
      assert Within(t, left, p - 1, u[j]);
    }
  }

  lemma {:induction false} KeepsHigh(v: seq<int>, t: seq<nat>, u: seq<nat>, w: seq<nat>, left: nat, p: nat, right: nat, k: nat)
    requires left <= p <= k <= right < |t| && Shuffled(t, u, left, p - 1) && Shuffled(u, w, p + 1, right)
    requires Names(v, t) && Names(v, w) && AtMost(v, t, p, right + 1, v[t[p]])
    ensures v[w[k]] <= v[t[p]]
  {
    if k == p {
      assert w[k] == u[k] == t[k];
    } else {
      assert Within(u, p + 1, right, w[k]);
      var j :| 0 <= j < |u| && p + 1 <= j <= right && u[j] == w[k];
      assert u[j] == t[j];
    }
  }
}
