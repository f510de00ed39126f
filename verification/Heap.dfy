/** The binary heap operations of Go's container/heap, on sequences. */
module Heap {

  /** A strict weak order: no two elements are each less than the other, and "not greater" is transitive. */
  ghost predicate IsOrder<T(!new)>(less: (T, T) -> bool) {
    && (forall a, b :: less(a, b) ==> !less(b, a))
    && (forall a, b, c {:trigger less(b, a), less(c, b)} :: !less(b, a) && !less(c, b) ==> !less(c, a))
  }

  predicate IsChild(c: int, p: int) {
    c == 2 * p + 1 || c == 2 * p + 2
  }

  /** No child is less than its parent, for all parents from `lo` on. */
  ghost predicate HeapFrom<T>(h: seq<T>, lo: nat, less: (T, T) -> bool) {
    forall p, c :: lo <= p < c < |h| && IsChild(c, p) ==> !less(h[c], h[p])
  }

  ghost predicate IsHeap<T>(h: seq<T>, less: (T, T) -> bool) {
    HeapFrom(h, 0, less)
  }

  function Swap<T>(h: seq<T>, i: nat, j: nat): (r: seq<T>)
    requires i < |h| && j < |h|
    ensures |r| == |h| && r[i] == h[j] && r[j] == h[i]
    ensures forall k :: 0 <= k < |h| && k != i && k != j ==> r[k] == h[k]
    ensures multiset(r) == multiset(h)
  {
    h[i := h[j]][j := h[i]]
  }

  // ----- sifting up -----

  function Up<T>(h: seq<T>, j: nat, less: (T, T) -> bool): (r: seq<T>)
    requires j < |h|
    ensures |r| == |h| && multiset(r) == multiset(h)
    decreases j
  {
    if j == 0 || !less(h[j], h[(j - 1) / 2]) then h
    else Up(Swap(h, (j - 1) / 2, j), (j - 1) / 2, less)
  }

  /** A heap except that position `j` may be less than its parent. */
  ghost predicate HeapButUp<T>(h: seq<T>, j: nat, less: (T, T) -> bool) {
    && j < |h|
    && (forall p, c :: 0 <= p < c < |h| && IsChild(c, p) && c != j ==> !less(h[c], h[p]))
    && (forall q, c :: 0 <= q < c < |h| && IsChild(j, q) && IsChild(c, j) ==> !less(h[c], h[q]))
  }

  lemma {:induction false} UpStep<T(!new)>(h: seq<T>, j: nat, i: nat, less: (T, T) -> bool)
    requires IsOrder(less) && HeapButUp(h, j, less) && IsChild(j, i) && less(h[j], h[i])
    ensures HeapButUp(Swap(h, i, j), i, less)
  {
    var r := Swap(h, i, j);
    forall p, c | 0 <= p < c < |r| && IsChild(c, p) && c != i ensures !less(r[c], r[p]) {
      if p == i && c != j {
        assert !less(h[c], h[i]) && !less(h[i], h[j]);
      }
    }
    forall q, c | 0 <= q < c < |r| && IsChild(i, q) && IsChild(c, i) ensures !less(r[c], r[q]) {
      assert !less(h[i], h[q]);
      if c != j {
        assert !less(h[c], h[i]);
      }
    }
  }

  lemma {:induction false} UpHeap<T(!new)>(h: seq<T>, j: nat, less: (T, T) -> bool)
    requires IsOrder(less) && HeapButUp(h, j, less)
    ensures IsHeap(Up(h, j, less), less)
    decreases j
  {
    if j > 0 && less(h[j], h[(j - 1) / 2]) {
      UpStep(h, j, (j - 1) / 2, less);
      UpHeap(Swap(h, (j - 1) / 2, j), (j - 1) / 2, less);
    } else {
      assert forall p :: 0 <= p && IsChild(j, p) ==> p == (j - 1) / 2;
    }
  }

  // ----- sifting down -----

  /** The child that sifting down compares with: the left one unless the right one is less. */
  function LesserChild<T>(h: seq<T>, i: nat, less: (T, T) -> bool): (c: nat)
    requires 2 * i + 1 < |h|
    ensures c < |h| && IsChild(c, i)
  {
    if 2 * i + 2 < |h| && less(h[2 * i + 2], h[2 * i + 1]) then 2 * i + 2 else 2 * i + 1
  }

  lemma {:induction false} LesserChildIsLeast<T(!new)>(h: seq<T>, i: nat, less: (T, T) -> bool)
    requires IsOrder(less) && 2 * i + 1 < |h|
    ensures forall k :: 0 <= k < |h| && IsChild(k, i) ==> !less(h[k], h[LesserChild(h, i, less)])
  {
  }

  function Down<T>(h: seq<T>, i: nat, less: (T, T) -> bool): (r: seq<T>)
    ensures |r| == |h| && multiset(r) == multiset(h)
    decreases |h| - i
  {
    if 2 * i + 1 >= |h| then h
    else
      var c := LesserChild(h, i, less);
      if !less(h[c], h[i]) then h else Down(Swap(h, i, c), c, less)
  }

  /** A heap from `lo` on except that position `i` may be greater than its children. */
  ghost predicate HeapButDown<T>(h: seq<T>, i: nat, lo: nat, less: (T, T) -> bool) {
    && lo <= i
    && (forall p, c :: lo <= p < c < |h| && IsChild(c, p) && p != i ==> !less(h[c], h[p]))
    && (forall q, c :: lo <= q < c < |h| && IsChild(i, q) && IsChild(c, i) ==> !less(h[c], h[q]))
  }

  lemma {:induction false} DownStep<T(!new)>(h: seq<T>, i: nat, lo: nat, c: nat, less: (T, T) -> bool)
    requires IsOrder(less) && HeapButDown(h, i, lo, less) && c < |h| && IsChild(c, i) && less(h[c], h[i])
    requires forall k :: 0 <= k < |h| && IsChild(k, i) ==> !less(h[k], h[c])
    ensures HeapButDown(Swap(h, i, c), c, lo, less)
  {
    var r := Swap(h, i, c);
    forall p, k | lo <= p < k < |r| && IsChild(k, p) && p != c ensures !less(r[k], r[p]) {
      if p != i && k == i {
        assert !less(h[c], h[p]);
      }
    }
    forall q, k | lo <= q < k < |r| && IsChild(c, q) && IsChild(k, c) ensures !less(r[k], r[q]) {
      assert q == i;
    }
  }

  lemma {:induction false} DownHeap<T(!new)>(h: seq<T>, i: nat, lo: nat, less: (T, T) -> bool)
    requires IsOrder(less) && HeapButDown(h, i, lo, less)
    ensures HeapFrom(Down(h, i, less), lo, less)
    decreases |h| - i
  {
    if 2 * i + 1 < |h| {
      LesserChildIsLeast(h, i, less);
      var c := LesserChild(h, i, less);
      if less(h[c], h[i]) {
        DownStep(h, i, lo, c, less);
        DownHeap(Swap(h, i, c), c, lo, less);
      } else {
        forall k | 0 <= k < |h| && IsChild(k, i) ensures !less(h[k], h[i]) {
          assert !less(h[k], h[c]) && !less(h[c], h[i]);
        }
      }
    }
  }

  // ----- the heap interface -----

  function InitFrom<T>(h: seq<T>, n: nat, less: (T, T) -> bool): (r: seq<T>)
    ensures |r| == |h| && multiset(r) == multiset(h)
    decreases n
  {
    if n == 0 then h else InitFrom(Down(h, n - 1, less), n - 1, less)
  }

  /** Orders an arbitrary sequence into a heap. */
  function Init<T>(h: seq<T>, less: (T, T) -> bool): (r: seq<T>)
    ensures |r| == |h| && multiset(r) == multiset(h)
  {
    InitFrom(h, |h| / 2, less)
  }

  lemma {:induction false} InitHeap<T(!new)>(h: seq<T>, n: nat, less: (T, T) -> bool)
    requires IsOrder(less) && HeapFrom(h, n, less)
    ensures IsHeap(InitFrom(h, n, less), less)
    decreases n
  {
    hide Down, HeapFrom, IsOrder;
    if n > 0 {
      InitStep(h, n, less);
      InitHeap(Down(h, n - 1, less), n - 1, less);
    }
  }

  /** Sifting the last element that is not yet in order down extends the part that is. */
  lemma {:induction false} InitStep<T(!new)>(h: seq<T>, n: nat, less: (T, T) -> bool)
    requires n > 0 && IsOrder(less) && HeapFrom(h, n, less)
    ensures HeapFrom(Down(h, n - 1, less), n - 1, less)
  {
    hide Down;
    DownHeap(h, n - 1, n - 1, less);
  }

  function Push<T>(h: seq<T>, x: T, less: (T, T) -> bool): (r: seq<T>)
    ensures |r| == |h| + 1 && multiset(r) == multiset(h) + multiset{x}
  {
    Up(h + [x], |h|, less)
  }

  lemma {:induction false} PushHeap<T(!new)>(h: seq<T>, x: T, less: (T, T) -> bool)
    requires IsOrder(less) && IsHeap(h, less)
    ensures IsHeap(Push(h, x, less), less)
  {
    UpHeap(h + [x], |h|, less);
  }

  /** The sequence with its last element moved to position `i`, which loses its own. */
  function Refill<T>(h: seq<T>, i: nat): (r: seq<T>)
    requires i < |h|
    ensures |r| == |h| - 1 && multiset(h) == multiset(r) + multiset{h[i]}
    ensures i < |r| ==> r[i] == h[|h| - 1]
    ensures forall k :: 0 <= k < |r| && k != i ==> r[k] == h[k]
  {
    var s := Swap(h, i, |h| - 1);
    assert s == s[..|h| - 1] + [h[i]];
    s[..|h| - 1]
  }

  /** Takes the first element out. */
  function Pop<T>(h: seq<T>, less: (T, T) -> bool): (r: seq<T>)
    requires h != []
    ensures |r| == |h| - 1 && multiset(h) == multiset(r) + multiset{h[0]}
  {
    Down(Refill(h, 0), 0, less)
  }

  lemma {:induction false} PopHeap<T(!new)>(h: seq<T>, less: (T, T) -> bool)
    requires IsOrder(less) && IsHeap(h, less) && h != []
    ensures IsHeap(Pop(h, less), less)
  {
    DownHeap(Refill(h, 0), 0, 0, less);
  }

  /** Takes the element at position `i` out: sift the replacement down, or up if it does not move. */
  function Remove<T(==)>(h: seq<T>, i: nat, less: (T, T) -> bool): (r: seq<T>)
    requires i < |h|
    ensures |r| == |h| - 1 && multiset(h) == multiset(r) + multiset{h[i]}
  {
    var m := Refill(h, i);
    if i == |m| then m
    else
      var d := Down(m, i, less);
      if d == m then Up(m, i, less) else d
  }

  lemma {:induction false} RefillButDown<T(!new)>(h: seq<T>, i: nat, less: (T, T) -> bool)
    requires IsOrder(less) && IsHeap(h, less) && i < |h| - 1
    requires forall p :: 0 <= p < i && IsChild(i, p) ==> !less(Refill(h, i)[i], h[p])
    ensures HeapButDown(Refill(h, i), i, 0, less)
  {
    var m := Refill(h, i);
    forall q, c | 0 <= q < c < |m| && IsChild(i, q) && IsChild(c, i) ensures !less(m[c], m[q]) {
      assert !less(h[c], h[i]) && !less(h[i], h[q]);
    }
  }

  lemma {:induction false} RefillButUp<T(!new)>(h: seq<T>, i: nat, p: nat, less: (T, T) -> bool)
    requires IsOrder(less) && IsHeap(h, less) && i < |h| - 1
    requires IsChild(i, p) && less(Refill(h, i)[i], h[p])
    ensures HeapButUp(Refill(h, i), i, less) && Down(Refill(h, i), i, less) == Refill(h, i)
  {
    var m := Refill(h, i);
    forall c | 0 <= c < |m| && IsChild(c, i) ensures !less(m[c], m[p]) && !less(m[c], m[i]) {
      assert !less(h[c], h[i]) && !less(h[i], h[p]);
      assert !less(m[p], m[i]);
    }
    forall a, c | 0 <= a < c < |m| && IsChild(c, a) && c != i ensures !less(m[c], m[a]) {
      if a != i {
        assert !less(h[c], h[a]);
      }
    }
    forall q, c | 0 <= q < c < |m| && IsChild(i, q) && IsChild(c, i) ensures !less(m[c], m[q]) {
      assert q == p;
    }
  }

  lemma {:induction false} RemoveHeap<T(!new)>(h: seq<T>, i: nat, less: (T, T) -> bool)
    requires IsOrder(less) && IsHeap(h, less) && i < |h|
    ensures IsHeap(Remove(h, i, less), less)
  {
    var m := Refill(h, i);
    if i < |m| {
      var p := (i - 1) / 2;
      if i > 0 && less(m[i], h[p]) {
        RefillButUp(h, i, p, less);
        UpHeap(m, i, less);
      } else {
        assert forall a :: 0 <= a < i && IsChild(i, a) ==> a == p;
        RefillButDown(h, i, less);
        DownHeap(m, i, 0, less);
        if Down(m, i, less) == m {
          assert HeapButUp(m, i, less);
          UpHeap(m, i, less);
        }
      }
    }
  }

  /** The first element of a heap is a least one. */
  lemma {:induction false} FirstIsLeast<T(!new)>(h: seq<T>, k: nat, less: (T, T) -> bool)
    requires IsOrder(less) && IsHeap(h, less) && k < |h|
    ensures !less(h[k], h[0])
    decreases k
  {
    if k > 0 {
      var p := (k - 1) / 2;
      FirstIsLeast(h, p, less);
      assert IsChild(k, p) && !less(h[k], h[p]);
    }
  }
}
