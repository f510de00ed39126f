/** The nonce-indexed transaction map: a hash map, a heap of its nonces, and a cached sorted listing. */
module SortedMap {
  import opened Common
  import opened Transactions
  import Heap

  const Less: (nat, nat) -> bool := (a, b) => a < b

  lemma {:induction false} LessIsOrder()
    ensures Heap.IsOrder(Less)
  {
  }

  /** The heap holds exactly the map's nonces, each once. */
  ghost predicate Indexes(items: Items, index: seq<nat>) {
    Heap.IsHeap(index, Less) && Same(items, index)
  }

  ghost predicate Same(items: Items, index: seq<nat>) {
    multiset(index) == multiset(items.Keys)
  }

  lemma {:induction false} Member(items: Items, index: seq<nat>, n: nat)
    requires Same(items, index)
    ensures |index| == |items|
    ensures n in index <==> n in items
  {
    assert n in index <==> n in multiset(index);
    assert |multiset(index)| == |index| && |multiset(items.Keys)| == |items.Keys|;
  }

  /** The root of the heap is the lowest nonce. */
  lemma {:induction false} RootIsLowest(items: Items, index: seq<nat>)
    requires Indexes(items, index)
    ensures |index| == |items|
    ensures index != [] ==> index[0] in items && forall n :: n in items ==> index[0] <= n
  {
    Member(items, index, 0);
    if index != [] {
      Member(items, index, index[0]);
      LessIsOrder();
      forall n | n in items ensures index[0] <= n {
        Member(items, index, n);
        var k :| 0 <= k < |index| && index[k] == n;
        Heap.FirstIsLeast(index, k, Less);
      }
    }
  }

  lemma {:induction false} RemoveKey(items: Items, index: seq<nat>, rest: seq<nat>, n: nat)
    requires n in items && Same(items, index)
    requires multiset(index) == multiset(rest) + multiset{n}
    ensures Same(items - {n}, rest)
  {
    assert (items - {n}).Keys == items.Keys - {n};
    assert multiset(items.Keys) == multiset(items.Keys - {n}) + multiset{n};
    assert multiset(rest) == multiset(index) - multiset{n};
  }

  lemma {:induction false} PopRoot(items: Items, index: seq<nat>)
    requires Indexes(items, index) && index != []
    ensures Indexes(items - {index[0]}, Heap.Pop(index, Less))
  {
    RootIsLowest(items, index);
    LessIsOrder();
    Heap.PopHeap(index, Less);
    RemoveKey(items, index, Heap.Pop(index, Less), index[0]);
  }

  lemma {:induction false} RemoveAt(items: Items, index: seq<nat>, i: nat)
    requires Indexes(items, index) && i < |index|
    ensures Indexes(items - {index[i]}, Heap.Remove(index, i, Less))
  {
    Member(items, index, index[i]);
    LessIsOrder();
    Heap.RemoveHeap(index, i, Less);
    RemoveKey(items, index, Heap.Remove(index, i, Less), index[i]);
  }

  lemma {:induction false} MemberOfHeap(items: Items, index: seq<nat>, n: nat)
    requires Indexes(items, index)
    ensures n in index <==> n in items
  {
    Member(items, index, n);
  }

  lemma {:induction false} KeyedWithout(items: Items, n: nat)
    requires Keyed(items)
    ensures Keyed(items - {n})
  {
  }

  lemma {:induction false} PushNew(items: Items, index: seq<nat>, tx: Tx)
    requires Indexes(items, index)
    ensures Indexes(items[tx.nonce := tx], if tx.nonce in items then index else Heap.Push(index, tx.nonce, Less))
  {
    LessIsOrder();
    Heap.PushHeap(index, tx.nonce, Less);
    assert items[tx.nonce := tx].Keys == items.Keys + {tx.nonce};
    if tx.nonce in items {
      assert items.Keys + {tx.nonce} == items.Keys;
    } else {
      assert multiset(items.Keys + {tx.nonce}) == multiset(items.Keys) + multiset{tx.nonce};
    }
  }

  lemma {:induction false} Reinit(items: Items, index: seq<nat>)
    requires Same(items, index)
    ensures Indexes(items, Heap.Init(index, Less))
  {
    LessIsOrder();
    assert Heap.HeapFrom(index, |index| / 2, Less);
    Heap.InitHeap(index, |index| / 2, Less);
  }

  // ----- sorting the index -----

  ghost predicate Increasing(s: seq<nat>) {
    forall i, j :: 0 <= i < j < |s| ==> s[i] <= s[j]
  }

  function InsertNonce(s: seq<nat>, x: nat): (r: seq<nat>)
    ensures multiset(r) == multiset(s) + multiset{x}
  {
    if s == [] || s[|s| - 1] <= x then s + [x]
    else
      assert s == s[..|s| - 1] + [s[|s| - 1]];
      InsertNonce(s[..|s| - 1], x) + [s[|s| - 1]]
  }

  lemma {:induction false} InsertNonceIncreasing(s: seq<nat>, x: nat)
    requires Increasing(s)
    ensures Increasing(InsertNonce(s, x))
  {
    if s != [] && s[|s| - 1] > x {
      var init, last := s[..|s| - 1], s[|s| - 1];
      InsertNonceIncreasing(init, x);
      var r := InsertNonce(init, x);
      forall i | 0 <= i < |r| ensures r[i] <= last {
        assert r[i] in multiset(r);
        assert r[i] == x || r[i] in init;
      }
    }
  }

  /** Sorts the nonces. */
  method SortNonces(s: seq<nat>) returns (r: seq<nat>)
    ensures Increasing(r) && multiset(r) == multiset(s)
  {
    r := [];
    for i := 0 to |s|
      invariant Increasing(r) && multiset(r) == multiset(s[..i])
    {
      assert s[..i + 1] == s[..i] + [s[i]];
      InsertNonceIncreasing(r, s[i]);
      r := InsertNonce(r, s[i]);
    }
    assert s[..|s|] == s;
  }

  /** Collects a map's transactions in nonce order. */
  method SortByNonce(items: Items) returns (s: seq<Tx>)
    requires Keyed(items)
    ensures Lists(items, s)
  {
    s := [];
    var rest := items;
    ghost var done: Items := map[];
    while rest != map[]
      invariant Divides(items, done, rest)
      invariant Lists(done, s)
      decreases |rest|
    {
      var n :| n in rest;
      InsertLists(done, s, items[n]);
      s := Insert(s, items[n]);
      MoveOne(items, done, rest, n);
      done := done[n := items[n]];
      rest := rest - {n};
    }
    assert done == items;
  }

  /** Two collections share out a third. */
  ghost predicate Divides(whole: Items, one: Items, other: Items) {
    && (forall n :: n in whole <==> n in one || n in other)
    && (forall n :: n in one ==> n in whole && n !in other && one[n] == whole[n])
    && (forall n :: n in other ==> n in whole && n !in one && other[n] == whole[n])
  }

  lemma {:induction false} MoveOne(whole: Items, one: Items, other: Items, n: nat)
    requires Divides(whole, one, other) && n in other
    ensures Divides(whole, one[n := whole[n]], other - {n})
    ensures |other - {n}| < |other|
  {
    assert (other - {n}).Keys == other.Keys - {n};
  }

  // ----- what the operations leave behind -----

  /** The transactions that the test does not select. */
  function Kept(items: Items, test: Tx -> bool): Items {
    map n | n in items && !test(items[n]) :: items[n]
  }

  function Selected(items: Items, test: Tx -> bool): Items {
    map n | n in items && test(items[n]) :: items[n]
  }

  function Below(threshold: nat): Tx -> bool {
    (tx: Tx) => tx.nonce < threshold
  }

  function Above(threshold: nat): Tx -> bool {
    (tx: Tx) => tx.nonce > threshold
  }

  /** Decreasing nonces. */
  ghost predicate Descending(s: seq<Tx>) {
    forall i, j :: 0 <= i < j < |s| ==> s[j].nonce < s[i].nonce
  }

  /** Nonces `lo`, `lo + 1` and so on. */
  ghost predicate IsRun(s: seq<Tx>, lo: nat) {
    forall i :: 0 <= i < |s| ==> s[i].nonce == lo + i
  }

  function NextNonce(n: nat): nat {
    if n == MAX_UINT64 then 0 else n + 1
  }

  lemma {:induction false} CutLowest(whole: Items, low: Items, high: Items, n: nat)
    requires Splits(whole, low, high) && n in high && forall m :: m in high ==> n <= m
    ensures Splits(whole, low[n := whole[n]], high - {n})
    ensures |high - {n}| < |high|
  {
    assert (high - {n}).Keys == high.Keys - {n};
  }

  lemma {:induction false} CutHighest(whole: Items, low: Items, high: Items, n: nat)
    requires Splits(whole, low, high) && n in low && forall m :: m in low ==> m <= n
    ensures Splits(whole, low - {n}, high[n := whole[n]])
    ensures |low - {n}| == |low| - 1
  {
    assert (low - {n}).Keys == low.Keys - {n};
  }

  /** Forward has moved `gone`, listed by `removed`, out of `whole` and left `items`. */
  ghost predicate Forwarding(whole: Items, gone: Items, items: Items, index: seq<nat>, removed: seq<Tx>, threshold: nat) {
    && Keyed(whole) && Splits(whole, gone, items)
    && Indexes(items, index)
    && Lists(gone, removed)
    && (forall n :: n in gone ==> n < threshold)
  }

  lemma {:induction false} ForwardStart(items: Items, index: seq<nat>, threshold: nat)
    requires Keyed(items) && Indexes(items, index)
    ensures Forwarding(items, map[], items, index, [], threshold)
  {
  }

  lemma {:induction false} ForwardStep(whole: Items, gone: Items, items: Items, index: seq<nat>, removed: seq<Tx>, threshold: nat)
    requires Forwarding(whole, gone, items, index, removed, threshold) && index != [] && index[0] < threshold
    ensures var n := index[0];
            && n in items
            && Forwarding(whole, gone[n := items[n]], items - {n}, Heap.Pop(index, Less), removed + [items[n]], threshold)
  {
    RootIsLowest(items, index);
    Extend(gone, removed, items[index[0]]);
    CutLowest(whole, gone, items, index[0]);
    PopRoot(items, index);
  }

  lemma {:induction false} ForwardEnd(
    whole: Items, gone: Items, items: Items, index: seq<nat>, removed: seq<Tx>, cache: Option<seq<Tx>>, threshold: nat
  )
    requires Forwarding(whole, gone, items, index, removed, threshold) && (index == [] || index[0] >= threshold)
    requires cache.Some? ==> Lists(whole, cache.value)
    ensures Keyed(items) && Indexes(items, index) && items == Kept(whole, Below(threshold))
    ensures Lists(Selected(whole, Below(threshold)), removed)
    ensures cache.Some? ==> |removed| <= |cache.value| && Lists(items, cache.value[|removed|..])
  {
    RootIsLowest(items, index);
    assert gone == Selected(whole, Below(threshold));
    assert items == Kept(whole, Below(threshold));
    if cache.Some? {
      ListSize(gone, removed);
      SplitList(whole, gone, items, cache.value);
    }
  }

  /** Filtering has sorted `seen` into `gone` and what stays. */
  ghost predicate Filtering(whole: Items, seen: Items, rest: Items, gone: Items, items: Items, removed: seq<Tx>, test: Tx -> bool) {
    && Keyed(whole) && Divides(whole, seen, rest)
    && Divides(whole, gone, items)
    && gone == Selected(seen, test) && Enumerates(gone, removed)
  }

  lemma {:induction false} FilterStart(items: Items, test: Tx -> bool)
    requires Keyed(items)
    ensures Filtering(items, map[], items, map[], items, [], test)
  {
    assert map[] == Selected(map[], test);
  }

  lemma {:induction false} SelectMore(seen: Items, test: Tx -> bool, tx: Tx)
    requires tx.nonce !in seen
    ensures tx.nonce !in Selected(seen, test)
    ensures var more := Selected(seen[tx.nonce := tx], test);
            more == if test(tx) then Selected(seen, test)[tx.nonce := tx] else Selected(seen, test)
  {
  }

  lemma {:induction false} FilterStep(
    whole: Items, seen: Items, rest: Items, gone: Items, items: Items, removed: seq<Tx>, test: Tx -> bool, n: nat
  )
    requires Filtering(whole, seen, rest, gone, items, removed, test) && n in rest
    ensures n in items && items[n] == whole[n] && |rest - {n}| < |rest|
    ensures var tx := whole[n];
            if test(tx) then
              Filtering(whole, seen[n := tx], rest - {n}, gone[n := tx], items - {n}, removed + [tx], test)
            else Filtering(whole, seen[n := tx], rest - {n}, gone, items, removed, test)
  {
    hide Enumerates, Selected;
    MoveOne(whole, seen, rest, n);
    SelectMore(seen, test, whole[n]);
    if test(whole[n]) {
      Extend(gone, removed, whole[n]);
      MoveOne(whole, gone, items, n);
    }
  }

  lemma {:induction false} FilterEnd(
    whole: Items, seen: Items, gone: Items, items: Items, removed: seq<Tx>, test: Tx -> bool
  )
    requires Filtering(whole, seen, map[], gone, items, removed, test)
    ensures Keyed(items) && items == Kept(whole, test)
    ensures Enumerates(Selected(whole, test), removed)
    ensures removed == [] ==> items == whole
  {
    assert seen == whole;
    assert items == Kept(whole, test);
    EmptyList(gone, removed);
    if removed == [] {
      assert items == whole;
    }
  }

  ghost predicate Reheaping(items: Items, done: Items, rest: Items, index: seq<nat>) {
    Divides(items, done, rest) && Same(done, index)
  }

  lemma {:induction false} ReheapStart(items: Items)
    ensures Reheaping(items, map[], items, [])
  {
    var none: Items := map[];
    assert multiset(none.Keys) == multiset{};
  }

  lemma {:induction false} ReheapStep(items: Items, done: Items, rest: Items, index: seq<nat>, n: nat)
    requires Reheaping(items, done, rest, index) && n in rest
    ensures n in items && |rest - {n}| < |rest|
    ensures Reheaping(items, done[n := items[n]], rest - {n}, index + [n])
  {
    MoveOne(items, done, rest, n);
    assert done[n := items[n]].Keys == done.Keys + {n};
  }

  lemma {:induction false} ReheapEnd(items: Items, done: Items, index: seq<nat>)
    requires Reheaping(items, done, map[], index)
    ensures Indexes(items, Heap.Init(index, Less))
  {
    assert done == items;
    Reinit(items, index);
  }

  /** Cap has taken `gone`, highest first, off the sorted index and the items. */
  ghost predicate Capping(whole: Items, items: Items, gone: Items, index: seq<nat>, drops: seq<Tx>, size: nat) {
    && Keyed(whole) && size <= |index| && Increasing(index) && size == |items|
    && Same(items, index[..size])
    && Capped(whole, items, gone, drops)
  }

  ghost predicate Capped(whole: Items, items: Items, gone: Items, drops: seq<Tx>) {
    Splits(whole, items, gone) && Enumerates(gone, drops) && Descending(drops)
  }

  lemma {:induction false} CapNone(items: Items)
    ensures Capped(items, items, map[], [])
  {
  }

  lemma {:induction false} CapStart(items: Items, heap: seq<nat>, index: seq<nat>)
    requires Keyed(items) && Indexes(items, heap) && multiset(index) == multiset(heap) && Increasing(index)
    ensures |items| == |index| && Capping(items, items, map[], index, [], |items|)
  {
    Member(items, index, 0);
    assert index[..|items|] == index;
  }

  lemma {:induction false} CapStep(whole: Items, items: Items, gone: Items, index: seq<nat>, drops: seq<Tx>, size: nat)
    requires Capping(whole, items, gone, index, drops, size) && size > 0
    ensures var n := index[size - 1];
            n in items && |items - {n}| == |items| - 1 && Capping(whole, items - {n}, gone[n := items[n]], index, drops + [items[n]], size - 1)
  {
    var n := index[size - 1];
    HighestIsLast(items, index, size);
    CapDrop(whole, items, gone, drops, n);
    CutHighest(whole, items, gone, n);
  }

  lemma {:induction false} CapDrop(whole: Items, items: Items, gone: Items, drops: seq<Tx>, n: nat)
    requires Keyed(items) && Capped(whole, items, gone, drops) && n in items && forall m :: m in items ==> m <= n
    ensures Capped(whole, items - {n}, gone[n := items[n]], drops + [items[n]])
  {
    Extend(gone, drops, items[n]);
    LowerThanDrops(items, gone, drops, n);
    CutHighest(whole, items, gone, n);
  }

  lemma {:induction false} CapEnd(
    whole: Items, items: Items, gone: Items, index: seq<nat>, drops: seq<Tx>, size: nat, cache: Option<seq<Tx>>
  )
    requires Keyed(whole) && Capping(whole, items, gone, index, drops, size)
    requires cache.Some? ==> Lists(whole, cache.value)
    ensures Keyed(items) && Indexes(items, Heap.Init(index[..size], Less))
    ensures size == |items| && Capped(whole, items, gone, drops)
    ensures cache.Some? ==> |drops| <= |cache.value| && Lists(items, cache.value[..|cache.value| - |drops|])
  {
    hide Heap.Init, Enumerates;
    Reinit(items, index[..size]);
    if cache.Some? {
      SplitList(whole, items, gone, cache.value);
      DropCount(gone, drops);
    }
  }

  /** Ready has moved the run from the lowest nonce on out of `whole`. */
  ghost predicate Running(whole: Items, gone: Items, items: Items, index: seq<nat>, ready: seq<Tx>, lo: nat) {
    IsRun(ready, lo) && Forwarding(whole, gone, items, index, ready, lo + |ready|)
  }

  lemma {:induction false} RunStart(items: Items, index: seq<nat>, lo: nat)
    requires Keyed(items) && Indexes(items, index)
    ensures Running(items, map[], items, index, [], lo)
  {
  }

  lemma {:induction false} ForwardMore(whole: Items, gone: Items, items: Items, index: seq<nat>, removed: seq<Tx>, threshold: nat)
    requires Forwarding(whole, gone, items, index, removed, threshold)
    ensures Forwarding(whole, gone, items, index, removed, threshold + 1)
    ensures index != [] ==> index[0] in items && items[index[0]].nonce == index[0]
  {
    hide Lists, Indexes;
    RootIsLowest(items, index);
  }

  lemma {:induction false} RunStep(whole: Items, gone: Items, items: Items, index: seq<nat>, ready: seq<Tx>, lo: nat)
    requires Running(whole, gone, items, index, ready, lo) && index != [] && index[0] == lo + |ready|
    ensures var n := index[0];
            && n in items
            && Running(whole, gone[n := items[n]], items - {n}, Heap.Pop(index, Less), ready + [items[n]], lo)
  {
    hide Forwarding, Heap.Pop;
    ForwardMore(whole, gone, items, index, ready, lo + |ready|);
    ForwardStep(whole, gone, items, index, ready, lo + |ready| + 1);
  }

  /** What is left lies above the run. */
  lemma {:induction false} RunRest(whole: Items, gone: Items, items: Items, index: seq<nat>, ready: seq<Tx>, lo: nat)
    requires Running(whole, gone, items, index, ready, lo) && ready != []
    ensures index != [] ==> lo + |ready| <= index[0] <= MAX_UINT64
  {
    RootIsLowest(items, index);
    assert Holds(gone, ready[|ready| - 1]);
  }

  /** The list is the longest gap-free run from the lowest nonce on, and exactly the rest is left. */
  ghost predicate IsReady(whole: Items, items: Items, ready: seq<Tx>) {
    && ready != []
    && var lo := ready[0].nonce;
    && IsRun(ready, lo) && lo + |ready| !in whole
    && (forall n :: n in whole ==> lo <= n)
    && Lists(Selected(whole, Below(lo + |ready|)), ready)
    && items == Kept(whole, Below(lo + |ready|))
  }

  lemma {:induction false} RunFacts(whole: Items, gone: Items, items: Items, index: seq<nat>, ready: seq<Tx>, lo: nat)
    requires Running(whole, gone, items, index, ready, lo) && ready != []
    requires index == [] || index[0] > lo + |ready|
    ensures ready[0].nonce == lo && lo + |ready| !in whole
    ensures forall n :: n in whole ==> lo <= n
    ensures Indexes(items, index) && Forwarding(whole, gone, items, index, ready, lo + |ready|)
  {
    hide Indexes, Keyed, Lists;
    RootIsLowest(items, index);
    DropFirst(gone, ready);
  }

  lemma {:induction false} RunEnd(whole: Items, gone: Items, items: Items, index: seq<nat>, ready: seq<Tx>, lo: nat)
    requires Running(whole, gone, items, index, ready, lo) && ready != []
    requires index == [] || index[0] > lo + |ready|
    ensures Keyed(items) && IsReady(whole, items, ready) && Indexes(items, index)
  {
    hide Indexes, Keyed, Lists, Kept, Selected, Forwarding;
    RunFacts(whole, gone, items, index, ready, lo);
    ForwardEnd(whole, gone, items, index, ready, None, lo + |ready|);
  }

  class TxSortedMap {
    var items: Items
    var index: seq<nat>
    var cache: Option<seq<Tx>>

    ghost predicate Valid()
      reads this
    {
      && Keyed(items)
      && Indexes(items, index)
      && (cache.Some? ==> Lists(items, cache.value))
    }

    constructor ()
      ensures Valid() && items == map[]
    {
      items := map[];
      index := [];
      cache := None;
      new;
      assert multiset(index) == multiset(items.Keys);
    }

    constructor From(items: Items)
      requires Keyed(items)
      ensures Valid() && this.items == items
    {
      this.items := items;
      index := [];
      cache := None;
      new;
      Reheap();
    }

    method Put(tx: Tx)
      requires Valid() && tx.nonce <= MAX_UINT64
      modifies this
      ensures Valid() && items == old(items)[tx.nonce := tx]
    {
      PushNew(items, index, tx);
      if tx.nonce !in items {
        index := Heap.Push(index, tx.nonce, Less);
      }
      items := items[tx.nonce := tx];
      cache := None;
    }

    /** Removes exactly the nonces below the threshold and returns them in order. */
    method Forward(threshold: nat) returns (removed: seq<Tx>)
      requires Valid()
      modifies this
      ensures Valid()
      ensures items == Kept(old(items), Below(threshold))
      ensures Lists(Selected(old(items), Below(threshold)), removed)
    {
      hide Keyed, Indexes, Lists, Forwarding, Kept, Selected, Heap.Pop;
      removed := [];
      ghost var gone: Items := map[];
      ForwardStart(items, index, threshold);
      while |index| > 0 && index[0] < threshold
        invariant cache == old(cache)
        invariant Forwarding(old(items), gone, items, index, removed, threshold)
        decreases |index|
      {
        var nonce := index[0];
        ForwardStep(old(items), gone, items, index, removed, threshold);
        removed := removed + [items[nonce]];
        gone := gone[nonce := items[nonce]];
        index := Heap.Pop(index, Less);
        items := items - {nonce};
      }
      ForwardEnd(old(items), gone, items, index, removed, cache, threshold);
      if cache.Some? {
        cache := Some(cache.value[|removed|..]);
      }
    }

    /** Removes the selected transactions; the heap index is left as it was. */
    method FilterItems(test: Tx -> bool) returns (removed: seq<Tx>)
      requires Valid()
      modifies this`items, this`cache
      ensures Keyed(items) && items == Kept(old(items), test)
      ensures Enumerates(Selected(old(items), test), removed)
      ensures removed == [] ==> items == old(items) && cache == old(cache)
      ensures removed != [] ==> cache == None
    {
      hide Keyed, Indexes, Lists, Enumerates, Filtering, Kept, Selected;
      removed := [];
      ghost var gone: Items := map[];
      ghost var seen: Items := map[];
      var rest := items;
      FilterStart(items, test);
      while rest != map[]
        invariant Filtering(old(items), seen, rest, gone, items, removed, test)
        invariant cache == old(cache)
        decreases |rest|
      {
        var n :| n in rest;
        FilterStep(old(items), seen, rest, gone, items, removed, test, n);
        var tx := items[n];
        if test(tx) {
          removed := removed + [tx];
          gone := gone[n := tx];
          items := items - {n};
        }
        rest := rest - {n};
        seen := seen[n := tx];
      }
      FilterEnd(old(items), seen, gone, items, removed, test);
      if removed != [] {
        cache := None;
      }
    }

    /** Rebuilds the heap index from the items. */
    method Reheap()
      requires Keyed(items)
      modifies this`index, this`cache
      ensures Valid()
    {
      hide Keyed, Indexes, Lists, Reheaping, Heap.Init;
      index := [];
      var rest := items;
      ghost var done: Items := map[];
      ReheapStart(items);
      while rest != map[]
        invariant Reheaping(items, done, rest, index)
        decreases |rest|
      {
        var n :| n in rest;
        ReheapStep(items, done, rest, index, n);
        index := index + [n];
        rest := rest - {n};
        done := done[n := items[n]];
      }
      ReheapEnd(items, done, index);
      index := Heap.Init(index, Less);
      cache := None;
    }

    method Filter(test: Tx -> bool) returns (removed: seq<Tx>)
      requires Valid()
      modifies this
      ensures Valid() && items == Kept(old(items), test)
      ensures Enumerates(Selected(old(items), test), removed)
    {
      removed := FilterItems(test);
      if |removed| > 0 {
        Reheap();
      }
    }

    /** Keeps the lowest `threshold` nonces and returns the others, highest first. */
    method Cap(threshold: nat) returns (drops: seq<Tx>)
      requires Valid()
      modifies this
      ensures Valid()
      ensures if |old(items)| <= threshold then items == old(items) && drops == [] else |items| == threshold
      ensures exists gone :: Capped(old(items), items, gone, drops)
    {
      hide Keyed, Lists, Indexes, Same, Capping, Capped, Heap.Init;
      drops := [];
      ghost var gone: Items := map[];
      if |items| <= threshold {
        CapNone(items);
        return;
      }
      index := SortNonces(index);
      var size := |items|;
      CapStart(items, old(index), index);
      while size > threshold
        invariant threshold <= size <= |index| && cache == old(cache)
        invariant Capping(old(items), items, gone, index, drops, size)
      {
        var n := index[size - 1];
        CapStep(old(items), items, gone, index, drops, size);
        drops := drops + [items[n]];
        gone := gone[n := items[n]];
        items := items - {n};
        size := size - 1;
      }
      CapEnd(old(items), items, gone, index, drops, size, cache);
      index := Heap.Init(index[..threshold], Less);
      if cache.Some? {
        cache := Some(cache.value[..|cache.value| - |drops|]);
      }
      assert Capped(old(items), items, gone, drops);
    }

    method Remove(nonce: nat) returns (found: bool)
      requires Valid()
      modifies this
      ensures Valid()
      ensures found == (nonce in old(items)) && items == old(items) - {nonce}
    {
      hide Keyed, Indexes, Lists, Heap.Remove;
      if nonce !in items {
        assert items == items - {nonce};
        return false;
      }
      MemberOfHeap(items, index, nonce);
      var i := 0;
      ghost var k :| 0 <= k < |index| && index[k] == nonce;
      while index[i] != nonce
        invariant i <= k
        decreases k - i
      {
        i := i + 1;
      }
      RemoveAt(items, index, i);
      KeyedWithout(items, nonce);
      index := Heap.Remove(index, i, Less);
      items := items - {nonce};
      cache := None;
      return true;
    }

    /** Takes out the gap-free run from the lowest nonce on, if that is not above `start`. */
    method Ready(start: nat) returns (ready: seq<Tx>)
      requires Valid()
      modifies this
      ensures Valid()
      ensures ready == [] <==> forall n :: n in old(items) ==> n > start
      ensures ready == [] ==> items == old(items)
      ensures ready != [] ==> IsReady(old(items), items, ready)
    {
      hide Keyed, Indexes, Lists, Running, IsReady, Heap.Pop;
      ready := [];
      RootIsLowest(items, index);
      if |index| == 0 || index[0] > start {
        assert |index| == 0 ==> items == map[];
        return;
      }
      ghost var lo := index[0];
      ghost var gone: Items := map[];
      var next: nat := index[0];
      assert lo in items && lo <= start;
      RunStart(items, index, lo);
      while |index| > 0 && index[0] == next
        invariant index != [] ==> (index[0] == next <==> index[0] == lo + |ready|)
        invariant Running(old(items), gone, items, index, ready, lo)
        invariant ready == [] ==> |index| > 0 && index[0] == next
        invariant ready != [] ==> next == NextNonce(lo + |ready| - 1)
        invariant index != [] && ready != [] ==> lo + |ready| <= index[0]
        decreases |index|
      {
        RunStep(old(items), gone, items, index, ready, lo);
        ready := ready + [items[next]];
        gone := gone[next := items[next]];
        items := items - {next};
        index := Heap.Pop(index, Less);
        next := NextNonce(next);
        RunRest(old(items), gone, items, index, ready, lo);
      }
      RunEnd(old(items), gone, items, index, ready, lo);
      cache := None;
    }

    /** The transactions in nonce order. */
    method Flatten() returns (s: seq<Tx>)
      requires Valid()
      modifies this`cache
      ensures Valid() && Lists(items, s)
    {
      if cache.None? {
        var sorted := SortByNonce(items);
        cache := Some(sorted);
      }
      s := cache.value;
    }

    /** The transaction with the highest nonce. */
    method LastElement() returns (tx: Tx)
      requires Valid() && items != map[]
      modifies this`cache
      ensures Valid() && Holds(items, tx) && forall n :: n in items ==> n <= tx.nonce
    {
      var s := Flatten();
      EmptyList(items, s);
      tx := s[|s| - 1];
      assert Holds(items, tx);
      forall n | n in items ensures n <= tx.nonce {
        assert Listed(s, n);
      }
    }
  }

  lemma {:induction false} HighestIsLast(items: Items, index: seq<nat>, size: nat)
    requires 0 < size <= |index| && Increasing(index) && Same(items, index[..size])
    ensures index[size - 1] in items && forall n :: n in items ==> n <= index[size - 1]
    ensures Same(items - {index[size - 1]}, index[..size - 1])
  {
    var n, s := index[size - 1], index[..size];
    assert s[size - 1] == n;
    Member(items, s, n);
    forall m | m in items ensures m <= n {
      Member(items, s, m);
      var k :| 0 <= k < |s| && s[k] == m;
    }
    assert s == index[..size - 1] + [n];
    RemoveKey(items, s, index[..size - 1], n);
  }

  lemma {:induction false} LowerThanDrops(low: Items, high: Items, drops: seq<Tx>, n: nat)
    requires Enumerates(high, drops) && n in low && forall a, b :: a in low && b in high ==> a < b
    ensures forall i :: 0 <= i < |drops| ==> n < drops[i].nonce
  {
    forall i | 0 <= i < |drops| ensures n < drops[i].nonce {
      assert Holds(high, drops[i]);
    }
  }

  lemma {:induction false} DropCount(items: Items, s: seq<Tx>)
    requires Enumerates(items, s)
    ensures |s| == |items|
    decreases |s|
  {
    EmptyList(items, s);
    if s != [] {
      var l := |s| - 1;
      var r, n := s[..l], s[l].nonce;
      assert Holds(items, s[l]);
      forall i | 0 <= i < |r| ensures Holds(items - {n}, r[i]) {
        assert Holds(items, s[i]);
      }
      forall m | m in items - {n} ensures Listed(r, m) {
        assert Listed(s, m);
        var i :| 0 <= i < |s| && s[i].nonce == m;
        assert r[i].nonce == m;
      }
      DropCount(items - {n}, r);
      assert (items - {n}).Keys == items.Keys - {n};
    }
  }
}
