/** The price-sorted list of remote transactions: an urgent heap by effective tip and a floating heap by fee cap. */
module PricedList {
  import opened Common
  import opened Transactions
  import opened Lookup
  import Heap

  const URGENT_RATIO: nat := 4
  const FLOATING_RATIO: nat := 1

  // ----- the price order -----

  function Sign(x: int): int {
    if x < 0 then -1 else if x > 0 then 1 else 0
  }

  /** What is left for the miner: the tip cap or what the fee cap leaves above the base fee, whichever is less. */
  function EffectiveTip(tx: Tx, baseFee: nat): (t: int)
    ensures t <= tx.gasTipCap && t <= tx.gasFeeCap - baseFee && (t == tx.gasTipCap || t == tx.gasFeeCap - baseFee)
  {
    if tx.gasTipCap < tx.gasFeeCap - baseFee then tx.gasTipCap else tx.gasFeeCap - baseFee
  }

  function Compare(baseFee: Option<nat>, a: Tx, b: Tx): int {
    if baseFee.Some? && EffectiveTip(a, baseFee.value) != EffectiveTip(b, baseFee.value) then
      Sign(EffectiveTip(a, baseFee.value) - EffectiveTip(b, baseFee.value))
    else if a.gasFeeCap != b.gasFeeCap then Sign(a.gasFeeCap - b.gasFeeCap)
    else Sign(a.gasTipCap - b.gasTipCap)
  }

  /** Cheaper first; of equally priced transactions the higher nonce first. */
  function Cheaper(baseFee: Option<nat>): (Tx, Tx) -> bool {
    (a: Tx, b: Tx) => Compare(baseFee, a, b) < 0 || (Compare(baseFee, a, b) == 0 && a.nonce > b.nonce)
  }

  /** The first transaction pays less than the second: with a base fee it leaves a lower tip; without one, or if the
      tips are the same, it has a lower fee cap; or the same fee cap and a lower tip cap. */
  predicate PaysLess(baseFee: Option<nat>, a: Tx, b: Tx) {
    var undecided := baseFee.None? || EffectiveTip(a, baseFee.value) == EffectiveTip(b, baseFee.value);
    || (baseFee.Some? && EffectiveTip(a, baseFee.value) < EffectiveTip(b, baseFee.value))
    || (undecided && a.gasFeeCap < b.gasFeeCap)
    || (undecided && a.gasFeeCap == b.gasFeeCap && a.gasTipCap < b.gasTipCap)
  }

  /** What the comparison means for the caps. */
  lemma {:induction false} PriceOrder(baseFee: Option<nat>, a: Tx, b: Tx)
    ensures Compare(baseFee, a, b) < 0 <==> PaysLess(baseFee, a, b)
    ensures Compare(baseFee, a, b) > 0 <==> PaysLess(baseFee, b, a)
    ensures Compare(baseFee, a, b) == 0 <==> a.gasFeeCap == b.gasFeeCap && a.gasTipCap == b.gasTipCap
    ensures PaysLess(baseFee, a, b) ==> Cheaper(baseFee)(a, b) && !Cheaper(baseFee)(b, a)
  {
  }

  lemma {:induction false} CheaperIsOrder(baseFee: Option<nat>)
    ensures Heap.IsOrder(Cheaper(baseFee))
  {
    var less := Cheaper(baseFee);
    forall a, b, c {:trigger less(b, a), less(c, b)} | !less(b, a) && !less(c, b) ensures !less(c, a) {
      CompareTransitive(baseFee, a, b, c);
    }
  }

  lemma {:induction false} CompareTransitive(baseFee: Option<nat>, a: Tx, b: Tx, c: Tx)
    requires Compare(baseFee, a, b) <= 0 && Compare(baseFee, b, c) <= 0
    ensures Compare(baseFee, a, c) <= 0
    ensures Compare(baseFee, a, c) == 0 ==> Compare(baseFee, a, b) == 0 && Compare(baseFee, b, c) == 0
    ensures Compare(baseFee, b, a) == -Compare(baseFee, a, b) && Compare(baseFee, c, b) == -Compare(baseFee, b, c)
    ensures Compare(baseFee, c, a) == -Compare(baseFee, a, c)
  {
  }

  // ----- what the heaps hold -----

  function SeqSlots(s: seq<Tx>): nat {
    if s == [] then 0 else SeqSlots(s[..|s| - 1]) + s[|s| - 1].slots
  }

  /** How often each transaction occurs in the heaps and the list together. */
  ghost function Tally(urgent: seq<Tx>, floating: seq<Tx>, drop: seq<Tx>): multiset<Tx> {
    multiset(urgent) + multiset(floating) + multiset(drop)
  }

  /** Every live transaction occurs as often as before. */
  ghost predicate LiveSame(live: set<Tx>, before: multiset<Tx>, after: multiset<Tx>) {
    forall x :: x in live ==> before[x] == after[x]
  }

  /** Every live transaction is in a heap. */
  ghost predicate Tracked(live: set<Tx>, urgent: seq<Tx>, floating: seq<Tx>) {
    forall x :: x in live ==> x in urgent || x in floating
  }

  /** No live transaction is in the heaps twice. */
  ghost predicate NoRepeats(live: set<Tx>, urgent: seq<Tx>, floating: seq<Tx>) {
    forall x :: x in live ==> Tally(urgent, floating, [])[x] <= 1
  }

  lemma {:induction false} TrackedIff(live: set<Tx>, urgent: seq<Tx>, floating: seq<Tx>)
    ensures Tracked(live, urgent, floating) <==> forall x :: x in live ==> x in Tally(urgent, floating, [])
  {
    assert multiset(urgent) + multiset(floating) + multiset([]) == multiset(urgent) + multiset(floating);
  }

  // ----- the slots that the heaps count -----

  /** The slots of the live transactions, each as often as it occurs. */
  ghost function LiveSlots(live: set<Tx>, m: multiset<Tx>): nat {
    if live == {} then 0 else
    var x :| x in live;
    m[x] * x.slots + LiveSlots(live - {x}, m)
  }

  lemma {:induction false} LiveSlotsTake(live: set<Tx>, m: multiset<Tx>, x: Tx)
    requires x in live
    ensures LiveSlots(live, m) == m[x] * x.slots + LiveSlots(live - {x}, m)
    decreases |live|
  {
    var y :| y in live && LiveSlots(live, m) == m[y] * y.slots + LiveSlots(live - {y}, m);
    if x != y {
      LiveSlotsTake(live - {y}, m, x);
      LiveSlotsTake(live - {x}, m, y);
      assert live - {x} - {y} == live - {y} - {x};
    }
  }

  lemma {:induction false} LiveSlotsAtMost(live: set<Tx>, a: multiset<Tx>, b: multiset<Tx>)
    requires forall x :: x in live ==> a[x] <= b[x]
    ensures LiveSlots(live, a) <= LiveSlots(live, b)
    decreases |live|
  {
    if live != {} {
      var x :| x in live;
      LiveSlotsTake(live, a, x);
      LiveSlotsTake(live, b, x);
      LiveSlotsAtMost(live - {x}, a, b);
      TimesAtMost(a[x], b[x], x.slots);
    }
  }

  lemma {:induction false} TimesAtMost(a: nat, b: nat, n: nat)
    requires a <= b
    ensures a * n <= b * n
  {
    assert b * n == a * n + (b - a) * n;
  }

  lemma {:induction false} LiveSlotsAdd(live: set<Tx>, m: multiset<Tx>, x: Tx)
    requires x in live
    ensures LiveSlots(live, m + multiset{x}) == LiveSlots(live, m) + x.slots
  {
    hide LiveSlots;
    var more := m + multiset{x};
    LiveSlotsTake(live, m, x);
    LiveSlotsTake(live, more, x);
    assert LiveSlots(live - {x}, more) == LiveSlots(live - {x}, m) by {
      LiveSlotsAtMost(live - {x}, m, more);
      LiveSlotsAtMost(live - {x}, more, m);
    }
    assert more[x] * x.slots == m[x] * x.slots + x.slots by {
      assert more[x] == m[x] + 1;
    }
  }

  lemma {:induction false} LiveSlotsNone(live: set<Tx>)
    ensures LiveSlots(live, multiset{}) == 0
    decreases |live|
  {
    if live != {} {
      var x :| x in live;
      LiveSlotsTake(live, multiset{}, x);
      LiveSlotsNone(live - {x});
    }
  }

  lemma {:induction false} LiveSlotsOf(live: set<Tx>, s: seq<Tx>)
    requires forall i :: 0 <= i < |s| ==> s[i] in live
    ensures LiveSlots(live, multiset(s)) == SeqSlots(s)
    decreases |s|
  {
    if s == [] {
      LiveSlotsNone(live);
    } else {
      var init, x := s[..|s| - 1], s[|s| - 1];
      assert s == init + [x];
      LiveSlotsOf(live, init);
      LiveSlotsAdd(live, multiset(init), x);
      assert multiset(s) == multiset(init) + multiset{x};
    }
  }

  /** Heaps that track every live transaction count the slots that the live transactions take, or more; they count
      exactly those if and only if no entry is repeated. */
  lemma {:induction false} CountedOnce(live: set<Tx>, m: multiset<Tx>)
    requires forall x :: x in live ==> m[x] >= 1 && x.slots > 0
    ensures LiveSlots(live, m) >= SlotSum(live)
    ensures LiveSlots(live, m) == SlotSum(live) <==> forall x :: x in live ==> m[x] <= 1
    decreases |live|
  {
    if live != {} {
      var x :| x in live;
      LiveSlotsTake(live, m, x);
      SlotSumTake(live, x);
      CountedOnce(live - {x}, m);
      TimesAtMost(1, m[x], x.slots);
      if m[x] > 1 {
        TimesAtMost(2, m[x], x.slots);
      }
      assert forall y :: y in live <==> y == x || y in live - {x};
    }
  }

  // ----- pricing -----

  /** No live transaction of the heap is cheaper than the given one. */
  ghost predicate NoneCheaper(live: set<Tx>, h: seq<Tx>, baseFee: Option<nat>, tx: Tx) {
    forall x :: x in h && x in live ==> Compare(baseFee, x, tx) >= 0
  }

  /** There are live transactions, and none in either heap is cheaper than the given one. */
  ghost predicate IsUnderpriced(live: set<Tx>, urgent: seq<Tx>, floating: seq<Tx>, baseFee: Option<nat>, tx: Tx) {
    live != {} && NoneCheaper(live, urgent, baseFee, tx) && NoneCheaper(live, floating, None, tx)
  }

  /** Every transaction has a higher fee cap than the given one, or the same and no lower tip cap. */
  ghost predicate NoLowerCaps(live: set<Tx>, tx: Tx) {
    forall x :: x in live ==> x.gasFeeCap > tx.gasFeeCap || (x.gasFeeCap == tx.gasFeeCap && x.gasTipCap >= tx.gasTipCap)
  }

  lemma {:induction false} UnderpricedNoFee(live: set<Tx>, urgent: seq<Tx>, floating: seq<Tx>, baseFee: Option<nat>, tx: Tx)
    requires Tracked(live, urgent, floating) && baseFee.None?
    ensures IsUnderpriced(live, urgent, floating, baseFee, tx) <==> live != {} && NoLowerCaps(live, tx)
  {
    hide NoLowerCaps, IsUnderpriced;
    UnderpricedByCaps(live, urgent, floating, baseFee, tx);
  }

  /** Being underpriced, by the caps. */
  lemma {:induction false} UnderpricedByCaps(live: set<Tx>, urgent: seq<Tx>, floating: seq<Tx>, baseFee: Option<nat>, tx: Tx)
    requires Tracked(live, urgent, floating)
    ensures IsUnderpriced(live, urgent, floating, baseFee, tx) <==>
              && live != {}
              && (forall x :: x in live && x in urgent ==> !PaysLess(baseFee, x, tx))
              && (forall x :: x in live && x in floating ==> !PaysLess(None, x, tx))
    ensures baseFee.None? ==>
              (IsUnderpriced(live, urgent, floating, baseFee, tx) <==> live != {} && NoLowerCaps(live, tx))
  {
    hide Compare;
    forall x ensures Compare(baseFee, x, tx) < 0 <==> PaysLess(baseFee, x, tx) {
      PriceOrder(baseFee, x, tx);
    }
    forall x ensures Compare(None, x, tx) < 0 <==> PaysLess(None, x, tx) {
      PriceOrder(None, x, tx);
    }
  }

  lemma {:induction false} NoneCheaperSame(live: set<Tx>, h: seq<Tx>, h': seq<Tx>, baseFee: Option<nat>, tx: Tx)
    requires forall x :: x in live ==> multiset(h')[x] == multiset(h)[x]
    ensures NoneCheaper(live, h, baseFee, tx) <==> NoneCheaper(live, h', baseFee, tx)
  {
    hide Compare;
    forall x | x in live ensures x in h <==> x in h' {
      assert x in h <==> x in multiset(h);
      assert x in h' <==> x in multiset(h');
    }
  }

  lemma {:induction false} HeadDecides(live: set<Tx>, h: seq<Tx>, baseFee: Option<nat>, tx: Tx)
    requires h != [] && h[0] in live && Heap.IsHeap(h, Cheaper(baseFee))
    ensures Compare(baseFee, h[0], tx) >= 0 <==> NoneCheaper(live, h, baseFee, tx)
  {
    CheaperIsOrder(baseFee);
    if Compare(baseFee, h[0], tx) >= 0 {
      forall x | x in h ensures Compare(baseFee, x, tx) >= 0 {
        var k :| 0 <= k < |h| && h[k] == x;
        Heap.FirstIsLeast(h, k, Cheaper(baseFee));
        NotCheaper(baseFee, h[0], x, tx);
      }
    }
  }

  lemma {:induction false} NotCheaper(baseFee: Option<nat>, head: Tx, x: Tx, tx: Tx)
    requires !Cheaper(baseFee)(x, head) && Compare(baseFee, head, tx) >= 0
    ensures Compare(baseFee, x, tx) >= 0
  {
  }

  // ----- one step of an eviction -----

  /** The state of an eviction that has taken `drop` so far. */
  ghost predicate Evicting(live: set<Tx>, before: multiset<Tx>, urgent: seq<Tx>, floating: seq<Tx>, drop: seq<Tx>, baseFee: Option<nat>) {
    && Heap.IsHeap(urgent, Cheaper(baseFee)) && Heap.IsHeap(floating, Cheaper(None))
    && LiveSame(live, before, Tally(urgent, floating, drop))
    && (forall i :: 0 <= i < |drop| ==> drop[i] in live)
  }

  lemma {:induction false} EvictUrgent(live: set<Tx>, before: multiset<Tx>, urgent: seq<Tx>, floating: seq<Tx>, drop: seq<Tx>, baseFee: Option<nat>)
    requires Evicting(live, before, urgent, floating, drop, baseFee) && urgent != []
    ensures var rest := Heap.Pop(urgent, Cheaper(baseFee));
            Evicting(live, before, rest,
                     if urgent[0] in live then Heap.Push(floating, urgent[0], Cheaper(None)) else floating, drop, baseFee)
  {
    hide Heap.Pop, Heap.Push, Heap.IsHeap, Cheaper;
    var x := urgent[0];
    var rest := Heap.Pop(urgent, Cheaper(baseFee));
    CheaperIsOrder(baseFee);
    CheaperIsOrder(None);
    Heap.PopHeap(urgent, Cheaper(baseFee));
    if x in live {
      Heap.PushHeap(floating, x, Cheaper(None));
      TallyMoves(urgent, rest, floating, Heap.Push(floating, x, Cheaper(None)), drop, x);
    } else {
      TallyDrops(urgent, rest, floating, drop, x);
    }
  }

  lemma {:induction false} EvictFloating(live: set<Tx>, before: multiset<Tx>, urgent: seq<Tx>, floating: seq<Tx>, drop: seq<Tx>, baseFee: Option<nat>)
    requires Evicting(live, before, urgent, floating, drop, baseFee) && floating != []
    ensures Evicting(live, before, urgent, Heap.Pop(floating, Cheaper(None)),
                     if floating[0] in live then drop + [floating[0]] else drop, baseFee)
  {
    hide Heap.Pop, Heap.IsHeap, Cheaper;
    var x := floating[0];
    var rest := Heap.Pop(floating, Cheaper(None));
    CheaperIsOrder(None);
    Heap.PopHeap(floating, Cheaper(None));
    if x in live {
      TallyTakes(urgent, floating, rest, drop, x);
    } else {
      TallyDropsFloating(urgent, floating, rest, drop, x);
    }
  }

  lemma {:induction false} TallyMoves(urgent: seq<Tx>, rest: seq<Tx>, floating: seq<Tx>, more: seq<Tx>, drop: seq<Tx>, x: Tx)
    requires multiset(urgent) == multiset(rest) + multiset{x} && multiset(more) == multiset(floating) + multiset{x}
    ensures Tally(rest, more, drop) == Tally(urgent, floating, drop)
  {
  }

  lemma {:induction false} TallyDrops(urgent: seq<Tx>, rest: seq<Tx>, floating: seq<Tx>, drop: seq<Tx>, x: Tx)
    requires multiset(urgent) == multiset(rest) + multiset{x}
    ensures Tally(rest, floating, drop) == Tally(urgent, floating, drop) - multiset{x}
  {
  }

  lemma {:induction false} TallyTakes(urgent: seq<Tx>, floating: seq<Tx>, rest: seq<Tx>, drop: seq<Tx>, x: Tx)
    requires multiset(floating) == multiset(rest) + multiset{x}
    ensures Tally(urgent, rest, drop + [x]) == Tally(urgent, floating, drop)
  {
    assert multiset(drop + [x]) == multiset(drop) + multiset{x};
  }

  lemma {:induction false} TallyDropsFloating(urgent: seq<Tx>, floating: seq<Tx>, rest: seq<Tx>, drop: seq<Tx>, x: Tx)
    requires multiset(floating) == multiset(rest) + multiset{x}
    ensures Tally(urgent, rest, drop) == Tally(urgent, floating, drop) - multiset{x}
  {
  }

  lemma {:induction false} EvictEnd(live: set<Tx>, before: multiset<Tx>, urgent: seq<Tx>, floating: seq<Tx>, drop: seq<Tx>, baseFee: Option<nat>)
    requires Evicting(live, before, urgent, floating, drop, baseFee)
    ensures Heap.IsHeap(urgent, Cheaper(baseFee)) && Heap.IsHeap(floating, Cheaper(None))
    ensures LiveSame(live, before, Tally(urgent, floating, drop))
    ensures forall i :: 0 <= i < |drop| ==> drop[i] in live
    ensures urgent == [] && floating == [] ==> LiveSame(live, before, multiset(drop))
  {
    TallyEmpty(drop);
  }

  lemma {:induction false} EvictStart(live: set<Tx>, urgent: seq<Tx>, floating: seq<Tx>, baseFee: Option<nat>)
    requires Heap.IsHeap(urgent, Cheaper(baseFee)) && Heap.IsHeap(floating, Cheaper(None))
    ensures Evicting(live, Tally(urgent, floating, []), urgent, floating, [], baseFee)
  {
  }

  /** Pushing the list back onto the urgent heap. */
  lemma {:induction false} PushBack(live: set<Tx>, before: multiset<Tx>, urgent: seq<Tx>, floating: seq<Tx>, drop: seq<Tx>, baseFee: Option<nat>)
    requires Evicting(live, before, urgent, floating, drop, baseFee) && drop != []
    ensures Evicting(live, before, Heap.Push(urgent, drop[0], Cheaper(baseFee)), floating, drop[1..], baseFee)
  {
    CheaperIsOrder(baseFee);
    Heap.PushHeap(urgent, drop[0], Cheaper(baseFee));
    assert drop == [drop[0]] + drop[1..];
    assert multiset(drop) == multiset{drop[0]} + multiset(drop[1..]);
    var more := Heap.Push(urgent, drop[0], Cheaper(baseFee));
    assert Tally(more, floating, drop[1..]) == Tally(urgent, floating, drop);
  }

  lemma {:induction false} NoSlots()
    ensures SeqSlots([]) == 0
  {
  }

  // ----- what is cheapest -----

  /** Nothing in the second list is cheaper than anything in the first. */
  ghost predicate NoDearer(fee: Option<nat>, low: seq<Tx>, high: seq<Tx>) {
    forall x, y :: x in low && y in high ==> !Cheaper(fee)(y, x)
  }

  lemma {:induction false} NoDearerPays(fee: Option<nat>, low: seq<Tx>, high: seq<Tx>)
    requires NoDearer(fee, low, high)
    ensures forall x, y :: x in low && y in high ==> !PaysLess(fee, y, x)
  {
    hide Cheaper, PaysLess;
    forall x, y | x in low && y in high ensures !PaysLess(fee, y, x) {
      PriceOrder(fee, y, x);
    }
  }

  lemma {:induction false} PopMembers(h: seq<Tx>, fee: Option<nat>)
    requires h != [] && Heap.IsHeap(h, Cheaper(fee))
    ensures forall y :: y in Heap.Pop(h, Cheaper(fee)) ==> y in h
    ensures forall y :: y in h ==> !Cheaper(fee)(y, h[0])
  {
    hide Heap.Pop, Cheaper, Heap.IsHeap;
    var r := Heap.Pop(h, Cheaper(fee));
    forall y | y in r ensures y in h {
      assert y in multiset(r);
      assert y in multiset(h);
    }
    CheaperIsOrder(fee);
    forall y | y in h ensures !Cheaper(fee)(y, h[0]) {
      var k :| 0 <= k < |h| && h[k] == y;
      Heap.FirstIsLeast(h, k, Cheaper(fee));
    }
  }

  lemma {:induction false} PushMembers(h: seq<Tx>, x: Tx, fee: Option<nat>)
    ensures forall y :: y in Heap.Push(h, x, Cheaper(fee)) ==> y in h || y == x
  {
    hide Heap.Push, Cheaper;
    var r := Heap.Push(h, x, Cheaper(fee));
    forall y | y in r ensures y in h || y == x {
      assert y in multiset(r);
      assert y in multiset(h) || y == x;
    }
  }

  lemma {:induction false} PopCheapest(fee: Option<nat>, low: seq<Tx>, h: seq<Tx>)
    requires h != [] && Heap.IsHeap(h, Cheaper(fee)) && NoDearer(fee, low, h)
    ensures NoDearer(fee, low + [h[0]], Heap.Pop(h, Cheaper(fee)))
  {
    hide Heap.Pop, Cheaper, Heap.IsHeap;
    PopMembers(h, fee);
  }

  lemma {:induction false} NothingDearer(fee: Option<nat>, high: seq<Tx>)
    ensures NoDearer(fee, [], high)
  {
  }

  lemma {:induction false} SameMembers(fee: Option<nat>, low: seq<Tx>, low': seq<Tx>, high: seq<Tx>)
    requires NoDearer(fee, low, high) && multiset(low') == multiset(low)
    ensures NoDearer(fee, low', high)
  {
    hide Cheaper;
    forall x | x in low' ensures x in low {
      assert x in multiset(low');
    }
  }

  /** What has left the urgent heap is no dearer than what is still there, and what has been taken from the
      floating heap is no dearer than what was there all along. */
  ghost predicate CheapestFirst(
    live: set<Tx>, u0: seq<Tx>, f0: seq<Tx>, u: seq<Tx>, f: seq<Tx>, drop: seq<Tx>, fee: Option<nat>
  ) {
    && (forall y :: y in u ==> y in u0)
    && (forall x, y :: (x in f || x in drop) && x !in f0 && y in u ==> !Cheaper(fee)(y, x))
    && (NoRepeats(live, u0, f0) ==>
          forall d, y :: d in drop && y in f && y in f0 && y in live ==> !Cheaper(None)(y, d))
  }

  /** By the caps: what was taken out of the urgent heap pays no more than what is still there, and, if no entry was
      repeated, what was taken has a fee cap no higher than what has floated all along. */
  ghost predicate PaysLeast(
    live: set<Tx>, u0: seq<Tx>, f0: seq<Tx>, u: seq<Tx>, f: seq<Tx>, drop: seq<Tx>, fee: Option<nat>
  ) {
    && (forall d, y :: d in drop && d !in f0 && y in u ==> !PaysLess(fee, y, d))
    && (NoRepeats(live, u0, f0) ==>
          forall d, y :: d in drop && y in f && y in f0 && y in live ==> d.gasFeeCap <= y.gasFeeCap && !PaysLess(None, y, d))
  }

  lemma {:induction false} CheapestPaysLeast(
    live: set<Tx>, u0: seq<Tx>, f0: seq<Tx>, u: seq<Tx>, f: seq<Tx>, drop: seq<Tx>, fee: Option<nat>
  )
    requires CheapestFirst(live, u0, f0, u, f, drop, fee)
    ensures PaysLeast(live, u0, f0, u, f, drop, fee)
  {
    hide Cheaper, Compare, NoRepeats;
    forall x, y ensures !Cheaper(fee)(y, x) ==> !PaysLess(fee, y, x) {
      PriceOrder(fee, y, x);
    }
    forall x, y ensures !Cheaper(None)(y, x) ==> !PaysLess(None, y, x) {
      PriceOrder(None, y, x);
    }
  }

  lemma {:induction false} CheapestStart(live: set<Tx>, u0: seq<Tx>, f0: seq<Tx>, fee: Option<nat>)
    ensures CheapestFirst(live, u0, f0, u0, f0, [], fee)
  {
  }

  lemma {:induction false} NotInBoth(live: set<Tx>, u0: seq<Tx>, f0: seq<Tx>, x: Tx)
    requires NoRepeats(live, u0, f0) && x in live && x in u0
    ensures x !in f0
  {
    assert multiset(u0)[x] >= 1;
    assert Tally(u0, f0, [])[x] <= 1;
    assert multiset(f0)[x] == 0;
    assert x !in multiset(f0);
  }

  lemma {:induction false} CheapestUrgent(
    live: set<Tx>, u0: seq<Tx>, f0: seq<Tx>, u: seq<Tx>, f: seq<Tx>, drop: seq<Tx>, fee: Option<nat>
  )
    requires CheapestFirst(live, u0, f0, u, f, drop, fee) && u != [] && Heap.IsHeap(u, Cheaper(fee))
    ensures CheapestFirst(live, u0, f0, Heap.Pop(u, Cheaper(fee)),
                          if u[0] in live then Heap.Push(f, u[0], Cheaper(None)) else f, drop, fee)
  {
    hide Heap.Pop, Heap.Push, Heap.IsHeap, Cheaper, NoRepeats;
    PopMembers(u, fee);
    PushMembers(f, u[0], None);
    if NoRepeats(live, u0, f0) && u[0] in live {
      NotInBoth(live, u0, f0, u[0]);
    }
  }

  lemma {:induction false} CheapestFloating(
    live: set<Tx>, u0: seq<Tx>, f0: seq<Tx>, u: seq<Tx>, f: seq<Tx>, drop: seq<Tx>, fee: Option<nat>
  )
    requires CheapestFirst(live, u0, f0, u, f, drop, fee) && f != [] && Heap.IsHeap(f, Cheaper(None))
    ensures CheapestFirst(live, u0, f0, u, Heap.Pop(f, Cheaper(None)),
                          if f[0] in live then drop + [f[0]] else drop, fee)
  {
    hide Heap.Pop, Heap.IsHeap, Cheaper, NoRepeats;
    PopMembers(f, None);
  }

  /** The transaction is the cheapest live one in either order, and no other live one floats. */
  ghost predicate Leads(live: set<Tx>, f0: seq<Tx>, fee: Option<nat>, x: Tx) {
    && x in live && (forall y :: y in live && y != x ==> Cheaper(fee)(x, y) && Cheaper(None)(x, y))
    && (forall y :: y in f0 && y in live ==> y == x)
  }

  /** As long as the heaps hold it, nothing else is taken. */
  ghost predicate TakenFirst(live: set<Tx>, u: seq<Tx>, f: seq<Tx>, drop: seq<Tx>, x: Tx) {
    && (x in u ==> forall y :: y in f && y in live ==> y == x)
    && (x in u || x in f ==> forall i :: 0 <= i < |drop| ==> drop[i] == x)
    && (forall i, j :: 0 <= i < j < |drop| && drop[j] == x ==> drop[i] == x)
  }

  ghost predicate LeadersFirst(live: set<Tx>, f0: seq<Tx>, fee: Option<nat>, u: seq<Tx>, f: seq<Tx>, drop: seq<Tx>) {
    forall x {:trigger Leads(live, f0, fee, x)} :: Leads(live, f0, fee, x) ==> TakenFirst(live, u, f, drop, x)
  }

  lemma {:induction false} LeadersStart(live: set<Tx>, f0: seq<Tx>, fee: Option<nat>, u: seq<Tx>)
    ensures LeadersFirst(live, f0, fee, u, f0, [])
  {
    hide Cheaper;
  }

  lemma {:induction false} LeadersUrgent(live: set<Tx>, f0: seq<Tx>, fee: Option<nat>, u: seq<Tx>, f: seq<Tx>, drop: seq<Tx>)
    requires LeadersFirst(live, f0, fee, u, f, drop) && u != [] && Heap.IsHeap(u, Cheaper(fee))
    ensures LeadersFirst(live, f0, fee, Heap.Pop(u, Cheaper(fee)),
                         if u[0] in live then Heap.Push(f, u[0], Cheaper(None)) else f, drop)
  {
    hide Heap.Pop, Heap.Push, Heap.IsHeap, Cheaper;
    PopMembers(u, fee);
    PushMembers(f, u[0], None);
  }

  lemma {:induction false} LeadersFloating(live: set<Tx>, f0: seq<Tx>, fee: Option<nat>, u: seq<Tx>, f: seq<Tx>, drop: seq<Tx>)
    requires LeadersFirst(live, f0, fee, u, f, drop) && f != [] && Heap.IsHeap(f, Cheaper(None))
    ensures LeadersFirst(live, f0, fee, u, Heap.Pop(f, Cheaper(None)), if f[0] in live then drop + [f[0]] else drop)
  {
    hide Heap.Pop, Heap.IsHeap, Cheaper;
    PopMembers(f, None);
  }

  lemma {:induction false} SeqSlotsAll(s: seq<Tx>, n: nat, x: Tx)
    requires n <= |s| && forall i :: 0 <= i < n ==> s[i] == x
    ensures SeqSlots(s) >= n * x.slots
    decreases |s|
  {
    if n < |s| {
      SeqSlotsAll(s[..|s| - 1], n, x);
    } else if n > 0 {
      SeqSlotsAll(s[..n - 1], n - 1, x);
      assert n * x.slots == (n - 1) * x.slots + x.slots;
    }
  }

  lemma {:induction false} CountFirst(s: seq<Tx>, x: Tx) returns (n: nat)
    requires forall i, j :: 0 <= i < j < |s| && s[j] == x ==> s[i] == x
    ensures n <= |s| && n == multiset(s)[x] && (forall i :: 0 <= i < n ==> s[i] == x) && forall i :: n <= i < |s| ==> s[i] != x
    decreases |s|
  {
    n := 0;
    if s != [] {
      var init := s[..|s| - 1];
      assert s == init + [s[|s| - 1]];
      if s[|s| - 1] == x {
        n := |s|;
        AllSame(s, x);
      } else {
        n := CountFirst(init, x);
      }
    }
  }

  lemma {:induction false} AllSame(s: seq<Tx>, x: Tx)
    requires forall i :: 0 <= i < |s| ==> s[i] == x
    ensures multiset(s)[x] == |s|
    decreases |s|
  {
    if s != [] {
      AllSame(s[..|s| - 1], x);
      assert s == s[..|s| - 1] + [s[|s| - 1]];
    }
  }

  /** A request within twice the slots of a repeated leader takes nothing but it. */
  lemma {:induction false} LeaderAlone(
    live: set<Tx>, before: multiset<Tx>, slots: int, f0: seq<Tx>, fee: Option<nat>, u: seq<Tx>, f: seq<Tx>, taken: seq<Tx>, x: Tx
  )
    requires Leads(live, f0, fee, x) && LeadersFirst(live, f0, fee, u, f, taken) && LiveSame(live, before, Tally(u, f, taken))
    requires Takes(live, before, slots, taken) && before[x] >= 2 && 0 < slots <= 2 * x.slots
    ensures Elements(taken) == {x}
  {
    hide Cheaper, Leads;
    assert TakenFirst(live, u, f, taken, x) by { hide TakenFirst; }
    LeadIsLive(live, f0, fee, x);
    var n := CountFirst(taken, x);
    assert Tally(u, f, taken)[x] == multiset(u)[x] + multiset(f)[x] + n;
    if n < before[x] {
      assert x in multiset(u) || x in multiset(f);
    } else if n < |taken| {
      SeqSlotsAll(taken[..|taken| - 1], n, x);
      TimesAtMost(2, n, x.slots);
    }
    assert forall i :: 0 <= i < |taken| ==> taken[i] == x;
    if taken == [] {
      EmptyTakesNothing(live, before, slots, x);
    }
    assert taken[0] == x;
  }

  /** Every repeated leader of the heaps before stale entries were popped is all that such a request takes. */
  lemma {:induction false} LeadersAlone(
    live: set<Tx>, before: multiset<Tx>, slots: int, f: seq<Tx>, f0: seq<Tx>, fee: Option<nat>, u': seq<Tx>, f': seq<Tx>, taken: seq<Tx>
  )
    requires forall x :: x in live ==> multiset(f0)[x] == multiset(f)[x]
    requires LeadersFirst(live, f0, fee, u', f', taken) && LiveSame(live, before, Tally(u', f', taken))
    requires Takes(live, before, slots, taken) && slots > 0
    ensures forall x {:trigger Leads(live, f, fee, x)} :: Leads(live, f, fee, x) && before[x] >= 2 && slots <= 2 * x.slots ==>
              Elements(taken) == {x}
  {
    hide LeadersFirst, LiveSame, Takes, Tally, Leads;
    forall x {:trigger Leads(live, f, fee, x)} | Leads(live, f, fee, x) && before[x] >= 2 && slots <= 2 * x.slots
      ensures Elements(taken) == {x}
    {
      LeadsSame(live, f, f0, fee, x);
      LeaderAlone(live, before, slots, f0, fee, u', f', taken, x);
    }
  }

  lemma {:induction false} LeadsSame(live: set<Tx>, f: seq<Tx>, f0: seq<Tx>, fee: Option<nat>, x: Tx)
    requires Leads(live, f, fee, x) && forall y :: y in live ==> multiset(f0)[y] == multiset(f)[y]
    ensures Leads(live, f0, fee, x)
  {
    hide Cheaper;
    forall y | y in f0 && y in live ensures y == x {
      assert y in multiset(f0) && y in multiset(f);
    }
  }

  lemma {:induction false} LeadIsLive(live: set<Tx>, f0: seq<Tx>, fee: Option<nat>, x: Tx)
    requires Leads(live, f0, fee, x)
    ensures x in live
  {
    hide Cheaper;
  }

  lemma {:induction false} EmptyTakesNothing(live: set<Tx>, before: multiset<Tx>, slots: int, x: Tx)
    requires Takes(live, before, slots, []) && x in live && before[x] > 0
    ensures slots <= 0
  {
  }

  lemma {:induction false} SeqSlotsAppend(s: seq<Tx>, x: Tx)
    ensures SeqSlots(s + [x]) == SeqSlots(s) + x.slots
  {
    assert (s + [x])[..|s|] == s;
  }

  /** A tracked set stays tracked by heaps that keep its members as often. */
  lemma {:induction false} StillTracked(live: set<Tx>, urgent: seq<Tx>, floating: seq<Tx>, urgent': seq<Tx>, floating': seq<Tx>)
    requires Tracked(live, urgent, floating)
    requires LiveSame(live, Tally(urgent, floating, []), Tally(urgent', floating', []))
    ensures Tracked(live, urgent', floating')
  {
    TrackedIff(live, urgent, floating);
    TrackedIff(live, urgent', floating');
  }

  lemma {:induction false} TallyEmpty(s: seq<Tx>)
    ensures Tally([], [], s) == multiset(s)
  {
  }

  // ----- what an eviction request takes -----

  /** What a request for slots takes out of heaps with the given entries: live transactions, none more often than it
      occurs, just enough of them, or all of them if all are not enough. */
  ghost predicate Takes(live: set<Tx>, before: multiset<Tx>, slots: int, taken: seq<Tx>) {
    && (forall i :: 0 <= i < |taken| ==> taken[i] in live)
    && (forall x :: x in live ==> multiset(taken)[x] <= before[x])
    && (taken != [] ==> SeqSlots(taken[..|taken| - 1]) < slots)
    && (SeqSlots(taken) < slots ==> LiveSame(live, before, multiset(taken)))
  }

  lemma {:induction false} TakesEnough(live: set<Tx>, before: multiset<Tx>, u: seq<Tx>, f: seq<Tx>, slots: int, taken: seq<Tx>)
    requires forall i :: 0 <= i < |taken| ==> taken[i] in live
    requires LiveSame(live, before, Tally(u, f, taken))
    requires taken != [] ==> SeqSlots(taken[..|taken| - 1]) < slots
    requires SeqSlots(taken) < slots ==> LiveSame(live, before, multiset(taken))
    ensures Takes(live, before, slots, taken)
    ensures SeqSlots(taken) >= slots <==> LiveSlots(live, before) >= slots
  {
    LiveSlotsOf(live, taken);
    LiveSlotsAtMost(live, multiset(taken), before);
    if SeqSlots(taken) < slots {
      LiveSlotsAtMost(live, before, multiset(taken));
    }
  }

  ghost function Elements(s: seq<Tx>): set<Tx> {
    set x | x in s
  }

  ghost predicate Distinct(s: seq<Tx>) {
    forall i, j :: 0 <= i < j < |s| ==> s[i] != s[j]
  }

  lemma {:induction false} DistinctCount(s: seq<Tx>)
    ensures Distinct(s) <==> forall x :: multiset(s)[x] <= 1
  {
    if s != [] {
      var init, last := s[..|s| - 1], s[|s| - 1];
      assert s == init + [last];
      DistinctCount(init);
      AppendOne(init, last);
      assert multiset(s) == multiset(init) + multiset{last};
      assert last in Elements(init) <==> last in multiset(init);
      if Distinct(s) {
        assert multiset(init)[last] == 0;
      } else if Distinct(init) {
        assert multiset(s)[last] >= 2;
      } else {
        var x :| multiset(init)[x] > 1;
        assert multiset(s)[x] > 1;
      }
    }
  }

  lemma {:induction false} AppendOne(init: seq<Tx>, x: Tx)
    ensures Elements(init + [x]) == Elements(init) + {x}
    ensures Distinct(init + [x]) <==> Distinct(init) && x !in Elements(init)
  {
    var s := init + [x];
    if Distinct(s) {
      forall i | 0 <= i < |init| ensures init[i] != x {
        assert s[i] != s[|init|];
      }
      assert forall i, j :: 0 <= i < j < |init| ==> s[i] == init[i] && s[j] == init[j];
    }
  }

  /** Exactly when an eviction request can take an entry twice, by the heaps it starts from: if no live entry is
      repeated no request does, and otherwise every request for more than all of them does. */
  lemma {:induction false} RepeatsAreTaken(live: set<Tx>, urgent: seq<Tx>, floating: seq<Tx>, slots: int, taken: seq<Tx>)
    requires Takes(live, Tally(urgent, floating, []), slots, taken)
    ensures NoRepeats(live, urgent, floating) ==> Distinct(taken)
    ensures slots > LiveSlots(live, Tally(urgent, floating, [])) ==> (NoRepeats(live, urgent, floating) <==> Distinct(taken))
  {
    hide SeqSlots, LiveSlots, Distinct;
    var before := Tally(urgent, floating, []);
    DistinctCount(taken);
    if NoRepeats(live, urgent, floating) {
      forall x ensures multiset(taken)[x] <= 1 {
        TakenIsLive(live, taken, x);
      }
    }
    if slots > LiveSlots(live, before) {
      LiveSlotsOf(live, taken);
      LiveSlotsAtMost(live, multiset(taken), before);
    }
  }

  lemma {:induction false} TakenIsLive(live: set<Tx>, taken: seq<Tx>, x: Tx)
    requires forall i :: 0 <= i < |taken| ==> taken[i] in live
    ensures x in live || multiset(taken)[x] == 0
  {
    assert x in multiset(taken) <==> x in taken;
  }

  lemma {:induction false} FreedOne(s: set<Tx>, x: Tx)
    ensures SlotSum(s + {x}) == SlotSum(s) + if x in s then 0 else x.slots
  {
    if x in s {
      assert s + {x} == s;
    } else {
      SlotSumTake(s + {x}, x);
      assert s + {x} - {x} == s;
    }
  }

  /** Removing evicted transactions frees the slots they were counted for exactly if none was evicted twice. */
  lemma {:induction false} FreedSlots(drop: seq<Tx>)
    requires forall i :: 0 <= i < |drop| ==> drop[i].slots > 0
    ensures SlotSum(Elements(drop)) <= SeqSlots(drop)
    ensures SlotSum(Elements(drop)) == SeqSlots(drop) <==> Distinct(drop)
    decreases |drop|
  {
    if drop != [] {
      var init, x := drop[..|drop| - 1], drop[|drop| - 1];
      assert drop == init + [x];
      FreedSlots(init);
      SeqSlotsAppend(init, x);
      AppendOne(init, x);
      FreedOne(Elements(init), x);
    }
  }

  lemma {:induction false} DistinctFrees(drop: seq<Tx>)
    requires Distinct(drop)
    ensures SlotSum(Elements(drop)) == SeqSlots(drop)
    decreases |drop|
  {
    if drop != [] {
      var init, x := drop[..|drop| - 1], drop[|drop| - 1];
      assert drop == init + [x];
      AppendOne(init, x);
      DistinctFrees(init);
      SeqSlotsAppend(init, x);
      FreedOne(Elements(init), x);
    }
  }

  lemma {:induction false} TakesSame(live: set<Tx>, a: multiset<Tx>, b: multiset<Tx>, slots: int, taken: seq<Tx>)
    requires LiveSame(live, a, b)
    ensures LiveSlots(live, a) == LiveSlots(live, b)
    ensures Takes(live, b, slots, taken) ==> Takes(live, a, slots, taken)
  {
    LiveSlotsAtMost(live, a, b);
    LiveSlotsAtMost(live, b, a);
  }

  /** Exactly when requests free what they count, by the heaps they start from. */
  lemma {:induction false} EvictionFrees(live: set<Tx>, urgent: seq<Tx>, floating: seq<Tx>, slots: int, taken: seq<Tx>)
    requires Takes(live, Tally(urgent, floating, []), slots, taken) && forall x :: x in live ==> x.slots > 0
    ensures NoRepeats(live, urgent, floating) ==> SlotSum(Elements(taken)) == SeqSlots(taken)
    ensures slots > LiveSlots(live, Tally(urgent, floating, [])) ==>
              (NoRepeats(live, urgent, floating) <==> SlotSum(Elements(taken)) == SeqSlots(taken))
  {
    hide SeqSlots, LiveSlots, Distinct, NoRepeats, LiveSame;
    RepeatsAreTaken(live, urgent, floating, slots, taken);
    FreedSlots(taken);
  }

  class PricedList {
    const all: TxLookup
    var urgent: seq<Tx>
    var floating: seq<Tx>
    var baseFee: Option<nat>
    var stales: int

    ghost predicate Heaps()
      reads this
    {
      Heap.IsHeap(urgent, Cheaper(baseFee)) && Heap.IsHeap(floating, Cheaper(None))
    }

    ghost predicate Valid()
      reads this, all
    {
      Heaps() && Tracked(all.remotes, urgent, floating)
    }

    constructor (all: TxLookup)
      requires all.remotes == {}
      ensures Valid() && this.all == all && urgent == [] && floating == [] && stales == 0 && baseFee == None
    {
      this.all := all;
      urgent, floating, baseFee, stales := [], [], None, 0;
    }

    method Put(tx: Tx, local: bool)
      requires Heaps()
      modifies this`urgent, this`floating, this`stales
      ensures Heaps() && baseFee == old(baseFee) && stales == old(stales)
      ensures local ==> urgent == old(urgent) && floating == old(floating)
      ensures !local ==> multiset(urgent) == multiset(old(urgent)) + multiset{tx} && floating == old(floating)
    {
      if local {
        return;
      }
      CheaperIsOrder(baseFee);
      Heap.PushHeap(urgent, tx, Cheaper(baseFee));
      urgent := Heap.Push(urgent, tx, Cheaper(baseFee));
    }

    /** The remote transactions, each once, in some order. */
    method ListRemotes() returns (s: seq<Tx>)
      ensures multiset(s) == multiset(all.remotes)
    {
      s := [];
      var rest := all.remotes;
      while rest != {}
        invariant rest <= all.remotes && multiset(s) == multiset(all.remotes - rest)
        decreases |rest|
      {
        var tx :| tx in rest;
        assert all.remotes - (rest - {tx}) == (all.remotes - rest) + {tx};
        assert multiset((all.remotes - rest) + {tx}) == multiset(all.remotes - rest) + multiset{tx};
        s := s + [tx];
        rest := rest - {tx};
      }
      assert all.remotes - {} == all.remotes;
    }

    /** Rebuilds the heaps: afterwards they hold exactly the remote transactions, each once, the cheapest fifth of
        them in the floating heap. */
    method Reheap()
      modifies this`urgent, this`floating, this`stales
      ensures Valid() && Tally(urgent, floating, []) == multiset(all.remotes)
      ensures |floating| == |all.remotes| * FLOATING_RATIO / (URGENT_RATIO + FLOATING_RATIO)
      ensures NoDearer(baseFee, floating, urgent) && baseFee == old(baseFee) && stales == 0
      ensures forall x, y :: x in floating && y in urgent ==> !PaysLess(baseFee, y, x)
    {
      hide Heap.Pop, Heap.Init, Heap.IsHeap, Cheaper, NoDearer;
      stales := 0;
      urgent := ListRemotes();
      InitIsHeap(urgent, baseFee);
      urgent := Heap.Init(urgent, Cheaper(baseFee));
      CheaperIsOrder(baseFee);
      var floatingCount := |urgent| * FLOATING_RATIO / (URGENT_RATIO + FLOATING_RATIO);
      floating := [];
      assert |multiset(urgent)| == |multiset(all.remotes)|;
      NothingDearer(baseFee, urgent);
      for i := 0 to floatingCount
        invariant |floating| == i && |urgent| + |floating| == |all.remotes| && Heap.IsHeap(urgent, Cheaper(baseFee))
        invariant NoDearer(baseFee, floating, urgent)
        invariant multiset(urgent) + multiset(floating) == multiset(all.remotes)
        invariant baseFee == old(baseFee) && stales == 0
      {
        Heap.PopHeap(urgent, Cheaper(baseFee));
        PopCheapest(baseFee, floating, urgent);
        floating := floating + [urgent[0]];
        urgent := Heap.Pop(urgent, Cheaper(baseFee));
      }
      InitIsHeap(floating, None);
      SameMembers(baseFee, floating, Heap.Init(floating, Cheaper(None)), urgent);
      floating := Heap.Init(floating, Cheaper(None));
      NoDearerPays(baseFee, floating, urgent);
      TrackedIff(all.remotes, urgent, floating);
    }

    /** Leaves the heaps as they are until the stale counter exceeds a quarter of their entries, then rebuilds them. */
    method Removed(count: nat)
      requires Heaps()
      modifies this`urgent, this`floating, this`stales
      ensures Heaps() && baseFee == old(baseFee)
      ensures if old(stales) + count <= (|old(urgent)| + |old(floating)|) / 4
              then urgent == old(urgent) && floating == old(floating) && stales == old(stales) + count
              else Valid() && Tally(urgent, floating, []) == multiset(all.remotes) && stales == 0
    {
      stales := stales + count;
      if stales <= (|urgent| + |floating|) / 4 {
        return;
      }
      Reheap();
    }

    method SetBaseFee(fee: nat)
      modifies this
      ensures Valid() && baseFee == Some(fee) && Tally(urgent, floating, []) == multiset(all.remotes)
    {
      baseFee := Some(fee);
      Reheap();
    }

    /** Is the transaction no better priced than every remote one, and is there any? Stale heads are popped on the way. */
    method Underpriced(tx: Tx) returns (underpriced: bool)
      requires Valid()
      modifies this`urgent, this`floating, this`stales
      ensures Valid() && baseFee == old(baseFee)
      ensures LiveSame(all.remotes, old(Tally(urgent, floating, [])), Tally(urgent, floating, []))
      ensures underpriced <==> IsUnderpriced(all.remotes, old(urgent), old(floating), baseFee, tx)
      // without a base fee: there are remote transactions, and none has lower caps
      ensures baseFee.None? ==>
                (underpriced <==> all.remotes != {} && NoLowerCaps(all.remotes, tx))
      ensures stales == old(stales) - (|old(urgent)| - |urgent|) - (|old(floating)| - |floating|)
      ensures forall x :: x in all.remotes ==> multiset(floating)[x] == multiset(old(floating))[x]
    {
      hide Compare, Cheaper, Tally, NoLowerCaps, PaysLess;
      if baseFee.None? {
        UnderpricedNoFee(all.remotes, urgent, floating, baseFee, tx);
      }
      ghost var before := Tally(urgent, floating, []);
      var u := PopStale(urgent, baseFee);
      CleanTally(all.remotes, urgent, u, floating, floating);
      NoneCheaperSame(all.remotes, urgent, u, baseFee, tx);
      urgent := u;
      var urgentUnder := u != [] && Compare(baseFee, u[0], tx) >= 0;
      StillTracked(all.remotes, old(urgent), floating, urgent, floating);
      if !(urgentUnder || u == []) {
        HeadDecides(all.remotes, urgent, baseFee, tx);
        return false;
      }
      if u != [] {
        HeadDecides(all.remotes, urgent, baseFee, tx);
      }
      var f := PopStale(floating, None);
      CleanTally(all.remotes, urgent, urgent, floating, f);
      NoneCheaperSame(all.remotes, floating, f, None, tx);
      StillTracked(all.remotes, urgent, floating, urgent, f);
      floating := f;
      if f != [] {
        HeadDecides(all.remotes, floating, None, tx);
      }
      underpriced := (f == [] || Compare(None, f[0], tx) >= 0) && (u != [] || f != []);
    }

    /** Pops heads that are no longer remote transactions of the pool. */
    method PopStale(h: seq<Tx>, fee: Option<nat>) returns (r: seq<Tx>)
      requires Heap.IsHeap(h, Cheaper(fee))
      modifies this`stales
      ensures Heap.IsHeap(r, Cheaper(fee)) && (r != [] ==> r[0] in all.remotes)
      ensures stales == old(stales) - (|h| - |r|)
      ensures forall x :: x in all.remotes ==> multiset(r)[x] == multiset(h)[x]
    {
      r := h;
      CheaperIsOrder(fee);
      while |r| > 0 && r[0] !in all.remotes
        invariant Heap.IsHeap(r, Cheaper(fee)) && stales == old(stales) - (|h| - |r|)
        invariant forall x :: x in all.remotes ==> multiset(r)[x] == multiset(h)[x]
        decreases |r|
      {
        Heap.PopHeap(r, Cheaper(fee));
        stales := stales - 1;
        r := Heap.Pop(r, Cheaper(fee));
      }
    }

    /** Takes the cheapest transactions out of the heaps until they free the wanted slots.
        If that fails and is not forced, every live transaction is back in the heaps as often as before. */
    method Discard(slots: int, force: bool) returns (drop: seq<Tx>, success: bool, ghost taken: seq<Tx>)
      requires Valid()
      modifies this`urgent, this`floating, this`stales
      ensures Heaps() && baseFee == old(baseFee)
      ensures Takes(all.remotes, old(Tally(urgent, floating, [])), slots, taken)
      ensures success == (force || LiveSlots(all.remotes, old(Tally(urgent, floating, []))) >= slots)
      ensures drop == if success then taken else []
      ensures LiveSame(all.remotes, old(Tally(urgent, floating, [])), Tally(urgent, floating, drop))
      ensures success ==> CheapestFirst(all.remotes, old(urgent), old(floating), urgent, floating, drop, baseFee)
      ensures success ==> PaysLeast(all.remotes, old(urgent), old(floating), urgent, floating, drop, baseFee)
      ensures success ==> LeadersFirst(all.remotes, old(floating), baseFee, urgent, floating, drop)
      ensures !success ==> Valid()
      // the stale counter falls by one for each stale entry that left the heaps
      ensures stales == old(stales) + |urgent| + |floating| + |drop| - |old(urgent)| - |old(floating)|
    {
      hide Heap.Pop, Heap.Push, Heap.IsHeap, Cheaper, Evicting, CheapestFirst, PaysLeast, LeadersFirst, LiveSame, LiveSlots, Takes, Tally, Tracked, SeqSlots;
      drop := [];
      var left := slots;
      NoSlots();
      EvictStart(all.remotes, urgent, floating, baseFee);
      CheapestStart(all.remotes, urgent, floating, baseFee);
      LeadersStart(all.remotes, floating, baseFee, urgent);
      ghost var before := Tally(urgent, floating, []);
      while left > 0
        invariant left == slots - SeqSlots(drop) && baseFee == old(baseFee)
        invariant Evicting(all.remotes, before, urgent, floating, drop, baseFee)
        invariant CheapestFirst(all.remotes, old(urgent), old(floating), urgent, floating, drop, baseFee)
        invariant LeadersFirst(all.remotes, old(floating), baseFee, urgent, floating, drop)
        invariant drop != [] ==> SeqSlots(drop[..|drop| - 1]) < slots
        invariant stales == old(stales) + |urgent| + |floating| + |drop| - |old(urgent)| - |old(floating)|
        decreases 2 * |urgent| + |floating|
      {
        if |urgent| * FLOATING_RATIO > |floating| * URGENT_RATIO {
          EvictEnd(all.remotes, before, urgent, floating, drop, baseFee);
          CheapestUrgent(all.remotes, old(urgent), old(floating), urgent, floating, drop, baseFee);
          EvictUrgent(all.remotes, before, urgent, floating, drop, baseFee);
          LeadersUrgent(all.remotes, old(floating), baseFee, urgent, floating, drop);
          var tx := urgent[0];
          urgent := Heap.Pop(urgent, Cheaper(baseFee));
          if tx !in all.remotes {
            stales := stales - 1;
          } else {
            floating := Heap.Push(floating, tx, Cheaper(None));
          }
        } else {
          if |floating| == 0 {
            break;
          }
          EvictEnd(all.remotes, before, urgent, floating, drop, baseFee);
          CheapestFloating(all.remotes, old(urgent), old(floating), urgent, floating, drop, baseFee);
          EvictFloating(all.remotes, before, urgent, floating, drop, baseFee);
          LeadersFloating(all.remotes, old(floating), baseFee, urgent, floating, drop);
          var tx := floating[0];
          floating := Heap.Pop(floating, Cheaper(None));
          if tx !in all.remotes {
            stales := stales - 1;
          } else {
            SeqSlotsAppend(drop, tx);
            assert (drop + [tx])[..|drop|] == drop;
            drop := drop + [tx];
            left := left - tx.slots;
          }
        }
      }
      taken := drop;
      EvictEnd(all.remotes, before, urgent, floating, drop, baseFee);
      TakesEnough(all.remotes, before, urgent, floating, slots, taken);
      if left > 0 && !force {
        var i := 0;
        assert drop[0..] == drop;
        while i < |drop|
          invariant 0 <= i <= |drop| && baseFee == old(baseFee)
          invariant Evicting(all.remotes, before, urgent, floating, drop[i..], baseFee)
          invariant stales == old(stales) + |urgent| + |floating| + |drop| - i - |old(urgent)| - |old(floating)|
        {
          PushBack(all.remotes, before, urgent, floating, drop[i..], baseFee);
          assert drop[i..][1..] == drop[i + 1..];
          urgent := Heap.Push(urgent, drop[i], Cheaper(baseFee));
          i := i + 1;
        }
        assert drop[i..] == [];
        EvictEnd(all.remotes, before, urgent, floating, [], baseFee);
        drop := [];
        StillTracked(all.remotes, old(urgent), old(floating), urgent, floating);
        return drop, false, taken;
      }
      success := true;
      CheapestPaysLeast(all.remotes, old(urgent), old(floating), urgent, floating, drop, baseFee);
    }
  }

  /** Adds remote transactions to an empty pool. */
  method AddNew(txs: seq<Tx>) returns (all: TxLookup, priced: PricedList)
    requires Distinct(txs)
    ensures fresh(all) && fresh(priced) && priced.all == all && all.Valid() && priced.Heaps()
    ensures all.locals == {} && all.remotes == Elements(txs)
    ensures multiset(priced.urgent) == multiset(txs) && priced.floating == [] && priced.stales == 0
  {
    hide Distinct, Heap.IsHeap, Cheaper, SlotSum;
    all := new TxLookup();
    priced := new PricedList(all);
    for i := 0 to |txs|
      invariant fresh(all) && fresh(priced) && priced.all == all && all.Valid() && priced.Heaps()
      invariant all.locals == {} && all.remotes == Elements(txs[..i])
      invariant multiset(priced.urgent) == multiset(txs[..i]) && priced.floating == [] && priced.stales == 0
    {
      assert txs[..i + 1] == txs[..i] + [txs[i]];
      AppendOne(txs[..i], txs[i]);
      DistinctPrefix(txs, i + 1);
      all.Add(txs[i], false);
      priced.Put(txs[i], false);
    }
    assert txs[..|txs|] == txs;
  }

  /** A run that repeats an entry: with enough other entries in the heaps, a transaction is removed from the pool,
      its stale entry stays because the heaps are not rebuilt yet, and then the transaction is added again. */
  method RemoveAndAddAgain(txs: seq<Tx>) returns (all: TxLookup, priced: PricedList)
    requires |txs| >= 4 && Distinct(txs)
    ensures fresh(all) && fresh(priced) && priced.all == all && all.Valid() && priced.Valid()
    ensures all.locals == {} && all.remotes == Elements(txs)
    ensures !NoRepeats(all.remotes, priced.urgent, priced.floating) && priced.stales == 1
  {
    hide Distinct, Heap.IsHeap, Cheaper, SlotSum, Tracked, NoRepeats;
    all, priced := AddNew(txs);
    assert |priced.urgent| == |multiset(priced.urgent)| == |multiset(txs)| == |txs|;
    var tx := txs[0];
    all.Remove(tx);
    priced.Removed(1);
    all.Add(tx, false);
    priced.Put(tx, false);
    assert all.remotes == Elements(txs);
    TwiceTracked(txs, priced.urgent, tx);
  }

  lemma {:induction false} TwiceTracked(txs: seq<Tx>, urgent: seq<Tx>, tx: Tx)
    requires tx in txs && multiset(urgent) == multiset(txs) + multiset{tx}
    ensures Tracked(Elements(txs), urgent, []) && !NoRepeats(Elements(txs), urgent, [])
  {
    assert tx in multiset(txs);
    assert Tally(urgent, [], [])[tx] >= 2;
    forall x | x in Elements(txs) ensures x in Tally(urgent, [], []) {
      assert x in multiset(txs);
    }
    TrackedIff(Elements(txs), urgent, []);
  }

  lemma {:induction false} DistinctPrefix(s: seq<Tx>, n: nat)
    requires Distinct(s) && n <= |s|
    ensures Distinct(s[..n])
  {
  }

  lemma {:induction false} InitIsHeap(s: seq<Tx>, baseFee: Option<nat>)
    ensures Heap.IsHeap(Heap.Init(s, Cheaper(baseFee)), Cheaper(baseFee))
  {
    CheaperIsOrder(baseFee);
    assert Heap.HeapFrom(s, |s| / 2, Cheaper(baseFee));
    Heap.InitHeap(s, |s| / 2, Cheaper(baseFee));
  }

  lemma {:induction false} CleanTally(live: set<Tx>, u: seq<Tx>, u': seq<Tx>, f: seq<Tx>, f': seq<Tx>)
    requires forall x :: x in live ==> multiset(u')[x] == multiset(u)[x] && multiset(f')[x] == multiset(f)[x]
    ensures LiveSame(live, Tally(u, f, []), Tally(u', f', []))
  {
  }
}
