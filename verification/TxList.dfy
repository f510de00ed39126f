/** An account's transaction list: a sorted map with cost and gas caps, gap-free in strict mode. */
module TxList {
  import opened Common
  import opened Transactions
  import opened SortedMap

  /** Gap-free nonces. */
  ghost predicate Contiguous(items: Items) {
    forall a, b, c {:trigger a in items, b in items, c in items} ::
      a in items && c in items && a <= b <= c ==> b in items
  }

  /** Either part of a gap-free collection cut at a nonce is gap-free. */
  lemma {:induction false} CutContiguous(whole: Items, low: Items, high: Items)
    requires Splits(whole, low, high) && Contiguous(whole)
    ensures Contiguous(low) && Contiguous(high)
  {
    forall a, b, c | a in low && c in low && a <= b <= c ensures b in low {
      assert b in whole;
    }
    forall a, b, c | a in high && c in high && a <= b <= c ensures b in high {
      assert b in whole;
    }
  }

  // ----- replacing a transaction -----

  /** The newcomer bids more than the transaction it replaces, by at least the bump percentage rounded down. */
  predicate Outbids(tx: Tx, prev: Tx, bump: nat) {
    && tx.gasFeeCap > prev.gasFeeCap && 100 * tx.gasFeeCap + 99 >= (100 + bump) * prev.gasFeeCap
    && tx.gasTipCap > prev.gasTipCap && 100 * tx.gasTipCap + 99 >= (100 + bump) * prev.gasTipCap
  }

  predicate Accepts(items: Items, tx: Tx, bump: nat) {
    tx.nonce in items ==> Outbids(tx, items[tx.nonce], bump)
  }

  lemma {:induction false} Threshold(x: nat, y: nat)
    ensures x >= y / 100 <==> 100 * x + 99 >= y
  {
  }

  // ----- filtering by cost and gas -----

  predicate Exceeds(tx: Tx, costLimit: nat, gasLimit: nat) {
    tx.gas > gasLimit || tx.cost > costLimit
  }

  function Exceeding(costLimit: nat, gasLimit: nat): Tx -> bool {
    (tx: Tx) => Exceeds(tx, costLimit, gasLimit)
  }

  /** A transaction above some transaction over the limits. */
  predicate Stranded(items: Items, n: nat, costLimit: nat, gasLimit: nat) {
    exists m :: m in items && m < n && Exceeds(items[m], costLimit, gasLimit)
  }

  /** What filtering leaves: what is within the limits and, in strict mode, not above anything over them. */
  function Affordable(items: Items, strict: bool, costLimit: nat, gasLimit: nat): Items {
    map n | n in items && !Exceeds(items[n], costLimit, gasLimit)
            && !(strict && Stranded(items, n, costLimit, gasLimit)) :: items[n]
  }

  function Invalidated(items: Items, strict: bool, costLimit: nat, gasLimit: nat): Items {
    map n | n in items && !Exceeds(items[n], costLimit, gasLimit)
            && strict && Stranded(items, n, costLimit, gasLimit) :: items[n]
  }

  /** The caps bound every transaction. */
  ghost predicate Bounded(items: Items, costcap: nat, gascap: nat) {
    forall n :: n in items ==> items[n].cost <= costcap && items[n].gas <= gascap
  }

  lemma {:induction false} NothingListed()
    ensures Enumerates(map[], [])
  {
  }

  lemma {:induction false} NothingExceeds(items: Items, strict: bool, costLimit: nat, gasLimit: nat)
    requires forall n :: n in items ==> !Exceeds(items[n], costLimit, gasLimit)
    ensures Affordable(items, strict, costLimit, gasLimit) == items
    ensures Selected(items, Exceeding(costLimit, gasLimit)) == map[]
    ensures Invalidated(items, strict, costLimit, gasLimit) == map[]
  {
  }

  ghost predicate IsLowest(removed: seq<Tx>, lowest: nat) {
    && (forall i :: 0 <= i < |removed| ==> lowest <= removed[i].nonce)
    && (exists i :: 0 <= i < |removed| && lowest == removed[i].nonce)
  }

  /** Filtering what is within the limits by the lowest removed nonce is filtering by being stranded. */
  lemma {:induction false} AboveLowest(items: Items, costLimit: nat, gasLimit: nat, removed: seq<Tx>, lowest: nat)
    requires Keyed(items) && Enumerates(Selected(items, Exceeding(costLimit, gasLimit)), removed)
    requires IsLowest(removed, lowest)
    ensures var within := Kept(items, Exceeding(costLimit, gasLimit));
            && Kept(within, Above(lowest)) == Affordable(items, true, costLimit, gasLimit)
            && Selected(within, Above(lowest)) == Invalidated(items, true, costLimit, gasLimit)
  {
    LowestExceeds(items, costLimit, gasLimit, removed, lowest);
    forall n | n in items && !Exceeds(items[n], costLimit, gasLimit)
      ensures Stranded(items, n, costLimit, gasLimit) <==> n > lowest
    {
    }
  }

  lemma {:induction false} LowestExceeds(items: Items, costLimit: nat, gasLimit: nat, removed: seq<Tx>, lowest: nat)
    requires Keyed(items) && Enumerates(Selected(items, Exceeding(costLimit, gasLimit)), removed)
    requires IsLowest(removed, lowest)
    ensures lowest in items && Exceeds(items[lowest], costLimit, gasLimit)
    ensures forall n :: n in items && Exceeds(items[n], costLimit, gasLimit) ==> lowest <= n
  {
    var gone := Selected(items, Exceeding(costLimit, gasLimit));
    var i :| 0 <= i < |removed| && lowest == removed[i].nonce;
    assert Holds(gone, removed[i]);
    forall n | n in items && Exceeds(items[n], costLimit, gasLimit) ensures lowest <= n {
      assert n in gone && Listed(removed, n);
    }
  }

  lemma {:induction false} RemovedNonces(items: Items, costLimit: nat, gasLimit: nat, removed: seq<Tx>)
    requires Keyed(items) && Enumerates(Selected(items, Exceeding(costLimit, gasLimit)), removed)
    ensures forall i :: 0 <= i < |removed| ==> removed[i].nonce <= MAX_UINT64
  {
    forall i | 0 <= i < |removed| ensures removed[i].nonce <= MAX_UINT64 {
      assert Holds(Selected(items, Exceeding(costLimit, gasLimit)), removed[i]);
    }
  }

  lemma {:induction false} LooseFilter(items: Items, costLimit: nat, gasLimit: nat)
    ensures Affordable(items, false, costLimit, gasLimit) == Kept(items, Exceeding(costLimit, gasLimit))
    ensures Invalidated(items, false, costLimit, gasLimit) == map[]
  {
  }

  /** Strict filtering cuts the list at the lowest nonce over the limits. */
  lemma {:induction false} FilterCuts(items: Items, costLimit: nat, gasLimit: nat)
    ensures var left := Affordable(items, true, costLimit, gasLimit);
            Splits(items, left, items - left.Keys)
  {
    var left := Affordable(items, true, costLimit, gasLimit);
    forall a, b | a in left && b in items - left.Keys ensures a < b {
      assert !Stranded(items, a, costLimit, gasLimit);
      if Exceeds(items[b], costLimit, gasLimit) {
        assert b != a && !(b < a);
      } else {
        var m :| m in items && m < b && Exceeds(items[m], costLimit, gasLimit);
        assert m != a && !(m < a);
      }
    }
  }

  class TxList {
    const strict: bool
    const txs: TxSortedMap
    var costcap: nat
    var gascap: nat

    ghost predicate Valid()
      reads this, txs
    {
      txs.Valid() && Bounded(txs.items, costcap, gascap)
    }

    constructor (strict: bool)
      ensures Valid() && fresh(txs) && this.strict == strict && txs.items == map[]
    {
      this.strict := strict;
      txs := new TxSortedMap();
      costcap, gascap := 0, 0;
    }

    /** Inserts the transaction unless an older one holds its nonce and is not outbid. */
    method Add(tx: Tx, priceBump: nat) returns (inserted: bool, prev: Option<Tx>)
      requires Valid() && tx.nonce <= MAX_UINT64
      modifies this, txs
      ensures Valid()
      ensures inserted == Accepts(old(txs.items), tx, priceBump)
      ensures txs.items == if inserted then old(txs.items)[tx.nonce := tx] else old(txs.items)
      ensures prev == if inserted && tx.nonce in old(txs.items) then Some(old(txs.items[tx.nonce])) else None
    {
      prev := if tx.nonce in txs.items then Some(txs.items[tx.nonce]) else None;
      if prev.Some? {
        var held := prev.value;
        if held.gasFeeCap >= tx.gasFeeCap || held.gasTipCap >= tx.gasTipCap {
          return false, None;
        }
        var a := 100 + priceBump;
        Threshold(tx.gasFeeCap, a * held.gasFeeCap);
        Threshold(tx.gasTipCap, a * held.gasTipCap);
        if tx.gasFeeCap < a * held.gasFeeCap / 100 || tx.gasTipCap < a * held.gasTipCap / 100 {
          return false, None;
        }
      }
      txs.Put(tx);
      if costcap < tx.cost {
        costcap := tx.cost;
      }
      if gascap < tx.gas {
        gascap := tx.gas;
      }
      return true, prev;
    }

    method Forward(threshold: nat) returns (removed: seq<Tx>)
      requires Valid()
      modifies txs
      ensures Valid()
      ensures txs.items == Kept(old(txs.items), Below(threshold))
      ensures Lists(Selected(old(txs.items), Below(threshold)), removed)
      ensures Contiguous(old(txs.items)) ==> Contiguous(txs.items)
    {
      hide Keyed, Indexes, Lists;
      ForwardCuts(txs.items, threshold);
      removed := txs.Forward(threshold);
      if Contiguous(old(txs.items)) {
        CutContiguous(old(txs.items), Selected(old(txs.items), Below(threshold)), txs.items);
      }
    }

    /** Removes what is over the limits and, in strict mode, everything above; the caps only save a scan. */
    method Filter(costLimit: nat, gasLimit: nat) returns (removed: seq<Tx>, invalids: seq<Tx>)
      requires Valid()
      modifies this, txs
      ensures Valid()
      ensures txs.items == Affordable(old(txs.items), strict, costLimit, gasLimit)
      ensures Enumerates(Selected(old(txs.items), Exceeding(costLimit, gasLimit)), removed)
      ensures Enumerates(Invalidated(old(txs.items), strict, costLimit, gasLimit), invalids)
      ensures strict && Contiguous(old(txs.items)) ==> Contiguous(txs.items)
    {
      hide Keyed, Indexes, Lists, Enumerates, Selected, Kept, Affordable, Invalidated, Splits, Contiguous;
      removed, invalids := [], [];
      NothingListed();
      if costcap <= costLimit && gascap <= gasLimit {
        NothingExceeds(txs.items, strict, costLimit, gasLimit);
        return;
      }
      AffordableBounded(txs.items, strict, costLimit, gasLimit);
      costcap, gascap := costLimit, gasLimit;
      removed := txs.Filter(Exceeding(costLimit, gasLimit));
      EmptyList(Selected(old(txs.items), Exceeding(costLimit, gasLimit)), removed);
      if |removed| == 0 {
        NoneSelected(old(txs.items), costLimit, gasLimit);
        NothingExceeds(old(txs.items), strict, costLimit, gasLimit);
        return;
      }
      if strict {
        RemovedNonces(old(txs.items), costLimit, gasLimit, removed);
        var lowest := Lowest(removed);
        AboveLowest(old(txs.items), costLimit, gasLimit, removed, lowest);
        invalids := txs.FilterItems(Above(lowest));
        FilterCuts(old(txs.items), costLimit, gasLimit);
      } else {
        LooseFilter(old(txs.items), costLimit, gasLimit);
      }
      txs.Reheap();
      if strict && Contiguous(old(txs.items)) {
        CutContiguous(old(txs.items), txs.items, old(txs.items) - txs.items.Keys);
      }
    }

    /** The lowest nonce of a non-empty list. */
    static method Lowest(removed: seq<Tx>) returns (lowest: nat)
      requires removed != [] && forall i :: 0 <= i < |removed| ==> removed[i].nonce <= MAX_UINT64
      ensures IsLowest(removed, lowest)
    {
      lowest := MAX_UINT64;
      for i := 0 to |removed|
        invariant forall k :: 0 <= k < i ==> lowest <= removed[k].nonce
        invariant lowest == MAX_UINT64 || exists k :: 0 <= k < i && lowest == removed[k].nonce
      {
        if lowest > removed[i].nonce {
          lowest := removed[i].nonce;
        }
      }
      assert lowest <= removed[0].nonce;
    }

    method Cap(threshold: nat) returns (drops: seq<Tx>)
      requires Valid()
      modifies txs
      ensures Valid()
      ensures if |old(txs.items)| <= threshold then txs.items == old(txs.items) && drops == [] else |txs.items| == threshold
      ensures exists gone :: Capped(old(txs.items), txs.items, gone, drops)
      ensures Contiguous(old(txs.items)) ==> Contiguous(txs.items)
    {
      drops := txs.Cap(threshold);
      ghost var gone :| Capped(old(txs.items), txs.items, gone, drops);
      if Contiguous(old(txs.items)) {
        CutContiguous(old(txs.items), txs.items, gone);
      }
    }

    /** Removes the transaction's nonce and, in strict mode, returns everything above it. */
    method Remove(tx: Tx) returns (found: bool, invalids: seq<Tx>)
      requires Valid()
      modifies txs
      ensures Valid() && found == (tx.nonce in old(txs.items))
      ensures txs.items == AfterRemove(old(txs.items), strict, tx.nonce)
      ensures Enumerates(if found && strict then Selected(old(txs.items), Above(tx.nonce)) else map[], invalids)
      ensures strict && Contiguous(old(txs.items)) ==> Contiguous(txs.items)
    {
      found := txs.Remove(tx.nonce);
      invalids := [];
      if found && strict {
        invalids := txs.Filter(Above(tx.nonce));
        RemoveCuts(old(txs.items), tx.nonce);
        if Contiguous(old(txs.items)) {
          CutContiguous(old(txs.items), txs.items, old(txs.items) - txs.items.Keys);
        }
      }
    }

    method Ready(start: nat) returns (ready: seq<Tx>)
      requires Valid()
      modifies txs
      ensures Valid()
      ensures ready == [] <==> forall n :: n in old(txs.items) ==> n > start
      ensures ready == [] ==> txs.items == old(txs.items)
      ensures ready != [] ==> IsReady(old(txs.items), txs.items, ready)
    {
      ready := txs.Ready(start);
    }
  }

  /** What removing a nonce leaves. */
  function AfterRemove(items: Items, strict: bool, nonce: nat): Items {
    if nonce in items && strict then Kept(items - {nonce}, Above(nonce)) else items - {nonce}
  }

  lemma {:induction false} RemoveCuts(items: Items, n: nat)
    requires Keyed(items) && n in items
    ensures Splits(items, AfterRemove(items, true, n), items - AfterRemove(items, true, n).Keys)
    ensures Selected(items - {n}, Above(n)) == Selected(items, Above(n))
  {
  }

  lemma {:induction false} ForwardCuts(items: Items, threshold: nat)
    requires Keyed(items)
    ensures Splits(items, Selected(items, Below(threshold)), Kept(items, Below(threshold)))
  {
  }

  lemma {:induction false} AffordableBounded(items: Items, strict: bool, costLimit: nat, gasLimit: nat)
    ensures Bounded(Affordable(items, strict, costLimit, gasLimit), costLimit, gasLimit)
  {
  }

  lemma {:induction false} NoneSelected(items: Items, costLimit: nat, gasLimit: nat)
    requires Selected(items, Exceeding(costLimit, gasLimit)) == map[]
    ensures forall n :: n in items ==> !Exceeds(items[n], costLimit, gasLimit)
    ensures Kept(items, Exceeding(costLimit, gasLimit)) == items
  {
    forall n | n in items ensures !Exceeds(items[n], costLimit, gasLimit) {
      assert n !in Selected(items, Exceeding(costLimit, gasLimit));
    }
  }
}
