/** The steps of the pool's operations on values: which transactions move, which are lost, and what stays filed. */
module PoolMoves {
  import opened Common
  import opened Transactions
  import opened SortedMap
  import opened TxList
  import opened Lookup
  import opened PricedList
  import opened Filing
  import opened WaterFilling
  import opened QueueTrimming
  import Balances

  datatype Config = Config(accountSlots: nat, globalSlots: nat, accountQueue: nat, globalQueue: nat, priceBump: nat)

  /** The chain state that the pool consults. */
  datatype ChainState = ChainState(nonce: Address -> nat, balance: Address -> nat, maxGas: nat)

  /** A request to reset to a new head: what fell out of the chain, which of it is valid, and the next base fee. */
  datatype Reset = Reset(reinject: seq<Tx>, valid: Tx -> bool, baseFee: Option<nat>)

  datatype AddError = AlreadyKnown | Invalid | Underpriced | Overflow | ReplaceUnderpriced

  // ----- list operations, run on a list object with the given contents -----

  /** The longest gap-free run from the lowest nonce on, or nothing if all nonces are above `start`. */
  ghost predicate ReadyRun(items: Items, start: nat, ready: seq<Tx>) {
    && (ready == [] <==> forall n :: n in items ==> n > start)
    && (ready != [] ==>
          var lo := ready[0].nonce;
          IsRun(ready, lo) && lo + |ready| !in items && forall n :: n in items ==> lo <= n)
  }

  method ReadyOf(items: Items, start: nat) returns (ready: seq<Tx>, rest: Items, ghost f: Items)
    requires Keyed(items)
    ensures ReadyRun(items, start, ready)
    ensures Divides(items, rest, f) && Lists(f, ready)
  {
    var list := new TxSortedMap.From(items);
    ready := list.Ready(start);
    rest := list.items;
    f := if ready == [] then map[] else Selected(items, Below(ready[0].nonce + |ready|));
  }

  /** The nonce after the highest one. */
  ghost predicate IsNext(items: Items, n: nat) {
    n > 0 && n - 1 in items && forall m :: m in items ==> m < n
  }

  method LastOf(items: Items) returns (tx: Tx)
    requires Keyed(items) && items != map[]
    ensures Holds(items, tx) && IsNext(items, tx.nonce + 1)
  {
    var list := new TxSortedMap.From(items);
    tx := list.LastElement();
  }

  method FlattenOf(items: Items) returns (txs: seq<Tx>)
    requires Keyed(items)
    ensures Lists(items, txs)
  {
    var list := new TxSortedMap.From(items);
    txs := list.Flatten();
  }

  /** Every nonce of the first collection is below every nonce of the second. */
  ghost predicate Ordered(low: Items, high: Items) {
    forall m, n :: m in low && n in high ==> m < n
  }

  method CapOf(items: Items, threshold: nat) returns (rest: Items, gone: Items)
    requires Keyed(items)
    ensures if |items| <= threshold then rest == items && gone == map[] else |rest| == threshold
    ensures Splits(items, rest, gone) && Divides(items, rest, gone) && Ordered(rest, gone)
  {
    var list := new TxSortedMap.From(items);
    var drops := list.Cap(threshold);
    rest := list.items;
    gone := items - rest.Keys;
    ghost var g :| Capped(items, rest, g, drops);
    assert g == gone;
  }

  // ----- storing lists -----

  lemma {:induction false} StoreAgain(lists: Accounts, a: Address, first: Items, second: Items)
    ensures Store(lists[a := first][a := second], a, second) == Store(lists, a, second)
  {
  }

  lemma {:induction false} StoreTwice(lists: Accounts, a: Address, first: Items, second: Items)
    ensures Store(Store(lists, a, first), a, second) == Store(lists, a, second)
  {
  }

  lemma {:induction false} StoreSame(lists: Accounts, a: Address)
    requires a in lists && lists[a] != map[]
    ensures Store(lists, a, lists[a]) == lists
  {
  }

  lemma {:induction false} StoreNothing(lists: Accounts, a: Address)
    ensures Store(lists, a, map[]) == lists - {a}
  {
  }

  lemma {:induction false} StoreKeeps(lists: Accounts, a: Address, items: Items)
    requires items != map[]
    ensures Store(lists, a, items) == lists[a := items]
  {
  }

  lemma {:induction false} StillNonEmpty(lists: Accounts, a: Address, items: Items)
    requires NonEmpty(lists) && items != map[]
    ensures NonEmpty(lists[a := items])
  {
  }

  lemma {:induction false} FiledStore(pending: Accounts, queue: Accounts, all: set<Tx>, a: Address, items: Items)
    requires Filed(pending, queue, all, 0, map[]) && Of(queue, a) == items
    ensures Filed(pending, Store(queue, a, items), all, 0, map[])
  {
    StoreOne(queue, a, items);
    forall b ensures FiledAt(pending, Store(queue, a, items), all, 0, map[], b) {
      assert FiledAt(pending, queue, all, 0, map[], b);
    }
  }

  lemma {:induction false} FiledStorePending(pending: Accounts, queue: Accounts, all: set<Tx>, a: Address, items: Items)
    requires Filed(pending, queue, all, 0, map[]) && Of(pending, a) == items
    ensures Filed(Store(pending, a, items), queue, all, 0, map[])
  {
    StoreOne(pending, a, items);
    forall b ensures FiledAt(Store(pending, a, items), queue, all, 0, map[], b) {
      assert FiledAt(pending, queue, all, 0, map[], b);
    }
  }

  lemma {:induction false} OnlyAtChain(a: Address, first: Accounts, second: Accounts, third: Accounts)
    requires OnlyAt(a, first, second) && OnlyAt(a, second, third)
    ensures OnlyAt(a, first, third)
  {
    forall b | b != a ensures Of(third, b) == Of(first, b) {
      assert Of(third, b) == Of(second, b);
      assert Of(second, b) == Of(first, b);
    }
  }

  ghost predicate AllOwned(lists: Accounts) {
    forall a {:trigger Of(lists, a)} :: Owned(Of(lists, a), a)
  }

  lemma {:induction false} FiledOwned(pending: Accounts, queue: Accounts, all: set<Tx>)
    requires Filed(pending, queue, all, 0, map[])
    ensures AllOwned(pending)
  {
    forall a ensures Owned(Of(pending, a), a) {
      assert FiledAt(pending, queue, all, 0, map[], a);
    }
  }

  lemma {:induction false} OwnedKeyed(items: Items, a: Address)
    requires Owned(items, a)
    ensures Keyed(items)
  {
  }

  lemma {:induction false} OwnQueue(pending: Accounts, queue: Accounts, all: set<Tx>, a: Address)
    requires Filed(pending, queue, all, 0, map[]) && a in queue
    ensures Keyed(queue[a])
  {
    AtRest(pending, queue, all, 0, a);
    Here(pending, queue, all, a, map[]);
  }

  lemma {:induction false} OwnPending(pending: Accounts, queue: Accounts, all: set<Tx>, a: Address)
    requires Filed(pending, queue, all, 0, map[]) && a in pending
    ensures Keyed(pending[a])
  {
    AtRest(pending, queue, all, 0, a);
    Here(pending, queue, all, a, map[]);
  }

  lemma {:induction false} IsQueued(pending: Accounts, queue: Accounts, all: set<Tx>, a: Address, tx: Tx)
    requires Filed(pending, queue, all, 0, map[]) && Holds(Of(queue, a), tx)
    ensures tx.from == a && tx in all && tx.nonce !in Of(pending, a)
  {
    AtRest(pending, queue, all, 0, a);
    Here(pending, queue, all, a, map[]);
  }

  // ----- dividing lists -----

  lemma {:induction false} KeyedPart(whole: Items, one: Items, other: Items)
    requires Keyed(whole) && Divides(whole, one, other)
    ensures Keyed(one) && Keyed(other)
  {
  }

  lemma {:induction false} DivideNothing(items: Items)
    ensures Divides(items, map[], items) && Divides(items, items, map[]) && Ordered(items, map[])
  {
  }

  /** Dividing what is not stale divides the rest of the list. */
  lemma {:induction false} DivideFresh(items: Items, good: Items, stale: Items, one: Items, other: Items)
    requires Divides(items, good, stale) && Divides(good, one, other)
    ensures Divides(items, one, items - one.Keys) && Divides(items - one.Keys, other, stale)
  {
  }

  lemma {:induction false} RestOf(whole: Items, one: Items, other: Items, n: nat)
    requires Divides(whole, one, other) && n in other
    ensures n in whole && other[n] == whole[n]
  {
  }

  lemma {:induction false} AddOne(whole: Items, one: Items, other: Items, n: nat, tx: Tx)
    requires Divides(whole, one, other) && n !in whole
    ensures Divides(whole[n := tx], one, other[n := tx])
  {
  }

  lemma {:induction false} KeysMatch(f: Items, s: seq<Tx>)
    requires Lists(f, s)
    ensures forall n :: n in f ==> f[n].nonce == n
  {
    forall n | n in f ensures f[n].nonce == n {
      assert Listed(s, n);
      var i :| 0 <= i < |s| && s[i].nonce == n;
      assert Holds(f, s[i]);
    }
  }

  lemma {:induction false} InListing(f: Items, s: seq<Tx>, tx: Tx)
    requires Lists(f, s)
    ensures tx in s <==> Holds(f, tx)
  {
    if Holds(f, tx) {
      assert Listed(s, tx.nonce);
      var i :| 0 <= i < |s| && s[i].nonce == tx.nonce;
      assert Holds(f, s[i]);
    }
  }

  lemma {:induction false} NothingLeft(f: Items, s: seq<Tx>)
    requires Lists(f, s) && s == []
    ensures f == map[]
  {
    EmptyList(f, s);
  }

  // ----- taking transactions in, one by one -----

  /** The account's list has taken in `done` of `f`, with `rest` to come. */
  ghost predicate Taking(before: Accounts, queue: Accounts, a: Address, f: Items, done: Items, rest: Items) {
    && OnlyAt(a, before, queue) && Divides(Of(queue, a), Of(before, a), done)
    && Divides(f, done, rest) && (forall n :: n in f ==> f[n].nonce == n)
  }

  lemma {:induction false} TakeStart(queue: Accounts, a: Address, f: Items)
    requires forall n :: n in f ==> f[n].nonce == n
    ensures Taking(queue, queue, a, f, map[], f)
  {
  }

  lemma {:induction false} NextIn(before: Accounts, queue: Accounts, a: Address, f: Items, done: Items, rest: Items, n: nat)
    requires Taking(before, queue, a, f, done, rest) && n in rest
    ensures Holds(rest, rest[n]) && rest[n].nonce == n && |rest - {n}| < |rest|
  {
    MoveOne(f, done, rest, n);
  }

  lemma {:induction false} NextReady(before: Accounts, lists: Accounts, a: Address, f: Items, done: Items, rest: Items, s: seq<Tx>)
    requires Taking(before, lists, a, f, done, rest) && Lists(rest, s) && s != []
    ensures var n := s[0].nonce;
            && n in rest && rest[n] == s[0] && Holds(rest, s[0]) && Lists(rest - {n}, s[1..]) && |rest - {n}| < |rest|
  {
    DropFirst(rest, s);
    assert Holds(rest, s[0]);
    MoveOne(f, done, rest, s[0].nonce);
  }

  lemma {:induction false} TakeStep(before: Accounts, queue: Accounts, a: Address, f: Items, done: Items, rest: Items, n: nat)
    requires Taking(before, queue, a, f, done, rest) && n in rest && n !in Of(queue, a) && NonEmpty(queue)
    ensures NonEmpty(queue[a := Of(queue, a)[n := rest[n]]])
    ensures Taking(before, queue[a := Of(queue, a)[n := rest[n]]], a, f, done[n := rest[n]], rest - {n})
  {
    hide Divides, OnlyAt;
    MoveOne(f, done, rest, n);
    RestOf(f, done, rest, n);
    var list := Of(queue, a)[n := rest[n]];
    StoreOne(queue, a, list);
    OnlyAtChain(a, before, queue, queue[a := list]);
    AddOne(Of(queue, a), Of(before, a), done, n, rest[n]);
    StillNonEmpty(queue, a, list);
  }

  lemma {:induction false} TakeEnd(before: Accounts, queue: Accounts, a: Address, f: Items, done: Items)
    requires Taking(before, queue, a, f, done, map[])
    ensures OnlyAt(a, before, queue) && Divides(Of(queue, a), Of(before, a), f)
  {
    assert done == f;
  }

  // ----- removing one transaction -----

  lemma {:induction false} RemoveDivides(p: Items, tx: Tx)
    requires Keyed(p) && Holds(p, tx)
    ensures var p' := AfterRemove(p, true, tx.nonce);
            && Divides(p, p', p - p'.Keys)
            && Divides(p - p'.Keys, Selected(p, Above(tx.nonce)), map[tx.nonce := tx])
    ensures forall n :: n in Selected(p, Above(tx.nonce)) ==> Selected(p, Above(tx.nonce))[n].nonce == n
    ensures forall x :: Holds(map[tx.nonce := tx], x) <==> x == tx
  {
  }

  lemma {:induction false} RemoveQueued(p: Items, q: Items, tx: Tx)
    requires Keyed(p) && Holds(q, tx) && tx.nonce !in p
    ensures Divides(q, q - {tx.nonce}, map[tx.nonce := tx])
    ensures Divides(map[tx.nonce := tx], map[], map[tx.nonce := tx])
    ensures AfterRemove(p, true, tx.nonce) == p
    ensures forall x :: Holds(map[tx.nonce := tx], x) <==> x == tx
  {
  }

  // ----- what is outdated -----

  ghost predicate In(lists: Accounts, tx: Tx) {
    Holds(Of(lists, tx.from), tx)
  }

  predicate Outdated(tx: Tx, state: ChainState) {
    tx.nonce < state.nonce(tx.from) || Exceeds(tx, state.balance(tx.from), state.maxGas)
  }

  /** The list's outdated transactions: those with a nonce too low and those too expensive. */
  function Stale(items: Items, nonce: nat, costLimit: nat, gasLimit: nat): Items {
    map n | n in items && (items[n].nonce < nonce || Exceeds(items[n], costLimit, gasLimit)) :: items[n]
  }

  lemma {:induction false} StaleParts(items: Items, nonce: nat, costLimit: nat, gasLimit: nat)
    requires Keyed(items)
    ensures var old1 := Selected(items, Below(nonce));
            var old2 := Selected(Kept(items, Below(nonce)), Exceeding(costLimit, gasLimit));
            && Keyed(old1) && Keyed(old2)
            && (forall tx :: Holds(Stale(items, nonce, costLimit, gasLimit), tx) <==> Holds(old1, tx) || Holds(old2, tx))
  {
  }

  lemma {:induction false} FreshPart(items: Items, nonce: nat, costLimit: nat, gasLimit: nat)
    requires Keyed(items)
    ensures var l2 := Kept(Kept(items, Below(nonce)), Exceeding(costLimit, gasLimit));
            Keyed(l2) && Divides(items, l2, Stale(items, nonce, costLimit, gasLimit))
  {
  }

  lemma {:induction false} StaleIsOutdated(p: Items, a: Address, state: ChainState)
    requires Owned(p, a)
    ensures forall tx :: Holds(Stale(p, state.nonce(a), state.balance(a), state.maxGas), tx) <==> Holds(p, tx) && Outdated(tx, state)
  {
  }

  // ----- promotion -----

  /** What is left of an account's queue without the outdated transactions. */
  function Usable(q: Items, a: Address, state: ChainState): Items {
    Kept(Kept(q, Below(state.nonce(a))), Exceeding(state.balance(a), state.maxGas))
  }

  /** Promoted and still queued transactions come from the queue and are not outdated. */
  ghost predicate Survives(q: Items, q': Items, f: Items, a: Address, state: ChainState) {
    forall tx :: Holds(f, tx) || Holds(q', tx) ==> Holds(q, tx) && tx.from == a && !Outdated(tx, state)
  }

  /** Lost transactions come from the queue and are outdated or, if the account has a limit, above the full queue. */
  ghost predicate Loses(q: Items, q': Items, a: Address, all: set<Tx>, all': set<Tx>, state: ChainState, limit: Option<nat>) {
    && all' <= all
    && (forall tx :: tx in all && tx !in all' ==>
          && Holds(q, tx) && tx.from == a
          && (Outdated(tx, state) || (limit.Some? && |q'| == limit.value && forall n :: n in q' ==> n < tx.nonce)))
  }

  /** What promoting an account keeps and what it loses. */
  lemma {:induction false} PromoteOutcome(
    q: Items, l2: Items, stale: Items, l3: Items, f: Items, l4: Items, caps: Items,
    all0: set<Tx>, all1: set<Tx>, all2: set<Tx>, a: Address, state: ChainState, limit: Option<nat>
  )
    requires caps != map[] ==> limit.Some? && |l4| == limit.value
    requires Owned(q, a) && Divides(q, l2, stale) && Divides(l2, l3, f) && stale == Stale(q, state.nonce(a), state.balance(a), state.maxGas)
    requires Divides(l3, l4, caps) && Ordered(l4, caps)
    requires forall tx :: tx in all1 <==> tx in all0 && !Holds(stale, tx)
    requires forall tx :: tx in all2 <==> tx in all1 && !Holds(caps, tx)
    ensures Survives(q, l4, f, a, state) && Loses(q, l4, a, all0, all2, state, limit)
  {
    forall tx | Holds(f, tx) || Holds(l4, tx) ensures Holds(q, tx) && tx.from == a && !Outdated(tx, state) {
      assert tx.nonce in l2;
      assert tx.nonce !in stale;
    }
    forall tx | tx in all0 && tx !in all2
      ensures Holds(q, tx) && tx.from == a
      ensures !Outdated(tx, state) ==> limit.Some? && |l4| == limit.value && forall n :: n in l4 ==> n < tx.nonce
    {
      assert Holds(stale, tx) || Holds(caps, tx);
      assert tx.nonce in q;
    }
  }

  /** The transactions of a queue that are not outdated. */
  ghost function Fresh(q: Items, state: ChainState): Items {
    map n | n in q && !Outdated(q[n], state) :: q[n]
  }

  /** What promoting an account does to its lists: the ready run of what is not outdated moves to the pending list;
      nothing outdated stays queued; and of the rest the queue keeps all, or its lowest nonces up to the limit. */
  ghost predicate AccountPromoted(p0: Items, q0: Items, p: Items, q: Items, ready: seq<Tx>, state: ChainState, start: nat, limit: Option<nat>) {
    && (forall tx :: tx in ready ==> Holds(q0, tx) && !Outdated(tx, state))
    && ReadyRun(Fresh(q0, state), start, ready)
    && (forall tx :: Holds(p, tx) <==> Holds(p0, tx) || tx in ready)
    && (forall tx :: Holds(q, tx) ==> Holds(q0, tx) && !Outdated(tx, state) && tx !in ready)
    && (limit.Some? ==> |q| <= limit.value)
    && (forall tx :: Holds(q0, tx) && !Outdated(tx, state) && tx !in ready && !Holds(q, tx) ==>
          limit.Some? && |q| == limit.value && forall n :: n in q ==> n < tx.nonce)
  }

  lemma {:induction false} UsableIsFresh(q: Items, a: Address, state: ChainState)
    requires Owned(q, a)
    ensures Usable(q, a, state) == Fresh(q, state)
  {
  }

  lemma {:induction false} AccountOutcome(
    q: Items, l2: Items, stale: Items, l3: Items, f: Items, l4: Items, caps: Items, p0: Items, p: Items,
    ready: seq<Tx>, a: Address, state: ChainState, start: nat, limit: Option<nat>
  )
    requires caps != map[] ==> limit.Some? && |l4| == limit.value
    requires limit.Some? ==> |l4| <= limit.value
    requires Owned(q, a) && Divides(q, l2, stale) && Divides(l2, l3, f) && stale == Stale(q, state.nonce(a), state.balance(a), state.maxGas)
    requires Divides(l3, l4, caps) && Ordered(l4, caps) && Lists(f, ready) && ReadyRun(Usable(q, a, state), start, ready)
    requires Divides(p, p0, f)
    ensures AccountPromoted(p0, q, p, l4, ready, state, start, limit)
  {
    hide ReadyRun, Lists, Usable, Divides, Stale, Owned, Outdated, Fresh;
    UsableIsFresh(q, a, state);
    forall tx ensures tx in ready <==> Holds(f, tx) {
      InListing(f, ready, tx);
    }
    forall tx ensures Holds(q, tx) && !Outdated(tx, state) <==> Holds(l2, tx) {
      DividesHolds(q, l2, stale, tx);
      StaleHolds(q, a, state, tx);
    }
    forall tx ensures Holds(l2, tx) <==> Holds(f, tx) || Holds(l4, tx) || Holds(caps, tx)
      ensures Holds(l4, tx) ==> !Holds(f, tx)
    {
      DividesHolds(l2, l3, f, tx);
      DividesHolds(l3, l4, caps, tx);
    }
    forall tx ensures Holds(p, tx) <==> Holds(p0, tx) || Holds(f, tx) {
      DividesHolds(p, p0, f, tx);
    }
  }

  lemma {:induction false} DividesHolds(whole: Items, one: Items, other: Items, tx: Tx)
    requires Divides(whole, one, other)
    ensures Holds(whole, tx) <==> Holds(one, tx) || Holds(other, tx)
    ensures !(Holds(one, tx) && Holds(other, tx))
  {
  }

  lemma {:induction false} StaleHolds(q: Items, a: Address, state: ChainState, tx: Tx)
    requires Owned(q, a)
    ensures Holds(Stale(q, state.nonce(a), state.balance(a), state.maxGas), tx) <==> Holds(q, tx) && Outdated(tx, state)
  {
  }

  lemma {:induction false} RunIsOwn(q: Items, l2: Items, stale: Items, l3: Items, f: Items, ready: seq<Tx>, a: Address)
    requires Owned(q, a) && Divides(q, l2, stale) && Divides(l2, l3, f) && Lists(f, ready)
    ensures forall tx :: tx in ready ==> tx.from == a
  {
    hide Lists;
    forall tx | tx in ready ensures tx.from == a {
      InListing(f, ready, tx);
      assert tx.nonce in f && tx.nonce in l2 && tx.nonce in q;
    }
  }

  /** The promoted transactions of one account, in order. */
  ghost function PromotedOf(promoted: seq<Tx>, a: Address): seq<Tx> {
    if promoted == [] then []
    else
      var rest, tx := PromotedOf(promoted[..|promoted| - 1], a), promoted[|promoted| - 1];
      if tx.from == a then rest + [tx] else rest
  }

  lemma {:induction false} PromotedMore(promoted: seq<Tx>, more: seq<Tx>, a: Address, b: Address)
    requires forall tx :: tx in more ==> tx.from == b
    ensures PromotedOf(promoted + more, a) == PromotedOf(promoted, a) + if a == b then more else []
    decreases |more|
  {
    if more == [] {
      assert promoted + more == promoted;
    } else {
      var init := more[..|more| - 1];
      assert (promoted + more)[..|promoted + more| - 1] == promoted + init;
      PromotedMore(promoted, init, a, b);
      assert more == init + [more[|more| - 1]];
    }
  }

  ghost predicate Named(addresses: seq<Address>, n: nat, a: Address) {
    exists k :: 0 <= k < n <= |addresses| && addresses[k] == a
  }

  /** A listed account with a queue has been promoted, and any other is as it was. */
  ghost predicate PromotedAt(
    p0: Accounts, q0: Accounts, p: Accounts, q: Accounts, promoted: seq<Tx>, addresses: seq<Address>, n: nat,
    state: ChainState, start: Address -> nat, locals: set<Address>, cap: nat, a: Address
  ) {
    if Named(addresses, n, a) && a in q0
    then AccountPromoted(Of(p0, a), Of(q0, a), Of(p, a), Of(q, a), PromotedOf(promoted, a), state, start(a),
                         if a in locals then None else Some(cap))
    else Of(p, a) == Of(p0, a) && Of(q, a) == Of(q0, a) && PromotedOf(promoted, a) == []
  }

  ghost predicate PromotedAll(
    p0: Accounts, q0: Accounts, p: Accounts, q: Accounts, promoted: seq<Tx>, addresses: seq<Address>, n: nat,
    state: ChainState, start: Address -> nat, locals: set<Address>, cap: nat
  ) {
    forall a {:trigger PromotedAt(p0, q0, p, q, promoted, addresses, n, state, start, locals, cap, a)} ::
      PromotedAt(p0, q0, p, q, promoted, addresses, n, state, start, locals, cap, a)
  }

  lemma {:induction false} PromotedStart(
    p0: Accounts, q0: Accounts, addresses: seq<Address>, state: ChainState, start: Address -> nat, locals: set<Address>, cap: nat
  )
    ensures PromotedAll(p0, q0, p0, q0, [], addresses, 0, state, start, locals, cap)
  {
  }

  /** The next account has no queue. */
  lemma {:induction false} PromotedSkip(
    p0: Accounts, q0: Accounts, p: Accounts, q: Accounts, promoted: seq<Tx>, addresses: seq<Address>, n: nat,
    state: ChainState, start: Address -> nat, locals: set<Address>, cap: nat
  )
    requires n < |addresses| && NoDuplicates(addresses) && NonEmpty(q0) && NonEmpty(q) && addresses[n] !in q
    requires PromotedAll(p0, q0, p, q, promoted, addresses, n, state, start, locals, cap)
    ensures PromotedAll(p0, q0, p, q, promoted, addresses, n + 1, state, start, locals, cap)
  {
    hide AccountPromoted;
    var m := n + 1;
    forall a ensures PromotedAt(p0, q0, p, q, promoted, addresses, m, state, start, locals, cap, a) {
      assert PromotedAt(p0, q0, p, q, promoted, addresses, n, state, start, locals, cap, a);
      NamedNext(addresses, n, a);
    }
  }

  lemma {:induction false} NamedNext(addresses: seq<Address>, n: nat, a: Address)
    requires n < |addresses| && NoDuplicates(addresses)
    ensures Named(addresses, n + 1, a) <==> Named(addresses, n, a) || a == addresses[n]
    ensures !Named(addresses, n, addresses[n])
  {
    if Named(addresses, n + 1, a) && a != addresses[n] {
      var k :| 0 <= k < n + 1 && addresses[k] == a;
      assert k < n;
    }
  }

  /** The next account has been promoted. */
  lemma {:induction false} PromotedNext(
    p0: Accounts, q0: Accounts, p: Accounts, q: Accounts, promoted: seq<Tx>, addresses: seq<Address>, n: nat,
    state: ChainState, start: Address -> nat, locals: set<Address>, cap: nat, p': Accounts, q': Accounts, more: seq<Tx>
  )
    requires n < |addresses| && NoDuplicates(addresses) && addresses[n] in q && NonEmpty(q)
    requires PromotedAll(p0, q0, p, q, promoted, addresses, n, state, start, locals, cap)
    requires OnlyAt(addresses[n], p, p') && OnlyAt(addresses[n], q, q') && forall tx :: tx in more ==> tx.from == addresses[n]
    requires var b := addresses[n];
             AccountPromoted(Of(p, b), Of(q, b), Of(p', b), Of(q', b), more, state, start(b), if b in locals then None else Some(cap))
    ensures PromotedAll(p0, q0, p', q', promoted + more, addresses, n + 1, state, start, locals, cap)
  {
    hide AccountPromoted;
    var b := addresses[n];
    var m, both := n + 1, promoted + more;
    forall a ensures PromotedAt(p0, q0, p', q', both, addresses, m, state, start, locals, cap, a) {
      assert PromotedAt(p0, q0, p, q, promoted, addresses, n, state, start, locals, cap, a);
      NamedNext(addresses, n, a);
      PromotedMore(promoted, more, a, b);
      assert PromotedOf(promoted, a) + [] == PromotedOf(promoted, a);
      if a == b {
        assert [] + more == more;
      } else {
        assert Of(p', a) == Of(p, a) && Of(q', a) == Of(q, a);
      }
    }
  }

  /** What promotion has kept, moved and lost so far. */
  ghost predicate Promoting(
    p0: Accounts, q0: Accounts, all0: set<Tx>, p: Accounts, q: Accounts, all: set<Tx>,
    promoted: seq<Tx>, state: ChainState, locals: set<Address>
  ) {
    && all <= all0
    && (forall tx :: In(p, tx) <==> In(p0, tx) || tx in promoted)
    && (forall tx :: tx in promoted || In(q, tx) ==> In(q0, tx))
    && (forall tx :: tx in all0 && tx !in all ==> In(q0, tx) && (Outdated(tx, state) || tx.from !in locals))
  }

  lemma {:induction false} PromotingStep(
    p0: Accounts, q0: Accounts, all0: set<Tx>, p1: Accounts, q1: Accounts, all1: set<Tx>,
    promoted: seq<Tx>, state: ChainState, locals: set<Address>,
    a: Address, f: Items, p2: Accounts, q2: Accounts, all2: set<Tx>, more: seq<Tx>
  )
    requires Promoting(p0, q0, all0, p1, q1, all1, promoted, state, locals)
    requires OnlyAt(a, p1, p2) && OnlyAt(a, q1, q2) && Lists(f, more) && Divides(Of(p2, a), Of(p1, a), f)
    requires Survives(Of(q1, a), Of(q2, a), f, a, state)
    requires exists limit :: Loses(Of(q1, a), Of(q2, a), a, all1, all2, state, limit) && (a in locals ==> limit == None)
    ensures Promoting(p0, q0, all0, p2, q2, all2, promoted + more, state, locals)
  {
    forall tx ensures tx in more <==> Holds(f, tx) {
      InListing(f, more, tx);
    }
    forall tx ensures In(p2, tx) <==> In(p1, tx) || tx in more {
      if tx.from != a {
        assert Of(p2, tx.from) == Of(p1, tx.from);
      }
    }
    forall tx | tx in more || In(q2, tx) ensures In(q1, tx) {
      if tx.from != a {
        assert Of(q2, tx.from) == Of(q1, tx.from);
      }
    }
    forall tx | tx in all1 && tx !in all2 ensures In(q1, tx) && (Outdated(tx, state) || tx.from !in locals) {
    }
  }

  // ----- demotion -----

  /** What is executable of a pending list: nothing outdated and nothing above anything unaffordable,
      if the account's next nonce is among it. */
  function Executable(p: Items, nonce: nat, costLimit: nat, gasLimit: nat): (r: Items)
    ensures forall n :: n in r ==> n in p && r[n] == p[n] && nonce <= p[n].nonce && !Exceeds(p[n], costLimit, gasLimit)
    ensures r != map[] ==> nonce in r
  {
    var left := Affordable(Kept(p, Below(nonce)), true, costLimit, gasLimit);
    if nonce in left then left else map[]
  }

  lemma {:induction false} StrictParts(items: Items, costLimit: nat, gasLimit: nat)
    requires Keyed(items)
    ensures var l2 := Affordable(items, true, costLimit, gasLimit);
            var invalids := Invalidated(items, true, costLimit, gasLimit);
            && Divides(Kept(items, Exceeding(costLimit, gasLimit)), l2, invalids)
            && Keyed(l2) && Keyed(invalids)
  {
  }

  lemma {:induction false} DemoteParts(p: Items, nonce: nat, costLimit: nat, gasLimit: nat)
    requires Keyed(p)
    ensures var l1 := Kept(p, Below(nonce));
            var l2 := Affordable(l1, true, costLimit, gasLimit);
            var invalids := Invalidated(l1, true, costLimit, gasLimit);
            && Divides(p, l2, p - l2.Keys) && Divides(p - l2.Keys, invalids, Stale(p, nonce, costLimit, gasLimit))
            && (forall n :: n in l2 ==> l2[n].nonce == n)
            && (forall n :: n in invalids ==> invalids[n].nonce == n)
  {
    hide Affordable, Invalidated, Stale;
    var l1 := Kept(p, Below(nonce));
    FreshPart(p, nonce, costLimit, gasLimit);
    StrictParts(l1, costLimit, gasLimit);
    DivideFresh(p, Kept(l1, Exceeding(costLimit, gasLimit)), Stale(p, nonce, costLimit, gasLimit),
                Affordable(l1, true, costLimit, gasLimit), Invalidated(l1, true, costLimit, gasLimit));
  }

  ghost predicate Demoted(p0: Items, p: Items, a: Address, state: ChainState) {
    p == Executable(p0, state.nonce(a), state.balance(a), state.maxGas)
  }

  /** Demotion has dealt with all accounts except for those in `rest`. */
  ghost predicate Demoting(p0: Accounts, all0: set<Tx>, p: Accounts, all: set<Tx>, rest: set<Address>, state: ChainState) {
    && rest <= p0.Keys && NonEmpty(p) && AllOwned(p0)
    && (forall a {:trigger Of(p, a)} :: a in rest ==> Of(p, a) == Of(p0, a))
    && (forall a {:trigger Of(p, a)} :: a !in rest ==> Demoted(Of(p0, a), Of(p, a), a, state))
    && (forall tx :: tx in all <==> tx in all0 && !(tx.from !in rest && In(p0, tx) && Outdated(tx, state)))
  }

  lemma {:induction false} DemotingStart(p0: Accounts, q0: Accounts, all0: set<Tx>, state: ChainState)
    requires NonEmpty(p0) && Filed(p0, q0, all0, 0, map[])
    ensures Demoting(p0, all0, p0, all0, p0.Keys, state)
  {
    forall a ensures Owned(Of(p0, a), a) {
      assert FiledAt(p0, q0, all0, 0, map[], a);
    }
    forall a | a !in p0 ensures Demoted(Of(p0, a), Of(p0, a), a, state) {
    }
  }

  lemma {:induction false} StillThere(p0: Accounts, all0: set<Tx>, p: Accounts, all: set<Tx>, rest: set<Address>, state: ChainState, a: Address)
    requires Demoting(p0, all0, p, all, rest, state) && NonEmpty(p0) && a in rest
    ensures a in p && Of(p, a) == Of(p0, a)
  {
    assert Of(p, a) == Of(p0, a);
    assert p0[a] != map[];
  }

  lemma {:induction false} DemotingStep(
    p0: Accounts, all0: set<Tx>, p: Accounts, all: set<Tx>, rest: set<Address>, state: ChainState, a: Address,
    p': Accounts, all': set<Tx>
  )
    requires Demoting(p0, all0, p, all, rest, state) && a in rest && Of(p, a) == Of(p0, a) && NonEmpty(p')
    requires OnlyAt(a, p, p') && Demoted(Of(p, a), Of(p', a), a, state)
    requires forall tx :: tx in all' <==> tx in all && !(Holds(Of(p, a), tx) && Outdated(tx, state))
    ensures Demoting(p0, all0, p', all', rest - {a}, state)
  {
    hide Demoted, Outdated;
    var rest' := rest - {a};
    forall b | b != a ensures Of(p', b) == Of(p, b) {
    }
    forall tx ensures tx in all' <==> tx in all0 && !(tx.from !in rest' && In(p0, tx) && Outdated(tx, state)) {
      if Holds(Of(p, a), tx) {
        assert tx.from == a;
      }
    }
  }

  lemma {:induction false} DemotingEnd(p0: Accounts, all0: set<Tx>, p: Accounts, all: set<Tx>, state: ChainState)
    requires Demoting(p0, all0, p, all, {}, state)
    ensures forall a :: a in p ==> state.nonce(a) in p[a] && a in p0
    ensures forall tx :: In(p, tx) ==> In(p0, tx) && !Outdated(tx, state)
    ensures forall tx :: tx in all <==> tx in all0 && !(In(p0, tx) && Outdated(tx, state))
  {
    forall a | a in p ensures state.nonce(a) in p[a] && a in p0 {
      assert Demoted(Of(p0, a), Of(p, a), a, state);
      assert p[a] != map[];
    }
    forall tx | In(p, tx) ensures In(p0, tx) && !Outdated(tx, state) {
      assert Demoted(Of(p0, tx.from), Of(p, tx.from), tx.from, state);
      assert Owned(Of(p0, tx.from), tx.from);
    }
  }

  // ----- new transactions -----

  /** The list that holds a new transaction's nonce, if any does. */
  function Rival(pending: Accounts, queue: Accounts, tx: Tx): Items {
    if tx.nonce in Of(pending, tx.from) then Of(pending, tx.from) else Of(queue, tx.from)
  }

  /** The known transactions with the same place as a newcomer. */
  ghost function Holders(all: set<Tx>, tx: Tx): set<Tx> {
    set x | x in all && SamePlace(x, tx)
  }

  ghost predicate OutbidsAll(all: set<Tx>, tx: Tx, bump: nat) {
    forall x :: x in all && SamePlace(x, tx) ==> Outbids(tx, x, bump)
  }

  /** The list that would hold a newcomer holds exactly the known transaction with its place, if there is one. */
  lemma {:induction false} RivalHere(pending: Accounts, queue: Accounts, all: set<Tx>, tx: Tx, bump: nat)
    requires Filed(pending, queue, all, 0, map[])
    ensures Replaced(Rival(pending, queue, tx), tx.nonce) == Holders(all, tx)
    ensures Accepts(Rival(pending, queue, tx), tx, bump) <==> OutbidsAll(all, tx, bump)
    ensures tx.nonce in Rival(pending, queue, tx) <==> Holders(all, tx) != {}
  {
    hide Outbids;
    AtRest(pending, queue, all, 0, tx.from);
    Here(pending, queue, all, tx.from, map[]);
    var p, q := Of(pending, tx.from), Of(queue, tx.from);
    var rival := Rival(pending, queue, tx);
    forall x: Tx | SamePlace(x, tx) ensures x in all <==> Holds(rival, x) {
      assert x in all <==> Holds(p, x) || Holds(q, x) || Holds(map[], x);
      assert Holds(p, x) ==> tx.nonce in p;
    }
    if tx.nonce in rival {
      assert SamePlace(rival[tx.nonce], tx);
      assert rival[tx.nonce] in Holders(all, tx);
    }
  }

  /** Both are the same account's transactions with the same nonce. */
  predicate SamePlace(x: Tx, tx: Tx) {
    x.from == tx.from && x.nonce == tx.nonce
  }

  lemma {:induction false} SlotsAfter(known: set<Tx>, gone: set<Tx>, tx: Tx)
    requires tx !in known && gone <= known
    ensures SlotSum(known - gone + {tx}) == SlotSum(known) - SlotSum(gone) + tx.slots
  {
    SlotSumTake(known - gone + {tx}, tx);
    assert known - gone + {tx} - {tx} == known - gone;
    SlotSumMinus(known, gone);
  }

  // ----- evictions -----

  lemma {:induction false} TrackedLess(live: set<Tx>, less: set<Tx>, urgent: seq<Tx>, floating: seq<Tx>)
    requires Tracked(live, urgent, floating) && less <= live
    ensures Tracked(less, urgent, floating)
  {
  }

  lemma {:induction false} TrackedMore(live: set<Tx>, urgent: seq<Tx>, floating: seq<Tx>, more: seq<Tx>, tx: Tx)
    requires Tracked(live, urgent, floating) && multiset(more) == multiset(urgent) + multiset{tx}
    ensures Tracked(live + {tx}, more, floating)
  {
    forall x | x in live + {tx} ensures x in more || x in floating {
      assert x in urgent ==> x in multiset(urgent);
      assert x in more <==> x in multiset(more);
    }
  }

  lemma {:induction false} TrackedBut(live: set<Tx>, u0: seq<Tx>, f0: seq<Tx>, u: seq<Tx>, f: seq<Tx>, drop: seq<Tx>)
    requires Tracked(live, u0, f0) && LiveSame(live, Tally(u0, f0, []), Tally(u, f, drop))
    ensures Tracked(live - Elements(drop), u, f)
  {
    TrackedIff(live, u0, f0);
    forall x | x in live - Elements(drop) ensures x in u || x in f {
      assert x in Tally(u, f, drop);
      assert x !in multiset(drop);
    }
  }

  lemma {:induction false} LiveSameAll(live: set<Tx>, m: multiset<Tx>)
    ensures LiveSame(live, m, m)
  {
  }

  lemma {:induction false} LiveSameChain(live: set<Tx>, a: multiset<Tx>, b: multiset<Tx>, c: multiset<Tx>)
    requires LiveSame(live, a, b) && LiveSame(live, b, c)
    ensures LiveSame(live, a, c)
  {
  }

  lemma {:induction false} EvictStep(drop: seq<Tx>, i: nat, all: set<Tx>)
    requires i < |drop|
    ensures all - Elements(drop[..i]) - {drop[i]} == all - Elements(drop[..i + 1])
  {
    assert drop[..i + 1] == drop[..i] + [drop[i]];
  }

  lemma {:induction false} SlotSumMinus(s: set<Tx>, gone: set<Tx>)
    requires gone <= s
    ensures SlotSum(s - gone) == SlotSum(s) - SlotSum(gone)
    decreases |gone|
  {
    if gone == {} {
      assert s - gone == s;
    } else {
      var x :| x in gone;
      SlotSumTake(s, x);
      SlotSumTake(gone, x);
      SlotSumMinus(s - {x}, gone - {x});
      assert s - {x} - (gone - {x}) == s - gone;
    }
  }

  lemma {:induction false} SlotSumGrows(s: set<Tx>, t: set<Tx>)
    requires s <= t
    ensures SlotSum(s) <= SlotSum(t)
  {
    SlotSumMinus(t, s);
  }

  lemma {:induction false} TakesLive(live: set<Tx>, before: multiset<Tx>, slots: int, taken: seq<Tx>)
    requires Takes(live, before, slots, taken)
    ensures Elements(taken) <= live
  {
    forall x | x in Elements(taken) ensures x in live {
      var i :| 0 <= i < |taken| && taken[i] == x;
    }
  }

  /** A met request frees what it asked for if no heap entry is repeated. */
  lemma {:induction false} Makes(live: set<Tx>, urgent: seq<Tx>, floating: seq<Tx>, need: int, drop: seq<Tx>)
    requires Takes(live, Tally(urgent, floating, []), need, drop)
    ensures LiveSlots(live, Tally(urgent, floating, [])) >= need && NoRepeats(live, urgent, floating) ==> SlotSum(Elements(drop)) >= need
  {
    hide LiveSlots, NoRepeats, Distinct, SeqSlots;
    if LiveSlots(live, Tally(urgent, floating, [])) >= need && NoRepeats(live, urgent, floating) {
      RepeatsAreTaken(live, urgent, floating, need, drop);
      DistinctFrees(drop);
      LiveSlotsOf(live, drop);
      if SeqSlots(drop) < need {
        LiveSlotsAtMost(live, Tally(urgent, floating, []), multiset(drop));
      }
    }
  }

  lemma {:induction false} CountedMore(live: set<Tx>, urgent: seq<Tx>, floating: seq<Tx>)
    requires Tracked(live, urgent, floating) && !NoRepeats(live, urgent, floating)
    requires forall x :: x in live ==> x.slots > 0
    ensures LiveSlots(live, Tally(urgent, floating, [])) > SlotSum(live)
  {
    TrackedIff(live, urgent, floating);
    CountedOnce(live, Tally(urgent, floating, []));
  }

  /** Entries held twice count twice. */
  lemma {:induction false} LeaderCounts(live: set<Tx>, f: seq<Tx>, fee: Option<nat>, entries: multiset<Tx>, x: Tx)
    requires Leads(live, f, fee, x) && entries[x] >= 2
    ensures LiveSlots(live, entries) >= 2 * x.slots
  {
    hide Cheaper, LiveSlots;
    LiveSlotsTake(live, entries, x);
    TimesAtMost(2, entries[x], x.slots);
  }

  // ----- truncating the pending lists -----

  lemma {:induction false} CountOne(done: Accounts, a: Address, items: Items)
    requires a !in done
    ensures Size(done[a := items]) == Size(done) + |items|
  {
    assert Lens(done[a := items]) == Lens(done)[a := |items|];
    Balances.TotalSet(Lens(done), a, |items|);
  }

  /** Counts the transactions of all lists. */
  method CountTxs(lists: Accounts) returns (total: int)
    ensures total == Size(lists)
  {
    total := 0;
    var rest := lists;
    ghost var done: Accounts := map[];
    assert Lens(done) == map[];
    while rest != map[]
      invariant forall a :: a in rest ==> a in lists && rest[a] == lists[a] && a !in done
      invariant forall a :: a in lists ==> a in rest || (a in done && done[a] == lists[a])
      invariant forall a :: a in done ==> a in lists
      invariant total == Size(done)
      decreases |rest|
    {
      var a :| a in rest;
      CountOne(done, a, lists[a]);
      total := total + |lists[a]|;
      done := done[a := lists[a]];
      assert (rest - {a}).Keys == rest.Keys - {a};
      rest := rest - {a};
    }
    assert done == lists;
  }

  lemma {:induction false} CapIsPrefix(p: Items, p': Items, caps: Items)
    requires Splits(p, p', caps) && Divides(p, p', caps)
    ensures Prefix(p, p')
  {
    assert p - p'.Keys == caps;
  }

  lemma {:induction false} FillingStart(p0: Accounts, locals: set<Address>, slots: nat, limit: nat, spammers: set<Address>)
    requires Size(p0) > limit && forall a :: a in spammers <==> Big(p0, locals, slots, a)
    ensures Filling(p0, p0, locals, slots, limit, [], spammers, 0)
  {
  }

  lemma {:induction false} SpammersKnown(
    p0: Accounts, p: Accounts, locals: set<Address>, slots: nat, limit: nat,
    offenders: seq<Address>, spammers: set<Address>, level: nat
  )
    requires Filling(p0, p, locals, slots, limit, offenders, spammers, level)
    ensures forall a :: a in spammers ==> a in p0 && a in p && |p0[a]| == |p[a]|
  {
    hide LevelSize;
    forall a | a in spammers ensures a in p0 && a in p && |p0[a]| == |p[a]| {
      assert Big(p0, locals, slots, a);
      if offenders != [] {
        TopLength(p0, p, locals, level, a);
      }
    }
  }

  lemma {:induction false} EqualiseFacts(
    p0: Accounts, p: Accounts, locals: set<Address>, slots: nat, limit: nat,
    offenders: seq<Address>, spammers: set<Address>, level: nat, threshold: nat
  )
    requires Equalising(p0, p, locals, slots, limit, offenders, spammers, level, threshold)
    ensures |offenders| > 1 && slots < threshold <= level && NoDuplicates(offenders)
    ensures forall i :: 0 <= i < |offenders| - 1 ==> offenders[i] in p && |p[offenders[i]]| == level
  {
    EqualiseTops(p0, p, locals, slots, limit, offenders, spammers, level, threshold);
  }

  lemma {:induction false} FinalFacts(
    p0: Accounts, p: Accounts, locals: set<Address>, slots: nat, limit: nat, offenders: seq<Address>, level: nat
  )
    requires Filling(p0, p, locals, slots, limit, offenders, {}, level) && offenders != [] && Size(p) > limit
    ensures slots <= level && NoDuplicates(offenders)
    ensures forall i :: 0 <= i < |offenders| ==> offenders[i] in p && |p[offenders[i]]| == level
  {
    FinalTops(p0, p, locals, slots, limit, offenders, level);
  }

  /** Within the limit, or every remote account is down to its granted slots. */
  ghost predicate PendingBounded(p: Accounts, locals: set<Address>, slots: nat, limit: nat) {
    Size(p) <= limit || forall a :: a in p && a !in locals ==> |p[a]| <= slots
  }

  lemma {:induction false} WateredBounded(p0: Accounts, p: Accounts, locals: set<Address>, slots: nat, limit: nat, level: nat)
    requires Watered(p0, p, locals, slots, limit, level)
    ensures PendingBounded(p, locals, slots, limit)
  {
    hide Size, LevelSize;
    forall a | a in p && a !in locals ensures Size(p) <= limit || |p[a]| <= slots {
      TopLength(p0, p, locals, level, a);
    }
  }

  // ----- truncating the queue -----

  ghost predicate Part(whole: Items, part: Items) {
    forall n :: n in part ==> n in whole && part[n] == whole[n]
  }

  lemma {:induction false} PartStep(whole: Items, part: Items, n: nat)
    ensures Part(whole, whole) && (Part(whole, part) ==> Part(whole, part - {n}))
  {
  }

  lemma {:induction false} PartPrefix(whole: Items, s: seq<Tx>, part: Items, k: nat)
    requires Lists(whole, s) && ListsFirst(part, s, k) && Part(whole, part)
    ensures Prefix(whole, part) && |part| == k
  {
    ListedPrefix(whole, s, part, k);
    ListSize(part, s[..k]);
  }

  ghost predicate ListsFrom(items: Items, s: seq<Tx>, i: nat) {
    i <= |s| && Lists(items, s[i..])
  }

  ghost predicate ListsFirst(items: Items, s: seq<Tx>, i: nat) {
    i <= |s| && Lists(items, s[..i])
  }

  lemma {:induction false} AllListed(items: Items, s: seq<Tx>)
    requires Lists(items, s)
    ensures ListsFrom(items, s, 0) && ListsFirst(items, s, |s|) && |s| == |items|
  {
    assert s[0..] == s && s[..|s|] == s;
    ListSize(items, s);
  }

  lemma {:induction false} NoneListed(items: Items, s: seq<Tx>)
    requires ListsFrom(items, s, |s|)
    ensures items == map[]
  {
    NothingLeft(items, s[|s|..]);
  }

  lemma {:induction false} FirstListed(items: Items, s: seq<Tx>, i: nat)
    requires ListsFrom(items, s, i) && i < |s|
    ensures Holds(items, s[i]) && ListsFrom(items - {s[i].nonce}, s, i + 1)
  {
    DropFirst(items, s[i..]);
    assert s[i..][0] == s[i] && s[i..][1..] == s[i + 1..];
    assert Holds(items, s[i..][0]);
  }

  lemma {:induction false} LastListed(items: Items, s: seq<Tx>, i: nat)
    requires ListsFirst(items, s, i + 1)
    ensures Holds(items, s[i]) && ListsFirst(items - {s[i].nonce}, s, i)
  {
    DropLast(items, s[..i + 1]);
    assert s[..i + 1][i] == s[i] && s[..i + 1][..i] == s[..i];
    assert Holds(items, s[..i + 1][i]);
  }

  lemma {:induction false} SizeWithout(lists: Accounts, a: Address)
    requires a in lists
    ensures Size(lists - {a}) == Size(lists) - |lists[a]|
  {
    SizeStore(lists, a, map[]);
  }

  lemma {:induction false} LocalsOnly(q: Accounts, locals: set<Address>)
    requires NonEmpty(q) && forall a {:trigger Of(q, a)} :: a !in locals ==> Of(q, a) == map[]
    ensures forall a :: a in q ==> a in locals
  {
    forall a | a in q ensures a in locals {
      assert Of(q, a) == q[a];
    }
  }

  lemma {:induction false} InRest(q0: Accounts, q: Accounts, locals: set<Address>, beat: Address -> nat, rest: set<Address>, a: Address)
    requires Trimming(q0, q, locals, beat, rest) && a in rest && NonEmpty(q0)
    ensures a in q && Of(q, a) == Of(q0, a)
  {
    assert SameAt(q0, q, a);
  }

  lemma {:induction false} LatestExists(beat: Address -> nat, s: set<Address>) returns (o: Address)
    requires s != {}
    ensures o in s && forall a :: a in s ==> beat(a) <= beat(o)
    decreases s
  {
    var x :| x in s;
    o := x;
    if s - {x} != {} {
      var y := LatestExists(beat, s - {x});
      if beat(y) > beat(x) {
        o := y;
      }
    }
    forall a | a in s ensures beat(a) <= beat(o) {
      assert a == x || a in s - {x};
    }
  }

  // ----- a run of the reorg loop -----

  /** Every pending list starts at its account's next nonce and holds nothing outdated. */
  ghost predicate Current(pending: Accounts, state: ChainState) {
    && (forall a :: a in pending ==> state.nonce(a) in pending[a])
    && (forall tx :: In(pending, tx) ==> !Outdated(tx, state))
  }

  lemma {:induction false} LowestIsNext(p: Accounts, state: ChainState, a: Address)
    requires Current(p, state) && AllOwned(p) && a in p
    ensures forall m :: m in p[a] ==> state.nonce(a) <= m
  {
    assert Owned(Of(p, a), a);
    forall m | m in p[a] ensures state.nonce(a) <= m {
      assert In(p, p[a][m]);
    }
  }

  lemma {:induction false} PrefixKeepsLowest(p: Items, p': Items, n: nat)
    requires Prefix(p, p') && p' != map[] && n in p && forall m :: m in p ==> n <= m
    ensures n in p'
  {
    var m :| m in p';
    assert n in p' || n in p - p'.Keys;
  }

  lemma {:induction false} PrefixHolds(p: Items, p': Items, tx: Tx)
    requires Prefix(p, p') && Holds(p', tx)
    ensures Holds(p, tx)
  {
  }

  /** Cutting lists to a level leaves them current. */
  lemma {:induction false} StillCurrent(p0: Accounts, p: Accounts, locals: set<Address>, slots: nat, limit: nat, level: nat, state: ChainState)
    requires Watered(p0, p, locals, slots, limit, level) && NonEmpty(p) && AllOwned(p0) && Current(p0, state)
    ensures Current(p, state)
  {
    hide LevelSize, Prefix, Size;
    forall a | a in p ensures state.nonce(a) in p[a] {
      assert LeveledAt(p0, p, locals, level, a);
      LowestIsNext(p0, state, a);
      PrefixKeepsLowest(p0[a], p[a], state.nonce(a));
    }
    forall tx | In(p, tx) ensures In(p0, tx) {
      assert LeveledAt(p0, p, locals, level, tx.from);
      PrefixHolds(p0[tx.from], p[tx.from], tx);
    }
  }

  // ----- what a whole run keeps -----

  /** Remote transactions are not of local accounts. */
  ghost predicate Foreign(remotes: set<Tx>, locals: set<Address>) {
    forall x :: x in remotes ==> x.from !in locals
  }

  /** New transactions are among `added`, and a local account's transaction is only lost if it is outdated or one of
      `added` has its place. */
  ghost predicate Keeps(all: set<Tx>, all': set<Tx>, locals: set<Address>, state: ChainState, added: set<Tx>) {
    && all' <= all + added
    && (forall x :: x in all && x !in all' && x.from in locals ==>
          Outdated(x, state) || exists y :: y in added && SamePlace(x, y))
  }

  lemma {:induction false} KeepsAll(all: set<Tx>, locals: set<Address>, state: ChainState, added: set<Tx>)
    ensures Keeps(all, all, locals, state, added)
  {
  }

  lemma {:induction false} KeepsStep(
    all: set<Tx>, all': set<Tx>, all'': set<Tx>, locals: set<Address>, state: ChainState, added: set<Tx>
  )
    requires Keeps(all, all', locals, state, added) && Keeps(all', all'', locals, state, added)
    ensures Keeps(all, all'', locals, state, added)
  {
    hide Outdated;
  }

  lemma {:induction false} LosesFew(all: set<Tx>, all': set<Tx>, locals: set<Address>, state: ChainState, added: set<Tx>)
    requires all' <= all
    requires forall x :: x in all && x !in all' ==> Outdated(x, state) || x.from !in locals
    ensures Keeps(all, all', locals, state, added)
  {
    hide Outdated;
  }

  lemma {:induction false} AddKeeps(
    all: set<Tx>, all': set<Tx>, locals: set<Address>, state: ChainState, added: set<Tx>, tx: Tx, gone: set<Tx>
  )
    requires tx in added && gone <= all && (all' == all - gone || all' == all - gone + {tx})
    requires forall x :: x in gone ==> x.from !in locals || SamePlace(x, tx)
    ensures Keeps(all, all', locals, state, added)
  {
    hide Outdated, SamePlace;
  }

  /** Local accounts have the same lists. */
  ghost predicate Lighter(lists: Accounts, lists': Accounts, locals: set<Address>) {
    && (forall a {:trigger Of(lists', a)} :: Part(Of(lists, a), Of(lists', a)))
    && (forall a {:trigger Of(lists', a)} :: a in locals ==> Of(lists', a) == Of(lists, a))
  }

  lemma {:induction false} LighterSelf(lists: Accounts, locals: set<Address>)
    ensures Lighter(lists, lists, locals)
  {
  }

  lemma {:induction false} PrefixPart(whole: Items, part: Items)
    requires Prefix(whole, part)
    ensures Part(whole, part) && (|part| == |whole| ==> part == whole)
  {
    assert part.Keys <= whole.Keys;
    if |part| == |whole| {
      SameSize(part.Keys, whole.Keys);
    }
  }

  lemma {:induction false} SameSize(part: set<nat>, whole: set<nat>)
    requires part <= whole && |part| == |whole|
    ensures part == whole
  {
    assert |whole - part| == |whole| - |part|;
  }

  lemma {:induction false} WateredLighter(p0: Accounts, p: Accounts, locals: set<Address>, slots: nat, limit: nat, level: nat)
    requires Watered(p0, p, locals, slots, limit, level)
    ensures Lighter(p0, p, locals)
  {
    hide LevelSize, Prefix, Size, Part;
    forall a {:trigger Of(p, a)}
      ensures Part(Of(p0, a), Of(p, a)) && (a in locals ==> Of(p, a) == Of(p0, a))
    {
      assert LeveledAt(p0, p, locals, level, a);
      if a in p0 {
        PrefixPart(p0[a], Of(p, a));
      } else {
        PartStep(map[], map[], 0);
      }
    }
  }

  lemma {:induction false} TrimmedLighter(q0: Accounts, q: Accounts, locals: set<Address>, beat: Address -> nat)
    requires Trimmed(q0, q, locals, beat)
    ensures Lighter(q0, q, locals)
  {
    hide Prefix, Part;
    forall a {:trigger Of(q, a)}
      ensures Part(Of(q0, a), Of(q, a)) && (a in locals ==> Of(q, a) == Of(q0, a))
    {
      assert a in locals ==> SameAt(q0, q, a);
      PrefixPart(Of(q0, a), Of(q, a));
    }
  }

  /** Whoever cuts lists of remote accounts loses no transaction of a local one. */
  lemma {:induction false} LighterKeeps(
    p: Accounts, q: Accounts, all: set<Tx>, p': Accounts, q': Accounts, all': set<Tx>,
    locals: set<Address>, state: ChainState, added: set<Tx>
  )
    requires Filed(p, q, all, 0, map[]) && Filed(p', q', all', 0, map[])
    requires Lighter(p, p', locals) && Lighter(q, q', locals)
    ensures Keeps(all, all', locals, state, added) && all' <= all
  {
    hide Outdated, Part, Account;
    forall x: Tx ensures x in all' ==> x in all
      ensures x in all && x.from in locals ==> x in all'
    {
      LighterAt(p, q, all, p', q', all', locals, x);
    }
  }

  lemma {:induction false} LighterAt(
    p: Accounts, q: Accounts, all: set<Tx>, p': Accounts, q': Accounts, all': set<Tx>, locals: set<Address>, x: Tx
  )
    requires Filed(p, q, all, 0, map[]) && Filed(p', q', all', 0, map[])
    requires Lighter(p, p', locals) && Lighter(q, q', locals)
    ensures x in all' ==> x in all
    ensures x in all && x.from in locals ==> x in all'
  {
    var a := x.from;
    assert FiledAt(p, q, all, 0, map[], a) && FiledAt(p', q', all', 0, map[], a);
    assert Part(Of(p, a), Of(p', a)) && Part(Of(q, a), Of(q', a));
  }

  // ----- a whole run -----

  /** The pool's lists and transactions between two parts of a run. */
  datatype Middle = Middle(pending: Accounts, queue: Accounts, all: set<Tx>)

  /** A known or invalid transaction changes nothing. Where there is room, a new one is taken exactly if it outbids the
      holder of its place, which then leaves; otherwise others may have to. */
  ghost predicate Took(before: set<Tx>, after: set<Tx>, tx: Tx, valid: bool, limit: nat, bump: nat) {
    if tx in before || !valid then after == before
    else if SlotSum(before) + tx.slots > limit then after <= before + {tx}
    else after == if OutbidsAll(before, tx, bump) then before - Holders(before, tx) + {tx} else before
  }

  ghost predicate TookAll(steps: seq<set<Tx>>, reset: Reset, limit: nat, bump: nat) {
    && |steps| == |reset.reinject| + 1
    && forall k {:trigger steps[k]} :: 0 <= k < |reset.reinject| ==>
         Took(steps[k], steps[k + 1], reset.reinject[k], reset.valid(reset.reinject[k]), limit, bump)
  }

  /** Each transaction has had its turn. */
  ghost predicate Readded(before: set<Tx>, after: set<Tx>, reset: Reset, limit: nat, bump: nat) {
    exists steps :: TookAll(steps, reset, limit, bump) && steps[0] == before && steps[|steps| - 1] == after
  }

  /** What a run promotes of an account. */
  ghost predicate RunOf(queue: Accounts, all: bool, dirty: set<Address>, state: ChainState, start: Address -> nat, promoted: seq<Tx>, a: Address) {
    if (all || a in dirty) && a in queue
    then
      && ReadyRun(Fresh(Of(queue, a), state), start(a), PromotedOf(promoted, a))
      && forall tx :: tx in PromotedOf(promoted, a) ==> Holds(Of(queue, a), tx) && !Outdated(tx, state)
    else PromotedOf(promoted, a) == []
  }

  ghost predicate RunsOf(queue: Accounts, all: bool, dirty: set<Address>, state: ChainState, start: Address -> nat, promoted: seq<Tx>) {
    forall a {:trigger RunOf(queue, all, dirty, state, start, promoted, a)} :: RunOf(queue, all, dirty, state, start, promoted, a)
  }

  ghost predicate QueueFresh(queue: Accounts, state: ChainState) {
    forall tx :: In(queue, tx) ==> !Outdated(tx, state)
  }

  ghost predicate AllFresh(all: set<Tx>, state: ChainState) {
    forall tx :: tx in all ==> !Outdated(tx, state)
  }

  /** The named accounts' queues hold nothing outdated, and are within their limit. */
  ghost predicate NamedFresh(queue: Accounts, locals: set<Address>, dirty: set<Address>, state: ChainState, cap: nat) {
    forall a {:trigger Of(queue, a)} :: a in dirty ==>
      (forall tx :: Holds(Of(queue, a), tx) ==> !Outdated(tx, state)) && (a !in locals ==> |Of(queue, a)| <= cap)
  }

  lemma {:induction false} RunsFrom(
    p0: Accounts, q0: Accounts, p: Accounts, q: Accounts, promoted: seq<Tx>, addresses: seq<Address>,
    state: ChainState, start: Address -> nat, locals: set<Address>, cap: nat, all: bool, dirty: set<Address>
  )
    requires PromotedAll(p0, q0, p, q, promoted, addresses, |addresses|, state, start, locals, cap)
    requires forall a :: a in addresses <==> a in if all then q0.Keys else dirty
    ensures RunsOf(q0, all, dirty, state, start, promoted)
    ensures all ==> QueueFresh(q, state)
    ensures !all ==> NamedFresh(q, locals, dirty, state, cap)
  {
    hide ReadyRun, Outdated, Fresh;
    forall a ensures Named(addresses, |addresses|, a) <==> a in addresses {
    }
    forall a ensures RunOf(q0, all, dirty, state, start, promoted, a) {
      assert PromotedAt(p0, q0, p, q, promoted, addresses, |addresses|, state, start, locals, cap, a);
    }
    if all {
      forall tx | In(q, tx) ensures !Outdated(tx, state) {
        assert PromotedAt(p0, q0, p, q, promoted, addresses, |addresses|, state, start, locals, cap, tx.from);
      }
    } else {
      forall a {:trigger Of(q, a)} | a in dirty
        ensures (forall tx :: Holds(Of(q, a), tx) ==> !Outdated(tx, state)) && (a !in locals ==> |Of(q, a)| <= cap)
      {
        assert PromotedAt(p0, q0, p, q, promoted, addresses, |addresses|, state, start, locals, cap, a);
      }
    }
  }

  lemma {:induction false} DemotedFresh(p: Accounts, q: Accounts, all: set<Tx>, all': set<Tx>, state: ChainState)
    requires Filed(p, q, all, 0, map[]) && QueueFresh(q, state)
    requires forall tx :: tx in all' <==> tx in all && !(In(p, tx) && Outdated(tx, state))
    ensures AllFresh(all', state)
  {
    hide Outdated;
    forall tx | tx in all' ensures !Outdated(tx, state) {
      assert FiledAt(p, q, all, 0, map[], tx.from);
      assert In(p, tx) || In(q, tx);
    }
  }

  lemma {:induction false} FewerFresh(all: set<Tx>, all': set<Tx>, state: ChainState)
    requires AllFresh(all, state) && all' <= all
    ensures AllFresh(all', state)
  {
  }

  lemma {:induction false} LighterFresh(
    q: Accounts, q': Accounts, locals: set<Address>, dirty: set<Address>, state: ChainState, cap: nat
  )
    requires NamedFresh(q, locals, dirty, state, cap) && Lighter(q, q', locals)
    ensures NamedFresh(q', locals, dirty, state, cap)
  {
    hide Outdated;
    forall a {:trigger Of(q', a)} | a in dirty
      ensures (forall tx :: Holds(Of(q', a), tx) ==> !Outdated(tx, state)) && (a !in locals ==> |Of(q', a)| <= cap)
    {
      assert Part(Of(q, a), Of(q', a));
      PartSmaller(Of(q, a), Of(q', a));
    }
  }

  lemma {:induction false} PartSmaller(whole: Items, part: Items)
    requires Part(whole, part)
    ensures |part| <= |whole|
  {
    SubsetSize(part.Keys, whole.Keys);
  }

  lemma {:induction false} SubsetSize(part: set<nat>, whole: set<nat>)
    requires part <= whole
    ensures |part| <= |whole|
  {
    assert |whole - part| == |whole| - |part|;
  }

  /** The accounts of a set, each once, in some order. */
  method AddressesOf(accounts: set<Address>) returns (keys: seq<Address>)
    ensures NoDuplicates(keys) && forall a :: a in keys <==> a in accounts
  {
    keys := [];
    var rest := accounts;
    while rest != {}
      invariant rest <= accounts && NoDuplicates(keys) && forall a :: a in keys <==> a in accounts - rest
      decreases |rest|
    {
      var a :| a in rest;
      assert a !in keys;
      keys := keys + [a];
      rest := rest - {a};
    }
  }
}
