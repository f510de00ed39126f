/** The transaction pool: pending lists, queue, lookup set and price heaps, changed together. */
module TxPool {
  import opened Common
  import opened Transactions
  import opened SortedMap
  import opened TxList
  import opened Lookup
  import opened PricedList
  import opened Filing
  import opened WaterFilling
  import opened QueueTrimming
  import opened PoolMoves

  datatype HeapState = HeapState(urgent: seq<Tx>, floating: seq<Tx>, stales: int, baseFee: Option<nat>)

  /** The urgent heap has got the transaction and the price heaps are otherwise the same. */
  ghost predicate Pushed(before: HeapState, after: HeapState, tx: Tx) {
    && multiset(after.urgent) == multiset(before.urgent) + multiset{tx}
    && after.floating == before.floating && after.stales == before.stales && after.baseFee == before.baseFee
  }

  /** The heaps are the same unless there are too many stale entries. */
  ghost predicate Noted(before: HeapState, after: HeapState, count: nat) {
    before.stales + count <= (|before.urgent| + |before.floating|) / 4 ==> after == before.(stales := before.stales + count)
  }

  class TxPool {
    const config: Config
    const all: TxLookup
    const priced: PricedList
    var pending: Accounts
    var queue: Accounts
    var accounts: set<Address>

    /** Remote transactions are of remote accounts, and each, except for those in `loose`, is in a price heap. */
    ghost predicate Priced(loose: set<Tx>)
      reads this`accounts, all, priced
    {
      && priced.all == all && all.Valid() && priced.Heaps() && Foreign(all.remotes, accounts)
      && Tracked(all.remotes - loose, priced.urgent, priced.floating)
    }

    ghost predicate Valid()
      reads this, all, priced
    {
      ValidBut({})
    }

    /** `all` is exactly the pending and the queued transactions, filed under sender and nonce without overlap;
        no list is empty; and every remote transaction, except for those in `loose`, is in a price heap. */
    ghost predicate ValidBut(loose: set<Tx>)
      reads this, all, priced
    {
      && Priced(loose)
      && Filed(pending, queue, all.All(), 0, map[])
      && NonEmpty(pending) && NonEmpty(queue)
    }

    constructor (config: Config)
      ensures Valid() && fresh(all) && fresh(priced) && this.config == config
      ensures pending == map[] && queue == map[] && all.All() == {} && accounts == {}
      ensures all.remotes == {} && Heaps() == HeapState([], [], 0, None)
    {
      this.config := config;
      var lookup := new TxLookup();
      all := lookup;
      priced := new PricedList(lookup);
      pending, queue, accounts := map[], map[], {};
      new;
      forall b ensures FiledAt(pending, queue, all.All(), 0, map[], b) {
      }
    }

    function Heaps(): HeapState
      reads priced
    {
      HeapState(priced.urgent, priced.floating, priced.stales, priced.baseFee)
    }

    /** How many transactions an account may queue; local accounts have no limit. */
    function QueueLimit(a: Address): Option<nat>
      reads this`accounts
    {
      if a in accounts then None else Some(config.accountQueue)
    }

    /** Tells the price heaps that transactions have gone. */
    method Gone(count: nat, ghost loose: set<Tx>)
      requires Priced(loose)
      modifies priced`urgent, priced`floating, priced`stales
      ensures Priced(loose) && Noted(old(Heaps()), Heaps(), count)
    {
      hide Tally;
      priced.Removed(count);
      if Tracked(all.remotes, priced.urgent, priced.floating) {
        TrackedLess(all.remotes, all.remotes - loose, priced.urgent, priced.floating);
      }
    }

    /** Takes a transaction out of the lookup set. */
    method Unlist(tx: Tx, ghost loose: set<Tx>)
      requires Priced(loose)
      modifies all
      ensures Priced(loose) && all.All() == old(all.All()) - {tx}
      ensures all.remotes == old(all.remotes) - {tx}
    {
      all.Remove(tx);
      TrackedLess(old(all.remotes) - loose, all.remotes - loose, priced.urgent, priced.floating);
    }

    method List(tx: Tx, local: bool, ghost loose: set<Tx>)
      requires Priced(loose) && tx !in all.All() && (tx.from in accounts ==> local)
      modifies all, priced`urgent, priced`floating, priced`stales
      ensures Priced(loose) && all.All() == old(all.All()) + {tx}
      ensures all.remotes == old(all.remotes) + (if local then {} else {tx})
      ensures multiset(priced.urgent) == multiset(old(priced.urgent)) + (if local then multiset{} else multiset{tx})
      ensures priced.floating == old(priced.floating) && priced.stales == old(priced.stales) && priced.baseFee == old(priced.baseFee)
    {
      hide Tracked;
      all.Add(tx, local);
      priced.Put(tx, local);
      if local {
        assert all.remotes == old(all.remotes);
      } else {
        TrackedMore(old(all.remotes) - loose, old(priced.urgent), priced.floating, priced.urgent, tx);
        TrackedLess(old(all.remotes) - loose + {tx}, all.remotes - loose, priced.urgent, priced.floating);
      }
    }

    /** Tries to insert into the queue; an older transaction with the nonce stays unless it is outbid. */
    method EnqueueTx(tx: Tx, local: bool, addAll: bool, ghost loose: set<Tx>) returns (replaced: bool, ok: bool)
      requires Priced(loose) && (addAll ==> tx !in all.All() && (tx.from in accounts ==> local))
      modifies this`queue, all, priced`urgent, priced`floating, priced`stales
      ensures Priced(loose)
      ensures ok == Accepts(Of(old(queue), tx.from), tx, config.priceBump)
      ensures replaced == (ok && tx.nonce in Of(old(queue), tx.from))
      ensures !ok ==> queue == old(queue) && all.All() == old(all.All())
      ensures ok ==> queue == old(queue)[tx.from := Of(old(queue), tx.from)[tx.nonce := tx]]
      ensures ok ==>
        all.All() == old(all.All()) - Replaced(Of(old(queue), tx.from), tx.nonce) + if addAll then {tx} else {}
      ensures ok && !replaced && addAll && !local ==> all.remotes == old(all.remotes) + {tx} && Pushed(old(Heaps()), Heaps(), tx)
    {
      hide Tracked, Tally;
      var list := Of(queue, tx.from);
      if !Accepts(list, tx, config.priceBump) {
        return false, false;
      }
      queue := queue[tx.from := list[tx.nonce := tx]];
      replaced := tx.nonce in list;
      if replaced {
        Unlist(list[tx.nonce], loose);
        Gone(1, loose);
      }
      if addAll {
        List(tx, local, loose);
      }
      ok := true;
    }

    /** Tries to insert into the pending list; an older transaction with the nonce stays unless it is outbid,
        and then the newcomer is forgotten. */
    method PromoteTx(addr: Address, tx: Tx) returns (ok: bool)
      requires Priced({})
      modifies this`pending, all, priced`urgent, priced`floating, priced`stales
      ensures Priced({})
      ensures ok == Accepts(Of(old(pending), addr), tx, config.priceBump)
      ensures !ok ==> pending == old(pending) && all.All() == old(all.All()) - {tx}
      ensures ok ==> pending == old(pending)[addr := Of(old(pending), addr)[tx.nonce := tx]]
      ensures ok ==> all.All() == old(all.All()) - Replaced(Of(old(pending), addr), tx.nonce)
    {
      hide Tracked, Tally;
      var list := Of(pending, addr);
      if !Accepts(list, tx, config.priceBump) {
        Unlist(tx, {});
        Gone(1, {});
        return false;
      }
      pending := pending[addr := list[tx.nonce := tx]];
      if tx.nonce in list {
        Unlist(list[tx.nonce], {});
        Gone(1, {});
      }
      ok := true;
    }

    /** Takes a list of transactions out of the lookup set. */
    method UnlistAll(gone: Items)
      requires Priced({}) && Keyed(gone)
      modifies all
      ensures Priced({})
      ensures forall tx :: tx in all.All() <==> tx in old(all.All()) && !Holds(gone, tx)
    {
      hide Tracked;
      var rest := gone;
      while rest != map[]
        invariant Priced({}) && forall n :: n in rest ==> n in gone && rest[n] == gone[n]
        invariant forall tx :: tx in all.All() <==> tx in old(all.All()) && !(Holds(gone, tx) && tx.nonce !in rest)
        decreases |rest|
      {
        var n :| n in rest;
        Unlist(gone[n], {});
        rest := rest - {n};
      }
    }

    /** Moves transactions back into their sender's queue; none of them is lost. */
    method Requeue(a: Address, f: Items, ghost loose: set<Tx>)
      requires Priced(loose) && Filed(pending, queue, all.All(), a, f) && NonEmpty(queue)
      requires forall n :: n in f ==> f[n].nonce == n
      modifies this`queue, all, priced`urgent, priced`floating, priced`stales
      ensures Priced(loose) && Filed(pending, queue, all.All(), a, map[]) && NonEmpty(queue)
      ensures all.All() == old(all.All())
      ensures OnlyAt(a, old(queue), queue) && Divides(Of(queue, a), Of(old(queue), a), f)
    {
      hide Noted, Pushed, Filed, Priced, Outbids, Taking, Divides, OnlyAt, NonEmpty;
      var rest := f;
      ghost var done: Items := map[];
      TakeStart(queue, a, f);
      while rest != map[]
        invariant Priced(loose) && Filed(pending, queue, all.All(), a, rest) && NonEmpty(queue)
        invariant all.All() == old(all.All())
        invariant Taking(old(queue), queue, a, f, done, rest)
        decreases |rest|
      {
        var n :| n in rest;
        NextIn(old(queue), queue, a, f, done, rest, n);
        Requeued(pending, queue, all.All(), a, rest, rest[n]);
        TakeStep(old(queue), queue, a, f, done, rest, n);
        var _, ok := EnqueueTx(rest[n], false, false, loose);
        done := done[n := rest[n]];
        rest := rest - {n};
      }
      TakeEnd(old(queue), queue, a, f, done);
    }

    /** Removes a transaction; those above it in a pending list go back to the queue and nothing else is lost. */
    method RemoveTx(tx: Tx, outofbound: bool, ghost loose: set<Tx>)
      requires ValidBut(loose)
      modifies this`pending, this`queue, all, priced`urgent, priced`floating, priced`stales
      ensures ValidBut(loose) && all.All() == old(all.All()) - {tx}
      ensures OnlyAt(tx.from, old(pending), pending) && OnlyAt(tx.from, old(queue), queue)
      ensures var p := Of(old(pending), tx.from);
              Of(pending, tx.from) == if tx in old(all.All()) then AfterRemove(p, true, tx.nonce) else p
      ensures tx in old(all.All()) && tx.nonce !in Of(old(pending), tx.from) ==>
                pending == old(pending) && queue == Store(old(queue), tx.from, Of(old(queue), tx.from) - {tx.nonce})
      ensures tx in old(all.remotes) && tx.nonce !in Of(old(pending), tx.from) ==> all.remotes == old(all.remotes) - {tx}
      ensures tx in old(all.All()) && outofbound && tx.nonce !in Of(old(pending), tx.from) ==> Noted(old(Heaps()), Heaps(), 1)
    {
      hide Noted, Filed, Tracked, Outbids, Divides, NonEmpty;
      var a := tx.from;
      if tx !in all.locals && tx !in all.remotes {
        SameAccounts(a, pending, {});
        SameAccounts(a, queue, {});
        return;
      }
      AtRest(pending, queue, all.All(), 0, a);
      Located(pending, queue, all.All(), tx);
      Unlist(tx, loose);
      if outofbound {
        Gone(1, loose);
      }
      var p, q := Of(pending, a), Of(queue, a);
      if tx.nonce in p {
        var p', f := AfterRemove(p, true, tx.nonce), Selected(p, Above(tx.nonce));
        RemoveDivides(p, tx);
        StoreOne(pending, a, p');
        CutPending(pending, queue, old(all.All()), a, p', p - p'.Keys, map[tx.nonce := tx], f, Store(pending, a, p'), all.All());
        pending := Store(pending, a, p');
        Requeue(a, f, loose);
      } else {
        RemoveQueued(p, q, tx);
        var q' := q - {tx.nonce};
        StoreOne(queue, a, q');
        CutQueue(pending, queue, old(all.All()), a, q', map[tx.nonce := tx], map[tx.nonce := tx], map[], Store(queue, a, q'), all.All());
        queue := Store(queue, a, q');
        SameAccounts(a, pending, {});
      }
      AtRest(pending, queue, all.All(), a, 0);
    }

    /** Moves ready transactions into the pending list; each of them is accepted. */
    method PromoteAll(a: Address, ready: seq<Tx>, ghost f: Items) returns (promoted: seq<Tx>)
      requires Priced({}) && Filed(pending, queue, all.All(), a, f) && NonEmpty(pending) && Lists(f, ready)
      modifies this`pending, all, priced`urgent, priced`floating, priced`stales
      ensures Priced({}) && Filed(pending, queue, all.All(), a, map[]) && NonEmpty(pending)
      ensures all.All() == old(all.All()) && promoted == ready
      ensures OnlyAt(a, old(pending), pending) && Divides(Of(pending, a), Of(old(pending), a), f)
    {
      hide Noted, Pushed, Filed, Priced, Outbids, Taking, Divides, OnlyAt, NonEmpty, Lists;
      promoted := [];
      ghost var done: Items := map[];
      ghost var rest := f;
      KeysMatch(f, ready);
      TakeStart(pending, a, f);
      assert ready[0..] == ready;
      for i := 0 to |ready|
        invariant Priced({}) && Filed(pending, queue, all.All(), a, rest) && NonEmpty(pending)
        invariant all.All() == old(all.All()) && promoted == ready[..i] && Lists(rest, ready[i..])
        invariant Taking(old(pending), pending, a, f, done, rest)
      {
        NextReady(old(pending), pending, a, f, done, rest, ready[i..]);
        assert ready[i..][1..] == ready[i + 1..];
        Promoted(pending, queue, all.All(), a, rest, ready[i]);
        TakeStep(old(pending), pending, a, f, done, rest, ready[i].nonce);
        ghost var known := all.All();
        var ok := PromoteTx(a, ready[i]);
        assert all.All() == known;
        if ok {
          promoted := promoted + [ready[i]];
        }
        done := done[ready[i].nonce := ready[i]];
        rest := rest - {ready[i].nonce};
      }
      NothingLeft(rest, ready[|ready|..]);
      TakeEnd(old(pending), pending, a, f, done);
    }

    /** Drops an account's queued transactions that are outdated, moves the ready ones to its pending list,
        and drops the highest nonces over the queue limit of an account that is not local. */
    method PromoteAccount(a: Address, state: ChainState, start: nat) returns (promoted: seq<Tx>, ghost f: Items)
      requires Valid() && a in queue
      modifies this`pending, this`queue, all, priced`urgent, priced`floating, priced`stales
      ensures Valid() && OnlyAt(a, old(pending), pending) && OnlyAt(a, old(queue), queue)
      ensures Lists(f, promoted) && Divides(Of(pending, a), Of(old(pending), a), f)
      ensures Survives(Of(old(queue), a), Of(queue, a), f, a, state)
      ensures ReadyRun(Usable(Of(old(queue), a), a, state), start, promoted)
      ensures Loses(Of(old(queue), a), Of(queue, a), a, old(all.All()), all.All(), state, QueueLimit(a))
      ensures a !in accounts ==> |Of(queue, a)| <= config.accountQueue
      ensures AccountPromoted(Of(old(pending), a), Of(old(queue), a), Of(pending, a), Of(queue, a), promoted, state, start, QueueLimit(a))
      ensures forall tx :: tx in promoted ==> tx.from == a
    {
      hide AccountPromoted, Below, Exceeding, In, NoRepeats, Tracked;
      hide Noted, Pushed, Filed, Priced, Divides, OnlyAt, NonEmpty, Owned, Keyed, Lists, Kept, Selected, Stale, Splits, IsReady;
      hide Store, TxLookup.All, Survives, Loses, ReadyRun;
      AtRest(pending, queue, all.All(), 0, a);
      OwnLists(pending, queue, all.All(), a, map[]);
      var q := queue[a];
      OwnedKeyed(q, a);
      var nonce, costLimit, gasLimit := state.nonce(a), state.balance(a), state.maxGas;
      var forwards, l1 := Selected(q, Below(nonce)), Kept(q, Below(nonce));
      var drops, l2 := Selected(l1, Exceeding(costLimit, gasLimit)), Kept(l1, Exceeding(costLimit, gasLimit));
      FreshPart(q, nonce, costLimit, gasLimit);
      StaleParts(q, nonce, costLimit, gasLimit);
      ghost var stale := Stale(q, nonce, costLimit, gasLimit);
      var ready, l3, f' := ReadyOf(l2, start);
      f := f';
      DivideFresh(q, l2, stale, l3, f);
      UnlistAll(forwards);
      UnlistAll(drops);
      StoreOne(queue, a, l3);
      CutQueue(pending, queue, old(all.All()), a, l3, q - l3.Keys, stale, f, queue[a := l3], all.All());
      queue := queue[a := l3];
      promoted := PromoteAll(a, ready, f);
      ghost var before := all.All();
      var l4, caps := CapAccount(a);
      Gone(|forwards| + |drops| + |caps|, {});
      StoreAgain(old(queue), a, l3, l4);
      StoreOne(old(queue), a, l4);
      AtRest(pending, queue, all.All(), a, 0);
      FiledStore(pending, queue, all.All(), a, l4);
      queue := Store(queue, a, l4);
      assert Priced({}) && Filed(pending, queue, all.All(), 0, map[]);
      assert NonEmpty(pending) && NonEmpty(queue);
      PromoteOutcome(q, l2, stale, l3, f, l4, caps, old(all.All()), before, all.All(), a, state, QueueLimit(a));
      AccountOutcome(q, l2, stale, l3, f, l4, caps, Of(old(pending), a), Of(pending, a), promoted, a, state, start, QueueLimit(a));
      RunIsOwn(q, l2, stale, l3, f, promoted, a);
    }

    /** Promotes whatever has become executable: no pending transaction is displaced, each promotion succeeds,
        and a queued transaction is only lost for being outdated or over a remote account's queue limit. */
    method PromoteExecutables(addresses: seq<Address>, state: ChainState, start: Address -> nat) returns (promoted: seq<Tx>)
      requires Valid()
      modifies this`pending, this`queue, all, priced`urgent, priced`floating, priced`stales
      ensures Valid() && all.All() <= old(all.All())
      ensures forall tx :: In(pending, tx) <==> In(old(pending), tx) || tx in promoted
      ensures forall tx :: tx in promoted || In(queue, tx) ==> In(old(queue), tx)
      ensures forall tx :: tx in old(all.All()) && tx !in all.All() ==>
                In(old(queue), tx) && (Outdated(tx, state) || tx.from !in accounts)
      // each named account is promoted exactly as far as it is ready, and the others are left alone
      ensures NoDuplicates(addresses) ==>
                PromotedAll(old(pending), old(queue), pending, queue, promoted, addresses, |addresses|, state, start,
                            accounts, config.accountQueue)
    {
      hide PromotedAll, AccountPromoted, NoDuplicates;
      hide Noted, Pushed, Filed, Priced, Divides, OnlyAt, NonEmpty, Lists, Survives, Loses, ReadyRun, TxLookup.All, In, Outdated, Of;
      promoted := [];
      PromotedStart(pending, queue, addresses, state, start, accounts, config.accountQueue);
      for i := 0 to |addresses|
        invariant Valid() && accounts == old(accounts)
        invariant NoDuplicates(addresses) ==>
                    PromotedAll(old(pending), old(queue), pending, queue, promoted, addresses, i, state, start, accounts, config.accountQueue)
        invariant Promoting(old(pending), old(queue), old(all.All()), pending, queue, all.All(), promoted, state, accounts)
      {
        if addresses[i] in queue {
          ghost var p, q, known := pending, queue, all.All();
          var more, f := PromoteAccount(addresses[i], state, start(addresses[i]));
          PromotingStep(old(pending), old(queue), old(all.All()), p, q, known, promoted, state, accounts,
                        addresses[i], f, pending, queue, all.All(), more);
          if NoDuplicates(addresses) {
            PromotedNext(old(pending), old(queue), p, q, promoted, addresses, i, state, start, accounts, config.accountQueue,
                         pending, queue, more);
          }
          promoted := promoted + more;
        } else if NoDuplicates(addresses) {
          PromotedSkip(old(pending), old(queue), pending, queue, promoted, addresses, i, state, start, accounts, config.accountQueue);
        }
      }
    }

    /** Drops the highest nonces over the queue limit, unless the account is local. */
    method CapAccount(a: Address) returns (left: Items, caps: Items)
      requires Priced({}) && Filed(pending, queue, all.All(), a, map[])
      modifies this`queue, all
      ensures Priced({}) && Filed(pending, queue, all.All(), a, map[])
      ensures queue == old(queue)[a := left]
      ensures Divides(Of(old(queue), a), left, caps) && Ordered(left, caps)
      ensures forall tx :: tx in all.All() <==> tx in old(all.All()) && !Holds(caps, tx)
      ensures caps != map[] ==> QueueLimit(a).Some? && |left| == QueueLimit(a).value
      ensures a !in accounts ==> |left| <= config.accountQueue
    {
      hide Noted, Pushed, Filed, Priced, Divides, OnlyAt, Owned, Keyed, Splits, Ordered, TxLookup.All;
      var q := Of(queue, a);
      OwnLists(pending, queue, all.All(), a, map[]);
      OwnedKeyed(q, a);
      left, caps := q, map[];
      if a in accounts {
        DivideNothing(q);
      } else {
        left, caps := CapOf(q, config.accountQueue);
        KeyedPart(q, left, caps);
        UnlistAll(caps);
      }
      DivideNothing(caps);
      StoreOne(queue, a, left);
      CutQueue(pending, queue, old(all.All()), a, left, caps, caps, map[], queue[a := left], all.All());
      queue := queue[a := left];
    }

    /** Moves a pending list that does not start at the next nonce back to the queue. */
    method CloseGap(a: Address, l2: Items, nonce: nat) returns (l3: Items)
      requires Priced({}) && Filed(pending, queue, all.All(), a, map[]) && NonEmpty(queue)
      requires a in pending && pending[a] == l2 && forall n :: n in l2 ==> l2[n].nonce == n
      modifies this`pending, this`queue, all, priced`urgent, priced`floating, priced`stales
      ensures Priced({}) && Filed(pending, queue, all.All(), a, map[]) && NonEmpty(queue)
      ensures all.All() == old(all.All()) && OnlyAt(a, old(queue), queue)
      ensures l3 == (if nonce in l2 then l2 else map[]) && pending == old(pending)[a := l3]
    {
      hide Noted, Pushed, Filed, Priced, Divides, OnlyAt, NonEmpty, Owned, TxLookup.All;
      SameAccounts(a, queue, {});
      l3 := l2;
      if |l2| > 0 && nonce !in l2 {
        l3 := map[];
        DivideNothing(l2);
        StoreOne(pending, a, l3);
        CutPending(pending, queue, all.All(), a, l3, l2, map[], l2, pending[a := l3], all.All());
        pending := pending[a := l3];
        Requeue(a, l2, {});
      } else {
        assert pending == pending[a := l3];
      }
    }

    /** Leaves of an account's pending list what is executable, forgets what is outdated,
        and moves all the rest back to the queue. */
    method DemoteAccount(a: Address, state: ChainState)
      requires Valid() && a in pending
      modifies this`pending, this`queue, all, priced`urgent, priced`floating, priced`stales
      ensures Valid() && OnlyAt(a, old(pending), pending) && OnlyAt(a, old(queue), queue)
      ensures Of(pending, a) == Executable(Of(old(pending), a), state.nonce(a), state.balance(a), state.maxGas)
      ensures forall tx :: tx in all.All() <==>
                tx in old(all.All()) && !(Holds(Of(old(pending), a), tx) && Outdated(tx, state))
    {
      hide Noted, Pushed, Filed, Priced, Divides, OnlyAt, NonEmpty, Owned, Keyed, Kept, Selected, Stale, Affordable, Invalidated;
      hide Store, TxLookup.All, Outdated;
      AtRest(pending, queue, all.All(), 0, a);
      OwnLists(pending, queue, all.All(), a, map[]);
      var p := pending[a];
      OwnedKeyed(p, a);
      var nonce, costLimit, gasLimit := state.nonce(a), state.balance(a), state.maxGas;
      var olds, l1 := Selected(p, Below(nonce)), Kept(p, Below(nonce));
      var drops, invalids := Selected(l1, Exceeding(costLimit, gasLimit)), Invalidated(l1, true, costLimit, gasLimit);
      var l2 := Affordable(l1, true, costLimit, gasLimit);
      StaleParts(p, nonce, costLimit, gasLimit);
      ghost var stale := Stale(p, nonce, costLimit, gasLimit);
      DemoteParts(p, nonce, costLimit, gasLimit);
      StaleIsOutdated(p, a, state);
      UnlistAll(olds);
      UnlistAll(drops);
      StoreOne(pending, a, l2);
      CutPending(pending, queue, old(all.All()), a, l2, p - l2.Keys, stale, invalids, pending[a := l2], all.All());
      pending := pending[a := l2];
      SameAccounts(a, queue, {});
      Requeue(a, invalids, {});
      ghost var queue1 := queue;
      var l3 := CloseGap(a, l2, nonce);
      OnlyAtChain(a, old(queue), queue1, queue);
      StoreAgain(old(pending), a, l2, l3);
      StoreOne(old(pending), a, l3);
      AtRest(pending, queue, all.All(), a, 0);
      FiledStorePending(pending, queue, all.All(), a, l3);
      assert pending[a := l3] == pending;
      pending := Store(pending, a, l3);
    }

    /** Afterwards every pending list starts at its account's next nonce and holds nothing outdated;
        exactly the pending transactions that were outdated are gone from the pool. */
    method DemoteUnexecutables(state: ChainState)
      requires Valid()
      modifies this`pending, this`queue, all, priced`urgent, priced`floating, priced`stales
      ensures Valid()
      ensures forall a :: a in pending ==> state.nonce(a) in pending[a] && a in old(pending)
      ensures forall tx :: In(pending, tx) ==> In(old(pending), tx) && !Outdated(tx, state)
      ensures forall tx :: tx in all.All() <==> tx in old(all.All()) && !(In(old(pending), tx) && Outdated(tx, state))
    {
      hide Noted, Pushed, Filed, Priced, OnlyAt, NonEmpty, TxLookup.All, Demoting;
      var rest := pending.Keys;
      DemotingStart(pending, queue, all.All(), state);
      while rest != {}
        invariant Valid()
        invariant Demoting(old(pending), old(all.All()), pending, all.All(), rest, state)
        decreases |rest|
      {
        var a :| a in rest;
        ghost var p, known := pending, all.All();
        StillThere(old(pending), old(all.All()), pending, all.All(), rest, state, a);
        DemoteAccount(a, state);
        DemotingStep(old(pending), old(all.All()), p, known, rest, state, a, pending, all.All());
        rest := rest - {a};
      }
      DemotingEnd(old(pending), old(all.All()), pending, all.All(), state);
    }

    /** Puts a new transaction in its nonce's place: in the pending list if the nonce is there, else in the queue. */
    method Insert(tx: Tx, local: bool, isLocal: bool) returns (replaced: bool, ok: bool)
      requires Valid() && tx !in all.All() && tx.nonce <= MAX_UINT64 && isLocal == (local || tx.from in accounts)
      modifies this, all, priced`urgent, priced`floating, priced`stales
      ensures Valid()
      ensures var held := Rival(old(pending), old(queue), tx);
              && ok == Accepts(held, tx, config.priceBump)
              && replaced == (ok && tx.nonce in held)
              && all.All() == if ok then old(all.All()) - Replaced(held, tx.nonce) + {tx} else old(all.All())
      ensures var a, n := tx.from, tx.nonce;
              var p, q := Of(old(pending), a), Of(old(queue), a);
              && pending == (if ok && n in p then old(pending)[a := p[n := tx]] else old(pending))
              && queue == (if ok && n !in p then old(queue)[a := q[n := tx]] else old(queue))
              && accounts == old(accounts) + if ok && n !in p && local then {a} else {}
      ensures tx.nonce !in Rival(old(pending), old(queue), tx) && !isLocal ==>
                all.remotes == old(all.remotes) + {tx} && Pushed(old(Heaps()), Heaps(), tx)
    {
      hide Filed, NonEmpty, OnlyAt, OnlyFrom, Outbids, Priced, Account, TxLookup.All;
      var a := tx.from;
      AtRest(pending, queue, all.All(), 0, a);
      Here(pending, queue, all.All(), a, map[]);
      if tx.nonce in Of(pending, a) {
        var list := pending[a];
        if !Accepts(list, tx, config.priceBump) {
          return false, false;
        }
        NewPending(list, Of(queue, a), a, all.All(), tx);
        StoreOne(pending, a, list[tx.nonce := tx]);
        SameAccounts(a, queue, {});
        Refile(pending, queue, all.All(), a, map[], pending[a := list[tx.nonce := tx]], queue,
               all.All() - Replaced(list, tx.nonce) + {tx}, map[]);
        assert tx.nonce in list[tx.nonce := tx];
        StillNonEmpty(pending, a, list[tx.nonce := tx]);
        pending := pending[a := list[tx.nonce := tx]];
        Unlist(list[tx.nonce], {});
        Gone(1, {});
        List(tx, isLocal, {});
        assert all.All() == old(all.All()) - Replaced(list, tx.nonce) + {tx};
        AtRest(pending, queue, all.All(), a, 0);
        return true, true;
      }
      var list := Of(queue, a);
      NewQueued(Of(pending, a), list, a, all.All(), tx);
      StoreOne(queue, a, list[tx.nonce := tx]);
      SameAccounts(a, pending, {});
      Refile(pending, queue, all.All(), a, map[], pending, queue[a := list[tx.nonce := tx]],
             all.All() - Replaced(list, tx.nonce) + {tx}, map[]);
      assert tx.nonce in list[tx.nonce := tx];
      StillNonEmpty(queue, a, list[tx.nonce := tx]);
      replaced, ok := EnqueueTx(tx, isLocal, true, {});
      if !ok {
        return false, false;
      }
      AtRest(pending, queue, all.All(), a, 0);
      if local && a !in accounts {
        MarkLocal(a);
      }
    }

    /** Makes an account local, with all its transactions. */
    method MarkLocal(a: Address)
      requires Priced({})
      modifies this`accounts, all, priced`urgent, priced`floating, priced`stales
      ensures Priced({}) && all.All() == old(all.All()) && accounts == old(accounts) + {a}
    {
      hide Tracked;
      accounts := accounts + {a};
      var migrated := all.RemoteToLocals(accounts);
      TrackedLess(old(all.remotes) - {}, all.remotes - {}, priced.urgent, priced.floating);
      Gone(migrated, {});
    }

    /** How many slots a new transaction needs to be freed. */
    function Need(tx: Tx): int
      reads all
    {
      all.slots - (config.globalSlots + config.globalQueue) + tx.slots
    }

    /** How often each transaction occurs in the price heaps. */
    ghost function Entries(): multiset<Tx>
      reads priced
    {
      Tally(priced.urgent, priced.floating, [])
    }

    /** A remote transaction that the price heaps hold twice, that is the cheapest and floats alone if at all. */
    ghost predicate Leader(x: Tx)
      reads all, priced
    {
      Leads(all.remotes, priced.floating, priced.baseFee, x) && Entries()[x] >= 2
    }

    ghost predicate Unwanted(tx: Tx)
      reads all, priced
    {
      IsUnderpriced(all.remotes, priced.urgent, priced.floating, priced.baseFee, tx)
    }

    /** Evicts the cheapest remote transactions until the newcomer fits, or fails and changes nothing. */
    method MakeRoom(tx: Tx, isLocal: bool) returns (err: Option<AddError>, ghost drop: seq<Tx>)
      requires Valid() && Need(tx) > 0
      modifies this`pending, this`queue, all, priced`urgent, priced`floating, priced`stales
      ensures Valid()
      ensures err == if !isLocal && old(Unwanted(tx)) then Some(Underpriced)
                     else if !isLocal && old(LiveSlots(all.remotes, Entries())) < old(Need(tx)) then Some(Overflow)
                     else None
      ensures err.Some? ==> pending == old(pending) && queue == old(queue) && drop == []
      ensures err.None? ==> Takes(old(all.remotes), old(Entries()), old(Need(tx)), drop)
      ensures Elements(drop) <= old(all.remotes) && all.All() == old(all.All()) - Elements(drop)
      ensures err.None? ==> forall x :: old(Leader(x)) && old(Need(tx)) <= 2 * x.slots ==> Elements(drop) == {x}
    {
      hide Filed, NonEmpty, OnlyAt, Outbids, Tracked, Tally, LiveSame, LiveSlots, Takes, IsUnderpriced, SeqSlots, AfterRemove;
      hide Leads, LeadersFirst, Cheaper;
      assert all.remotes - {} == all.remotes;
      ghost var before := Entries();
      LiveSameAll(all.remotes, before);
      drop := [];
      if !isLocal {
        var under := priced.Underpriced(tx);
        if under {
          return Some(Underpriced), drop;
        }
      }
      ghost var urgent, floating := priced.urgent, priced.floating;
      var need := Need(tx);
      var evicted, success, taken := priced.Discard(need, isLocal);
      TakesSame(all.remotes, before, Tally(urgent, floating, []), need, taken);
      if !isLocal && !success {
        return Some(Overflow), drop;
      }
      drop := evicted;
      LiveSameChain(all.remotes, before, Tally(urgent, floating, []), Tally(priced.urgent, priced.floating, evicted));
      LeadersAlone(all.remotes, before, need, old(priced.floating), floating, priced.baseFee, priced.urgent, priced.floating, evicted);
      TakesLive(all.remotes, before, need, evicted);
      TrackedBut(all.remotes, urgent, floating, priced.urgent, priced.floating, evicted);
      Evict(evicted);
      err := None;
    }

    /** Removes the evicted transactions one by one; one that occurs again is gone already. */
    method Evict(drop: seq<Tx>)
      requires ValidBut(Elements(drop))
      modifies this`pending, this`queue, all, priced`urgent, priced`floating, priced`stales
      ensures Valid() && all.All() == old(all.All()) - Elements(drop)
    {
      hide Filed, NonEmpty, OnlyAt, Tracked, AfterRemove;
      for i := 0 to |drop|
        invariant ValidBut(Elements(drop))
        invariant all.All() == old(all.All()) - Elements(drop[..i])
      {
        EvictStep(drop, i, old(all.All()));
        RemoveTx(drop[i], false, Elements(drop));
      }
      assert drop[..|drop|] == drop;
      TrackedLess(all.remotes - Elements(drop), all.remotes - {}, priced.urgent, priced.floating);
    }

    /** Why a new transaction finds no room. */
    ghost function Refusal(tx: Tx, isLocal: bool): Option<AddError>
      reads all, priced
    {
      if Need(tx) <= 0 || isLocal then None
      else if Unwanted(tx) then Some(Underpriced)
      else if LiveSlots(all.remotes, Entries()) < Need(tx) then Some(Overflow)
      else None
    }

    /** Makes room if the pool is full. */
    method RoomFor(tx: Tx, isLocal: bool) returns (err: Option<AddError>, ghost evicted: set<Tx>)
      requires Valid()
      modifies this`pending, this`queue, all, priced`urgent, priced`floating, priced`stales
      ensures Valid() && err == old(Refusal(tx, isLocal))
      ensures err.Some? ==> pending == old(pending) && queue == old(queue) && evicted == {}
      ensures evicted <= old(all.remotes) && all.All() == old(all.All()) - evicted
      ensures old(Need(tx)) <= 0 ==>
                && evicted == {} && pending == old(pending) && queue == old(queue)
                && all.remotes == old(all.remotes) && Heaps() == old(Heaps())
      ensures err.None? && !isLocal && NoRepeats(old(all.remotes), old(priced.urgent), old(priced.floating)) ==>
                SlotSum(evicted) >= old(Need(tx))
      ensures err.None? && old(Need(tx)) > 0 ==>
                forall x :: old(Leader(x)) && old(Need(tx)) <= 2 * x.slots ==> evicted == {x}
    {
      hide ValidBut, Tally, LiveSlots, Takes, IsUnderpriced, NoRepeats, Leader;
      err, evicted := None, {};
      if all.slots + tx.slots > config.globalSlots + config.globalQueue {
        ghost var drop;
        err, drop := MakeRoom(tx, isLocal);
        evicted := Elements(drop);
        if err.None? {
          Makes(old(all.remotes), old(priced.urgent), old(priced.floating), old(Need(tx)), drop);
        }
      }
    }

    /** Puts a new transaction in its place, unless it does not outbid the one that is there. */
    method Place(tx: Tx, local: bool, isLocal: bool) returns (replaced: bool, ok: bool)
      requires Valid() && tx !in all.All() && tx.nonce <= MAX_UINT64 && isLocal == (local || tx.from in accounts)
      modifies this, all, priced`urgent, priced`floating, priced`stales
      ensures Valid()
      ensures ok == OutbidsAll(old(all.All()), tx, config.priceBump) && replaced == (ok && Holders(old(all.All()), tx) != {})
      ensures all.All() == if ok then old(all.All()) - Holders(old(all.All()), tx) + {tx} else old(all.All())
      ensures !ok ==> pending == old(pending) && queue == old(queue)
      ensures accounts == old(accounts) || (local && accounts == old(accounts) + {tx.from})
      ensures Holders(old(all.All()), tx) == {} && !isLocal ==>
                pending == old(pending) && all.remotes == old(all.remotes) + {tx} && Pushed(old(Heaps()), Heaps(), tx)
    {
      hide Filed, NonEmpty, Priced, Pushed, Outbids, OutbidsAll, Holders;
      RivalHere(pending, queue, all.All(), tx, config.priceBump);
      replaced, ok := Insert(tx, local, isLocal);
    }

    /** Adds a transaction, with the exact reasons for refusing it. Local transactions are never evicted for it, and
        the pool holds no more than its configured slots after a remote one is accepted, unless a price heap held an
        entry twice; `gone` is what left the pool, and `evicted` the part of it that made room. */
    method Add(tx: Tx, local: bool, valid: bool)
      returns (replaced: bool, err: Option<AddError>, ghost gone: set<Tx>, ghost evicted: set<Tx>)
      requires Valid() && tx.nonce <= MAX_UINT64
      modifies this, all, priced`urgent, priced`floating, priced`stales
      ensures Valid()
      ensures var isLocal := local || tx.from in old(accounts);
              err == if tx in old(all.All()) then Some(AlreadyKnown)
                     else if !valid then Some(Invalid)
                     else if old(Refusal(tx, isLocal)).Some? then old(Refusal(tx, isLocal))
                     else if !OutbidsAll(old(all.All()) - evicted, tx, config.priceBump) then Some(ReplaceUnderpriced)
                     else None
      ensures gone == evicted + (if err.None? then Holders(old(all.All()) - evicted, tx) else {})
      ensures replaced == (err.None? && Holders(old(all.All()) - evicted, tx) != {})
      ensures evicted <= old(all.remotes) && gone <= old(all.All())
      ensures all.All() == old(all.All()) - gone + if err.None? then {tx} else {}
      ensures forall x :: x in evicted ==> x.from !in old(accounts)
      ensures accounts == old(accounts) || (local && accounts == old(accounts) + {tx.from})
      ensures err.Some? && err.value != ReplaceUnderpriced ==> pending == old(pending) && queue == old(queue) && gone == {}
      ensures err.None? ==> all.slots == old(all.slots) - SlotSum(gone) + tx.slots
      ensures err.None? && !local && tx.from !in old(accounts)
              && NoRepeats(old(all.remotes), old(priced.urgent), old(priced.floating)) ==>
                all.slots <= config.globalSlots + config.globalQueue
      ensures err.None? && old(Need(tx)) > 0 ==>
                forall x :: old(Leader(x)) && old(Need(tx)) <= 2 * x.slots ==> evicted == {x}
      ensures old(Need(tx)) <= 0 ==> evicted == {}
      ensures err.None? && old(Need(tx)) <= 0 && !local && tx.from !in old(accounts) && Holders(old(all.All()), tx) == {} ==>
                pending == old(pending) && all.remotes == old(all.remotes) + {tx} && Pushed(old(Heaps()), Heaps(), tx)
    {
      hide Filed, NonEmpty, Tracked, Refusal, NoRepeats, Leader, Pushed, OutbidsAll;
      gone, evicted := {}, {};
      if tx in all.locals || tx in all.remotes {
        return false, Some(AlreadyKnown), gone, evicted;
      }
      var isLocal := local || tx.from in accounts;
      if !valid {
        return false, Some(Invalid), gone, evicted;
      }
      err, evicted := RoomFor(tx, isLocal);
      gone := evicted;
      if err.Some? {
        return false, err, gone, evicted;
      }
      assert old(all.All()) - {} == old(all.All());
      var ok;
      replaced, ok := Place(tx, local, isLocal);
      if !ok {
        return false, Some(ReplaceUnderpriced), gone, evicted;
      }
      gone := gone + Holders(old(all.All()) - evicted, tx);
      SlotsAfter(old(all.All()), gone, tx);
      SlotSumGrows(evicted, gone);
      err := None;
    }

    /** Drops the highest nonce of a pending list with more than one transaction. */
    method CapOne(a: Address)
      requires Valid() && a in pending && |pending[a]| > 1
      modifies this`pending, all, priced`urgent, priced`floating, priced`stales
      ensures Valid() && a in pending && pending == old(pending)[a := pending[a]]
      ensures Prefix(old(pending[a]), pending[a]) && |pending[a]| == |old(pending[a])| - 1
    {
      hide Noted, Pushed, Filed, Priced, Divides, OnlyAt, Owned, Keyed, NonEmpty, TxLookup.All, Splits, Ordered;
      AtRest(pending, queue, all.All(), 0, a);
      OwnLists(pending, queue, all.All(), a, map[]);
      var p := pending[a];
      OwnedKeyed(p, a);
      var p', caps := CapOf(p, |p| - 1);
      CapIsPrefix(p, p', caps);
      KeyedPart(p, p', caps);
      UnlistAll(caps);
      Gone(|caps|, {});
      DivideNothing(caps);
      StoreOne(pending, a, p');
      StillNonEmpty(pending, a, p');
      CutPending(pending, queue, old(all.All()), a, p', caps, caps, map[], pending[a := p'], all.All());
      pending := pending[a := p'];
      AtRest(pending, queue, all.All(), a, 0);
    }

    /** Drops one transaction from each of the first `m` offenders and keeps the running count. */
    method LowerAll(offenders: seq<Address>, m: nat, total: int) returns (left: int)
      requires Valid() && m <= |offenders| && NoDuplicates(offenders) && total == Size(pending)
      requires forall i :: 0 <= i < m ==> offenders[i] in pending && |pending[offenders[i]]| > 1
      modifies this`pending, all, priced`urgent, priced`floating, priced`stales
      ensures Valid() && left == Size(pending) == total - m
      ensures Lowered(old(pending), pending, Members(offenders[..m]))
    {
      hide ValidBut, Lowered, Size, Prefix;
      left := total;
      NothingLowered(pending);
      assert Members(offenders[..0]) == {};
      for i := 0 to m
        invariant Valid() && left == Size(pending) == total - i
        invariant Lowered(old(pending), pending, Members(offenders[..i]))
        invariant forall j :: i <= j < m ==> offenders[j] in pending && pending[offenders[j]] == old(pending[offenders[j]])
      {
        var a := offenders[i];
        assert a !in offenders[..i];
        assert Members(offenders[..i + 1]) == Members(offenders[..i]) + {a};
        ghost var before := pending;
        CapOne(a);
        LowerOne(old(pending), before, Members(offenders[..i]), a, pending[a]);
        SizeSet(before, a, pending[a]);
        left := left - 1;
      }
    }

    /** Cuts long lists of remote accounts to a common level, as high as the limit allows but no lower than
        the floor of slots that every account is granted. */
    method TruncatePending() returns (ghost level: nat)
      requires Valid() && config.accountSlots >= 1
      modifies this`pending, all, priced`urgent, priced`floating, priced`stales
      ensures Valid()
      ensures Size(old(pending)) <= config.globalSlots ==> pending == old(pending)
      ensures Size(old(pending)) > config.globalSlots ==>
                Watered(old(pending), pending, accounts, config.accountSlots, config.globalSlots, level)
    {
      hide ValidBut, Filling, Equalising, Size, Watered, Lowered, NoDuplicates;
      level := 0;
      var limit, slots := config.globalSlots, config.accountSlots;
      var total := CountTxs(pending);
      if total <= limit {
        return;
      }
      ghost var p0 := pending;
      var spammers := set a | a in pending && Big(pending, accounts, slots, a);
      var offenders: seq<Address> := [];
      FillingStart(p0, accounts, slots, limit, spammers);
      while total > limit && spammers != {}
        invariant Valid() && total == Size(pending)
        invariant Filling(p0, pending, accounts, slots, limit, offenders, spammers, level)
        invariant offenders == [] ==> pending == p0 && level == 0
        decreases |spammers|
      {
        SpammersKnown(p0, pending, accounts, slots, limit, offenders, spammers, level);
        ghost var largest := LargestExists(pending, spammers);
        var o :| o in spammers && forall a :: a in spammers ==> |Of(pending, a)| <= |Of(pending, o)|;
        if offenders == [] {
          PopFirst(p0, accounts, slots, limit, spammers, o);
          level := |p0[o]|;
          offenders := [o];
          spammers := spammers - {o};
        } else {
          PopNext(p0, pending, accounts, slots, limit, offenders, spammers, level, o);
          offenders := offenders + [o];
          spammers := spammers - {o};
          var threshold := |pending[o]|;
          total, level := Equalise(p0, offenders, spammers, threshold, total, level);
        }
      }
      if total > limit && |offenders| > 0 {
        total, level := LowerToFloor(p0, offenders, total, level);
      }
      FillingEnd(p0, pending, accounts, slots, limit, offenders, spammers, level);
      level := if offenders == [] then slots else level;
    }

    /** Lowers all offenders but the last until they are as short as the last or the limit is met. */
    method Equalise(
      ghost p0: Accounts, offenders: seq<Address>, ghost spammers: set<Address>, threshold: nat, total: int, ghost level: nat
    ) returns (left: int, ghost reached: nat)
      requires Valid() && config.accountSlots >= 1 && total == Size(pending)
      requires Equalising(p0, pending, accounts, config.accountSlots, config.globalSlots, offenders, spammers, level, threshold)
      modifies this`pending, all, priced`urgent, priced`floating, priced`stales
      ensures Valid() && left == Size(pending)
      ensures Filling(p0, pending, accounts, config.accountSlots, config.globalSlots, offenders, spammers, reached)
    {
      hide ValidBut, Filling, Equalising, Size, Lowered, NoDuplicates, Tops;
      left, reached := total, level;
      var limit, slots := config.globalSlots, config.accountSlots;
      ghost var m := |offenders| - 1;
      EqualiseFacts(p0, pending, accounts, slots, limit, offenders, spammers, reached, threshold);
      while left > limit && |pending[offenders[|offenders| - 2]]| > threshold
        invariant Valid() && left == Size(pending)
        invariant |offenders| > 1 && slots < threshold <= reached && NoDuplicates(offenders)
        invariant Equalising(p0, pending, accounts, slots, limit, offenders, spammers, reached, threshold)
        invariant forall i :: 0 <= i < |offenders| - 1 ==> offenders[i] in pending && |pending[offenders[i]]| == reached
        decreases reached
      {
        ghost var before := pending;
        left := LowerAll(offenders, |offenders| - 1, left);
        EqualiseRound(p0, before, pending, accounts, slots, limit, offenders, spammers, reached, threshold);
        reached := reached - 1;
        EqualiseFacts(p0, pending, accounts, slots, limit, offenders, spammers, reached, threshold);
      }
      EqualiseEnd(p0, pending, accounts, slots, limit, offenders, spammers, reached, threshold);
    }

    /** Lowers all offenders until the limit is met or only their granted slots are left. */
    method LowerToFloor(ghost p0: Accounts, offenders: seq<Address>, total: int, ghost level: nat)
      returns (left: int, ghost reached: nat)
      requires Valid() && config.accountSlots >= 1 && total == Size(pending) > config.globalSlots && offenders != []
      requires Filling(p0, pending, accounts, config.accountSlots, config.globalSlots, offenders, {}, level)
      modifies this`pending, all, priced`urgent, priced`floating, priced`stales
      ensures Valid() && left == Size(pending)
      ensures Filling(p0, pending, accounts, config.accountSlots, config.globalSlots, offenders, {}, reached)
      ensures left <= config.globalSlots || reached == config.accountSlots
    {
      hide ValidBut, Filling, Size, Lowered, NoDuplicates, Tops;
      left, reached := total, level;
      var limit, slots := config.globalSlots, config.accountSlots;
      FinalFacts(p0, pending, accounts, slots, limit, offenders, reached);
      while left > limit && |pending[offenders[|offenders| - 1]]| > slots
        invariant Valid() && left == Size(pending) && slots <= reached && NoDuplicates(offenders)
        invariant Filling(p0, pending, accounts, slots, limit, offenders, {}, reached)
        invariant left > limit ==> forall i :: 0 <= i < |offenders| ==> offenders[i] in pending && |pending[offenders[i]]| == reached
        decreases reached
      {
        ghost var before := pending;
        assert offenders[..|offenders|] == offenders;
        left := LowerAll(offenders, |offenders|, left);
        FinalRound(p0, before, pending, accounts, slots, limit, offenders, reached);
        reached := reached - 1;
        if left > limit {
          FinalFacts(p0, pending, accounts, slots, limit, offenders, reached);
        }
      }
    }

    /** Removes one queued transaction of an account. */
    method DropQueued(a: Address, tx: Tx, ghost q0: Accounts, ghost left: Items)
      requires Valid() && queue == Store(q0, a, left) && Holds(left, tx)
      modifies this`pending, this`queue, all, priced`urgent, priced`floating, priced`stales
      ensures Valid() && pending == old(pending) && queue == Store(q0, a, left - {tx.nonce})
    {
      hide Noted, Pushed, Filed, Priced, NonEmpty, OnlyAt, Store, TxLookup.All;
      StoreOne(q0, a, left);
      IsQueued(pending, queue, all.All(), a, tx);
      RemoveTx(tx, true, {});
      StoreTwice(q0, a, left, left - {tx.nonce});
    }

    /** Drops an account's whole queue. */
    method DropAllQueued(a: Address)
      requires Valid() && a in queue
      modifies this`pending, this`queue, all, priced`urgent, priced`floating, priced`stales
      ensures Valid() && pending == old(pending) && queue == old(queue) - {a}
    {
      hide Noted, Pushed, Filed, Priced, Lists, ListsFrom, Store, TxLookup.All, Keyed;
      ghost var left := queue[a];
      StoreSame(queue, a);
      OwnQueue(pending, queue, all.All(), a);
      var txs := FlattenOf(queue[a]);
      AllListed(left, txs);
      for i := 0 to |txs|
        invariant Valid() && pending == old(pending) && queue == Store(old(queue), a, left)
        invariant ListsFrom(left, txs, i)
      {
        FirstListed(left, txs, i);
        DropQueued(a, txs[i], old(queue), left);
        left := left - {txs[i].nonce};
      }
      NoneListed(left, txs);
      StoreNothing(old(queue), a);
    }

    /** Drops the highest nonces of an account's queue. */
    method DropHighestQueued(a: Address, count: nat)
      requires Valid() && a in queue && count <= |queue[a]|
      modifies this`pending, this`queue, all, priced`urgent, priced`floating, priced`stales
      ensures Valid() && pending == old(pending) && queue == Store(old(queue), a, Of(queue, a))
      ensures Prefix(old(queue[a]), Of(queue, a)) && |Of(queue, a)| == |old(queue[a])| - count
    {
      hide Noted, Pushed, Filed, Priced, Lists, ListsFirst, Store, TxLookup.All, Prefix, Keyed, Part;
      ghost var left := queue[a];
      StoreSame(queue, a);
      PartStep(left, left, 0);
      OwnQueue(pending, queue, all.All(), a);
      var txs := FlattenOf(queue[a]);
      AllListed(left, txs);
      var i, drop := |txs|, count;
      while i > 0 && drop > 0
        invariant 0 <= i <= |txs| && drop == count - (|txs| - i) >= 0
        invariant Valid() && pending == old(pending) && queue == Store(old(queue), a, left)
        invariant ListsFirst(left, txs, i) && Part(old(queue[a]), left)
        decreases i
      {
        i := i - 1;
        LastListed(left, txs, i);
        PartStep(old(queue[a]), left, txs[i].nonce);
        DropQueued(a, txs[i], old(queue), left);
        left := left - {txs[i].nonce};
        drop := drop - 1;
      }
      StoreOne(old(queue), a, left);
      PartPrefix(old(queue[a]), txs, left, i);
    }

    /** Drops queued transactions of remote accounts, the most recently active first, until the queue is within
        its limit or only local accounts have any. */
    method TruncateQueue(beat: Address -> nat)
      requires Valid()
      modifies this`pending, this`queue, all, priced`urgent, priced`floating, priced`stales
      ensures Valid() && pending == old(pending) && Trimmed(old(queue), queue, accounts, beat)
      ensures Size(old(queue)) <= config.globalQueue ==> queue == old(queue)
      ensures Size(old(queue)) > config.globalQueue ==>
                || Size(queue) == config.globalQueue
                || (Size(queue) > config.globalQueue && forall a :: a in queue ==> a in accounts)
    {
      hide Noted, Pushed, Filed, Priced, TxLookup.All, OnlyAt, Prefix, Store, Trimming, Trimmed, Size, Lists, NonEmpty;
      var queued := CountTxs(queue);
      var addresses := set a | a in queue && a !in accounts;
      TrimStart(queue, accounts, beat, addresses);
      TrimEnd(queue, queue, accounts, beat, addresses);
      if queued <= config.globalQueue {
        return;
      }
      var drop := queued - config.globalQueue;
      while drop > 0 && addresses != {}
        invariant Valid() && pending == old(pending)
        invariant 0 <= drop == Size(queue) - config.globalQueue
        invariant drop > 0 ==> Trimming(old(queue), queue, accounts, beat, addresses)
        invariant Trimmed(old(queue), queue, accounts, beat)
        decreases |addresses|
      {
        ghost var latest := LatestExists(beat, addresses);
        var a :| a in addresses && forall b :: b in addresses ==> beat(b) <= beat(a);
        ghost var before := queue;
        InRest(old(queue), queue, accounts, beat, addresses, a);
        var size := |queue[a]|;
        if size <= drop {
          TrimAll(old(queue), queue, accounts, beat, addresses, a);
          SizeWithout(queue, a);
          DropAllQueued(a);
          drop := drop - size;
          TrimEnd(old(queue), queue, accounts, beat, addresses - {a});
        } else {
          DropHighestQueued(a, drop);
          TrimPart(old(queue), before, accounts, beat, addresses, a, Of(queue, a));
          SizeStore(before, a, Of(queue, a));
          StoreKeeps(before, a, Of(queue, a));
          drop := 0;
        }
        addresses := addresses - {a};
      }
      if drop > 0 {
        TrimEnd(old(queue), queue, accounts, beat, addresses);
        LocalsOnly(queue, accounts);
      }
    }

    /** One run of the reorg loop: reinject and promote, on a reset also demote, then enforce the limits. A local
        account loses only what is outdated or has been replaced by a reinjected transaction. */
    method RunReorg(reset: Option<Reset>, dirty: set<Address>, state: ChainState, start: Address -> nat, beat: Address -> nat)
      returns (promoted: seq<Tx>, next: map<Address, nat>, ghost mid: Middle)
      requires Valid() && config.accountSlots >= 1
      requires reset.Some? ==> forall i :: 0 <= i < |reset.value.reinject| ==> reset.value.reinject[i].nonce <= MAX_UINT64
      modifies this, all, priced
      ensures Valid()
      ensures reset.Some? ==> Current(pending, state)
      ensures PendingBounded(pending, accounts, config.accountSlots, config.globalSlots)
      ensures Size(queue) <= config.globalQueue || forall a :: a in queue ==> a in accounts
      ensures accounts == old(accounts)
      ensures Keeps(old(all.All()), all.All(), accounts, state, if reset.Some? then Elements(reset.value.reinject) else {})
      ensures next.Keys == pending.Keys && forall a :: a in pending ==> IsNext(pending[a], next[a])
      ensures priced.baseFee == if reset.Some? && reset.value.baseFee.Some? then reset.value.baseFee else old(priced.baseFee)
      // before promotion: a reset has put back its transactions, and otherwise nothing has happened
      ensures reset.None? ==> mid == Middle(old(pending), old(queue), old(all.All()))
      ensures reset.Some? ==> Readded(old(all.All()), mid.all, reset.value, config.globalSlots + config.globalQueue, config.priceBump)
      ensures Filed(mid.pending, mid.queue, mid.all, 0, map[])
      ensures Keeps(old(all.All()), mid.all, accounts, state, if reset.Some? then Elements(reset.value.reinject) else {})
      // the ready runs of the named accounts, after a reset of all accounts, are promoted, and nothing else
      ensures RunsOf(mid.queue, reset.Some?, dirty, state, start, promoted)
      // nothing outdated is left in the pool after a reset, or else in the named accounts' queues
      ensures reset.Some? ==> AllFresh(all.All(), state)
      ensures reset.None? ==> NamedFresh(queue, accounts, dirty, state, config.accountQueue)
    {
      hide PromotedAll, RunsOf, Filed, Readded, AllFresh, QueueFresh, NamedFresh, NoDuplicates, Lighter;
      hide ValidBut, Current, Watered, PendingBounded, Size, Trimmed, In, NoRepeats, IsNext, Outdated, Prefix, Keeps, TxLookup.All;
      ghost var added := if reset.Some? then Elements(reset.value.reinject) else {};
      KeepsAll(all.All(), accounts, state, added);
      var addresses;
      if reset.Some? {
        Reinject(reset.value, state);
        addresses := AddressesOf(queue.Keys);
      } else {
        addresses := AddressesOf(dirty);
      }
      mid := Middle(pending, queue, all.All());
      ValidIsFiled();
      promoted := PromoteExecutables(addresses, state, start);
      RunsFrom(mid.pending, mid.queue, pending, queue, promoted, addresses, state, start, accounts, config.accountQueue, reset.Some?, dirty);
      LosesFew(mid.all, all.All(), accounts, state, added);
      KeepsStep(old(all.All()), mid.all, all.All(), accounts, state, added);
      if reset.Some? {
        Demote(state, old(all.All()), added);
        if reset.value.baseFee.Some? {
          Rebase(reset.value.baseFee.value);
        }
      }
      ghost var known := all.All();
      Truncate(state, reset.Some?, old(all.All()), added);
      ghost var q := queue;
      TrimQueue(state, beat, old(all.All()), added);
      if reset.Some? {
        FewerFresh(known, all.All(), state);
      } else {
        LighterFresh(q, queue, accounts, dirty, state, config.accountQueue);
      }
      next := NextNonces();
    }

    /** Adds one transaction back, as a remote one. */
    method AddBack(tx: Tx, valid: bool) returns (ghost gone: set<Tx>)
      requires Valid() && tx.nonce <= MAX_UINT64
      modifies this, all, priced`urgent, priced`floating, priced`stales
      ensures Valid() && accounts == old(accounts)
      ensures gone <= old(all.All()) && (all.All() == old(all.All()) - gone || all.All() == old(all.All()) - gone + {tx})
      ensures forall x :: x in gone ==> x.from !in accounts || SamePlace(x, tx)
      ensures Took(old(all.All()), all.All(), tx, valid, config.globalSlots + config.globalQueue, config.priceBump)
    {
      hide Filed, NonEmpty, Tracked, NoRepeats, Leader, Pushed, OutbidsAll, Unwanted, SlotSum;
      var _, err, gone', evicted := Add(tx, false, valid);
      gone := gone';
      if evicted == {} {
        assert old(all.All()) - evicted == old(all.All());
      }
    }

    /** Adds transactions that a reorganisation dropped from the chain. */
    method Reinject(reset: Reset, ghost state: ChainState)
      requires Valid() && forall i :: 0 <= i < |reset.reinject| ==> reset.reinject[i].nonce <= MAX_UINT64
      modifies this, all, priced`urgent, priced`floating, priced`stales
      ensures Valid() && accounts == old(accounts)
      ensures Keeps(old(all.All()), all.All(), accounts, state, Elements(reset.reinject))
      ensures Readded(old(all.All()), all.All(), reset, config.globalSlots + config.globalQueue, config.priceBump)
    {
      hide ValidBut, NoRepeats, TxLookup.All, Keeps, Took;
      ghost var added := Elements(reset.reinject);
      KeepsAll(all.All(), accounts, state, added);
      ghost var steps := [all.All()];
      for i := 0 to |reset.reinject|
        invariant Valid() && accounts == old(accounts)
        invariant Keeps(old(all.All()), all.All(), accounts, state, added)
        invariant |steps| == i + 1 && steps[0] == old(all.All()) && steps[i] == all.All()
        invariant forall k :: 0 <= k < i ==>
                    Took(steps[k], steps[k + 1], reset.reinject[k], reset.valid(reset.reinject[k]), config.globalSlots + config.globalQueue, config.priceBump)
      {
        ghost var known := all.All();
        var gone := AddBack(reset.reinject[i], reset.valid(reset.reinject[i]));
        AddKeeps(known, all.All(), accounts, state, added, reset.reinject[i], gone);
        KeepsStep(old(all.All()), known, all.All(), accounts, state, added);
        steps := steps + [all.All()];
      }
      assert TookAll(steps, reset, config.globalSlots + config.globalQueue, config.priceBump);
    }

    method Demote(state: ChainState, ghost known: set<Tx>, ghost added: set<Tx>)
      requires Valid() && Keeps(known, all.All(), accounts, state, added)
      modifies this`pending, this`queue, all, priced`urgent, priced`floating, priced`stales
      ensures Valid() && Current(pending, state) && Keeps(known, all.All(), accounts, state, added)
      ensures old(QueueFresh(queue, state)) ==> AllFresh(all.All(), state)
    {
      hide ValidBut, In, Outdated, TxLookup.All, Keeps, QueueFresh, AllFresh;
      ghost var before := all.All();
      ValidIsFiled();
      ghost var p, q := pending, queue;
      DemoteUnexecutables(state);
      if QueueFresh(q, state) {
        DemotedFresh(p, q, before, all.All(), state);
      }
      LosesFew(before, all.All(), accounts, state, added);
      KeepsStep(known, before, all.All(), accounts, state, added);
    }

    lemma {:induction false} ValidIsFiled()
      requires Valid()
      ensures Filed(pending, queue, all.All(), 0, map[])
    {
    }

    method Rebase(fee: nat)
      requires Valid()
      modifies priced
      ensures Valid() && priced.baseFee == Some(fee)
    {
      hide Filed, Tally, Tracked;
      priced.SetBaseFee(fee);
      assert all.remotes - {} == all.remotes;
    }

    /** Enforces the pending limit; current lists stay current. */
    method Truncate(state: ChainState, ghost current: bool, ghost known: set<Tx>, ghost added: set<Tx>)
      requires Valid() && config.accountSlots >= 1 && (current ==> Current(pending, state))
      requires Keeps(known, all.All(), accounts, state, added)
      modifies this`pending, all, priced`urgent, priced`floating, priced`stales
      ensures Valid() && (current ==> Current(pending, state)) && Keeps(known, all.All(), accounts, state, added)
      ensures PendingBounded(pending, accounts, config.accountSlots, config.globalSlots)
      ensures all.All() <= old(all.All())
    {
      hide Noted, Pushed, Filed, Priced, Current, Watered, Size, TxLookup.All, Keeps, Lighter;
      FiledOwned(pending, queue, all.All());
      ghost var level := TruncatePending();
      LighterSelf(queue, accounts);
      LighterSelf(pending, accounts);
      if Size(old(pending)) > config.globalSlots {
        WateredLighter(old(pending), pending, accounts, config.accountSlots, config.globalSlots, level);
        WateredBounded(old(pending), pending, accounts, config.accountSlots, config.globalSlots, level);
        if current {
          StillCurrent(old(pending), pending, accounts, config.accountSlots, config.globalSlots, level, state);
        }
      }
      LighterKeeps(old(pending), queue, old(all.All()), pending, queue, all.All(), accounts, state, added);
      KeepsStep(known, old(all.All()), all.All(), accounts, state, added);
    }

    /** Enforces the queue limit. */
    method TrimQueue(state: ChainState, beat: Address -> nat, ghost known: set<Tx>, ghost added: set<Tx>)
      requires Valid() && Keeps(known, all.All(), accounts, state, added)
      modifies this`pending, this`queue, all, priced`urgent, priced`floating, priced`stales
      ensures Valid() && pending == old(pending) && Keeps(known, all.All(), accounts, state, added)
      ensures Size(queue) <= config.globalQueue || forall a :: a in queue ==> a in accounts
      ensures all.All() <= old(all.All()) && Lighter(old(queue), queue, accounts)
    {
      hide Noted, Pushed, Filed, Priced, Trimmed, Size, TxLookup.All, Keeps, Lighter;
      TruncateQueue(beat);
      LighterSelf(pending, accounts);
      TrimmedLighter(old(queue), queue, accounts, beat);
      LighterKeeps(pending, old(queue), old(all.All()), pending, queue, all.All(), accounts, state, added);
      KeepsStep(known, old(all.All()), all.All(), accounts, state, added);
    }

    /** The nonce after each account's highest pending one. */
    method NextNonces() returns (next: map<Address, nat>)
      requires Valid()
      ensures next.Keys == pending.Keys
      ensures forall a :: a in pending ==> IsNext(pending[a], next[a])
    {
      hide Noted, Pushed, Filed, Priced, TxLookup.All, IsNext, Keyed;
      next := map[];
      var rest := pending.Keys;
      while rest != {}
        invariant rest <= pending.Keys && next.Keys == pending.Keys - rest
        invariant forall a :: a in next ==> IsNext(pending[a], next[a])
        decreases |rest|
      {
        var a :| a in rest;
        OwnPending(pending, queue, all.All(), a);
        var last := LastOf(pending[a]);
        next := next[a := last.nonce + 1];
        rest := rest - {a};
      }
    }
  }

  /** The bound on slots is lost when a heap entry is repeated: if it is the cheapest and no other floats, a newcomer
      that needs more than its slots and at most twice as many, is not underpriced and has its place free, is accepted
      and overfills the pool. */
  method AddOverfills(pool: TxPool, x: Tx, tx: Tx) returns (replaced: bool, err: Option<AddError>)
    requires pool.Valid() && pool.Leader(x) && x.slots < pool.Need(tx) <= 2 * x.slots
    requires tx.nonce <= MAX_UINT64 && tx !in pool.all.All() && tx.from !in pool.accounts && !pool.Unwanted(tx)
    requires forall y :: y in pool.all.All() ==> !SamePlace(y, tx)
    modifies pool, pool.all, pool.priced
    ensures pool.Valid() && err.None? && pool.accounts == old(pool.accounts)
    ensures pool.all.slots > pool.config.globalSlots + pool.config.globalQueue
  {
    hide Filed, NonEmpty, Tracked, Tally, LiveSlots, IsUnderpriced, NoRepeats, Leads, Cheaper;
    LeaderCounts(pool.all.remotes, pool.priced.floating, pool.priced.baseFee, pool.Entries(), x);
    ghost var known := pool.all.All();
    ghost var gone;
    ghost var evicted;
    replaced, err, gone, evicted := pool.Add(tx, false, true);
    assert gone <= {x};
    SlotSumGrows(gone, {x});
    SlotSumTake({x}, x);
    assert {x} - {x} == {};
  }

  /** For any repeated entry there is such a newcomer, if it may be large: one that asks for as many slots as the heaps
      count. */
  method LargeOverfills(pool: TxPool, tx: Tx) returns (replaced: bool, err: Option<AddError>)
    requires pool.Valid() && pool.all.slots <= pool.config.globalSlots + pool.config.globalQueue
    requires forall x :: x in pool.all.remotes ==> x.slots > 0
    requires !NoRepeats(pool.all.remotes, pool.priced.urgent, pool.priced.floating)
    requires tx.slots == LiveSlots(pool.all.remotes, pool.Entries()) + pool.config.globalSlots + pool.config.globalQueue - pool.all.slots
    requires tx.nonce <= MAX_UINT64 && tx !in pool.all.All() && tx.from !in pool.accounts && !pool.Unwanted(tx)
    requires forall x :: x in pool.all.All() ==> !SamePlace(x, tx)
    modifies pool, pool.all, pool.priced
    ensures pool.Valid() && err.None? && pool.accounts == old(pool.accounts)
    ensures pool.all.slots > pool.config.globalSlots + pool.config.globalQueue
  {
    hide Filed, NonEmpty, Tracked, Tally, LiveSlots, IsUnderpriced, NoRepeats;
    assert pool.all.remotes - {} == pool.all.remotes;
    CountedMore(pool.all.remotes, pool.priced.urgent, pool.priced.floating);
    ghost var remotes := pool.all.remotes;
    ghost var gone;
    ghost var evicted;
    replaced, err, gone, evicted := pool.Add(tx, false, true);
    SlotSumGrows(gone, remotes);
  }

  // ----- a run that overfills the pool -----

  const TX_MAX_SLOTS := 4

  /** Transactions of different senders, within the size that is admitted. */
  ghost predicate Admissible(txs: seq<Tx>) {
    && (forall i :: 0 <= i < |txs| ==> 1 <= txs[i].slots <= TX_MAX_SLOTS && txs[i].nonce <= MAX_UINT64)
    && (forall i, j :: 0 <= i < j < |txs| ==> txs[i].from != txs[j].from)
  }

  /** Fills an empty pool to its limit with remote transactions. */
  method FillPool(txs: seq<Tx>, config: Config) returns (pool: TxPool)
    requires Admissible(txs) && config.globalSlots + config.globalQueue == SlotSum(Elements(txs))
    ensures fresh(pool) && fresh(pool.all) && fresh(pool.priced) && pool.Valid() && pool.config == config
    ensures Filled(pool, txs, |txs|)
  {
    hide Filed, NonEmpty, Tracked, SlotSum;
    pool := new TxPool(config);
    for i := 0 to |txs|
      invariant fresh(pool) && fresh(pool.all) && fresh(pool.priced) && pool.Valid() && pool.config == config
      invariant Filled(pool, txs, i)
    {
      FillNext(txs, i);
      var _, _, _, _ := pool.Add(txs[i], false, true);
    }
  }

  ghost predicate Filled(pool: TxPool, txs: seq<Tx>, n: nat)
    reads pool, pool.all, pool.priced
  {
    && n <= |txs| && pool.all.All() == pool.all.remotes == Elements(txs[..n]) && pool.accounts == {} && pool.pending == map[]
    && multiset(pool.priced.urgent) == multiset(txs[..n]) && pool.priced.floating == []
    && pool.priced.stales == 0 && pool.priced.baseFee == None
  }

  lemma {:induction false} FillNext(txs: seq<Tx>, i: nat)
    requires Admissible(txs) && i < |txs|
    ensures txs[i] !in Elements(txs[..i]) && forall x :: x in Elements(txs[..i]) ==> !SamePlace(x, txs[i])
    ensures Elements(txs[..i + 1]) == Elements(txs[..i]) + {txs[i]} && multiset(txs[..i + 1]) == multiset(txs[..i]) + multiset{txs[i]}
    ensures SlotSum(Elements(txs[..i])) + txs[i].slots <= SlotSum(Elements(txs))
  {
    assert txs[..i + 1] == txs[..i] + [txs[i]];
    AppendOne(txs[..i], txs[i]);
    SlotSumTake(Elements(txs[..i + 1]), txs[i]);
    assert Elements(txs[..i]) + {txs[i]} - {txs[i]} == Elements(txs[..i]);
    SlotSumGrows(Elements(txs[..i + 1]), Elements(txs));
  }

  /** Four or more remote transactions fill the pool, the cheapest is removed and added again, and then a newcomer of
      more than its slots, and no more than twice as many, is accepted: the pool is over its limit. */
  method OverfillingRun(txs: seq<Tx>, tx: Tx, config: Config) returns (pool: TxPool)
    requires Admissible(txs + [tx]) && |txs| >= 4 && config.globalSlots + config.globalQueue == SlotSum(Elements(txs))
    requires forall i :: 0 < i < |txs| ==> txs[0].gasFeeCap < txs[i].gasFeeCap
    requires txs[0].gasFeeCap < tx.gasFeeCap && txs[0].slots < tx.slots <= 2 * txs[0].slots
    ensures fresh(pool) && pool.Valid() && pool.config == config
    ensures pool.all.slots > config.globalSlots + config.globalQueue
  {
    hide TxPool.ValidBut, Cheaper, Compare, SlotSum, Leads, IsUnderpriced, Tally, Admissible;
    SmallerAdmissible(txs, tx);
    pool := FillPool(txs, config);
    WholeFilled(txs, tx);
    AddFirstAgain(pool, txs);
    HeldTwice(txs, tx, pool.all.remotes, pool.priced.urgent);
    var _, _ := AddOverfills(pool, txs[0], tx);
  }

  /** The first transaction is removed, its stale entry stays in the heaps, and it is added again. */
  method AddFirstAgain(pool: TxPool, txs: seq<Tx>)
    requires Admissible(txs) && |txs| >= 4 && pool.Valid() && Filled(pool, txs, |txs|)
    requires pool.config.globalSlots + pool.config.globalQueue == SlotSum(Elements(txs))
    modifies pool, pool.all, pool.priced
    ensures pool.Valid() && pool.all.All() == pool.all.remotes == Elements(txs) && pool.accounts == {}
    ensures pool.all.slots == SlotSum(Elements(txs))
    ensures multiset(pool.priced.urgent) == multiset(txs) + multiset{txs[0]}
    ensures pool.priced.floating == [] && pool.priced.baseFee == None
  {
    hide Filed, NonEmpty, Tracked, SlotSum, OnlyAt;
    var x := txs[0];
    ghost var all := Elements(txs);
    FirstAlone(txs);
    assert |pool.priced.urgent| == |multiset(pool.priced.urgent)| == |multiset(txs)| == |txs|;
    SlotSumTake(all, x);
    pool.RemoveTx(x, true, {});
    assert pool.all.All() == all - {x};
    var _, _, _, _ := pool.Add(x, false, true);
    assert all - {x} + {x} == all;
  }

  lemma {:induction false} FirstAlone(txs: seq<Tx>)
    requires Admissible(txs) && |txs| >= 4
    ensures txs[..|txs|] == txs && txs[0] in Elements(txs) && txs[0].nonce <= MAX_UINT64
    ensures forall y :: y in Elements(txs) && y != txs[0] ==> !SamePlace(y, txs[0])
  {
  }

  lemma {:induction false} SmallerAdmissible(txs: seq<Tx>, tx: Tx)
    requires Admissible(txs + [tx])
    ensures Admissible(txs)
  {
    var more := txs + [tx];
    assert forall i :: 0 <= i < |txs| ==> txs[i] == more[i];
  }

  lemma {:induction false} WholeFilled(txs: seq<Tx>, tx: Tx)
    requires Admissible(txs + [tx]) && |txs| >= 4
    ensures tx !in Elements(txs) && tx.nonce <= MAX_UINT64 && forall y :: y in Elements(txs) ==> !SamePlace(y, tx)
  {
    var more := txs + [tx];
    assert forall i :: 0 <= i < |txs| ==> txs[i] == more[i];
    assert more[|txs|] == tx;
  }

  /** The heaps hold the cheapest transaction twice, and it leads. */
  lemma {:induction false} HeldTwice(txs: seq<Tx>, tx: Tx, live: set<Tx>, urgent: seq<Tx>)
    requires |txs| >= 4 && live == Elements(txs) && multiset(urgent) == multiset(txs) + multiset{txs[0]}
    requires forall i :: 0 < i < |txs| ==> txs[0].gasFeeCap < txs[i].gasFeeCap
    requires txs[0].gasFeeCap < tx.gasFeeCap
    ensures Leads(live, [], None, txs[0]) && Tally(urgent, [], [])[txs[0]] >= 2
    ensures !IsUnderpriced(live, urgent, [], None, tx)
  {
    hide Cheaper, Compare;
    var x := txs[0];
    forall y | y in live && y != x ensures Cheaper(None)(x, y) {
      var i :| 0 <= i < |txs| && txs[i] == y;
      PriceOrder(None, x, y);
    }
    PriceOrder(None, x, tx);
    assert x in multiset(txs);
    assert x in multiset(urgent);
    assert x in urgent && x in live;
  }
}
