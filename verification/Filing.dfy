/** How the pool files its transactions: under sender and nonce, in the pending lists or in the queue. */
module Filing {
  import opened Common
  import opened Transactions
  import opened SortedMap

  type Accounts = map<Address, Items>

  /** An account's list; an account without one has an empty list. */
  function Of(lists: Accounts, a: Address): Items {
    if a in lists then lists[a] else map[]
  }

  ghost predicate NonEmpty(lists: Accounts) {
    forall a :: a in lists ==> lists[a] != map[]
  }

  /** The transactions are the sender's, each under its nonce. */
  ghost predicate Owned(items: Items, a: Address) {
    Keyed(items) && forall n :: n in items ==> items[n].from == a
  }

  ghost predicate Apart(p: Items, q: Items) {
    forall n :: n in p ==> n !in q
  }

  /** An account's known transactions are those of its pending list `p`, its queue `q` and those being moved `f`;
      no two of these hold the same nonce. */
  ghost predicate Account(p: Items, q: Items, f: Items, a: Address, all: set<Tx>) {
    && Owned(p, a) && Owned(q, a) && Owned(f, a)
    && Apart(p, q) && Apart(p, f) && Apart(q, f)
    && Known(p, q, f, a, all)
  }

  ghost predicate Known(p: Items, q: Items, f: Items, a: Address, all: set<Tx>) {
    forall tx: Tx :: tx.from == a ==> (tx in all <==> Holds(p, tx) || Holds(q, tx) || Holds(f, tx))
  }

  ghost predicate FiledAt(pending: Accounts, queue: Accounts, all: set<Tx>, a: Address, f: Items, b: Address) {
    Account(Of(pending, b), Of(queue, b), if b == a then f else map[], b, all)
  }

  /** Every account is in order, with the transactions `f` of account `a` being moved. */
  ghost predicate Filed(pending: Accounts, queue: Accounts, all: set<Tx>, a: Address, f: Items) {
    forall b {:trigger FiledAt(pending, queue, all, a, f, b)} :: FiledAt(pending, queue, all, a, f, b)
  }

  // ----- one account changes -----

  lemma {:induction false} AtRest(pending: Accounts, queue: Accounts, all: set<Tx>, a: Address, b: Address)
    requires Filed(pending, queue, all, a, map[])
    ensures Filed(pending, queue, all, b, map[])
  {
    forall c ensures FiledAt(pending, queue, all, b, map[], c) {
      assert FiledAt(pending, queue, all, a, map[], c);
    }
  }

  /** The account's part of the filing. */
  lemma {:induction false} Here(pending: Accounts, queue: Accounts, all: set<Tx>, a: Address, f: Items)
    requires Filed(pending, queue, all, a, f)
    ensures Account(Of(pending, a), Of(queue, a), f, a, all)
  {
    assert FiledAt(pending, queue, all, a, f, a);
  }

  /** Only account `a` differs. */
  ghost predicate OnlyAt(a: Address, before: Accounts, after: Accounts) {
    forall b {:trigger Of(after, b)} :: b != a ==> Of(after, b) == Of(before, b)
  }

  ghost predicate OnlyFrom(a: Address, before: set<Tx>, after: set<Tx>) {
    forall tx: Tx :: tx.from != a ==> (tx in after <==> tx in before)
  }

  lemma {:induction false} Refile(
    pending: Accounts, queue: Accounts, all: set<Tx>, a: Address, f: Items,
    pending': Accounts, queue': Accounts, all': set<Tx>, f': Items
  )
    requires Filed(pending, queue, all, a, f)
    requires OnlyAt(a, pending, pending') && OnlyAt(a, queue, queue') && OnlyFrom(a, all, all')
    requires Account(Of(pending', a), Of(queue', a), f', a, all')
    ensures Filed(pending', queue', all', a, f')
  {
    forall b ensures FiledAt(pending', queue', all', a, f', b) {
      if b != a {
        assert FiledAt(pending, queue, all, a, f, b);
        OtherAccount(Of(pending, b), Of(queue, b), map[], b, all, all');
      }
    }
  }

  lemma {:induction false} OtherAccount(p: Items, q: Items, f: Items, b: Address, all: set<Tx>, all': set<Tx>)
    requires Account(p, q, f, b, all)
    requires forall tx: Tx :: tx.from == b ==> (tx in all' <==> tx in all)
    ensures Account(p, q, f, b, all')
  {
  }

  // ----- moves within an account -----

  /** A transaction being moved enters the queue; no queued one is in its way. */
  lemma {:induction false} IntoQueue(p: Items, q: Items, f: Items, a: Address, all: set<Tx>, tx: Tx)
    requires Account(p, q, f, a, all) && Holds(f, tx)
    ensures tx.nonce !in q && tx.nonce !in p && tx in all && tx.from == a
    ensures Account(p, q[tx.nonce := tx], f - {tx.nonce}, a, all)
  {
    KnownMoves(p, q, f, a, all, tx);
  }

  lemma {:induction false} KnownMoves(p: Items, q: Items, f: Items, a: Address, all: set<Tx>, tx: Tx)
    requires Known(p, q, f, a, all) && Holds(f, tx) && tx.nonce !in q && tx.nonce !in p && tx.from == a
    ensures tx in all
    ensures Known(p, q[tx.nonce := tx], f - {tx.nonce}, a, all)
    ensures Known(p[tx.nonce := tx], q, f - {tx.nonce}, a, all)
  {
    var q', p', f' := q[tx.nonce := tx], p[tx.nonce := tx], f - {tx.nonce};
    forall x: Tx | x.from == a
      ensures x in all <==> Holds(p, x) || Holds(q', x) || Holds(f', x)
      ensures x in all <==> Holds(p', x) || Holds(q, x) || Holds(f', x)
    {
      assert x in all <==> Holds(p, x) || Holds(q, x) || Holds(f, x);
    }
  }

  /** A transaction being moved enters the pending list; no pending one is in its way. */
  lemma {:induction false} IntoPending(p: Items, q: Items, f: Items, a: Address, all: set<Tx>, tx: Tx)
    requires Account(p, q, f, a, all) && Holds(f, tx)
    ensures tx.nonce !in q && tx.nonce !in p && tx in all && tx.from == a
    ensures Account(p[tx.nonce := tx], q, f - {tx.nonce}, a, all)
  {
    KnownMoves(p, q, f, a, all, tx);
  }

  /** Part of the queue starts to be moved. */
  lemma {:induction false} OutOfQueue(p: Items, q: Items, a: Address, all: set<Tx>, q': Items, f: Items)
    requires Account(p, q, map[], a, all) && Divides(q, q', f)
    ensures Account(p, q', f, a, all)
  {
    forall x: Tx ensures Holds(q, x) <==> Holds(q', x) || Holds(f, x) {
    }
  }

  /** Part of the pending list starts to be moved. */
  lemma {:induction false} OutOfPending(p: Items, q: Items, a: Address, all: set<Tx>, p': Items, f: Items)
    requires Account(p, q, map[], a, all) && Divides(p, p', f)
    ensures Account(p', q, f, a, all)
  {
    forall x: Tx ensures Holds(p, x) <==> Holds(p', x) || Holds(f, x) {
    }
  }

  /** Transactions being moved are forgotten instead. */
  lemma {:induction false} Forget(p: Items, q: Items, f: Items, a: Address, all: set<Tx>, gone: Items, f': Items, all': set<Tx>)
    requires Account(p, q, f, a, all) && Divides(f, f', gone)
    requires forall tx :: tx in all' <==> tx in all && !Holds(gone, tx)
    ensures Account(p, q, f', a, all') && OnlyFrom(a, all, all')
  {
    forall x: Tx ensures Holds(f, x) <==> Holds(f', x) || Holds(gone, x) {
    }
    ForgetKnown(p, q, f, a, all, gone, f', all');
  }

  lemma {:induction false} ForgetKnown(p: Items, q: Items, f: Items, a: Address, all: set<Tx>, gone: Items, f': Items, all': set<Tx>)
    requires Known(p, q, f, a, all) && Apart(p, f) && Apart(q, f) && Owned(f, a) && Divides(f, f', gone)
    requires forall tx :: tx in all' <==> tx in all && !Holds(gone, tx)
    ensures Known(p, q, f', a, all') && OnlyFrom(a, all, all')
  {
    forall x: Tx | x.from == a ensures x in all' <==> Holds(p, x) || Holds(q, x) || Holds(f', x) {
      assert x in all <==> Holds(p, x) || Holds(q, x) || Holds(f, x);
    }
    forall x: Tx | x.from != a ensures x in all' <==> x in all {
      assert !Holds(gone, x);
    }
  }

  // ----- new transactions -----

  function Replaced(items: Items, n: nat): set<Tx> {
    if n in items then {items[n]} else {}
  }

  /** A new transaction takes its nonce's place in the queue. */
  lemma {:induction false} NewQueued(p: Items, q: Items, a: Address, all: set<Tx>, tx: Tx)
    requires Account(p, q, map[], a, all) && tx.from == a && tx.nonce <= MAX_UINT64 && tx.nonce !in p
    ensures Account(p, q[tx.nonce := tx], map[], a, all - Replaced(q, tx.nonce) + {tx})
    ensures OnlyFrom(a, all, all - Replaced(q, tx.nonce) + {tx})
  {
    var q', all' := q[tx.nonce := tx], all - Replaced(q, tx.nonce) + {tx};
    forall x: Tx | x.from == a ensures x in all' <==> Holds(p, x) || Holds(q', x) || Holds(map[], x) {
      assert x in all <==> Holds(p, x) || Holds(q, x) || Holds(map[], x);
    }
  }

  /** A new transaction takes its nonce's place in the pending list. */
  lemma {:induction false} NewPending(p: Items, q: Items, a: Address, all: set<Tx>, tx: Tx)
    requires Account(p, q, map[], a, all) && tx.from == a && tx.nonce in p
    ensures Account(p[tx.nonce := tx], q, map[], a, all - Replaced(p, tx.nonce) + {tx})
    ensures OnlyFrom(a, all, all - Replaced(p, tx.nonce) + {tx})
  {
    var p', all' := p[tx.nonce := tx], all - Replaced(p, tx.nonce) + {tx};
    forall x: Tx | x.from == a ensures x in all' <==> Holds(p', x) || Holds(q, x) || Holds(map[], x) {
      assert x in all <==> Holds(p, x) || Holds(q, x) || Holds(map[], x);
    }
  }

  // ----- changes to the whole filing -----

  /** Stores a list; an empty one is deleted. */
  function Store(lists: Accounts, a: Address, items: Items): Accounts {
    if items == map[] then lists - {a} else lists[a := items]
  }

  lemma {:induction false} StoreOne(lists: Accounts, a: Address, items: Items)
    ensures Of(Store(lists, a, items), a) == items && OnlyAt(a, lists, Store(lists, a, items))
    ensures Of(lists[a := items], a) == items && OnlyAt(a, lists, lists[a := items])
    ensures NonEmpty(lists) ==> NonEmpty(Store(lists, a, items))
    ensures NonEmpty(lists[a := items]) ==> NonEmpty(Store(lists, a, items))
    ensures Store(lists[a := items], a, items) == Store(lists, a, items)
  {
  }

  lemma {:induction false} SameAccounts(a: Address, lists: Accounts, all: set<Tx>)
    ensures OnlyAt(a, lists, lists) && OnlyFrom(a, all, all)
  {
  }

  /** A transaction being moved is accepted by the queue. */
  lemma {:induction false} Requeued(pending: Accounts, queue: Accounts, all: set<Tx>, a: Address, f: Items, tx: Tx)
    requires Filed(pending, queue, all, a, f) && Holds(f, tx)
    ensures tx.from == a && tx.nonce !in Of(queue, a)
    ensures Filed(pending, queue[a := Of(queue, a)[tx.nonce := tx]], all, a, f - {tx.nonce})
  {
    hide Account;
    Here(pending, queue, all, a, f);
    IntoQueue(Of(pending, a), Of(queue, a), f, a, all, tx);
    StoreOne(queue, a, Of(queue, a)[tx.nonce := tx]);
    SameAccounts(a, pending, all);
    Refile(pending, queue, all, a, f, pending, queue[a := Of(queue, a)[tx.nonce := tx]], all, f - {tx.nonce});
  }

  /** A transaction being moved is accepted by the pending list. */
  lemma {:induction false} Promoted(pending: Accounts, queue: Accounts, all: set<Tx>, a: Address, f: Items, tx: Tx)
    requires Filed(pending, queue, all, a, f) && Holds(f, tx)
    ensures tx.from == a && tx.nonce !in Of(pending, a)
    ensures Filed(pending[a := Of(pending, a)[tx.nonce := tx]], queue, all, a, f - {tx.nonce})
  {
    hide Account;
    Here(pending, queue, all, a, f);
    IntoPending(Of(pending, a), Of(queue, a), f, a, all, tx);
    StoreOne(pending, a, Of(pending, a)[tx.nonce := tx]);
    SameAccounts(a, queue, all);
    Refile(pending, queue, all, a, f, pending[a := Of(pending, a)[tx.nonce := tx]], queue, all, f - {tx.nonce});
  }

  /** Part of an account's queue is forgotten and part starts to be moved. */
  lemma {:induction false} CutQueue(
    pending: Accounts, queue: Accounts, all: set<Tx>, a: Address, q: Items, out: Items, gone: Items, f: Items,
    queue': Accounts, all': set<Tx>
  )
    requires Filed(pending, queue, all, a, map[])
    requires Divides(Of(queue, a), q, out) && Divides(out, f, gone)
    requires forall tx :: tx in all' <==> tx in all && !Holds(gone, tx)
    requires OnlyAt(a, queue, queue') && Of(queue', a) == q
    ensures Filed(pending, queue', all', a, f)
  {
    hide Account, Divides;
    Here(pending, queue, all, a, map[]);
    OutOfQueue(Of(pending, a), Of(queue, a), a, all, q, out);
    Forget(Of(pending, a), q, out, a, all, gone, f, all');
    SameAccounts(a, pending, all);
    Refile(pending, queue, all, a, map[], pending, queue', all', f);
  }

  /** Part of an account's pending list is forgotten and part starts to be moved. */
  lemma {:induction false} CutPending(
    pending: Accounts, queue: Accounts, all: set<Tx>, a: Address, p: Items, out: Items, gone: Items, f: Items,
    pending': Accounts, all': set<Tx>
  )
    requires Filed(pending, queue, all, a, map[])
    requires Divides(Of(pending, a), p, out) && Divides(out, f, gone)
    requires forall tx :: tx in all' <==> tx in all && !Holds(gone, tx)
    requires OnlyAt(a, pending, pending') && Of(pending', a) == p
    ensures Filed(pending', queue, all', a, f)
  {
    hide Account, Divides;
    Here(pending, queue, all, a, map[]);
    OutOfPending(Of(pending, a), Of(queue, a), a, all, p, out);
    Forget(p, Of(queue, a), out, a, all, gone, f, all');
    SameAccounts(a, queue, all);
    Refile(pending, queue, all, a, map[], pending', queue, all', f);
  }

  /** A known transaction is in its sender's pending list or queue, wherever its nonce is. */
  lemma {:induction false} Located(pending: Accounts, queue: Accounts, all: set<Tx>, tx: Tx)
    requires Filed(pending, queue, all, tx.from, map[]) && tx in all
    ensures tx.nonce in Of(pending, tx.from) ==> Holds(Of(pending, tx.from), tx)
    ensures tx.nonce !in Of(pending, tx.from) ==> Holds(Of(queue, tx.from), tx)
    ensures Keyed(Of(pending, tx.from)) && Keyed(Of(queue, tx.from))
  {
    Here(pending, queue, all, tx.from, map[]);
    var p, q := Of(pending, tx.from), Of(queue, tx.from);
    assert tx in all <==> Holds(p, tx) || Holds(q, tx) || Holds(map[], tx);
  }

  lemma {:induction false} OwnLists(pending: Accounts, queue: Accounts, all: set<Tx>, a: Address, f: Items)
    requires Filed(pending, queue, all, a, f)
    ensures Owned(Of(pending, a), a) && Owned(Of(queue, a), a) && Apart(Of(pending, a), Of(queue, a))
  {
    Here(pending, queue, all, a, f);
  }
}
