/** The pool's lookup set: local and remote transactions, and a counter of the slots they take. */
module Lookup {
  import opened Common
  import opened Transactions

  ghost function SlotSum(s: set<Tx>): nat {
    if s == {} then 0 else
    var x :| x in s;
    x.slots + SlotSum(s - {x})
  }

  lemma {:induction false} SlotSumTake(s: set<Tx>, x: Tx)
    requires x in s
    ensures SlotSum(s) == x.slots + SlotSum(s - {x})
    decreases |s|
  {
    var y :| y in s && SlotSum(s) == y.slots + SlotSum(s - {y});
    if x != y {
      SlotSumTake(s - {y}, x);
      SlotSumTake(s - {x}, y);
      assert s - {x} - {y} == s - {y} - {x};
    }
  }

  class TxLookup {
    var slots: int
    var locals: set<Tx>
    var remotes: set<Tx>

    /** A transaction is local or remote, not both, and the counter is the sum over all of them. */
    ghost predicate Valid()
      reads this
    {
      locals !! remotes && slots == SlotSum(locals + remotes)
    }

    ghost function All(): set<Tx>
      reads this
    {
      locals + remotes
    }

    constructor ()
      ensures Valid() && locals == {} && remotes == {}
    {
      slots, locals, remotes := 0, {}, {};
    }

    /** Lists a transaction. A listed one is counted again, so the counter stays right exactly for a new transaction,
        or for one without slots that stays on its side. */
    method Add(tx: Tx, local: bool)
      requires Valid()
      modifies this
      ensures locals == old(locals) + if local then {tx} else {}
      ensures remotes == old(remotes) + if local then {} else {tx}
      ensures slots == old(slots) + tx.slots
      ensures Valid() <==>
              tx !in old(All()) || (tx.slots == 0 && tx in if local then old(locals) else old(remotes))
    {
      SlotSumTake(All() + {tx}, tx);
      assert tx !in All() ==> All() + {tx} - {tx} == All();
      assert tx in All() ==> All() + {tx} == All();
      slots := slots + tx.slots;
      if local {
        locals := locals + {tx};
      } else {
        remotes := remotes + {tx};
      }
      assert All() == old(All()) + {tx};
    }

    method Remove(tx: Tx)
      requires Valid()
      modifies this
      ensures Valid() && locals == old(locals) - {tx} && remotes == old(remotes) - {tx}
      ensures slots == old(slots) - if tx in old(All()) then tx.slots else 0
    {
      if tx !in locals && tx !in remotes {
        return;
      }
      SlotSumTake(All(), tx);
      slots := slots - tx.slots;
      locals := locals - {tx};
      remotes := remotes - {tx};
      assert All() == old(All()) - {tx};
    }

    /** Marks the given accounts' transactions as local; the set of transactions stays the same. */
    method RemoteToLocals(accounts: set<Address>) returns (migrated: nat)
      requires Valid()
      modifies this`locals, this`remotes
      ensures Valid() && All() == old(All())
      ensures remotes == set tx | tx in old(remotes) && tx.from !in accounts
      ensures migrated == |old(remotes)| - |remotes|
    {
      migrated := 0;
      var rest := remotes;
      while rest != {}
        invariant rest <= remotes <= old(remotes)
        invariant locals !! remotes && All() == old(All())
        invariant forall tx :: tx in old(remotes) ==> tx in rest || (tx in remotes <==> tx.from !in accounts)
        invariant migrated == |old(remotes)| - |remotes|
        decreases |rest|
      {
        var tx :| tx in rest;
        if tx.from in accounts {
          locals := locals + {tx};
          remotes := remotes - {tx};
          migrated := migrated + 1;
        }
        rest := rest - {tx};
      }
    }
  }
}
