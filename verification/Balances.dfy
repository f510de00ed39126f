/** Sums over balances. */
module Balances {
  import opened Common

  type Ledger = map<Address, int>

  function Balance(l: Ledger, a: Address): int {
    if a in l then l[a] else 0
  }

  function Add(l: Ledger, a: Address, amount: int): Ledger {
    l[a := Balance(l, a) + amount]
  }

  /** The sum of all balances. */
  ghost function Total(l: Ledger): int
  {
    if l == map[] then 0 else
    var a :| a in l;
    l[a] + Total(l - {a})
  }

  lemma {:induction false} TotalWithout(l: Ledger, a: Address)
    requires a in l
    ensures Total(l) == l[a] + Total(l - {a})
    decreases |l|
  {
    var b :| b in l && Total(l) == l[b] + Total(l - {b});
    if a != b {
      TotalWithout(l - {b}, a);
      TotalWithout(l - {a}, b);
      assert l - {a} - {b} == l - {b} - {a};
    }
  }

  lemma {:induction false} TotalSet(l: Ledger, a: Address, v: int)
    ensures Total(l[a := v]) == Total(l) - Balance(l, a) + v
  {
    var l' := l[a := v];
    TotalWithout(l', a);
    if a in l {
      TotalWithout(l, a);
      assert l' - {a} == l - {a};
    } else {
      assert l' - {a} == l;
    }
  }

  lemma {:induction false} TotalAtMost(l: Ledger, m: Ledger)
    requires l.Keys == m.Keys && forall a :: a in l ==> l[a] <= m[a]
    ensures Total(l) <= Total(m)
    decreases |l|
  {
    if l != map[] {
      var a :| a in l;
      TotalWithout(l, a);
      TotalWithout(m, a);
      assert (l - {a}).Keys == l.Keys - {a} && (m - {a}).Keys == m.Keys - {a};
      TotalAtMost(l - {a}, m - {a});
    }
  }

  lemma {:induction false} TotalAdd(l: Ledger, a: Address, amount: int)
    ensures Total(Add(l, a, amount)) == Total(l) + amount
  {
    TotalSet(l, a, Balance(l, a) + amount);
  }
}
