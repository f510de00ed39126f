/** Dropping queued transactions, most recently active accounts first. */
module QueueTrimming {
  import opened Common
  import opened Transactions
  import opened SortedMap
  import opened Filing
  import opened WaterFilling
  import Balances

  /** The part of a listing up to an index lists a prefix of the collection. */
  lemma {:induction false} ListedPrefix(whole: Items, s: seq<Tx>, part: Items, k: nat)
    requires Lists(whole, s) && k <= |s| && Lists(part, s[..k])
    requires forall n :: n in part ==> n in whole && part[n] == whole[n]
    ensures Prefix(whole, part)
  {
    forall a, b | a in part && b in whole - part.Keys ensures a < b {
      assert Listed(s[..k], a) && Listed(s, b);
      var i :| 0 <= i < k && s[..k][i].nonce == a;
      var j :| 0 <= j < |s| && s[j].nonce == b;
      assert j < k ==> Holds(part, s[..k][j]);
    }
  }

  lemma {:induction false} DropLast(items: Items, s: seq<Tx>)
    requires Lists(items, s) && s != []
    ensures var l := |s| - 1; s[l].nonce in items && Lists(items - {s[l].nonce}, s[..l])
  {
    var l := |s| - 1;
    assert Holds(items, s[l]);
    var items', r := items - {s[l].nonce}, s[..l];
    forall i | 0 <= i < |r| ensures Holds(items', r[i]) {
      assert Holds(items, s[i]);
    }
    forall n | n in items' ensures Listed(r, n) {
      assert Listed(s, n);
      var i :| 0 <= i < |s| && s[i].nonce == n;
      assert r[i].nonce == n;
    }
  }

  lemma {:induction false} SizeStore(lists: Accounts, a: Address, items: Items)
    requires a in lists
    ensures Size(Store(lists, a, items)) == Size(lists) - |lists[a]| + |items|
  {
    if items == map[] {
      Balances.TotalWithout(Lens(lists), a);
      assert Lens(lists - {a}) == Lens(lists) - {a};
    } else {
      SizeSet(lists, a, items);
    }
  }

  // ----- whose transactions are dropped -----

  ghost predicate SameAt(q0: Accounts, q: Accounts, a: Address) {
    Of(q, a) == Of(q0, a)
  }

  /** Accounts lose only their highest nonces, local ones nothing, and an account loses something only if
      every more recently active one has lost all. */
  ghost predicate Trimmed(q0: Accounts, q: Accounts, locals: set<Address>, beat: Address -> nat) {
    && (forall a {:trigger SameAt(q0, q, a)} :: a in locals ==> SameAt(q0, q, a))
    && (forall a {:trigger Of(q, a)} :: Prefix(Of(q0, a), Of(q, a)))
    && (forall a, b {:trigger SameAt(q0, q, a), Of(q, b)} ::
          !SameAt(q0, q, a) && b !in locals && beat(b) > beat(a) ==> Of(q, b) == map[])
  }

  /** The accounts in `rest` are whole and the least recently active; the other remote ones have lost all. */
  ghost predicate Trimming(q0: Accounts, q: Accounts, locals: set<Address>, beat: Address -> nat, rest: set<Address>) {
    && (forall a :: a in rest ==> a in q0 && a !in locals)
    && (forall a {:trigger SameAt(q0, q, a)} :: a in locals || a in rest ==> SameAt(q0, q, a))
    && (forall a {:trigger Of(q, a)} :: a !in locals && a !in rest ==> Of(q, a) == map[])
    && (forall a, b :: a in rest && b in q0 && b !in locals && b !in rest ==> beat(a) <= beat(b))
  }

  lemma {:induction false} TrimStart(q0: Accounts, locals: set<Address>, beat: Address -> nat, rest: set<Address>)
    requires forall a :: a in rest <==> a in q0 && a !in locals
    ensures Trimming(q0, q0, locals, beat, rest)
  {
  }

  lemma {:induction false} TrimAll(q0: Accounts, q: Accounts, locals: set<Address>, beat: Address -> nat, rest: set<Address>, a: Address)
    requires Trimming(q0, q, locals, beat, rest) && a in rest
    requires forall b :: b in rest ==> beat(b) <= beat(a)
    ensures Trimming(q0, q - {a}, locals, beat, rest - {a})
  {
    var q' := q - {a};
    forall b | b in locals || b in rest - {a} ensures SameAt(q0, q', b) {
      assert SameAt(q0, q, b);
    }
    forall b | b !in locals && b !in rest - {a} ensures Of(q', b) == map[] {
      assert b != a ==> Of(q, b) == map[];
    }
  }

  lemma {:induction false} TrimPart(q0: Accounts, q: Accounts, locals: set<Address>, beat: Address -> nat, rest: set<Address>, a: Address, items: Items)
    requires Trimming(q0, q, locals, beat, rest) && a in rest
    requires forall b :: b in rest ==> beat(b) <= beat(a)
    requires Prefix(Of(q0, a), items)
    ensures Trimmed(q0, q[a := items], locals, beat)
  {
    hide Prefix;
    var q' := q[a := items];
    forall b ensures Of(q', b) == (if b == a then items else Of(q, b)) {
    }
    forall b ensures Prefix(Of(q0, b), Of(q', b)) {
      TrimmedAt(q0, q, locals, beat, rest, b);
    }
    forall b | b in locals ensures SameAt(q0, q', b) {
      assert SameAt(q0, q, b);
    }
    forall b, c {:trigger SameAt(q0, q', b), Of(q', c)} | !SameAt(q0, q', b) && c !in locals && beat(c) > beat(b)
      ensures Of(q', c) == map[]
    {
      LostIsLater(q0, q, locals, beat, rest, a, b, c);
    }
  }

  lemma {:induction false} TrimmedAt(q0: Accounts, q: Accounts, locals: set<Address>, beat: Address -> nat, rest: set<Address>, b: Address)
    requires Trimming(q0, q, locals, beat, rest)
    ensures Prefix(Of(q0, b), Of(q, b))
  {
    if b in locals || b in rest {
      assert SameAt(q0, q, b);
      PrefixSelf(Of(q0, b));
    } else {
      assert Of(q, b) == map[];
    }
  }

  lemma {:induction false} LostIsLater(
    q0: Accounts, q: Accounts, locals: set<Address>, beat: Address -> nat, rest: set<Address>, a: Address, b: Address, c: Address
  )
    requires Trimming(q0, q, locals, beat, rest) && a in rest && forall x :: x in rest ==> beat(x) <= beat(a)
    requires (b == a || !SameAt(q0, q, b)) && c !in locals && beat(c) > beat(b)
    ensures c != a && Of(q, c) == map[]
  {
    if b != a {
      assert b !in rest && b !in locals;
      assert Of(q, b) == map[];
      assert b in q0;
      assert beat(a) <= beat(b);
    }
    assert c !in rest;
  }

  lemma {:induction false} TrimEnd(q0: Accounts, q: Accounts, locals: set<Address>, beat: Address -> nat, rest: set<Address>)
    requires Trimming(q0, q, locals, beat, rest)
    ensures Trimmed(q0, q, locals, beat)
    ensures rest == {} ==> forall a {:trigger Of(q, a)} :: a !in locals ==> Of(q, a) == map[]
  {
    hide Prefix;
    forall b ensures Prefix(Of(q0, b), Of(q, b)) {
      TrimmedAt(q0, q, locals, beat, rest, b);
    }
    forall b, c {:trigger SameAt(q0, q, b), Of(q, c)} | !SameAt(q0, q, b) && c !in locals && beat(c) > beat(b)
      ensures Of(q, c) == map[]
    {
      assert b !in rest && b !in locals;
      assert Of(q, b) == map[];
      assert b in q0;
      assert c !in rest;
    }
  }
}
