/** Pool transactions, nonce-indexed collections of them, and their sorted listings. */
module Transactions {
  import opened Common

  /** A transaction stands for its own hash. */
  datatype Tx = Tx(from: Address, nonce: nat, gas: nat, gasFeeCap: nat, gasTipCap: nat, cost: nat, slots: nat, id: nat)

  type Items = map<nat, Tx>

  /** Every transaction is filed under its own nonce, a 64-bit number. */
  ghost predicate Keyed(items: Items) {
    forall n :: n in items ==> items[n].nonce == n && n <= MAX_UINT64
  }

  /** Strictly increasing nonces. */
  ghost predicate Sorted(s: seq<Tx>) {
    forall i, j :: 0 <= i < j < |s| ==> s[i].nonce < s[j].nonce
  }

  ghost predicate Listed(s: seq<Tx>, n: nat) {
    exists i :: 0 <= i < |s| && s[i].nonce == n
  }

  ghost predicate Holds(items: Items, tx: Tx) {
    tx.nonce in items && items[tx.nonce] == tx
  }

  /** The list is the contents of the collection, each transaction once, in some order. */
  ghost predicate Enumerates(items: Items, s: seq<Tx>) {
    && (forall i :: 0 <= i < |s| ==> Holds(items, s[i]))
    && (forall i, j :: 0 <= i < j < |s| ==> s[i].nonce != s[j].nonce)
    && (forall n {:trigger Listed(s, n)} :: n in items ==> Listed(s, n))
  }

  /** The list is the contents of the collection in increasing nonce order. */
  ghost predicate Lists(items: Items, s: seq<Tx>) {
    Sorted(s) && Enumerates(items, s)
  }

  /** The collection is cut in two at a nonce. */
  ghost predicate Splits(whole: Items, low: Items, high: Items) {
    && (forall n :: n in whole <==> n in low || n in high)
    && (forall n :: n in low ==> n in whole && low[n] == whole[n])
    && (forall n :: n in high ==> n in whole && high[n] == whole[n])
    && (forall a, b :: a in low && b in high ==> a < b)
  }

  // ----- facts about listings -----

  lemma {:induction false} Extend(items: Items, s: seq<Tx>, tx: Tx)
    requires Enumerates(items, s) && tx.nonce !in items
    ensures Enumerates(items[tx.nonce := tx], s + [tx])
    ensures Lists(items, s) && (forall n :: n in items ==> n < tx.nonce) ==> Lists(items[tx.nonce := tx], s + [tx])
  {
    var items', r := items[tx.nonce := tx], s + [tx];
    assert r[|s|] == tx;
    forall n | n in items' ensures Listed(r, n) {
      if n != tx.nonce {
        assert Listed(s, n);
        var i :| 0 <= i < |s| && s[i].nonce == n;
        assert r[i].nonce == n;
      }
    }
  }

  lemma {:induction false} DropFirst(items: Items, s: seq<Tx>)
    requires Lists(items, s) && s != []
    ensures s[0].nonce in items && Lists(items - {s[0].nonce}, s[1..])
    ensures forall n :: n in items ==> s[0].nonce <= n
  {
    assert Holds(items, s[0]);
    var items', r := items - {s[0].nonce}, s[1..];
    forall n | n in items ensures s[0].nonce <= n {
      assert Listed(s, n);
    }
    forall i | 0 <= i < |r| ensures Holds(items', r[i]) {
      assert Holds(items, s[i + 1]);
    }
    forall n | n in items' ensures Listed(r, n) {
      assert Listed(s, n);
      var i :| 0 <= i < |s| && s[i].nonce == n;
      assert r[i - 1].nonce == n;
    }
  }

  lemma {:induction false} EmptyList(items: Items, s: seq<Tx>)
    requires Enumerates(items, s)
    ensures s == [] <==> items == map[]
  {
    if s == [] {
      assert forall n :: n in items ==> Listed(s, n);
    } else {
      assert Holds(items, s[0]);
    }
  }

  lemma {:induction false} ListSize(items: Items, s: seq<Tx>)
    requires Lists(items, s)
    ensures |items| == |s|
    decreases |s|
  {
    EmptyList(items, s);
    if s != [] {
      var n := s[0].nonce;
      DropFirst(items, s);
      ListSize(items - {n}, s[1..]);
      assert (items - {n}).Keys == items.Keys - {n};
    }
  }

  /** A collection has only one sorted listing. */
  lemma {:induction false} ListsUnique(items: Items, s: seq<Tx>, t: seq<Tx>)
    requires Lists(items, s) && Lists(items, t)
    ensures s == t
    decreases |s|
  {
    EmptyList(items, s);
    EmptyList(items, t);
    if s != [] {
      DropFirst(items, s);
      DropFirst(items, t);
      SameFirst(items, s, t);
      ListsUnique(items - {s[0].nonce}, s[1..], t[1..]);
      assert s == [s[0]] + s[1..] && t == [t[0]] + t[1..];
    }
  }

  lemma {:induction false} SameFirst(items: Items, s: seq<Tx>, t: seq<Tx>)
    requires Lists(items, s) && Lists(items, t) && s != [] && t != []
    ensures s[0] == t[0]
  {
    assert Holds(items, s[0]) && Holds(items, t[0]);
    DropFirst(items, s);
    DropFirst(items, t);
  }

  lemma {:induction false} ListedConcat(s: seq<Tx>, t: seq<Tx>, n: nat)
    requires Listed(s, n) || Listed(t, n)
    ensures Listed(s + t, n)
  {
    if Listed(s, n) {
      var i :| 0 <= i < |s| && s[i].nonce == n;
      assert (s + t)[i].nonce == n;
    } else {
      var i :| 0 <= i < |t| && t[i].nonce == n;
      assert (s + t)[|s| + i].nonce == n;
    }
  }

  /** Listings of the two parts of a cut make a listing of the whole. */
  lemma {:induction false} Join(whole: Items, low: Items, high: Items, s: seq<Tx>, t: seq<Tx>)
    requires Splits(whole, low, high) && Lists(low, s) && Lists(high, t)
    ensures Lists(whole, s + t)
  {
    var r := s + t;
    forall i | 0 <= i < |r|
      ensures Holds(whole, r[i]) && (if i < |s| then Holds(low, r[i]) else Holds(high, r[i]))
    {
      if i < |s| {
        assert Holds(low, s[i]);
      } else {
        assert Holds(high, t[i - |s|]);
      }
    }
    JoinSorted(low, high, s, t);
    forall n | n in whole ensures Listed(r, n) {
      assert n in low ==> Listed(s, n);
      assert n in high ==> Listed(t, n);
      ListedConcat(s, t, n);
    }
  }

  lemma {:induction false} JoinSorted(low: Items, high: Items, s: seq<Tx>, t: seq<Tx>)
    requires Lists(low, s) && Lists(high, t)
    requires forall a, b :: a in low && b in high ==> a < b
    ensures Sorted(s + t)
  {
    var r := s + t;
    forall i, j | 0 <= i < j < |r| ensures r[i].nonce < r[j].nonce {
      if i < |s| <= j {
        assert Holds(low, s[i]) && Holds(high, t[j - |s|]);
      } else if i >= |s| {
        assert t[i - |s|].nonce < t[j - |s|].nonce;
      }
    }
  }

  lemma {:induction false} Prepend(items: Items, tx: Tx, s: seq<Tx>)
    requires Holds(items, tx) && Lists(items - {tx.nonce}, s)
    requires forall n :: n in items ==> tx.nonce <= n
    ensures Lists(items, [tx] + s)
  {
    var first := map[tx.nonce := tx];
    assert [tx][0].nonce == tx.nonce;
    assert Lists(first, [tx]);
    Join(items, first, items - {tx.nonce}, [tx], s);
  }

  // ----- sorting by nonce -----

  /** Inserts into a sorted list. */
  function Insert(s: seq<Tx>, tx: Tx): seq<Tx> {
    if s == [] || tx.nonce < s[0].nonce then [tx] + s else [s[0]] + Insert(s[1..], tx)
  }

  lemma {:induction false} InsertLists(items: Items, s: seq<Tx>, tx: Tx)
    requires Lists(items, s) && tx.nonce !in items
    ensures Lists(items[tx.nonce := tx], Insert(s, tx))
    decreases |s|
  {
    EmptyList(items, s);
    var items' := items[tx.nonce := tx];
    if s == [] || tx.nonce < s[0].nonce {
      if s != [] {
        DropFirst(items, s);
      }
      assert items' - {tx.nonce} == items;
      Prepend(items', tx, s);
    } else {
      var n := s[0].nonce;
      assert Holds(items, s[0]);
      DropFirst(items, s);
      InsertLists(items - {n}, s[1..], tx);
      assert items' - {n} == (items - {n})[tx.nonce := tx];
      Prepend(items', s[0], Insert(s[1..], tx));
    }
  }

  lemma {:induction false} SortedListing(items: Items) returns (s: seq<Tx>)
    requires Keyed(items)
    ensures Lists(items, s)
    decreases |items|
  {
    s := [];
    if items != map[] {
      var n :| n in items;
      assert (items - {n}).Keys == items.Keys - {n};
      var rest := SortedListing(items - {n});
      InsertLists(items - {n}, rest, items[n]);
      assert items == (items - {n})[n := items[n]];
      s := Insert(rest, items[n]);
    }
  }

  /** Cutting a collection at a nonce cuts its listing. */
  lemma {:induction false} SplitList(whole: Items, low: Items, high: Items, s: seq<Tx>)
    requires Keyed(whole) && Splits(whole, low, high) && Lists(whole, s)
    ensures |low| + |high| == |s|
    ensures Lists(low, s[..|low|]) && Lists(high, s[|low|..])
  {
    var a := SortedListing(low);
    var b := SortedListing(high);
    Join(whole, low, high, a, b);
    ListsUnique(whole, s, a + b);
    ListSize(low, a);
    ListSize(high, b);
    assert s[..|low|] == a && s[|low|..] == b;
  }
}
