/** The two-pointer walk by which a pool reset finds the transactions that a reorganisation dropped. */
module ResetWalk {
  import opened Common
  import opened BlockTree

  type Tx = nat

  /** The block database: any map at all; a block is found by its hash and number together. */
  datatype Store = Store(tree: Tree, txs: map<Hash, seq<Tx>>)

  function Txs(s: Store, h: Hash): seq<Tx> {
    if h in s.txs then s.txs[h] else []
  }

  /** The lookup of a block's parent. */
  function Parent(s: Store, h: Hash): Option<Hash>
    requires h in s.tree
  {
    var p := s.tree[h].parent;
    if p in s.tree && s.tree[p].number + 1 == s.tree[h].number then Some(p) else None
  }

  /** The chain of a stored block as far down as the database reaches, newest first. */
  ghost function Down(s: Store, h: Hash): (d: seq<Hash>)
    requires h in s.tree
    ensures |d| > 0 && d[0] == h && |d| <= s.tree[h].number + 1
    ensures forall k :: 0 <= k < |d| ==> d[k] in s.tree && s.tree[d[k]].number == s.tree[h].number - k
    decreases s.tree[h].number
  {
    match Parent(s, h)
    case None => [h]
    case Some(p) => [h] + Down(s, p)
  }

  lemma {:induction false} DownStep(s: Store, h: Hash, k: nat)
    requires h in s.tree && k < |Down(s, h)|
    ensures Parent(s, Down(s, h)[k]).None? <==> k == |Down(s, h)| - 1
    ensures k < |Down(s, h)| - 1 ==> Parent(s, Down(s, h)[k]) == Some(Down(s, h)[k + 1])
    decreases s.tree[h].number
  {
    if k > 0 {
      DownStep(s, Parent(s, h).value, k - 1);
    }
  }

  /** The transactions of the first `i` blocks of a branch, block by block. */
  function TxsOf(s: Store, branch: seq<Hash>, i: nat): seq<Tx>
    requires i <= |branch|
  {
    if i == 0 then [] else TxsOf(s, branch, i - 1) + Txs(s, branch[i - 1])
  }

  /** One step down a branch: the parent lookup gives the next block, or the branch ends here. */
  lemma {:induction false} Advance(s: Store, h: Hash, k: nat)
    requires h in s.tree && k < |Down(s, h)|
    ensures match Parent(s, Down(s, h)[k])
            case None => k + 1 == |Down(s, h)|
            case Some(p) => k + 1 < |Down(s, h)| && p == Down(s, h)[k + 1]
    ensures TxsOf(s, Down(s, h), k + 1) == TxsOf(s, Down(s, h), k) + Txs(s, Down(s, h)[k])
  {
    DownStep(s, h, k);
  }

  /** The two branches meet at their positions `i` and `j`, and not before. */
  ghost predicate MeetAt(s: Store, oldHead: Hash, newHead: Hash, i: nat, j: nat)
    requires oldHead in s.tree && newHead in s.tree
  {
    var d, e := Down(s, oldHead), Down(s, newHead);
    && i < |d| && j < |e| && d[i] == e[j]
    && Apart(d, e, i, j)
  }

  /** Nothing in the first `i` blocks of `d` is in `e`, and nothing in the first `j` blocks of `e` is in `d`. */
  ghost predicate Apart(d: seq<Hash>, e: seq<Hash>, i: nat, j: nat) {
    && (forall k :: 0 <= k < i && k < |d| ==> d[k] !in e)
    && (forall k :: 0 <= k < j && k < |e| ==> e[k] !in d)
  }

  ghost predicate Disjoint(d: seq<Hash>, e: seq<Hash>) {
    forall h :: h in d ==> h !in e
  }

  /** A block above everything left of the other branch, or beside its block of the same height, is not
      on that branch. */
  lemma {:induction false} PassOver(s: Store, oldHead: Hash, newHead: Hash, i: nat, j: nat)
    requires oldHead in s.tree && newHead in s.tree
    requires i < |Down(s, oldHead)| && j < |Down(s, newHead)| && Apart(Down(s, oldHead), Down(s, newHead), i, j)
    requires s.tree[Down(s, oldHead)[i]].number >= s.tree[Down(s, newHead)[j]].number
    requires Down(s, oldHead)[i] != Down(s, newHead)[j]
    ensures Down(s, oldHead)[i] !in Down(s, newHead)
  {
    var d, e := Down(s, oldHead), Down(s, newHead);
    assert d[i] in d;
    forall k | 0 <= k < |e| ensures e[k] != d[i] {
      if k < j {
        assert e[k] !in d;
      }
    }
  }

  /** Moving past two different blocks of the same height. */
  lemma {:induction false} PassBoth(s: Store, oldHead: Hash, newHead: Hash, i: nat, j: nat)
    requires oldHead in s.tree && newHead in s.tree
    requires i < |Down(s, oldHead)| && j < |Down(s, newHead)| && Apart(Down(s, oldHead), Down(s, newHead), i, j)
    requires s.tree[Down(s, oldHead)[i]].number == s.tree[Down(s, newHead)[j]].number
    requires Down(s, oldHead)[i] != Down(s, newHead)[j]
    ensures Apart(Down(s, oldHead), Down(s, newHead), i + 1, j + 1)
  {
    PassOver(s, oldHead, newHead, i, j);
    PassOver(s, newHead, oldHead, j, i);
  }

  /** How a walk ends: at a shared block, or at the end of a branch, with everything passed over unshared. */
  ghost predicate Ended(s: Store, oldHead: Hash, newHead: Hash, met: bool, i: nat, j: nat)
    requires oldHead in s.tree && newHead in s.tree
  {
    var d, e := Down(s, oldHead), Down(s, newHead);
    && i <= |d| && j <= |e| && Apart(d, e, i, j)
    && if met then i < |d| && j < |e| && d[i] == e[j] else i == |d| || j == |e|
  }

  lemma {:induction false} EndedMeets(s: Store, oldHead: Hash, newHead: Hash, met: bool, i: nat, j: nat)
    requires oldHead in s.tree && newHead in s.tree && Ended(s, oldHead, newHead, met, i, j)
    ensures !met <==> Disjoint(Down(s, oldHead), Down(s, newHead))
    ensures met ==> MeetAt(s, oldHead, newHead, i, j)
  {
    var d, e := Down(s, oldHead), Down(s, newHead);
    if met {
      assert d[i] in d && d[i] in e;
    } else {
      AllApart(d, e, i, j);
    }
  }

  /** The walk: pull the higher side down, then both together, until they meet. It succeeds exactly
      when the two stored branches share a block; then it has stopped at the highest shared block
      and collected the transactions of either branch strictly above it. */
  method Walk(s: Store, oldHead: Hash, newHead: Hash) returns (r: Option<(seq<Tx>, seq<Tx>)>, ghost i: nat, ghost j: nat)
    requires oldHead in s.tree && newHead in s.tree
    ensures r.None? <==> Disjoint(Down(s, oldHead), Down(s, newHead))
    ensures r.Some? ==> MeetAt(s, oldHead, newHead, i, j)
    ensures r.Some? ==> r.value == (TxsOf(s, Down(s, oldHead), i), TxsOf(s, Down(s, newHead), j))
  {
    var rem, discarded;
    rem, discarded, i := Descend(s, oldHead, newHead, s.tree[newHead].number);
    j := 0;
    if rem.None? {
      EndedMeets(s, oldHead, newHead, false, i, j);
      return None, i, j;
    }
    var add, included;
    add, included, j := Descend(s, newHead, oldHead, s.tree[rem.value].number);
    if add.None? {
      EndedMeets(s, oldHead, newHead, false, i, j);
      return None, i, j;
    }
    r, i, j := WalkTogether(s, oldHead, newHead, rem.value, add.value, discarded, included, i, j);
    EndedMeets(s, oldHead, newHead, r.Some?, i, j);
  }

  /** Pulls one side down to the given height, which is that of a block of the other side. */
  method Descend(s: Store, head: Hash, other: Hash, height: nat) returns (r: Option<Hash>, txs: seq<Tx>, ghost i: nat)
    requires head in s.tree && other in s.tree
    requires height <= s.tree[other].number && s.tree[other].number < height + |Down(s, other)|
    requires height < s.tree[other].number ==> s.tree[head].number <= height
    ensures i <= |Down(s, head)| && Apart(Down(s, head), Down(s, other), i, 0)
    ensures txs == TxsOf(s, Down(s, head), i)
    ensures r.None? ==> i == |Down(s, head)|
    ensures r.Some? ==> i < |Down(s, head)| && r.value == Down(s, head)[i]
    ensures r.Some? ==> s.tree[r.value].number <= height && (i > 0 ==> s.tree[r.value].number == height)
  {
    ghost var d := Down(s, head);
    var h := head;
    txs, i := [], 0;
    while s.tree[h].number > height
      invariant i < |d| && h == d[i] && Apart(d, Down(s, other), i, 0)
      invariant txs == TxsOf(s, d, i)
      invariant i > 0 ==> s.tree[h].number >= height
      decreases s.tree[h].number
    {
      PassOver(s, head, other, i, 0);
      Advance(s, head, i);
      txs := txs + Txs(s, h);
      i := i + 1;
      var p := Parent(s, h);
      if p.None? {
        return None, txs, i;
      }
      h := p.value;
    }
    return Some(h), txs, i;
  }

  /** The last phase, from two blocks of equal height. */
  method WalkTogether(s: Store, oldHead: Hash, newHead: Hash, rem0: Hash, add0: Hash, discarded0: seq<Tx>, included0: seq<Tx>, ghost i0: nat, ghost j0: nat)
    returns (r: Option<(seq<Tx>, seq<Tx>)>, ghost i: nat, ghost j: nat)
    requires oldHead in s.tree && newHead in s.tree
    requires i0 < |Down(s, oldHead)| && j0 < |Down(s, newHead)| && rem0 == Down(s, oldHead)[i0] && add0 == Down(s, newHead)[j0]
    requires s.tree[rem0].number == s.tree[add0].number
    requires Apart(Down(s, oldHead), Down(s, newHead), i0, j0)
    requires discarded0 == TxsOf(s, Down(s, oldHead), i0) && included0 == TxsOf(s, Down(s, newHead), j0)
    ensures Ended(s, oldHead, newHead, r.Some?, i, j)
    ensures r.Some? ==> r.value == (TxsOf(s, Down(s, oldHead), i), TxsOf(s, Down(s, newHead), j))
  {
    hide Down, TxsOf, Apart, Parent;
    ghost var d, e := Down(s, oldHead), Down(s, newHead);
    var rem, add, discarded, included := rem0, add0, discarded0, included0;
    i, j := i0, j0;
    while rem != add
      invariant i < |d| && j < |e| && rem == d[i] && add == e[j] && Apart(d, e, i, j)
      invariant s.tree[rem].number == s.tree[add].number
      invariant discarded == TxsOf(s, d, i) && included == TxsOf(s, e, j)
      decreases s.tree[rem].number
    {
      PassBoth(s, oldHead, newHead, i, j);
      Advance(s, oldHead, i);
      Advance(s, newHead, j);
      i, j := i + 1, j + 1;
      discarded := discarded + Txs(s, rem);
      var p := Parent(s, rem);
      if p.None? {
        return None, i, j;
      }
      included := included + Txs(s, add);
      var q := Parent(s, add);
      if q.None? {
        return None, i, j;
      }
      rem, add := p.value, q.value;
    }
    return Some((discarded, included)), i, j;
  }

  lemma {:induction false} AllApart(d: seq<Hash>, e: seq<Hash>, i: nat, j: nat)
    requires Apart(d, e, i, j) && (i == |d| || j == |e|)
    ensures Disjoint(d, e)
  {
    if i == |d| {
      assert forall k :: 0 <= k < |d| ==> d[k] !in e;
    } else {
      assert forall k :: 0 <= k < |e| ==> e[k] !in d;
    }
  }

  /** Two heads over one genesis always meet. */
  lemma {:induction false} ReachesGenesis(s: Store, genesis: Hash, h: Hash)
    requires WellFormed(s.tree, genesis) && h in s.tree
    ensures genesis in Down(s, h)
    decreases s.tree[h].number
  {
    assert Extends(s.tree, genesis, h);
    if h != genesis {
      ReachesGenesis(s, genesis, s.tree[h].parent);
      assert Down(s, h) == [h] + Down(s, s.tree[h].parent);
    }
  }

  // ----- the reset -----

  /** The positions `at` are, in order, all those of `a` whose transaction is not in `b`, and `r` is what is there. */
  ghost predicate Picks(a: seq<Tx>, b: seq<Tx>, r: seq<Tx>, at: seq<nat>) {
    && |at| == |r| && (forall i :: 0 <= i < |at| ==> at[i] < |a| && r[i] == a[at[i]])
    && (forall i, j :: 0 <= i < j < |at| ==> at[i] < at[j])
    && (forall k :: 0 <= k < |a| ==> (k in at <==> a[k] !in b))
  }

  /** What is in the one list and not in the other, as often and in the same order. */
  method TxDifference(a: seq<Tx>, b: seq<Tx>) returns (keep: seq<Tx>, ghost at: seq<nat>)
    ensures Picks(a, b, keep, at)
    ensures forall tx :: tx in keep <==> tx in a && tx !in b
  {
    keep, at := [], [];
    var remove: set<Tx> := {};
    for i := 0 to |b|
      invariant forall tx :: tx in remove <==> tx in b[..i]
    {
      remove := remove + {b[i]};
    }
    for i := 0 to |a|
      invariant Picks(a[..i], b, keep, at)
    {
      var start, keep0, at0 := a[..i], keep, at;
      if a[i] !in remove {
        keep, at := keep + [a[i]], at + [i];
      }
      PickNext(start, a[i], b, keep0, at0);
      assert a[..i + 1] == start + [a[i]];
    }
    assert a[..|a|] == a;
    PickedAre(a, b, keep, at);
  }

  lemma {:induction false} PickNext(a: seq<Tx>, tx: Tx, b: seq<Tx>, r: seq<Tx>, at: seq<nat>)
    requires Picks(a, b, r, at)
    ensures if tx in b then Picks(a + [tx], b, r, at) else Picks(a + [tx], b, r + [tx], at + [|a|])
  {
    if tx !in b {
      forall k | 0 <= k < |a| + 1 ensures k in at + [|a|] <==> (a + [tx])[k] !in b {
        assert k < |a| ==> (k in at <==> a[k] !in b);
      }
    } else {
      assert |a| !in at;
    }
  }

  lemma {:induction false} PickedAre(a: seq<Tx>, b: seq<Tx>, r: seq<Tx>, at: seq<nat>)
    requires Picks(a, b, r, at)
    ensures forall tx :: tx in r <==> tx in a && tx !in b
  {
    forall tx | tx in r ensures tx in a && tx !in b {
      var i :| 0 <= i < |r| && r[i] == tx;
      assert at[i] in at;
    }
    forall tx | tx in a && tx !in b ensures tx in r {
      var k :| 0 <= k < |a| && a[k] == tx;
      assert k in at;
      var i :| 0 <= i < |at| && at[i] == k;
      assert r[i] == tx;
    }
  }

  /** The difference is determined by the two lists. */
  lemma {:induction false} DifferenceIsUnique(a: seq<Tx>, b: seq<Tx>, r: seq<Tx>, at: seq<nat>, r': seq<Tx>, at': seq<nat>)
    requires Picks(a, b, r, at) && Picks(a, b, r', at')
    ensures r == r'
  {
    PositionsAgree(a, b, r, at, r', at', |at|);
    PositionsAgree(a, b, r', at', r, at, |at'|);
  }

  lemma {:induction false} PositionsAgree(a: seq<Tx>, b: seq<Tx>, r: seq<Tx>, at: seq<nat>, r': seq<Tx>, at': seq<nat>, n: nat)
    requires Picks(a, b, r, at) && Picks(a, b, r', at') && n <= |at|
    ensures n <= |at'| && forall i :: 0 <= i < n ==> at'[i] == at[i]
  {
    if n > 0 {
      PositionsAgree(a, b, r, at, r', at', n - 1);
      var k := at[n - 1];
      assert k in at && k in at';
      var j :| 0 <= j < |at'| && at'[j] == k;
      assert j >= n - 1;
      var k' := at'[n - 1];
      assert k' in at' && k' in at;
      var j' :| 0 <= j' < |at| && at[j'] == k';
      assert j' >= n - 1;
    }
  }

  datatype Head = Head(hash: Hash, header: Header)

  const MAX_DEPTH := 64

  /** How the part of a reset before the new state is loaded ends: it goes on and puts transactions back, it gives up,
      or it dereferences the new head's block although that was not found. */
  datatype Outcome = Proceed(reinject: seq<Tx>) | GivesUp | Panics

  /** The transactions of the branch that is left that are not in the branch that is joined. */
  ghost predicate Dropped(s: Store, oldHead: Hash, newHead: Hash, reinject: seq<Tx>, i: nat, j: nat, at: seq<nat>)
    requires oldHead in s.tree && newHead in s.tree
  {
    && MeetAt(s, oldHead, newHead, i, j)
    && Picks(TxsOf(s, Down(s, oldHead), i), TxsOf(s, Down(s, newHead), j), reinject, at)
  }

  method Reinjected(s: Store, oldHead: Option<Head>, newHead: Head) returns (r: Outcome, ghost i: nat, ghost j: nat, ghost at: seq<nat>)
    requires newHead.hash in s.tree ==> s.tree[newHead.hash] == newHead.header
    requires oldHead.Some? && oldHead.value.hash in s.tree ==> s.tree[oldHead.value.hash] == oldHead.value.header
    // without a walk nothing is put back
    ensures !ReorgWalks(s, oldHead, newHead) ==> r == Proceed([])
    // without the old head's block it is a rewind if the number went down
    ensures ReorgWalks(s, oldHead, newHead) && oldHead.value.hash !in s.tree ==>
              r == if newHead.header.number < oldHead.value.header.number then Proceed([]) else GivesUp
    ensures r.Panics? <==> ReorgWalks(s, oldHead, newHead) && oldHead.value.hash in s.tree && newHead.hash !in s.tree
    // with both, the branches are followed to where they meet, if they do
    ensures ReorgWalks(s, oldHead, newHead) && oldHead.value.hash in s.tree && newHead.hash in s.tree ==>
              if Disjoint(Down(s, oldHead.value.hash), Down(s, newHead.hash)) then r == GivesUp
              else r.Proceed? && Dropped(s, oldHead.value.hash, newHead.hash, r.reinject, i, j, at)
  {
    i, j, at := 0, 0, [];
    var reinject := [];
    if oldHead.Some? && oldHead.value.hash != newHead.header.parent {
      var oldNum, newNum := oldHead.value.header.number, newHead.header.number;
      var depth := if oldNum < newNum then newNum - oldNum else oldNum - newNum;
      if depth <= MAX_DEPTH {
        if oldHead.value.hash !in s.tree {
          if newNum >= oldNum {
            r := GivesUp;
            return;
          }
        } else if newHead.hash !in s.tree {
          r := Panics;
          return;
        } else {
          var walked;
          walked, i, j := Walk(s, oldHead.value.hash, newHead.hash);
          if walked.None? {
            r := GivesUp;
            return;
          }
          reinject, at := TxDifference(walked.value.0, walked.value.1);
        }
      }
    }
    r := Proceed(reinject);
  }

  /** The new head does not simply extend the old one and the heights are close enough to walk. */
  predicate ReorgWalks(s: Store, oldHead: Option<Head>, newHead: Head) {
    && oldHead.Some? && oldHead.value.hash != newHead.header.parent
    && oldHead.value.header.number <= newHead.header.number + MAX_DEPTH
    && newHead.header.number <= oldHead.value.header.number + MAX_DEPTH
  }

  /** Meeting points are unique, so the dropped and gained branches are well defined. */
  lemma {:induction false} MeetIsUnique(s: Store, oldHead: Hash, newHead: Hash, i: nat, j: nat, i': nat, j': nat)
    requires oldHead in s.tree && newHead in s.tree
    requires MeetAt(s, oldHead, newHead, i, j) && MeetAt(s, oldHead, newHead, i', j')
    ensures i == i' && j == j'
  {
    var d, e := Down(s, oldHead), Down(s, newHead);
    assert d[i] in e && d[i'] in e;
    assert i == i';
    assert s.tree[e[j]].number == s.tree[e[j']].number;
  }

  /** Over one genesis the walk always ends at the lowest common ancestor. */
  lemma {:induction false} HeadsMeet(s: Store, genesis: Hash, oldHead: Hash, newHead: Hash)
    requires WellFormed(s.tree, genesis) && oldHead in s.tree && newHead in s.tree
    ensures !Disjoint(Down(s, oldHead), Down(s, newHead))
  {
    ReachesGenesis(s, genesis, oldHead);
    ReachesGenesis(s, genesis, newHead);
  }
}
