/** The block store of one node, seen from that node's own context: every stored header names
    its parent and its number, and the parent links lead to the configured genesis block.

    Hashes are natural numbers and stand for the headers they identify, so that two headers
    with the same hash are the same header; zero is the empty hash. */
module BlockTree {

  type Hash = nat

  const ZERO_HASH: Hash := 0

  datatype Header = Header(parent: Hash, number: nat)

  type Tree = map<Hash, Header>

  /** What header verification keeps: genesis is block 0, and every other stored header extends
      a stored parent by one. */
  ghost predicate WellFormed(t: Tree, genesis: Hash) {
    && ZERO_HASH !in t
    && genesis in t
    && t[genesis] == Header(ZERO_HASH, 0)
    && forall h {:trigger Extends(t, genesis, h)} :: h in t ==> Extends(t, genesis, h)
  }

  predicate Extends(t: Tree, genesis: Hash, h: Hash) {
    h in t && (h == genesis || (t[h].parent in t && t[h].number == t[t[h].parent].number + 1))
  }

  /** The chain from genesis up to and including `h`, oldest first. */
  ghost function Path(t: Tree, genesis: Hash, h: Hash): (p: seq<Hash>)
    requires WellFormed(t, genesis) && h in t
    ensures |p| == t[h].number + 1 && p[0] == genesis && p[t[h].number] == h
    ensures forall i :: 0 <= i < |p| ==> p[i] in t && t[p[i]].number == i
    ensures forall i, j :: 0 <= i < |p| && 0 < j < |p| && j == i + 1 ==> t[p[j]].parent == p[i]
    decreases t[h].number
  {
    assert Extends(t, genesis, h);
    if h == genesis then [h] else Path(t, genesis, t[h].parent) + [h]
  }

  /** One step down a chain. */
  lemma {:induction false} StepDown(t: Tree, genesis: Hash, h: Hash, i: nat)
    requires WellFormed(t, genesis) && h in t && 0 < i <= t[h].number
    ensures var p := Path(t, genesis, h); p[i] != genesis && t[p[i]].parent == p[i - 1]
  {
  }

  /** The chain of an ancestor is the prefix that ends in it. */
  lemma {:induction false} PathPrefix(t: Tree, genesis: Hash, h: Hash, i: nat)
    requires WellFormed(t, genesis) && h in t && i <= t[h].number
    ensures Path(t, genesis, Path(t, genesis, h)[i]) == Path(t, genesis, h)[..i + 1]
    decreases t[h].number
  {
    var p := Path(t, genesis, h);
    if i == t[h].number {
      assert p[..i + 1] == p;
    } else {
      assert Extends(t, genesis, h);
      var q := Path(t, genesis, t[h].parent);
      assert p == q + [h];
      PathPrefix(t, genesis, t[h].parent, i);
      assert p[..i + 1] == q[..i + 1];
    }
  }

  /** Two chains that agree at one height agree everywhere below it. */
  lemma {:induction false} PathsMeet(t: Tree, genesis: Hash, a: Hash, b: Hash, i: nat)
    requires WellFormed(t, genesis) && a in t && b in t
    requires i <= t[a].number && i <= t[b].number
    requires Path(t, genesis, a)[i] == Path(t, genesis, b)[i]
    ensures Path(t, genesis, a)[..i + 1] == Path(t, genesis, b)[..i + 1]
  {
    PathPrefix(t, genesis, a, i);
    PathPrefix(t, genesis, b, i);
  }

  /** Appending blocks never changes the chain of a block that is already stored. */
  lemma {:induction false} PathStable(t: Tree, t': Tree, genesis: Hash, h: Hash)
    requires WellFormed(t, genesis) && WellFormed(t', genesis) && h in t
    requires forall x :: x in t ==> x in t' && t'[x] == t[x]
    ensures Path(t', genesis, h) == Path(t, genesis, h)
    decreases t[h].number
  {
    if h != genesis {
      assert Extends(t, genesis, h);
      PathStable(t, t', genesis, t[h].parent);
    }
  }

  /** Storing a new header on a stored parent keeps the tree well formed. */
  lemma {:induction false} ExtendWellFormed(t: Tree, genesis: Hash, h: Hash, header: Header)
    requires WellFormed(t, genesis)
    requires h !in t && h != ZERO_HASH
    requires header.parent in t && header.number == t[header.parent].number + 1
    ensures WellFormed(t[h := header], genesis)
    ensures Path(t[h := header], genesis, h) == Path(t, genesis, header.parent) + [h]
  {
    var t' := t[h := header];
    forall x | x in t' ensures Extends(t', genesis, x) {
      assert x in t ==> Extends(t, genesis, x);
    }
    PathStable(t, t', genesis, header.parent);
  }
}
