/** The canonical number-to-hash index of the header chain and the lookups built on it. */
module CanonicalIndex {
  import opened Common
  import opened BlockTree

  /** The index lists exactly the blocks of a chain below the given height. */
  ghost predicate Indexes(canonical: map<nat, Hash>, p: seq<Hash>, k: nat) {
    && k <= |p|
    && (forall i :: i in canonical <==> 0 <= i < k)
    && (forall i :: 0 <= i < k ==> canonical[i] == p[i])
  }

  lemma {:induction false} DeleteTop(canonical: map<nat, Hash>, p: seq<Hash>, k: nat)
    requires Indexes(canonical, p, k + 1)
    ensures Indexes(canonical - {k}, p, k)
  {
  }

  lemma {:induction false} WriteTop(canonical: map<nat, Hash>, p: seq<Hash>, k: nat)
    requires Indexes(canonical, p, k) && k < |p|
    ensures Indexes(canonical[k := p[k]], p, k + 1)
  {
  }

  /** Writing a child of the head extends the index to the child's chain. */
  lemma {:induction false} ExtendIndex(t: Tree, genesis: Hash, canonical: map<nat, Hash>, prev: Hash, head: Hash)
    requires WellFormed(t, genesis) && prev in t && head in t && t[head].parent == prev
    requires Indexes(canonical, Path(t, genesis, prev), t[prev].number + 1)
    ensures Indexes(canonical[t[head].number := head], Path(t, genesis, head), t[head].number + 1)
  {
    assert Extends(t, genesis, head);
    assert head != genesis;
    assert Path(t, genesis, head) == Path(t, genesis, prev) + [head];
    WriteTop(canonical, Path(t, genesis, head), t[head].number);
  }

  /** An index that stops where two chains meet indexes both of them. */
  lemma {:induction false} MeetIndex(t: Tree, genesis: Hash, canonical: map<nat, Hash>, a: Hash, b: Hash, n: nat)
    requires WellFormed(t, genesis) && a in t && b in t && n <= t[a].number && n <= t[b].number
    requires Indexes(canonical, Path(t, genesis, a), n + 1)
    requires Path(t, genesis, a)[n] == Path(t, genesis, b)[n]
    ensures Indexes(canonical, Path(t, genesis, b), n + 1)
  {
    var p, q := Path(t, genesis, a), Path(t, genesis, b);
    PathsMeet(t, genesis, a, b, n);
    assert forall i :: 0 <= i <= n ==> p[i] == p[..n + 1][i] && q[i] == q[..n + 1][i];
  }

  /** The `k`-th ancestor of a stored block, found by following parent links one at a time. */
  ghost function ParentWalk(t: Tree, genesis: Hash, h: Hash, k: nat): (a: Hash)
    requires WellFormed(t, genesis) && h in t && k <= t[h].number
    ensures a == Path(t, genesis, h)[t[h].number - k]
    decreases k
  {
    if k == 0 then h
    else
      PathPrefix(t, genesis, h, t[h].number - 1);
      ParentWalk(t, genesis, t[h].parent, k - 1)
  }

  /** How many blocks of the chain of `h` must be climbed down before the index names one. */
  ghost function Detour(t: Tree, genesis: Hash, canonical: map<nat, Hash>, h: Hash): (d: nat)
    requires WellFormed(t, genesis) && h in t
    requires 0 in canonical && canonical[0] == genesis
    ensures d <= t[h].number
    ensures var a := ParentWalk(t, genesis, h, d);
            t[a].number in canonical && canonical[t[a].number] == a
    decreases t[h].number
  {
    assert Extends(t, genesis, h);
    if t[h].number in canonical && canonical[t[h].number] == h then 0
    else 1 + Detour(t, genesis, canonical, t[h].parent)
  }

  datatype Event = StoreHeader(hash: Hash, header: Header) | SetHead(head: Hash)

  /** What the node has stored, and its head. */
  datatype View = View(headers: map<Hash, Header>, current: Hash)

  /** A header is stored exactly if it is new and linked to a stored parent, and then the head stays; a head is taken
      exactly if it is stored. */
  ghost predicate Follows(v: View, e: Event, w: View) {
    match e
    case StoreHeader(hash, header) =>
      if hash !in v.headers && hash != ZERO_HASH && header.parent in v.headers && v.headers[header.parent].number + 1 == header.number
      then w.headers == v.headers[hash := header] && w.current == v.current
      else w == v
    case SetHead(head) => w == if head in v.headers then v.(current := head) else v
  }

  ghost predicate FollowsAll(events: seq<Event>, n: nat, views: seq<View>) {
    && n <= |events| && |views| == n + 1
    && forall k {:trigger events[k]} :: 0 <= k < n ==> Follows(views[k], events[k], views[k + 1])
  }

  lemma {:induction false} FollowsNext(events: seq<Event>, n: nat, views: seq<View>, w: View)
    requires FollowsAll(events, n, views) && n < |events| && Follows(views[n], events[n], w)
    ensures FollowsAll(events, n + 1, views + [w])
  {
    hide Follows;
  }

  class HeaderChain {
    const genesis: Hash
    var headers: Tree
    var canonical: map<nat, Hash>
    var current: Hash

    ghost predicate Stored()
      reads this
    {
      WellFormed(headers, genesis) && current in headers
    }

    /** The index is exactly the chain of the current header, with nothing above it. */
    ghost predicate Valid()
      reads this
    {
      Stored() && Indexes(canonical, Path(headers, genesis, current), headers[current].number + 1)
    }

    constructor (genesis: Hash)
      requires genesis != ZERO_HASH
      ensures Valid() && this.genesis == genesis && current == genesis
      ensures headers == map[genesis := Header(ZERO_HASH, 0)]
    {
      this.genesis := genesis;
      headers := map[genesis := Header(ZERO_HASH, 0)];
      canonical := map[0 := genesis];
      current := genesis;
    }

    function ReadCanonicalHash(number: nat): Hash
      reads this
    {
      if number in canonical then canonical[number] else ZERO_HASH
    }

    /** Climbs down from `head` to the highest block of its chain that the index names. */
    method FindCommonAncestor(head: Hash) returns (meet: Hash)
      requires Valid() && head in headers
      ensures meet in headers && ReadCanonicalHash(headers[meet].number) == meet
      ensures var p := Path(headers, genesis, head);
              && headers[meet].number < |p| && p[headers[meet].number] == meet
              && forall i :: headers[meet].number < i < |p| ==> ReadCanonicalHash(i) != p[i]
    {
      ghost var p := Path(headers, genesis, head);
      meet := head;
      while ReadCanonicalHash(headers[meet].number) != meet
        invariant meet in headers && headers[meet].number < |p| && p[headers[meet].number] == meet
        invariant forall i :: headers[meet].number < i < |p| ==> ReadCanonicalHash(i) != p[i]
        decreases headers[meet].number
      {
        StepDown(headers, genesis, head, headers[meet].number);
        meet := headers[meet].parent;
      }
    }

    lemma {:induction false} Indexed(h: Hash)
      requires Valid() && h in headers && ReadCanonicalHash(headers[h].number) == h
      ensures headers[h].number <= headers[current].number && Path(headers, genesis, current)[headers[h].number] == h
    {
    }

    /** Makes `head` the head of the canonical chain, rewriting the index in place. */
    method SetCurrentHeader(head: Hash)
      requires Valid() && head in headers
      modifies this`canonical, this`current
      ensures Valid() && current == head
    {
      hide Path, Indexes, WellFormed;
      var prev := current;
      if prev == head {
        return;
      }
      var meet := FindCommonAncestor(head);
      Indexed(meet);
      current := head;
      if headers[head].parent == prev {
        ExtendIndex(headers, genesis, canonical, prev, head);
        canonical := canonical[headers[head].number := head];
        return;
      }
      var hashStack := StackAbove(head, meet);
      DeleteAbove(prev, meet);
      MeetIndex(headers, genesis, canonical, prev, head, headers[meet].number);
      WriteStack(head, hashStack);
    }

    /** The headers of the chain of `head` strictly above `meet`, newest first. */
    method StackAbove(head: Hash, meet: Hash) returns (hashStack: seq<Hash>)
      requires Stored() && head in headers && meet in headers
      requires headers[meet].number <= headers[head].number
      requires Path(headers, genesis, head)[headers[meet].number] == meet
      ensures |hashStack| == headers[head].number - headers[meet].number
      ensures forall j :: 0 <= j < |hashStack| ==>
                hashStack[j] == Path(headers, genesis, head)[headers[head].number - j]
    {
      ghost var p, k := Path(headers, genesis, head), headers[head].number;
      hashStack := [];
      var next := head;
      while next != meet
        invariant headers[meet].number <= k < |p| && next == p[k]
        invariant |hashStack| == |p| - 1 - k
        invariant forall j :: 0 <= j < |hashStack| ==> hashStack[j] == p[|p| - 1 - j]
        decreases k
      {
        StepDown(headers, genesis, head, k);
        hashStack := hashStack + [next];
        next := headers[next].parent;
        k := k - 1;
        if next == genesis {
          break;
        }
      }
    }

    /** Deletes the index entries of the chain of `prev` strictly above `meet`. */
    method DeleteAbove(prev: Hash, meet: Hash)
      requires Stored() && prev in headers && meet in headers
      requires headers[meet].number <= headers[prev].number
      requires Path(headers, genesis, prev)[headers[meet].number] == meet
      requires Indexes(canonical, Path(headers, genesis, prev), headers[prev].number + 1)
      modifies this`canonical
      ensures Indexes(canonical, Path(headers, genesis, prev), headers[meet].number + 1)
    {
      ghost var q, k := Path(headers, genesis, prev), headers[prev].number;
      var h := prev;
      while h != meet
        invariant headers[meet].number <= k < |q| && h == q[k]
        invariant Indexes(canonical, q, k + 1)
        decreases k
      {
        StepDown(headers, genesis, prev, k);
        DeleteTop(canonical, q, k);
        canonical := canonical - {headers[h].number};
        h := headers[h].parent;
        k := k - 1;
        if h == genesis {
          break;
        }
      }
    }

    /** Writes the stacked headers into the index, oldest first. */
    method WriteStack(head: Hash, hashStack: seq<Hash>)
      requires Stored() && head in headers && |hashStack| <= headers[head].number
      requires forall j :: 0 <= j < |hashStack| ==>
                 hashStack[j] == Path(headers, genesis, head)[headers[head].number - j]
      requires Indexes(canonical, Path(headers, genesis, head), headers[head].number + 1 - |hashStack|)
      modifies this`canonical
      ensures Indexes(canonical, Path(headers, genesis, head), headers[head].number + 1)
    {
      ghost var p := Path(headers, genesis, head);
      var i := |hashStack|;
      while i > 0
        invariant 0 <= i <= |hashStack|
        invariant Indexes(canonical, p, headers[head].number + 1 - i)
      {
        i := i - 1;
        var h := hashStack[i];
        ghost var k := headers[head].number - i;
        assert h == p[k] && headers[h].number == k;
        WriteTop(canonical, p, k);
        canonical := canonical[headers[h].number := h];
      }
    }

    /** Stores a verified header; neither the head nor the index moves. */
    method Append(hash: Hash, header: Header)
      requires Valid()
      requires hash !in headers && hash != ZERO_HASH
      requires header.parent in headers && header.number == headers[header.parent].number + 1
      modifies this`headers
      ensures Valid() && headers == old(headers)[hash := header]
    {
      ExtendWellFormed(headers, genesis, hash, header);
      PathStable(headers, headers[hash := header], genesis, current);
      headers := headers[hash := header];
    }

    /** Follows any sequence of appends and head changes; an event that the node would refuse
        (an unverifiable header, an unknown head) is skipped. */
    method Replay(events: seq<Event>) returns (ghost views: seq<View>)
      requires Valid()
      modifies this`headers, this`canonical, this`current
      ensures Valid() && genesis in canonical.Values && canonical[0] == genesis
      ensures forall h :: h in old(headers) ==> h in headers && headers[h] == old(headers)[h]
      // each event in turn has its effect
      ensures FollowsAll(events, |events|, views)
      ensures views[0] == old(View(headers, current)) && views[|events|] == View(headers, current)
      ensures |events| > 0 && events[|events| - 1].SetHead? && events[|events| - 1].head in headers
              ==> current == events[|events| - 1].head
    {
      views := [View(headers, current)];
      for i := 0 to |events|
        invariant Valid()
        invariant forall h :: h in old(headers) ==> h in headers && headers[h] == old(headers)[h]
        invariant FollowsAll(events, i, views)
        invariant views[0] == old(View(headers, current)) && views[i] == View(headers, current)
      {
        match events[i] {
          case StoreHeader(hash, header) =>
            if hash !in headers && hash != ZERO_HASH && header.parent in headers
               && header.number == headers[header.parent].number + 1 {
              Append(hash, header);
            }
          case SetHead(head) =>
            if head in headers {
              SetCurrentHeader(head);
            }
        }
        FollowsNext(events, i, views, View(headers, current));
        views := views + [View(headers, current)];
      }
      assert canonical[0] == genesis;
    }

    /** The number of individual steps the lookup takes before the index can answer. */
    ghost function Steps(hash: Hash, ancestor: nat): nat
      reads this
      requires Valid() && hash in headers
    {
      var d := Detour(headers, genesis, canonical, hash);
      if d < ancestor then d else ancestor
    }

    /** The lookup of a header by hash and number; the cache, which is asked first, does not compare the number. */
    function GetHeader(hash: Hash, number: nat, cached: set<Hash>): Option<Header>
      reads this
    {
      if hash in headers && (hash in cached || headers[hash].number == number) then Some(headers[hash]) else None
    }

    /** The block is stored under the number. */
    predicate At(hash: Hash, number: nat)
      reads this
    {
      hash in headers && headers[hash].number == number
    }

    /** The block and the next ones down its chain are cached. */
    ghost predicate CachedDown(hash: Hash, n: nat, cached: set<Hash>)
      reads this
      requires Valid() && hash in headers && n <= headers[hash].number + 1
    {
      forall j {:trigger ParentWalk(headers, genesis, hash, j)} :: 0 <= j < n ==> ParentWalk(headers, genesis, hash, j) in cached
    }

    /** What the walk over `k` more steps answers, and what it leaves of the allowance. */
    ghost function WalkBack(h: Hash, n: nat, k: nat, left: nat, cached: set<Hash>): (Hash, nat, nat)
      reads this
      requires k <= n
      decreases k
    {
      if k == 0 then (h, n, left)
      else if ReadCanonicalHash(n) == h then (ReadCanonicalHash(n - k), n - k, left)
      else if left == 0 then (ZERO_HASH, 0, 0)
      else
        match GetHeader(h, n, cached)
        case None => (ZERO_HASH, 0, left - 1)
        case Some(header) => WalkBack(header.parent, n - 1, k - 1, left - 1, cached)
    }

    lemma {:induction false} NoSteps(h: Hash)
      requires Valid() && h in headers
      ensures h != ZERO_HASH && ParentWalk(headers, genesis, h, 0) == h && Steps(h, 0) == 0
    {
    }

    lemma {:induction false} WalkFromHere(h: Hash, n: nat, k: nat, left: nat, cached: set<Hash>)
      requires Valid() && At(h, n) && k <= n
      ensures var r := WalkBack(h, n, k, left, cached);
              if Steps(h, k) <= left then r == (ParentWalk(headers, genesis, h, k), n - k, left - Steps(h, k))
              else r.0 == ZERO_HASH && r.1 == 0
      decreases k
    {
      hide Path, Detour, ParentWalk, Indexes, WellFormed, Steps;
      NoSteps(h);
      if k > 0 {
        if ReadCanonicalHash(n) == h {
          IndexAnswers(h, n, k);
        } else {
          StepTowardsIndex(h, k);
          if left > 0 {
            WalkFromHere(headers[h].parent, n - 1, k - 1, left - 1, cached);
          }
        }
      }
    }

    lemma {:induction false} WalkFromUnknown(h: Hash, n: nat, k: nat, left: nat, cached: set<Hash>)
      requires Valid() && h !in headers && 0 < k <= n
      ensures var r := WalkBack(h, n, k, left, cached);
              if h == ZERO_HASH && n > headers[current].number then r == (ReadCanonicalHash(n - k), n - k, left)
              else r.0 == ZERO_HASH && r.1 == 0
    {
    }

    /** The empty hash, two above a head that is the genesis block, is given the genesis block for an ancestor. */
    lemma {:induction false} EmptyHashIsAnswered()
      requires Valid() && current == genesis
      ensures WalkBack(ZERO_HASH, 2, 2, 0, {}) == (genesis, 0, 0) && genesis != ZERO_HASH
    {
      WalkFromUnknown(ZERO_HASH, 2, 2, 0, {});
      NoSteps(genesis);
    }

    lemma {:induction false} CachedNext(h: Hash, k: nat, cached: set<Hash>)
      requires Valid() && h in headers && headers[h].number > 0 && 0 < k <= headers[h].number + 1
      ensures headers[h].parent in headers && headers[h].number == headers[headers[h].parent].number + 1
      ensures k <= headers[h].number ==>
                ParentWalk(headers, genesis, h, k) == ParentWalk(headers, genesis, headers[h].parent, k - 1)
      ensures CachedDown(h, k, cached) <==> h in cached && CachedDown(headers[h].parent, k - 1, cached)
    {
      hide Path;
      assert Extends(headers, genesis, h);
      var p := headers[h].parent;
      assert ParentWalk(headers, genesis, h, 0) == h;
      if CachedDown(h, k, cached) {
        forall j | 0 <= j < k - 1 ensures ParentWalk(headers, genesis, p, j) in cached {
          assert ParentWalk(headers, genesis, h, j + 1) == ParentWalk(headers, genesis, p, j);
        }
      }
      if h in cached && CachedDown(p, k - 1, cached) {
        forall j | 0 <= j < k ensures ParentWalk(headers, genesis, h, j) in cached {
          assert j > 0 ==> ParentWalk(headers, genesis, h, j) == ParentWalk(headers, genesis, p, j - 1);
        }
      }
    }

    lemma {:induction false} WalkFromStray(h: Hash, n: nat, k: nat, left: nat, cached: set<Hash>)
      requires Valid() && h in headers && headers[h].number != n && k <= headers[h].number && k <= n
      ensures var r := WalkBack(h, n, k, left, cached);
              if k <= left && CachedDown(h, k, cached) then r == (ParentWalk(headers, genesis, h, k), n - k, left - k)
              else r.0 == ZERO_HASH && r.1 == 0
      decreases k
    {
      hide CachedDown, Path, Detour;
      if k == 0 {
        NothingCached(h, cached);
      } else {
        CachedNext(h, k, cached);
        NotIndexed(h, n);
        if left > 0 && h in cached {
          WalkFromStray(headers[h].parent, n - 1, k - 1, left - 1, cached);
        }
      }
    }

    /** What is left to do below genesis: the empty hash is answered at once, or from the index above the head. */
    function BelowGenesis(n: nat, k: nat): (Hash, nat)
      reads this
      requires Valid() && k <= n
    {
      if k == 0 then (ZERO_HASH, n)
      else if n > headers[current].number then (ReadCanonicalHash(n - k), n - k)
      else (ZERO_HASH, 0)
    }

    /** A walk under another number that goes on below genesis. */
    lemma {:induction false} WalkBelowGenesis(h: Hash, n: nat, k: nat, left: nat, cached: set<Hash>)
      requires Valid() && h in headers && headers[h].number != n && headers[h].number < k <= n
      ensures var m, r := headers[h].number, WalkBack(h, n, k, left, cached);
              (r.0, r.1) == if m < left && CachedDown(h, m + 1, cached) then BelowGenesis(n - m - 1, k - m - 1) else (ZERO_HASH, 0)
      decreases headers[h].number
    {
      hide CachedDown, Path, Detour, ParentWalk, Indexes;
      NotIndexed(h, n);
      if headers[h].number == 0 {
        GenesisCached(h, cached);
        if left > 0 && h in cached && k > 1 {
          WalkFromUnknown(ZERO_HASH, n - 1, k - 1, left - 1, cached);
        }
      } else {
        CachedNext(h, headers[h].number + 1, cached);
        if left > 0 && h in cached {
          WalkBelowGenesis(headers[h].parent, n - 1, k - 1, left - 1, cached);
        }
      }
    }

    lemma {:induction false} GenesisCached(h: Hash, cached: set<Hash>)
      requires Valid() && h in headers && headers[h].number == 0
      ensures headers[h].parent == ZERO_HASH && ZERO_HASH !in headers && (CachedDown(h, 1, cached) <==> h in cached)
    {
      hide Path;
      assert Extends(headers, genesis, h);
      assert ParentWalk(headers, genesis, h, 0) == h;
    }

    /** The index does not name a block under another number. */
    lemma {:induction false} NotIndexed(h: Hash, n: nat)
      requires Valid() && h in headers && headers[h].number != n
      ensures ReadCanonicalHash(n) != h
    {
    }

    lemma {:induction false} NothingCached(h: Hash, cached: set<Hash>)
      requires Valid() && h in headers
      ensures CachedDown(h, 0, cached)
    {
    }

    /** One step down. */
    lemma {:induction false} OneDown(h: Hash, cached: set<Hash>)
      requires Valid() && h in headers
      ensures CachedDown(h, 1, cached) <==> h in cached
      ensures if headers[h].number == 0 then headers[h].parent == ZERO_HASH
              else headers[h].parent == ParentWalk(headers, genesis, h, 1)
    {
      if headers[h].number == 0 {
        GenesisCached(h, cached);
      } else {
        CachedNext(h, 1, cached);
        NothingCached(headers[h].parent, cached);
        NoSteps(headers[h].parent);
      }
    }

    /** The Nth ancestor of a block, read from the index as soon as the walk meets it. The answer
        is the true ancestor exactly when the walk fits in the allowance, and the empty result
        otherwise; the allowance is charged one per individual step. A hash that is not stored
        gets the empty result, except that the empty hash with a number above the head is taken
        for the missing index entry there and is answered from the index. A block asked for under
        another number never meets the index, and is followed only as far as the cache reaches. */
    method GetAncestor(hash: Hash, number: nat, ancestor: nat, maxNonCanonical: nat, cached: set<Hash>)
      returns (ancestorHash: Hash, ancestorNumber: nat, left: nat)
      requires Valid()
      // asked for under its own number
      ensures At(hash, number) && ancestor <= number && (ancestor == 1 || Steps(hash, ancestor) <= maxNonCanonical)
              ==> && ancestorHash == ParentWalk(headers, genesis, hash, ancestor)
                  && ancestorNumber == number - ancestor
                  && left == maxNonCanonical - (if ancestor == 1 then 0 else Steps(hash, ancestor))
      ensures At(hash, number) && !(ancestor <= number && (ancestor == 1 || Steps(hash, ancestor) <= maxNonCanonical))
              ==> ancestorHash == ZERO_HASH && ancestorNumber == 0
      // not stored
      ensures ancestor == 0 ==> ancestorHash == hash && ancestorNumber == number && left == maxNonCanonical
      ensures hash !in headers && ancestor != 0 && (hash != ZERO_HASH || ancestor == 1 || number <= headers[current].number)
              ==> ancestorHash == ZERO_HASH && ancestorNumber == 0
      ensures hash == ZERO_HASH && 1 < ancestor <= number && headers[current].number < number
              ==> ancestorHash == ReadCanonicalHash(number - ancestor) && ancestorNumber == number - ancestor
      // stored under another number
      ensures hash in headers && !At(hash, number) && 0 < ancestor <= headers[hash].number ==>
                if ancestor <= number && (ancestor == 1 || ancestor <= maxNonCanonical) && CachedDown(hash, ancestor, cached)
                then ancestorHash == ParentWalk(headers, genesis, hash, ancestor) && ancestorNumber == number - ancestor
                else ancestorHash == ZERO_HASH && ancestorNumber == 0
      ensures hash in headers && !At(hash, number) && headers[hash].number < ancestor <= number ==>
                var m := headers[hash].number;
                (ancestorHash, ancestorNumber) ==
                  if (ancestor == 1 || m < maxNonCanonical) && CachedDown(hash, m + 1, cached)
                  then BelowGenesis(number - m - 1, ancestor - m - 1) else (ZERO_HASH, 0)
      ensures ancestor > number ==> ancestorHash == ZERO_HASH && ancestorNumber == 0
    {
      hide Path, Detour, CachedDown, ParentWalk, Indexes;
      left := maxNonCanonical;
      if ancestor > number {
        return ZERO_HASH, 0, left;
      }
      if ancestor == 1 {
        var header := GetHeader(hash, number, cached);
        if hash in headers {
          OneDown(hash, cached);
        }
        if header.Some? {
          return header.value.parent, number - 1, left;
        }
        return ZERO_HASH, 0, left;
      }
      if At(hash, number) {
        WalkFromHere(hash, number, ancestor, left, cached);
      } else if hash !in headers {
        if ancestor > 0 {
          WalkFromUnknown(hash, number, ancestor, left, cached);
        }
      } else if ancestor <= headers[hash].number {
        WalkFromStray(hash, number, ancestor, left, cached);
      } else {
        WalkBelowGenesis(hash, number, ancestor, left, cached);
      }
      ancestorHash, ancestorNumber, left := FollowParents(hash, number, ancestor, left, cached);
    }

    /** The loop of the lookup. */
    method FollowParents(hash: Hash, number: nat, ancestor: nat, allowance: nat, cached: set<Hash>)
      returns (h: Hash, n: nat, left: nat)
      requires ancestor <= number
      ensures (h, n, left) == WalkBack(hash, number, ancestor, allowance, cached)
    {
      var k: nat;
      h, n, k, left := hash, number, ancestor, allowance;
      while k != 0
        invariant k <= n && WalkBack(h, n, k, left, cached) == WalkBack(hash, number, ancestor, allowance, cached)
        decreases k
      {
        if ReadCanonicalHash(n) == h {
          var ancestorHash := ReadCanonicalHash(n - k);
          if ReadCanonicalHash(n) == h {
            n := n - k;
            return ancestorHash, n, left;
          }
        }
        if left == 0 {
          return ZERO_HASH, 0, left;
        }
        left := left - 1;
        k := k - 1;
        var header := GetHeader(h, n, cached);
        if header.None? {
          return ZERO_HASH, 0, left;
        }
        h := header.value.parent;
        n := n - 1;
      }
    }

    /** A block the index does not name is one step further from the index than its parent. */
    lemma {:induction false} StepTowardsIndex(h: Hash, k: nat)
      requires Valid() && h in headers && 0 < k <= headers[h].number
      requires ReadCanonicalHash(headers[h].number) != h
      ensures headers[h].parent in headers && headers[h].number == headers[headers[h].parent].number + 1
      ensures ParentWalk(headers, genesis, h, k) == ParentWalk(headers, genesis, headers[h].parent, k - 1)
      ensures Steps(h, k) == 1 + Steps(headers[h].parent, k - 1)
    {
      assert Extends(headers, genesis, h);
      PathPrefix(headers, genesis, h, headers[h].number - 1);
    }

    /** A block the index names has all its ancestors in the index. */
    lemma {:induction false} IndexAnswers(h: Hash, n: nat, k: nat)
      requires Valid() && h != ZERO_HASH && k <= n
      requires ReadCanonicalHash(n) == h
      ensures h in headers && headers[h].number == n && Steps(h, k) == 0
      ensures ReadCanonicalHash(n - k) == ParentWalk(headers, genesis, h, k)
    {
      var q := Path(headers, genesis, current);
      assert h == q[n];
      PathPrefix(headers, genesis, current, n);
      assert Path(headers, genesis, h) == q[..n + 1];
    }
  }

  const UINT64: nat := 0x1_0000_0000_0000_0000

  /** Subtraction of unsigned 64-bit numbers, which wraps around. */
  function Sub64(a: nat, b: nat): (r: nat)
    requires a < UINT64 && b < UINT64
    ensures r < UINT64
    ensures b <= a ==> r + b == a
    ensures a < b ==> r + b == a + UINT64
  {
    if b <= a then a - b else a + UINT64 - b
  }

  /** What a fresh parent walk from the referenced header answers: the ancestor with the given
      number, and the empty hash for every number that is not below the reference. */
  ghost function FreshWalk(t: Tree, genesis: Hash, ref: Header, n: nat): Hash
    requires WellFormed(t, genesis)
    requires ref.number > 0 ==> ref.parent in t && t[ref.parent].number == ref.number - 1
  {
    if n < ref.number then Path(t, genesis, ref.parent)[n] else ZERO_HASH
  }

  /** The memoising block-hash closure of the EVM context. */
  class HashFn {
    const genesis: Hash
    const headers: Tree
    const ref: Header
    var cache: seq<Hash>

    ghost predicate Linked() {
      && WellFormed(headers, genesis)
      && ref.number < UINT64
      && (ref.number == 0 ==> ref.parent == ZERO_HASH)
      && (ref.number > 0 ==> ref.parent in headers && headers[ref.parent].number == ref.number - 1)
    }

    /** The hash `i + 1` generations above the reference, or the empty hash that genesis names. */
    ghost function Ancestor(i: nat): Hash
      requires Linked()
    {
      if i < ref.number then Path(headers, genesis, ref.parent)[ref.number - 1 - i] else ZERO_HASH
    }

    lemma {:induction false} AncestorLink(i: nat)
      requires Linked()
      ensures i < ref.number ==>
                && Ancestor(i) in headers && headers[Ancestor(i)].number == ref.number - 1 - i
                && headers[Ancestor(i)].parent == Ancestor(i + 1)
      ensures i >= ref.number ==> Ancestor(i) !in headers
    {
      if i + 1 < ref.number {
        StepDown(headers, genesis, ref.parent, ref.number - 1 - i);
      }
    }

    /** The position the closure computes for a number, with wrap-around. */
    function Position(n: nat): nat
      requires ref.number < UINT64 && n < UINT64
    {
      Sub64(Sub64(ref.number, n), 1)
    }

    /** Even where the subtraction wraps around, the position names the answer of a fresh walk. */
    lemma {:induction false} PositionAnswers(n: nat)
      requires Linked() && n < UINT64
      ensures FreshWalk(headers, genesis, ref, n) == Ancestor(Position(n))
    {
    }

    /** The walk compares numbers; it stops exactly at the position. */
    lemma {:induction false} StopsAtPosition(n: nat, i: nat)
      requires Linked() && n < UINT64 && i < ref.number
      ensures n == Sub64(ref.number - 1 - i, 1) <==> Position(n) == i + 1
    {
    }

    /** The cache is a prefix of the ancestors' hashes, newest first, followed at most by the empty
        hash that genesis names as its parent. */
    ghost predicate Valid()
      reads this
    {
      Linked() && Prefix()
    }

    ghost predicate Prefix()
      requires Linked()
      reads this
    {
      && |cache| <= ref.number + 1
      && forall i :: 0 <= i < |cache| ==> cache[i] == Ancestor(i)
    }

    constructor (genesis: Hash, headers: Tree, ref: Header)
      requires WellFormed(headers, genesis)
      requires ref.number < UINT64
      requires ref.number == 0 ==> ref.parent == ZERO_HASH
      requires ref.number > 0 ==> ref.parent in headers && headers[ref.parent].number == ref.number - 1
      ensures Valid() && this.genesis == genesis && this.headers == headers && this.ref == ref
    {
      this.genesis, this.headers, this.ref := genesis, headers, ref;
      cache := [];
    }

    /** One call of the closure: whatever was asked before, the answer is that of a fresh walk. */
    method GetHash(n: nat) returns (r: Hash)
      requires Valid() && n < UINT64
      modifies this`cache
      ensures Valid()
      ensures r == FreshWalk(headers, genesis, ref, n)
    {
      hide Path;
      if |cache| == 0 {
        cache := [ref.parent];
      }
      var idx := Position(n);
      PositionAnswers(n);
      if idx < |cache| {
        return cache[idx];
      }
      var lastHash := cache[|cache| - 1];
      var lastNumber := Sub64(ref.number, |cache| % UINT64);
      while lastHash in headers
        invariant Prefix() && 0 < |cache|
        invariant lastHash == cache[|cache| - 1]
        invariant |cache| <= idx
        decreases ref.number + 1 - |cache|
      {
        var header := headers[lastHash];
        AncestorLink(|cache| - 1);
        StopsAtPosition(n, |cache| - 1);
        cache := cache + [header.parent];
        lastHash := header.parent;
        lastNumber := Sub64(header.number, 1);
        if n == lastNumber {
          return lastHash;
        }
      }
      AncestorLink(|cache| - 1);
      AncestorLink(idx);
      return ZERO_HASH;
    }

    /** A whole batch of queries, in any order. */
    method GetHashes(ns: seq<nat>) returns (rs: seq<Hash>)
      requires Valid() && forall i :: 0 <= i < |ns| ==> ns[i] < UINT64
      modifies this`cache
      ensures Valid() && |rs| == |ns|
      ensures forall i :: 0 <= i < |ns| ==> rs[i] == FreshWalk(headers, genesis, ref, ns[i])
    {
      rs := [];
      for i := 0 to |ns|
        invariant Valid() && |rs| == i
        invariant forall j :: 0 <= j < i ==> rs[j] == FreshWalk(headers, genesis, ref, ns[j])
      {
        var r := GetHash(ns[i]);
        rs := rs + [r];
      }
    }
  }
}
