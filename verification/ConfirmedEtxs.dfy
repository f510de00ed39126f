/** The ETXs a region confirms to one of its zones with each block of that zone. */
module ConfirmedEtxs {
  import opened Common
  import opened BlockTree
  import opened Rollup

  /** The region's blocks: links, which zone produced each of them (none for genesis), the sub
      manifest and committed rollup, and the pending ETXs received so far. */
  datatype Region = Region(tree: Tree, location: map<Hash, seq<nat>>, blocks: map<Hash, DomBlock>, pending: map<Hash, seq<Etx>>)

  ghost predicate ValidRegion(r: Region, genesis: Hash) {
    WellFormed(r.tree, genesis) && r.location.Keys == r.tree.Keys && r.blocks.Keys == r.tree.Keys
  }

  const NO_ZONE := -1

  /** The zone of a location, as a region node indexes its subordinates. */
  function SubIndex(location: seq<nat>): int {
    if |location| >= 2 then location[1] else NO_ZONE
  }

  predicate InSameSliceAs(a: seq<nat>, b: seq<nat>) {
    if |a| <= |b| then a == b[..|a|] else b == a[..|b|]
  }

  function FilterToSlice(etxs: seq<Etx>, slice: seq<nat>): seq<Etx> {
    if etxs == [] then []
    else
      var rest, e := FilterToSlice(etxs[..|etxs| - 1], slice), etxs[|etxs| - 1];
      if InSameSliceAs(e.to, slice) then rest + [e] else rest
  }

  function FilterConfirmationCtx(etxs: seq<Etx>, ctx: nat): seq<Etx> {
    if etxs == [] then []
    else
      var rest, e := FilterConfirmationCtx(etxs[..|etxs| - 1], ctx), etxs[|etxs| - 1];
      if e.confirmationCtx == ctx then rest + [e] else rest
  }

  /** The zone's rollup as the region rebuilds and checks it. */
  function SubRollup(r: Region, h: Hash): Option<seq<Etx>>
    requires h in r.blocks
  {
    var gathered := Gather(r.pending, r.blocks[h].subManifest);
    if gathered == Some(r.blocks[h].etxRollup) then gathered else None
  }

  /** What one block confirms to the given slice. */
  function Confirmed(r: Region, h: Hash, slice: seq<nat>): Option<seq<Etx>>
    requires h in r.blocks
  {
    match SubRollup(r, h)
    case None => None
    case Some(rollup) => Some(FilterConfirmationCtx(FilterToSlice(rollup, slice), REGION_CTX))
  }

  /** Everything newly confirmed to the slice by this block: its own ETXs and those of its ancestors,
      back to the last ancestor that the same zone produced. */
  function CollectNewlyConfirmed(r: Region, genesis: Hash, h: Hash, slice: seq<nat>): Option<seq<Etx>>
    requires h in r.tree && r.location.Keys == r.tree.Keys && r.blocks.Keys == r.tree.Keys
    decreases r.tree[h].number
  {
    match Confirmed(r, h, slice)
    case None => None
    case Some(own) =>
      if r.tree[h].number == 0 then
        if h != genesis then None else Some(own)
      else
        var a := r.tree[h].parent;
        if a !in r.tree || r.tree[a].number != r.tree[h].number - 1 then None
        else if SubIndex(r.location[a]) == SubIndex(slice) then Some(own)
        else
          match CollectNewlyConfirmed(r, genesis, a, slice)
          case None => None
          case Some(older) => Some(older + own)
  }

  // ----- the window -----

  /** The first height after the latest strict ancestor of `h` from the same zone. */
  ghost function WindowStart(r: Region, genesis: Hash, h: Hash, zone: int): (n: nat)
    requires ValidRegion(r, genesis) && h in r.tree
    ensures n <= r.tree[h].number
    ensures var p := Path(r.tree, genesis, h);
            && (n > 0 ==> SubIndex(r.location[p[n - 1]]) == zone)
            && forall i :: n <= i < r.tree[h].number ==> SubIndex(r.location[p[i]]) != zone
    decreases r.tree[h].number
  {
    assert Extends(r.tree, genesis, h);
    if h == genesis then 0
    else
      var a := r.tree[h].parent;
      PathPrefix(r.tree, genesis, h, r.tree[a].number);
      assert Path(r.tree, genesis, h)[r.tree[a].number] == a;
      if SubIndex(r.location[a]) == zone then r.tree[h].number else WindowStart(r, genesis, a, zone)
  }

  /** What a list of blocks confirms to the slice, in order, if all their rollups are complete. */
  function ConfirmedBy(r: Region, hashes: seq<Hash>, slice: seq<nat>): Option<seq<Etx>>
    requires forall h :: h in hashes ==> h in r.blocks
  {
    if hashes == [] then Some([])
    else
      var rest := ConfirmedBy(r, hashes[..|hashes| - 1], slice);
      var own := Confirmed(r, hashes[|hashes| - 1], slice);
      if rest.None? || own.None? then None else Some(rest.value + own.value)
  }

  lemma {:induction false} ConfirmedByAppend(r: Region, hashes: seq<Hash>, h: Hash, slice: seq<nat>)
    requires (forall x :: x in hashes ==> x in r.blocks) && h in r.blocks
    ensures ConfirmedBy(r, hashes + [h], slice) ==
            var rest, own := ConfirmedBy(r, hashes, slice), Confirmed(r, h, slice);
            if rest.None? || own.None? then None else Some(rest.value + own.value)
  {
    assert (hashes + [h])[..|hashes|] == hashes;
  }

  lemma {:induction false} ConfirmedByOne(r: Region, h: Hash, slice: seq<nat>)
    requires h in r.blocks
    ensures ConfirmedBy(r, [h], slice) == Confirmed(r, h, slice)
  {
    ConfirmedByAppend(r, [], h, slice);
    assert [] + [h] == [h];
    var own := Confirmed(r, h, slice);
    if own.Some? {
      assert [] + own.value == own.value;
    }
  }

  /** The call returns, oldest first, what the blocks of its window confirm, and fails exactly when
      one of them has an incomplete rollup. */
  lemma {:induction false} CollectsWindow(r: Region, genesis: Hash, h: Hash, slice: seq<nat>)
    requires ValidRegion(r, genesis) && h in r.tree
    ensures CollectNewlyConfirmed(r, genesis, h, slice)
            == ConfirmedBy(r, Path(r.tree, genesis, h)[WindowStart(r, genesis, h, SubIndex(slice))..], slice)
    decreases r.tree[h].number
  {
    assert Extends(r.tree, genesis, h);
    var p, n := Path(r.tree, genesis, h), WindowStart(r, genesis, h, SubIndex(slice));
    if h != genesis {
      var a := r.tree[h].parent;
      var q := Path(r.tree, genesis, a);
      assert p == q + [h];
      if SubIndex(r.location[a]) != SubIndex(slice) {
        CollectsWindow(r, genesis, a, slice);
        assert p[n..] == q[n..] + [h];
        ConfirmedByAppend(r, q[n..], h, slice);
      } else {
        assert p[n..] == [h];
        ConfirmedByOne(r, h, slice);
      }
    } else {
      assert p[n..] == [h];
      ConfirmedByOne(r, h, slice);
    }
  }

  // ----- the windows cover the chain -----

  /** All blocks of the chain have complete rollups. */
  ghost predicate Rebuilt(r: Region, genesis: Hash, h: Hash)
    requires ValidRegion(r, genesis) && h in r.tree
  {
    forall x :: x in Path(r.tree, genesis, h) ==> SubRollup(r, x).Some?
  }

  lemma {:induction false} RebuiltParent(r: Region, genesis: Hash, h: Hash)
    requires ValidRegion(r, genesis) && h in r.tree && h != genesis && Rebuilt(r, genesis, h)
    ensures r.tree[h].parent in r.tree && r.tree[r.tree[h].parent].number == r.tree[h].number - 1
    ensures Rebuilt(r, genesis, r.tree[h].parent) && SubRollup(r, h).Some?
    ensures Path(r.tree, genesis, h) == Path(r.tree, genesis, r.tree[h].parent) + [h]
  {
    assert Extends(r.tree, genesis, h);
    assert Path(r.tree, genesis, h)[r.tree[h].number] == h;
  }

  /** The concatenation of the calls made for the blocks of one zone along the chain of `h`. */
  ghost function Delivered(r: Region, genesis: Hash, h: Hash, slice: seq<nat>): seq<Etx>
    requires ValidRegion(r, genesis) && h in r.tree
    decreases r.tree[h].number
  {
    assert Extends(r.tree, genesis, h);
    var before := if h == genesis then [] else Delivered(r, genesis, r.tree[h].parent, slice);
    if SubIndex(r.location[h]) != SubIndex(slice) then before
    else
      match CollectNewlyConfirmed(r, genesis, h, slice)
      case None => before
      case Some(etxs) => before + etxs
  }

  /** What the chain of `h` has confirmed to the slice without a call having returned it yet. */
  ghost function Outstanding(r: Region, genesis: Hash, h: Hash, slice: seq<nat>): seq<Etx>
    requires ValidRegion(r, genesis) && h in r.tree
  {
    if SubIndex(r.location[h]) == SubIndex(slice) then []
    else
      match CollectNewlyConfirmed(r, genesis, h, slice)
      case None => []
      case Some(etxs) => etxs
  }

  /** A call returns what was outstanding at the parent, followed by the block's own ETXs. */
  lemma {:induction false} CallExtendsOutstanding(r: Region, genesis: Hash, h: Hash, slice: seq<nat>)
    requires ValidRegion(r, genesis) && h in r.tree && h != genesis && SubRollup(r, h).Some?
    requires r.tree[h].parent in r.tree && r.tree[r.tree[h].parent].number == r.tree[h].number - 1
    requires CollectNewlyConfirmed(r, genesis, r.tree[h].parent, slice).Some?
    ensures CollectNewlyConfirmed(r, genesis, h, slice)
            == Some(Outstanding(r, genesis, r.tree[h].parent, slice) + Confirmed(r, h, slice).value)
  {
    assert [] + Confirmed(r, h, slice).value == Confirmed(r, h, slice).value;
  }

  /** A block moves the outstanding ETXs, now with its own, to the delivered ones if it is of the zone. */
  lemma {:induction false} DeliverStep(r: Region, genesis: Hash, h: Hash, slice: seq<nat>, before: seq<Etx>, call: seq<Etx>)
    requires ValidRegion(r, genesis) && h in r.tree
    requires h == genesis ==> before == []
    requires h != genesis ==> r.tree[h].parent in r.tree && r.tree[r.tree[h].parent].number == r.tree[h].number - 1
                              && before == Delivered(r, genesis, r.tree[h].parent, slice)
    requires CollectNewlyConfirmed(r, genesis, h, slice) == Some(call)
    ensures Delivered(r, genesis, h, slice) + Outstanding(r, genesis, h, slice) == before + call
  {
    assert before + call + [] == before + call;
  }

  /** Everything the chain of `h` has confirmed is delivered or outstanding, in that order. */
  ghost predicate Accounted(r: Region, genesis: Hash, h: Hash, slice: seq<nat>)
    requires ValidRegion(r, genesis) && h in r.tree
  {
    && CollectNewlyConfirmed(r, genesis, h, slice).Some?
    && ConfirmedBy(r, Path(r.tree, genesis, h), slice)
       == Some(Delivered(r, genesis, h, slice) + Outstanding(r, genesis, h, slice))
  }

  lemma {:induction false} AccountedGenesis(r: Region, genesis: Hash, slice: seq<nat>)
    requires ValidRegion(r, genesis) && SubRollup(r, genesis).Some?
    ensures Accounted(r, genesis, genesis, slice)
  {
    ConfirmedByOne(r, genesis, slice);
    var own := Confirmed(r, genesis, slice).value;
    DeliverStep(r, genesis, genesis, slice, [], own);
    assert [] + own == own;
  }

  lemma {:induction false} AccountedStep(r: Region, genesis: Hash, h: Hash, slice: seq<nat>)
    requires ValidRegion(r, genesis) && h in r.tree && h != genesis && SubRollup(r, h).Some?
    requires r.tree[h].parent in r.tree && r.tree[r.tree[h].parent].number == r.tree[h].number - 1
    requires Accounted(r, genesis, r.tree[h].parent, slice)
    ensures Accounted(r, genesis, h, slice)
  {
    var a := r.tree[h].parent;
    ConfirmedByAppend(r, Path(r.tree, genesis, a), h, slice);
    CallExtendsOutstanding(r, genesis, h, slice);
    var d, o, own := Delivered(r, genesis, a, slice), Outstanding(r, genesis, a, slice), Confirmed(r, h, slice).value;
    DeliverStep(r, genesis, h, slice, d, o + own);
    assert d + o + own == d + (o + own);
  }

  lemma {:induction false} AllAccounted(r: Region, genesis: Hash, h: Hash, slice: seq<nat>)
    requires ValidRegion(r, genesis) && h in r.tree && Rebuilt(r, genesis, h)
    ensures Accounted(r, genesis, h, slice)
    decreases r.tree[h].number
  {
    if h == genesis {
      assert h in Path(r.tree, genesis, h);
      AccountedGenesis(r, genesis, slice);
    } else {
      RebuiltParent(r, genesis, h);
      AllAccounted(r, genesis, r.tree[h].parent, slice);
      AccountedStep(r, genesis, h, slice);
    }
  }

  lemma {:induction false} FilterToSliceAppend(a: seq<Etx>, b: seq<Etx>, slice: seq<nat>)
    ensures FilterToSlice(a + b, slice) == FilterToSlice(a, slice) + FilterToSlice(b, slice)
  {
    if b == [] {
      assert a + b == a;
    } else {
      assert (a + b)[..|a + b| - 1] == a + b[..|b| - 1];
      FilterToSliceAppend(a, b[..|b| - 1], slice);
    }
  }

  lemma {:induction false} FilterConfirmationCtxAppend(a: seq<Etx>, b: seq<Etx>, ctx: nat)
    ensures FilterConfirmationCtx(a + b, ctx) == FilterConfirmationCtx(a, ctx) + FilterConfirmationCtx(b, ctx)
  {
    if b == [] {
      assert a + b == a;
    } else {
      assert (a + b)[..|a + b| - 1] == a + b[..|b| - 1];
      FilterConfirmationCtxAppend(a, b[..|b| - 1], ctx);
    }
  }

  /** All ETXs rolled up by a list of blocks, unfiltered. */
  function Rollups(r: Region, hashes: seq<Hash>): seq<Etx>
    requires forall h :: h in hashes ==> h in r.blocks
  {
    if hashes == [] then []
    else
      Rollups(r, hashes[..|hashes| - 1]) +
      match SubRollup(r, hashes[|hashes| - 1])
      case None => []
      case Some(rollup) => rollup
  }

  lemma {:induction false} FilterOnce(r: Region, hashes: seq<Hash>, slice: seq<nat>)
    requires forall h :: h in hashes ==> h in r.blocks && SubRollup(r, h).Some?
    ensures ConfirmedBy(r, hashes, slice) == Some(FilterConfirmationCtx(FilterToSlice(Rollups(r, hashes), slice), REGION_CTX))
  {
    if hashes != [] {
      var init, last := hashes[..|hashes| - 1], hashes[|hashes| - 1];
      FilterOnce(r, init, slice);
      var rollup := SubRollup(r, last).value;
      FilterToSliceAppend(Rollups(r, init), rollup, slice);
      FilterConfirmationCtxAppend(FilterToSlice(Rollups(r, init), slice), FilterToSlice(rollup, slice), REGION_CTX);
    }
  }

  /** The windows of the successive blocks of one zone are disjoint and cover the chain: concatenating
      their calls gives what filtering the rollups of the whole chain once gives. */
  lemma {:induction false} WindowsCoverChain(r: Region, genesis: Hash, h: Hash)
    requires ValidRegion(r, genesis) && h in r.tree && Rebuilt(r, genesis, h)
    ensures Delivered(r, genesis, h, r.location[h])
            == FilterConfirmationCtx(FilterToSlice(Rollups(r, Path(r.tree, genesis, h)), r.location[h]), REGION_CTX)
  {
    AllAccounted(r, genesis, h, r.location[h]);
    FilterOnce(r, Path(r.tree, genesis, h), r.location[h]);
    assert Delivered(r, genesis, h, r.location[h]) + [] == Delivered(r, genesis, h, r.location[h]);
  }

  // ----- which ETXs are returned -----

  /** One location is a prefix of the other: they agree wherever both have an entry. */
  predicate OnOneSlice(a: seq<nat>, b: seq<nat>) {
    forall k :: 0 <= k < |a| && k < |b| ==> a[k] == b[k]
  }

  lemma {:induction false} SameSliceIsOneSlice(a: seq<nat>, b: seq<nat>)
    ensures InSameSliceAs(a, b) <==> OnOneSlice(a, b)
  {
    if OnOneSlice(a, b) {
      if |a| <= |b| {
        assert a == b[..|a|];
      } else {
        assert b == a[..|b|];
      }
    }
  }

  lemma {:induction false} InSliceFilter(etxs: seq<Etx>, slice: seq<nat>, e: Etx)
    ensures e in FilterToSlice(etxs, slice) <==> e in etxs && OnOneSlice(e.to, slice)
  {
    if etxs != [] {
      var init, last := etxs[..|etxs| - 1], etxs[|etxs| - 1];
      assert etxs == init + [last];
      InSliceFilter(init, slice, e);
      SameSliceIsOneSlice(last.to, slice);
    }
  }

  lemma {:induction false} InCtxFilter(etxs: seq<Etx>, ctx: nat, e: Etx)
    ensures e in FilterConfirmationCtx(etxs, ctx) <==> e in etxs && e.confirmationCtx == ctx
  {
    if etxs != [] {
      var init, last := etxs[..|etxs| - 1], etxs[|etxs| - 1];
      assert etxs == init + [last];
      InCtxFilter(init, ctx, e);
    }
  }

  /** The ETX is confirmed here and bound for the slice, and one of the blocks has committed it. */
  ghost predicate Due(r: Region, hashes: seq<Hash>, slice: seq<nat>, e: Etx)
    requires forall h :: h in hashes ==> h in r.blocks
  {
    && e.confirmationCtx == REGION_CTX && OnOneSlice(e.to, slice)
    && exists i :: 0 <= i < |hashes| && e in r.blocks[hashes[i]].etxRollup
  }

  lemma {:induction false} ConfirmedAreDue(r: Region, hashes: seq<Hash>, slice: seq<nat>, e: Etx)
    requires (forall h :: h in hashes ==> h in r.blocks) && ConfirmedBy(r, hashes, slice).Some?
    ensures e in ConfirmedBy(r, hashes, slice).value <==> Due(r, hashes, slice, e)
  {
    if hashes != [] {
      var init, last := hashes[..|hashes| - 1], hashes[|hashes| - 1];
      assert hashes == init + [last];
      ConfirmedAreDue(r, init, slice, e);
      var rollup := r.blocks[last].etxRollup;
      InSliceFilter(rollup, slice, e);
      InCtxFilter(FilterToSlice(rollup, slice), REGION_CTX, e);
      assert e in rollup ==> exists i :: 0 <= i < |hashes| && e in r.blocks[hashes[i]].etxRollup by {
        assert hashes[|hashes| - 1] == last;
      }
      assert Due(r, init, slice, e) ==> Due(r, hashes, slice, e) by {
        if Due(r, init, slice, e) {
          var i :| 0 <= i < |init| && e in r.blocks[init[i]].etxRollup;
          assert hashes[i] == init[i];
        }
      }
    }
  }

  /** The two locations name the same zone, or neither names one. */
  ghost predicate SameZone(a: seq<nat>, b: seq<nat>) {
    if |a| >= 2 && |b| >= 2 then a[1] == b[1] else |a| < 2 && |b| < 2
  }

  lemma {:induction false} SameSubIndex(a: seq<nat>, b: seq<nat>)
    ensures SubIndex(a) == SubIndex(b) <==> SameZone(a, b)
  {
  }

  /** A call returns exactly the ETXs that the rollups of its window commit, that are bound for the slice, and that are
      confirmed at the region. The window starts after the latest strict ancestor from the zone of the slice. */
  lemma {:induction false} ReturnsWhatIsDue(r: Region, genesis: Hash, h: Hash, slice: seq<nat>, e: Etx)
    requires ValidRegion(r, genesis) && h in r.tree && CollectNewlyConfirmed(r, genesis, h, slice).Some?
    ensures var p, n := Path(r.tree, genesis, h), WindowStart(r, genesis, h, SubIndex(slice));
            && (n > 0 ==> SameZone(r.location[p[n - 1]], slice))
            && (forall i {:trigger p[i]} :: n <= i < r.tree[h].number ==> !SameZone(r.location[p[i]], slice))
            && (forall x :: x in p[n..] ==> x in r.blocks)
            && (e in CollectNewlyConfirmed(r, genesis, h, slice).value <==> Due(r, p[n..], slice, e))
  {
    hide SubIndex, SameZone, Due;
    var p, n := Path(r.tree, genesis, h), WindowStart(r, genesis, h, SubIndex(slice));
    CollectsWindow(r, genesis, h, slice);
    ConfirmedAreDue(r, p[n..], slice, e);
    forall x | x in r.location ensures SubIndex(r.location[x]) == SubIndex(slice) <==> SameZone(r.location[x], slice) {
      SameSubIndex(r.location[x], slice);
    }
  }
}
