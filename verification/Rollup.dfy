/** Block manifests and ETX rollups: how a zone builds them block by block, and how its region and
    prime rebuild the rollup from the manifest. A list stands for its own hash. */
module Rollup {
  import opened Common
  import opened BlockTree

  /** An external transaction: its identity, the slice it is sent to, and the context of the
      highest chain shared by its origin and destination. */
  datatype Etx = Etx(hash: Hash, to: seq<nat>, confirmationCtx: nat)

  /** The zone's blocks: links, emitted ETXs, and which blocks the engine calls dom coincident. */
  datatype Zone = Zone(tree: Tree, etxs: map<Hash, seq<Etx>>, coincident: set<Hash>)

  ghost predicate ValidZone(z: Zone, genesis: Hash) {
    WellFormed(z.tree, genesis) && z.etxs.Keys == z.tree.Keys
  }

  function Emitted(z: Zone, h: Hash): seq<Etx> {
    if h in z.etxs then z.etxs[h] else []
  }

  // ----- the zone's rollup -----

  /** All ETXs emitted since the last coincident block, this block included; none when the walk
      meets a missing ancestor or a wrong genesis. */
  function CollectInclusive(z: Zone, genesis: Hash, h: Hash): Option<seq<Etx>>
    requires h in z.tree
    decreases z.tree[h].number
  {
    var newEtxs := Emitted(z, h);
    if z.tree[h].number == 0 then
      if h != genesis then None else Some(newEtxs)
    else if h in z.coincident then Some(newEtxs)
    else
      var p := z.tree[h].parent;
      if p !in z.tree || z.tree[p].number != z.tree[h].number - 1 then None
      else
        match CollectInclusive(z, genesis, p)
        case None => None
        case Some(rollup) => Some(rollup + newEtxs)
  }

  /** All ETXs emitted since the last coincident block, but not those of this block. */
  function CollectEtxRollup(z: Zone, genesis: Hash, h: Hash): Option<seq<Etx>>
    requires h in z.tree
  {
    if z.tree[h].number == 0 && h == genesis then Some(Emitted(z, h))
    else
      var p := z.tree[h].parent;
      if p !in z.tree || z.tree[p].number != z.tree[h].number - 1 then None
      else CollectInclusive(z, genesis, p)
  }

  /** The rollup a new zone block commits to on top of `parent`. */
  function RollupOn(z: Zone, genesis: Hash, parent: Hash): Option<seq<Etx>>
    requires parent in z.tree
  {
    if parent in z.coincident then Some(Emitted(z, parent))
    else
      match CollectEtxRollup(z, genesis, parent)
      case None => None
      case Some(rollup) => Some(rollup + Emitted(z, parent))
  }

  // ----- the reference: an ancestry scan -----

  /** The blocks since the last coincident block, both included, oldest first. */
  ghost function ManifestScan(z: Zone, genesis: Hash, h: Hash): (m: seq<Hash>)
    requires WellFormed(z.tree, genesis) && h in z.tree
    ensures |m| > 0 && m[|m| - 1] == h
    decreases z.tree[h].number
  {
    assert Extends(z.tree, genesis, h);
    if h == genesis || h in z.coincident then [h]
    else ManifestScan(z, genesis, z.tree[h].parent) + [h]
  }

  /** The ETXs of a list of blocks, in order. */
  function EtxsOf(z: Zone, manifest: seq<Hash>): seq<Etx> {
    if manifest == [] then []
    else EtxsOf(z, manifest[..|manifest| - 1]) + Emitted(z, manifest[|manifest| - 1])
  }

  lemma {:induction false} EtxsOfAppend(z: Zone, manifest: seq<Hash>, h: Hash)
    ensures EtxsOf(z, manifest + [h]) == EtxsOf(z, manifest) + Emitted(z, h)
  {
    assert (manifest + [h])[..|manifest|] == manifest;
  }

  lemma {:induction false} EtxsOfOne(z: Zone, h: Hash)
    ensures EtxsOf(z, [h]) == Emitted(z, h)
  {
    EtxsOfAppend(z, [], h);
    assert [] + [h] == [h];
  }

  lemma {:induction false} InclusiveIsManifest(z: Zone, genesis: Hash, h: Hash)
    requires WellFormed(z.tree, genesis) && h in z.tree
    ensures CollectInclusive(z, genesis, h) == Some(EtxsOf(z, ManifestScan(z, genesis, h)))
    decreases z.tree[h].number
  {
    assert Extends(z.tree, genesis, h);
    EtxsOfOne(z, h);
    if h != genesis && h !in z.coincident {
      var p := z.tree[h].parent;
      InclusiveIsManifest(z, genesis, p);
      EtxsOfAppend(z, ManifestScan(z, genesis, p), h);
    }
  }

  /** Rollup agreement: what a zone commits on top of `p` is the concatenation of the ETXs of exactly
      the blocks in the manifest of `p`, unless `p` is a genesis that emits ETXs without being
      coincident, whose ETXs would be counted twice. */
  lemma {:induction false} RollupIsManifest(z: Zone, genesis: Hash, p: Hash)
    requires WellFormed(z.tree, genesis) && p in z.tree
    ensures RollupOn(z, genesis, p) == Some(EtxsOf(z, ManifestScan(z, genesis, p)))
            <==> (p == genesis && genesis !in z.coincident ==> Emitted(z, genesis) == [])
  {
    InclusiveIsManifest(z, genesis, p);
    assert Extends(z.tree, genesis, p);
    if p == genesis {
      assert |Emitted(z, p) + Emitted(z, p)| == |Emitted(z, p)| ==> Emitted(z, p) == [];
    } else {
      InclusiveIsManifest(z, genesis, z.tree[p].parent);
    }
  }

  /** A genesis that breaks the agreement: it emits one ETX and the engine does not call it coincident. */
  lemma {:induction false} EmittingGenesisIsCountedTwice()
    ensures var e := Etx(1, [], 0);
            var z := Zone(map[7 := Header(ZERO_HASH, 0)], map[7 := [e]], {});
            WellFormed(z.tree, 7) && RollupOn(z, 7, 7) == Some([e, e]) && EtxsOf(z, ManifestScan(z, 7, 7)) == [e]
  {
    var e := Etx(1, [], 0);
    var z := Zone(map[7 := Header(ZERO_HASH, 0)], map[7 := [e]], {});
    assert forall h :: h in z.tree ==> Extends(z.tree, 7, h);
    EtxsOfOne(z, 7);
    assert Emitted(z, 7) == [e];
    assert [e] + [e] == [e, e];
  }

  // ----- the zone node -----

  class Worker {
    const genesis: Hash
    var zone: Zone
    var manifests: map<Hash, seq<Hash>>

    /** Every stored block has its manifest on disk, and it is the ancestry scan. */
    ghost predicate Valid()
      reads this
    {
      && ValidZone(zone, genesis)
      && manifests.Keys == zone.tree.Keys
      && forall h {:trigger manifests[h]} :: h in zone.tree ==> manifests[h] == ManifestScan(zone, genesis, h)
    }

    constructor (genesis: Hash, etxs: seq<Etx>, coincident: bool)
      requires genesis != ZERO_HASH
      ensures Valid() && this.genesis == genesis
    {
      this.genesis := genesis;
      zone := Zone(map[genesis := Header(ZERO_HASH, 0)], map[genesis := etxs], if coincident then {genesis} else {});
      manifests := map[genesis := [genesis]];
    }

    /** The manifest and rollup part of assembling a block on top of `parent`: writes the parent's
        manifest and returns what the new header commits to. */
    method FinalizeAssemble(parent: Hash) returns (manifest: seq<Hash>, rollup: Option<seq<Etx>>)
      requires ValidZone(zone, genesis) && parent in zone.tree
      requires forall h {:trigger manifests[h]} :: h in zone.tree && h != parent ==> h in manifests && manifests[h] == ManifestScan(zone, genesis, h)
      requires parent == genesis ==> ZERO_HASH !in manifests
      modifies this`manifests
      ensures manifests == old(manifests)[parent := manifest]
      ensures manifest == ManifestScan(zone, genesis, parent)
      ensures rollup == Some(EtxsOf(zone, manifest))
              <==> (parent == genesis && genesis !in zone.coincident ==> Emitted(zone, genesis) == [])
    {
      assert Extends(zone.tree, genesis, parent);
      if parent in zone.coincident {
        manifest := [parent];
      } else {
        var grandparent := zone.tree[parent].parent;
        var parentManifest := if grandparent in manifests then manifests[grandparent] else [];
        manifest := parentManifest + [parent];
      }
      manifests := manifests[parent := manifest];
      if parent in zone.coincident {
        rollup := Some(Emitted(zone, parent));
      } else {
        rollup := CollectEtxRollup(zone, genesis, parent);
        if rollup.Some? {
          rollup := Some(rollup.value + Emitted(zone, parent));
        }
      }
      RollupIsManifest(zone, genesis, parent);
    }

    /** Appends a block and assembles the pending header on top of it. */
    method Append(h: Hash, header: Header, etxs: seq<Etx>, coincident: bool) returns (rollup: Option<seq<Etx>>)
      requires Valid()
      requires h !in zone.tree && h != ZERO_HASH
      requires header.parent in zone.tree && header.number == zone.tree[header.parent].number + 1
      modifies this
      ensures Valid()
      ensures zone.tree == old(zone.tree)[h := header] && zone.etxs == old(zone.etxs)[h := etxs]
      ensures forall x :: x in zone.coincident <==> if x == h then coincident else x in old(zone.coincident)
      ensures forall x :: x in old(manifests) ==> x in manifests && manifests[x] == old(manifests)[x]
      ensures rollup == Some(EtxsOf(zone, manifests[h]))
    {
      hide ManifestScan, EtxsOf, Emitted, WellFormed;
      ghost var before := zone;
      ExtendWellFormed(zone.tree, genesis, h, header);
      var marks := if coincident then zone.coincident + {h} else zone.coincident - {h};
      zone := Zone(zone.tree[h := header], zone.etxs[h := etxs], marks);
      ManifestsStable(before, zone, genesis);
      NotGenesis(before.tree, genesis, h);
      var manifest;
      manifest, rollup := FinalizeAssemble(h);
    }
  }

  lemma {:induction false} ManifestStable(z: Zone, z': Zone, genesis: Hash, h: Hash)
    requires WellFormed(z.tree, genesis) && WellFormed(z'.tree, genesis) && h in z.tree
    requires forall x :: x in z.tree ==> x in z'.tree && z'.tree[x] == z.tree[x] && (x in z.coincident <==> x in z'.coincident)
    ensures ManifestScan(z', genesis, h) == ManifestScan(z, genesis, h)
    decreases z.tree[h].number
  {
    if h != genesis && h !in z.coincident {
      assert Extends(z.tree, genesis, h);
      ManifestStable(z, z', genesis, z.tree[h].parent);
    }
  }

  lemma {:induction false} ManifestsStable(z: Zone, z': Zone, genesis: Hash)
    requires WellFormed(z.tree, genesis) && WellFormed(z'.tree, genesis)
    requires forall x :: x in z.tree ==> x in z'.tree && z'.tree[x] == z.tree[x] && (x in z.coincident <==> x in z'.coincident)
    ensures forall x {:trigger ManifestScan(z', genesis, x)} :: x in z.tree ==> ManifestScan(z', genesis, x) == ManifestScan(z, genesis, x)
  {
    hide ManifestScan, WellFormed;
    forall x | x in z.tree ensures ManifestScan(z', genesis, x) == ManifestScan(z, genesis, x) {
      ManifestStable(z, z', genesis, x);
    }
  }

  lemma {:induction false} NotGenesis(t: Tree, genesis: Hash, h: Hash)
    requires WellFormed(t, genesis) && h !in t
    ensures h != genesis
  {
  }

  // ----- the dominant nodes -----

  /** A block as its region or prime node sees it. */
  datatype DomBlock = DomBlock(subManifest: seq<Hash>, etxRollup: seq<Etx>)

  /** What a dominant node has been sent: ETXs per zone block, and sub manifests per region block. */
  datatype Pending = Pending(etxs: map<Hash, seq<Etx>>, rollups: map<Hash, seq<Hash>>)

  /** The concatenation of a list of pending entries, if all of them have arrived. */
  function Gather(pending: map<Hash, seq<Etx>>, hashes: seq<Hash>): Option<seq<Etx>> {
    if hashes == [] then Some([])
    else
      var rest := Gather(pending, hashes[..|hashes| - 1]);
      var h := hashes[|hashes| - 1];
      if rest.None? || h !in pending then None else Some(rest.value + pending[h])
  }

  lemma {:induction false} GatherAll(pending: map<Hash, seq<Etx>>, hashes: seq<Hash>)
    ensures Gather(pending, hashes).Some? <==> forall h :: h in hashes ==> h in pending
  {
    if hashes != [] {
      var init := hashes[..|hashes| - 1];
      GatherAll(pending, init);
      assert hashes == init + [hashes[|hashes| - 1]];
    }
  }

  /** What prime gathers for the region blocks of a manifest. */
  function GatherRegions(p: Pending, hashes: seq<Hash>): Option<seq<Etx>> {
    if hashes == [] then Some([])
    else
      var rest := GatherRegions(p, hashes[..|hashes| - 1]);
      var h := hashes[|hashes| - 1];
      if rest.None? || h !in p.rollups then None
      else
        var part := Gather(p.etxs, p.rollups[h]);
        if part.None? then None else Some(rest.value + part.value)
  }

  /** Rebuilds the subordinate's rollup, hash by hash. Only a region can compare it with the rollup
      that the block commits to. */
  method CollectSubRollup(ctx: nat, b: DomBlock, p: Pending) returns (r: Option<seq<Etx>>)
    ensures ctx >= ZONE_CTX ==> r == Some([])
    ensures ctx == PRIME_CTX ==> r == GatherRegions(p, b.subManifest)
    ensures ctx == REGION_CTX ==>
              r == if Gather(p.etxs, b.subManifest) == Some(b.etxRollup) then Some(b.etxRollup) else None
  {
    var subRollup := [];
    if ctx < ZONE_CTX {
      for i := 0 to |b.subManifest|
        invariant ctx == PRIME_CTX ==> GatherRegions(p, b.subManifest[..i]) == Some(subRollup)
        invariant ctx == REGION_CTX ==> Gather(p.etxs, b.subManifest[..i]) == Some(subRollup)
      {
        assert b.subManifest[..i + 1][..i] == b.subManifest[..i];
        var hash := b.subManifest[i];
        if ctx == PRIME_CTX {
          if hash in p.rollups {
            var part := GatherOne(p.etxs, p.rollups[hash]);
            if part.None? {
              MissingRegion(p, b.subManifest, i);
              return None;
            }
            subRollup := subRollup + part.value;
          } else {
            MissingRegion(p, b.subManifest, i);
            return None;
          }
        } else if ctx == REGION_CTX {
          if hash !in p.etxs {
            GatherAll(p.etxs, b.subManifest);
            return None;
          }
          subRollup := subRollup + p.etxs[hash];
        }
      }
      assert b.subManifest[..|b.subManifest|] == b.subManifest;
      if ctx == REGION_CTX {
        if subRollup != b.etxRollup {
          return None;
        }
      }
    }
    return Some(subRollup);
  }

  /** Gathers the entries of one region block's manifest. */
  method GatherOne(pending: map<Hash, seq<Etx>>, manifest: seq<Hash>) returns (r: Option<seq<Etx>>)
    ensures r == Gather(pending, manifest)
  {
    var part := [];
    for j := 0 to |manifest|
      invariant Gather(pending, manifest[..j]) == Some(part)
    {
      assert manifest[..j + 1][..j] == manifest[..j];
      if manifest[j] !in pending {
        GatherAll(pending, manifest);
        return None;
      }
      part := part + pending[manifest[j]];
    }
    assert manifest[..|manifest|] == manifest;
    return Some(part);
  }

  lemma {:induction false} MissingRegion(p: Pending, hashes: seq<Hash>, i: nat)
    requires i < |hashes|
    requires hashes[i] !in p.rollups || Gather(p.etxs, p.rollups[hashes[i]]).None?
    ensures GatherRegions(p, hashes).None?
    decreases |hashes|
  {
    if i < |hashes| - 1 {
      MissingRegion(p, hashes[..|hashes| - 1], i);
    }
  }

  // ----- agreement between the nodes -----

  /** The pending entries a dominant node has accepted match the blocks they came from. */
  ghost predicate Matches(z: Zone, pending: map<Hash, seq<Etx>>) {
    forall h :: h in pending && h in z.tree ==> pending[h] == Emitted(z, h)
  }

  lemma {:induction false} GatherIsEtxsOf(z: Zone, pending: map<Hash, seq<Etx>>, hashes: seq<Hash>)
    requires Matches(z, pending) && forall h :: h in hashes ==> h in z.tree
    ensures Gather(pending, hashes) == if forall h :: h in hashes ==> h in pending then Some(EtxsOf(z, hashes)) else None
  {
    GatherAll(pending, hashes);
    if hashes != [] {
      GatherIsEtxsOf(z, pending, hashes[..|hashes| - 1]);
    }
  }

  lemma {:induction false} ManifestStored(z: Zone, genesis: Hash, h: Hash)
    requires WellFormed(z.tree, genesis) && h in z.tree
    ensures forall x :: x in ManifestScan(z, genesis, h) ==> x in z.tree
    decreases z.tree[h].number
  {
    if h != genesis && h !in z.coincident {
      assert Extends(z.tree, genesis, h);
      ManifestStored(z, genesis, z.tree[h].parent);
    }
  }

  /** A zone block built on `p`, as the region receives it: it carries the manifest stored for `p` and
      the rollup committed on `p`. The region rebuilds exactly that rollup as soon as the pending
      entries of the manifest have arrived, and its comparison can never fail. */
  lemma {:induction false} RegionRebuildsRollup(z: Zone, genesis: Hash, p: Hash, b: DomBlock, pending: map<Hash, seq<Etx>>)
    requires WellFormed(z.tree, genesis) && p in z.tree && Matches(z, pending)
    requires p == genesis && genesis !in z.coincident ==> Emitted(z, genesis) == []
    requires b.subManifest == ManifestScan(z, genesis, p)
    requires RollupOn(z, genesis, p) == Some(b.etxRollup)
    ensures Gather(pending, b.subManifest) ==
            if forall h :: h in b.subManifest ==> h in pending then Some(b.etxRollup) else None
    ensures b.etxRollup == EtxsOf(z, b.subManifest)
  {
    RollupIsManifest(z, genesis, p);
    ManifestStored(z, genesis, p);
    GatherIsEtxsOf(z, pending, b.subManifest);
  }

  /** The concatenation of what the regions rebuilt. */
  function Flatten(parts: seq<seq<Etx>>): seq<Etx> {
    if parts == [] then [] else Flatten(parts[..|parts| - 1]) + parts[|parts| - 1]
  }

  /** Prime sees, for each manifest, the concatenation of exactly what its regions rebuilt for the
      blocks of that manifest. */
  lemma {:induction false} PrimeConcatenatesRegions(p: Pending, hashes: seq<Hash>, parts: seq<seq<Etx>>)
    requires |parts| == |hashes|
    requires forall i :: 0 <= i < |hashes| ==> hashes[i] in p.rollups && Gather(p.etxs, p.rollups[hashes[i]]) == Some(parts[i])
    ensures GatherRegions(p, hashes) == Some(Flatten(parts))
  {
    if hashes != [] {
      PrimeConcatenatesRegions(p, hashes[..|hashes| - 1], parts[..|parts| - 1]);
    }
  }
}
