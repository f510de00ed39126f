/** The hierarchical append and its previous coincident reference check (PCRC), as a protocol
    between the prime, region and zone nodes of the whole hierarchy. */
module Pcrc {
  import opened Common
  import opened BlockTree

  const SUBS := 3
  const TERMINUS_INDEX := 3

  type Index = i: nat | i < SUBS

  /** One header as all nodes of its slice see it: a parent link per context, the region and zone that
      produced it, and the order that the engine calculates, which is the highest context it belongs to. */
  datatype SliceHeader = SliceHeader(prime: Header, region: Header, zone: Header, r: Index, z: Index, order: nat)

  /** The headers behind the hashes. */
  type Headers = Hash -> SliceHeader

  /** The link of a header in one context. */
  function Link(u: Headers, h: Hash, ctx: nat): Header {
    if ctx == PRIME_CTX then u(h).prime else if ctx == REGION_CTX then u(h).region else u(h).zone
  }

  /** Which subordinate of a node in the given context produced the header. */
  function SubIndex(u: Headers, h: Hash, ctx: nat): Index {
    if ctx == PRIME_CTX then u(h).r else u(h).z
  }

  /** What one node has stored: the headers in its own context, their termini, and which of them
      reached it through its dominant node. */
  datatype Node = Node(tree: Tree, termini: map<Hash, seq<Hash>>, domBlocks: set<Hash>)

  /** A node's place in the hierarchy: [] is prime, [r] a region, [r, z] a zone. */
  type Location = seq<nat>

  type System = Location -> Node

  function Update(sys: System, at: Location, n: Node): System {
    l => if l == at then n else sys(l)
  }

  // ----- the check -----

  /** The termini of a new block, given those of its parent. */
  function NewTermini(ctx: nat, termini: seq<Hash>, h: Hash, subIndex: Index, domOrigin: bool): (r: seq<Hash>)
    requires |termini| == 4
    ensures |r| == 4
  {
    var t := if ctx != ZONE_CTX then termini[subIndex := h] else termini;
    if ctx == PRIME_CTX || domOrigin then t[TERMINUS_INDEX := h] else t
  }

  /** Whether the check lets a block through. */
  predicate Passes(termini: seq<Hash>, domTerminus: Hash, domOrigin: bool)
    requires |termini| == 4
  {
    domOrigin ==> termini[TERMINUS_INDEX] == domTerminus
  }

  /** The check as the node runs it: copy the parent's termini, set the entries of the new block,
      and compare the terminus with the one the dominant node handed down. */
  method Pcrc(ctx: nat, stored: map<Hash, seq<Hash>>, parent: Hash, h: Hash, subIndex: Index, domTerminus: Hash, domOrigin: bool)
    returns (r: Option<(Hash, seq<Hash>)>)
    ensures r.None? <==> (parent !in stored || |stored[parent]| != 4 || !Passes(stored[parent], domTerminus, domOrigin))
    ensures r.Some? ==> r.value.1 == NewTermini(ctx, stored[parent], h, subIndex, domOrigin)
    ensures r.Some? ==> r.value.0 == if ctx == ZONE_CTX then ZERO_HASH else stored[parent][subIndex]
  {
    if parent !in stored || |stored[parent]| != 4 {
      return None;
    }
    var termini := stored[parent];
    var newTermini := [];
    for i := 0 to |termini|
      invariant newTermini == termini[..i]
    {
      newTermini := newTermini + [termini[i]];
    }
    if ctx != ZONE_CTX {
      newTermini := newTermini[subIndex := h];
    }
    if ctx == PRIME_CTX || domOrigin {
      newTermini := newTermini[TERMINUS_INDEX := h];
    } else {
      newTermini := newTermini[TERMINUS_INDEX := termini[TERMINUS_INDEX]];
    }
    if domOrigin {
      if termini[TERMINUS_INDEX] != domTerminus {
        return None;
      }
    }
    if ctx == ZONE_CTX {
      return Some((ZERO_HASH, newTermini));
    }
    return Some((termini[subIndex], newTermini));
  }

  // ----- the hierarchical append -----

  /** What the surroundings decide about one append, per context: whether the remaining validation
      accepts the block, whether the subordinate node is connected, whether the write succeeds. */
  datatype Env = Env(accepts: nat -> bool, connected: nat -> bool, writes: nat -> bool)

  datatype Outcome = Outcome(sys: System, ok: bool)

  /** The node of the given context in the header's slice. */
  function Place(u: Headers, h: Hash, ctx: nat): Location {
    if ctx == PRIME_CTX then [] else if ctx == REGION_CTX then [u(h).r] else [u(h).r, u(h).z]
  }

  /** The node after an admitted block has been written. */
  function Stored(u: Headers, ctx: nat, n: Node, h: Hash, domOrigin: bool): Node
    requires var p := Link(u, h, ctx).parent; p in n.termini && |n.termini[p]| == 4
  {
    var link := Link(u, h, ctx);
    var termini := NewTermini(ctx, n.termini[link.parent], h, SubIndex(u, h, ctx), domOrigin);
    Node(n.tree[h := link], n.termini[h := termini], if domOrigin then n.domBlocks + {h} else n.domBlocks)
  }

  /** The block is new here, verifies against a stored parent and passes the check. */
  predicate Admits(u: Headers, n: Node, ctx: nat, h: Hash, domTerminus: Hash, domOrigin: bool)
  {
    var link := Link(u, h, ctx);
    && h != ZERO_HASH && h !in n.tree
    && link.parent in n.tree && link.number == n.tree[link.parent].number + 1
    && link.parent in n.termini && |n.termini[link.parent]| == 4
    && Passes(n.termini[link.parent], domTerminus, domOrigin)
  }

  /** Appends at the node of the given context and then, before writing, at the node below it,
      which receives the terminus read here. A failure below or here keeps this node as it was;
      what the nodes below have already written stays. */
  function Append(u: Headers, sys: System, ctx: nat, h: Hash, domTerminus: Hash, domOrigin: bool, env: Env): Outcome
    requires ctx <= ZONE_CTX
    decreases ZONE_CTX - ctx, 1
  {
    var n := sys(Place(u, h, ctx));
    if !Admits(u, n, ctx, h, domTerminus, domOrigin) || !env.accepts(ctx) then Outcome(sys, false)
    else
      var below := CallSub(u, sys, ctx, h, n.termini[Link(u, h, ctx).parent][SubIndex(u, h, ctx)], env);
      if !below.ok || !env.writes(ctx) then Outcome(below.sys, false)
      else Outcome(Update(below.sys, Place(u, h, ctx), Stored(u, ctx, n, h, domOrigin)), true)
  }

  /** The call to the subordinate node, if there is one and it is connected. */
  function CallSub(u: Headers, sys: System, ctx: nat, h: Hash, terminus: Hash, env: Env): Outcome
    requires ctx <= ZONE_CTX
    decreases ZONE_CTX - ctx, 0
  {
    if ctx < ZONE_CTX && env.connected(ctx) then Append(u, sys, ctx + 1, h, terminus, true, env) else Outcome(sys, true)
  }

  /** Only the dominant node calls with a terminus; everything else enters a node as its own block, and a
      node takes only blocks of its own order in that way. */
  datatype Event = Insert(ctx: nat, h: Hash, env: Env)

  function GenesisNode(genesis: Hash): Node {
    Node(map[genesis := Header(ZERO_HASH, 0)], map[genesis := [genesis, genesis, genesis, genesis]], {})
  }

  function Run(u: Headers, genesis: Hash, events: seq<Event>): System {
    if events == [] then _ => GenesisNode(genesis)
    else
      var before := Run(u, genesis, events[..|events| - 1]);
      var e := events[|events| - 1];
      if e.ctx <= ZONE_CTX && u(e.h).order == e.ctx then Append(u, before, e.ctx, e.h, ZERO_HASH, false, e.env).sys
      else before
  }

  // ----- what an append does -----

  /** An append that enters at a context gets down to another as far as the nodes on the way are connected. */
  predicate Reached(env: Env, ctx: nat, d: nat) {
    ctx <= d <= ZONE_CTX && forall c :: ctx <= c < d ==> env.connected(c)
  }

  /** The terminus that a node is handed: the entry node by its caller, the others by the node above. */
  function Handed(u: Headers, sys: System, ctx: nat, h: Hash, domTerminus: Hash, d: nat): Hash {
    if d <= ctx then domTerminus
    else
      var up, parent := sys(Place(u, h, d - 1)), Link(u, h, d - 1).parent;
      if parent in up.termini && |up.termini[parent]| == 4 then up.termini[parent][SubIndex(u, h, d - 1)] else ZERO_HASH
  }

  /** The block is new to the node and extends a stored parent by one, the parent has its four termini, and if the
      block came down the last of these is the terminus that was handed down with it. */
  predicate Fits(u: Headers, n: Node, d: nat, h: Hash, handed: Hash, cameDown: bool) {
    var link := Link(u, h, d);
    && h != ZERO_HASH && h !in n.tree && link.parent in n.tree && link.number == n.tree[link.parent].number + 1
    && link.parent in n.termini && |n.termini[link.parent]| == 4
    && (cameDown ==> n.termini[link.parent][3] == handed)
  }

  /** The node's own check and validation let the block through. */
  predicate LetsThrough(u: Headers, sys: System, ctx: nat, h: Hash, domTerminus: Hash, domOrigin: bool, env: Env, d: nat) {
    && Fits(u, sys(Place(u, h, d)), d, h, Handed(u, sys, ctx, h, domTerminus, d), domOrigin || d > ctx)
    && env.accepts(d)
  }

  /** A node writes the block exactly if all nodes that are reached let it through, and all from the node itself down
      can write. */
  ghost predicate Writes(u: Headers, sys: System, ctx: nat, h: Hash, domTerminus: Hash, domOrigin: bool, env: Env, d: nat) {
    forall e {:trigger Reached(env, ctx, e)} :: Reached(env, ctx, e) ==>
      LetsThrough(u, sys, ctx, h, domTerminus, domOrigin, env, e) && (d <= e ==> env.writes(e))
  }

  /** The node has got the block with its link in this context and its new termini, and nothing else has changed: the
      entry of the block's subordinate is the block itself, and so is the last one if the block is shared with the
      dominant chain; the others are the parent's. */
  ghost predicate Gains(u: Headers, n: Node, n': Node, d: nat, h: Hash, cameDown: bool) {
    var link := if d == PRIME_CTX then u(h).prime else if d == REGION_CTX then u(h).region else u(h).zone;
    && n'.tree == n.tree[h := link]
    && n'.domBlocks == n.domBlocks + (if cameDown then {h} else {})
    && link.parent in n.termini && |n.termini[link.parent]| == 4
    && h in n'.termini && |n'.termini[h]| == 4 && n'.termini == n.termini[h := n'.termini[h]]
    && (forall i :: 0 <= i < 3 ==>
          n'.termini[h][i] == if d < ZONE_CTX && i == SubIndex(u, h, d) then h else n.termini[link.parent][i])
    && n'.termini[h][3] == if d == PRIME_CTX || cameDown then h else n.termini[link.parent][3]
  }

  lemma {:induction false} StoredGains(u: Headers, n: Node, d: nat, h: Hash, cameDown: bool)
    requires d <= ZONE_CTX && h !in n.tree
    requires var p := Link(u, h, d).parent; p in n.termini && |n.termini[p]| == 4
    ensures Gains(u, n, Stored(u, d, n, h, cameDown), d, h, cameDown)
  {
  }

  lemma {:induction false} AdmitsIffFits(u: Headers, n: Node, d: nat, h: Hash, handed: Hash, cameDown: bool)
    ensures Admits(u, n, d, h, handed, cameDown) <==> Fits(u, n, d, h, handed, cameDown)
  {
  }

  /** What an append leaves at the node of a context: a node that is reached and writes has gained the block, and any
      other is as it was. */
  ghost predicate AppendedAt(u: Headers, sys: System, ctx: nat, h: Hash, domTerminus: Hash, domOrigin: bool, env: Env, after: System, d: nat) {
    var at := Place(u, h, d);
    if Reached(env, ctx, d) && Writes(u, sys, ctx, h, domTerminus, domOrigin, env, d)
    then Gains(u, sys(at), after(at), d, h, domOrigin || d > ctx)
    else after(at) == sys(at)
  }

  /** Who is reached from the next context down. */
  lemma {:induction false} ReachedBelow(env: Env, ctx: nat, e: nat)
    ensures Reached(env, ctx, e) <==>
              (e == ctx && ctx <= ZONE_CTX) || (ctx < ZONE_CTX && env.connected(ctx) && Reached(env, ctx + 1, e))
  {
  }

  /** The node below is handed the terminus that is read here. */
  lemma {:induction false} LetsThroughBelow(u: Headers, sys: System, ctx: nat, h: Hash, domTerminus: Hash, domOrigin: bool, env: Env, terminus: Hash, e: nat)
    requires ctx < e && Fits(u, sys(Place(u, h, ctx)), ctx, h, domTerminus, domOrigin)
    requires terminus == sys(Place(u, h, ctx)).termini[Link(u, h, ctx).parent][SubIndex(u, h, ctx)]
    ensures LetsThrough(u, sys, ctx + 1, h, terminus, true, env, e) <==> LetsThrough(u, sys, ctx, h, domTerminus, domOrigin, env, e)
  {
  }

  lemma {:induction false} WritesBelow(u: Headers, sys: System, ctx: nat, h: Hash, domTerminus: Hash, domOrigin: bool, env: Env, terminus: Hash, d: nat)
    requires ctx <= d && ctx < ZONE_CTX && env.connected(ctx) && LetsThrough(u, sys, ctx, h, domTerminus, domOrigin, env, ctx)
    requires Fits(u, sys(Place(u, h, ctx)), ctx, h, domTerminus, domOrigin)
    requires terminus == sys(Place(u, h, ctx)).termini[Link(u, h, ctx).parent][SubIndex(u, h, ctx)]
    ensures Writes(u, sys, ctx, h, domTerminus, domOrigin, env, d) <==>
              (d == ctx ==> env.writes(ctx)) && Writes(u, sys, ctx + 1, h, terminus, true, env, if d == ctx then ctx + 1 else d)
  {
    hide LetsThrough, Reached, Fits;
    forall e: nat ensures Reached(env, ctx, e) <==> e == ctx || Reached(env, ctx + 1, e) {
      ReachedBelow(env, ctx, e);
    }
    assert Reached(env, ctx, ctx);
    forall e: nat | Reached(env, ctx + 1, e)
      ensures ctx < e && (LetsThrough(u, sys, ctx + 1, h, terminus, true, env, e) <==> LetsThrough(u, sys, ctx, h, domTerminus, domOrigin, env, e))
    {
      ReachedAbove(env, ctx + 1, e);
      LetsThroughBelow(u, sys, ctx, h, domTerminus, domOrigin, env, terminus, e);
    }
    var below := ctx + 1;
    var d' := if d == ctx then below else d;
    if Writes(u, sys, ctx, h, domTerminus, domOrigin, env, d) {
      forall e: nat {:trigger Reached(env, below, e)} | Reached(env, below, e)
        ensures LetsThrough(u, sys, below, h, terminus, true, env, e) && (d' <= e ==> env.writes(e))
      {
        assert Reached(env, ctx, e);
      }
    }
    if (d == ctx ==> env.writes(ctx)) && Writes(u, sys, ctx + 1, h, terminus, true, env, d') {
      forall e: nat | Reached(env, ctx, e)
        ensures LetsThrough(u, sys, ctx, h, domTerminus, domOrigin, env, e) && (d <= e ==> env.writes(e))
      {
        assert e == ctx || Reached(env, ctx + 1, e);
      }
    }
  }

  lemma {:induction false} ReachedAbove(env: Env, ctx: nat, e: nat)
    requires Reached(env, ctx, e)
    ensures ctx <= e <= ZONE_CTX
  {
  }

  /** Where nothing is below, only the node itself counts. */
  lemma {:induction false} WritesAlone(u: Headers, sys: System, ctx: nat, h: Hash, domTerminus: Hash, domOrigin: bool, env: Env)
    requires ctx <= ZONE_CTX && (ctx == ZONE_CTX || !env.connected(ctx))
    ensures Writes(u, sys, ctx, h, domTerminus, domOrigin, env, ctx) <==>
              LetsThrough(u, sys, ctx, h, domTerminus, domOrigin, env, ctx) && env.writes(ctx)
  {
    hide LetsThrough, Reached;
    forall e: nat ensures Reached(env, ctx, e) <==> e == ctx {
      ReachedBelow(env, ctx, e);
    }
    assert Reached(env, ctx, ctx);
  }

  lemma {:induction false} NothingWrites(u: Headers, sys: System, ctx: nat, h: Hash, domTerminus: Hash, domOrigin: bool, env: Env, d: nat)
    requires ctx <= ZONE_CTX && !LetsThrough(u, sys, ctx, h, domTerminus, domOrigin, env, ctx)
    ensures !Writes(u, sys, ctx, h, domTerminus, domOrigin, env, d)
  {
    hide LetsThrough;
    assert Reached(env, ctx, ctx);
  }

  /** What an append does to all nodes, over the system before it: it succeeds exactly if the entry node writes; the
      nodes that write have gained the block; and every other node is as it was. */
  lemma {:induction false} AppendEffect(u: Headers, sys: System, ctx: nat, h: Hash, domTerminus: Hash, domOrigin: bool, env: Env)
    requires ctx <= ZONE_CTX
    ensures var out := Append(u, sys, ctx, h, domTerminus, domOrigin, env);
            && (out.ok <==> Writes(u, sys, ctx, h, domTerminus, domOrigin, env, ctx))
            && (forall d {:trigger Place(u, h, d)} :: ctx <= d <= ZONE_CTX ==> AppendedAt(u, sys, ctx, h, domTerminus, domOrigin, env, out.sys, d))
            && (forall l: Location {:trigger out.sys(l)} ::
                  (forall d {:trigger Place(u, h, d)} :: ctx <= d <= ZONE_CTX ==> l != Place(u, h, d)) ==> out.sys(l) == sys(l))
    decreases ZONE_CTX - ctx
  {
    hide Fits, Admits, Gains, Stored, Writes, Reached, LetsThrough;
    var at := Place(u, h, ctx);
    var n := sys(at);
    AdmitsIffFits(u, n, ctx, h, domTerminus, domOrigin);
    EntryLetsThrough(u, sys, ctx, h, domTerminus, domOrigin, env);
    if !LetsThrough(u, sys, ctx, h, domTerminus, domOrigin, env, ctx) {
      forall d: nat | ctx <= d <= ZONE_CTX ensures AppendedAt(u, sys, ctx, h, domTerminus, domOrigin, env, sys, d) {
        NothingWrites(u, sys, ctx, h, domTerminus, domOrigin, env, d);
      }
      NothingWrites(u, sys, ctx, h, domTerminus, domOrigin, env, ctx);
    } else {
      FitsHasTermini(u, n, ctx, h, domTerminus, domOrigin);
      StoredGains(u, n, ctx, h, domOrigin);
      var terminus := n.termini[Link(u, h, ctx).parent][SubIndex(u, h, ctx)];
      var below := CallSub(u, sys, ctx, h, terminus, env);
      if ctx < ZONE_CTX && env.connected(ctx) {
        AppendEffect(u, sys, ctx + 1, h, terminus, true, env);
        assert below.sys(at) == sys(at) by {
          OtherPlaces(u, h, ctx);
        }
        WritesBelow(u, sys, ctx, h, domTerminus, domOrigin, env, terminus, ctx);
        var out := Append(u, sys, ctx, h, domTerminus, domOrigin, env);
        forall d: nat | ctx <= d <= ZONE_CTX ensures AppendedAt(u, sys, ctx, h, domTerminus, domOrigin, env, out.sys, d) {
          WritesBelow(u, sys, ctx, h, domTerminus, domOrigin, env, terminus, d);
          ReachedBelow(env, ctx, d);
          OtherPlaces(u, h, ctx);
          if d > ctx {
            assert AppendedAt(u, sys, ctx + 1, h, terminus, true, env, below.sys, d);
          }
        }
      } else {
        WritesAlone(u, sys, ctx, h, domTerminus, domOrigin, env);
        var out := Append(u, sys, ctx, h, domTerminus, domOrigin, env);
        forall d: nat | ctx <= d <= ZONE_CTX ensures AppendedAt(u, sys, ctx, h, domTerminus, domOrigin, env, out.sys, d) {
          ReachedBelow(env, ctx, d);
          OtherPlaces(u, h, ctx);
        }
      }
    }
  }

  lemma {:induction false} OtherPlaces(u: Headers, h: Hash, ctx: nat)
    requires ctx <= ZONE_CTX
    ensures forall d {:trigger Place(u, h, d)} :: 0 <= d <= ZONE_CTX && d != ctx ==> Place(u, h, d) != Place(u, h, ctx)
  {
    assert forall d {:trigger Place(u, h, d)} :: 0 <= d <= ZONE_CTX ==> |Place(u, h, d)| == d;
  }

  lemma {:induction false} EntryLetsThrough(u: Headers, sys: System, ctx: nat, h: Hash, domTerminus: Hash, domOrigin: bool, env: Env)
    ensures LetsThrough(u, sys, ctx, h, domTerminus, domOrigin, env, ctx) <==>
              Fits(u, sys(Place(u, h, ctx)), ctx, h, domTerminus, domOrigin) && env.accepts(ctx)
  {
  }

  lemma {:induction false} FitsHasTermini(u: Headers, n: Node, d: nat, h: Hash, handed: Hash, cameDown: bool)
    requires Fits(u, n, d, h, handed, cameDown)
    ensures var p := Link(u, h, d).parent; p in n.termini && |n.termini[p]| == 4 && h !in n.tree
  {
  }

  /** The last event of a run: a block of the node's own order is appended there, any other changes nothing. */
  lemma {:induction false} RunAppends(u: Headers, genesis: Hash, events: seq<Event>, e: Event)
    ensures var before, after := Run(u, genesis, events), Run(u, genesis, events + [e]);
            if e.ctx <= ZONE_CTX && u(e.h).order == e.ctx
            then forall d {:trigger Place(u, e.h, d)} :: e.ctx <= d <= ZONE_CTX ==> AppendedAt(u, before, e.ctx, e.h, ZERO_HASH, false, e.env, after, d)
            else after == before
  {
    hide AppendedAt, Append;
    assert (events + [e])[..|events|] == events;
    if e.ctx <= ZONE_CTX && u(e.h).order == e.ctx {
      assert Run(u, genesis, events + [e]) == Append(u, Run(u, genesis, events), e.ctx, e.h, ZERO_HASH, false, e.env).sys;
      AppendEffect(u, Run(u, genesis, events), e.ctx, e.h, ZERO_HASH, false, e.env);
      var out := Append(u, Run(u, genesis, events), e.ctx, e.h, ZERO_HASH, false, e.env);
      forall d: nat | e.ctx <= d <= ZONE_CTX
        ensures AppendedAt(u, Run(u, genesis, events), e.ctx, e.h, ZERO_HASH, false, e.env, Run(u, genesis, events + [e]), d)
      {
        var at := Place(u, e.h, d);
        assert AppendedAt(u, Run(u, genesis, events), e.ctx, e.h, ZERO_HASH, false, e.env, out.sys, d);
      }
    }
  }

  /** A first block on genesis that belongs to all three levels is stored at all three nodes of its slice, and has come
      down at the lower two. */
  lemma {:induction false} FirstBlockIsStored(u: Headers, genesis: Hash, h: Hash)
    requires genesis != ZERO_HASH && h != ZERO_HASH && h != genesis && u(h).order == PRIME_CTX
    requires u(h).prime == u(h).region == u(h).zone == Header(genesis, 1)
    ensures var yes := (_: nat) => true;
            var sys := Run(u, genesis, [Insert(PRIME_CTX, h, Env(yes, yes, yes))]);
            forall d {:trigger Place(u, h, d)} :: 0 <= d <= ZONE_CTX ==>
              && sys(Place(u, h, d)).tree == map[genesis := Header(ZERO_HASH, 0), h := Header(genesis, 1)]
              && (h in sys(Place(u, h, d)).domBlocks <==> d > 0)
  {
    var yes := (_: nat) => true;
    var env := Env(yes, yes, yes);
    var start := Run(u, genesis, []);
    RunAppends(u, genesis, [], Insert(PRIME_CTX, h, env));
    assert [] + [Insert(PRIME_CTX, h, env)] == [Insert(PRIME_CTX, h, env)];
    forall e: nat | Reached(env, 0, e) ensures LetsThrough(u, start, 0, h, ZERO_HASH, false, env, e) {
    }
    forall d: nat | d <= ZONE_CTX ensures Reached(env, 0, d) && Writes(u, start, 0, h, ZERO_HASH, false, env, d) {
    }
  }

  // ----- naive ancestry scans -----

  /** The nearest marked block at or above `h` on its chain, or genesis. */
  ghost function Scan(t: Tree, genesis: Hash, marks: set<Hash>, h: Hash): (r: Hash)
    requires WellFormed(t, genesis) && h in t
    ensures r in t && t[r].number <= t[h].number
    ensures r == genesis || r in marks
    decreases t[h].number
  {
    assert Extends(t, genesis, h);
    if h == genesis || h in marks then h else Scan(t, genesis, marks, t[h].parent)
  }

  /** All marked blocks on the chain of `h`, oldest first, without genesis. */
  ghost function Marked(t: Tree, genesis: Hash, marks: set<Hash>, h: Hash): seq<Hash>
    requires WellFormed(t, genesis) && h in t
    decreases t[h].number
  {
    assert Extends(t, genesis, h);
    if h == genesis then []
    else Marked(t, genesis, marks, t[h].parent) + (if h in marks then [h] else [])
  }

  /** No marked block lies strictly between a block and its scan result. */
  lemma {:induction false} ScanSkips(t: Tree, genesis: Hash, marks: set<Hash>, h: Hash)
    requires WellFormed(t, genesis) && h in t
    ensures Marked(t, genesis, marks, h) == Marked(t, genesis, marks, Scan(t, genesis, marks, h))
    decreases t[h].number
  {
    if h != genesis && h !in marks {
      assert Extends(t, genesis, h);
      ScanSkips(t, genesis, marks, t[h].parent);
    }
  }

  /** Scans of stored blocks do not change when the node stores more. */
  lemma {:induction false} ScanStable(t: Tree, t': Tree, genesis: Hash, marks: set<Hash>, marks': set<Hash>, h: Hash)
    requires WellFormed(t, genesis) && WellFormed(t', genesis) && h in t
    requires forall x :: x in t ==> x in t' && t'[x] == t[x] && (x in marks <==> x in marks')
    ensures Scan(t', genesis, marks', h) == Scan(t, genesis, marks, h)
    decreases t[h].number
  {
    if h != genesis && h !in marks {
      assert Extends(t, genesis, h);
      ScanStable(t, t', genesis, marks, marks', t[h].parent);
    }
  }

  // ----- invariants -----

  /** The blocks a dominant node has stored for the subordinate with the given index. */
  ghost function SubBlocks(u: Headers, n: Node, genesis: Hash, ctx: nat, i: nat): set<Hash>
  {
    set x | x in n.tree && x != genesis && SubIndex(u, x, ctx) == i
  }

  /** The termini of a block by scanning its ancestry: for each subordinate the latest block of
      that subordinate, and last the latest block that is shared with the dominant chain. */
  ghost function ScanTermini(u: Headers, genesis: Hash, ctx: nat, n: Node, h: Hash): seq<Hash>
    requires WellFormed(n.tree, genesis) && h in n.tree
  {
    [ SubScan(u, genesis, ctx, n, 0, h),
      SubScan(u, genesis, ctx, n, 1, h),
      SubScan(u, genesis, ctx, n, 2, h),
      if ctx == PRIME_CTX then h else Scan(n.tree, genesis, n.domBlocks, h) ]
  }

  ghost function SubScan(u: Headers, genesis: Hash, ctx: nat, n: Node, i: nat, h: Hash): Hash
    requires WellFormed(n.tree, genesis) && h in n.tree
  {
    if ctx < ZONE_CTX then Scan(n.tree, genesis, SubBlocks(u, n, genesis, ctx, i), h) else genesis
  }

  /** The termini stored for `h` are what scanning its ancestry gives. */
  ghost predicate TerminiScan(u: Headers, genesis: Hash, ctx: nat, n: Node, h: Hash)
    requires WellFormed(n.tree, genesis) && h in n.tree
  {
    h in n.termini && n.termini[h] == ScanTermini(u, genesis, ctx, n, h)
  }

  ghost predicate NodeInv(u: Headers, genesis: Hash, ctx: nat, n: Node)
  {
    && WellFormed(n.tree, genesis)
    && n.termini.Keys == n.tree.Keys
    && (forall x :: x in n.tree && x != genesis ==> n.tree[x] == Link(u, x, ctx))
    && (forall x :: x in n.domBlocks ==> x in n.tree && x != genesis)
    && (forall x {:trigger TerminiScan(u, genesis, ctx, n, x)} :: x in n.tree ==> TerminiScan(u, genesis, ctx, n, x))
  }

  /** A block that came down was checked against the dominant node's termini, which still stand. */
  ghost predicate Checked(u: Headers, dom: Node, sub: Node, at: Location, x: Hash)
    requires |at| < ZONE_CTX
  {
    var up, down := Link(u, x, |at|).parent, Link(u, x, |at| + 1).parent;
    && Place(u, x, |at|) == at
    && up in dom.termini && |dom.termini[up]| == 4
    && down in sub.termini && |sub.termini[down]| == 4
    && sub.termini[down][TERMINUS_INDEX] == dom.termini[up][SubIndex(u, x, |at|)]
  }

  ghost predicate PairInv(u: Headers, dom: Node, sub: Node, at: Location, i: nat)
    requires |at| < ZONE_CTX
  {
    forall x :: x in sub.domBlocks ==> SubIndex(u, x, |at|) == i && Checked(u, dom, sub, at, x)
  }

  ghost predicate Inv(u: Headers, genesis: Hash, sys: System) {
    && genesis != ZERO_HASH
    && (forall l: Location :: |l| <= ZONE_CTX ==> NodeInv(u, genesis, |l|, sys(l)))
    && (forall l: Location, i: nat :: |l| < ZONE_CTX && i < SUBS ==> PairInv(u, sys(l), sys(Child(l, i)), l, i))
  }

  function Child(l: Location, i: nat): Location {
    l + [i]
  }

  lemma {:induction false} StartInv(u: Headers, genesis: Hash)
    requires genesis != ZERO_HASH
    ensures NodeInv(u, genesis, 0, GenesisNode(genesis))
    ensures NodeInv(u, genesis, 1, GenesisNode(genesis))
    ensures NodeInv(u, genesis, 2, GenesisNode(genesis))
  {
  }

  lemma {:induction false} SubScanStable(u: Headers, genesis: Hash, ctx: nat, n: Node, n': Node, i: nat, x: Hash)
    requires WellFormed(n.tree, genesis) && WellFormed(n'.tree, genesis) && x in n.tree
    requires forall y :: y in n.tree ==> y in n'.tree && n'.tree[y] == n.tree[y]
    ensures SubScan(u, genesis, ctx, n', i, x) == SubScan(u, genesis, ctx, n, i, x)
  {
    if ctx < ZONE_CTX {
      ScanStable(n.tree, n'.tree, genesis, SubBlocks(u, n, genesis, ctx, i), SubBlocks(u, n', genesis, ctx, i), x);
    }
  }

  /** Writing a block leaves every other block's termini right. */
  lemma {:induction false} OldTermini(u: Headers, genesis: Hash, ctx: nat, n: Node, n': Node, x: Hash)
    requires WellFormed(n.tree, genesis) && WellFormed(n'.tree, genesis)
    requires x in n.tree && TerminiScan(u, genesis, ctx, n, x)
    requires x in n'.termini && n'.termini[x] == n.termini[x]
    requires forall y :: y in n.tree ==> y in n'.tree && n'.tree[y] == n.tree[y] && (y in n.domBlocks <==> y in n'.domBlocks)
    ensures TerminiScan(u, genesis, ctx, n', x)
  {
    ScanStable(n.tree, n'.tree, genesis, n.domBlocks, n'.domBlocks, x);
    SubScanStable(u, genesis, ctx, n, n', 0, x);
    SubScanStable(u, genesis, ctx, n, n', 1, x);
    SubScanStable(u, genesis, ctx, n, n', 2, x);
  }

  /** A new block is its own scan result where it is marked, and has its parent's result elsewhere. */
  lemma {:induction false} FreshScan(t: Tree, t': Tree, genesis: Hash, marks: set<Hash>, marks': set<Hash>, h: Hash)
    requires WellFormed(t, genesis) && WellFormed(t', genesis) && h !in t && h in t' && t'[h].parent in t
    requires forall x :: x in t ==> x in t' && t'[x] == t[x] && (x in marks <==> x in marks')
    ensures Scan(t', genesis, marks', h) == if h in marks' then h else Scan(t, genesis, marks, t'[h].parent)
  {
    ScanStable(t, t', genesis, marks, marks', t'[h].parent);
  }

  lemma {:induction false} FreshSubScan(u: Headers, genesis: Hash, ctx: nat, n: Node, n': Node, i: nat, h: Hash)
    requires WellFormed(n.tree, genesis) && WellFormed(n'.tree, genesis)
    requires h !in n.tree && h in n'.tree && n'.tree[h].parent in n.tree
    requires forall y :: y in n.tree ==> y in n'.tree && n'.tree[y] == n.tree[y]
    ensures SubScan(u, genesis, ctx, n', i, h)
            == if ctx < ZONE_CTX && SubIndex(u, h, ctx) == i then h else SubScan(u, genesis, ctx, n, i, n'.tree[h].parent)
  {
    if ctx < ZONE_CTX {
      FreshScan(n.tree, n'.tree, genesis, SubBlocks(u, n, genesis, ctx, i), SubBlocks(u, n', genesis, ctx, i), h);
    }
  }

  /** The termini written for the new block are its own ancestry scans. */
  lemma {:induction false} FreshTermini(u: Headers, genesis: Hash, ctx: nat, n: Node, n': Node, h: Hash, domOrigin: bool)
    requires ctx <= ZONE_CTX
    requires WellFormed(n.tree, genesis) && WellFormed(n'.tree, genesis)
    requires var p := Link(u, h, ctx).parent; p in n.tree && TerminiScan(u, genesis, ctx, n, p)
    requires h !in n.tree && h !in n.domBlocks
    requires n' == Stored(u, ctx, n, h, domOrigin)
    ensures TerminiScan(u, genesis, ctx, n', h)
  {
    FreshScan(n.tree, n'.tree, genesis, n.domBlocks, n'.domBlocks, h);
    FreshSubScan(u, genesis, ctx, n, n', 0, h);
    FreshSubScan(u, genesis, ctx, n, n', 1, h);
    FreshSubScan(u, genesis, ctx, n, n', 2, h);
  }

  lemma {:induction false} StoreTermini(u: Headers, genesis: Hash, ctx: nat, n: Node, n': Node, h: Hash, domOrigin: bool, x: Hash)
    requires ctx <= ZONE_CTX
    requires NodeInv(u, genesis, ctx, n) && WellFormed(n'.tree, genesis)
    requires h !in n.tree && Link(u, h, ctx).parent in n.tree
    requires var p := Link(u, h, ctx).parent; p in n.termini && |n.termini[p]| == 4
    requires n' == Stored(u, ctx, n, h, domOrigin)
    requires x in n'.tree
    ensures TerminiScan(u, genesis, ctx, n', x)
  {
    if x == h {
      assert TerminiScan(u, genesis, ctx, n, Link(u, h, ctx).parent);
      FreshTermini(u, genesis, ctx, n, n', h, domOrigin);
    } else {
      assert TerminiScan(u, genesis, ctx, n, x);
      OldTermini(u, genesis, ctx, n, n', x);
    }
  }

  /** Storing an admitted block keeps the termini equal to the ancestry scans. */
  lemma {:induction false} StoreInv(u: Headers, genesis: Hash, ctx: nat, n: Node, h: Hash, domTerminus: Hash, domOrigin: bool)
    requires ctx <= ZONE_CTX
    requires NodeInv(u, genesis, ctx, n)
    requires Admits(u, n, ctx, h, domTerminus, domOrigin)
    ensures NodeInv(u, genesis, ctx, Stored(u, ctx, n, h, domOrigin))
  {
    var n' := Stored(u, ctx, n, h, domOrigin);
    ExtendWellFormed(n.tree, genesis, h, Link(u, h, ctx));
    forall x | x in n'.tree ensures TerminiScan(u, genesis, ctx, n', x) {
      StoreTermini(u, genesis, ctx, n, n', h, domOrigin, x);
    }
    assert forall x :: x in n'.tree && x != genesis ==> n'.tree[x] == Link(u, x, ctx);
    assert forall x :: x in n'.domBlocks ==> x in n'.tree && x != genesis;
  }

  // ----- every run keeps the invariants -----

  ghost predicate KeepsTermini(n: Node, n': Node) {
    forall x :: x in n.termini ==> x in n'.termini && n'.termini[x] == n.termini[x]
  }

  lemma {:induction false} PairStable(u: Headers, dom: Node, sub: Node, dom': Node, sub': Node, at: Location, i: nat)
    requires |at| < ZONE_CTX && PairInv(u, dom, sub, at, i)
    requires KeepsTermini(dom, dom') && KeepsTermini(sub, sub')
    requires forall x :: x in sub'.domBlocks && x !in sub.domBlocks ==> SubIndex(u, x, |at|) == i && Checked(u, dom', sub', at, x)
    ensures PairInv(u, dom', sub', at, i)
  {
    forall x | x in sub'.domBlocks ensures SubIndex(u, x, |at|) == i && Checked(u, dom', sub', at, x) {
      assert x in sub.domBlocks ==> Checked(u, dom, sub, at, x);
    }
  }

  /** Every block that is new at `at` because it came down was checked against the node above. */
  ghost predicate NewlyChecked(u: Headers, sys: System, at: Location, n': Node)
    requires |at| <= ZONE_CTX
  {
    forall x :: x in n'.domBlocks && x !in sys(at).domBlocks ==>
      && |at| > 0 && SubIndex(u, x, |at| - 1) == at[|at| - 1]
      && Checked(u, sys(at[..|at| - 1]), n', at[..|at| - 1], x)
  }

  lemma {:induction false} UpdatePair(u: Headers, sys: System, at: Location, n': Node, l: Location, i: nat)
    requires |at| <= ZONE_CTX && |l| < ZONE_CTX && PairInv(u, sys(l), sys(Child(l, i)), l, i)
    requires KeepsTermini(sys(at), n') && NewlyChecked(u, sys, at, n')
    ensures PairInv(u, Update(sys, at, n')(l), Update(sys, at, n')(Child(l, i)), l, i)
  {
    var sys' := Update(sys, at, n');
    if Child(l, i) == at {
      assert l == at[..|at| - 1] && i == at[|at| - 1];
      PairStable(u, sys(l), sys(at), sys(l), n', l, i);
    } else if l == at {
      PairStable(u, sys(l), sys(Child(l, i)), n', sys(Child(l, i)), l, i);
    }
  }

  /** Rewriting one node keeps the system invariant when the node only grows and a block that came
      down from above was checked against the node above. */
  lemma {:induction false} UpdateInv(u: Headers, genesis: Hash, sys: System, at: Location, n': Node)
    requires Inv(u, genesis, sys) && |at| <= ZONE_CTX
    requires NodeInv(u, genesis, |at|, n') && KeepsTermini(sys(at), n') && NewlyChecked(u, sys, at, n')
    ensures Inv(u, genesis, Update(sys, at, n'))
  {
    forall l: Location, i: nat | |l| < ZONE_CTX && i < SUBS
      ensures PairInv(u, Update(sys, at, n')(l), Update(sys, at, n')(Child(l, i)), l, i)
    {
      UpdatePair(u, sys, at, n', l, i);
    }
  }

  /** What a caller from above must have read from the node above. */
  ghost predicate HandedDown(u: Headers, sys: System, ctx: nat, h: Hash, domTerminus: Hash)
  {
    && ctx > 0
    && var dom, up := sys(Place(u, h, ctx - 1)), Link(u, h, ctx - 1).parent;
       up in dom.termini && |dom.termini[up]| == 4 && dom.termini[up][SubIndex(u, h, ctx - 1)] == domTerminus
  }

  /** An admitted block that came down was checked against what the node above handed down. */
  lemma {:induction false} StoredChecked(u: Headers, sys: System, ctx: nat, h: Hash, domTerminus: Hash, domOrigin: bool)
    requires ctx <= ZONE_CTX && sys(Place(u, h, ctx)).termini.Keys == sys(Place(u, h, ctx)).tree.Keys
    requires Admits(u, sys(Place(u, h, ctx)), ctx, h, domTerminus, domOrigin)
    requires domOrigin ==> HandedDown(u, sys, ctx, h, domTerminus)
    ensures KeepsTermini(sys(Place(u, h, ctx)), Stored(u, ctx, sys(Place(u, h, ctx)), h, domOrigin))
    ensures NewlyChecked(u, sys, Place(u, h, ctx), Stored(u, ctx, sys(Place(u, h, ctx)), h, domOrigin))
  {
    if domOrigin {
      assert Place(u, h, ctx - 1) == Place(u, h, ctx)[..ctx - 1];
    }
  }

  lemma {:induction false} InvAt(u: Headers, genesis: Hash, sys: System, at: Location)
    requires Inv(u, genesis, sys) && |at| <= ZONE_CTX
    ensures NodeInv(u, genesis, |at|, sys(at)) && sys(at).termini.Keys == sys(at).tree.Keys
  {
  }

  /** Writing an admitted block at one node. */
  lemma {:induction false} WriteInv(u: Headers, genesis: Hash, sys: System, ctx: nat, h: Hash, domTerminus: Hash, domOrigin: bool)
    requires Inv(u, genesis, sys) && ctx <= ZONE_CTX
    requires Admits(u, sys(Place(u, h, ctx)), ctx, h, domTerminus, domOrigin)
    requires domOrigin ==> HandedDown(u, sys, ctx, h, domTerminus)
    ensures Inv(u, genesis, Update(sys, Place(u, h, ctx), Stored(u, ctx, sys(Place(u, h, ctx)), h, domOrigin)))
  {
    hide Inv, NodeInv, NewlyChecked, KeepsTermini, HandedDown;
    var at := Place(u, h, ctx);
    InvAt(u, genesis, sys, at);
    StoreInv(u, genesis, ctx, sys(at), h, domTerminus, domOrigin);
    StoredChecked(u, sys, ctx, h, domTerminus, domOrigin);
    UpdateInv(u, genesis, sys, at, Stored(u, ctx, sys(at), h, domOrigin));
  }

  /** An append never touches the nodes above the one it enters. */
  lemma {:induction false} AppendFrame(u: Headers, sys: System, ctx: nat, h: Hash, domTerminus: Hash, domOrigin: bool, env: Env)
    requires ctx <= ZONE_CTX
    ensures forall l: Location :: |l| < ctx ==> Append(u, sys, ctx, h, domTerminus, domOrigin, env).sys(l) == sys(l)
    decreases ZONE_CTX - ctx
  {
    var n := sys(Place(u, h, ctx));
    if Admits(u, n, ctx, h, domTerminus, domOrigin) && ctx < ZONE_CTX {
      AppendFrame(u, sys, ctx + 1, h, n.termini[Link(u, h, ctx).parent][SubIndex(u, h, ctx)], true, env);
    }
  }

  /** One hierarchical append, whatever it meets on the way, keeps the invariant. */
  lemma {:induction false} AppendInv(u: Headers, genesis: Hash, sys: System, ctx: nat, h: Hash, domTerminus: Hash, domOrigin: bool, env: Env)
    requires Inv(u, genesis, sys) && ctx <= ZONE_CTX
    requires domOrigin ==> HandedDown(u, sys, ctx, h, domTerminus)
    ensures Inv(u, genesis, Append(u, sys, ctx, h, domTerminus, domOrigin, env).sys)
    decreases ZONE_CTX - ctx, 1
  {
    var n := sys(Place(u, h, ctx));
    if Admits(u, n, ctx, h, domTerminus, domOrigin) && env.accepts(ctx) {
      var terminus := n.termini[Link(u, h, ctx).parent][SubIndex(u, h, ctx)];
      CallSubInv(u, genesis, sys, ctx, h, terminus, env);
      var below := CallSub(u, sys, ctx, h, terminus, env);
      if below.ok && env.writes(ctx) {
        WriteInv(u, genesis, below.sys, ctx, h, domTerminus, domOrigin);
      }
    }
  }

  lemma {:induction false} CallSubInv(u: Headers, genesis: Hash, sys: System, ctx: nat, h: Hash, terminus: Hash, env: Env)
    requires Inv(u, genesis, sys) && ctx <= ZONE_CTX
    requires ctx < ZONE_CTX ==> HandedDown(u, sys, ctx + 1, h, terminus)
    ensures Inv(u, genesis, CallSub(u, sys, ctx, h, terminus, env).sys)
    ensures forall l: Location :: |l| <= ctx ==> CallSub(u, sys, ctx, h, terminus, env).sys(l) == sys(l)
    decreases ZONE_CTX - ctx, 0
  {
    if ctx < ZONE_CTX && env.connected(ctx) {
      AppendInv(u, genesis, sys, ctx + 1, h, terminus, true, env);
      AppendFrame(u, sys, ctx + 1, h, terminus, true, env);
    }
  }

  lemma {:induction false} RunInv(u: Headers, genesis: Hash, events: seq<Event>)
    requires genesis != ZERO_HASH
    ensures Inv(u, genesis, Run(u, genesis, events))
  {
    if events == [] {
      StartInv(u, genesis);
    } else {
      RunInv(u, genesis, events[..|events| - 1]);
      var e := events[|events| - 1];
      if e.ctx <= ZONE_CTX && u(e.h).order == e.ctx {
        AppendInv(u, genesis, Run(u, genesis, events[..|events| - 1]), e.ctx, e.h, ZERO_HASH, false, e.env);
      }
    }
  }

  // ----- the theorems -----

  /** In every reachable state the stored termini are the naive ancestry scans. */
  lemma {:induction false} TerminiAreScans(u: Headers, genesis: Hash, events: seq<Event>, at: Location, h: Hash)
    requires genesis != ZERO_HASH && |at| <= ZONE_CTX
    requires h in Run(u, genesis, events)(at).tree
    ensures var n := Run(u, genesis, events)(at);
            WellFormed(n.tree, genesis) && TerminiScan(u, genesis, |at|, n, h)
  {
    RunInv(u, genesis, events);
    var n := Run(u, genesis, events)(at);
    assert NodeInv(u, genesis, |at|, n);
    assert TerminiScan(u, genesis, |at|, n, h);
  }

  /** What the check established, in terms of ancestry: below a shared block, both chains reach the
      same latest shared block. */
  lemma {:induction false} CheckedScan(u: Headers, genesis: Hash, dom: Node, sub: Node, at: Location, i: nat, x: Hash)
    requires |at| < ZONE_CTX && i < SUBS
    requires NodeInv(u, genesis, |at|, dom) && NodeInv(u, genesis, |at| + 1, sub) && PairInv(u, dom, sub, at, i)
    requires x in dom.tree && x in sub.domBlocks
    ensures dom.tree[x].parent in dom.tree && sub.tree[x].parent in sub.tree && SubIndex(u, x, |at|) == i
    ensures Scan(sub.tree, genesis, sub.domBlocks, sub.tree[x].parent)
            == Scan(dom.tree, genesis, SubBlocks(u, dom, genesis, |at|, i), dom.tree[x].parent)
  {
    var up, down := dom.tree[x].parent, sub.tree[x].parent;
    assert Checked(u, dom, sub, at, x);
    assert TerminiScan(u, genesis, |at|, dom, up);
    assert TerminiScan(u, genesis, |at| + 1, sub, down);
    assert dom.termini[up][i] == SubScan(u, genesis, |at|, dom, i, up);
  }

  /** A dominant node and its subordinate agree on a shared block's coincident ancestry. */
  lemma {:induction false} PairAgrees(u: Headers, genesis: Hash, dom: Node, sub: Node, at: Location, i: nat, x: Hash)
    requires |at| < ZONE_CTX && i < SUBS
    requires NodeInv(u, genesis, |at|, dom) && NodeInv(u, genesis, |at| + 1, sub) && PairInv(u, dom, sub, at, i)
    requires x in dom.tree && x in sub.domBlocks
    ensures Marked(sub.tree, genesis, sub.domBlocks, x) == Marked(dom.tree, genesis, SubBlocks(u, dom, genesis, |at|, i), x)
    decreases sub.tree[x].number
  {
    var marks := SubBlocks(u, dom, genesis, |at|, i);
    CheckedScan(u, genesis, dom, sub, at, i, x);
    ScanSkips(sub.tree, genesis, sub.domBlocks, sub.tree[x].parent);
    ScanSkips(dom.tree, genesis, marks, dom.tree[x].parent);
    var y := Scan(dom.tree, genesis, marks, dom.tree[x].parent);
    assert Extends(sub.tree, genesis, x);
    if y != genesis {
      PairAgrees(u, genesis, dom, sub, at, i, y);
    }
  }

  // ----- which blocks came down -----

  /** A node's own blocks are of its order, and what came down to it is of a higher one. */
  ghost predicate NodeOrder(u: Headers, genesis: Hash, ctx: nat, n: Node) {
    forall x :: x in n.tree && x != genesis ==> if x in n.domBlocks then u(x).order < ctx else u(x).order == ctx
  }

  ghost predicate Ordered(u: Headers, genesis: Hash, sys: System) {
    forall l: Location :: |l| <= ZONE_CTX ==> NodeOrder(u, genesis, |l|, sys(l))
  }

  lemma {:induction false} StoreOrder(u: Headers, genesis: Hash, ctx: nat, n: Node, h: Hash, domOrigin: bool)
    requires NodeOrder(u, genesis, ctx, n) && h !in n.domBlocks
    requires var p := Link(u, h, ctx).parent; p in n.termini && |n.termini[p]| == 4
    requires if domOrigin then u(h).order < ctx else u(h).order == ctx
    ensures NodeOrder(u, genesis, ctx, Stored(u, ctx, n, h, domOrigin))
  {
  }

  lemma {:induction false} OrderAt(u: Headers, genesis: Hash, sys: System, at: Location)
    requires Ordered(u, genesis, sys) && |at| <= ZONE_CTX
    ensures NodeOrder(u, genesis, |at|, sys(at))
  {
  }

  lemma {:induction false} UpdateOrder(u: Headers, genesis: Hash, sys: System, at: Location, n': Node)
    requires Ordered(u, genesis, sys) && NodeOrder(u, genesis, |at|, n')
    ensures Ordered(u, genesis, Update(sys, at, n'))
  {
    hide NodeOrder;
  }

  lemma {:induction false} AppendOrder(u: Headers, genesis: Hash, sys: System, ctx: nat, h: Hash, domTerminus: Hash, domOrigin: bool, env: Env)
    requires Ordered(u, genesis, sys) && ctx <= ZONE_CTX
    requires forall l: Location :: h in sys(l).domBlocks && |l| <= ZONE_CTX ==> h in sys(l).tree
    requires if domOrigin then u(h).order < ctx else u(h).order == ctx
    ensures Ordered(u, genesis, Append(u, sys, ctx, h, domTerminus, domOrigin, env).sys)
    decreases ZONE_CTX - ctx
  {
    hide NodeOrder, Ordered, Passes, NewTermini, Stored;
    var at := Place(u, h, ctx);
    var n := sys(at);
    if Admits(u, n, ctx, h, domTerminus, domOrigin) {
      var terminus := n.termini[Link(u, h, ctx).parent][SubIndex(u, h, ctx)];
      if ctx < ZONE_CTX {
        AppendOrder(u, genesis, sys, ctx + 1, h, terminus, true, env);
      }
      OrderAt(u, genesis, sys, at);
      StoreOrder(u, genesis, ctx, n, h, domOrigin);
      UpdateOrder(u, genesis, CallSub(u, sys, ctx, h, terminus, env).sys, at, Stored(u, ctx, n, h, domOrigin));
    }
  }

  lemma {:induction false} RunOrder(u: Headers, genesis: Hash, events: seq<Event>)
    requires genesis != ZERO_HASH
    ensures Ordered(u, genesis, Run(u, genesis, events))
  {
    if events != [] {
      var before := Run(u, genesis, events[..|events| - 1]);
      RunOrder(u, genesis, events[..|events| - 1]);
      RunInv(u, genesis, events[..|events| - 1]);
      var e := events[|events| - 1];
      if e.ctx <= ZONE_CTX && u(e.h).order == e.ctx {
        forall l: Location | e.h in before(l).domBlocks && |l| <= ZONE_CTX ensures e.h in before(l).tree {
          assert NodeInv(u, genesis, |l|, before(l));
        }
        AppendOrder(u, genesis, before, e.ctx, e.h, ZERO_HASH, false, e.env);
      }
    }
  }

  /** In every reachable state, a block that a node and its subordinate have both stored came down. */
  lemma {:induction false} SharedCameDown(u: Headers, genesis: Hash, events: seq<Event>, at: Location, i: nat, x: Hash)
    requires genesis != ZERO_HASH && |at| < ZONE_CTX && x != genesis
    requires x in Run(u, genesis, events)(at).tree && x in Run(u, genesis, events)(Child(at, i)).tree
    ensures x in Run(u, genesis, events)(Child(at, i)).domBlocks
  {
    RunOrder(u, genesis, events);
    var dom, sub := Run(u, genesis, events)(at), Run(u, genesis, events)(Child(at, i));
    assert NodeOrder(u, genesis, |at|, dom) && NodeOrder(u, genesis, |Child(at, i)|, sub);
  }

  /** PCRC agreement: in every reachable state, for every dominant node and subordinate of the
      hierarchy and every block that both have stored, the blocks that came down along the
      subordinate's own chain are exactly the blocks of that subordinate along the dominant chain,
      in the same order. */
  lemma {:induction false} PcrcAgreement(u: Headers, genesis: Hash, events: seq<Event>, at: Location, i: nat, x: Hash)
    requires genesis != ZERO_HASH && |at| < ZONE_CTX && i < SUBS
    requires x in Run(u, genesis, events)(at).tree && x in Run(u, genesis, events)(Child(at, i)).tree
    ensures var dom, sub := Run(u, genesis, events)(at), Run(u, genesis, events)(Child(at, i));
            && WellFormed(dom.tree, genesis) && WellFormed(sub.tree, genesis)
            && Marked(sub.tree, genesis, sub.domBlocks, x) == Marked(dom.tree, genesis, SubBlocks(u, dom, genesis, |at|, i), x)
  {
    RunInv(u, genesis, events);
    var dom, sub := Run(u, genesis, events)(at), Run(u, genesis, events)(Child(at, i));
    assert NodeInv(u, genesis, |at|, dom) && NodeInv(u, genesis, |Child(at, i)|, sub);
    assert PairInv(u, dom, sub, at, i);
    if x != genesis {
      SharedCameDown(u, genesis, events, at, i, x);
      PairAgrees(u, genesis, dom, sub, at, i, x);
    }
  }
}
