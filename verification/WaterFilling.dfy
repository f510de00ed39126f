/** Lowering long pending lists to a common level. */
module WaterFilling {
  import opened Common
  import opened Transactions
  import opened SortedMap
  import opened Filing
  import Balances

  /** The second list is the low end of the first. */
  ghost predicate Prefix(whole: Items, part: Items) {
    Splits(whole, part, whole - part.Keys)
  }

  lemma {:induction false} PrefixSelf(items: Items)
    ensures Prefix(items, items)
  {
  }

  lemma {:induction false} PrefixChain(whole: Items, part: Items, less: Items)
    requires Prefix(whole, part) && Prefix(part, less)
    ensures Prefix(whole, less)
  {
    forall a, b | a in less && b in whole - less.Keys ensures a < b {
      if b in part {
        assert b in part - less.Keys;
      } else {
        assert a in part;
        assert b in whole - part.Keys;
      }
    }
  }

  ghost function Lens(lists: Accounts): Balances.Ledger {
    map a | a in lists :: |lists[a]|
  }

  /** How many transactions the lists hold. */
  ghost function Size(lists: Accounts): int {
    Balances.Total(Lens(lists))
  }

  lemma {:induction false} SizeSet(lists: Accounts, a: Address, items: Items)
    requires a in lists
    ensures Size(lists[a := items]) == Size(lists) - |lists[a]| + |items|
  {
    assert Lens(lists[a := items]) == Lens(lists)[a := |items|];
    Balances.TotalSet(Lens(lists), a, |items|);
  }

  // ----- levels -----

  function Fill(len: nat, local: bool, level: nat): (r: nat)
    ensures r <= len && (!local ==> r <= level)
  {
    if local || len <= level then len else level
  }

  ghost function LevelLens(p0: Accounts, locals: set<Address>, level: nat): Balances.Ledger {
    map a | a in p0 :: Fill(|p0[a]|, a in locals, level)
  }

  /** How many transactions remain at a level. */
  ghost function LevelSize(p0: Accounts, locals: set<Address>, level: nat): int {
    Balances.Total(LevelLens(p0, locals, level))
  }

  ghost predicate LeveledAt(p0: Accounts, p: Accounts, locals: set<Address>, level: nat, a: Address) {
    a in p0 ==> Prefix(p0[a], Of(p, a)) && |Of(p, a)| == Fill(|p0[a]|, a in locals, level)
  }

  /** Every list that is not local has been cut to the level, losing its highest nonces; local lists are whole. */
  ghost predicate Leveled(p0: Accounts, p: Accounts, locals: set<Address>, level: nat) {
    && p.Keys == p0.Keys
    && (forall a {:trigger LeveledAt(p0, p, locals, level, a)} :: LeveledAt(p0, p, locals, level, a))
  }

  lemma {:induction false} LeveledSize(p0: Accounts, p: Accounts, locals: set<Address>, level: nat)
    requires Leveled(p0, p, locals, level)
    ensures Size(p) == LevelSize(p0, locals, level)
  {
    forall a | a in p0 ensures Lens(p)[a] == LevelLens(p0, locals, level)[a] {
      assert LeveledAt(p0, p, locals, level, a);
    }
    assert Lens(p) == LevelLens(p0, locals, level);
  }

  /** Nothing is above the level. */
  ghost predicate AllBelow(p0: Accounts, locals: set<Address>, level: nat) {
    forall a :: a in p0 && a !in locals ==> |p0[a]| <= level
  }

  lemma {:induction false} Untouched(p0: Accounts, locals: set<Address>, level: nat)
    requires AllBelow(p0, locals, level)
    ensures Leveled(p0, p0, locals, level) && LevelSize(p0, locals, level + 1) == Size(p0)
  {
    forall a ensures LeveledAt(p0, p0, locals, level, a) {
      if a in p0 {
        PrefixSelf(p0[a]);
      }
    }
    assert LevelLens(p0, locals, level + 1) == Lens(p0);
  }

  /** A higher level keeps at least as much. */
  lemma {:induction false} HigherKeepsMore(p0: Accounts, locals: set<Address>, low: nat, high: nat)
    requires low <= high
    ensures LevelSize(p0, locals, low) <= LevelSize(p0, locals, high)
  {
    Balances.TotalAtMost(LevelLens(p0, locals, low), LevelLens(p0, locals, high));
  }

  // ----- one round -----

  ghost predicate LoweredAt(p: Accounts, p': Accounts, members: set<Address>, a: Address) {
    a in p ==> Prefix(p[a], Of(p', a)) && |Of(p', a)| == |p[a]| - if a in members then 1 else 0
  }

  /** The members' lists have lost their highest nonce. */
  ghost predicate Lowered(p: Accounts, p': Accounts, members: set<Address>) {
    && p'.Keys == p.Keys
    && (forall a {:trigger LoweredAt(p, p', members, a)} :: LoweredAt(p, p', members, a))
  }

  /** The members are exactly the accounts that reach the level. */
  ghost predicate Tops(p0: Accounts, locals: set<Address>, level: nat, members: set<Address>) {
    forall a :: a in members <==> a in p0 && a !in locals && |p0[a]| >= level
  }

  lemma {:induction false} NothingLowered(p: Accounts)
    ensures Lowered(p, p, {})
  {
    forall a ensures LoweredAt(p, p, {}, a) {
      if a in p {
        PrefixSelf(p[a]);
      }
    }
  }

  lemma {:induction false} LowerOne(p: Accounts, p': Accounts, members: set<Address>, a: Address, items: Items)
    requires Lowered(p, p', members) && a in p && a !in members
    requires Prefix(Of(p', a), items) && |items| == |Of(p', a)| - 1
    ensures Lowered(p, p'[a := items], members + {a})
  {
    hide Prefix;
    var p'', members' := p'[a := items], members + {a};
    forall b ensures LoweredAt(p, p'', members', b) {
      assert LoweredAt(p, p', members, b);
      if b == a {
        PrefixChain(p[a], Of(p', a), items);
      }
    }
  }

  lemma {:induction false} RoundLowers(p0: Accounts, p: Accounts, p': Accounts, locals: set<Address>, level: nat, members: set<Address>)
    requires Leveled(p0, p, locals, level) && Lowered(p, p', members) && level > 0 && Tops(p0, locals, level, members)
    ensures Leveled(p0, p', locals, level - 1)
  {
    hide Prefix;
    var lower := level - 1;
    forall a ensures LeveledAt(p0, p', locals, lower, a) {
      if a in p0 {
        assert LeveledAt(p0, p, locals, level, a);
        assert LoweredAt(p, p', members, a);
        PrefixChain(p0[a], p[a], Of(p', a));
      }
    }
  }

  lemma {:induction false} TopLength(p0: Accounts, p: Accounts, locals: set<Address>, level: nat, a: Address)
    requires Leveled(p0, p, locals, level) && a in p0 && a !in locals
    ensures a in p && |p[a]| == if |p0[a]| <= level then |p0[a]| else level
  {
    assert LeveledAt(p0, p, locals, level, a);
  }

  // ----- the rounds together -----

  predicate Big(p0: Accounts, locals: set<Address>, slots: nat, a: Address) {
    a in p0 && a !in locals && |p0[a]| > slots
  }

  ghost function Members(s: seq<Address>): set<Address> {
    set a | a in s
  }

  ghost predicate NoDuplicates(s: seq<Address>) {
    forall i, j :: 0 <= i < j < |s| ==> s[i] != s[j]
  }

  /** The big accounts are the offenders so far and the spammers yet to come. */
  ghost predicate Shared(p0: Accounts, locals: set<Address>, slots: nat, offenders: seq<Address>, spammers: set<Address>) {
    && NoDuplicates(offenders)
    && (forall a :: a in offenders ==> a !in spammers)
    && (forall a :: a in offenders || a in spammers <==> Big(p0, locals, slots, a))
  }

  ghost predicate Reach(p0: Accounts, offenders: seq<Address>, n: nat, level: nat) {
    forall i :: 0 <= i < n <= |offenders| && offenders[i] in p0 ==> |p0[offenders[i]]| >= level
  }

  ghost predicate Within(p0: Accounts, spammers: set<Address>, level: nat) {
    forall a :: a in spammers && a in p0 ==> |p0[a]| <= level
  }

  /** All is at a level, and one level up was over the limit. */
  ghost predicate AtLevel(p0: Accounts, p: Accounts, locals: set<Address>, limit: nat, level: nat) {
    Leveled(p0, p, locals, level) && LevelSize(p0, locals, level + 1) > limit
  }

  /** The state between two offenders. */
  ghost predicate Filling(
    p0: Accounts, p: Accounts, locals: set<Address>, slots: nat, limit: nat,
    offenders: seq<Address>, spammers: set<Address>, level: nat
  ) {
    && Shared(p0, locals, slots, offenders, spammers)
    && if offenders == [] then p == p0 && Size(p0) > limit
       else
         && AtLevel(p0, p, locals, limit, level) && slots <= level && Within(p0, spammers, level)
         && (Size(p) > limit ==> Reach(p0, offenders, |offenders|, level))
  }

  /** The state while the earlier offenders are lowered to the length of the last one. */
  ghost predicate Equalising(
    p0: Accounts, p: Accounts, locals: set<Address>, slots: nat, limit: nat,
    offenders: seq<Address>, spammers: set<Address>, level: nat, threshold: nat
  ) {
    && Shared(p0, locals, slots, offenders, spammers) && |offenders| > 1
    && AtLevel(p0, p, locals, limit, level) && slots < threshold <= level && Within(p0, spammers, threshold)
    && Reach(p0, offenders, |offenders| - 1, level)
    && offenders[|offenders| - 1] in p0 && |p0[offenders[|offenders| - 1]]| == threshold
  }

  lemma {:induction false} PopShared(p0: Accounts, locals: set<Address>, slots: nat, offenders: seq<Address>, spammers: set<Address>, o: Address)
    requires Shared(p0, locals, slots, offenders, spammers) && o in spammers
    ensures Shared(p0, locals, slots, offenders + [o], spammers - {o}) && Big(p0, locals, slots, o)
  {
  }

  lemma {:induction false} PopFirst(
    p0: Accounts, locals: set<Address>, slots: nat, limit: nat, spammers: set<Address>, o: Address
  )
    requires Filling(p0, p0, locals, slots, limit, [], spammers, 0) && o in spammers
    requires forall a :: a in spammers && a in p0 && o in p0 ==> |p0[a]| <= |p0[o]|
    ensures o in p0 && Filling(p0, p0, locals, slots, limit, [o], spammers - {o}, |p0[o]|)
  {
    hide Leveled, LevelSize, Size;
    PopShared(p0, locals, slots, [], spammers, o);
    assert [] + [o] == [o];
    forall a | a in p0 && a !in locals ensures |p0[a]| <= |p0[o]| {
      assert Big(p0, locals, slots, a) ==> a in spammers;
    }
    Untouched(p0, locals, |p0[o]|);
  }

  lemma {:induction false} PopNext(
    p0: Accounts, p: Accounts, locals: set<Address>, slots: nat, limit: nat,
    offenders: seq<Address>, spammers: set<Address>, level: nat, o: Address
  )
    requires Filling(p0, p, locals, slots, limit, offenders, spammers, level) && offenders != [] && Size(p) > limit
    requires o in spammers && forall a :: a in spammers && a in p0 && o in p0 ==> |p0[a]| <= |p0[o]|
    ensures o in p && o in p0 && |p[o]| == |p0[o]|
    ensures Equalising(p0, p, locals, slots, limit, offenders + [o], spammers - {o}, level, |p0[o]|)
  {
    hide Leveled, LevelSize, Shared;
    PopShared(p0, locals, slots, offenders, spammers, o);
    TopLength(p0, p, locals, level, o);
  }

  lemma {:induction false} EqualiseTops(
    p0: Accounts, p: Accounts, locals: set<Address>, slots: nat, limit: nat,
    offenders: seq<Address>, spammers: set<Address>, level: nat, threshold: nat
  )
    requires Equalising(p0, p, locals, slots, limit, offenders, spammers, level, threshold)
    ensures var m := |offenders| - 1;
            && (forall i :: 0 <= i < m ==> offenders[i] in p && |p[offenders[i]]| == level)
            && (level > threshold ==> Tops(p0, locals, level, Members(offenders[..m])))
  {
    hide AtLevel;
    var m := |offenders| - 1;
    forall i | 0 <= i < m ensures offenders[i] in p && |p[offenders[i]]| == level {
      assert offenders[i] in offenders;
      AtLevelLength(p0, p, locals, limit, level, offenders[i]);
    }
    if level > threshold {
      forall a ensures a in offenders[..m] <==> a in p0 && a !in locals && |p0[a]| >= level {
        assert a in offenders <==> a in offenders[..m] || a == offenders[m];
        assert Big(p0, locals, slots, a) <==> a in offenders || a in spammers;
      }
    }
  }

  lemma {:induction false} AtLevelLength(p0: Accounts, p: Accounts, locals: set<Address>, limit: nat, level: nat, a: Address)
    requires AtLevel(p0, p, locals, limit, level) && a in p0 && a !in locals
    ensures a in p && |p[a]| == if |p0[a]| <= level then |p0[a]| else level
  {
    TopLength(p0, p, locals, level, a);
  }

  lemma {:induction false} LowerLevel(
    p0: Accounts, p: Accounts, p': Accounts, locals: set<Address>, limit: nat, level: nat, members: set<Address>
  )
    requires AtLevel(p0, p, locals, limit, level) && level > 0 && Size(p) > limit
    requires Tops(p0, locals, level, members) && Lowered(p, p', members)
    ensures AtLevel(p0, p', locals, limit, level - 1)
  {
    RoundLowers(p0, p, p', locals, level, members);
    LeveledSize(p0, p, locals, level);
  }

  lemma {:induction false} EqualiseRound(
    p0: Accounts, p: Accounts, p': Accounts, locals: set<Address>, slots: nat, limit: nat,
    offenders: seq<Address>, spammers: set<Address>, level: nat, threshold: nat
  )
    requires Equalising(p0, p, locals, slots, limit, offenders, spammers, level, threshold)
    requires level > threshold && Size(p) > limit && Lowered(p, p', Members(offenders[..|offenders| - 1]))
    ensures Equalising(p0, p', locals, slots, limit, offenders, spammers, level - 1, threshold)
  {
    hide AtLevel, Shared, Lowered, Tops;
    EqualiseTops(p0, p, locals, slots, limit, offenders, spammers, level, threshold);
    LowerLevel(p0, p, p', locals, limit, level, Members(offenders[..|offenders| - 1]));
  }

  lemma {:induction false} EqualiseEnd(
    p0: Accounts, p: Accounts, locals: set<Address>, slots: nat, limit: nat,
    offenders: seq<Address>, spammers: set<Address>, level: nat, threshold: nat
  )
    requires Equalising(p0, p, locals, slots, limit, offenders, spammers, level, threshold)
    requires Size(p) <= limit || level == threshold
    ensures Filling(p0, p, locals, slots, limit, offenders, spammers, level)
  {
    hide AtLevel, Shared;
  }

  lemma {:induction false} FinalTops(
    p0: Accounts, p: Accounts, locals: set<Address>, slots: nat, limit: nat, offenders: seq<Address>, level: nat
  )
    requires Filling(p0, p, locals, slots, limit, offenders, {}, level) && offenders != [] && Size(p) > limit
    ensures forall i :: 0 <= i < |offenders| ==> offenders[i] in p && |p[offenders[i]]| == level
    ensures level > slots ==> Tops(p0, locals, level, Members(offenders))
  {
    hide AtLevel;
    forall i | 0 <= i < |offenders| ensures offenders[i] in p && |p[offenders[i]]| == level {
      assert offenders[i] in offenders;
      AtLevelLength(p0, p, locals, limit, level, offenders[i]);
    }
    if level > slots {
      forall a ensures a in offenders <==> a in p0 && a !in locals && |p0[a]| >= level {
        assert Big(p0, locals, slots, a) <==> a in offenders || a in {};
      }
    }
  }

  lemma {:induction false} FinalRound(
    p0: Accounts, p: Accounts, p': Accounts, locals: set<Address>, slots: nat, limit: nat, offenders: seq<Address>, level: nat
  )
    requires Filling(p0, p, locals, slots, limit, offenders, {}, level) && offenders != [] && Size(p) > limit
    requires level > slots && Lowered(p, p', Members(offenders))
    ensures Filling(p0, p', locals, slots, limit, offenders, {}, level - 1)
  {
    hide AtLevel, Shared, Lowered, Tops;
    FinalTops(p0, p, locals, slots, limit, offenders, level);
    LowerLevel(p0, p, p', locals, limit, level, Members(offenders));
  }

  /** The lists are at a level no lower than the floor; one level up is over the limit;
      and if this level is over the limit too, it is the floor. */
  ghost predicate Watered(p0: Accounts, p: Accounts, locals: set<Address>, slots: nat, limit: nat, level: nat) {
    && AtLevel(p0, p, locals, limit, level) && slots <= level
    && (Size(p) <= limit || level == slots)
  }

  lemma {:induction false} FillingEnd(
    p0: Accounts, p: Accounts, locals: set<Address>, slots: nat, limit: nat,
    offenders: seq<Address>, spammers: set<Address>, level: nat
  )
    requires Filling(p0, p, locals, slots, limit, offenders, spammers, level)
    requires Size(p) <= limit || spammers == {}
    requires Size(p) <= limit || offenders == [] || level == slots
    ensures Watered(p0, p, locals, slots, limit, if offenders == [] then slots else level)
  {
    if offenders == [] {
      forall a | a in p0 && a !in locals ensures |p0[a]| <= slots {
        assert !Big(p0, locals, slots, a);
      }
      Untouched(p0, locals, slots);
    }
  }

  /** The level reached is the largest one within the limit, or the floor if there is none above it. */
  lemma {:induction false} LevelIsLargest(p0: Accounts, p: Accounts, locals: set<Address>, slots: nat, limit: nat, level: nat, other: nat)
    requires Watered(p0, p, locals, slots, limit, level) && slots <= other
    ensures LevelSize(p0, locals, other) <= limit ==> other <= level && LevelSize(p0, locals, level) <= limit
    ensures Size(p) == LevelSize(p0, locals, level)
  {
    hide Leveled, LevelSize;
    LeveledSize(p0, p, locals, level);
    if other > level {
      HigherKeepsMore(p0, locals, level + 1, other);
    } else {
      HigherKeepsMore(p0, locals, slots, other);
    }
  }

  lemma {:induction false} LargestExists(p0: Accounts, s: set<Address>) returns (o: Address)
    requires s != {}
    ensures o in s && forall a :: a in s ==> |Of(p0, a)| <= |Of(p0, o)|
    decreases s
  {
    var x :| x in s;
    o := x;
    if s - {x} != {} {
      var y := LargestExists(p0, s - {x});
      if |Of(p0, y)| > |Of(p0, x)| {
        o := y;
      }
    }
    forall a | a in s ensures |Of(p0, a)| <= |Of(p0, o)| {
      assert a == x || a in s - {x};
    }
  }
}
