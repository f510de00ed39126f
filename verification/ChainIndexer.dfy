/** The chain indexer: it processes sections of the canonical chain without holding its lock, while new
    heads, reorganisations and rewrites of the canonical index happen around it. */
module ChainIndexer {
  import opened Common
  import opened BlockTree

  /** Following `n` parent links from the block `h` of the given number, through stored headers of
      consecutive numbers, arrives at `target`. */
  ghost predicate LinkedTo(t: Tree, h: Hash, number: int, n: nat, target: Hash)
    decreases n
  {
    if n == 0 then h == target
    else h in t && t[h].number == number && LinkedTo(t, t[h].parent, number - 1, n - 1, target)
  }

  lemma {:induction false} LinkedGrows(t: Tree, t': Tree, h: Hash, number: int, n: nat, target: Hash)
    requires LinkedTo(t, h, number, n, target)
    requires forall x :: x in t ==> x in t' && t'[x] == t[x]
    ensures LinkedTo(t', h, number, n, target)
    decreases n
  {
    if n > 0 {
      LinkedGrows(t, t', t[h].parent, number - 1, n - 1, target);
    }
  }

  lemma {:induction false} LinkedConcat(t: Tree, h: Hash, number: int, n: nat, mid: Hash, m: nat, target: Hash)
    requires LinkedTo(t, h, number, n, mid) && LinkedTo(t, mid, number - n, m, target)
    ensures LinkedTo(t, h, number, n + m, target)
    decreases n
  {
    if n > 0 {
      LinkedConcat(t, t[h].parent, number - 1, n - 1, mid, m, target);
    }
  }

  // ----- sections -----

  /** The number of the first block of a section; the last block of section i is FirstOf(i + 1) - 1. */
  function FirstOf(size: nat, section: nat): (n: nat)
  {
    section * size
  }

  lemma {:induction false} SectionLength(size: nat, section: nat)
    ensures FirstOf(size, section + 1) == FirstOf(size, section) + size
  {
  }

  /** The block a section must build on: the head of the section before it, and nothing for the first. */
  ghost function PrevHead(heads: map<nat, Hash>, section: nat): Hash
    requires section > 0 ==> section - 1 in heads
  {
    if section == 0 then ZERO_HASH else heads[section - 1]
  }

  /** Section `i` is stored: its head has the section's last number and lies one section above the head
      of the section before. */
  ghost predicate SectionStored(t: Tree, size: nat, heads: map<nat, Hash>, i: nat) {
    && i in heads && (i > 0 ==> i - 1 in heads)
    && LinkedTo(t, heads[i], FirstOf(size, i + 1) - 1, size, PrevHead(heads, i))
  }

  /** Heads exist exactly for the stored sections, and each continues the one before. */
  ghost predicate Chained(t: Tree, size: nat, heads: map<nat, Hash>, stored: nat) {
    && (forall i :: i in heads <==> 0 <= i < stored)
    && (forall i: nat {:trigger SectionStored(t, size, heads, i)} :: i < stored ==> SectionStored(t, size, heads, i))
  }

  lemma {:induction false} ChainedGrows(t: Tree, t': Tree, size: nat, heads: map<nat, Hash>, stored: nat)
    requires Chained(t, size, heads, stored)
    requires forall x :: x in t ==> x in t' && t'[x] == t[x]
    ensures Chained(t', size, heads, stored)
  {
    forall i: nat | i < stored ensures SectionStored(t', size, heads, i) {
      assert SectionStored(t, size, heads, i);
      LinkedGrows(t, t', heads[i], FirstOf(size, i + 1) - 1, size, PrevHead(heads, i));
    }
  }

  /** Removing the head of the last section keeps the rest chained. */
  lemma {:induction false} ChainedPop(t: Tree, size: nat, heads: map<nat, Hash>, stored: nat)
    requires stored > 0 && Chained(t, size, heads, stored)
    ensures Chained(t, size, heads - {stored - 1}, stored - 1)
  {
    var rest := heads - {stored - 1};
    forall i: nat | i < stored - 1 ensures SectionStored(t, size, rest, i) {
      assert SectionStored(t, size, heads, i);
    }
  }

  /** A processed section that continues the last stored one extends the chain. */
  lemma {:induction false} ChainedPush(t: Tree, size: nat, heads: map<nat, Hash>, stored: nat, head: Hash)
    requires Chained(t, size, heads, stored)
    requires LinkedTo(t, head, FirstOf(size, stored + 1) - 1, size, PrevHead(heads, stored))
    ensures Chained(t, size, heads[stored := head], stored + 1)
  {
    var more := heads[stored := head];
    forall i: nat | i < stored + 1 ensures SectionStored(t, size, more, i) {
      if i < stored {
        assert SectionStored(t, size, heads, i);
      }
    }
  }

  lemma {:induction false} StoredHeadIsBlock(t: Tree, size: nat, heads: map<nat, Hash>, stored: nat, i: nat)
    requires Chained(t, size, heads, stored) && i < stored && size > 0 && ZERO_HASH !in t
    ensures heads[i] in t && heads[i] != ZERO_HASH && t[heads[i]].number == FirstOf(size, i + 1) - 1
  {
    assert SectionStored(t, size, heads, i);
  }

  // ----- rolling back, step by step -----

  function Min(a: nat, b: nat): nat {
    if a < b then a else b
  }

  function Max(a: nat, b: nat): nat {
    if a < b then b else a
  }

  /** The index database and the cached number of valid sections. */
  datatype Index = Index(count: nat, stored: nat, heads: map<nat, Hash>)

  datatype Stage = Putting | Testing | Lowering | Removing | Assigning | Finished

  /** Setting the number of valid sections, in progress. */
  datatype Rollback = Rollback(target: nat, stage: Stage)

  /** Decrementing an unsigned 64-bit number, which wraps around. */
  function Lower(n: nat): nat {
    if n == 0 then MAX_UINT64 else n - 1
  }

  /** The next statement: write the count; then test, lower the number and remove the head it now names, until the
      test fails; then assign the number. */
  function Advance(ix: Index, r: Rollback): (Index, Rollback) {
    match r.stage
    case Putting => (ix.(count := r.target), r.(stage := Testing))
    case Testing => (ix, r.(stage := if ix.stored > r.target then Lowering else Assigning))
    case Lowering => (ix.(stored := Lower(ix.stored)), r.(stage := Removing))
    case Removing => (ix.(heads := ix.heads - {ix.stored}), r.(stage := Testing))
    case Assigning => (ix.(stored := r.target), r.(stage := Finished))
    case Finished => (ix, r)
  }

  function Steps(ix: Index, r: Rollback, n: nat): (Index, Rollback)
    decreases n
  {
    if n == 0 then (ix, r) else var next := Advance(ix, r); Steps(next.0, next.1, n - 1)
  }

  /** The sections above the target are dropped, highest first. */
  function Popped(ix: Index, target: nat): Index
    decreases ix.stored
  {
    if ix.stored > target then Popped(Index(ix.count, ix.stored - 1, ix.heads - {ix.stored - 1}), target) else ix
  }

  /** What a rollback that nothing interrupts does. */
  function Complete(ix: Index, target: nat): Index {
    Popped(ix.(count := target), target).(stored := target)
  }

  /** The heads without those of the sections from `lo` up to, not including, `hi`. */
  function Cut(heads: map<nat, Hash>, lo: nat, hi: nat): map<nat, Hash> {
    map i | i in heads && !(lo <= i < hi) :: heads[i]
  }

  /** An uninterrupted rollback drops exactly the heads between the new number and the old one. */
  lemma {:induction false} CompleteCuts(ix: Index, target: nat)
    ensures Complete(ix, target) == Index(target, target, Cut(ix.heads, target, ix.stored))
  {
    PoppedCuts(ix.(count := target), target);
  }

  lemma {:induction false} PoppedCuts(ix: Index, target: nat)
    ensures Popped(ix, target) == Index(ix.count, Min(ix.stored, target), Cut(ix.heads, target, ix.stored))
    decreases ix.stored
  {
    if ix.stored > target {
      var next := Index(ix.count, ix.stored - 1, ix.heads - {ix.stored - 1});
      PoppedCuts(next, target);
      assert Cut(next.heads, target, next.stored) == Cut(ix.heads, target, ix.stored);
    } else {
      assert Cut(ix.heads, target, ix.stored) == ix.heads;
    }
  }

  lemma {:induction false} StepsDone(ix: Index, target: nat, n: nat)
    ensures Steps(ix, Rollback(target, Finished), n) == (ix, Rollback(target, Finished))
    decreases n
  {
    if n > 0 {
      StepsDone(ix, target, n - 1);
    }
  }

  lemma {:induction false} StepsNext(ix: Index, r: Rollback, n: nat)
    ensures var before := Steps(ix, r, n); Steps(ix, r, n + 1) == Advance(before.0, before.1)
    decreases n
  {
    if n > 0 {
      var next := Advance(ix, r);
      StepsNext(next.0, next.1, n - 1);
    }
  }

  /** Heads exist exactly for the valid sections. */
  ghost predicate Exact(ix: Index) {
    forall i :: i in ix.heads <==> 0 <= i < ix.stored
  }

  /** A rollback that nothing interrupts gets there by its steps. */
  lemma {:induction false} StepsComplete(ix: Index, target: nat)
    ensures Steps(ix, Rollback(target, Putting), 3 * (Max(ix.stored, target) - target) + 3)
            == (Complete(ix, target), Rollback(target, Finished))
  {
    PopSteps(ix.(count := target), target);
  }

  lemma {:induction false} PopSteps(ix: Index, target: nat)
    ensures Steps(ix, Rollback(target, Testing), 3 * (Max(ix.stored, target) - target) + 2)
            == (Popped(ix, target).(stored := target), Rollback(target, Finished))
    decreases ix.stored
  {
    var n := 3 * (Max(ix.stored, target) - target) + 2;
    if ix.stored > target {
      var low := ix.(stored := ix.stored - 1);
      var next := low.(heads := ix.heads - {ix.stored - 1});
      assert Steps(ix, Rollback(target, Testing), n) == Steps(ix, Rollback(target, Lowering), n - 1);
      assert Steps(ix, Rollback(target, Lowering), n - 1) == Steps(low, Rollback(target, Removing), n - 2);
      assert Steps(low, Rollback(target, Removing), n - 2) == Steps(next, Rollback(target, Testing), n - 3);
      PopSteps(next, target);
    } else {
      assert Steps(ix, Rollback(target, Testing), 2) == Steps(ix, Rollback(target, Assigning), 1);
      assert Steps(ix, Rollback(target, Assigning), 1) == Steps(ix.(stored := target), Rollback(target, Finished), 0);
    }
  }

  /** A rollback that nothing interrupts leaves exactly the heads of the valid sections and the right count. */
  lemma {:induction false} Alone(ix: Index, target: nat)
    requires Exact(ix) && target <= ix.stored
    ensures var end := Complete(ix, target);
            && Exact(end) && end.stored == target && end.count == target
            && forall i :: i in end.heads ==> i in ix.heads && end.heads[i] == ix.heads[i]
    decreases ix.stored
  {
    if ix.stored > target {
      Alone(Index(ix.count, ix.stored - 1, ix.heads - {ix.stored - 1}), target);
    }
  }

  // ----- two rollbacks at once -----

  /** The rollback after a failed reset of the backend, which runs without the lock, and one of a new head. */
  datatype Race = Race(ix: Index, reset: Rollback, head: Rollback)

  datatype Who = Reset | Head

  function Mover(race: Race, who: Who): Rollback {
    if who == Reset then race.reset else race.head
  }

  function Other(race: Race, who: Who): Rollback {
    if who == Reset then race.head else race.reset
  }

  function Move(race: Race, who: Who): Race {
    var next := Advance(race.ix, Mover(race, who));
    if who == Reset then Race(next.0, next.1, race.head) else Race(next.0, race.reset, next.1)
  }

  /** The race after the first `n` steps of an interleaving. */
  function At(start: Race, turns: seq<Who>, n: nat): Race
    requires n <= |turns|
  {
    if n == 0 then start else Move(At(start, turns, n - 1), turns[n - 1])
  }

  /** Whose step of the given kind came last. */
  function Last(start: Race, turns: seq<Who>, n: nat, stage: Stage): Option<Who>
    requires n <= |turns|
  {
    if n == 0 then None
    else if Mover(At(start, turns, n - 1), turns[n - 1]).stage == stage then Some(turns[n - 1])
    else Last(start, turns, n - 1, stage)
  }

  /** Both rollbacks are about to begin, over an index in which nothing is missing. */
  ghost predicate Begins(start: Race, k: nat) {
    && Exact(start.ix) && start.ix.stored <= MAX_UINT64 && k > 0
    && start.reset == Rollback(0, Putting) && start.head == Rollback(k, Putting)
  }

  predicate InLoop(r: Rollback) {
    r.stage.Lowering? || r.stage.Removing?
  }

  /** Step `m` lowers the number past a section whose head is still there. */
  predicate Skips(start: Race, turns: seq<Who>, m: nat) {
    m < |turns| && var race := At(start, turns, m);
    Mover(race, turns[m]).stage.Lowering? && race.ix.stored in race.ix.heads
  }

  /** Step `m` removes the head of section `i`, if there is one. */
  predicate Removes(start: Race, turns: seq<Who>, m: nat, i: nat) {
    m < |turns| && var race := At(start, turns, m);
    Mover(race, turns[m]).stage.Removing? && race.ix.stored == i
  }

  /** Every section that is skipped is removed later. */
  ghost predicate Revisits(start: Race, turns: seq<Who>) {
    forall m: nat {:trigger Skips(start, turns, m)} :: Skips(start, turns, m) ==>
      exists p: nat {:trigger Removes(start, turns, p, At(start, turns, m).ix.stored)} ::
        m < p && Removes(start, turns, p, At(start, turns, m).ix.stored)
  }

  ghost function Skipped(start: Race, turns: seq<Who>, n: nat): set<nat>
    requires n <= |turns|
  {
    if n == 0 then {}
    else Skipped(start, turns, n - 1) + if Skips(start, turns, n - 1) then {At(start, turns, n - 1).ix.stored} else {}
  }

  lemma {:induction false} SkippedAt(start: Race, turns: seq<Who>, n: nat, i: nat)
    requires n <= |turns| && i in Skipped(start, turns, n)
    ensures exists m: nat {:trigger Skips(start, turns, m)} :: m < n && Skips(start, turns, m) && At(start, turns, m).ix.stored == i
  {
    if i !in Skipped(start, turns, n - 1) {
      assert Skips(start, turns, n - 1);
    } else {
      SkippedAt(start, turns, n - 1, i);
    }
  }

  /** What every interleaving keeps: a head is below the number, or about to be removed, or was skipped. */
  ghost predicate Accounted(race: Race, skipped: set<nat>, k: nat) {
    && race.reset.target == 0 && race.head.target == k > 0
    && (forall i :: i in race.ix.heads ==> i < MAX_UINT64)
    && (forall i :: i in race.ix.heads ==>
          i < race.ix.stored || (i == race.ix.stored && SomeoneRemoves(race)) || i in skipped)
    && (race.head.stage.Assigning? ==> forall i :: i in race.ix.heads ==>
          i < k || (i == k == race.ix.stored && race.reset.stage.Removing?) || i in skipped)
    && (race.reset.stage.Assigning? || race.reset.stage.Finished? ==> forall i :: i in race.ix.heads ==>
          (i == 0 == race.ix.stored && race.head.stage.Removing?) || (i in skipped && i != 0))
    && (race.ix.stored == 0 && 0 in race.ix.heads ==> SomeoneRemoves(race))
  }

  predicate SomeoneRemoves(race: Race) {
    race.reset.stage.Removing? || race.head.stage.Removing?
  }

  lemma {:induction false} MoveAccounted(race: Race, skipped: set<nat>, k: nat, who: Who)
    requires Accounted(race, skipped, k)
    ensures var skips := Mover(race, who).stage.Lowering? && race.ix.stored in race.ix.heads;
            Accounted(Move(race, who), skipped + if skips then {race.ix.stored} else {}, k)
  {
  }

  /** The last number written and assigned are those of the rollback whose turn it was. */
  ghost predicate Written(start: Race, turns: seq<Who>, n: nat)
    requires n <= |turns|
  {
    var race, puts, sets := At(start, turns, n), Last(start, turns, n, Putting), Last(start, turns, n, Assigning);
    && (!race.reset.stage.Putting? || !race.head.stage.Putting? ==> puts.Some?)
    && (puts.Some? ==> race.ix.count == Mover(race, puts.value).target)
    && (race.reset.stage.Finished? && race.head.stage.Finished? ==> sets.Some? && race.ix.stored == Mover(race, sets.value).target)
  }

  lemma {:induction false} RaceKeeps(start: Race, k: nat, turns: seq<Who>, n: nat)
    requires Begins(start, k) && n <= |turns|
    ensures Accounted(At(start, turns, n), Skipped(start, turns, n), k) && Written(start, turns, n)
  {
    hide Accounted, Written, Begins;
    if n > 0 {
      RaceKeeps(start, k, turns, n - 1);
      MoveAccounted(At(start, turns, n - 1), Skipped(start, turns, n - 1), k, turns[n - 1]);
      WrittenNext(start, turns, n);
    } else {
      RaceBegins(start, k, turns);
    }
  }

  lemma {:induction false} RaceBegins(start: Race, k: nat, turns: seq<Who>)
    requires Begins(start, k)
    ensures Accounted(At(start, turns, 0), {}, k) && Written(start, turns, 0)
  {
  }

  lemma {:induction false} WrittenNext(start: Race, turns: seq<Who>, n: nat)
    requires 0 < n <= |turns| && Written(start, turns, n - 1)
    ensures Written(start, turns, n)
  {
    hide At;
    OneMove(start, turns, n - 1);
  }

  /** Heads are only ever removed. */
  lemma {:induction false} HeadsShrink(start: Race, turns: seq<Who>, m: nat, n: nat, i: nat)
    requires m <= n <= |turns| && i in At(start, turns, n).ix.heads
    ensures i in At(start, turns, m).ix.heads
    ensures forall p: nat {:trigger Removes(start, turns, p, i)} :: m <= p < n ==> !Removes(start, turns, p, i)
    decreases n
  {
    if m < n {
      HeadsShrink(start, turns, m, n - 1, i);
    }
  }

  /** A head that disappears is removed by one of the steps. */
  lemma {:induction false} HeadRemoved(start: Race, turns: seq<Who>, m: nat, n: nat, i: nat)
    requires m <= n <= |turns| && i in At(start, turns, m).ix.heads && i !in At(start, turns, n).ix.heads
    ensures exists p: nat {:trigger Removes(start, turns, p, i)} :: m <= p < n && Removes(start, turns, p, i)
    decreases n
  {
    if i in At(start, turns, n - 1).ix.heads {
      assert Removes(start, turns, n - 1, i);
    } else {
      HeadRemoved(start, turns, m, n - 1, i);
    }
  }

  /** Both rollbacks over: no head is left exactly if every skipped section was removed later, and the head of
      the first section never is. */
  lemma {:induction false} HeadsLeft(start: Race, k: nat, turns: seq<Who>)
    requires Begins(start, k)
    requires At(start, turns, |turns|).reset.stage.Finished? && At(start, turns, |turns|).head.stage.Finished?
    ensures var heads := At(start, turns, |turns|).ix.heads; 0 !in heads && (heads == map[] <==> Revisits(start, turns))
  {
    hide At, Accounted;
    var n := |turns|;
    var heads := At(start, turns, n).ix.heads;
    RaceKeeps(start, k, turns, n);
    LeftWereSkipped(At(start, turns, n), Skipped(start, turns, n), k);
    if heads == map[] {
      forall m: nat {:trigger Skips(start, turns, m)} | Skips(start, turns, m)
        ensures exists p: nat {:trigger Removes(start, turns, p, At(start, turns, m).ix.stored)} ::
                  m < p && Removes(start, turns, p, At(start, turns, m).ix.stored)
      {
        var i := At(start, turns, m).ix.stored;
        HeadRemoved(start, turns, m, n, i);
        var p: nat :| m <= p < n && Removes(start, turns, p, i);
        assert p != m;
      }
    }
    if Revisits(start, turns) {
      forall i | i in heads ensures false {
        SkippedAt(start, turns, n, i);
        var m: nat :| m < n && Skips(start, turns, m) && At(start, turns, m).ix.stored == i;
        HeadsShrink(start, turns, m, n, i);
      }
    }
  }

  lemma {:induction false} LeftWereSkipped(race: Race, skipped: set<nat>, k: nat)
    requires Accounted(race, skipped, k) && race.reset.stage.Finished? && race.head.stage.Finished?
    ensures 0 !in race.ix.heads && forall i :: i in race.ix.heads ==> i in skipped
  {
  }

  /** Exactly when the index survives two overlapping rollbacks, over all interleavings of their statements: the
      heads are those of the valid sections if and only if the assignment of zero comes last and every section that the
      number was lowered past while its head was still there is removed later; and the count agrees with the number of
      valid sections if and only if one rollback wrote both last. */
  lemma {:induction false} RaceSurvives(start: Race, k: nat, turns: seq<Who>)
    requires Begins(start, k)
    requires At(start, turns, |turns|).reset.stage.Finished? && At(start, turns, |turns|).head.stage.Finished?
    ensures var end := At(start, turns, |turns|).ix;
            var puts, sets := Last(start, turns, |turns|, Putting), Last(start, turns, |turns|, Assigning);
            && puts.Some? && sets.Some?
            && end.stored == (if sets == Some(Reset) then 0 else k) && end.count == (if puts == Some(Reset) then 0 else k)
            && (Exact(end) <==> sets == Some(Reset) && Revisits(start, turns))
            && (end.count == end.stored <==> puts == sets)
  {
    hide Revisits;
    RaceKeeps(start, k, turns, |turns|);
    HeadsLeft(start, k, turns);
    var end := At(start, turns, |turns|).ix;
    assert Exact(end) && end.stored == 0 ==> end.heads == map[];
  }

  /** No step of one rollback falls between a test of the other and the removal after it. */
  ghost predicate Apart(start: Race, turns: seq<Who>) {
    forall m {:trigger At(start, turns, m)} :: 0 <= m < |turns| ==> !InLoop(Other(At(start, turns, m), turns[m]))
  }

  lemma {:induction false} OtherOutside(start: Race, turns: seq<Who>, m: nat)
    requires m < |turns| && Apart(start, turns)
    ensures !InLoop(Other(At(start, turns, m), turns[m]))
  {
    hide At;
  }

  lemma {:induction false} AloneNeverSkips(race: Race, k: nat, who: Who)
    requires Accounted(race, {}, k) && !InLoop(Other(race, who))
    ensures Mover(race, who).stage.Lowering? ==> race.ix.stored !in race.ix.heads
  {
  }

  lemma {:induction false} ApartNeverSkips(start: Race, k: nat, turns: seq<Who>, n: nat)
    requires Begins(start, k) && n <= |turns| && Apart(start, turns)
    ensures Skipped(start, turns, n) == {} && forall m: nat {:trigger Skips(start, turns, m)} :: m < n ==> !Skips(start, turns, m)
  {
    hide Begins, Written, Accounted, Apart, At;
    if n > 0 {
      ApartNeverSkips(start, k, turns, n - 1);
      RaceKeeps(start, k, turns, n - 1);
      OtherOutside(start, turns, n - 1);
      AloneNeverSkips(At(start, turns, n - 1), k, turns[n - 1]);
    }
  }

  /** Rollbacks whose iterations do not overlap always remove every head, so then only the last assignment counts. */
  lemma {:induction false} ApartSurvives(start: Race, k: nat, turns: seq<Who>)
    requires Begins(start, k) && Apart(start, turns)
    requires At(start, turns, |turns|).reset.stage.Finished? && At(start, turns, |turns|).head.stage.Finished?
    ensures var end := At(start, turns, |turns|).ix;
            end.heads == map[] && (Exact(end) <==> Last(start, turns, |turns|, Assigning) == Some(Reset))
  {
    ApartNeverSkips(start, k, turns, |turns|);
    RaceSurvives(start, k, turns);
    HeadsLeft(start, k, turns);
  }

  // ----- races that are lost -----

  const TWO_SECTIONS_TO_ONE: Rollback := Rollback(1, Putting)

  function TwoSections(h0: Hash, h1: Hash): Race {
    Race(Index(2, 2, map[0 := h0, 1 := h1]), Rollback(0, Putting), TWO_SECTIONS_TO_ONE)
  }

  lemma {:induction false} OneMove(start: Race, turns: seq<Who>, n: nat)
    requires n < |turns|
    ensures At(start, turns, n + 1) == Move(At(start, turns, n), turns[n])
  {
  }

  /** The new head writes its count and is held up, the failed reset removes everything, and then the new head
      assigns its number to an index without heads. */
  lemma {:induction false} RaceLoses(h0: Hash, h1: Hash)
    ensures var turns := [Head, Reset, Reset, Reset, Reset, Reset, Reset, Reset, Reset, Reset, Head, Head];
            var end := At(TwoSections(h0, h1), turns, 12);
            && Begins(TwoSections(h0, h1), 1) && Apart(TwoSections(h0, h1), turns)
            && end == Race(Index(0, 1, map[]), Rollback(0, Finished), Rollback(1, Finished)) && !Exact(end.ix)
  {
    hide At;
    var start, turns := TwoSections(h0, h1), [Head, Reset, Reset, Reset, Reset, Reset, Reset, Reset, Reset, Reset, Head, Head];
    var both := map[0 := h0, 1 := h1];
    var one := both - {1};
    AtStart(start, turns);
    OneMove(start, turns, 0);
    OneMove(start, turns, 1);
    assert At(start, turns, 2) == Race(Index(0, 2, both), Rollback(0, Testing), Rollback(1, Testing));
    OneMove(start, turns, 2);
    OneMove(start, turns, 3);
    OneMove(start, turns, 4);
    assert At(start, turns, 5) == Race(Index(0, 1, one), Rollback(0, Testing), Rollback(1, Testing));
    OneMove(start, turns, 5);
    OneMove(start, turns, 6);
    OneMove(start, turns, 7);
    assert one - {0} == map[];
    assert At(start, turns, 8) == Race(Index(0, 0, map[]), Rollback(0, Testing), Rollback(1, Testing));
    OneMove(start, turns, 8);
    OneMove(start, turns, 9);
    OneMove(start, turns, 10);
    OneMove(start, turns, 11);
    assert 0 !in At(start, turns, 12).ix.heads;
  }

  lemma {:induction false} AtStart(start: Race, turns: seq<Who>)
    ensures At(start, turns, 0) == start
  {
  }

  /** Both test, both lower, and both remove the head of the first section: that of the second is left although the
      assignment of zero comes last. */
  lemma {:induction false} RaceSkips(h0: Hash, h1: Hash)
    ensures var turns := [Reset, Head, Reset, Head, Reset, Head, Reset, Head, Reset, Head, Head, Reset];
            var end := At(TwoSections(h0, h1), turns, 12);
            && Begins(TwoSections(h0, h1), 1) && Skips(TwoSections(h0, h1), turns, 5)
            && end == Race(Index(1, 0, map[1 := h1]), Rollback(0, Finished), Rollback(1, Finished)) && !Exact(end.ix)
  {
    hide At;
    var start, turns := TwoSections(h0, h1), [Reset, Head, Reset, Head, Reset, Head, Reset, Head, Reset, Head, Head, Reset];
    var both := map[0 := h0, 1 := h1];
    AtStart(start, turns);
    OneMove(start, turns, 0);
    OneMove(start, turns, 1);
    OneMove(start, turns, 2);
    OneMove(start, turns, 3);
    assert At(start, turns, 4) == Race(Index(1, 2, both), Rollback(0, Lowering), Rollback(1, Lowering));
    OneMove(start, turns, 4);
    OneMove(start, turns, 5);
    assert At(start, turns, 6) == Race(Index(1, 0, both), Rollback(0, Removing), Rollback(1, Removing));
    OneMove(start, turns, 6);
    OneMove(start, turns, 7);
    assert both - {0} - {0} == map[1 := h1];
    assert At(start, turns, 8) == Race(Index(1, 0, map[1 := h1]), Rollback(0, Testing), Rollback(1, Testing));
    OneMove(start, turns, 8);
    OneMove(start, turns, 9);
    OneMove(start, turns, 10);
    OneMove(start, turns, 11);
    assert 1 in At(start, turns, 12).ix.heads;
  }

  /** The new head tests and is held up, the failed reset lowers the number to zero, and then the new head lowers it
      once more: it wraps around. */
  lemma {:induction false} RaceWraps(h0: Hash, h1: Hash)
    ensures var turns := [Head, Head, Reset, Reset, Reset, Reset, Reset, Reset, Reset, Head];
            At(TwoSections(h0, h1), turns, 10).ix.stored == MAX_UINT64
  {
    hide At;
    var start, turns := TwoSections(h0, h1), [Head, Head, Reset, Reset, Reset, Reset, Reset, Reset, Reset, Head];
    AtStart(start, turns);
    OneMove(start, turns, 0);
    OneMove(start, turns, 1);
    OneMove(start, turns, 2);
    OneMove(start, turns, 3);
    OneMove(start, turns, 4);
    OneMove(start, turns, 5);
    OneMove(start, turns, 6);
    OneMove(start, turns, 7);
    OneMove(start, turns, 8);
    OneMove(start, turns, 9);
  }

  // ----- the indexer as a state machine -----

  /** Where an update outside the lock stands: asking the backend to reset, processing blocks, undoing everything
      because the backend could not reset, or failed and waiting for the lock. */
  datatype State = Resetting | Processing | RollingBack(stage: Stage) | Failed(emptied: bool)

  /** A section being processed: what it builds on, the next number to read and the last block read. */
  datatype Job = Job(section: nat, oldHead: Hash, number: nat, lastHead: Hash, state: State)

  datatype Event =
    | NewHead(head: nat, reorg: bool)
    | NewHeadStep
    | ChainMoves(headers: Tree, canonical: map<nat, Hash>)
    | Update
    | ResetBackend(resets: bool)
    | RollbackStep
    | ProcessNext(processes: bool)
    | Commit(commits: bool)
    | Relock

  datatype Config = Config(size: nat, confirms: nat)

  /** The chain database, the index, and what is known and under way. The handler is a rollback of a new head, which
      holds the lock. */
  datatype Sys = Sys(headers: Tree, canonical: map<nat, Hash>, ix: Index, known: nat, cascaded: int,
                     job: Option<Job>, handler: Option<Rollback>)

  function SectionHead(ix: Index, section: nat): Hash {
    if section in ix.heads then ix.heads[section] else ZERO_HASH
  }

  /** Only block 0 names no parent. */
  predicate Rooted(t: Tree) {
    forall h :: h in t && t[h].number > 0 ==> t[h].parent != ZERO_HASH
  }

  /** Headers are only ever added. */
  predicate Grows(t: Tree, t': Tree) {
    Rooted(t') && forall x :: x in t ==> x in t' && t'[x] == t[x]
  }

  predicate InState(s: Sys, state: State) {
    s.job.Some? && s.job.value.state == state
  }

  predicate RollsBack(s: Sys) {
    s.job.Some? && s.job.value.state.RollingBack?
  }

  /** A rollback without the lock has begun and the lock has not been taken again. */
  predicate Racing(s: Sys) {
    RollsBack(s) || InState(s, Failed(true))
  }

  /** The section is read to its end. */
  predicate ReadyToCommit(c: Config, s: Sys) {
    s.handler.None? && InState(s, Processing) && s.job.value.number == FirstOf(c.size, s.job.value.section + 1)
  }

  /** A new head, or with `reorg` the common ancestor of a reorganisation. */
  function AfterNewHead(c: Config, s: Sys, head: nat, reorg: bool): Sys
    requires c.size > 0
  {
    if reorg then
      var known := (head + 1) / c.size;
      s.(known := Min(known, s.known),
         cascaded := if known * c.size < s.cascaded then known * c.size else s.cascaded,
         handler := if known < s.ix.stored then Some(Rollback(known, Putting)) else None)
    else if head < c.confirms then s
    else s.(known := Max((head + 1 - c.confirms) / c.size, s.known))
  }

  function AfterNewHeadStep(s: Sys): Sys
    requires s.handler.Some?
  {
    var next := Advance(s.ix, s.handler.value);
    s.(ix := next.0, handler := if next.1.stage.Finished? then None else Some(next.1))
  }

  function AfterUpdate(c: Config, s: Sys): Sys {
    if s.known <= s.ix.stored then s
    else
      var section := s.ix.stored;
      var oldHead := if section == 0 then ZERO_HASH else SectionHead(s.ix, section - 1);
      s.(job := Some(Job(section, oldHead, FirstOf(c.size, section), oldHead, Resetting)))
  }

  function AfterResetBackend(s: Sys, resets: bool): Sys
    requires s.job.Some?
  {
    s.(job := Some(s.job.value.(state := if resets then Processing else RollingBack(Putting))))
  }

  function AfterRollbackStep(s: Sys): Sys
    requires RollsBack(s)
  {
    var next := Advance(s.ix, Rollback(0, s.job.value.state.stage));
    s.(ix := next.0,
       job := Some(s.job.value.(state := if next.1.stage.Finished? then Failed(true) else RollingBack(next.1.stage))))
  }

  /** The next block of the section is canonical, stored, a child of the last one, and the backend takes it. */
  predicate Continues(s: Sys, j: Job, processes: bool) {
    && j.number in s.canonical && s.canonical[j.number] in s.headers
    && s.headers[s.canonical[j.number]] == Header(j.lastHead, j.number) && processes
  }

  function AfterProcessNext(c: Config, s: Sys, processes: bool): Sys
    requires s.job.Some?
  {
    var j := s.job.value;
    if j.number >= FirstOf(c.size, j.section + 1) then s
    else if Continues(s, j, processes) then s.(job := Some(j.(number := j.number + 1, lastHead := s.canonical[j.number])))
    else s.(job := Some(j.(state := Failed(false))))
  }

  function AfterCommit(c: Config, s: Sys, commits: bool): Sys
    requires s.job.Some?
  {
    var j := s.job.value;
    if commits && (j.section == 0 || j.oldHead == SectionHead(s.ix, j.section - 1)) then
      var ix := Complete(s.ix.(heads := s.ix.heads[j.section := j.lastHead]), j.section + 1);
      s.(ix := ix, cascaded := ix.stored * c.size - 1, job := None)
    else s.(known := s.ix.stored, job := None)
  }

  /** One event; one that cannot happen now is passed over. */
  function Next(c: Config, s: Sys, e: Event): Sys
    requires c.size > 0
  {
    match e
    case NewHead(head, reorg) => if s.handler.None? then AfterNewHead(c, s, head, reorg) else s
    case NewHeadStep => if s.handler.Some? then AfterNewHeadStep(s) else s
    case ChainMoves(headers, canonical) =>
      if Grows(s.headers, headers) then s.(headers := headers, canonical := canonical) else s
    case Update => if s.job.None? && s.handler.None? then AfterUpdate(c, s) else s
    case ResetBackend(resets) => if InState(s, Resetting) then AfterResetBackend(s, resets) else s
    case RollbackStep => if RollsBack(s) then AfterRollbackStep(s) else s
    case ProcessNext(processes) => if InState(s, Processing) then AfterProcessNext(c, s, processes) else s
    case Commit(commits) => if ReadyToCommit(c, s) then AfterCommit(c, s, commits) else s
    case Relock =>
      if s.handler.None? && s.job.Some? && s.job.value.state.Failed? then s.(known := s.ix.stored, job := None) else s
  }

  /** The state after the first `n` events. */
  function After(c: Config, s: Sys, events: seq<Event>, n: nat): Sys
    requires c.size > 0 && n <= |events|
  {
    if n == 0 then s else Next(c, After(c, s, events, n - 1), events[n - 1])
  }

  // ----- what the indexer keeps -----

  /** What processing has established so far: the blocks read form one chain down to the old head. Without an
      old head no section but the first gets anywhere. */
  ghost predicate Linked(c: Config, s: Sys, j: Job) {
    && s.ix.stored <= j.section
    && FirstOf(c.size, j.section) <= j.number <= FirstOf(c.size, j.section + 1)
    && LinkedTo(s.headers, j.lastHead, j.number - 1, j.number - FirstOf(c.size, j.section), j.oldHead)
    && (j.section == 0 ==> j.oldHead == ZERO_HASH)
    && (j.section > 0 && j.oldHead == ZERO_HASH ==> j.number == FirstOf(c.size, j.section))
  }

  predicate AboutToRemove(s: Sys) {
    InState(s, RollingBack(Removing)) || (s.handler.Some? && s.handler.value.stage.Removing?)
  }

  ghost predicate JobSound(c: Config, s: Sys, top: nat) {
    s.job.Some? ==>
      match s.job.value.state
      case Resetting => Linked(c, s, s.job.value)
      case Processing => Linked(c, s, s.job.value)
      case RollingBack(stage) =>
        && !stage.Finished? && (stage.Lowering? ==> s.ix.stored > 0) && (stage.Assigning? ==> top == 0)
        && !(InLoop(Rollback(0, stage)) && s.handler.Some? && InLoop(s.handler.value))
      case Failed(emptied) => emptied ==> top == 0
  }

  ghost predicate HandlerSound(s: Sys, top: nat) {
    s.handler.Some? ==>
      var r := s.handler.value;
      && !r.stage.Finished? && (r.stage.Lowering? ==> s.ix.stored > r.target) && (r.stage.Assigning? ==> top <= r.target)
      && (!Racing(s) ==> r.target <= s.ix.stored && (r.stage.Assigning? ==> s.ix.stored == r.target))
  }

  /** The section heads are those of the first `top` sections and form one chain. There are as many as valid
      sections, or one more that is about to be removed; during a rollback without the lock there may be fewer. */
  ghost predicate SoundAt(c: Config, s: Sys, top: nat) {
    && c.size > 0 && Rooted(s.headers) && Chained(s.headers, c.size, s.ix.heads, top)
    && (if Racing(s) then top <= s.ix.stored + (if AboutToRemove(s) then 1 else 0)
        else top == s.ix.stored + (if AboutToRemove(s) then 1 else 0))
    && JobSound(c, s, top) && HandlerSound(s, top)
  }

  ghost predicate Sound(c: Config, s: Sys) {
    exists top: nat :: SoundAt(c, s, top)
  }

  /** One rollback makes a step between a test of the other and the removal after it. */
  predicate Overlaps(s: Sys, e: Event) {
    && RollsBack(s) && s.handler.Some?
    && ((e.NewHeadStep? && InLoop(Rollback(0, s.job.value.state.stage))) || (e.RollbackStep? && InLoop(s.handler.value)))
  }

  /** A rollback after a failed reset is overtaken by a reorganisation: their iterations overlap, or it takes the
      lock again when it was not the last to assign the number of sections. */
  predicate Overtakes(s: Sys, e: Event) {
    Overlaps(s, e) || (e.Relock? && s.handler.None? && InState(s, Failed(true)) && s.ix.stored != 0)
  }

  ghost predicate Overtaken(c: Config, s: Sys, events: seq<Event>, n: nat)
    requires c.size > 0 && n <= |events|
  {
    exists m {:trigger After(c, s, events, m)} :: 0 <= m < n && Overtakes(After(c, s, events, m), events[m])
  }

  // ----- each event keeps it -----

  /** A step of one of the rollbacks that does not overlap with the other. */
  lemma {:induction false} StepKeeps(c: Config, s: Sys, top: nat, ix: Index, r: Rollback, next: (Index, Rollback)) returns (top': nat)
    requires Chained(s.headers, c.size, s.ix.heads, top) && ix == s.ix && next == Advance(ix, r) && !r.stage.Finished?
    requires top <= ix.stored + (if r.stage.Removing? then 1 else 0) && (r.stage.Lowering? ==> ix.stored > 0)
    requires r.stage.Assigning? ==> top <= r.target
    ensures Chained(s.headers, c.size, next.0.heads, top')
    ensures top' == if r.stage.Removing? then Min(top, ix.stored) else top
    ensures top' <= next.0.stored + (if next.1.stage.Removing? then 1 else 0)
  {
    top' := top;
    if r.stage.Removing? {
      if top == ix.stored + 1 {
        ChainedPop(s.headers, c.size, ix.heads, top);
        top' := top - 1;
      } else {
        assert ix.heads - {ix.stored} == ix.heads;
      }
    }
  }

  lemma {:induction false} NewHeadStepKeeps(c: Config, s: Sys, top: nat) returns (top': nat)
    requires SoundAt(c, s, top) && s.handler.Some? && !Overlaps(s, NewHeadStep)
    ensures SoundAt(c, AfterNewHeadStep(s), top')
  {
    hide Chained, LinkedTo, Rooted;
    top' := StepKeeps(c, s, top, s.ix, s.handler.value, Advance(s.ix, s.handler.value));
  }

  lemma {:induction false} RollbackStepKeeps(c: Config, s: Sys, top: nat) returns (top': nat)
    requires SoundAt(c, s, top) && RollsBack(s) && !Overlaps(s, RollbackStep)
    ensures SoundAt(c, AfterRollbackStep(s), top')
  {
    hide Chained, LinkedTo, Rooted;
    var r := Rollback(0, s.job.value.state.stage);
    top' := StepKeeps(c, s, top, s.ix, r, Advance(s.ix, r));
  }

  lemma {:induction false} ChainMovesKeeps(c: Config, s: Sys, top: nat, headers: Tree, canonical: map<nat, Hash>)
    requires SoundAt(c, s, top) && Grows(s.headers, headers)
    ensures SoundAt(c, s.(headers := headers, canonical := canonical), top)
  {
    hide Chained, LinkedTo;
    ChainedGrows(s.headers, headers, c.size, s.ix.heads, top);
    if s.job.Some? && (s.job.value.state.Resetting? || s.job.value.state.Processing?) {
      var j := s.job.value;
      LinkedGrows(s.headers, headers, j.lastHead, j.number - 1, j.number - FirstOf(c.size, j.section), j.oldHead);
    }
  }

  lemma {:induction false} NewHeadKeeps(c: Config, s: Sys, top: nat, head: nat, reorg: bool)
    requires SoundAt(c, s, top) && s.handler.None?
    ensures SoundAt(c, AfterNewHead(c, s, head, reorg), top)
  {
    hide Chained, LinkedTo, Rooted;
  }

  lemma {:induction false} ResetBackendKeeps(c: Config, s: Sys, top: nat, resets: bool)
    requires SoundAt(c, s, top) && InState(s, Resetting)
    ensures SoundAt(c, AfterResetBackend(s, resets), top)
  {
    hide Chained, LinkedTo, Rooted;
  }

  lemma {:induction false} UpdateKeeps(c: Config, s: Sys, top: nat)
    requires SoundAt(c, s, top) && s.job.None? && s.handler.None?
    ensures SoundAt(c, AfterUpdate(c, s), top)
  {
    hide Chained, Rooted;
    SectionLength(c.size, s.ix.stored);
  }

  lemma {:induction false} ProcessNextKeeps(c: Config, s: Sys, top: nat, processes: bool)
    requires SoundAt(c, s, top) && InState(s, Processing)
    ensures SoundAt(c, AfterProcessNext(c, s, processes), top)
  {
    hide Chained;
    var j := s.job.value;
    if j.number < FirstOf(c.size, j.section + 1) && Continues(s, j, processes) {
      if j.section > 0 {
        FirstNumber(c.size, j.section);
      }
    }
  }

  lemma {:induction false} FirstNumber(size: nat, section: nat)
    requires size > 0 && section > 0
    ensures FirstOf(size, section) > 0
  {
  }

  /** A complete section whose predecessor's head is still there is the next one to be stored. */
  lemma {:induction false} Committable(c: Config, s: Sys, top: nat)
    requires SoundAt(c, s, top) && ReadyToCommit(c, s)
    ensures var j := s.job.value;
            && LinkedTo(s.headers, j.lastHead, FirstOf(c.size, j.section + 1) - 1, c.size, j.oldHead)
            && (j.section == 0 || j.oldHead == SectionHead(s.ix, j.section - 1) ==>
                  j.section == s.ix.stored == top && j.oldHead == PrevHead(s.ix.heads, top))
  {
    SectionLength(c.size, s.job.value.section);
  }

  lemma {:induction false} CommitKeeps(c: Config, s: Sys, top: nat, commits: bool) returns (top': nat)
    requires SoundAt(c, s, top) && ReadyToCommit(c, s)
    ensures SoundAt(c, AfterCommit(c, s, commits), top')
  {
    hide Chained, LinkedTo, Rooted;
    var j := s.job.value;
    top' := top;
    Committable(c, s, top);
    if commits && (j.section == 0 || j.oldHead == SectionHead(s.ix, j.section - 1)) {
      ChainedPush(s.headers, c.size, s.ix.heads, top, j.lastHead);
      top' := top + 1;
    }
  }

  /** One event keeps the index sound, unless by it a reorganisation overtakes a failed reset. */
  lemma {:induction false} NextKeeps(c: Config, s: Sys, e: Event)
    requires c.size > 0 && Sound(c, s) && !Overtakes(s, e)
    ensures Sound(c, Next(c, s, e))
  {
    hide Chained, Linked, Complete, SectionHead, Continues;
    var top: nat :| SoundAt(c, s, top);
    match e
    case NewHead(head, reorg) =>
      if s.handler.None? {
        NewHeadKeeps(c, s, top, head, reorg);
      }
    case NewHeadStep =>
      if s.handler.Some? {
        var top' := NewHeadStepKeeps(c, s, top);
        assert SoundAt(c, AfterNewHeadStep(s), top');
      }
    case ChainMoves(headers, canonical) =>
      if Grows(s.headers, headers) {
        ChainMovesKeeps(c, s, top, headers, canonical);
      }
    case Update =>
      if s.job.None? && s.handler.None? {
        UpdateKeeps(c, s, top);
      }
    case ResetBackend(resets) =>
      if InState(s, Resetting) {
        ResetBackendKeeps(c, s, top, resets);
      }
    case RollbackStep =>
      if RollsBack(s) {
        var top' := RollbackStepKeeps(c, s, top);
        assert SoundAt(c, AfterRollbackStep(s), top');
      }
    case ProcessNext(processes) =>
      if InState(s, Processing) {
        ProcessNextKeeps(c, s, top, processes);
      }
    case Commit(commits) =>
      if ReadyToCommit(c, s) {
        var top' := CommitKeeps(c, s, top, commits);
        assert SoundAt(c, AfterCommit(c, s, commits), top');
      }
    case Relock =>
      assert SoundAt(c, Next(c, s, e), top);
  }

  /** Over every run in which no failed reset is overtaken the index stays sound. */
  lemma {:induction false} RunKeeps(c: Config, s: Sys, events: seq<Event>, n: nat)
    requires c.size > 0 && Sound(c, s) && n <= |events| && !Overtaken(c, s, events, n)
    ensures Sound(c, After(c, s, events, n))
  {
    hide Sound, Next, Overtakes;
    if n > 0 {
      assert !Overtakes(After(c, s, events, n - 1), events[n - 1]);
      RunKeeps(c, s, events, n - 1);
      NextKeeps(c, After(c, s, events, n - 1), events[n - 1]);
    }
  }

  /** Between rollbacks a sound index has heads for exactly the valid sections, and they form one chain. */
  lemma {:induction false} SoundIsChained(c: Config, s: Sys)
    requires Sound(c, s) && s.handler.None? && !Racing(s)
    ensures Chained(s.headers, c.size, s.ix.heads, s.ix.stored)
  {
  }

  /** After a failed reset that was not overtaken until then, no head is left, so the index is right exactly if the
      number of sections is zero. */
  lemma {:induction false} FailedReset(c: Config, s: Sys)
    requires Sound(c, s) && s.handler.None? && InState(s, Failed(true))
    ensures s.ix.heads == map[] && (Exact(s.ix) <==> s.ix.stored == 0)
  {
    assert s.ix.stored > 0 ==> 0 !in s.ix.heads;
  }

  // ----- what whole sequences of events come to -----

  /** The events from `m` up to, not including, `n` are all the same. */
  ghost predicate AllAre(events: seq<Event>, m: nat, n: nat, e: Event) {
    n <= |events| && forall i :: m <= i < n ==> events[i] == e
  }

  lemma {:induction false} AfterNext(c: Config, s: Sys, events: seq<Event>, n: nat)
    requires c.size > 0 && n < |events|
    ensures After(c, s, events, 0) == s && After(c, s, events, n + 1) == Next(c, After(c, s, events, n), events[n])
  {
  }

  lemma {:induction false} HandlerSteps(c: Config, s: Sys, events: seq<Event>, m: nat, n: nat, r: Rollback)
    requires c.size > 0 && AllAre(events, m, m + n, NewHeadStep) && !r.stage.Finished?
    requires After(c, s, events, m).handler == Some(r)
    ensures var before, next := After(c, s, events, m), Steps(After(c, s, events, m).ix, r, n);
            After(c, s, events, m + n) == before.(ix := next.0, handler := if next.1.stage.Finished? then None else Some(next.1))
    decreases n
  {
    hide AfterNewHead, AfterUpdate, AfterProcessNext, AfterCommit, Complete;
    if n > 0 {
      HandlerSteps(c, s, events, m, n - 1, r);
      StepsNext(After(c, s, events, m).ix, r, n - 1);
      assert After(c, s, events, m + n) == Next(c, After(c, s, events, m + n - 1), NewHeadStep);
    }
  }

  lemma {:induction false} RollbackSteps(c: Config, s: Sys, events: seq<Event>, m: nat, n: nat, stage: Stage)
    requires c.size > 0 && AllAre(events, m, m + n, RollbackStep) && !stage.Finished?
    requires InState(After(c, s, events, m), RollingBack(stage))
    ensures var before, next := After(c, s, events, m), Steps(After(c, s, events, m).ix, Rollback(0, stage), n);
            && next.1.target == 0
            && After(c, s, events, m + n) == before.(
                 ix := next.0,
                 job := Some(before.job.value.(state := if next.1.stage.Finished? then Failed(true) else RollingBack(next.1.stage))))
    decreases n
  {
    if n > 0 {
      RollbackSteps(c, s, events, m, n - 1, stage);
      StepsNext(After(c, s, events, m).ix, Rollback(0, stage), n - 1);
      assert After(c, s, events, m + n) == Next(c, After(c, s, events, m + n - 1), RollbackStep);
    }
  }

  /** A reorganisation and the steps of its rollback lower the number of valid sections to those below the given block,
      and drop exactly the heads of the others. */
  lemma {:induction false} ReorgEnds(c: Config, s: Sys, events: seq<Event>, head: nat)
    requires c.size > 0 && s.handler.None? && events != [] && events[0] == NewHead(head, true)
    requires var known := (head + 1) / c.size;
             |events| == 1 + (if known < s.ix.stored then 3 * (s.ix.stored - known) + 3 else 0)
    requires AllAre(events, 1, |events|, NewHeadStep)
    ensures var known, end := (head + 1) / c.size, After(c, s, events, |events|);
            && end.handler.None? && end.job == s.job
            && end.ix.stored == Min(s.ix.stored, known) && end.known == Min(s.known, known)
            && end.ix.heads == Cut(s.ix.heads, known, s.ix.stored)
            && (known < s.ix.stored ==> end.ix.count == known)
  {
    var known := (head + 1) / c.size;
    AfterNext(c, s, events, 0);
    if known < s.ix.stored {
      var n := 3 * (s.ix.stored - known) + 3;
      HandlerSteps(c, s, events, 1, n, Rollback(known, Putting));
      StepsComplete(s.ix, known);
      CompleteCuts(s.ix, known);
    } else {
      assert Cut(s.ix.heads, known, s.ix.stored) == s.ix.heads;
    }
  }

  /** A new head only raises the number of known sections to those that it confirms. */
  lemma {:induction false} HeadConfirms(c: Config, s: Sys, head: nat)
    requires c.size > 0 && s.handler.None?
    ensures Next(c, s, NewHead(head, false)) ==
              s.(known := if head < c.confirms then s.known else Max(s.known, (head + 1 - c.confirms) / c.size))
  {
  }

  /** The blocks of a section are canonical and stored, and each is the child of the one before, the first of `prev`. */
  ghost predicate Readable(c: Config, s: Sys, section: nat, prev: Hash) {
    forall n {:trigger n in s.canonical} :: FirstOf(c.size, section) <= n < FirstOf(c.size, section + 1) ==>
      && n in s.canonical && s.canonical[n] in s.headers
      && s.headers[s.canonical[n]].number == n
      && s.headers[s.canonical[n]].parent == (if n == FirstOf(c.size, section) then prev
                                              else if n - 1 in s.canonical then s.canonical[n - 1] else ZERO_HASH)
  }

  ghost function LastRead(c: Config, s: Sys, section: nat, prev: Hash, n: nat): Hash {
    if n == FirstOf(c.size, section) || n == 0 || n - 1 !in s.canonical then prev else s.canonical[n - 1]
  }

  lemma {:induction false} SectionReads(c: Config, s: Sys, events: seq<Event>, i: nat, prev: Hash)
    requires c.size > 0 && s.job.None? && s.handler.None? && s.known > s.ix.stored && i <= c.size
    requires prev == if s.ix.stored == 0 then ZERO_HASH else SectionHead(s.ix, s.ix.stored - 1)
    requires |events| >= 2 + i && events[0] == Update && events[1] == ResetBackend(true) && AllAre(events, 2, 2 + i, ProcessNext(true))
    requires Readable(c, s, s.ix.stored, prev)
    ensures var k := s.ix.stored;
            var number := FirstOf(c.size, k) + i;
            After(c, s, events, 2 + i) == s.(job := Some(Job(k, prev, number, LastRead(c, s, k, prev, number), Processing)))
    decreases i
  {
    hide After, Readable, LastRead, Next;
    AfterNext(c, s, events, 1 + i);
    if i == 0 {
      AfterNext(c, s, events, 0);
      UpdateStarts(c, s, prev);
    } else {
      SectionReads(c, s, events, i - 1, prev);
      BlockIsRead(c, s, s.ix.stored, prev, FirstOf(c.size, s.ix.stored) + i - 1);
    }
  }

  lemma {:induction false} UpdateStarts(c: Config, s: Sys, prev: Hash)
    requires c.size > 0 && s.job.None? && s.handler.None? && s.known > s.ix.stored
    requires prev == if s.ix.stored == 0 then ZERO_HASH else SectionHead(s.ix, s.ix.stored - 1)
    ensures var k := s.ix.stored;
            Next(c, Next(c, s, Update), ResetBackend(true)) ==
              s.(job := Some(Job(k, prev, FirstOf(c.size, k), LastRead(c, s, k, prev, FirstOf(c.size, k)), Processing)))
  {
  }

  lemma {:induction false} BlockIsRead(c: Config, s: Sys, k: nat, prev: Hash, n: nat)
    requires c.size > 0 && Readable(c, s, k, prev) && FirstOf(c.size, k) <= n < FirstOf(c.size, k) + c.size
    ensures Next(c, s.(job := Some(Job(k, prev, n, LastRead(c, s, k, prev, n), Processing))), ProcessNext(true)) ==
              s.(job := Some(Job(k, prev, n + 1, LastRead(c, s, k, prev, n + 1), Processing)))
  {
    hide FirstOf, Readable, LastRead, Continues;
    SectionLength(c.size, k);
    var j := Job(k, prev, n, LastRead(c, s, k, prev, n), Processing);
    NextCanBeRead(c, s, k, prev, n);
    ContinuesSame(s, s.(job := Some(j)), j);
  }

  lemma {:induction false} ContinuesSame(s: Sys, s': Sys, j: Job)
    requires s'.canonical == s.canonical && s'.headers == s.headers
    ensures Continues(s', j, true) == Continues(s, j, true)
  {
  }

  lemma {:induction false} NextCanBeRead(c: Config, s: Sys, k: nat, prev: Hash, n: nat)
    requires c.size > 0 && Readable(c, s, k, prev) && FirstOf(c.size, k) <= n < FirstOf(c.size, k) + c.size
    ensures Continues(s, Job(k, prev, n, LastRead(c, s, k, prev, n), Processing), true)
    ensures n in s.canonical && LastRead(c, s, k, prev, n + 1) == s.canonical[n]
  {
    hide FirstOf;
    SectionLength(c.size, k);
    assert n in s.canonical;
    if n > FirstOf(c.size, k) {
      var m := n - 1;
      assert FirstOf(c.size, k) <= m < FirstOf(c.size, k + 1) && m in s.canonical;
    }
  }

  /** A known section whose blocks can be read is indexed: an update, the reset, one step per block and the commit make
      it valid, with its last block for a head, and change nothing else. */
  lemma {:induction false} SectionIsIndexed(c: Config, s: Sys, events: seq<Event>, prev: Hash)
    requires c.size > 0 && s.job.None? && s.handler.None? && s.known > s.ix.stored
    requires prev == if s.ix.stored == 0 then ZERO_HASH else SectionHead(s.ix, s.ix.stored - 1)
    requires |events| == 3 + c.size && events[0] == Update && events[1] == ResetBackend(true)
    requires AllAre(events, 2, 2 + c.size, ProcessNext(true)) && events[2 + c.size] == Commit(true)
    requires Readable(c, s, s.ix.stored, prev)
    ensures var k := s.ix.stored;
            var last := FirstOf(c.size, k + 1) - 1;
            && last in s.canonical
            && After(c, s, events, |events|) ==
                 s.(ix := Index(k + 1, k + 1, s.ix.heads[k := s.canonical[last]]), cascaded := (k + 1) * c.size - 1)
  {
    hide Readable, After;
    var k := s.ix.stored;
    SectionLength(c.size, k);
    SectionReads(c, s, events, c.size, prev);
    LastIsCanonical(c, s, k, prev);
    AfterNext(c, s, events, 2 + c.size);
    assert ReadyToCommit(c, After(c, s, events, 2 + c.size));
  }

  lemma {:induction false} LastIsCanonical(c: Config, s: Sys, k: nat, prev: Hash)
    requires c.size > 0 && Readable(c, s, k, prev)
    ensures FirstOf(c.size, k + 1) - 1 in s.canonical
  {
    SectionLength(c.size, k);
    var last := FirstOf(c.size, k + 1) - 1;
    assert FirstOf(c.size, k) <= last < FirstOf(c.size, k + 1);
  }

  /** If the backend cannot reset, all sections are rolled back and nothing is known any more. */
  lemma {:induction false} FailedResetEnds(c: Config, s: Sys, events: seq<Event>)
    requires c.size > 0 && s.job.None? && s.handler.None? && s.known > s.ix.stored
    requires |events| == 6 + 3 * s.ix.stored && events[0] == Update && events[1] == ResetBackend(false)
    requires AllAre(events, 2, |events| - 1, RollbackStep) && events[|events| - 1] == Relock
    ensures After(c, s, events, |events|) == s.(ix := Index(0, 0, Cut(s.ix.heads, 0, s.ix.stored)), known := 0)
  {
    hide After;
    var k := s.ix.stored;
    var n := 3 * k + 3;
    AfterNext(c, s, events, 0);
    AfterNext(c, s, events, 1);
    RollbackSteps(c, s, events, 2, n, Putting);
    StepsComplete(s.ix, 0);
    CompleteCuts(s.ix, 0);
    AfterNext(c, s, events, 2 + n);
  }

  // ----- the indexer itself -----

  class ChainIndexer {
    const sectionSize: nat
    const confirmsReq: nat
    var headers: Tree
    var canonical: map<nat, Hash>
    var count: nat
    var storedSections: nat
    var heads: map<nat, Hash>
    var knownSections: nat
    var cascadedHead: int
    var job: Option<Job>
    var handler: Option<Rollback>

    function Ix(): Index
      reads this
    {
      Index(count, storedSections, heads)
    }

    function Now(): Sys
      reads this
    {
      Sys(headers, canonical, Ix(), knownSections, cascadedHead, job, handler)
    }

    const config: Config := Config(sectionSize, confirmsReq)

    constructor (section: nat, confirm: nat, headers: Tree, canonical: map<nat, Hash>)
      requires section > 0 && Rooted(headers)
      ensures config == Config(section, confirm) && Sound(config, Now())
      ensures Now() == Sys(headers, canonical, Index(0, 0, map[]), 0, 0, None, None)
    {
      sectionSize, confirmsReq := section, confirm;
      this.headers, this.canonical := headers, canonical;
      heads := map[];
      count, storedSections, knownSections, cascadedHead := 0, 0, 0, 0;
      job, handler := None, None;
      new;
      assert SoundAt(config, Now(), 0);
    }

    /** Sets the number of valid sections without interruption, removing the heads of those no longer valid. */
    method SetValidSections(sections: nat)
      modifies this`count, this`heads, this`storedSections
      ensures Ix() == Complete(old(Ix()), sections)
      ensures count == storedSections == sections && heads == Cut(old(heads), sections, old(storedSections))
    {
      CompleteCuts(Ix(), sections);
      count := sections;
      while storedSections > sections
        invariant Popped(Ix(), sections) == Popped(old(Ix()).(count := sections), sections)
      {
        storedSections := storedSections - 1;
        heads := heads - {storedSections};
      }
      storedSections := sections;
    }

    /** One statement of it, while others may run. */
    method StepRollback(r: Rollback) returns (next: Rollback)
      modifies this`count, this`heads, this`storedSections
      ensures (Ix(), next) == Advance(old(Ix()), r)
    {
      next := r;
      match r.stage {
        case Putting =>
          count := r.target;
          next := r.(stage := Testing);
        case Testing =>
          next := r.(stage := if storedSections > r.target then Lowering else Assigning);
        case Lowering =>
          storedSections := if storedSections == 0 then MAX_UINT64 else storedSections - 1;
          next := r.(stage := Removing);
        case Removing =>
          heads := heads - {storedSections};
          next := r.(stage := Testing);
        case Assigning =>
          storedSections := r.target;
          next := r.(stage := Finished);
        case Finished =>
      }
    }

    /** A new head, or with `reorg` the common ancestor of a reorganisation. The lock is taken; a rollback keeps
        it until its last step. */
    method OnNewHead(head: nat, reorg: bool)
      requires sectionSize > 0 && handler.None?
      modifies this`knownSections, this`cascadedHead, this`handler
      ensures Now() == AfterNewHead(config, old(Now()), head, reorg)
      ensures reorg ==>
                var known := (head + 1) / sectionSize;
                && knownSections == Min(old(knownSections), known)
                && cascadedHead == (if known * sectionSize < old(cascadedHead) then known * sectionSize else old(cascadedHead))
                && handler == if known < storedSections then Some(Rollback(known, Putting)) else None
      ensures !reorg ==>
                && handler.None? && cascadedHead == old(cascadedHead)
                && knownSections == if head < confirmsReq then old(knownSections)
                                    else Max(old(knownSections), (head + 1 - confirmsReq) / sectionSize)
    {
      if reorg {
        var known := (head + 1) / sectionSize;
        if known < knownSections {
          knownSections := known;
        }
        if known < storedSections {
          handler := Some(Rollback(known, Putting));
        }
        if known * sectionSize < cascadedHead {
          cascadedHead := known * sectionSize;
        }
        return;
      }
      if head >= confirmsReq {
        var sections := (head + 1 - confirmsReq) / sectionSize;
        if sections > knownSections {
          knownSections := sections;
        }
      }
    }

    /** The next statement of the new head's rollback. */
    method OnNewHeadStep()
      requires handler.Some?
      modifies this`count, this`heads, this`storedSections, this`handler
      ensures Now() == AfterNewHeadStep(old(Now()))
    {
      var next := StepRollback(handler.value);
      handler := if next.stage.Finished? then None else Some(next);
    }

    /** The whole handler, if nothing else runs: a reorganisation leaves exactly the sections below its point. */
    method NewHead(head: nat, reorg: bool)
      requires sectionSize > 0 && handler.None?
      modifies this`knownSections, this`cascadedHead, this`handler, this`count, this`heads, this`storedSections
      ensures handler.None?
      ensures reorg ==>
                var known := (head + 1) / sectionSize;
                && storedSections == Min(old(storedSections), known) && knownSections == Min(old(knownSections), known)
                && heads == Cut(old(heads), known, old(storedSections))
                && cascadedHead == (if known * sectionSize < old(cascadedHead) then known * sectionSize else old(cascadedHead))
                && count == (if known < old(storedSections) then known else old(count))
      ensures !reorg ==>
                && Ix() == old(Ix()) && cascadedHead == old(cascadedHead)
                && knownSections == if head < confirmsReq then old(knownSections)
                                    else Max(old(knownSections), (head + 1 - confirmsReq) / sectionSize)
    {
      OnNewHead(head, reorg);
      ghost var known := (head + 1) / sectionSize;
      ghost var n: nat := 0;
      if handler.Some? {
        n := 3 * (storedSections - known) + 3;
        StepsComplete(Ix(), known);
        CompleteCuts(Ix(), known);
      } else if reorg {
        assert Cut(heads, known, storedSections) == heads;
      }
      ghost var known', cascaded' := knownSections, cascadedHead;
      while handler.Some?
        invariant cascadedHead == cascaded'
        invariant reorg ==> knownSections == known'
        invariant !reorg ==> handler.None? && Ix() == old(Ix()) && knownSections == known' && cascadedHead == old(cascadedHead)
        invariant handler.Some? ==>
                    && !handler.value.stage.Finished? && handler.value.target == known
                    && Steps(Ix(), handler.value, n) == (Complete(old(Ix()), known), Rollback(known, Finished))
        invariant handler.None? && reorg ==>
                    Ix() == if known < old(storedSections) then Complete(old(Ix()), known) else old(Ix())
        invariant handler.Some? ==> known < old(storedSections)
        decreases n, if handler.Some? then 1 else 0
      {
        n := n - 1;
        OnNewHeadStep();
        StepsDone(Ix(), known, n);
      }
    }

    /** An update notification: under the lock remember the section to process and its predecessor. */
    method OnUpdate()
      requires job.None? && handler.None?
      modifies this`job
      ensures Now() == AfterUpdate(config, old(Now()))
      ensures job == if knownSections <= storedSections then None
                     else
                       var prev := if storedSections > 0 && storedSections - 1 in heads then heads[storedSections - 1] else ZERO_HASH;
                       Some(Job(storedSections, prev, storedSections * sectionSize, prev, Resetting))
    {
      if knownSections > storedSections {
        var section := storedSections;
        var oldHead := ZERO_HASH;
        if section > 0 {
          oldHead := SectionHead(Ix(), section - 1);
        }
        job := Some(Job(section, oldHead, FirstOf(sectionSize, section), oldHead, Resetting));
      }
    }

    /** The next statement of the rollback without the lock. */
    method OnRollbackStep()
      requires job.Some? && job.value.state.RollingBack?
      modifies this`count, this`heads, this`storedSections, this`job
      ensures Now() == AfterRollbackStep(old(Now()))
    {
      var next := StepRollback(Rollback(0, job.value.state.stage));
      job := Some(job.value.(state := if next.stage.Finished? then Failed(true) else RollingBack(next.stage)));
    }

    /** One block of the section: it must be canonical, stored, and a child of the block before it. */
    method OnProcessNext(processes: bool)
      requires job.Some? && job.value.state.Processing?
      modifies this`job
      ensures Now() == AfterProcessNext(config, old(Now()), processes)
      ensures var j := old(job).value;
              job == if j.number >= (j.section + 1) * sectionSize then Some(j)
                     else if processes && j.number in canonical && canonical[j.number] in headers
                             && headers[canonical[j.number]] == Header(j.lastHead, j.number)
                     then Some(j.(number := j.number + 1, lastHead := canonical[j.number]))
                     else Some(j.(state := Failed(false)))
    {
      var j := job.value;
      if j.number < FirstOf(sectionSize, j.section + 1) {
        if j.number !in canonical {
          job := Some(j.(state := Failed(false)));
          return;
        }
        var hash := canonical[j.number];
        if hash !in headers || headers[hash].number != j.number || headers[hash].parent != j.lastHead || !processes {
          job := Some(j.(state := Failed(false)));
        } else {
          job := Some(j.(number := j.number + 1, lastHead := hash));
        }
      }
    }

    /** The section is complete: take the lock again and mark it valid, unless its predecessor is gone. */
    method OnCommit(commits: bool)
      requires job.Some?
      modifies this
      ensures Now() == AfterCommit(config, old(Now()), commits)
      ensures job.None? && headers == old(headers) && canonical == old(canonical) && handler == old(handler)
      ensures var j := old(job).value;
              if commits && (j.section == 0 || j.oldHead == SectionHead(old(Ix()), j.section - 1)) then
                && count == storedSections == j.section + 1 && knownSections == old(knownSections)
                && heads == Cut(old(heads)[j.section := j.lastHead], j.section + 1, old(storedSections))
              else Ix() == old(Ix()) && knownSections == storedSections
    {
      var j := job.value;
      job := None;
      if commits && (j.section == 0 || j.oldHead == SectionHead(Ix(), j.section - 1)) {
        heads := heads[j.section := j.lastHead];
        SetValidSections(j.section + 1);
        cascadedHead := storedSections * sectionSize - 1;
      } else {
        knownSections := storedSections;
      }
    }

    /** Any interleaving of heads, reorganisations, updates and single statements of rollbacks. Unless a failed reset is
        overtaken, the heads between rollbacks are exactly those of the valid sections and form one chain. */
    method Run(events: seq<Event>)
      requires sectionSize > 0
      modifies this
      ensures Now() == After(config, old(Now()), events, |events|)
      ensures old(Sound(config, Now())) && !Overtaken(config, old(Now()), events, |events|) ==>
                && Sound(config, Now())
                && (handler.None? && !Racing(Now()) ==> Chained(headers, sectionSize, heads, storedSections))
    {
      hide Sound, Overtaken, Chained;
      for n := 0 to |events|
        invariant Now() == After(config, old(Now()), events, n)
      {
        Handle(events[n]);
      }
      if old(Sound(config, Now())) && !Overtaken(config, old(Now()), events, |events|) {
        RunKeeps(config, old(Now()), events, |events|);
        if handler.None? && !Racing(Now()) {
          SoundIsChained(config, Now());
        }
      }
    }

    method Handle(e: Event)
      requires sectionSize > 0
      modifies this
      ensures Now() == Next(config, old(Now()), e)
    {
      hide AfterNewHead, AfterNewHeadStep, AfterUpdate, AfterRollbackStep, AfterProcessNext, AfterCommit;
      match e {
        case NewHead(head, reorg) => if handler.None? { OnNewHead(head, reorg); }
        case NewHeadStep => if handler.Some? { OnNewHeadStep(); }
        case ChainMoves(headers', canonical') =>
          if Grows(headers, headers') {
            headers, canonical := headers', canonical';
          }
        case Update => if job.None? && handler.None? { OnUpdate(); }
        case ResetBackend(resets) =>
          if InState(Now(), Resetting) {
            job := Some(job.value.(state := if resets then Processing else RollingBack(Putting)));
          }
        case RollbackStep => if RollsBack(Now()) { OnRollbackStep(); }
        case ProcessNext(processes) => if InState(Now(), Processing) { OnProcessNext(processes); }
        case Commit(commits) => if ReadyToCommit(config, Now()) { OnCommit(commits); }
        case Relock =>
          if handler.None? && job.Some? && job.value.state.Failed? {
            knownSections := storedSections;
            job := None;
          }
      }
    }
  }

  // ----- the theorem about stored sections -----

  lemma {:induction false} NoSections(t: Tree, h: Hash, number: int, size: nat)
    ensures FirstOf(size, 0) == 0 && LinkedTo(t, h, number, 0, h)
  {
  }

  lemma {:induction false} LastSection(t: Tree, size: nat, heads: map<nat, Hash>, stored: nat, j: nat)
    requires Chained(t, size, heads, stored) && j < stored
    ensures j in heads && (j > 0 ==> j - 1 in heads)
    ensures LinkedTo(t, heads[j], FirstOf(size, j + 1) - 1, size, PrevHead(heads, j))
  {
    assert SectionStored(t, size, heads, j);
  }

  /** All stored sections lie on one parent-linked chain: from the head of any of them, following parents
      for as many sections as lie between meets the head of every earlier one, and in the end nothing below block 0. */
  lemma {:induction false} SectionsOnOneChain(t: Tree, size: nat, heads: map<nat, Hash>, stored: nat, i: nat, j: nat)
    requires Chained(t, size, heads, stored) && i <= j < stored
    ensures i in heads && j in heads
    ensures LinkedTo(t, heads[j], FirstOf(size, j + 1) - 1, FirstOf(size, j - i), heads[i])
    ensures LinkedTo(t, heads[j], FirstOf(size, j + 1) - 1, FirstOf(size, j + 1), ZERO_HASH)
    decreases j
  {
    hide LinkedTo, Chained, FirstOf;
    LastSection(t, size, heads, stored, j);
    SectionLength(size, j);
    NoSections(t, heads[j], FirstOf(size, j + 1) - 1, size);
    if j > 0 {
      if i < j {
        SectionsOnOneChain(t, size, heads, stored, i, j - 1);
        SectionLength(size, j - 1 - i);
        LinkedConcat(t, heads[j], FirstOf(size, j + 1) - 1, size, heads[j - 1], FirstOf(size, j - 1 - i), heads[i]);
      } else {
        SectionsOnOneChain(t, size, heads, stored, j - 1, j - 1);
      }
      LinkedConcat(t, heads[j], FirstOf(size, j + 1) - 1, size, heads[j - 1], FirstOf(size, j), ZERO_HASH);
    }
  }
}
