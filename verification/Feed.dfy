/** One-to-many event delivery. A send walks an array of select cases in place: `cases` is a prefix of
    `sendCases` that shares its backing array, delivered cases are swapped behind the prefix, and
    unsubscribed cases are shifted out, while subscribers come and go. */
module Feed {

  /** A select case: the receive case of the removal channel, or a subscribed channel. */
  datatype Case = RemoveSub | Sub(ch: nat)

  const FIRST_SUB := 1

  // ----- what the in-place operations do to the list -----

  ghost function Deleted(s: seq<Case>, i: nat): (r: seq<Case>)
    requires i < |s|
    ensures |r| == |s| - 1
    ensures forall k :: 0 <= k < i ==> r[k] == s[k]
    ensures forall k, m :: i <= k < |r| && m == k + 1 ==> r[k] == s[m]
  {
    s[..i] + s[i + 1..]
  }

  ghost function Swapped(s: seq<Case>, i: nat, j: nat): (r: seq<Case>)
    requires i < |s| && j < |s|
    ensures |r| == |s| && r[i] == s[j] && r[j] == s[i]
    ensures forall k :: 0 <= k < |s| && k != i && k != j ==> r[k] == s[k]
  {
    s[i := s[j]][j := s[i]]
  }

  /** The bookkeeping of one send: which subscribers held at its start have received the value, which
      were removed before that, and which were removed only afterwards. The prefix of length `active`
      holds those still waiting, the rest of the list those served and still subscribed. */
  datatype Ledger = Ledger(start: multiset<Case>, delivered: multiset<Case>, early: multiset<Case>, late: multiset<Case>)

  ghost predicate WellShaped(s: seq<Case>) {
    |s| >= FIRST_SUB && s[0] == RemoveSub && forall i :: FIRST_SUB <= i < |s| ==> s[i].Sub?
  }

  /** How often a case occurs at the positions from `lo` up to, not including, `hi`. */
  ghost function Count(s: seq<Case>, lo: nat, hi: nat, c: Case): nat
    requires lo <= hi <= |s|
  {
    if lo == hi then 0 else Count(s, lo, hi - 1, c) + if s[hi - 1] == c then 1 else 0
  }

  ghost predicate BalancedAt(s: seq<Case>, active: nat, l: Ledger, c: Case)
    requires FIRST_SUB <= active <= |s|
  {
    && l.start[c] == l.delivered[c] + l.early[c] + Count(s, FIRST_SUB, active, c)
    && l.delivered[c] == l.late[c] + Count(s, active, |s|, c)
  }

  lemma {:induction false} CountSplit(s: seq<Case>, lo: nat, mid: nat, hi: nat, c: Case)
    requires lo <= mid <= hi <= |s|
    ensures Count(s, lo, hi, c) == Count(s, lo, mid, c) + Count(s, mid, hi, c)
    decreases hi
  {
    if mid < hi {
      CountSplit(s, lo, mid, hi - 1, c);
    }
  }

  /** Equal stretches have equal counts, wherever they lie. */
  lemma {:induction false} CountSame(s: seq<Case>, lo: nat, hi: nat, t: seq<Case>, d: int, c: Case)
    requires lo <= hi <= |s| && 0 <= lo + d && hi + d <= |t|
    requires forall k, m :: lo <= k < hi && m == k + d ==> s[k] == t[m]
    ensures Count(s, lo, hi, c) == Count(t, lo + d, hi + d, c)
    decreases hi
  {
    if lo < hi {
      CountSame(s, lo, hi - 1, t, d, c);
    }
  }

  lemma {:induction false} CountNone(s: seq<Case>, lo: nat, c: Case)
    requires lo <= |s|
    ensures Count(s, lo, lo, c) == 0
  {
  }

  lemma {:induction false} CountPick(s: seq<Case>, lo: nat, i: nat, hi: nat, c: Case)
    requires lo <= i < hi <= |s|
    ensures Count(s, lo, hi, c) == Count(s, lo, i, c) + (if s[i] == c then 1 else 0) + Count(s, i + 1, hi, c)
  {
    CountSplit(s, lo, i + 1, hi, c);
  }

  lemma {:induction false} CountMember(s: seq<Case>, lo: nat, hi: nat, c: Case)
    requires lo <= hi <= |s|
    ensures Count(s, lo, hi, c) > 0 <==> exists k :: lo <= k < hi && s[k] == c
    decreases hi
  {
    if lo < hi {
      CountMember(s, lo, hi - 1, c);
      assert s[hi - 1] == c ==> exists k :: lo <= k < hi && s[k] == c;
    }
  }

  /** Removing one position removes one occurrence. */
  lemma {:induction false} CountDeleted(s: seq<Case>, i: nat, lo: nat, hi: nat, c: Case)
    requires lo <= i < hi <= |s|
    ensures Count(s, lo, hi, c) == Count(Deleted(s, i), lo, hi - 1, c) + if s[i] == c then 1 else 0
  {
    CountPick(s, lo, i, hi, c);
    CountSplit(Deleted(s, i), lo, i, hi - 1, c);
    CountSame(s, lo, i, Deleted(s, i), 0, c);
    CountSame(s, i + 1, hi, Deleted(s, i), -1, c);
  }

  /** The prefix after a swap with its last position loses exactly the swapped case. */
  lemma {:induction false} CountLast(s: seq<Case>, lo: nat, hi: nat, c: Case)
    requires lo < hi <= |s|
    ensures Count(s, lo, hi, c) == Count(s, lo, hi - 1, c) + if s[hi - 1] == c then 1 else 0
  {
  }

  lemma {:induction false} CountSwapped(s: seq<Case>, i: nat, lo: nat, active: nat, c: Case)
    requires lo <= i < active <= |s|
    ensures Count(s, lo, active, c) == Count(Swapped(s, i, active - 1), lo, active - 1, c) + if s[i] == c then 1 else 0
  {
    hide Count;
    var t := Swapped(s, i, active - 1);
    CountLast(s, lo, active, c);
    if i == active - 1 {
      CountSame(s, lo, active - 1, t, 0, c);
    } else {
      CountPick(s, lo, i, active - 1, c);
      CountPick(t, lo, i, active - 1, c);
      CountSame(s, lo, i, t, 0, c);
      CountSame(s, i + 1, active - 1, t, 0, c);
    }
  }

  /** A send in progress: the list, the length of its waiting prefix, and the ledger. */
  datatype Progress = Progress(cases: seq<Case>, active: nat, ledger: Ledger)

  ghost predicate Good(p: Progress) {
    && WellShaped(p.cases)
    && FIRST_SUB <= p.active <= |p.cases|
    && forall c :: BalancedAt(p.cases, p.active, p.ledger, c)
  }

  /** The waiting case `i` receives the value and moves behind the prefix. */
  ghost function Served(p: Progress, i: nat): Progress
    requires i < p.active <= |p.cases|
  {
    Progress(Swapped(p.cases, i, p.active - 1), p.active - 1, p.ledger.(delivered := p.ledger.delivered + multiset{p.cases[i]}))
  }

  /** Case `i` is unsubscribed, while it still waits or after it has been served. */
  ghost function Left(p: Progress, i: nat): Progress
    requires i < |p.cases|
  {
    if i < p.active
    then Progress(Deleted(p.cases, i), p.active - 1, p.ledger.(early := p.ledger.early + multiset{p.cases[i]}))
    else Progress(Deleted(p.cases, i), p.active, p.ledger.(late := p.ledger.late + multiset{p.cases[i]}))
  }

  lemma {:induction false} ServedBalance(p: Progress, i: nat, c: Case)
    requires FIRST_SUB <= i < p.active <= |p.cases| && BalancedAt(p.cases, p.active, p.ledger, c)
    ensures BalancedAt(Served(p, i).cases, Served(p, i).active, Served(p, i).ledger, c)
  {
    hide Count;
    var s, t, n := p.cases, Swapped(p.cases, i, p.active - 1), p.active;
    CountNone(t, n - 1, c);
    CountSwapped(s, i, FIRST_SUB, n, c);
    CountPick(t, n - 1, n - 1, |t|, c);
    CountSame(s, n, |s|, t, 0, c);
  }

  lemma {:induction false} LeftBalance(p: Progress, i: nat, c: Case)
    requires FIRST_SUB <= i < |p.cases| && FIRST_SUB <= p.active <= |p.cases| && BalancedAt(p.cases, p.active, p.ledger, c)
    ensures BalancedAt(Left(p, i).cases, Left(p, i).active, Left(p, i).ledger, c)
  {
    hide Count;
    var s, t, n := p.cases, Deleted(p.cases, i), p.active;
    if i < n {
      CountDeleted(s, i, FIRST_SUB, n, c);
      CountSame(s, n, |s|, t, -1, c);
    } else {
      CountDeleted(s, i, n, |s|, c);
      CountSame(s, FIRST_SUB, n, t, 0, c);
    }
  }

  lemma {:induction false} ServedGood(p: Progress, i: nat)
    requires Good(p) && FIRST_SUB <= i < p.active
    ensures Good(Served(p, i))
  {
    forall c ensures BalancedAt(Served(p, i).cases, Served(p, i).active, Served(p, i).ledger, c) {
      ServedBalance(p, i, c);
    }
  }

  lemma {:induction false} LeftGood(p: Progress, i: nat)
    requires Good(p) && FIRST_SUB <= i < |p.cases|
    ensures Good(Left(p, i))
  {
    forall c ensures BalancedAt(Left(p, i).cases, Left(p, i).active, Left(p, i).ledger, c) {
      LeftBalance(p, i, c);
    }
  }

  // ----- who is subscribed and who is leaving -----

  /** Every case belongs to a live subscription or to an unsubscriber that waits to be heard, and those who wait are
      among the send cases. */
  ghost predicate HeardAt(cases: seq<Case>, inbox: seq<Case>, live: multiset<Case>, waiting: multiset<Case>, c: Case)
    requires |cases| >= FIRST_SUB
  {
    && Count(cases, FIRST_SUB, |cases|, c) + Count(inbox, 0, |inbox|, c) == live[c] + waiting[c]
    && waiting[c] <= Count(cases, FIRST_SUB, |cases|, c)
  }

  ghost predicate Heard(cases: seq<Case>, inbox: seq<Case>, live: multiset<Case>, waiting: multiset<Case>) {
    |cases| >= FIRST_SUB && forall c :: HeardAt(cases, inbox, live, waiting, c)
  }

  lemma {:induction false} JoinsInbox(cases: seq<Case>, inbox: seq<Case>, live: multiset<Case>, waiting: multiset<Case>, c: Case)
    requires Heard(cases, inbox, live, waiting)
    ensures Heard(cases, inbox + [c], live + multiset{c}, waiting)
  {
    forall d ensures HeardAt(cases, inbox + [c], live + multiset{c}, waiting, d) {
      assert HeardAt(cases, inbox, live, waiting, d);
      CountSame(inbox, 0, |inbox|, inbox + [c], 0, d);
    }
  }

  /** A subscriber leaves out of the inbox. */
  lemma {:induction false} LeavesInbox(cases: seq<Case>, inbox: seq<Case>, live: multiset<Case>, waiting: multiset<Case>, k: nat)
    requires Heard(cases, inbox, live, waiting) && k < |inbox| && live[inbox[k]] > 0
    ensures Heard(cases, Deleted(inbox, k), live - multiset{inbox[k]}, waiting)
  {
    forall d ensures HeardAt(cases, Deleted(inbox, k), live - multiset{inbox[k]}, waiting, d) {
      assert HeardAt(cases, inbox, live, waiting, d);
      CountDeleted(inbox, k, 0, |inbox|, d);
    }
  }

  /** A subscriber that is not in the inbox is among the send cases, besides those who already wait. */
  lemma {:induction false} Waits(cases: seq<Case>, inbox: seq<Case>, live: multiset<Case>, waiting: multiset<Case>, c: Case)
    requires Heard(cases, inbox, live, waiting) && c !in inbox && live[c] > 0
    ensures Heard(cases, inbox, live - multiset{c}, waiting + multiset{c})
  {
    forall d ensures HeardAt(cases, inbox, live - multiset{c}, waiting + multiset{c}, d) {
      assert HeardAt(cases, inbox, live, waiting, d);
      CountMember(inbox, 0, |inbox|, c);
    }
  }

  /** Who waits is found among the send cases. */
  lemma {:induction false} WaitingIsListed(cases: seq<Case>, inbox: seq<Case>, live: multiset<Case>, waiting: multiset<Case>, c: Case)
    requires Heard(cases, inbox, live, waiting) && WellShaped(cases) && c in waiting
    ensures c in cases && c.Sub?
  {
    assert HeardAt(cases, inbox, live, waiting, c);
    CountMember(cases, FIRST_SUB, |cases|, c);
  }

  /** Whoever is heard leaves the send cases. */
  lemma {:induction false} LeavesCases(cases: seq<Case>, inbox: seq<Case>, live: multiset<Case>, waiting: multiset<Case>, i: nat)
    requires Heard(cases, inbox, live, waiting) && FIRST_SUB <= i < |cases| && waiting[cases[i]] > 0
    ensures Heard(Deleted(cases, i), inbox, live, waiting - multiset{cases[i]})
  {
    forall d ensures HeardAt(Deleted(cases, i), inbox, live, waiting - multiset{cases[i]}, d) {
      assert HeardAt(cases, inbox, live, waiting, d);
      CountDeleted(cases, i, FIRST_SUB, |cases|, d);
    }
  }

  lemma {:induction false} MovesIn(cases: seq<Case>, inbox: seq<Case>, live: multiset<Case>, waiting: multiset<Case>)
    requires Heard(cases, inbox, live, waiting)
    ensures Heard(cases + inbox, [], live, waiting)
  {
    forall d ensures HeardAt(cases + inbox, [], live, waiting, d) {
      assert HeardAt(cases, inbox, live, waiting, d);
      StartCount(cases, inbox, d);
    }
  }

  /** A delivery changes nothing about who is subscribed. */
  lemma {:induction false} StillHeard(p: Progress, p': Progress, inbox: seq<Case>, live: multiset<Case>, waiting: multiset<Case>)
    requires Good(p) && Good(p') && Heard(p.cases, inbox, live, waiting)
    requires p'.ledger == p.ledger.(delivered := p'.ledger.delivered)
    ensures Heard(p'.cases, inbox, live, waiting)
  {
    forall d ensures HeardAt(p'.cases, inbox, live, waiting, d) {
      assert HeardAt(p.cases, inbox, live, waiting, d);
      assert BalancedAt(p.cases, p.active, p.ledger, d) && BalancedAt(p'.cases, p'.active, p'.ledger, d);
      CountSplit(p.cases, FIRST_SUB, p.active, |p.cases|, d);
      CountSplit(p'.cases, FIRST_SUB, p'.active, |p'.cases|, d);
    }
  }

  /** What subscribers do while a send is in progress. */
  datatype Action = Join(ch: nat) | Leave(ch: nat)

  ghost function JoinOf(action: Action): multiset<Case> {
    if action.Join? then multiset{Sub(action.ch)} else multiset{}
  }

  ghost function LeaveOf(action: Action): multiset<Case> {
    if action.Leave? then multiset{Sub(action.ch)} else multiset{}
  }

  /** The channels of the first `n` actions that subscribe. */
  ghost function Joins(actions: seq<Action>, n: nat): multiset<Case>
    requires n <= |actions|
  {
    if n == 0 then multiset{}
    else Joins(actions, n - 1) + JoinOf(actions[n - 1])
  }

  /** The channels of the first `n` actions that unsubscribe. */
  ghost function Leaves(actions: seq<Action>, n: nat): multiset<Case>
    requires n <= |actions|
  {
    if n == 0 then multiset{}
    else Leaves(actions, n - 1) + LeaveOf(actions[n - 1])
  }

  /** What became of actions: who joined, who asked to leave and had to wait, and who was withdrawn from the inbox. */
  datatype Moves = Moves(joined: multiset<Case>, asked: multiset<Case>, withdrawn: multiset<Case>)

  ghost function Together(a: Moves, b: Moves): Moves {
    Moves(a.joined + b.joined, a.asked + b.asked, a.withdrawn + b.withdrawn)
  }

  ghost function AllJoins(rounds: seq<seq<Action>>, n: nat): multiset<Case>
    requires n <= |rounds|
  {
    if n == 0 then multiset{} else AllJoins(rounds, n - 1) + Joins(rounds[n - 1], |rounds[n - 1]|)
  }

  ghost function AllLeaves(rounds: seq<seq<Action>>, n: nat): multiset<Case>
    requires n <= |rounds|
  {
    if n == 0 then multiset{} else AllLeaves(rounds, n - 1) + Leaves(rounds[n - 1], |rounds[n - 1]|)
  }

  /** The moves are those of the given joins and of some of the given leaves, and these change who is subscribed. */
  ghost predicate Follows(m: Moves, joins: multiset<Case>, leaves: multiset<Case>, live: multiset<Case>, live': multiset<Case>) {
    && m.joined == joins && m.asked + m.withdrawn <= leaves
    && live' + m.asked + m.withdrawn == live + m.joined
  }

  /** Whoever left had asked to, before or meanwhile, and the others who asked still wait. */
  ghost predicate Excused(l: Ledger, before: multiset<Case>, waiting: multiset<Case>, asked: multiset<Case>) {
    l.early + l.late + waiting == before + asked
  }

  lemma {:induction false} MoreAsk(l: Ledger, before: multiset<Case>, waiting: multiset<Case>, asked: multiset<Case>, more: multiset<Case>)
    requires Excused(l, before, waiting, asked)
    ensures Excused(l, before, waiting + more, asked + more)
  {
    assert l.early + l.late + (waiting + more) == l.early + l.late + waiting + more;
  }

  lemma {:induction false} StillExcused(l: Ledger, l': Ledger, before: multiset<Case>, waiting: multiset<Case>, asked: multiset<Case>)
    requires Excused(l, before, waiting, asked) && l' == l.(delivered := l'.delivered)
    ensures Excused(l', before, waiting, asked)
  {
  }

  lemma {:induction false} OneIsHeard(l: Ledger, l': Ledger, before: multiset<Case>, waiting: multiset<Case>, asked: multiset<Case>, heard: multiset<Case>)
    requires Excused(l, before, waiting, asked) && heard <= waiting && l'.early + l'.late == l.early + l.late + heard
    ensures Excused(l', before, waiting - heard, asked)
  {
    assert l.early + l.late + heard + (waiting - heard) == l.early + l.late + waiting;
  }

  lemma {:induction false} FollowOn(a: Moves, joins: multiset<Case>, leaves: multiset<Case>, live: multiset<Case>, live': multiset<Case>,
                           b: Moves, joins': multiset<Case>, leaves': multiset<Case>, live'': multiset<Case>)
    requires Follows(a, joins, leaves, live, live') && Follows(b, joins', leaves', live', live'')
    ensures Follows(Together(a, b), joins + joins', leaves + leaves', live, live'')
  {
    forall c ensures (a.asked + b.asked + (a.withdrawn + b.withdrawn))[c] <= (leaves + leaves')[c] {
      assert (a.asked + a.withdrawn)[c] <= leaves[c] && (b.asked + b.withdrawn)[c] <= leaves'[c];
    }
    forall c ensures (live'' + (a.asked + b.asked) + (a.withdrawn + b.withdrawn))[c] == (live + (a.joined + b.joined))[c] {
      assert (live' + a.asked + a.withdrawn)[c] == (live + a.joined)[c];
      assert (live'' + b.asked + b.withdrawn)[c] == (live' + b.joined)[c];
    }
  }

  lemma {:induction false} GoodBounds(p: Progress)
    requires Good(p)
    ensures WellShaped(p.cases) && FIRST_SUB <= p.active <= |p.cases|
  {
  }

  class Feed {
    var sendCases: array<Case>
    var len: nat
    var inbox: seq<Case>
    // the channels of subscriptions nobody has begun to cancel, and of those that wait for a send to hear it
    var live: multiset<Case>
    var waiting: multiset<Case>

    ghost predicate Valid()
      reads this, sendCases
    {
      && len <= sendCases.Length && WellShaped(Cases())
      && (forall i :: 0 <= i < |inbox| ==> inbox[i].Sub?)
      && Heard(Cases(), inbox, live, waiting)
    }

    /** The list that the array currently represents. */
    ghost function Cases(): seq<Case>
      reads this, sendCases
      requires len <= sendCases.Length
    {
      sendCases[..len]
    }

    /** How often a channel is currently subscribed. */
    ghost function Subscribed(c: Case): nat
      reads this, sendCases
      requires Valid()
    {
      Count(Cases(), FIRST_SUB, len, c) + Count(inbox, 0, |inbox|, c)
    }

    constructor ()
      ensures Valid() && fresh(sendCases) && live == waiting == multiset{} && forall c :: Subscribed(c) == 0
    {
      sendCases := new Case[1](_ => RemoveSub);
      len := 1;
      inbox, live, waiting := [], multiset{}, multiset{};
    }

    /** The first case with the given channel, or -1. */
    method Find(c: Case) returns (index: int)
      requires len <= sendCases.Length
      ensures index == -1 ==> c !in Cases()
      ensures index != -1 ==> 0 <= index < len && Cases()[index] == c && c !in Cases()[..index]
    {
      for i := 0 to len
        invariant c !in sendCases[..i]
      {
        if sendCases[i] == c {
          assert Cases()[..i] == sendCases[..i];
          return i;
        }
        assert sendCases[..i + 1] == sendCases[..i] + [sendCases[i]];
      }
      return -1;
    }

    /** Shifts the cases behind `index` one to the front. */
    method Delete(index: nat)
      requires index < len <= sendCases.Length
      modifies this`len, sendCases
      ensures len == old(len) - 1 && Cases() == Deleted(old(Cases()), index)
    {
      for i := index to len - 1
        invariant len == old(len)
        invariant sendCases[..index] == old(sendCases[..index])
        invariant forall k :: index <= k < i ==> sendCases[k] == old(sendCases[k + 1])
        invariant forall k :: i <= k < len ==> sendCases[k] == old(sendCases[k])
      {
        sendCases[i] := sendCases[i + 1];
      }
      len := len - 1;
    }

    /** Moves the case at `index` behind the prefix of length `active`, which shrinks by one. */
    method Deactivate(index: nat, active: nat) returns (shrunk: nat)
      requires index < active <= len <= sendCases.Length
      modifies sendCases
      ensures shrunk == active - 1 && Cases() == Swapped(old(Cases()), index, active - 1)
    {
      shrunk := active - 1;
      sendCases[index], sendCases[shrunk] := sendCases[shrunk], sendCases[index];
    }

    method Subscribe(ch: nat)
      requires Valid()
      modifies this`inbox, this`live
      ensures Valid() && inbox == old(inbox) + [Sub(ch)] && live == old(live) + multiset{Sub(ch)}
      ensures forall c :: Subscribed(c) == old(Subscribed(c)) + if c == Sub(ch) then 1 else 0
    {
      hide Heard;
      JoinsInbox(Cases(), inbox, live, waiting, Sub(ch));
      forall c {
        CountSame(inbox, 0, |inbox|, inbox + [Sub(ch)], 0, c);
      }
      inbox := inbox + [Sub(ch)];
      live := live + multiset{Sub(ch)};
    }

    /** The first half of unsubscribing: a channel found in the inbox is removed at once, any other has to wait. */
    method SearchInbox(ch: nat) returns (found: bool)
      requires Valid() && live[Sub(ch)] > 0
      modifies this`inbox, this`live, this`waiting
      ensures Valid() && (found <==> Sub(ch) in old(inbox)) && live == old(live) - multiset{Sub(ch)}
      ensures waiting == old(waiting) + if found then multiset{} else multiset{Sub(ch)}
      ensures forall c :: old(Subscribed(c)) == Subscribed(c) + if found && c == Sub(ch) then 1 else 0
    {
      hide Heard;
      for k := 0 to |inbox|
        invariant inbox == old(inbox) && live == old(live) && waiting == old(waiting)
        invariant forall m :: 0 <= m < k ==> inbox[m] != Sub(ch)
      {
        if inbox[k] == Sub(ch) {
          LeavesInbox(Cases(), inbox, live, waiting, k);
          forall c {
            CountDeleted(inbox, k, 0, |inbox|, c);
          }
          inbox := inbox[..k] + inbox[k + 1..];
          live := live - multiset{Sub(ch)};
          return true;
        }
      }
      Waits(Cases(), inbox, live, waiting, Sub(ch));
      live, waiting := live - multiset{Sub(ch)}, waiting + multiset{Sub(ch)};
      return false;
    }

    /** The second half, once there is no send in progress: the channel is always among the send cases. */
    method RemoveFromCases(ch: nat)
      requires Valid() && Sub(ch) in waiting
      modifies this`len, this`waiting, sendCases
      ensures Valid() && waiting == old(waiting) - multiset{Sub(ch)}
      ensures forall c :: old(Subscribed(c)) == Subscribed(c) + if c == Sub(ch) then 1 else 0
    {
      hide Heard;
      WaitingIsListed(Cases(), inbox, live, waiting, Sub(ch));
      var index := Find(Sub(ch));
      LeavesCases(Cases(), inbox, live, waiting, index);
      forall c {
        CountDeleted(Cases(), index, FIRST_SUB, len, c);
      }
      Delete(index);
      waiting := waiting - multiset{Sub(ch)};
    }

    /** Unsubscribes while no send is in progress: the inbox is searched first, then the send cases. */
    method Remove(ch: nat)
      requires Valid() && live[Sub(ch)] > 0
      modifies this, sendCases
      ensures Valid() && sendCases == old(sendCases)
      ensures live == old(live) - multiset{Sub(ch)} && waiting == old(waiting)
      ensures forall c :: old(Subscribed(c)) == Subscribed(c) + if c == Sub(ch) then 1 else 0
    {
      hide Heard, Count;
      var found := SearchInbox(ch);
      if !found {
        RemoveFromCases(ch);
      }
    }

    /** One subscriber joins or begins to leave. */
    method Act(action: Action) returns (ghost one: Moves)
      requires Valid()
      modifies this`inbox, this`live, this`waiting
      ensures Valid() && waiting == old(waiting) + one.asked
      ensures Follows(one, JoinOf(action), LeaveOf(action), old(live), live)
    {
      hide Heard, Count;
      one := Moves(multiset{}, multiset{}, multiset{});
      match action {
        case Join(ch) =>
          Subscribe(ch);
          one := one.(joined := multiset{Sub(ch)});
        case Leave(ch) =>
          if live[Sub(ch)] > 0 {
            var found := SearchInbox(ch);
            one := if found then one.(withdrawn := multiset{Sub(ch)}) else one.(asked := multiset{Sub(ch)});
          }
      }
    }

    /** Whatever the subscribers do while a send is in progress: some join, some begin to leave. */
    method Meanwhile(actions: seq<Action>) returns (ghost moves: Moves)
      requires Valid()
      modifies this`inbox, this`live, this`waiting
      ensures Valid() && waiting == old(waiting) + moves.asked
      ensures Follows(moves, Joins(actions, |actions|), Leaves(actions, |actions|), old(live), live)
    {
      hide Valid, Follows, JoinOf, LeaveOf;
      moves := Moves(multiset{}, multiset{}, multiset{});
      NoMoves(live);
      for i := 0 to |actions|
        invariant Valid() && waiting == old(waiting) + moves.asked
        invariant Follows(moves, Joins(actions, i), Leaves(actions, i), old(live), live)
      {
        ghost var before := live;
        var one := Act(actions[i]);
        FollowOn(moves, Joins(actions, i), Leaves(actions, i), old(live), before,
                 one, JoinOf(actions[i]), LeaveOf(actions[i]), live);
        moves := Together(moves, one);
      }
    }

    /** Moves the inbox behind the send cases. */
    method TakeInbox()
      requires Valid()
      modifies this`sendCases, this`len, this`inbox
      ensures Valid() && fresh(sendCases) && inbox == []
      ensures Cases() == old(Cases()) + old(inbox)
    {
      hide Heard;
      MovesIn(Cases(), inbox, live, waiting);
      var merged := new Case[len + |inbox|](i requires 0 <= i < len + |inbox| && len <= sendCases.Length reads this, sendCases =>
        if i < len then sendCases[i] else inbox[i - len]);
      assert merged[..] == Cases() + inbox;
      sendCases, len := merged, len + |inbox|;
      inbox := [];
      assert Cases() == old(Cases()) + old(inbox);
    }

    /** Tries every waiting case once without blocking; which of the tries succeed is up to the receivers. */
    method TrySends(ghost p0: Progress, active0: nat) returns (active: nat, sent: nat, ghost p: Progress)
      requires len <= sendCases.Length && p0.cases == Cases() && p0.active == active0 && Good(p0)
      modifies sendCases
      ensures p.cases == Cases() && p.active == active && Good(p)
      ensures p.ledger == p0.ledger.(delivered := p.ledger.delivered)
      ensures active + sent == active0 && |p.ledger.delivered| == |p0.ledger.delivered| + sent
    {
      active, sent, p := active0, 0, p0;
      var i := FIRST_SUB;
      while i < active
        invariant FIRST_SUB <= i <= active <= len <= sendCases.Length
        invariant p.cases == Cases() && p.active == active && Good(p)
        invariant p.ledger == p0.ledger.(delivered := p.ledger.delivered)
        invariant active + sent == active0 && |p.ledger.delivered| == |p0.ledger.delivered| + sent
        decreases active - i
      {
        var received: bool := *;
        if received {
          ServedGood(p, i);
          p := Served(p, i);
          sent := sent + 1;
          active := Deactivate(i, active);
        } else {
          i := i + 1;
        }
      }
    }

    /** Blocks until a receiver takes the value or a waiting unsubscriber is heard; which of them comes first is up
        to the surroundings. The channel heard is always among the send cases, and its case is the one that leaves. */
    method Select(ghost p0: Progress, active0: nat) returns (active: nat, sent: nat, ghost p: Progress, ghost heard: multiset<Case>)
      requires Valid() && p0.cases == Cases() && p0.active == active0 > FIRST_SUB && Good(p0)
      modifies this`len, this`waiting, sendCases
      ensures Valid() && p.cases == Cases() && p.active == active && Good(p)
      ensures active + len < active0 + old(len)
      // one is served or one is heard
      ensures |heard| + sent == 1 && heard <= old(waiting) && waiting == old(waiting) - heard
      ensures p.ledger.start == p0.ledger.start && |p.ledger.delivered| == |p0.ledger.delivered| + sent
      ensures p.ledger.early + p.ledger.late == p0.ledger.early + p0.ledger.late + heard
      ensures sent == 0 ==> p.ledger.delivered == p0.ledger.delivered
      ensures sent == 1 ==> exists i :: FIRST_SUB <= i < active0 && p == Served(p0, i)
    {
      hide Heard, Good, Count, WellShaped, Left;
      var chosen: nat := *;
      if chosen == 0 && waiting != multiset{} {
        var c :| c in waiting;
        sent, heard := 0, multiset{c};
        active, p := HearOne(p0, active0, c);
      } else {
        chosen :| FIRST_SUB <= chosen < active0;
        sent, heard := 1, multiset{};
        ServedGood(p0, chosen);
        GoodBounds(p0);
        p := Served(p0, chosen);
        StillHeard(p0, p, inbox, live, waiting);
        active := Deactivate(chosen, active0);
        GoodBounds(p);
      }
    }

    /** A waiting unsubscriber is heard. */
    method HearOne(ghost p0: Progress, active0: nat, c: Case) returns (active: nat, ghost p: Progress)
      requires Valid() && p0.cases == Cases() && p0.active == active0 && Good(p0) && c in waiting
      modifies this`len, this`waiting, sendCases
      ensures Valid() && p.cases == Cases() && p.active == active <= active0 && Good(p)
      ensures len == old(len) - 1 && waiting == old(waiting) - multiset{c}
      ensures p.ledger.start == p0.ledger.start && p.ledger.delivered == p0.ledger.delivered
      ensures p.ledger.early + p.ledger.late == p0.ledger.early + p0.ledger.late + multiset{c}
    {
      hide Heard, Good, Count;
      GoodBounds(p0);
      active := active0;
      WaitingIsListed(Cases(), inbox, live, waiting, c);
      var index := Find(c);
      LeftGood(p0, index);
      LeavesCases(Cases(), inbox, live, waiting, index);
      p := Left(p0, index);
      Delete(index);
      waiting := waiting - multiset{c};
      if 0 <= index < active {
        active := active - 1;
      }
      GoodBounds(p);
    }

    /** The next of the given rounds, if there is one. */
    method PlayRound(rounds: seq<seq<Action>>, round: nat, ghost moves: Moves, ghost live0: multiset<Case>)
      returns (next: nat, ghost moves': Moves, ghost more: multiset<Case>)
      requires Valid() && round <= |rounds|
      requires Follows(moves, AllJoins(rounds, round), AllLeaves(rounds, round), live0, live)
      modifies this`inbox, this`live, this`waiting
      ensures Valid() && next <= |rounds| && Follows(moves', AllJoins(rounds, next), AllLeaves(rounds, next), live0, live)
      ensures moves'.asked == moves.asked + more && waiting == old(waiting) + more
    {
      hide Valid, Follows, Joins, Leaves;
      next, moves', more := round, moves, multiset{};
      if round < |rounds| {
        var m := Meanwhile(rounds[round]);
        FollowOn(moves, AllJoins(rounds, round), AllLeaves(rounds, round), live0, old(live),
                 m, Joins(rounds[round], |rounds[round]|), Leaves(rounds[round], |rounds[round]|), live);
        next, moves', more := round + 1, Together(moves, m), m.asked;
      }
    }

    /** Delivers one value, against every choice the receivers can make and whatever the subscribers do in the given
        rounds. The ledger records who was subscribed at the start, who received the value, and who left. */
    method Send(rounds: seq<seq<Action>>) returns (nsent: nat, ghost ledger: Ledger, ghost moves: Moves, ghost used: nat)
      requires Valid()
      modifies this, sendCases
      ensures Valid()
      ensures forall c :: ledger.start[c] == old(Subscribed(c))
      // the subscribers held at the start are partitioned into served and removed before delivery
      ensures ledger.start == ledger.delivered + ledger.early
      // the count is the number served
      ensures nsent == |ledger.delivered|
      // the served ones that did not leave afterwards are exactly those still subscribed
      ensures forall c :: Count(Cases(), FIRST_SUB, len, c) + ledger.late[c] == ledger.delivered[c]
      // who is subscribed changes by what was done in the rounds
      ensures used <= |rounds| && Follows(moves, AllJoins(rounds, used), AllLeaves(rounds, used), old(live), live)
      // whoever left had asked to, before or meanwhile; the others who asked still wait
      ensures Excused(ledger, old(waiting), waiting, moves.asked)
      // so a channel nobody asked to leave is served for each of its subscriptions
      ensures forall c :: c !in old(waiting) && c !in AllLeaves(rounds, used) ==> ledger.delivered[c] == ledger.start[c]
    {
      hide Heard, Good, Count, Follows, Excused, AllJoins, AllLeaves, Start;
      StartGood(Cases(), inbox);
      TakeInbox();
      var active: nat := len;
      ghost var p := Start(Cases());
      ghost var start := p.ledger.start;
      nsent := 0;
      var round: nat := 0;
      moves := Moves(multiset{}, multiset{}, multiset{});
      NothingPlayed(rounds, live);
      NobodyLeft(Cases(), waiting);
      while true
        invariant fresh(sendCases) && Valid()
        invariant p.cases == Cases() && p.active == active && Good(p)
        invariant p.ledger.start == start && nsent == |p.ledger.delivered|
        invariant round <= |rounds| && Follows(moves, AllJoins(rounds, round), AllLeaves(rounds, round), old(live), live)
        invariant Excused(p.ledger, old(waiting), waiting, moves.asked)
        decreases active + len
      {
        ghost var q := p;
        var sent;
        active, sent, p := TrySends(p, active);
        StillHeard(q, p, inbox, live, waiting);
        StillExcused(q.ledger, p.ledger, old(waiting), waiting, moves.asked);
        nsent := nsent + sent;
        if active == FIRST_SUB {
          break;
        }
        // meanwhile others join or begin to leave
        ghost var asked, w := moves.asked, waiting;
        ghost var more;
        round, moves, more := PlayRound(rounds, round, moves, old(live));
        MoreAsk(p.ledger, old(waiting), w, asked, more);
        ghost var heard;
        ghost var l, wait := p.ledger, waiting;
        active, sent, p, heard := Select(p, active);
        OneIsHeard(l, p.ledger, old(waiting), wait, moves.asked, heard);
        nsent := nsent + sent;
      }
      ledger, used := p.ledger, round;
      EndPartition(p);
      OnlyAskersLeave(ledger, old(waiting), waiting, moves, AllJoins(rounds, used), AllLeaves(rounds, used), old(live), live);
    }
  }

  lemma {:induction false} NobodyLeft(s: seq<Case>, waiting: multiset<Case>)
    requires |s| >= FIRST_SUB
    ensures var p := Start(s);
            p.cases == s && p.active == |s| && |p.ledger.delivered| == 0 && Excused(p.ledger, waiting, waiting, multiset{})
  {
  }

  lemma {:induction false} NothingPlayed(rounds: seq<seq<Action>>, live: multiset<Case>)
    ensures Follows(Moves(multiset{}, multiset{}, multiset{}), AllJoins(rounds, 0), AllLeaves(rounds, 0), live, live)
  {
  }

  lemma {:induction false} NoMoves(live: multiset<Case>)
    ensures Follows(Moves(multiset{}, multiset{}, multiset{}), multiset{}, multiset{}, live, live)
  {
  }

  lemma {:induction false} OnlyAskersLeave(l: Ledger, before: multiset<Case>, after: multiset<Case>, m: Moves,
                                  joins: multiset<Case>, leaves: multiset<Case>, live: multiset<Case>, live': multiset<Case>)
    requires l.start == l.delivered + l.early && Excused(l, before, after, m.asked)
    requires Follows(m, joins, leaves, live, live')
    ensures forall c :: c !in before && c !in leaves ==> l.delivered[c] == l.start[c]
  {
    forall c | c !in before && c !in leaves ensures l.delivered[c] == l.start[c] {
      assert (m.asked + m.withdrawn)[c] <= leaves[c];
      assert (l.early + l.late + after)[c] == (before + m.asked)[c];
    }
  }

  lemma {:induction false} CountMultiset(s: seq<Case>, lo: nat, hi: nat, c: Case)
    requires lo <= hi <= |s|
    ensures multiset(s[lo..hi])[c] == Count(s, lo, hi, c)
    decreases hi
  {
    if lo < hi {
      CountMultiset(s, lo, hi - 1, c);
      assert s[lo..hi] == s[lo..hi - 1] + [s[hi - 1]];
    }
  }

  lemma {:induction false} StartCount(cases: seq<Case>, inbox: seq<Case>, c: Case)
    requires |cases| >= FIRST_SUB
    ensures Count(cases + inbox, FIRST_SUB, |cases + inbox|, c) == Count(cases, FIRST_SUB, |cases|, c) + Count(inbox, 0, |inbox|, c)
  {
    CountSplit(cases + inbox, FIRST_SUB, |cases|, |cases + inbox|, c);
    CountSame(cases, FIRST_SUB, |cases|, cases + inbox, 0, c);
    CountSame(inbox, 0, |inbox|, cases + inbox, |cases|, c);
  }

  /** A send begins with everybody waiting. */
  ghost function Start(s: seq<Case>): Progress
    requires |s| >= FIRST_SUB
  {
    Progress(s, |s|, Ledger(multiset(s[FIRST_SUB..|s|]), multiset{}, multiset{}, multiset{}))
  }

  lemma {:induction false} StartGood(cases: seq<Case>, inbox: seq<Case>)
    requires WellShaped(cases) && forall i :: 0 <= i < |inbox| ==> inbox[i].Sub?
    ensures Good(Start(cases + inbox))
    ensures forall c :: Start(cases + inbox).ledger.start[c] == Count(cases, FIRST_SUB, |cases|, c) + Count(inbox, 0, |inbox|, c)
  {
    var s := cases + inbox;
    forall c ensures Start(s).ledger.start[c] == Count(cases, FIRST_SUB, |cases|, c) + Count(inbox, 0, |inbox|, c) {
      CountMultiset(s, FIRST_SUB, |s|, c);
      StartCount(cases, inbox, c);
    }
    forall c ensures BalancedAt(s, |s|, Start(s).ledger, c) {
      CountMultiset(s, FIRST_SUB, |s|, c);
    }
  }

  /** When nobody waits any more, the ledger is a partition. */
  lemma {:induction false} EndPartition(p: Progress)
    requires Good(p) && p.active == FIRST_SUB
    ensures p.ledger.start == p.ledger.delivered + p.ledger.early
    ensures forall c :: Count(p.cases, FIRST_SUB, |p.cases|, c) + p.ledger.late[c] == p.ledger.delivered[c]
  {
    forall c ensures p.ledger.start[c] == p.ledger.delivered[c] + p.ledger.early[c] {
      assert BalancedAt(p.cases, p.active, p.ledger, c);
    }
    forall c ensures Count(p.cases, FIRST_SUB, |p.cases|, c) + p.ledger.late[c] == p.ledger.delivered[c] {
      assert BalancedAt(p.cases, p.active, p.ledger, c);
    }
  }
}
