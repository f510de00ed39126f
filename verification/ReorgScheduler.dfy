/** The loop that coalesces reset and promotion requests into background pool reorganisations. */
module ReorgScheduler {
  import opened Common

  type Head = nat

  datatype ResetRequest = ResetRequest(oldHead: Option<Head>, newHead: Option<Head>)

  datatype Status = Launched | Cancelled | Worked

  /** One background run: the cancel channel and the merged requests it was given, what its first
      look at the cancel channel led to, and whether its done channel is closed. Runs are numbered
      by launch order and the number stands for the done channel. */
  datatype Run = Run(cancel: nat, reset: Option<ResetRequest>, dirty: Option<set<Address>>, status: Status, closed: bool)

  datatype Call = Reset(request: ResetRequest) | Promote(accounts: set<Address>)

  /** A request with the done channel its caller was handed. */
  datatype Request = Request(call: Call, done: nat)

  /** What can happen next: a caller's request, a step of a background run, or the loop noticing that
      the current run is done. */
  datatype Event =
    | Requested(call: Call)
    | RunLooksAtCancel(run: nat)
    | RunCloses(run: nat)
    | LoopSeesDone

  // ----- the reference: one queue of calls, served in batches -----

  /** A batch of calls that a run serves, and how far the run has got. */
  datatype Batch = Batch(calls: seq<Call>, worked: bool, closed: bool)

  /** The batches so far, the calls that none of them serves yet, and whether the last batch is still waited for. */
  datatype Schedule = Schedule(batches: seq<Batch>, pending: seq<Call>, busy: bool)

  function Handled(s: Schedule, e: Event): Schedule {
    match e
    case Requested(call) => s.(pending := s.pending + [call])
    case RunLooksAtCancel(i) =>
      if i < |s.batches| then s.(batches := s.batches[i := s.batches[i].(worked := true)]) else s
    case RunCloses(i) =>
      if i < |s.batches| && s.batches[i].worked then s.(batches := s.batches[i := s.batches[i].(closed := true)]) else s
    case LoopSeesDone =>
      if s.busy && |s.batches| > 0 && s.batches[|s.batches| - 1].closed then s.(busy := false) else s
  }

  /** When nothing is waited for, all pending calls become the next batch. */
  function Started(s: Schedule): Schedule {
    if s.busy || s.pending == [] then s else Schedule(s.batches + [Batch(s.pending, false, false)], [], true)
  }

  function After(events: seq<Event>, n: nat): Schedule
    requires n <= |events|
  {
    if n == 0 then Schedule([], [], false) else Started(Handled(After(events, n - 1), events[n - 1]))
  }

  /** The calls among the first `n` events. */
  function CallsOf(events: seq<Event>, n: nat): seq<Call>
    requires n <= |events|
  {
    if n == 0 then [] else CallsOf(events, n - 1) + if events[n - 1].Requested? then [events[n - 1].call] else []
  }

  function Served(batches: seq<Batch>): seq<Call> {
    if batches == [] then [] else Served(batches[..|batches| - 1]) + batches[|batches| - 1].calls
  }

  lemma {:induction false} ServedAppend(batches: seq<Batch>, b: Batch)
    ensures Served(batches + [b]) == Served(batches) + b.calls
  {
    assert (batches + [b])[..|batches|] == batches;
  }

  lemma {:induction false} ServedSame(batches: seq<Batch>, i: nat, b: Batch)
    requires i < |batches| && b.calls == batches[i].calls
    ensures Served(batches[i := b]) == Served(batches)
    decreases |batches|
  {
    var init := batches[..|batches| - 1];
    if i < |batches| - 1 {
      assert batches[i := b][..|batches| - 1] == init[i := b];
      ServedSame(init, i, b);
    } else {
      assert batches[i := b][..|batches| - 1] == init;
    }
  }

  /** The batches and the pending calls are the given calls, and calls are pending only while a batch is waited for. */
  ghost predicate Queues(s: Schedule, calls: seq<Call>) {
    && Served(s.batches) + s.pending == calls && (s.pending != [] ==> s.busy)
    && forall i :: 0 <= i < |s.batches| ==> s.batches[i].calls != []
  }

  lemma {:induction false} HandledQueues(s: Schedule, e: Event, calls: seq<Call>)
    requires Queues(s, calls)
    ensures var next := Handled(s, e);
            && Served(next.batches) + next.pending == calls + (if e.Requested? then [e.call] else [])
            && forall i :: 0 <= i < |next.batches| ==> next.batches[i].calls != []
  {
    hide Served;
    match e
    case Requested(call) =>
      assert Served(s.batches) + (s.pending + [call]) == Served(s.batches) + s.pending + [call];
    case RunLooksAtCancel(i) =>
      assert calls + [] == calls;
      if i < |s.batches| {
        ServedSame(s.batches, i, s.batches[i].(worked := true));
      }
    case RunCloses(i) =>
      assert calls + [] == calls;
      if i < |s.batches| && s.batches[i].worked {
        ServedSame(s.batches, i, s.batches[i].(closed := true));
      }
    case LoopSeesDone =>
      assert calls + [] == calls;
  }

  lemma {:induction false} StartedQueues(s: Schedule, calls: seq<Call>)
    requires Served(s.batches) + s.pending == calls && forall i :: 0 <= i < |s.batches| ==> s.batches[i].calls != []
    ensures Queues(Started(s), calls)
  {
    if !s.busy && s.pending != [] {
      ServedAppend(s.batches, Batch(s.pending, false, false));
      assert calls + [] == calls;
    }
  }

  /** Every call is served by exactly one batch or still pending, in the order of the calls; and calls are pending
      only while a batch is waited for. */
  lemma {:induction false} EachCallOnce(events: seq<Event>, n: nat)
    requires n <= |events|
    ensures Queues(After(events, n), CallsOf(events, n))
  {
    hide Handled, Started, Served;
    if n == 0 {
      NothingQueued();
    } else {
      EachCallOnce(events, n - 1);
      HandledQueues(After(events, n - 1), events[n - 1], CallsOf(events, n - 1));
      StartedQueues(Handled(After(events, n - 1), events[n - 1]), CallsOf(events, n));
    }
  }

  lemma {:induction false} NothingQueued()
    ensures Queues(Schedule([], [], false), [])
  {
  }

  /** Once the current run has worked and closed and the loop has seen it, whatever was pending is being served. */
  lemma {:induction false} PendingIsServed(events: seq<Event>, n: nat)
    requires n + 3 <= |events| && After(events, n).busy && After(events, n).batches != []
    requires var last := |After(events, n).batches| - 1;
             events[n] == RunLooksAtCancel(last) && events[n + 1] == RunCloses(last) && events[n + 2] == LoopSeesDone
    ensures var before, after := After(events, n), After(events, n + 3);
            && after.pending == []
            && (before.pending != [] ==> |after.batches| == |before.batches| + 1
                                         && after.batches[|before.batches|] == Batch(before.pending, false, false))
  {
    var s0 := After(events, n);
    var last := |s0.batches| - 1;
    var s1 := s0.(batches := s0.batches[last := s0.batches[last].(worked := true)]);
    assert After(events, n + 1) == s1;
    var s2 := s1.(batches := s1.batches[last := s1.batches[last].(closed := true)]);
    assert After(events, n + 2) == s2;
  }

  // ----- what a run must have been given -----

  /** The requests whose callers wait on the given run, oldest first. */
  function WaitingOn(requests: seq<Request>, run: nat): seq<Call> {
    if requests == [] then []
    else
      var rest, r := WaitingOn(requests[..|requests| - 1], run), requests[|requests| - 1];
      if r.done == run then rest + [r.call] else rest
  }

  function Resets(calls: seq<Call>): seq<ResetRequest> {
    if calls == [] then []
    else
      var rest, c := Resets(calls[..|calls| - 1]), calls[|calls| - 1];
      if c.Reset? then rest + [c.request] else rest
  }

  function Promoted(calls: seq<Call>): set<Address> {
    if calls == [] then {}
    else
      var rest, c := Promoted(calls[..|calls| - 1]), calls[|calls| - 1];
      if c.Promote? then rest + c.accounts else rest
  }

  predicate AnyPromote(calls: seq<Call>) {
    calls != [] && (calls[|calls| - 1].Promote? || AnyPromote(calls[..|calls| - 1]))
  }

  /** The merged reset keeps the first old head and the last new head. */
  ghost predicate MergesResets(reset: Option<ResetRequest>, resets: seq<ResetRequest>) {
    if resets == [] then reset.None?
    else reset == Some(ResetRequest(resets[0].oldHead, resets[|resets| - 1].newHead))
  }

  /** The merged account set is the union of the requested ones. */
  ghost predicate MergesAccounts(dirty: Option<set<Address>>, calls: seq<Call>) {
    && (dirty.Some? <==> AnyPromote(calls))
    && (dirty.Some? ==> dirty.value == Promoted(calls))
  }

  ghost predicate Merges(reset: Option<ResetRequest>, dirty: Option<set<Address>>, calls: seq<Call>) {
    MergesResets(reset, Resets(calls)) && MergesAccounts(dirty, calls)
  }

  /** The accounts a run tries to promote: all queued ones if it resets, else the merged set. */
  function PromoteSet(run: Run, queued: set<Address>): set<Address> {
    if run.reset.Some? then queued else if run.dirty.Some? then run.dirty.value else {}
  }

  // ----- lemmas about merging -----

  lemma {:induction false} WaitingOnAppend(requests: seq<Request>, r: Request, run: nat)
    ensures WaitingOn(requests + [r], run) == WaitingOn(requests, run) + if r.done == run then [r.call] else []
  {
    assert (requests + [r])[..|requests|] == requests;
  }

  lemma {:induction false} NoneWaiting(requests: seq<Request>, run: nat)
    requires forall k :: 0 <= k < |requests| ==> requests[k].done < run
    ensures WaitingOn(requests, run) == []
  {
    if requests != [] {
      NoneWaiting(requests[..|requests| - 1], run);
    }
  }

  lemma {:induction false} MergeReset(reset: Option<ResetRequest>, dirty: Option<set<Address>>, calls: seq<Call>, req: ResetRequest)
    requires Merges(reset, dirty, calls)
    ensures var reset' := if reset.None? then Some(req) else Some(ResetRequest(reset.value.oldHead, req.newHead));
            Merges(reset', dirty, calls + [Reset(req)])
  {
    var calls' := calls + [Reset(req)];
    assert calls'[..|calls|] == calls;
    assert Promoted(calls') == Promoted(calls);
    assert Resets(calls') == Resets(calls) + [req];
  }

  lemma {:induction false} MergePromote(reset: Option<ResetRequest>, dirty: Option<set<Address>>, calls: seq<Call>, accounts: set<Address>)
    requires Merges(reset, dirty, calls)
    ensures var dirty' := if dirty.None? then Some(accounts) else Some(dirty.value + accounts);
            Merges(reset, dirty', calls + [Promote(accounts)])
  {
    var calls' := calls + [Promote(accounts)];
    assert calls'[..|calls|] == calls;
    if dirty.None? {
      NothingPromoted(calls);
    }
    assert Promoted(calls') == Promoted(calls) + accounts;
    assert Resets(calls') == Resets(calls);
  }

  lemma {:induction false} NothingPromoted(calls: seq<Call>)
    requires !AnyPromote(calls)
    ensures Promoted(calls) == {}
  {
    if calls != [] {
      NothingPromoted(calls[..|calls| - 1]);
    }
  }

  /** A waiting request is honoured by the merged ones: a reset request by a reset, a promotion by a run
      that tries to promote all of its accounts that have anything queued. */
  ghost predicate Covers(run: Run, call: Call) {
    match call
    case Reset(_) => run.reset.Some?
    case Promote(accounts) => forall queued {:trigger PromoteSet(run, queued)} :: accounts * queued <= PromoteSet(run, queued)
  }

  lemma {:induction false} MergedCovers(run: Run, calls: seq<Call>, k: nat)
    requires Merges(run.reset, run.dirty, calls) && k < |calls|
    ensures Covers(run, calls[k])
  {
    if calls[k].Reset? {
      ResetsContain(calls, k);
    } else {
      PromotedContain(calls, k);
    }
  }

  lemma {:induction false} ResetsContain(calls: seq<Call>, k: nat)
    requires k < |calls| && calls[k].Reset?
    ensures Resets(calls) != []
    decreases |calls|
  {
    if k < |calls| - 1 {
      ResetsContain(calls[..|calls| - 1], k);
    }
  }

  lemma {:induction false} PromotedContain(calls: seq<Call>, k: nat)
    requires k < |calls| && calls[k].Promote?
    ensures calls[k].accounts <= Promoted(calls) && AnyPromote(calls)
    decreases |calls|
  {
    if k < |calls| - 1 {
      PromotedContain(calls[..|calls| - 1], k);
    }
  }

  lemma {:induction false} WaitingContains(requests: seq<Request>, k: nat)
    requires k < |requests|
    ensures requests[k].call in WaitingOn(requests, requests[k].done)
    decreases |requests|
  {
    if k < |requests| - 1 {
      WaitingContains(requests[..|requests| - 1], k);
    }
  }

  // ----- the loop -----

  /** Every launched run but the last has done its work and closed its channel; the last one is active
      at most while the loop still waits for it. No run has seen a closed cancel channel. */
  ghost predicate RunsInOrder(runs: seq<Run>, curDone: Option<nat>, cancelCh: nat, closedCancels: set<nat>) {
    && (forall i :: 0 <= i < |runs| ==> runs[i].status != Cancelled && (runs[i].closed ==> runs[i].status == Worked))
    && (forall i :: 0 <= i < |runs| - 1 ==> runs[i].closed)
    && (curDone.Some? ==> |runs| > 0 && curDone.value == |runs| - 1)
    && (curDone.None? && |runs| > 0 ==> runs[|runs| - 1].closed)
    && cancelCh !in closedCancels && (forall c :: c in closedCancels ==> c < cancelCh)
    && (|runs| > 0 ==> runs[|runs| - 1].cancel == cancelCh)
  }

  /** Each run was given exactly what the callers waiting on it asked for, and the requests not yet
      launched are merged in the loop's own variables. */
  ghost predicate RequestsKept(requests: seq<Request>, runs: seq<Run>, launch: bool, reset: Option<ResetRequest>, dirty: Option<set<Address>>) {
    && (forall k :: 0 <= k < |requests| ==> requests[k].done <= |runs|)
    && (forall i :: 0 <= i < |runs| ==> Merges(runs[i].reset, runs[i].dirty, WaitingOn(requests, i)))
    && Merges(reset, dirty, WaitingOn(requests, |runs|))
    && (launch <==> WaitingOn(requests, |runs|) != [])
  }

  lemma {:induction false} RequestStep(requests: seq<Request>, runs: seq<Run>, launch: bool, reset: Option<ResetRequest>, dirty: Option<set<Address>>,
                    call: Call, reset': Option<ResetRequest>, dirty': Option<set<Address>>)
    requires RequestsKept(requests, runs, launch, reset, dirty)
    requires Merges(reset', dirty', WaitingOn(requests, |runs|) + [call])
    ensures RequestsKept(requests + [Request(call, |runs|)], runs, true, reset', dirty')
  {
    hide Merges, WaitingOn;
    var r := Request(call, |runs|);
    WaitingOnAppend(requests, r, |runs|);
    forall i | 0 <= i < |runs| ensures Merges(runs[i].reset, runs[i].dirty, WaitingOn(requests + [r], i)) {
      WaitingOnAppend(requests, r, i);
      assert WaitingOn(requests, i) + [] == WaitingOn(requests, i);
    }
  }

  lemma {:induction false} ResetArrives(requests: seq<Request>, runs: seq<Run>, launch: bool, reset: Option<ResetRequest>, dirty: Option<set<Address>>, req: ResetRequest)
    requires RequestsKept(requests, runs, launch, reset, dirty)
    ensures RequestsKept(requests + [Request(Reset(req), |runs|)], runs, true,
                         if reset.None? then Some(req) else Some(ResetRequest(reset.value.oldHead, req.newHead)), dirty)
  {
    MergeReset(reset, dirty, WaitingOn(requests, |runs|), req);
    RequestStep(requests, runs, launch, reset, dirty, Reset(req),
                if reset.None? then Some(req) else Some(ResetRequest(reset.value.oldHead, req.newHead)), dirty);
  }

  lemma {:induction false} PromoteArrives(requests: seq<Request>, runs: seq<Run>, launch: bool, reset: Option<ResetRequest>, dirty: Option<set<Address>>, accounts: set<Address>)
    requires RequestsKept(requests, runs, launch, reset, dirty)
    ensures RequestsKept(requests + [Request(Promote(accounts), |runs|)], runs, true,
                         reset, if dirty.None? then Some(accounts) else Some(dirty.value + accounts))
  {
    MergePromote(reset, dirty, WaitingOn(requests, |runs|), accounts);
    RequestStep(requests, runs, launch, reset, dirty, Promote(accounts),
                reset, if dirty.None? then Some(accounts) else Some(dirty.value + accounts));
  }

  lemma {:induction false} LaunchStep(requests: seq<Request>, runs: seq<Run>, reset: Option<ResetRequest>, dirty: Option<set<Address>>, cancel: nat)
    requires RequestsKept(requests, runs, true, reset, dirty)
    ensures RequestsKept(requests, runs + [Run(cancel, reset, dirty, Launched, false)], false, None, None)
  {
    NoneWaiting(requests, |runs| + 1);
  }

  lemma {:induction false} UpdateRun(requests: seq<Request>, runs: seq<Run>, launch: bool, reset: Option<ResetRequest>, dirty: Option<set<Address>>, i: nat, run: Run)
    requires RequestsKept(requests, runs, launch, reset, dirty)
    requires i < |runs| && run.reset == runs[i].reset && run.dirty == runs[i].dirty
    ensures RequestsKept(requests, runs[i := run], launch, reset, dirty)
  {
  }

  // ----- the loop refines the reference -----

  function CallsIn(requests: seq<Request>): seq<Call> {
    if requests == [] then [] else CallsIn(requests[..|requests| - 1]) + [requests[|requests| - 1].call]
  }

  lemma {:induction false} CallsAppend(requests: seq<Request>, r: Request)
    ensures CallsIn(requests + [r]) == CallsIn(requests) + [r.call]
  {
    assert (requests + [r])[..|requests|] == requests;
  }

  ghost predicate IsBatch(requests: seq<Request>, run: Run, i: nat, b: Batch) {
    b == Batch(WaitingOn(requests, i), run.status == Worked, run.closed)
  }

  /** The runs are the batches, each serving the callers that hold its done channel. */
  ghost predicate Refines(requests: seq<Request>, runs: seq<Run>, busy: bool, s: Schedule) {
    && |runs| == |s.batches| && s.busy == busy && s.pending == WaitingOn(requests, |runs|)
    && (forall k :: 0 <= k < |requests| ==> requests[k].done <= |runs|)
    && forall i {:trigger runs[i]} :: 0 <= i < |runs| ==> IsBatch(requests, runs[i], i, s.batches[i])
  }

  lemma {:induction false} RefinesRequest(requests: seq<Request>, runs: seq<Run>, busy: bool, s: Schedule, call: Call)
    requires Refines(requests, runs, busy, s)
    ensures Refines(requests + [Request(call, |runs|)], runs, busy, Handled(s, Requested(call)))
  {
    var r := Request(call, |runs|);
    WaitingOnAppend(requests, r, |runs|);
    forall i {:trigger runs[i]} | 0 <= i < |runs| ensures IsBatch(requests + [r], runs[i], i, s.batches[i]) {
      WaitingOnAppend(requests, r, i);
      assert WaitingOn(requests, i) + [] == WaitingOn(requests, i);
    }
  }

  lemma {:induction false} RefinesLooks(requests: seq<Request>, runs: seq<Run>, busy: bool, s: Schedule, i: nat)
    requires Refines(requests, runs, busy, s)
    ensures Refines(requests, if i < |runs| then runs[i := runs[i].(status := Worked)] else runs, busy,
                    Handled(s, RunLooksAtCancel(i)))
  {
    hide WaitingOn;
  }

  lemma {:induction false} RefinesCloses(requests: seq<Request>, runs: seq<Run>, busy: bool, s: Schedule, i: nat)
    requires Refines(requests, runs, busy, s)
    ensures Refines(requests, if i < |runs| && runs[i].status == Worked then runs[i := runs[i].(closed := true)] else runs, busy,
                    Handled(s, RunCloses(i)))
  {
    hide WaitingOn;
    if i < |runs| {
      assert IsBatch(requests, runs[i], i, s.batches[i]);
    }
  }

  lemma {:induction false} RefinesDone(requests: seq<Request>, runs: seq<Run>, busy: bool, s: Schedule)
    requires Refines(requests, runs, busy, s) && (busy ==> |runs| > 0)
    ensures Refines(requests, runs, busy && !runs[|runs| - 1].closed, Handled(s, LoopSeesDone))
  {
    hide WaitingOn;
    if busy {
      assert IsBatch(requests, runs[|runs| - 1], |runs| - 1, s.batches[|runs| - 1]);
    }
  }

  /** A run is wanted exactly if calls are pending. */
  lemma {:induction false} WantedIffPending(requests: seq<Request>, runs: seq<Run>, busy: bool, s: Schedule, launch: bool,
                           reset: Option<ResetRequest>, dirty: Option<set<Address>>)
    requires Refines(requests, runs, busy, s) && RequestsKept(requests, runs, launch, reset, dirty)
    ensures launch <==> s.pending != []
    ensures busy || !launch ==> Started(s) == s
  {
    hide WaitingOn, Merges;
  }

  lemma {:induction false} RefinesLaunch(requests: seq<Request>, runs: seq<Run>, s: Schedule, run: Run)
    requires Refines(requests, runs, false, s) && s.pending != [] && run.status == Launched && !run.closed
    ensures Refines(requests, runs + [run], true, Started(s))
  {
    NoneWaiting(requests, |runs| + 1);
  }

  /** The variables of the scheduling loop, with the history of its callers and of the runs it started. */
  class Loop {
    var curDone: Option<nat>
    var launchNextRun: bool
    var reset: Option<ResetRequest>
    var dirtyAccounts: Option<set<Address>>
    var cancelCh: nat
    var closedCancels: set<nat>
    var requests: seq<Request>
    var runs: seq<Run>

    ghost predicate Valid()
      reads this
    {
      && RunsInOrder(runs, curDone, cancelCh, closedCancels)
      && RequestsKept(requests, runs, launchNextRun, reset, dirtyAccounts)
    }

    constructor ()
      ensures Valid() && requests == [] && runs == [] && curDone.None? && !launchNextRun
    {
      curDone, launchNextRun, reset, dirtyAccounts := None, false, None, None;
      cancelCh, closedCancels := 0, {};
      requests, runs := [], [];
    }

    /** The head of the loop: start the next run if one is wanted and none is current. */
    method LaunchIfIdle()
      requires Valid()
      modifies this
      ensures Valid() && requests == old(requests)
      ensures curDone.None? ==> !launchNextRun
      ensures if old(curDone).None? && old(launchNextRun)
              then curDone.Some? && cancelCh == old(cancelCh) + 1 && runs == old(runs) + [Run(cancelCh, old(reset), old(dirtyAccounts), Launched, false)]
              else curDone == old(curDone) && runs == old(runs)
      ensures closedCancels == old(closedCancels) + if cancelCh != old(cancelCh) then {old(cancelCh)} else {}
    {
      hide Merges, WaitingOn;
      if curDone.None? && launchNextRun {
        LaunchStep(requests, runs, reset, dirtyAccounts, cancelCh + 1);
        closedCancels := closedCancels + {cancelCh};
        cancelCh := cancelCh + 1;
        runs := runs + [Run(cancelCh, reset, dirtyAccounts, Launched, false)];
        curDone := Some(|runs| - 1);
        launchNextRun := false;
        reset, dirtyAccounts := None, None;
      }
    }

    method OnReset(req: ResetRequest)
      requires Valid()
      modifies this`reset, this`launchNextRun, this`requests
      ensures Valid() && requests == old(requests) + [Request(Reset(req), |runs|)]
    {
      hide Merges, RunsInOrder, RequestsKept;
      ResetArrives(requests, runs, launchNextRun, reset, dirtyAccounts, req);
      if reset.None? {
        reset := Some(req);
      } else {
        reset := Some(ResetRequest(reset.value.oldHead, req.newHead));
      }
      launchNextRun := true;
      requests := requests + [Request(Reset(req), |runs|)];
    }

    method OnPromote(accounts: set<Address>)
      requires Valid()
      modifies this`dirtyAccounts, this`launchNextRun, this`requests
      ensures Valid() && requests == old(requests) + [Request(Promote(accounts), |runs|)]
    {
      hide Merges, RunsInOrder, RequestsKept;
      PromoteArrives(requests, runs, launchNextRun, reset, dirtyAccounts, accounts);
      if dirtyAccounts.None? {
        dirtyAccounts := Some(accounts);
      } else {
        dirtyAccounts := Some(dirtyAccounts.value + accounts);
      }
      launchNextRun := true;
      requests := requests + [Request(Promote(accounts), |runs|)];
    }

    /** A started run looks at its cancel channel once, and works unless it is closed. */
    method RunLooks(i: nat)
      requires Valid()
      modifies this`runs
      ensures Valid()
      ensures runs == if i < |old(runs)| then old(runs)[i := old(runs)[i].(status := Worked)] else old(runs)
    {
      if i < |runs| && runs[i].status == Launched {
        var run := runs[i].(status := if runs[i].cancel in closedCancels then Cancelled else Worked);
        UpdateRun(requests, runs, launchNextRun, reset, dirtyAccounts, i, run);
        runs := runs[i := run];
      }
    }

    method RunCloses(i: nat)
      requires Valid()
      modifies this`runs
      ensures Valid()
      ensures runs == if i < |old(runs)| && old(runs)[i].status == Worked then old(runs)[i := old(runs)[i].(closed := true)]
                      else old(runs)
    {
      if i < |runs| && runs[i].status != Launched {
        UpdateRun(requests, runs, launchNextRun, reset, dirtyAccounts, i, runs[i].(closed := true));
        runs := runs[i := runs[i].(closed := true)];
      }
    }

    method OnCurDone()
      requires Valid()
      modifies this`curDone
      ensures Valid()
      ensures curDone == if old(curDone).Some? && runs[|runs| - 1].closed then None else old(curDone)
    {
      if curDone.Some? && runs[curDone.value].closed {
        curDone := None;
      }
    }
  }

  lemma {:induction false} AllCovered(requests: seq<Request>, runs: seq<Run>, k: nat)
    requires forall i :: 0 <= i < |runs| ==> Merges(runs[i].reset, runs[i].dirty, WaitingOn(requests, i))
    requires k < |requests| && requests[k].done < |runs|
    ensures Covers(runs[requests[k].done], requests[k].call)
  {
    WaitingContains(requests, k);
    var calls := WaitingOn(requests, requests[k].done);
    var m :| 0 <= m < |calls| && calls[m] == requests[k].call;
    MergedCovers(runs[requests[k].done], calls, m);
  }

  lemma {:induction false} WaitingIsEmpty(requests: seq<Request>, run: nat, k: nat)
    requires WaitingOn(requests, run) == [] && k < |requests|
    ensures requests[k].done != run
    decreases |requests|
  {
    if k < |requests| - 1 {
      WaitingIsEmpty(requests[..|requests| - 1], run, k);
    }
  }

  lemma {:induction false} RefinesStart()
    ensures Refines([], [], false, Schedule([], [], false))
  {
  }

  /** One round of the loop. */
  method HandleEvent(loop: Loop, e: Event, ghost s: Schedule)
    requires loop.Valid() && Refines(loop.requests, loop.runs, loop.curDone.Some?, s)
    modifies loop
    ensures loop.Valid() && (loop.curDone.None? ==> !loop.launchNextRun)
    ensures CallsIn(loop.requests) == CallsIn(old(loop.requests)) + if e.Requested? then [e.call] else []
    ensures Refines(loop.requests, loop.runs, loop.curDone.Some?, Started(Handled(s, e)))
  {
    hide RequestsKept, Refines, Handled, Started, CallsIn;
    ghost var busy := loop.curDone.Some?;
    match e {
      case Requested(call) =>
        CallsAppend(loop.requests, Request(call, |loop.runs|));
        RefinesRequest(loop.requests, loop.runs, busy, s, call);
        if call.Reset? {
          loop.OnReset(call.request);
        } else {
          loop.OnPromote(call.accounts);
        }
      case RunLooksAtCancel(i) =>
        RefinesLooks(loop.requests, loop.runs, busy, s, i);
        loop.RunLooks(i);
      case RunCloses(i) =>
        RefinesCloses(loop.requests, loop.runs, busy, s, i);
        loop.RunCloses(i);
      case LoopSeesDone =>
        RefinesDone(loop.requests, loop.runs, busy, s);
        loop.OnCurDone();
    }
    assert CallsIn(loop.requests) == CallsIn(old(loop.requests)) + if e.Requested? then [e.call] else [];
    Launch(loop, Handled(s, e));
  }

  /** The head of the loop, against the reference. */
  method Launch(loop: Loop, ghost s: Schedule)
    requires loop.Valid() && Refines(loop.requests, loop.runs, loop.curDone.Some?, s)
    modifies loop
    ensures loop.Valid() && (loop.curDone.None? ==> !loop.launchNextRun) && loop.requests == old(loop.requests)
    ensures Refines(loop.requests, loop.runs, loop.curDone.Some?, Started(s))
  {
    hide RunsInOrder, RequestsKept, Refines, Started;
    WantedIffPending(loop.requests, loop.runs, loop.curDone.Some?, s, loop.launchNextRun, loop.reset, loop.dirtyAccounts);
    if loop.curDone.None? && loop.launchNextRun {
      RefinesLaunch(loop.requests, loop.runs, s, Run(loop.cancelCh + 1, loop.reset, loop.dirtyAccounts, Launched, false));
    }
    loop.LaunchIfIdle();
  }

  /** The scheduling loop, run against any sequence of events; an event that is not possible in the
      current state is passed over. */
  method ScheduleReorgLoop(events: seq<Event>) returns (requests: seq<Request>, runs: seq<Run>, waiting: bool)
    // the requests are exactly the calls that came, and everything that happened is what the reference gives
    ensures CallsIn(requests) == CallsOf(events, |events|)
    ensures Refines(requests, runs, waiting, After(events, |events|))
    // at most one run is active
    ensures forall i, j :: 0 <= i < |runs| && 0 <= j < |runs| && !runs[i].closed && !runs[j].closed ==> i == j
    // no run is cancelled before its work, and a closed done channel means the work was done
    ensures forall i :: 0 <= i < |runs| ==> runs[i].status != Cancelled && (runs[i].closed ==> runs[i].status == Worked)
    // every run works on exactly the requests whose callers hold its done channel
    ensures forall i :: 0 <= i < |runs| ==> Merges(runs[i].reset, runs[i].dirty, WaitingOn(requests, i))
    // every request is covered by the run it waits on, or waits for the next launch
    ensures forall k :: 0 <= k < |requests| && requests[k].done < |runs| ==> Covers(runs[requests[k].done], requests[k].call)
    ensures forall k :: 0 <= k < |requests| ==> requests[k].done <= |runs|
    // a request is left for a later launch only while the loop waits for the current run
    ensures !waiting ==> forall k :: 0 <= k < |requests| ==> requests[k].done < |runs|
  {
    hide Merges, Refines, Handled, Started, WaitingOn;
    var loop := new Loop();
    RefinesStart();
    for n := 0 to |events|
      invariant fresh(loop) && loop.Valid()
      invariant loop.curDone.None? ==> !loop.launchNextRun
      invariant CallsIn(loop.requests) == CallsOf(events, n)
      invariant Refines(loop.requests, loop.runs, loop.curDone.Some?, After(events, n))
    {
      HandleEvent(loop, events[n], After(events, n));
    }
    requests, runs, waiting := loop.requests, loop.runs, loop.curDone.Some?;
    forall k | 0 <= k < |requests| && requests[k].done < |runs|
      ensures Covers(runs[requests[k].done], requests[k].call)
    {
      AllCovered(requests, runs, k);
    }
    if !waiting {
      forall k | 0 <= k < |requests| ensures requests[k].done < |runs| {
        WaitingIsEmpty(requests, |runs|, k);
      }
    }
  }
}
