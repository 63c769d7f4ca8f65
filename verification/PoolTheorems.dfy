/** The invariant holds in every state a run reaches, and what follows from it. */
module PoolTheorems {
  import opened PoolQueue
  import opened PoolModel
  import opened PoolInvariant
  import opened PoolSteps
  import opened PoolFrames
  import opened PoolWakeups
  import opened Prelude

  // ----- the invariant over runs

  lemma InvCovers(s: State, tid: nat)
    requires Inv(s) && tid < |s.threads|
    ensures LocalOk(s.workers, tid, s.sh, s.threads[tid]) && HeadOk(s.sh)
  {
    var th := s.threads[tid];
    forall k | Conserved(k) ensures StackSum(k, th.stack) <= Counter(s.sh, k) {
      TotalUpdate(k, s.threads, tid, th);
    }
    if th.stack.Cons? {
      assert Conserved(Unfinished(TopRegion(th.stack.top)));
    }
    assert Conserved(Live) && Conserved(WorkerRun);
    if s.sh.pool.queue != [] && s.sh.pool.queue[0].Helper? {
      var r := s.sh.pool.queue[0].region;
      assert Counter(s.sh, Unfinished(r)) == Total(Unfinished(r), s.threads);
      assert CountOf(s.sh.pool.queue, r) > 0;
    }
  }

  /** A step of the system is a step of one thread on the shared part. */
  lemma StepShape(s: State, e: Event, s': State)
    requires Step(s, e) == Some(s')
    ensures e.tid < |s.threads| == |s'.threads| && s'.workers == s.workers
    ensures s'.threads == s.threads[e.tid := s'.threads[e.tid]]
    ensures Next(s.workers, e.tid, e.act, s.sh, s.threads[e.tid]) == Some(Local(s'.sh, s'.threads[e.tid]))
  {
    hide Next;
  }

  // The clauses of the invariant, one at a time.

  lemma InvThread(s: State, i: nat)
    requires Inv(s) && i < |s.threads|
    ensures ThreadOk(s.threads[i], i, s.workers, s.sh.regions) && (s.threads[i].exited ==> s.sh.pool.stop)
  {
    hide ThreadOk, RegionOk, OwnerSleepOk, LoopsOk, Accounted, SleeperOk;
  }

  lemma InvRegion(s: State, r: nat)
    requires Inv(s) && r < |s.sh.regions|
    ensures var g := s.sh.regions[r];
      && RegionOk(g, CountOf(s.sh.pool.queue, r)) && (g.asleep ==> g.pc.Sleep?)
      && OwnerSleepOk(g, Total(Notifying(r), s.threads)) && g.owner < |s.threads|
      && (!g.pc.Returned? ==> OwnerOnStack(s.threads[g.owner].stack, r))
  {
    hide ThreadOk, OwnerSleepOk, LoopsOk, Accounted, SleeperOk;
  }

  lemma InvSleeper(s: State, i: nat)
    requires Inv(s) && i in s.sh.pool.sleepers
    ensures i < |s.threads| && SleeperOk(s.threads[i], s.sh, Total(Announcing, s.threads))
  {
    hide ThreadOk, RegionOk, OwnerSleepOk, LoopsOk, Accounted, SleeperOk;
  }

  lemma InvAccounted(s: State)
    requires Inv(s)
    ensures Accounted(s.sh, s.threads) && LoopsOk(s)
  {
    hide ThreadOk, RegionOk, OwnerSleepOk, LoopsOk, Accounted, SleeperOk;
  }

  lemma LocalParts(s: State, tid: nat)
    requires tid < |s.threads| && LocalOk(s.workers, tid, s.sh, s.threads[tid])
    ensures Covered(s.sh, s.threads[tid])
    ensures StackOk(s.threads[tid].stack, tid, s.workers, s.sh.regions, |s.sh.regions|)
  {
  }

  lemma AbsorbedLifts(sh: Shared, th: Thread, l: Local, k: Weight)
    requires Absorbed(sh, th, l, k)
    ensures Counter(l.sh, k) - StackSum(k, l.th.stack) == Counter(sh, k) - StackSum(k, th.stack)
    ensures l.sh.accepted == l.sh.pool.active + |l.sh.finished| + |l.sh.dropped|
  {
  }

  lemma StepAccounts(s: State, e: Event, s': State)
    requires Inv(s) && Step(s, e) == Some(s')
    ensures Accounted(s'.sh, s'.threads)
  {
    hide Inv, Step, Next, LocalOk, Absorbed;
    StepShape(s, e, s');
    InvCovers(s, e.tid);
    InvAccounted(s);
    InvThread(s, e.tid);
    var th := s.threads[e.tid];
    var l := Local(s'.sh, s'.threads[e.tid]);
    assert Covered(s.sh, th)
        && StackOk(th.stack, e.tid, s.workers, s.sh.regions, |s.sh.regions|) by { LocalParts(s, e.tid); }
    hide Covered, StackOk, ThreadOk;
    forall k | Conserved(k) ensures Counter(s'.sh, k) == Total(k, s'.threads) {
      StepAbsorbs(s.workers, e.tid, e.act, s.sh, th, l, k);
      TotalUpdate(k, s.threads, e.tid, l.th);
      AbsorbedLifts(s.sh, th, l, k);
    }
    StepAbsorbs(s.workers, e.tid, e.act, s.sh, th, l, Live);
    AbsorbedLifts(s.sh, th, l, Live);
  }

  lemma StepThreads(s: State, e: Event, s': State)
    requires Inv(s) && Step(s, e) == Some(s')
    ensures forall i :: 0 <= i < |s'.threads| ==> ThreadOk(s'.threads[i], i, s'.workers, s'.sh.regions)
    ensures forall i :: 0 <= i < |s'.threads| && s'.threads[i].exited ==> s'.sh.pool.stop
    ensures RegionsOk(s'.sh) && Respects(e.tid, s.sh.regions, s'.sh.regions)
  {
    hide Inv, Step, Next, LocalOk, RegionsOk, StackMoves;
    StepShape(s, e, s');
    InvCovers(s, e.tid);
    var l := Local(s'.sh, s'.threads[e.tid]);
    StepKeepsLocal(s.workers, e.tid, e.act, s.sh, s.threads[e.tid], l);
    StepMovesStack(s.workers, e.tid, e.act, s.sh, s.threads[e.tid], l);
    InvThread(s, e.tid);
    forall i | 0 <= i < |s'.threads|
      ensures ThreadOk(s'.threads[i], i, s'.workers, s'.sh.regions)
      ensures s'.threads[i].exited ==> s'.sh.pool.stop
    {
      if i != e.tid {
        InvThread(s, i);
        StackOkFrame(s.threads[i].stack, i, s.workers, s.sh.regions, s'.sh.regions, |s.sh.regions|);
        StackOkMono(s.threads[i].stack, i, s.workers, s'.sh.regions, |s.sh.regions|, |s'.sh.regions|);
      }
    }
  }

  lemma TopOwns(st: Stack, r: nat)
    requires st.Cons? && st.top == OwnerFrame(r)
    ensures OwnerOnStack(st, r)
  {
  }

  lemma StepOwners(s: State, e: Event, s': State, r: nat)
    requires Inv(s) && Step(s, e) == Some(s') && r < |s'.sh.regions|
    requires Respects(e.tid, s.sh.regions, s'.sh.regions) && RegionsOk(s'.sh)
    ensures s'.sh.regions[r].owner < |s'.threads|
    ensures !s'.sh.regions[r].pc.Returned? ==> OwnerOnStack(s'.threads[s'.sh.regions[r].owner].stack, r)
    ensures OwnerSleepOk(s'.sh.regions[r], Total(Notifying(r), s'.threads))
  {
    hide Inv, Step, Next, LocalOk, RegionsOk, RegionOk, StackMoves, OwnerOnStack, SameTo;
    StepShape(s, e, s');
    var th, l := s.threads[e.tid], Local(s'.sh, s'.threads[e.tid]);
    StepMovesStack(s.workers, e.tid, e.act, s.sh, th, l);
    if r < |s.sh.regions| {
      InvRegion(s, r);
      if th.stack.Cons? && th.stack.top.OwnerFrame? && th.stack.top.region < |s.sh.regions| {
        InvRegion(s, th.stack.top.region);
      }
      StepOwnerSafe(s.workers, e.tid, e.act, s.sh, th, l, r);
      TotalUpdate(Notifying(r), s.threads, e.tid, l.th);
      if s.sh.regions[r].owner == e.tid && !s'.sh.regions[r].pc.Returned? {
        OwnerStays(th.stack, l.th.stack, s'.sh.regions, r);
      }
    } else {
      assert NewIsFresh(s'.sh.regions[r], e.tid) by { NewRegionIsFresh(s.workers, e.tid, e.act, s.sh, th, l); }
      TopOwns(l.th.stack, r);
    }
  }

  predicate NewIsFresh(g: Region, tid: nat)
  {
    g.owner == tid && !g.asleep
  }

  lemma NewRegionIsFresh(workers: nat, tid: nat, a: Action, sh: Shared, th: Thread, l: Local)
    requires Next(workers, tid, a, sh, th) == Some(l) && |l.sh.regions| > |sh.regions|
    ensures NewIsFresh(l.sh.regions[|sh.regions|], tid)
  {
    StepMovesStack(workers, tid, a, sh, th, l);
    if a.Advance? && th.stack.top.OwnerFrame? {
      OwnerMovesStack(sh, th, th.stack.top.region, l);
      assert false;
    }
  }

  lemma StepSleepers(s: State, e: Event, s': State, i: nat)
    requires Inv(s) && Step(s, e) == Some(s') && i in s'.sh.pool.sleepers
    ensures i < |s'.threads| && SleeperOk(s'.threads[i], s'.sh, Total(Announcing, s'.threads))
  {
    hide Inv, Step, Next;
    StepShape(s, e, s');
    var th, l := s.threads[e.tid], Local(s'.sh, s'.threads[e.tid]);
    if e.tid in s.sh.pool.sleepers { InvSleeper(s, e.tid); }
    StepWaitersSafe(s.workers, e.tid, e.act, s.sh, th, l);
    TotalUpdate(Announcing, s.threads, e.tid, l.th);
    if i != e.tid {
      assert i in s.sh.pool.sleepers;
      InvSleeper(s, i);
    }
  }

  lemma StepLoops(s: State, e: Event, s': State)
    requires Inv(s) && Step(s, e) == Some(s')
    ensures LoopsOk(s')
  {
    hide Inv, Step, Next, LoopsSafe;
    StepShape(s, e, s');
    var tid, th, l := e.tid, s.threads[e.tid], Local(s'.sh, s'.threads[e.tid]);
    InvAccounted(s);
    StepLoopsSafe(s.workers, tid, e.act, s.sh, th, l);
    hide LoopsOk;
    LoopsLift(s, tid, l, s');
  }

  lemma LoopsLift(s: State, tid: nat, l: Local, s': State)
    requires LoopsOk(s) && tid < |s.threads| && LoopsSafe(s.workers, tid, s.sh, s.threads[tid], l)
    requires s' == s.(threads := s.threads[tid := l.th], sh := l.sh)
    ensures LoopsOk(s')
  {
    var th, idlers, idlers' := s.threads[tid], s.sh.pool.idlers, s'.sh.pool.idlers;
    TotalUpdate(Calling, s.threads, tid, l.th);
    TotalUpdate(Stopping, s.threads, tid, l.th);
    if idlers' == {} {
    } else if FallsAsleep(s.workers, tid, s.sh, l) {
      assert |s'.sh.pool.queue| == 0;
    } else if i: nat :| Wakes(i, s.sh, th, l) {
      AwakeMoves(s.threads, 0, s.workers, idlers, idlers, tid, l.th);
      AwakeMoves(s'.threads, 0, s.workers, idlers, idlers', i, s'.threads[i]);
      assert s'.threads[i := s'.threads[i]] == s'.threads;
    } else {
      AwakeMoves(s.threads, 0, s.workers, idlers, idlers', tid, l.th);
    }
  }

  /** Every step of every thread keeps the invariant. */
  lemma StepKeepsInv(s: State, e: Event, s': State)
    requires Inv(s) && Step(s, e) == Some(s')
    ensures Inv(s')
  {
    hide Step, ThreadOk, RegionOk, OwnerSleepOk, LoopsOk, Accounted, SleeperOk, OwnerOnStack, Respects;
    StepShape(s, e, s');
    StepAccounts(s, e, s');
    StepThreads(s, e, s');
    StepLoops(s, e, s');
    forall r | 0 <= r < |s'.sh.regions|
      ensures s'.sh.regions[r].owner < |s'.threads|
      ensures !s'.sh.regions[r].pc.Returned? ==> OwnerOnStack(s'.threads[s'.sh.regions[r].owner].stack, r)
      ensures OwnerSleepOk(s'.sh.regions[r], Total(Notifying(r), s'.threads))
    {
      StepOwners(s, e, s', r);
    }
    forall i | i in s'.sh.pool.sleepers
      ensures i < |s'.threads| && SleeperOk(s'.threads[i], s'.sh, Total(Announcing, s'.threads))
    {
      StepSleepers(s, e, s', i);
    }
  }

  lemma {:induction false} InitTotal(k: Weight, ts: seq<Thread>)
    requires forall i :: 0 <= i < |ts| ==> ts[i].stack.Nil?
    ensures Total(k, ts) == 0
  {
    if ts != [] { InitTotal(k, ts[1..]); }
  }

  lemma InitInv(workers: nat, others: nat)
    ensures Inv(Init(workers, others))
  {
    var s := Init(workers, others);
    forall k | Conserved(k) ensures Counter(s.sh, k) == Total(k, s.threads) {
      InitTotal(k, s.threads);
    }
  }

  /** Every run keeps it: this is the statement all theorems below start from. */
  lemma {:induction false} RunInv(workers: nat, others: nat, events: seq<Event>, s: State)
    requires Run(Init(workers, others), events) == Some(s)
    ensures Inv(s) && s.workers == workers
  {
    if events == [] {
      InitInv(workers, others);
    } else {
      var before := Run(Init(workers, others), events[..|events| - 1]).value;
      RunInv(workers, others, events[..|events| - 1], before);
      StepKeepsInv(before, events[|events| - 1], s);
    }
  }

  // ----- accounting

  lemma {:induction false} WorkerFrames(st: Stack, tid: nat, workers: nat, regions: seq<Region>, b: nat)
    requires StackOk(st, tid, workers, regions, b)
    ensures StackSum(WorkerRun, st) <= if tid < workers then 1 else 0
    ensures StackSum(WorkerRun, st) <= JobCount(st)
  {
    match st
    case Nil =>
    case Cons(f, rest) => WorkerFrames(rest, tid, workers, regions, if f.OwnerFrame? then f.region else b);
  }

  lemma {:induction false} BusyBound(ts: seq<Thread>, first: nat, workers: nat, regions: seq<Region>)
    requires forall i :: 0 <= i < |ts| ==> ThreadOk(ts[i], first + i, workers, regions)
    ensures Total(WorkerRun, ts) <= if first < workers then workers - first else 0
  {
    if ts != [] {
      WorkerFrames(ts[0].stack, first, workers, regions, |regions|);
      forall i | 0 <= i < |ts[1..]| ensures ThreadOk(ts[1..][i], first + 1 + i, workers, regions) {
        assert ThreadOk(ts[i + 1], first + (i + 1), workers, regions);
      }
      BusyBound(ts[1..], first + 1, workers, regions);
    }
  }

  lemma LiveAndBusy(s: State)
    requires Inv(s)
    ensures s.sh.pool.active == |s.sh.pool.queue| + Total(Live, s.threads)
        && s.sh.pool.busy == Total(WorkerRun, s.threads)
    ensures s.sh.accepted == s.sh.pool.active + |s.sh.finished| + |s.sh.dropped|
    ensures forall i :: 0 <= i < |s.threads| ==>
      ThreadOk(s.threads[i], i, s.workers, s.sh.regions) && s.threads[i].depth == JobCount(s.threads[i].stack)
  {
    InvAccounted(s);
    hide Inv, StackOk, Total, StackSum;
    assert Conserved(Live) && Conserved(WorkerRun);
    assert Counter(s.sh, Live) == Total(Live, s.threads);
    assert Counter(s.sh, WorkerRun) == Total(WorkerRun, s.threads);
    forall i | 0 <= i < |s.threads|
      ensures ThreadOk(s.threads[i], i, s.workers, s.sh.regions) && s.threads[i].depth == JobCount(s.threads[i].stack)
    {
      InvThread(s, i);
    }
  }

  /** active_jobs_ is the queue plus the live job frames, busy_workers_ the worker loops inside a job,
      and every accepted job is still active, finished or cancelled. */
  lemma PoolAccounting(workers: nat, others: nat, events: seq<Event>, s: State)
    requires Run(Init(workers, others), events) == Some(s)
    ensures s.sh.pool.active == |s.sh.pool.queue| + Total(Live, s.threads)
    ensures s.sh.pool.busy == Total(WorkerRun, s.threads) <= workers
    ensures s.sh.accepted == |s.sh.pool.queue| + Total(Live, s.threads) + |s.sh.finished| + |s.sh.dropped|
    ensures forall i :: 0 <= i < |s.threads| ==> s.threads[i].depth == JobCount(s.threads[i].stack)
  {
    hide Inv, Run;
    RunInv(workers, others, events, s);
    LiveAndBusy(s);
    BusyBound(s.threads, 0, workers, s.sh.regions);
  }

  /** No job is lost, run twice, or both run and cancelled: each accepted one is in exactly one of four
      places, namely queued, on the stack that runs it, finished or cancelled. */
  lemma EachJobOnce(workers: nat, others: nat, events: seq<Event>, s: State, id: nat)
    requires Run(Init(workers, others), events) == Some(s)
    ensures IdCount(s.sh.pool.queue, id) + Total(Holding(id), s.threads) + s.sh.finished[id] + s.sh.dropped[id] ==
            if id < s.sh.accepted then 1 else 0
  {
    RunInv(workers, others, events, s);
    assert Conserved(Holding(id)) && Counter(s.sh, Holding(id)) == Total(Holding(id), s.threads);
  }

  /** CompletionState::remaining counts exactly the helpers still queued, the helpers that may still touch
      the work, one registered but unpublished helper, and the cancelled ones not yet subtracted. */
  lemma RemainingIsExact(workers: nat, others: nat, events: seq<Event>, s: State, r: nat)
    requires Run(Init(workers, others), events) == Some(s) && r < |s.sh.regions|
    ensures s.sh.regions[r].remaining ==
            CountOf(s.sh.pool.queue, r) + Total(Unfinished(r), s.threads) + Inflight(s.sh.regions[r].pc)
  {
    RunInv(workers, others, events, s);
    assert Conserved(Unfinished(r)) && Counter(s.sh, Unfinished(r)) == Total(Unfinished(r), s.threads);
  }

  lemma TopIs(th: Thread, tid: nat, workers: nat, regions: seq<Region>)
    requires ThreadOk(th, tid, workers, regions) && th.stack.Cons?
    ensures var f := th.stack.top;
      && (f.OwnerFrame? ==> f.region < |regions|)
      && (f.JobFrame? && f.job.Helper? ==> f.job.region < |regions|)
      && (f.JobFrame? && f.job.Plain? ==> f.pc.Running? || f.pc.Done?)
  {
  }

  lemma JobsCounted(sh: Shared, th: Thread)
    requires Covered(sh, th) && th.stack.Cons?
    ensures |sh.pool.queue| <= sh.pool.active
    ensures th.stack.top.JobFrame? ==> sh.pool.active > 0 && (th.stack.top.kind.ByWorker? ==> sh.pool.busy > 0)
  {
    hide CountOf, IdCount, RegionPart;
  }

  /** None of the clamped subtractions ever clamps: the branches that guard them against zero are dead. */
  lemma NothingSaturates(workers: nat, others: nat, events: seq<Event>, s: State, tid: nat)
    requires Run(Init(workers, others), events) == Some(s) && tid < |s.threads| && s.threads[tid].stack.Cons?
    ensures var f := s.threads[tid].stack.top;
      && (f.JobFrame? && f.pc.Finishing? ==>
            f.job.Helper? && f.job.region < |s.sh.regions| && s.sh.regions[f.job.region].remaining > 0)
      && (f.JobFrame? && f.pc.Done? ==> s.sh.pool.active > 0 && (f.kind.ByWorker? ==> s.sh.pool.busy > 0))
      && (f.OwnerFrame? ==>
            && f.region < |s.sh.regions|
            && (s.sh.regions[f.region].pc.Rollback? ==> s.sh.regions[f.region].remaining > 0)
            && (s.sh.regions[f.region].pc.Subtract? ==> s.sh.regions[f.region].remaining >= s.sh.regions[f.region].pc.n)
            && CountOf(s.sh.pool.queue, f.region) <= s.sh.pool.active)
  {
    RunInv(workers, others, events, s);
    InvCovers(s, tid);
    hide Inv, Run;
    var th := s.threads[tid];
    TopIs(th, tid, s.workers, s.sh.regions);
    hide ThreadOk, RegionsOk;
    Counted(s.sh, th);
    JobsCounted(s.sh, th);
    hide Covered;
    if th.stack.top.OwnerFrame? { CountOfBounded(s.sh.pool.queue, th.stack.top.region); }
  }

  // ----- what a region may rely on

  /** Once the call for region r has returned or rethrown, no queued job belongs to it and no frame of any
      thread can still touch its work or its callback. */
  lemma SafeReturn(workers: nat, others: nat, events: seq<Event>, s: State, r: nat)
    requires Run(Init(workers, others), events) == Some(s)
    requires r < |s.sh.regions| && s.sh.regions[r].pc.Returned?
    ensures CountOf(s.sh.pool.queue, r) == 0
    ensures forall i :: 0 <= i < |s.threads| ==> StackSum(Unfinished(r), s.threads[i].stack) == 0
  {
    RunInv(workers, others, events, s);
    RemainingIsExact(workers, others, events, s, r);
    assert RegionOk(s.sh.regions[r], CountOf(s.sh.pool.queue, r));
    forall i | 0 <= i < |s.threads| ensures StackSum(Unfinished(r), s.threads[i].stack) == 0 {
      TotalUpdate(Unfinished(r), s.threads, i, s.threads[i]);
    }
  }

  lemma {:induction false} ExecutingIsUnfinished(st: Stack, r: nat, c: nat)
    ensures StackSum(Executing(r, c), st) <= StackSum(Unfinished(r), st)
  {
    if st.Cons? { ExecutingIsUnfinished(st.rest, r, c); }
  }

  lemma {:induction false} ExecutingBound(ts: seq<Thread>, r: nat, c: nat)
    ensures Total(Executing(r, c), ts) <= Total(Unfinished(r), ts)
  {
    if ts != [] {
      ExecutingIsUnfinished(ts[0].stack, r, c);
      ExecutingBound(ts[1..], r, c);
    }
  }

  /** At every moment the callback of every chunk has been started at most once. When the call returns
      normally every chunk handed out was completed once and none threw, and unless somebody asked for the
      cancellation of the work these are all chunks that were left when the call was made. */
  lemma ExactlyOnce(workers: nat, others: nat, events: seq<Event>, s: State, r: nat, c: nat)
    requires Run(Init(workers, others), events) == Some(s) && r < |s.sh.regions|
    ensures var g := s.sh.regions[r];
      && g.started[c] == (if g.first <= c < g.next then 1 else 0)
      && g.completed[c] + g.threw[c] <= g.started[c]
      && (g.pc.Returned? ==> g.completed[c] + g.threw[c] == g.started[c])
      && (g.pc == Returned(true) ==> g.completed[c] == g.started[c] && g.threw[c] == 0)
      && (g.pc == Returned(true) ==> g.next == g.total || g.cancelled)
      && (g.pc == Returned(true) && !g.requested ==> g.completed[c] == if g.first <= c < g.total then 1 else 0)
  {
    RunInv(workers, others, events, s);
    var g := s.sh.regions[r];
    assert RegionOk(g, CountOf(s.sh.pool.queue, r));
    assert Conserved(Executing(r, c)) && Counter(s.sh, Executing(r, c)) == Total(Executing(r, c), s.threads);
    if g.pc.Returned? {
      ExecutingBound(s.threads, r, c);
      RemainingIsExact(workers, others, events, s, r);
      assert g.pc.ok ==> g.threw == multiset{};
    }
  }

  /** The call reports success exactly when no callback threw, every publication succeeded and the work
      came without an exception; and the work is cancelled only after one of these or on request. */
  lemma FailureIsReported(workers: nat, others: nat, events: seq<Event>, s: State, r: nat)
    requires Run(Init(workers, others), events) == Some(s) && r < |s.sh.regions|
    ensures var g := s.sh.regions[r];
      && (g.pc.Returned? ==> (g.pc.ok <==> g.threw == multiset{} && !g.spoiled))
      && (g.cancelled ==> g.threw != multiset{} || g.spoiled || g.requested)
  {
    RunInv(workers, others, events, s);
    assert RegionOk(s.sh.regions[r], CountOf(s.sh.pool.queue, r));
  }

  // ----- progress

  /** The frame on top of thread i can take a step without anybody else's help. */
  ghost predicate CanMove(s: State, i: nat)
    requires i < |s.threads|
  {
    && s.threads[i].stack.Cons?
    && (|| Step(s, Event(i, Advance)).Some? || Step(s, Event(i, Return)).Some?
        || Step(s, Event(i, RefusePublish)).Some?
        || (exists j: nat :: Step(s, Event(i, WakeOne(j))).Some?))
  }

  predicate OwnerBlocked(s: State, i: nat, r: nat)
  {
    && i < |s.threads| && s.threads[i].stack.Cons? && s.threads[i].stack.top == OwnerFrame(r)
    && r < |s.sh.regions| && s.sh.regions[r].pc.Sleep? && s.sh.regions[r].asleep
  }

  predicate WaitBlocked(s: State, i: nat)
  {
    && i < |s.threads| && s.threads[i].stack.Cons? && s.threads[i].stack.top.WaitFrame?
    && s.threads[i].stack.top.wpc.Asleep? && i in s.sh.pool.sleepers
  }

  lemma OwnerMoves(s: State, i: nat, r: nat)
    requires Inv(s) && i < |s.threads| && s.threads[i].stack.Cons? && s.threads[i].stack.top == OwnerFrame(r)
    ensures CanMove(s, i) || OwnerBlocked(s, i, r)
  {
    assert ThreadOk(s.threads[i], i, s.workers, s.sh.regions);
    hide Inv, ThreadOk, Phase, FirstOf, CountOf, HelperIds;
    var g := s.sh.regions[r];
    if g.pc.OwnChunk? { assert Step(s, Event(i, Return)).Some?; }
    else if g.pc.Publish? { assert Step(s, Event(i, RefusePublish)).Some?; }
    else { assert (g.pc.Sleep? && g.asleep) || Step(s, Event(i, Advance)).Some?; }
  }

  lemma HelperIsNotPlain(th: Thread, tid: nat, workers: nat, regions: seq<Region>)
    requires ThreadOk(th, tid, workers, regions) && th.stack.Cons? && th.stack.top.JobFrame?
    ensures th.stack.top.job.Helper? ==> !th.stack.top.pc.Running?
  {
  }

  lemma JobMoves(s: State, i: nat)
    requires Inv(s) && i < |s.threads| && s.threads[i].stack.Cons? && s.threads[i].stack.top.JobFrame?
    ensures CanMove(s, i)
  {
    InvThread(s, i);
    TopIs(s.threads[i], i, s.workers, s.sh.regions);
    HelperIsNotPlain(s.threads[i], i, s.workers, s.sh.regions);
    hide Inv, ThreadOk;
    var pc := s.threads[i].stack.top.pc;
    if pc.Running? || pc.InChunk? { assert Step(s, Event(i, Return)).Some?; }
    else { assert Step(s, Event(i, Advance)).Some?; }
  }

  /** A thread in the middle of something moves, or sleeps on a completion, or sleeps in wait(). */
  lemma TopMoves(s: State, i: nat)
    requires Inv(s) && i < |s.threads| && s.threads[i].stack.Cons?
    ensures CanMove(s, i) || WaitBlocked(s, i)
            || (s.threads[i].stack.top.OwnerFrame? && OwnerBlocked(s, i, s.threads[i].stack.top.region))
  {
    assert ThreadOk(s.threads[i], i, s.workers, s.sh.regions);
    match s.threads[i].stack.top
    case JobFrame(_, _, _, _) => JobMoves(s, i);
    case OwnerFrame(r) => OwnerMoves(s, i, r);
    case WaitFrame(_, _) => assert WaitBlocked(s, i) || Step(s, Event(i, Advance)).Some?;
    case NotifyFrame(npc) =>
      if npc.WakeWorker? && s.sh.pool.idlers != {} {
        var j :| j in s.sh.pool.idlers;
        assert Step(s, Event(i, WakeOne(j))).Some?;
      } else {
        assert Step(s, Event(i, Advance)).Some?;
      }
    case StopFrame => assert Step(s, Event(i, Advance)).Some?;
  }

  lemma {:induction false} JobsAreOlder(st: Stack, tid: nat, workers: nat, regions: seq<Region>, b: nat, k: Weight)
    requires StackOk(st, tid, workers, regions, b)
    requires (k.Unfinished? || k.Notifying?) && StackSum(k, st) > 0
    ensures k.r < b
  {
    match st
    case Cons(f, rest) =>
      if W(k, f) == 0 { JobsAreOlder(rest, tid, workers, regions, if f.OwnerFrame? then f.region else b, k); }
  }

  predicate HasWait(st: Stack)
  {
    st.Cons? && (st.top.WaitFrame? || HasWait(st.rest))
  }

  /** Region q was called, directly or through regions in between, by a callback of region r. */
  predicate Descends(regions: seq<Region>, q: nat, r: nat)
  {
    && q < |regions| && regions[q].parent.Some? && regions[q].parent.value < q
    && (regions[q].parent.value == r || Descends(regions, regions[q].parent.value, r))
  }

  /** On a stack that does not wait, an owner above a helper of r descends from r. */
  lemma {:induction false} OwnerDescends(st: Stack, tid: nat, workers: nat, regions: seq<Region>, b: nat, k: Weight)
    requires StackOk(st, tid, workers, regions, b) && st.Cons? && st.top.OwnerFrame? && !HasWait(st)
    requires (k.Unfinished? || k.Notifying?) && StackSum(k, st.rest) > 0
    ensures Descends(regions, st.top.region, k.r)
  {
    match st.rest.top
    case OwnerFrame(q) => OwnerDescends(st.rest, tid, workers, regions, st.top.region, k);
    case JobFrame(_, _, _, _) => assert !HasWait(st.rest) && !HasWait(st.rest.rest);
  }

  /** A blocked owner has no helper left in the queue; it waits for a thread inside one of its helpers,
      and if that thread is a blocked owner too, then of a region created later; of a strict descendant,
      unless the thread executes other jobs inside a wait(). */
  lemma BlockedWaitsOnYounger(s: State, i: nat, r: nat) returns (j: nat)
    requires Inv(s) && OwnerBlocked(s, i, r)
    ensures CountOf(s.sh.pool.queue, r) == 0
    ensures j < |s.threads| && s.threads[j].stack.Cons?
    ensures StackSum(Unfinished(r), s.threads[j].stack) + StackSum(Notifying(r), s.threads[j].stack) > 0
    ensures s.threads[j].stack.top.OwnerFrame? ==> s.threads[j].stack.top.region > r
    ensures s.threads[j].stack.top.OwnerFrame? && !HasWait(s.threads[j].stack) ==>
      Descends(s.sh.regions, s.threads[j].stack.top.region, r)
  {
    var g := s.sh.regions[r];
    assert RegionOk(g, CountOf(s.sh.pool.queue, r)) && OwnerSleepOk(g, Total(Notifying(r), s.threads));
    assert Conserved(Unfinished(r)) && Counter(s.sh, Unfinished(r)) == Total(Unfinished(r), s.threads);
    var k := if g.remaining > 0 then Unfinished(r) else Notifying(r);
    j := TotalWitness(k, s.threads);
    var st := s.threads[j].stack;
    assert ThreadOk(s.threads[j], j, s.workers, s.sh.regions);
    if st.top.OwnerFrame? {
      JobsAreOlder(st.rest, j, s.workers, s.sh.regions, st.top.region, k);
      if !HasWait(st) { OwnerDescends(st, j, s.workers, s.sh.regions, |s.sh.regions|, k); }
    }
  }

  lemma {:induction false} BlockedHasMover(s: State, i: nat, r: nat) returns (j: nat)
    requires Inv(s) && OwnerBlocked(s, i, r)
    ensures j < |s.threads| && (CanMove(s, j) || WaitBlocked(s, j))
    decreases |s.sh.regions| - r
  {
    j := BlockedWaitsOnYounger(s, i, r);
    TopMoves(s, j);
    if !CanMove(s, j) && !WaitBlocked(s, j) {
      j := BlockedHasMover(s, j, s.threads[j].stack.top.region);
    }
  }

  /** Nested helping never deadlocks. In every reachable state in which some region is unfinished, a
      thread in the middle of something can step on its own (no idle worker is needed), or some thread is
      asleep in wait(). With callbacks that never call wait() the second case cannot arise. */
  lemma HelpingNeverDeadlocks(workers: nat, others: nat, events: seq<Event>, s: State, r: nat) returns (j: nat)
    requires Run(Init(workers, others), events) == Some(s)
    requires r < |s.sh.regions| && !s.sh.regions[r].pc.Returned?
    ensures j < |s.threads| && (CanMove(s, j) || WaitBlocked(s, j))
    ensures (forall e :: e in events ==> !e.act.CallWait?) ==> CanMove(s, j)
  {
    RunInv(workers, others, events, s);
    j := s.sh.regions[r].owner;
    assert OwnerOnStack(s.threads[j].stack, r);
    TopMoves(s, j);
    if !CanMove(s, j) && !WaitBlocked(s, j) {
      j := BlockedHasMover(s, j, s.threads[j].stack.top.region);
    }
    if forall e :: e in events ==> !e.act.CallWait? {
      NoWaits(workers, others, events, s, j);
    }
  }

  lemma StepAddsNoWait(workers: nat, tid: nat, a: Action, sh: Shared, th: Thread, l: Local)
    requires Next(workers, tid, a, sh, th) == Some(l) && !a.CallWait? && !HasWait(th.stack)
    ensures !HasWait(l.th.stack)
  {
    if a.Advance? && th.stack.top.OwnerFrame? {
      OwnerAddsNoWait(sh, th, th.stack.top.region, l);
    }
  }

  lemma OwnerAddsNoWait(sh: Shared, th: Thread, r: nat, l: Local)
    requires r < |sh.regions| && th.stack.Cons? && th.stack.top == OwnerFrame(r)
    requires OwnerStep(sh, th, r) == Some(l) && !HasWait(th.stack)
    ensures !HasWait(l.th.stack)
  {
  }

  lemma {:induction false} NoWaits(workers: nat, others: nat, events: seq<Event>, s: State, i: nat)
    requires Run(Init(workers, others), events) == Some(s) && i < |s.threads|
    requires forall e :: e in events ==> !e.act.CallWait?
    ensures !HasWait(s.threads[i].stack)
  {
    if events != [] {
      var init, e := events[..|events| - 1], events[|events| - 1];
      var before := Run(Init(workers, others), init).value;
      assert e in events;
      RunInv(workers, others, init, before);
      NoWaits(workers, others, init, before, i);
      if i == e.tid {
        StepAddsNoWait(workers, i, e.act, before.sh, before.threads[i], Local(s.sh, s.threads[i]));
      }
    }
  }

  // ----- wait()

  lemma WaitReleases(sh: Shared, th: Thread, tid: nat, l: Local)
    requires th.stack.Cons? && th.stack.top.WaitFrame? && AdvanceStep(sh, th, tid) == Some(l)
        && l.th.stack == th.stack.rest
    ensures sh.pool.active <= th.stack.top.target
  {
    if th.stack.top.wpc.Loop? && l.th.stack.rest == th.stack {
      LongerThanTail(l.th.stack.top, th.stack);
    } else if !th.stack.top.wpc.Test? || sh.pool.active > th.stack.top.target {
      LongerThanTail(l.th.stack.top, th.stack.rest);
    }
  }

  lemma {:induction false} LongerThanTail(f: Frame, s: Stack)
    ensures Cons(f, s) != s && (s.Cons? ==> Cons(f, s) != s.rest)
    decreases s
  {
    if s.Cons? { LongerThanTail(s.top, s.rest); }
  }

  lemma OnlyLive(ts: seq<Thread>, i: nat, j: nat)
    requires i < |ts| && j < |ts| && i != j && Total(Live, ts) <= JobCount(ts[i].stack)
    ensures JobCount(ts[j].stack) == 0
  {
    var without := ts[i := Thread(Nil, 0, false)];
    TotalUpdate(Live, ts, i, Thread(Nil, 0, false));
    TotalUpdate(Live, without, j, without[j]);
  }

  /** wait() releases its caller only at a moment when the queue is empty and the caller's own job frames
      are the only live ones in the whole pool. */
  lemma WaitMeansQuiet(workers: nat, others: nat, events: seq<Event>, s: State, tid: nat, s': State)
    requires Run(Init(workers, others), events) == Some(s)
    requires tid < |s.threads| && s.threads[tid].stack.Cons? && s.threads[tid].stack.top.WaitFrame?
    requires Step(s, Event(tid, Advance)) == Some(s') && s'.threads[tid].stack == s.threads[tid].stack.rest
    ensures s.sh.pool.queue == []
    ensures Total(Live, s.threads) == JobCount(s.threads[tid].stack)
    ensures forall j :: 0 <= j < |s.threads| && j != tid ==> JobCount(s.threads[j].stack) == 0
  {
    RunInv(workers, others, events, s);
    var th := s.threads[tid];
    assert ThreadOk(th, tid, workers, s.sh.regions) && th.stack.top.target == JobCount(th.stack);
    assert Conserved(Live) && Counter(s.sh, Live) == Total(Live, s.threads);
    hide Inv, ThreadOk, Run, StackOk, Total, StackSum;
    WaitReleases(s.sh, th, tid, Local(s'.sh, s'.threads[tid]));
    TotalUpdate(Live, s.threads, tid, th);
    forall j | 0 <= j < |s.threads| && j != tid ensures JobCount(s.threads[j].stack) == 0 {
      OnlyLive(s.threads, tid, j);
    }
  }

  /** No lost wake-up: a thread that sleeps in wait() although its predicate holds can count on a submitter
      that is past its unlock, on top of its stack, and reaches notify_all by its own next steps. */
  lemma NoLostWakeup(workers: nat, others: nat, events: seq<Event>, s: State, i: nat) returns (j: nat)
    requires Run(Init(workers, others), events) == Some(s) && WaitBlocked(s, i)
    requires Satisfied(s.sh.pool, s.threads[i].stack.top.target)
    ensures j < |s.threads| && s.threads[j].stack.Cons? && s.threads[j].stack.top.NotifyFrame? && CanMove(s, j)
    ensures forall a, s' :: Step(s, Event(j, a)) == Some(s') ==>
      s'.sh.pool.sleepers == {} || s'.threads[j].stack == Cons(NotifyFrame(WakeWaiters), s.threads[j].stack.rest)
  {
    RunInv(workers, others, events, s);
    assert SleeperOk(s.threads[i], s.sh, Total(Announcing, s.threads));
    j := NotifierOf(s, Announcing);
    TopMoves(s, j);
    forall a, s' | Step(s, Event(j, a)) == Some(s')
      ensures s'.sh.pool.sleepers == {} || s'.threads[j].stack == Cons(NotifyFrame(WakeWaiters),
          s.threads[j].stack.rest)
    {
      NotifierSteps(s.workers, j, a, s.sh, s.threads[j], Local(s'.sh, s'.threads[j]));
    }
  }

  lemma NotifierSteps(workers: nat, tid: nat, a: Action, sh: Shared, th: Thread, l: Local)
    requires Next(workers, tid, a, sh, th) == Some(l) && th.stack.Cons? && th.stack.top.NotifyFrame?
    ensures l.sh.pool.sleepers == {} || l.th.stack == Cons(NotifyFrame(WakeWaiters), th.stack.rest)
  {
  }

  lemma {:induction false} NotifierOnTop(k: Weight, st: Stack, tid: nat, workers: nat, regions: seq<Region>, b: nat)
    requires StackOk(st, tid, workers, regions, b) && (k.Announcing? || k.Calling? || k.Stopping?)
        && StackSum(k, st) > 0
    ensures W(k, st.top) > 0
  {
    match st
    case Cons(f, rest) =>
      if W(k, f) == 0 {
        NotifierOnTop(k, rest, tid, workers, regions, if f.OwnerFrame? then f.region else b);
      }
  }

  lemma NotifierOf(s: State, k: Weight) returns (j: nat)
    requires Inv(s) && (k.Announcing? || k.Calling? || k.Stopping?) && Total(k, s.threads) > 0
    ensures j < |s.threads| && s.threads[j].stack.Cons? && W(k, s.threads[j].stack.top) > 0
  {
    j := TotalWitness(k, s.threads);
    assert ThreadOk(s.threads[j], j, s.workers, s.sh.regions);
    hide Inv;
    NotifierOnTop(k, s.threads[j].stack, j, s.workers, s.sh.regions, |s.sh.regions|);
  }

  // ----- the worker loops

  lemma {:induction false} AwakeWitness(ts: seq<Thread>, first: nat, workers: nat, idlers: set<nat>) returns (i: nat)
    requires Awake(ts, first, workers, idlers) > 0
    ensures i < |ts| && AwakeAt(ts[i], first + i, workers, idlers)
  {
    if AwakeAt(ts[0], first, workers, idlers) {
      i := 0;
    } else {
      var j := AwakeWitness(ts[1..], first + 1, workers, idlers);
      i := j + 1;
    }
  }

  /** A worker loop that is awake always steps: it takes a job, goes to sleep or leaves. */
  lemma LoopMoves(s: State, i: nat)
    requires i < |s.threads| && AwakeAt(s.threads[i], i, s.workers, s.sh.pool.idlers)
    ensures s.sh.pool.queue != [] ==> Step(s, Event(i, TakeJob)).Some?
    ensures s.sh.pool.queue == [] ==> Step(s, Event(i, if s.sh.pool.stop then ExitWorker else Doze)).Some?
  {
  }

  lemma CallerWakes(s: State, j: nat)
    requires j < |s.threads| && s.threads[j].stack.Cons? && s.threads[j].stack.top == NotifyFrame(WakeWorker)
    ensures forall i :: i in s.sh.pool.idlers ==> Step(s, Event(j, WakeOne(i))).Some?
  {
  }

  lemma LoopsCounted(s: State)
    requires Inv(s) && s.sh.pool.idlers != {}
    ensures |s.sh.pool.queue| <= Awake(s.threads, 0, s.workers, s.sh.pool.idlers) + Total(Calling, s.threads)
    ensures s.sh.pool.stop ==> Total(Stopping, s.threads) > 0
  {
    hide Inv, Awake, Total;
    InvAccounted(s);
  }

  /** The queue is never left to sleepers: while a worker loop sleeps, the queued jobs are at most as many
      as the loops awake and the submitters about to wake one. So with a job queued and a loop asleep,
      either some loop can take the job now, or the thread of a submitter can move on to notify_one. */
  lemma SleepersAreSpare(workers: nat, others: nat, events: seq<Event>, s: State) returns (j: nat)
    requires Run(Init(workers, others), events) == Some(s) && s.sh.pool.idlers != {} && s.sh.pool.queue != []
    ensures |s.sh.pool.queue| <= Awake(s.threads, 0, workers, s.sh.pool.idlers) + Total(Calling, s.threads)
    ensures j < |s.threads|
    ensures Step(s, Event(j, TakeJob)).Some?
            || (&& s.threads[j].stack.Cons? && s.threads[j].stack.top == NotifyFrame(WakeWorker)
                && forall i :: i in s.sh.pool.idlers ==> Step(s, Event(j, WakeOne(i))).Some?)
  {
    hide Inv, Run, Step, Awake, Total;
    RunInv(workers, others, events, s);
    LoopsCounted(s);
    if Total(Calling, s.threads) > 0 {
      j := NotifierOf(s, Calling);
      CallerWakes(s, j);
    } else {
      j := AwakeWitness(s.threads, 0, workers, s.sh.pool.idlers);
      LoopMoves(s, j);
    }
  }

  /** After stop_ a worker loop sleeps only while the destructor is between its unlock and notify_all. */
  lemma StopWakesLoops(workers: nat, others: nat, events: seq<Event>, s: State) returns (j: nat)
    requires Run(Init(workers, others), events) == Some(s) && s.sh.pool.idlers != {} && s.sh.pool.stop
    ensures j < |s.threads| && s.threads[j].stack.Cons? && s.threads[j].stack.top.StopFrame?
    ensures Step(s, Event(j, Advance)).Some? && Step(s, Event(j, Advance)).value.sh.pool.idlers == {}
  {
    hide Inv, Run, Total;
    RunInv(workers, others, events, s);
    LoopsCounted(s);
    j := NotifierOf(s, Stopping);
  }

  // ----- shutdown

  ghost predicate AllExited(s: State)
  {
    s.workers > 0 && s.workers <= |s.threads| && forall i :: 0 <= i < s.workers ==> s.threads[i].exited
  }

  /** After stop_ a thread that is not a worker can put nothing into the queue: it never runs user code
      inside a job, so every submission it tries is refused. */
  lemma OutsideIsRefused(s: State, e: Event, s': State)
    requires Inv(s) && Step(s, e) == Some(s') && s.sh.pool.stop && e.tid >= s.workers && s.sh.pool.queue == []
    ensures s'.sh.pool.queue == []
  {
    var th, l := s.threads[e.tid], Local(s'.sh, s'.threads[e.tid]);
    assert ThreadOk(th, e.tid, s.workers, s.sh.regions);
    if UserCode(th.stack, e.tid, s.workers, s.sh.regions) {
      OutsideDepth(th.stack, e.tid, s.workers, s.sh.regions, |s.sh.regions|);
    }
    if th.stack.Cons? && th.stack.top.OwnerFrame? {
      OutsideDepth(th.stack.rest, e.tid, s.workers, s.sh.regions, th.stack.top.region);
    }
    NothingPushed(s.workers, e.tid, e.act, s.sh, th, l);
  }

  lemma NothingPushed(workers: nat, tid: nat, a: Action, sh: Shared, th: Thread, l: Local)
    requires Next(workers, tid, a, sh, th) == Some(l) && sh.pool.stop && sh.pool.queue == []
    requires UserCode(th.stack, tid, workers, sh.regions) ==> th.depth == 0
    requires th.stack.Cons? && th.stack.top.OwnerFrame? ==> th.depth == 0
    ensures l.sh.pool.queue == []
  {
    hide OwnerStep, JobStep, LeaveUser;
    if a.Advance? && th.stack.top.OwnerFrame? {
      OwnerPushesNothing(sh, th, th.stack.top.region, l);
    } else if a.Advance? && th.stack.top.JobFrame? {
      JobPushesNothing(sh, th, l);
    } else if a.Return? || a.Throw? {
      LeavePushesNothing(sh, th, a.Throw?, l);
    }
  }

  lemma JobPushesNothing(sh: Shared, th: Thread, l: Local)
    requires th.stack.Cons? && th.stack.top.JobFrame? && JobStep(sh, th) == Some(l)
    ensures l.sh.pool.queue == sh.pool.queue
  {
  }

  lemma LeavePushesNothing(sh: Shared, th: Thread, threw: bool, l: Local)
    requires LeaveUser(sh, th, threw) == Some(l)
    ensures l.sh.pool == sh.pool
  {
  }

  lemma OwnerPushesNothing(sh: Shared, th: Thread, r: nat, l: Local)
    requires r < |sh.regions| && th.stack.Cons? && OwnerStep(sh, th, r) == Some(l)
    requires sh.pool.stop && th.depth == 0 && sh.pool.queue == []
    ensures l.sh.pool.queue == []
  {
    hide Phase, HelperIds;
  }

  /** Shutdown drains the queue: when the last worker loop has exited no job is left behind, and every job
      ever accepted has finished once or was cancelled once, except those an outside thread is still
      executing itself; no worker executes anything. */
  lemma ShutdownDrains(workers: nat, others: nat, events: seq<Event>, s: State)
    requires Run(Init(workers, others), events) == Some(s) && AllExited(s)
    ensures s.sh.pool.queue == []
    ensures forall id: nat :: id < s.sh.accepted ==>
      s.sh.finished[id] + s.sh.dropped[id] + Total(Holding(id), s.threads) == 1
    ensures forall i :: 0 <= i < s.workers ==> s.threads[i].stack.Nil?
  {
    RunInv(workers, others, events, s);
    QueueDrains(workers, others, events, s);
    forall id: nat | id < s.sh.accepted
      ensures s.sh.finished[id] + s.sh.dropped[id] + Total(Holding(id), s.threads) == 1
    {
      EachJobOnce(workers, others, events, s, id);
    }
    assert forall i :: 0 <= i < workers ==> ThreadOk(s.threads[i], i, workers, s.sh.regions);
  }

  lemma {:induction false} QueueDrains(workers: nat, others: nat, events: seq<Event>, s: State)
    requires Run(Init(workers, others), events) == Some(s) && AllExited(s)
    ensures s.sh.pool.queue == []
  {
    RunInv(workers, others, events, s);
    if events != [] {
      var init, e := events[..|events| - 1], events[|events| - 1];
      var before := Run(Init(workers, others), init).value;
      RunInv(workers, others, init, before);
      if AllExited(before) {
        QueueDrains(workers, others, init, before);
        assert before.threads[0].exited;
        if e.tid < workers { ExitedIsIdle(before, e); }
        OutsideIsRefused(before, e, s);
      } else {
        var i :| 0 <= i < workers && !before.threads[i].exited;
        assert s.threads[i].exited;
        assert i == e.tid;
        OnlyExitExits(workers, i, e.act, before.sh, before.threads[i], Local(s.sh, s.threads[i]));
      }
    }
  }

  lemma ExitedIsIdle(s: State, e: Event)
    requires Inv(s) && e.tid < s.workers && s.threads[e.tid].exited
    ensures Step(s, e).None?
  {
    assert ThreadOk(s.threads[e.tid], e.tid, s.workers, s.sh.regions);
  }

  lemma OnlyExitExits(workers: nat, tid: nat, a: Action, sh: Shared, th: Thread, l: Local)
    requires Next(workers, tid, a, sh, th) == Some(l) && !th.exited && l.th.exited
    ensures a.ExitWorker? && l.sh.pool.queue == []
  {
    if a.Advance? && th.stack.top.OwnerFrame? {
      OwnerMovesStack(sh, th, th.stack.top.region, l);
    }
  }
}
