/** No lost wake-ups: whoever sleeps has no reason to be awake, or a notification is on its way. */
module PoolWakeups {
  import opened PoolQueue
  import opened PoolModel
  import opened PoolInvariant
  import opened PoolSteps
  import opened PoolFrames
  import opened Prelude

  // ----- finished_condition_: wait()

  /** What one step may do to the sleepers of finished_condition_ other than the stepping thread. */
  ghost predicate WaitersSafe(tid: nat, sh: Shared, th: Thread, l: Local)
  {
    || l.sh.pool.sleepers <= {tid}
    || (&& l.sh.pool.sleepers <= sh.pool.sleepers + {tid}
        && StackSum(Announcing, l.th.stack) >= StackSum(Announcing, th.stack)
        && (StackSum(Announcing, l.th.stack) > 0
            || (forall t: nat :: Satisfied(l.sh.pool, t) ==> Satisfied(sh.pool, t))))
  }

  /** A thread that sleeps after its own step evaluated its predicate in that step. */
  ghost predicate OwnWaitSafe(tid: nat, l: Local)
  {
    tid in l.sh.pool.sleepers ==>
      && l.th.stack.Cons? && l.th.stack.top.WaitFrame? && l.th.stack.top.wpc.Asleep?
      && !Satisfied(l.sh.pool, l.th.stack.top.target)
  }

  ghost predicate Dozes(tid: nat, sh: Shared, th: Thread)
  {
    tid in sh.pool.sleepers ==> th.stack.Cons? && th.stack.top.WaitFrame? && th.stack.top.wpc.Asleep?
  }

  ghost predicate WaitsSafe(tid: nat, sh: Shared, th: Thread, l: Local)
  {
    WaitersSafe(tid, sh, th, l) && OwnWaitSafe(tid, l)
  }

  lemma OwnerWaitersSafe(tid: nat, sh: Shared, th: Thread, r: nat, l: Local)
    requires r < |sh.regions| && th.stack.Cons? && th.stack.top == OwnerFrame(r)
    requires OwnerStep(sh, th, r) == Some(l) && Dozes(tid, sh, th)
    ensures WaitsSafe(tid, sh, th, l)
  {
    hide Phase, HelperIds;
    if sh.regions[r].pc.AfterConsume? {
      WithoutCounts(sh.pool.queue, r, r);
    }
  }

  lemma JobWaitersSafe(tid: nat, sh: Shared, th: Thread, l: Local)
    requires th.stack.Cons? && th.stack.top.JobFrame? && Dozes(tid, sh, th)
    requires JobStep(sh, th) == Some(l)
    ensures WaitsSafe(tid, sh, th, l)
  {
  }

  lemma WaitWaitersSafe(tid: nat, sh: Shared, th: Thread, l: Local)
    requires th.stack.Cons? && th.stack.top.WaitFrame? && Dozes(tid, sh, th)
    requires WaitStep(sh, th, tid, th.stack.top.target, th.stack.top.wpc) == Some(l)
             || (th.stack.top.wpc.Asleep? && l == WokenWait(sh, th, tid, th.stack.top.target))
    ensures WaitsSafe(tid, sh, th, l)
  {
  }

  lemma LeaveWaitersSafe(tid: nat, a: Action, sh: Shared, th: Thread, threw: bool, l: Local)
    requires LeaveUser(sh, th, threw) == Some(l) || Choice(a, sh, th) == Some(l)
    requires Dozes(tid, sh, th)
    ensures WaitsSafe(tid, sh, th, l)
  {
  }

  /** Whoever submits announces it; the other calls touch no sleeper. */
  lemma CallWaitersSafe(workers: nat, tid: nat, a: Action, sh: Shared, th: Thread, l: Local)
    requires UserCode(th.stack, tid, workers, sh.regions) && CallStep(a, tid, sh, th) == Some(l)
    requires Dozes(tid, sh, th)
    ensures WaitsSafe(tid, sh, th, l)
  {
  }

  lemma LoopWaitersSafe(workers: nat, tid: nat, a: Action, sh: Shared, th: Thread, l: Local)
    requires Dozes(tid, sh, th) && Next(workers, tid, a, sh, th) == Some(l)
    requires (th.stack.Nil? && !a.CallHelping? && !a.CallSubmit? && !a.CallWait? && !a.CancelWork?)
             || a.Stop? || a.WakeOne? || (a.Advance? && (th.stack.top.NotifyFrame? || th.stack.top.StopFrame?))
    ensures WaitsSafe(tid, sh, th, l)
  {
  }

  lemma RecheckSafe(tid: nat, sh: Shared, th: Thread, l: Local)
    requires Spurious(sh, th, tid) == Some(l) && Dozes(tid, sh, th) && th.stack.Cons? && th.stack.top.OwnerFrame?
    ensures WaitsSafe(tid, sh, th, l)
  {
  }

  lemma StepWaitersSafe(workers: nat, tid: nat, a: Action, sh: Shared, th: Thread, l: Local)
    requires Next(workers, tid, a, sh, th) == Some(l) && Dozes(tid, sh, th)
    ensures WaitsSafe(tid, sh, th, l)
  {
    hide OwnerStep, JobStep, WaitStep, WokenWait, LeaveUser, CallStep, Choice, LoopStep, NotifyStep, WaitsSafe;
    match a
    case Advance =>
      match th.stack.top {
        case JobFrame(_, _, _, _) => JobWaitersSafe(tid, sh, th, l);
        case OwnerFrame(r) => OwnerWaitersSafe(tid, sh, th, r, l);
        case WaitFrame(_, _) => WaitWaitersSafe(tid, sh, th, l);
        case _ => LoopWaitersSafe(workers, tid, a, sh, th, l);
      }
    case Return => LeaveWaitersSafe(tid, a, sh, th, false, l);
    case Throw => LeaveWaitersSafe(tid, a, sh, th, true, l);
    case RefusePublish => LeaveWaitersSafe(tid, a, sh, th, true, l);
    case SkipCancel => LeaveWaitersSafe(tid, a, sh, th, true, l);
    case SpuriousWake =>
      match th.stack {
        case Nil => LoopWaitersSafe(workers, tid, a, sh, th, l);
        case Cons(OwnerFrame(r), _) => RecheckSafe(tid, sh, th, l);
        case Cons(WaitFrame(_, _), _) => WaitWaitersSafe(tid, sh, th, l);
      }
    case TakeJob => LoopWaitersSafe(workers, tid, a, sh, th, l);
    case ExitWorker => LoopWaitersSafe(workers, tid, a, sh, th, l);
    case Doze => LoopWaitersSafe(workers, tid, a, sh, th, l);
    case Stop => LoopWaitersSafe(workers, tid, a, sh, th, l);
    case WakeOne(_) => LoopWaitersSafe(workers, tid, a, sh, th, l);
    case _ => CallWaitersSafe(workers, tid, a, sh, th, l);
  }

  // ----- condition_: the worker loops

  function AwakeHere(workers: nat, tid: nat, th: Thread, idlers: set<nat>): nat
  {
    if AwakeAt(th, tid, workers, idlers) then 1 else 0
  }

  lemma {:induction false} AwakeSame(ts: seq<Thread>, first: nat, workers: nat, idlers: set<nat>, idlers': set<nat>)
    requires forall j: nat :: j >= first ==> (j in idlers <==> j in idlers')
    ensures Awake(ts, first, workers, idlers') == Awake(ts, first, workers, idlers)
  {
    if ts != [] { AwakeSame(ts[1..], first + 1, workers, idlers, idlers'); }
  }

  /** One thread changes, or falls asleep, or wakes up. */
  lemma {:induction false} AwakeMoves(ts: seq<Thread>, first: nat, workers: nat, idlers: set<nat>, idlers': set<nat>,
          i: nat, t: Thread)
    requires i < |ts| && forall j: nat :: j != first + i ==> (j in idlers <==> j in idlers')
    ensures Awake(ts[i := t], first, workers, idlers') + AwakeHere(workers, first + i, ts[i], idlers) ==
            Awake(ts, first, workers, idlers) + AwakeHere(workers, first + i, t, idlers')
  {
    if i == 0 {
      assert ts[i := t][1..] == ts[1..];
      AwakeSame(ts[1..], first + 1, workers, idlers, idlers');
    } else {
      assert ts[i := t][1..] == ts[1..][i - 1 := t];
      AwakeMoves(ts[1..], first + 1, workers, idlers, idlers', i - 1, t);
    }
  }

  /** The step wakes the loop i, which a submitter owes to a job it has queued. */
  ghost predicate Wakes(i: nat, sh: Shared, th: Thread, l: Local)
  {
    && i in sh.pool.idlers && l.sh.pool.idlers == sh.pool.idlers - {i}
    && l.sh.pool.queue == sh.pool.queue && l.sh.pool.stop == sh.pool.stop
    && th.stack.Cons? && l.th.stack.Cons?
    && StackSum(Calling, th.stack) == StackSum(Calling, l.th.stack) + 1
    && StackSum(Stopping, th.stack) == StackSum(Stopping, l.th.stack)
  }

  /** The step leaves the other loops asleep: the thread's share of the queue and of the loops balances. */
  ghost predicate Balances(workers: nat, tid: nat, sh: Shared, th: Thread, l: Local)
  {
    && l.sh.pool.idlers == sh.pool.idlers - {tid}
    && (|| l.sh.pool.queue == []
        || |l.sh.pool.queue| + AwakeHere(workers, tid, th, sh.pool.idlers) + StackSum(Calling, th.stack) <=
           |sh.pool.queue| + AwakeHere(workers, tid, l.th, l.sh.pool.idlers) + StackSum(Calling, l.th.stack))
    && StackSum(Stopping, l.th.stack) >= StackSum(Stopping, th.stack)
    && (l.sh.pool.stop && !sh.pool.stop ==> StackSum(Stopping, l.th.stack) > 0)
  }

  /** The step puts its own thread, a worker loop, to sleep. */
  ghost predicate FallsAsleep(workers: nat, tid: nat, sh: Shared, l: Local)
  {
    && l.sh.pool.idlers == sh.pool.idlers + {tid} && l.sh.pool.queue == [] && !l.sh.pool.stop
    && Idles(l.th, tid, workers)
  }

  ghost predicate LoopsSafe(workers: nat, tid: nat, sh: Shared, th: Thread, l: Local)
  {
    || l.sh.pool.idlers == {}
    || FallsAsleep(workers, tid, sh, l)
    || (exists i: nat :: Wakes(i, sh, th, l))
    || Balances(workers, tid, sh, th, l)
  }

  lemma JobLoopsSafe(workers: nat, tid: nat, sh: Shared, th: Thread, l: Local)
    requires th.stack.Cons? && th.stack.top.JobFrame? && tid !in sh.pool.idlers && JobStep(sh, th) == Some(l)
    ensures Balances(workers, tid, sh, th, l)
  {
  }

  lemma CancelLoopsSafe(workers: nat, tid: nat, sh: Shared, th: Thread, r: nat, l: Local)
    requires r < |sh.regions| && th.stack.Cons? && th.stack.top == OwnerFrame(r) && sh.regions[r].pc.AfterConsume?
    requires OwnerStep(sh, th, r) == Some(l) && tid !in sh.pool.idlers
    ensures Balances(workers, tid, sh, th, l)
  {
    CancelShape(sh, th, r, l);
    WithoutCounts(sh.pool.queue, r, r);
    hide CountOf, Without, OwnerStep, HelperIds, StackSum;
  }

  lemma PublishLoopsSafe(workers: nat, tid: nat, sh: Shared, th: Thread, r: nat, l: Local)
    requires r < |sh.regions| && th.stack.Cons? && th.stack.top == OwnerFrame(r) && sh.regions[r].pc.Publish?
    requires OwnerStep(sh, th, r) == Some(l) && tid !in sh.pool.idlers
    ensures Balances(workers, tid, sh, th, l)
  {
    hide Phase, CountOf;
  }

  lemma OwnerLoopsSafe(workers: nat, tid: nat, sh: Shared, th: Thread, r: nat, l: Local)
    requires r < |sh.regions| && th.stack.Cons? && th.stack.top == OwnerFrame(r)
    requires OwnerStep(sh, th, r) == Some(l) && tid !in sh.pool.idlers
    ensures Balances(workers, tid, sh, th, l)
  {
    if sh.regions[r].pc.AfterConsume? {
      hide OwnerStep, Balances;
      CancelLoopsSafe(workers, tid, sh, th, r, l);
    } else if sh.regions[r].pc.Publish? {
      hide OwnerStep, Balances;
      PublishLoopsSafe(workers, tid, sh, th, r, l);
    } else {
      hide Phase, HelperIds, FirstOf, CountOf, Without, CancelDependency, Push;
    }
  }

  lemma WaitLoopsSafe(workers: nat, tid: nat, sh: Shared, th: Thread, l: Local)
    requires th.stack.Cons? && th.stack.top.WaitFrame? && tid !in sh.pool.idlers
    requires WaitStep(sh, th, tid, th.stack.top.target, th.stack.top.wpc) == Some(l)
             || (th.stack.top.wpc.Asleep? && l == WokenWait(sh, th, tid, th.stack.top.target))
    ensures Balances(workers, tid, sh, th, l)
  {
    hide Satisfied;
  }

  lemma LeaveLoopsSafe(workers: nat, tid: nat, a: Action, sh: Shared, th: Thread, threw: bool, l: Local)
    requires LeaveUser(sh, th, threw) == Some(l) || Choice(a, sh, th) == Some(l)
    requires tid in sh.pool.idlers ==> Idles(th, tid, workers)
    ensures Balances(workers, tid, sh, th, l)
  {
  }

  lemma CallLoopsSafe(workers: nat, tid: nat, a: Action, sh: Shared, th: Thread, l: Local)
    requires UserCode(th.stack, tid, workers, sh.regions) && CallStep(a, tid, sh, th) == Some(l)
    requires tid in sh.pool.idlers ==> Idles(th, tid, workers)
    ensures Balances(workers, tid, sh, th, l)
  {
  }

  lemma LoopLoopsSafe(workers: nat, tid: nat, a: Action, sh: Shared, th: Thread, l: Local)
    requires th.stack.Nil? && tid < workers
    requires LoopStep(a, tid, sh, th) == Some(l) || (Spurious(sh, th, tid) == Some(l) && !th.exited)
    ensures FallsAsleep(workers, tid, sh, l) || Balances(workers, tid, sh, th, l)
  {
  }

  lemma NotifyLoopsSafe(workers: nat, tid: nat, a: Action, sh: Shared, th: Thread, l: Local)
    requires Next(workers, tid, a, sh, th) == Some(l) && tid !in sh.pool.idlers
    requires a.Stop? || a.WakeOne? || (a.Advance? && (th.stack.top.NotifyFrame? || th.stack.top.StopFrame?))
    ensures LoopsSafe(workers, tid, sh, th, l)
  {
    if a.WakeOne? {
      assert Wakes(a.i, sh, th, l);
    } else {
      assert l.sh.pool.idlers == {} || Balances(workers, tid, sh, th, l);
    }
  }

  lemma RecheckBalances(workers: nat, tid: nat, sh: Shared, th: Thread, l: Local)
    requires Spurious(sh, th, tid) == Some(l) && tid !in sh.pool.idlers && th.stack.Cons? && th.stack.top.OwnerFrame?
    ensures Balances(workers, tid, sh, th, l)
  {
  }

  lemma StepLoopsSafe(workers: nat, tid: nat, a: Action, sh: Shared, th: Thread, l: Local)
    requires Next(workers, tid, a, sh, th) == Some(l)
    requires tid in sh.pool.idlers ==> Idles(th, tid, workers)
    ensures LoopsSafe(workers, tid, sh, th, l)
  {
    hide OwnerStep, JobStep, WaitStep, WokenWait, LeaveUser, CallStep, Choice, LoopStep, NotifyStep, Balances, Wakes,
        FallsAsleep;
    match a
    case Advance =>
      match th.stack.top {
        case JobFrame(_, _, _, _) => JobLoopsSafe(workers, tid, sh, th, l);
        case OwnerFrame(r) => OwnerLoopsSafe(workers, tid, sh, th, r, l);
        case WaitFrame(_, _) => WaitLoopsSafe(workers, tid, sh, th, l);
        case _ => NotifyLoopsSafe(workers, tid, a, sh, th, l);
      }
    case Return => LeaveLoopsSafe(workers, tid, a, sh, th, false, l);
    case Throw => LeaveLoopsSafe(workers, tid, a, sh, th, true, l);
    case RefusePublish => LeaveLoopsSafe(workers, tid, a, sh, th, true, l);
    case SkipCancel => LeaveLoopsSafe(workers, tid, a, sh, th, true, l);
    case SpuriousWake =>
      match th.stack {
        case Nil => LoopLoopsSafe(workers, tid, a, sh, th, l);
        case Cons(OwnerFrame(r), _) => RecheckBalances(workers, tid, sh, th, l);
        case Cons(WaitFrame(_, _), _) => WaitLoopsSafe(workers, tid, sh, th, l);
      }
    case TakeJob => LoopLoopsSafe(workers, tid, a, sh, th, l);
    case ExitWorker => LoopLoopsSafe(workers, tid, a, sh, th, l);
    case Doze => LoopLoopsSafe(workers, tid, a, sh, th, l);
    case Stop => NotifyLoopsSafe(workers, tid, a, sh, th, l);
    case WakeOne(_) => NotifyLoopsSafe(workers, tid, a, sh, th, l);
    case _ => CallLoopsSafe(workers, tid, a, sh, th, l);
  }

  // ----- the completion of a region

  /** What one step may do to the sleep of the owner of region q. */
  ghost predicate OwnerSafe(q: nat, sh: Shared, th: Thread, l: Local)
    requires q < |sh.regions| <= |l.sh.regions|
  {
    var g, g' := sh.regions[q], l.sh.regions[q];
    g'.asleep ==>
      || g'.remaining > 0
      || StackSum(Notifying(q), l.th.stack) > 0
      || (g.asleep && g.remaining == 0 && StackSum(Notifying(q), l.th.stack) >= StackSum(Notifying(q), th.stack))
  }

  lemma JobOwnerSafe(sh: Shared, th: Thread, l: Local, q: nat)
    requires th.stack.Cons? && th.stack.top.JobFrame? && JobStep(sh, th) == Some(l)
    requires q < |sh.regions|
    ensures |l.sh.regions| == |sh.regions| && OwnerSafe(q, sh, th, l)
  {
  }

  lemma PhaseSleeps(g: Region)
    requires Private(g.pc) && (g.asleep ==> g.pc.Sleep?)
    ensures Phase(g).asleep ==> Phase(g).remaining > 0
  {
  }

  lemma OthersKept(sh: Shared, th: Thread, r: nat, l: Local, q: nat)
    requires r < |sh.regions| && th.stack.Cons? && th.stack.top == OwnerFrame(r)
    requires OwnerStep(sh, th, r) == Some(l) && q < |sh.regions| && q != r
    ensures |l.sh.regions| == |sh.regions| && l.sh.regions[q] == sh.regions[q]
    ensures StackSum(Notifying(q), l.th.stack) >= StackSum(Notifying(q), th.stack)
  {
    hide Phase, HelperIds, CancelDependency, FirstOf;
  }

  lemma OwnerOwnerSafe(sh: Shared, th: Thread, r: nat, l: Local, q: nat)
    requires r < |sh.regions| && th.stack.Cons? && th.stack.top == OwnerFrame(r)
    requires OwnerStep(sh, th, r) == Some(l) && q < |sh.regions|
    requires sh.regions[r].asleep ==> sh.regions[r].pc.Sleep?
    ensures |l.sh.regions| == |sh.regions| && OwnerSafe(q, sh, th, l)
  {
    if q != r {
      OthersKept(sh, th, r, l, q);
      hide OwnerStep;
    } else {
      if Private(sh.regions[r].pc) { PhaseSleeps(sh.regions[r]); }
      hide Phase, HelperIds, CancelDependency, TakeDependency;
    }
  }

  lemma LeaveOwnerSafe(sh: Shared, th: Thread, threw: bool, l: Local, q: nat)
    requires LeaveUser(sh, th, threw) == Some(l) && q < |sh.regions|
    ensures |l.sh.regions| == |sh.regions| && OwnerSafe(q, sh, th, l)
  {
  }

  lemma CallOwnerSafe(a: Action, tid: nat, sh: Shared, th: Thread, l: Local, q: nat)
    requires CallStep(a, tid, sh, th) == Some(l) && q < |sh.regions|
    ensures |sh.regions| <= |l.sh.regions| && OwnerSafe(q, sh, th, l)
  {
  }

  lemma SpuriousOwnerSafe(tid: nat, sh: Shared, th: Thread, l: Local, q: nat)
    requires Spurious(sh, th, tid) == Some(l) && q < |sh.regions|
    ensures |sh.regions| == |l.sh.regions| && OwnerSafe(q, sh, th, l)
  {
    hide Satisfied;
  }

  lemma RestOwnerSafe(workers: nat, tid: nat, a: Action, sh: Shared, th: Thread, l: Local, q: nat)
    requires Next(workers, tid, a, sh, th) == Some(l) && q < |sh.regions|
    requires !a.Return? && !a.Throw? && !a.CallHelping? && !a.CallSubmit? && !a.CallWait? && !a.CancelWork?
    requires a.Advance? ==> !th.stack.top.OwnerFrame? && !th.stack.top.JobFrame?
    requires th.stack.Cons? && th.stack.top.OwnerFrame? && th.stack.top.region < |sh.regions| ==>
      var g := sh.regions[th.stack.top.region]; g.asleep ==> g.pc.Sleep?
    ensures |sh.regions| == |l.sh.regions| && OwnerSafe(q, sh, th, l)
  {
    if a.SpuriousWake? {
      SpuriousOwnerSafe(tid, sh, th, l, q);
    } else {
      hide TakeFront, Satisfied, Rechecked;
      assert l.sh.regions[q].asleep == sh.regions[q].asleep && l.sh.regions[q].remaining == sh.regions[q].remaining;
    }
  }

  lemma StepOwnerSafe(workers: nat, tid: nat, a: Action, sh: Shared, th: Thread, l: Local, q: nat)
    requires Next(workers, tid, a, sh, th) == Some(l) && q < |sh.regions|
    requires th.stack.Cons? && th.stack.top.OwnerFrame? && th.stack.top.region < |sh.regions| ==>
      var g := sh.regions[th.stack.top.region]; g.asleep ==> g.pc.Sleep?
    ensures |sh.regions| <= |l.sh.regions| && OwnerSafe(q, sh, th, l)
  {
    hide OwnerStep, JobStep, LeaveUser, CallStep, WaitStep, WokenWait, OwnerSafe;
    if a.Advance? && th.stack.top.OwnerFrame? {
      OwnerOwnerSafe(sh, th, th.stack.top.region, l, q);
    } else if a.Advance? && th.stack.top.JobFrame? {
      JobOwnerSafe(sh, th, l, q);
    } else if a.Return? || a.Throw? {
      LeaveOwnerSafe(sh, th, a.Throw?, l, q);
    } else if a.CallHelping? || a.CallSubmit? || a.CallWait? || a.CancelWork? {
      CallOwnerSafe(a, tid, sh, th, l, q);
    } else {
      RestOwnerSafe(workers, tid, a, sh, th, l, q);
    }
  }

  // ----- how stacks move

  /** How a step may change its stack: not at all, push one frame, replace a top that owns no region, or
      pop one frame; an owner is popped only when its region returns. */
  predicate StackMoves(s: Stack, s': Stack, regions': seq<Region>)
  {
    || s' == s
    || (s'.Cons? && s'.rest == s)
    || (s.Cons? && s'.Cons? && s'.rest == s.rest && !s.top.OwnerFrame?)
    || (s.Cons? && s' == s.rest
        && (s.top.OwnerFrame? ==> s.top.region < |regions'| && regions'[s.top.region].pc.Returned?))
  }

  lemma OwnerMovesStack(sh: Shared, th: Thread, r: nat, l: Local)
    requires r < |sh.regions| && th.stack.Cons? && th.stack.top == OwnerFrame(r)
    requires OwnerStep(sh, th, r) == Some(l)
    ensures StackMoves(th.stack, l.th.stack, l.sh.regions) && |l.sh.regions| == |sh.regions|
    ensures l.sh.pool.stop == sh.pool.stop && l.th.exited == th.exited
  {
    hide Phase, HelperIds, CountOf, Without, FirstOf;
  }

  lemma JobMovesStack(sh: Shared, th: Thread, l: Local)
    requires th.stack.Cons? && th.stack.top.JobFrame? && JobStep(sh, th) == Some(l)
    ensures StackMoves(th.stack, l.th.stack, l.sh.regions) && |l.sh.regions| == |sh.regions|
    ensures l.sh.pool.stop == sh.pool.stop && l.th.exited == th.exited
  {
  }

  lemma LeaveMovesStack(sh: Shared, th: Thread, threw: bool, l: Local)
    requires LeaveUser(sh, th, threw) == Some(l)
    ensures StackMoves(th.stack, l.th.stack, l.sh.regions) && |l.sh.regions| == |sh.regions|
    ensures l.sh.pool.stop == sh.pool.stop && l.th.exited == th.exited
  {
  }

  lemma CallMovesStack(a: Action, tid: nat, sh: Shared, th: Thread, l: Local)
    requires CallStep(a, tid, sh, th) == Some(l)
    ensures StackMoves(th.stack, l.th.stack, l.sh.regions)
    ensures |l.sh.regions| > |sh.regions| ==>
      l.th.stack.Cons? && l.th.stack.top == OwnerFrame(|sh.regions|) && |l.sh.regions| == |sh.regions| + 1
    ensures l.sh.pool.stop == sh.pool.stop && l.th.exited == th.exited
  {
  }

  lemma RestMovesStack(workers: nat, tid: nat, a: Action, sh: Shared, th: Thread, l: Local)
    requires Next(workers, tid, a, sh, th) == Some(l)
    requires !a.Return? && !a.Throw? && !a.CallHelping? && !a.CallSubmit? && !a.CallWait? && !a.CancelWork?
    requires a.Advance? ==> !th.stack.top.OwnerFrame? && !th.stack.top.JobFrame?
    ensures StackMoves(th.stack, l.th.stack, l.sh.regions) && |l.sh.regions| == |sh.regions|
    ensures sh.pool.stop ==> l.sh.pool.stop
    ensures l.th.exited ==> th.exited || l.sh.pool.stop
  {
  }

  lemma StepMovesStack(workers: nat, tid: nat, a: Action, sh: Shared, th: Thread, l: Local)
    requires Next(workers, tid, a, sh, th) == Some(l)
    ensures StackMoves(th.stack, l.th.stack, l.sh.regions)
    ensures |l.sh.regions| > |sh.regions| ==>
      l.th.stack.Cons? && l.th.stack.top == OwnerFrame(|sh.regions|) && |l.sh.regions| == |sh.regions| + 1
    ensures sh.pool.stop ==> l.sh.pool.stop
    ensures l.th.exited ==> th.exited || l.sh.pool.stop
  {
    hide OwnerStep, JobStep, LeaveUser, CallStep, WaitStep, WokenWait, StackMoves;
    if a.Advance? && th.stack.top.OwnerFrame? {
      OwnerMovesStack(sh, th, th.stack.top.region, l);
    } else if a.Advance? && th.stack.top.JobFrame? {
      JobMovesStack(sh, th, l);
    } else if a.Return? || a.Throw? {
      LeaveMovesStack(sh, th, a.Throw?, l);
    } else if a.CallHelping? || a.CallSubmit? || a.CallWait? || a.CancelWork? {
      CallMovesStack(a, tid, sh, th, l);
    } else {
      RestMovesStack(workers, tid, a, sh, th, l);
    }
  }

  /** The owner frame of a region stays on its thread's stack until the region returns. */
  lemma OwnerStays(s: Stack, s': Stack, regions': seq<Region>, q: nat)
    requires StackMoves(s, s', regions') && OwnerOnStack(s, q) && q < |regions'| && !regions'[q].pc.Returned?
    ensures OwnerOnStack(s', q)
  {
  }
}
