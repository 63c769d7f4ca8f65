/** Each step keeps the invariant: the local laws, and their lifting to the whole state. */
module PoolSteps {
  import opened PoolQueue
  import opened PoolModel
  import opened PoolInvariant
  import opened Prelude

  /** What the stepping thread knows about the shared counters: its own frames are covered by them. */
  predicate Covered(sh: Shared, th: Thread)
  {
    && StackSum(Live, th.stack) <= Counter(sh, Live)
    && StackSum(WorkerRun, th.stack) <= Counter(sh, WorkerRun)
    && (th.stack.Cons? ==>
          var r := TopRegion(th.stack.top);
          && StackSum(Unfinished(r), th.stack) <= Counter(sh, Unfinished(r))
          && (r < |sh.regions| ==> sh.regions[r].first <= sh.regions[r].next))
    && sh.accepted == sh.pool.active + |sh.finished| + |sh.dropped|
  }

  function TopRegion(f: Frame): nat
  {
    match f
    case JobFrame(_, Helper(_, r), _, _) => r
    case OwnerFrame(r) => r
    case _ => 0
  }

  lemma QueueFacts(queue: seq<Job>, job: Job, r: nat)
    ensures CountOf(queue + [job], r) == CountOf(queue, r) + (if Serves(job, r) then 1 else 0)
    ensures queue != [] ==> CountOf(queue, r) == CountOf(queue[1..], r) + (if Serves(queue[0], r) then 1 else 0)
  {
    CountOfConcat(queue, [job], r);
  }

  lemma IdFacts(queue: seq<Job>, job: Job, id: nat)
    ensures IdCount(queue + [job], id) == IdCount(queue, id) + (if job.id == id then 1 else 0)
    ensures queue != [] ==> IdCount(queue, id) == IdCount(queue[1..], id) + (if queue[0].id == id then 1 else 0)
  {
    IdCountConcat(queue, [job], id);
  }

  /** A step that only replaces the record of region r. */
  lemma Replace(sh: Shared, r: nat, g: Region, k: Weight)
    requires r < |sh.regions|
    ensures Counter(SetRegion(sh, r, g), k) ==
            Counter(sh, k) + if About(k, r) then RegionPart(g, k) - RegionPart(sh.regions[r], k) else 0
  {
  }

  predicate SameBooks(sh: Shared, sh': Shared)
  {
    && sh'.pool == sh.pool.(sleepers := sh'.pool.sleepers, idlers := sh'.pool.idlers, stop := sh'.pool.stop)
    && sh' == sh.(pool := sh'.pool, error := sh'.error)
  }

  lemma BooksKept(sh: Shared, sh': Shared, k: Weight)
    requires SameBooks(sh, sh')
    ensures Counter(sh', k) == Counter(sh, k)
  {
  }

  /** An accepted job is active, queued and numbered, and belongs to its region. */
  lemma Pushes(sh: Shared, job: Job, k: Weight)
    requires Conserved(k) && job.id == sh.accepted
    ensures Counter(sh.(pool := Push(sh.pool, job), accepted := sh.accepted + 1), k) ==
            Counter(sh, k) - if k.Unfinished? && Serves(job, k.r) then 1 else 0
  {
    if k.Unfinished? { QueueFacts(sh.pool.queue, job, k.r); }
    if k.Holding? { IdFacts(sh.pool.queue, job, k.id); }
  }

  /** A job that leaves the queue is explained by the frame that runs it. */
  lemma Takes(sh: Shared, worker: bool, f: Frame, k: Weight)
    requires Conserved(k) && sh.pool.queue != []
    requires f.JobFrame? && f.job == sh.pool.queue[0] && f.pc == StartPc(f.job) && f.kind.ByWorker? == worker
    ensures Counter(sh.(pool := TakeFront(sh.pool, worker)), k) == Counter(sh, k) + W(k, f)
  {
    if k.Unfinished? { QueueFacts(sh.pool.queue, f.job, k.r); }
    if k.Holding? { IdFacts(sh.pool.queue, f.job, k.id); }
  }

  /** Cancelled jobs are dropped from the queue and the active count; those of r stay registered. */
  lemma Drops(sh: Shared, r: nat, k: Weight)
    requires Conserved(k) && |sh.pool.queue| <= sh.pool.active
    ensures var sh' := sh.(pool := CancelDependency(sh.pool, r), dropped := sh.dropped + HelperIds(sh.pool.queue, r));
      && Counter(sh', k) == Counter(sh, k) + (if k == Unfinished(r) then CountOf(sh.pool.queue, r) else 0)
      && sh'.pool.active + |sh'.dropped| == sh.pool.active + |sh.dropped|
  {
    CountOfBounded(sh.pool.queue, r);
    WithoutCounts(sh.pool.queue, r, if k.Unfinished? then k.r else r);
    WithoutIds(sh.pool.queue, r, if k.Holding? then k.id else 0);
  }

  lemma TakesHelper(sh: Shared, r: nat, f: Frame, k: Weight)
    requires Conserved(k) && FirstOf(sh.pool.queue, r) < |sh.pool.queue|
    requires f.JobFrame? && f.job == sh.pool.queue[FirstOf(sh.pool.queue, r)] && f.pc == TryAcquire
        && f.kind.ByDependency?
    ensures Counter(sh.(pool := TakeDependency(sh.pool, r)), k) == Counter(sh, k) + W(k, f)
  {
    var i := FirstOf(sh.pool.queue, r);
    if k.Unfinished? { CountOfRemoveAt(sh.pool.queue, i, k.r); }
    if k.Holding? { IdCountRemoveAt(sh.pool.queue, i, k.id); }
  }

  lemma SwapTop(k: Weight, s: Stack, f: Frame)
    requires s.Cons?
    ensures StackSum(k, Cons(f, s.rest)) - StackSum(k, s) == W(k, f) - W(k, s.top)
  {
  }

  lemma PushFrame(k: Weight, s: Stack, f: Frame)
    ensures StackSum(k, Cons(f, s)) == W(k, f) + StackSum(k, s)
  {
  }

  /** Local conservation: the stepping thread's frames absorb whatever the step does to a counter. */
  predicate Absorbed(sh: Shared, th: Thread, l: Local, k: Weight)
  {
    && Counter(l.sh, k) - StackSum(k, l.th.stack) == Counter(sh, k) - StackSum(k, th.stack)
    && l.sh.accepted == l.sh.pool.active + |l.sh.finished| + |l.sh.dropped|
  }

  /** A helper that has not finished is counted by its region, and so is what the owner has in hand. */
  lemma Counted(sh: Shared, th: Thread)
    requires th.stack.Cons? && Covered(sh, th)
    ensures var f := th.stack.top;
      && (f.JobFrame? && f.job.Helper? && f.job.region < |sh.regions| && W(Unfinished(f.job.region), f) > 0 ==>
            sh.regions[f.job.region].remaining > 0)
      && (f.OwnerFrame? && f.region < |sh.regions| ==>
            sh.regions[f.region].remaining >= Inflight(sh.regions[f.region].pc))
  {
  }

  lemma JobDone(sh: Shared, th: Thread, l: Local, k: Weight)
    requires th.stack.Cons? && th.stack.top.JobFrame? && Covered(sh, th) && Conserved(k)
    requires th.stack.top.pc.Done? && JobStep(sh, th) == Some(l)
    ensures Absorbed(sh, th, l, k)
  {
  }

  lemma ErrorPart(g: Region, g': Region, k: Weight)
    requires g' == g.(cancelled := g'.cancelled, failed := g'.failed, requested := g'.requested,
        spoiled := g'.spoiled, asleep := g'.asleep)
    ensures RegionPart(g', k) == RegionPart(g, k)
  {
  }

  lemma JobTries(sh: Shared, th: Thread, l: Local, k: Weight)
    requires th.stack.Cons? && th.stack.top.JobFrame? && Covered(sh, th) && Conserved(k)
    requires th.stack.top.pc.TryAcquire? && JobStep(sh, th) == Some(l)
    ensures Absorbed(sh, th, l, k)
  {
  }

  lemma JobCancels(sh: Shared, th: Thread, l: Local, k: Weight)
    requires th.stack.Cons? && th.stack.top.JobFrame? && Covered(sh, th) && Conserved(k)
    requires th.stack.top.pc.Cancelling? && JobStep(sh, th) == Some(l)
    ensures Absorbed(sh, th, l, k)
  {
    hide Counter, StackSum, RegionPart;
    var f := th.stack.top;
    var r := f.job.region;
    ErrorPart(sh.regions[r], l.sh.regions[r], k);
    assert l.sh == SetRegion(sh, r, l.sh.regions[r]);
    Replace(sh, r, l.sh.regions[r], k);
    SwapTop(k, th.stack, l.th.stack.top);
  }

  lemma AcquirePart(g: Region, k: Weight)
    requires Conserved(k) && g.first <= g.next
    ensures RegionPart(Acquire(g), k) - RegionPart(g, k) == if k.Executing? && k.c == g.next then 1 else 0
  {
  }

  lemma JobTakes(sh: Shared, th: Thread, l: Local, k: Weight)
    requires th.stack.Cons? && th.stack.top.JobFrame? && Covered(sh, th) && Conserved(k)
    requires th.stack.top.pc.TakeChunk? && JobStep(sh, th) == Some(l)
    ensures Absorbed(sh, th, l, k)
  {
    hide Counter, StackSum, RegionPart;
    var f := th.stack.top;
    var r := f.job.region;
    var g := sh.regions[r];
    SwapTop(k, th.stack, l.th.stack.top);
    if g.next < g.total {
      AcquirePart(g, k);
      assert l.sh == SetRegion(sh, r, Acquire(g));
      Replace(sh, r, Acquire(g), k);
    }
  }

  lemma RemainingPart(g: Region, g': Region, k: Weight)
    requires g' == g.(remaining := g'.remaining, asleep := g'.asleep)
    ensures RegionPart(g', k) - RegionPart(g, k) == if k.Unfinished? then g'.remaining - g.remaining else 0
  {
  }

  lemma JobFinishes(sh: Shared, th: Thread, l: Local, k: Weight)
    requires th.stack.Cons? && th.stack.top.JobFrame? && Covered(sh, th) && Conserved(k)
    requires th.stack.top.pc.Finishing? || th.stack.top.pc.NotifyOwner?
    requires JobStep(sh, th) == Some(l)
    ensures Absorbed(sh, th, l, k)
  {
    hide Counter, StackSum, RegionPart;
    var f := th.stack.top;
    var r := f.job.region;
    Counted(sh, th);
    RemainingPart(sh.regions[r], l.sh.regions[r], k);
    assert l.sh == SetRegion(sh, r, l.sh.regions[r]);
    Replace(sh, r, l.sh.regions[r], k);
    SwapTop(k, th.stack, l.th.stack.top);
  }

  lemma OutcomePart(g: Region, c: nat, threw: bool, k: Weight)
    requires Conserved(k)
    ensures RegionPart(Outcome(g, c, threw), k) - RegionPart(g, k) == if k.Executing? && k.c == c then -1 else 0
  {
  }

  lemma JobReturns(sh: Shared, th: Thread, threw: bool, l: Local, k: Weight)
    requires th.stack.Cons? && th.stack.top.JobFrame? && Covered(sh, th) && Conserved(k)
    requires th.stack.top.job.Helper? ==> !th.stack.top.pc.Running?
    requires LeaveUser(sh, th, threw) == Some(l)
    ensures Absorbed(sh, th, l, k)
  {
    hide Counter, StackSum, RegionPart;
    var f := th.stack.top;
    SwapTop(k, th.stack, l.th.stack.top);
    if f.pc.InChunk? {
      var r := f.job.region;
      OutcomePart(sh.regions[r], f.pc.c, threw, k);
      assert l.sh == SetRegion(sh, r, Outcome(sh.regions[r], f.pc.c, threw));
      Replace(sh, r, Outcome(sh.regions[r], f.pc.c, threw), k);
    } else {
      BooksKept(sh, l.sh, k);
    }
  }

  lemma OwnerReturns(sh: Shared, th: Thread, threw: bool, l: Local, k: Weight)
    requires th.stack.Cons? && th.stack.top.OwnerFrame? && Covered(sh, th) && Conserved(k)
    requires LeaveUser(sh, th, threw) == Some(l)
    ensures Absorbed(sh, th, l, k)
  {
    hide Counter, StackSum;
    var r := th.stack.top.region;
    assert l.th == th && l.sh == SetRegion(sh, r, l.sh.regions[r]);
    Replace(sh, r, l.sh.regions[r], k);
  }

  // ----- the owner's phases

  predicate OwnerOnTop(sh: Shared, th: Thread, r: nat)
  {
    th.stack.Cons? && th.stack.top == OwnerFrame(r) && r < |sh.regions| && Covered(sh, th)
  }

  lemma PhasePart(g: Region, pc: OwnerPc, k: Weight)
    requires Conserved(k)
    ensures RegionPart(g.(pc := pc), k) - RegionPart(g, k) ==
            match k
            case Unfinished(_) => Inflight(g.pc) - Inflight(pc)
            case Executing(_, c) => (if g.pc == OwnChunk(c) then 1 else 0) - (if pc == OwnChunk(c) then 1 else 0)
            case _ => 0
  {
  }

  lemma OwnerPublishes(sh: Shared, th: Thread, r: nat, l: Local, k: Weight)
    requires OwnerOnTop(sh, th, r) && Conserved(k)
    requires sh.regions[r].pc.Publish? && OwnerStep(sh, th, r) == Some(l)
    ensures Absorbed(sh, th, l, k)
  {
    hide Counter, StackSum, RegionPart;
    var mid := sh.(pool := Push(sh.pool, Helper(sh.accepted, r)), accepted := sh.accepted + 1);
    Pushes(sh, Helper(sh.accepted, r), k);
    PhasePart(sh.regions[r], l.sh.regions[r].pc, k);
    assert l.sh == SetRegion(mid, r, sh.regions[r].(pc := l.sh.regions[r].pc));
    Replace(mid, r, l.sh.regions[r], k);
    PushFrame(k, th.stack, NotifyFrame(WakeWorker));
  }

  lemma RegistersPart(g: Region, k: Weight)
    requires Conserved(k) && (g.pc.Register? || g.pc.Rollback? || g.pc.RolledBack?)
    requires g.remaining >= Inflight(g.pc)
    ensures RegionPart(Registers(g), k) == RegionPart(g, k)
  {
    hide RegionPart;
    var g' := Registers(g);
    if g.pc.RolledBack? {
      ErrorPart(g, g.(failed := true, spoiled := true), k);
      PhasePart(g.(failed := true, spoiled := true), g'.pc, k);
    } else {
      RemainingPart(g, g.(remaining := g'.remaining, asleep := g'.asleep), k);
      PhasePart(g.(remaining := g'.remaining, asleep := g'.asleep), g'.pc, k);
    }
  }

  lemma ConsumesPart(g: Region, k: Weight)
    requires Conserved(k) && (g.pc.OwnCancel? || g.pc.OwnTry? || g.pc.OwnTake?) && g.first <= g.next
    ensures RegionPart(Consumes(g), k) == RegionPart(g, k)
  {
    hide RegionPart;
    if g.pc.OwnTake? && g.next < g.total {
      AcquirePart(g, k);
      PhasePart(Acquire(g), OwnChunk(g.next), k);
    } else {
      var low := g.(cancelled := Consumes(g).cancelled);
      ErrorPart(g, low, k);
      PhasePart(low, Consumes(g).pc, k);
    }
  }

  lemma RetiresPart(g: Region, k: Weight)
    requires Conserved(k) && (g.pc.Subtract? || g.pc.Check? || g.pc.Sleep?)
    requires g.remaining >= Inflight(g.pc)
    ensures RegionPart(Retires(g), k) == RegionPart(g, k)
  {
    hide RegionPart;
    var g' := Retires(g);
    var mid := g.(remaining := g'.remaining, asleep := g'.asleep);
    RemainingPart(g, mid, k);
    PhasePart(mid, g'.pc, k);
  }

  /** What the owner does in private moves no counter. */
  lemma PhaseKeepsPart(g: Region, k: Weight)
    requires Conserved(k) && Private(g.pc) && g.first <= g.next && g.remaining >= Inflight(g.pc)
    ensures RegionPart(Phase(g), k) == RegionPart(g, k)
  {
    hide RegionPart, Registers, Consumes, Retires;
    if g.pc.Register? || g.pc.Rollback? || g.pc.RolledBack? { RegistersPart(g, k); }
    else if g.pc.OwnCancel? || g.pc.OwnTry? || g.pc.OwnTake? { ConsumesPart(g, k); }
    else { RetiresPart(g, k); }
  }

  lemma OwnerIsPrivate(sh: Shared, th: Thread, r: nat, l: Local, k: Weight)
    requires OwnerOnTop(sh, th, r) && Conserved(k) && Private(sh.regions[r].pc)
    requires l == Local(SetRegion(sh, r, Phase(sh.regions[r])), th)
    ensures Absorbed(sh, th, l, k)
  {
    Counted(sh, th);
    hide Counter, StackSum, RegionPart, Phase;
    PhaseKeepsPart(sh.regions[r], k);
    Replace(sh, r, Phase(sh.regions[r]), k);
  }

  lemma CancelShape(sh: Shared, th: Thread, r: nat, l: Local)
    requires r < |sh.regions| && th.stack.Cons? && sh.regions[r].pc.AfterConsume? && OwnerStep(sh, th, r) == Some(l)
    ensures l.th == th && r < |l.sh.regions|
    ensures var pc := l.sh.regions[r].pc;
      && pc == (if CountOf(sh.pool.queue, r) == 0 then Help else Subtract(CountOf(sh.pool.queue, r)))
      && l.sh == SetRegion(sh.(pool := CancelDependency(sh.pool, r), dropped := sh.dropped + HelperIds(sh.pool.queue,
          r)),
                           r, sh.regions[r].(pc := pc))
  {
    hide CancelDependency, HelperIds, CountOf, Phase;
  }

  lemma OwnerCancels(sh: Shared, th: Thread, r: nat, l: Local, k: Weight)
    requires OwnerOnTop(sh, th, r) && Conserved(k)
    requires sh.regions[r].pc.AfterConsume? && OwnerStep(sh, th, r) == Some(l)
    ensures Absorbed(sh, th, l, k)
  {
    assert |sh.pool.queue| <= sh.pool.active;
    CancelShape(sh, th, r, l);
    hide Counter, StackSum, RegionPart, CancelDependency, CountOf, HelperIds, OwnerStep;
    var g := sh.regions[r];
    var mid := sh.(pool := CancelDependency(sh.pool, r), dropped := sh.dropped + HelperIds(sh.pool.queue, r));
    Drops(sh, r, k);
    Replace(mid, r, l.sh.regions[r], k);
    PhasePart(g, l.sh.regions[r].pc, k);
  }

  lemma OwnerHelps(sh: Shared, th: Thread, r: nat, l: Local, k: Weight)
    requires OwnerOnTop(sh, th, r) && Conserved(k)
    requires sh.regions[r].pc.Help? && OwnerStep(sh, th, r) == Some(l)
    ensures Absorbed(sh, th, l, k)
  {
    hide Counter, StackSum, RegionPart;
    var g := sh.regions[r];
    if FirstOf(sh.pool.queue, r) < |sh.pool.queue| {
      TakesHelper(sh, r, l.th.stack.top, k);
      PushFrame(k, th.stack, l.th.stack.top);
    } else {
      assert l.sh == SetRegion(sh, r, g.(pc := Check));
      Replace(sh, r, l.sh.regions[r], k);
      PhasePart(g, Check, k);
    }
  }

  lemma OwnerFinishes(sh: Shared, th: Thread, r: nat, l: Local, k: Weight)
    requires OwnerOnTop(sh, th, r) && Conserved(k)
    requires sh.regions[r].pc.Finish? && OwnerStep(sh, th, r) == Some(l)
    ensures Absorbed(sh, th, l, k)
  {
    hide Counter;
    assert l.sh == SetRegion(sh, r, l.sh.regions[r]);
    Replace(sh, r, l.sh.regions[r], k);
  }

  lemma OwnerChoice(sh: Shared, th: Thread, r: nat, a: Action, l: Local, k: Weight)
    requires OwnerOnTop(sh, th, r) && Conserved(k)
    requires Choice(a, sh, th) == Some(l)
    ensures Absorbed(sh, th, l, k)
  {
    hide Counter, StackSum, RegionPart;
    var g := sh.regions[r];
    assert l.th == th && l.sh == SetRegion(sh, r, g.(pc := l.sh.regions[r].pc));
    Replace(sh, r, l.sh.regions[r], k);
    PhasePart(g, l.sh.regions[r].pc, k);
  }

  lemma WaiterRuns(sh: Shared, th: Thread, tid: nat, target: nat, l: Local, k: Weight)
    requires th.stack.Cons? && th.stack.top == WaitFrame(target, Loop) && Covered(sh, th) && Conserved(k)
    requires WaitStep(sh, th, tid, target, Loop) == Some(l)
    ensures Absorbed(sh, th, l, k)
  {
    hide Counter, StackSum;
    if sh.pool.queue != [] && target > 0 {
      Takes(sh, false, l.th.stack.top, k);
      PushFrame(k, th.stack, l.th.stack.top);
    } else {
      SwapTop(k, th.stack, l.th.stack.top);
    }
  }

  lemma WaiterTests(sh: Shared, th: Thread, tid: nat, target: nat, wpc: WaitPc, l: Local, k: Weight)
    requires th.stack.Cons? && th.stack.top == WaitFrame(target, wpc) && Covered(sh, th) && Conserved(k)
    requires (wpc.Test? && WaitStep(sh, th, tid, target, wpc) == Some(l)) || (wpc.Asleep?
        && l == WokenWait(sh, th, tid, target))
    ensures Absorbed(sh, th, l, k)
  {
    hide Counter, StackSum;
    BooksKept(sh, l.sh, k);
    PushFrame(k, th.stack.rest, th.stack.top);
    if l.th.stack != th.stack.rest { SwapTop(k, th.stack, l.th.stack.top); }
  }

  lemma LoopAbsorbs(a: Action, tid: nat, sh: Shared, th: Thread, l: Local, k: Weight)
    requires th.stack.Nil? && Covered(sh, th) && Conserved(k)
    requires LoopStep(a, tid, sh, th) == Some(l) || Spurious(sh, th, tid) == Some(l)
    ensures Absorbed(sh, th, l, k)
  {
    hide Counter, StackSum;
    if l.th.stack != th.stack {
      Takes(sh, true, l.th.stack.top, k);
      PushFrame(k, th.stack, l.th.stack.top);
    } else {
      BooksKept(sh, l.sh, k);
    }
  }

  lemma Opens(sh: Shared, g: Region, k: Weight)
    requires g.remaining == 0 && Inflight(g.pc) == 0 && !g.pc.OwnChunk? && g.first == g.next
    requires g.completed == multiset{} && g.threw == multiset{} && Conserved(k)
    ensures Counter(sh.(regions := sh.regions + [g]), k) == Counter(sh, k)
  {
  }

  lemma CallAbsorbs(a: Action, tid: nat, sh: Shared, th: Thread, l: Local, k: Weight)
    requires Covered(sh, th) && Conserved(k)
    requires CallStep(a, tid, sh, th) == Some(l)
    ensures Absorbed(sh, th, l, k)
  {
    hide Counter, StackSum, RegionPart;
    if a.CallSubmit? {
      Pushes(sh, Plain(sh.accepted), k);
      PushFrame(k, th.stack, NotifyFrame(WakeWorker));
    } else if a.CallHelping? {
      Opens(sh, NewRegion(tid, Caller(th.stack), a.work, a.helpers), k);
      PushFrame(k, th.stack, OwnerFrame(|sh.regions|));
    } else if a.CancelWork? {
      ErrorPart(sh.regions[a.r], l.sh.regions[a.r], k);
      Replace(sh, a.r, l.sh.regions[a.r], k);
    } else {
      PushFrame(k, th.stack, l.th.stack.top);
    }
  }

  /** Notifications, and the destructor's flag, are no business of any counter. */
  lemma NotifyAbsorbs(workers: nat, tid: nat, a: Action, sh: Shared, th: Thread, l: Local, k: Weight)
    requires Covered(sh, th) && Conserved(k) && Next(workers, tid, a, sh, th) == Some(l)
    requires a.Stop? || a.WakeOne? || (a.Advance? && (th.stack.top.NotifyFrame? || th.stack.top.StopFrame?))
    ensures Absorbed(sh, th, l, k)
  {
    hide Counter, StackSum;
    BooksKept(sh, l.sh, k);
    if a.Stop? { PushFrame(k, th.stack, StopFrame); }
    else {
      PushFrame(k, th.stack.rest, th.stack.top);
      if l.th.stack != th.stack.rest { SwapTop(k, th.stack, l.th.stack.top); }
    }
  }

  lemma OwnerAbsorbs(sh: Shared, th: Thread, r: nat, l: Local, k: Weight)
    requires OwnerOnTop(sh, th, r) && Conserved(k)
    requires OwnerStep(sh, th, r) == Some(l)
    ensures Absorbed(sh, th, l, k)
  {
    hide Absorbed, Phase;
    if Private(sh.regions[r].pc) {
      OwnerIsPrivate(sh, th, r, l, k);
    } else {
      match sh.regions[r].pc
      case Publish(_) => OwnerPublishes(sh, th, r, l, k);
      case AfterConsume => OwnerCancels(sh, th, r, l, k);
      case Help => OwnerHelps(sh, th, r, l, k);
      case Finish => OwnerFinishes(sh, th, r, l, k);
    }
  }

  lemma JobAbsorbs(sh: Shared, th: Thread, l: Local, k: Weight)
    requires th.stack.Cons? && th.stack.top.JobFrame? && Covered(sh, th) && Conserved(k)
    requires JobStep(sh, th) == Some(l)
    ensures Absorbed(sh, th, l, k)
  {
    match th.stack.top.pc
    case TryAcquire => JobTries(sh, th, l, k);
    case TakeChunk => JobTakes(sh, th, l, k);
    case Cancelling => JobCancels(sh, th, l, k);
    case Finishing => JobFinishes(sh, th, l, k);
    case NotifyOwner => JobFinishes(sh, th, l, k);
    case Done => JobDone(sh, th, l, k);
  }

  /** Every step of every thread conserves every counter locally. */
  lemma StepAbsorbs(workers: nat, tid: nat, a: Action, sh: Shared, th: Thread, l: Local, k: Weight)
    requires Next(workers, tid, a, sh, th) == Some(l) && Covered(sh, th) && Conserved(k)
    requires StackOk(th.stack, tid, workers, sh.regions, |sh.regions|)
    ensures Absorbed(sh, th, l, k)
  {
    match a
    case Advance =>
      match th.stack.top {
        case JobFrame(_, _, _, _) => JobAbsorbs(sh, th, l, k);
        case OwnerFrame(r) => OwnerAbsorbs(sh, th, r, l, k);
        case WaitFrame(target, wpc) =>
          if wpc.Loop? { WaiterRuns(sh, th, tid, target, l, k); } else { WaiterTests(sh, th, tid, target, wpc, l, k); }
        case _ => NotifyAbsorbs(workers, tid, a, sh, th, l, k);
      }
    case Return => LeaveAbsorbs(workers, tid, sh, th, false, l, k);
    case Throw => LeaveAbsorbs(workers, tid, sh, th, true, l, k);
    case RefusePublish => OwnerChoice(sh, th, th.stack.top.region, a, l, k);
    case SkipCancel => OwnerChoice(sh, th, th.stack.top.region, a, l, k);
    case SpuriousWake =>
      match th.stack {
        case Nil => LoopAbsorbs(a, tid, sh, th, l, k);
        case Cons(OwnerFrame(r), _) => OwnerIsPrivate(sh, th, r, l, k);
        case Cons(WaitFrame(target, wpc), _) => WaiterTests(sh, th, tid, target, wpc, l, k);
      }
    case TakeJob => LoopAbsorbs(a, tid, sh, th, l, k);
    case ExitWorker => LoopAbsorbs(a, tid, sh, th, l, k);
    case Doze => LoopAbsorbs(a, tid, sh, th, l, k);
    case Stop => NotifyAbsorbs(workers, tid, a, sh, th, l, k);
    case WakeOne(_) => NotifyAbsorbs(workers, tid, a, sh, th, l, k);
    case _ => CallAbsorbs(a, tid, sh, th, l, k);
  }

  lemma LeaveAbsorbs(workers: nat, tid: nat, sh: Shared, th: Thread, threw: bool, l: Local, k: Weight)
    requires LeaveUser(sh, th, threw) == Some(l) && Covered(sh, th) && Conserved(k)
    requires StackOk(th.stack, tid, workers, sh.regions, |sh.regions|)
    ensures Absorbed(sh, th, l, k)
  {
    if th.stack.top.JobFrame? { JobReturns(sh, th, threw, l, k); } else { OwnerReturns(sh, th, threw, l, k); }
  }
}
