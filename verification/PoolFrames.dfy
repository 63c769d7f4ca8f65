/** Each step keeps the stepping thread's stack well formed and every region record consistent. */
module PoolFrames {
  import opened PoolQueue
  import opened PoolModel
  import opened PoolInvariant
  import opened PoolSteps
  import opened Prelude

  ghost predicate RegionsOk(sh: Shared)
  {
    forall r :: 0 <= r < |sh.regions| ==> RegionOk(sh.regions[r], CountOf(sh.pool.queue, r))
  }

  ghost predicate LocalOk(workers: nat, tid: nat, sh: Shared, th: Thread)
  {
    ThreadOk(th, tid, workers, sh.regions) && RegionsOk(sh) && Covered(sh, th)
  }

  /** Regions are only added, keep their owner and parent, and keep their phase unless this thread owns
      them and has not returned. */
  ghost predicate Respects(tid: nat, regions: seq<Region>, regions': seq<Region>)
  {
    && |regions| <= |regions'| && StillFailed(regions, regions')
    && (forall q :: 0 <= q < |regions| ==>
          regions'[q].owner == regions[q].owner && regions'[q].parent == regions[q].parent
          && (regions[q].pc.Returned? ==> regions'[q].pc.Returned?)
          && (regions[q].owner != tid ==> SameTo(regions[q], regions'[q])))
  }

  /** What a step establishes locally. */
  ghost predicate KeepsLocal(workers: nat, tid: nat, sh: Shared, l: Local)
  {
    ThreadOk(l.th, tid, workers, l.sh.regions) && RegionsOk(l.sh) && Respects(tid, sh.regions, l.sh.regions)
  }

  // ----- the two shapes of a step

  lemma FewerQueued(g: Region, n: nat, n': nat)
    requires RegionOk(g, n) && (Drained(g.pc) ==> n' <= n)
    ensures RegionOk(g, n')
  {
  }

  lemma OneRespects(tid: nat, regions: seq<Region>, r: nat, g: Region)
    requires r < |regions|
    requires g.owner == regions[r].owner && g.parent == regions[r].parent
    requires regions[r].owner == tid || SameTo(regions[r], g)
    requires (regions[r].failed ==> g.failed) && (regions[r].pc.Returned? ==> g.pc.Returned?)
    ensures Respects(tid, regions, regions[r := g])
  {
  }

  /** One region record is replaced; the queue keeps its counts. */
  lemma OneRegion(sh: Shared, sh': Shared, r: nat, tid: nat)
    requires RegionsOk(sh) && r < |sh.regions| == |sh'.regions|
    requires sh'.regions == sh.regions[r := sh'.regions[r]]
    requires forall q :: 0 <= q < |sh.regions| && q != r && Drained(sh.regions[q].pc) ==>
      CountOf(sh'.pool.queue, q) <= CountOf(sh.pool.queue, q)
    requires RegionOk(sh'.regions[r], CountOf(sh'.pool.queue, r))
    requires sh'.regions[r].owner == sh.regions[r].owner && sh'.regions[r].parent == sh.regions[r].parent
    requires sh.regions[r].owner == tid || SameTo(sh.regions[r], sh'.regions[r])
    requires sh.regions[r].failed ==> sh'.regions[r].failed
    requires sh.regions[r].pc.Returned? ==> sh'.regions[r].pc.Returned?
    ensures RegionsOk(sh') && Respects(tid, sh.regions, sh'.regions)
  {
    hide RegionOk, Drained, SameTo, Respects;
    var g := sh'.regions[r];
    OneRespects(tid, sh.regions, r, g);
    forall q | 0 <= q < |sh'.regions| ensures RegionOk(sh'.regions[q], CountOf(sh'.pool.queue, q)) {
      if q != r {
        assert sh'.regions[q] == sh.regions[q] && RegionOk(sh.regions[q], CountOf(sh.pool.queue, q));
        FewerQueued(sh.regions[q], CountOf(sh.pool.queue, q), CountOf(sh'.pool.queue, q));
      }
    }
  }

  /** The frame on top is replaced; frames below see none of it. */
  lemma NewTop(workers: nat, tid: nat, regions: seq<Region>, th: Thread, regions': seq<Region>, th': Thread)
    requires ThreadOk(th, tid, workers, regions) && th.stack.Cons? && !th.stack.top.OwnerFrame?
    requires |regions| <= |regions'| && StillFailed(regions, regions')
    requires forall q :: 0 <= q < |regions| ==> SameTo(regions[q], regions'[q])
    requires th'.stack.Cons? && th'.stack.rest == th.stack.rest && th'.depth == th.depth && th'.exited == th.exited
    requires W(Live, th'.stack.top) == W(Live, th.stack.top) && !th'.stack.top.OwnerFrame?
    requires th'.stack.top.JobFrame? && th'.stack.top.job.Helper? ==> th'.stack.top.job.region < |regions'|
    requires Supports(th'.stack.top, th.stack.rest, tid, workers, regions')
    ensures ThreadOk(th', tid, workers, regions')
  {
    StackOkFrame(th.stack.rest, tid, workers, regions, regions', |regions|);
    StackOkMono(th.stack.rest, tid, workers, regions', |regions|, |regions'|);
  }

  lemma AcquireOk(g: Region, n: nat)
    requires RegionOk(g, n) && g.next < g.total
    ensures RegionOk(Acquire(g), n)
  {
  }

  lemma OutcomeOk(g: Region, c: nat, threw: bool, n: nat)
    requires RegionOk(g, n) && !g.pc.Returned?
    ensures RegionOk(Outcome(g, c, threw), n)
  {
  }

  // ----- job steps

  lemma JobKeepsTry(workers: nat, tid: nat, sh: Shared, th: Thread, l: Local)
    requires LocalOk(workers, tid, sh, th)
    requires th.stack.Cons? && th.stack.top.JobFrame? && JobStep(sh, th) == Some(l)
    requires th.stack.top.pc.TryAcquire? || th.stack.top.pc.Cancelling?
    ensures KeepsLocal(workers, tid, sh, l)
  {
    var f := th.stack.top;
    assert RegionOk(sh.regions[f.job.region], CountOf(sh.pool.queue, f.job.region));
    if f.pc.Cancelling? { OneRegion(sh, l.sh, f.job.region, tid); }
    NewTop(workers, tid, sh.regions, th, l.sh.regions, l.th);
  }

  lemma JobKeepsTake(workers: nat, tid: nat, sh: Shared, th: Thread, l: Local)
    requires LocalOk(workers, tid, sh, th)
    requires th.stack.Cons? && th.stack.top.JobFrame? && th.stack.top.pc.TakeChunk? && JobStep(sh, th) == Some(l)
    ensures KeepsLocal(workers, tid, sh, l)
  {
    var r := th.stack.top.job.region;
    var g := sh.regions[r];
    if g.next < g.total {
      AcquireOk(g, CountOf(sh.pool.queue, r));
      OneRegion(sh, l.sh, r, tid);
    }
    NewTop(workers, tid, sh.regions, th, l.sh.regions, l.th);
  }

  lemma JobKeepsFinish(workers: nat, tid: nat, sh: Shared, th: Thread, l: Local)
    requires LocalOk(workers, tid, sh, th)
    requires th.stack.Cons? && th.stack.top.JobFrame? && JobStep(sh, th) == Some(l)
    requires th.stack.top.pc.Finishing? || th.stack.top.pc.NotifyOwner?
    ensures KeepsLocal(workers, tid, sh, l)
  {
    var r := th.stack.top.job.region;
    assert RegionOk(sh.regions[r], CountOf(sh.pool.queue, r));
    OneRegion(sh, l.sh, r, tid);
    NewTop(workers, tid, sh.regions, th, l.sh.regions, l.th);
  }

  lemma JobKeepsRun(workers: nat, tid: nat, sh: Shared, th: Thread, threw: bool, l: Local)
    requires LocalOk(workers, tid, sh, th) && LeaveUser(sh, th, threw) == Some(l)
    requires th.stack.Cons? && th.stack.top.JobFrame? && th.stack.top.pc.Running?
    ensures KeepsLocal(workers, tid, sh, l)
  {
    hide RegionOk;
    NewTop(workers, tid, sh.regions, th, l.sh.regions, l.th);
  }

  lemma ChunkKeepsRegion(workers: nat, tid: nat, sh: Shared, th: Thread, threw: bool, l: Local)
    requires RegionsOk(sh) && LeaveUser(sh, th, threw) == Some(l)
    requires th.stack.Cons? && th.stack.top.JobFrame? && th.stack.top.pc.InChunk?
    requires th.stack.top.job.region < |sh.regions| && !sh.regions[th.stack.top.job.region].pc.Returned?
    ensures RegionsOk(l.sh) && Respects(tid, sh.regions, l.sh.regions)
  {
    var r := th.stack.top.job.region;
    var g := sh.regions[r];
    assert RegionOk(g, CountOf(sh.pool.queue, r));
    OutcomeOk(g, th.stack.top.pc.c, threw, CountOf(sh.pool.queue, r));
    hide RegionOk;
    OneRegion(sh, l.sh, r, tid);
  }

  lemma ChunkKeepsStack(workers: nat, tid: nat, sh: Shared, th: Thread, threw: bool, l: Local)
    requires ThreadOk(th, tid, workers, sh.regions) && LeaveUser(sh, th, threw) == Some(l)
    requires th.stack.Cons? && th.stack.top.JobFrame? && th.stack.top.pc.InChunk?
    ensures ThreadOk(l.th, tid, workers, l.sh.regions)
  {
    NewTop(workers, tid, sh.regions, th, l.sh.regions, l.th);
  }

  lemma JobKeepsChunk(workers: nat, tid: nat, sh: Shared, th: Thread, threw: bool, l: Local)
    requires LocalOk(workers, tid, sh, th) && LeaveUser(sh, th, threw) == Some(l)
    requires th.stack.Cons? && th.stack.top.JobFrame? && th.stack.top.pc.InChunk?
    ensures KeepsLocal(workers, tid, sh, l)
  {
    Counted(sh, th);
    assert RegionOk(sh.regions[th.stack.top.job.region], CountOf(sh.pool.queue, th.stack.top.job.region));
    hide ThreadOk, RegionOk, LeaveUser;
    ChunkKeepsRegion(workers, tid, sh, th, threw, l);
    ChunkKeepsStack(workers, tid, sh, th, threw, l);
  }

  lemma JobKeepsReturn(workers: nat, tid: nat, sh: Shared, th: Thread, threw: bool, l: Local)
    requires LocalOk(workers, tid, sh, th)
    requires th.stack.Cons? && th.stack.top.JobFrame? && LeaveUser(sh, th, threw) == Some(l)
    ensures KeepsLocal(workers, tid, sh, l)
  {
    var f := th.stack.top;
    if f.pc.Running? {
      JobKeepsRun(workers, tid, sh, th, threw, l);
    } else {
      JobKeepsChunk(workers, tid, sh, th, threw, l);
    }
  }

  lemma JobKeepsDone(workers: nat, tid: nat, sh: Shared, th: Thread, l: Local)
    requires LocalOk(workers, tid, sh, th)
    requires th.stack.Cons? && th.stack.top.JobFrame? && th.stack.top.pc.Done? && JobStep(sh, th) == Some(l)
    ensures KeepsLocal(workers, tid, sh, l)
  {
    assert forall r :: 0 <= r < |l.sh.regions| ==> RegionOk(sh.regions[r], CountOf(sh.pool.queue, r));
  }

  // ----- owner steps

  ghost predicate OwnerReady(workers: nat, tid: nat, sh: Shared, th: Thread, r: nat)
  {
    && LocalOk(workers, tid, sh, th)
    && th.stack.Cons? && th.stack.top == OwnerFrame(r) && r < |sh.regions|
  }

  lemma OwnerFacts(workers: nat, tid: nat, sh: Shared, th: Thread, r: nat)
    requires OwnerReady(workers, tid, sh, th, r)
    ensures RegionOk(sh.regions[r], CountOf(sh.pool.queue, r)) && sh.regions[r].owner == tid
        && !sh.regions[r].pc.Returned?
  {
  }

  /** A stack topped by the owner of r survives a change of r's record that does not return. */
  lemma OwnerTop(workers: nat, tid: nat, regions: seq<Region>, th: Thread, r: nat, g: Region)
    requires ThreadOk(th, tid, workers, regions) && th.stack.Cons? && th.stack.top == OwnerFrame(r)
    requires r < |regions| && g.owner == tid && g.parent == regions[r].parent && (regions[r].failed ==> g.failed)
    ensures StackOk(th.stack.rest, tid, workers, regions[r := g], r)
    ensures !g.pc.Returned? ==> StackOk(th.stack, tid, workers, regions[r := g], |regions|)
  {
    StackOkFrame(th.stack.rest, tid, workers, regions, regions[r := g], r);
  }

  lemma OwnerKeepsQuiet(workers: nat, tid: nat, sh: Shared, th: Thread, r: nat, l: Local)
    requires OwnerReady(workers, tid, sh, th, r)
    requires r < |l.sh.regions| && l.sh.regions == sh.regions[r := l.sh.regions[r]] && l.th == th
    requires l.sh.pool.queue == sh.pool.queue
    requires l.sh.regions[r].owner == tid && l.sh.regions[r].parent == sh.regions[r].parent
        && !l.sh.regions[r].pc.Returned?
    requires RegionOk(l.sh.regions[r], CountOf(sh.pool.queue, r))
    requires sh.regions[r].failed ==> l.sh.regions[r].failed
    ensures KeepsLocal(workers, tid, sh, l)
  {
    OneRegion(sh, l.sh, r, tid);
    OwnerTop(workers, tid, sh.regions, th, r, l.sh.regions[r]);
  }

  lemma PhaseOnly(g: Region, pc: OwnerPc, n: nat, n': nat)
    requires RegionOk(g, n) && !Drained(pc) && !pc.OwnCancel? && !g.asleep
    requires Consumed(pc) ==> g.cancelled || g.next == g.total
    ensures RegionOk(g.(pc := pc), n')
  {
  }

  predicate SameCall(g: Region, g': Region)
  {
    g'.owner == g.owner && g'.parent == g.parent && !g'.pc.Returned? && (g.failed ==> g'.failed)
  }

  lemma RegistersOk(g: Region, n: nat)
    requires RegionOk(g, n) && (g.pc.Register? || g.pc.Rollback? || g.pc.RolledBack?)
    ensures RegionOk(Registers(g), n) && SameCall(g, Registers(g))
  {
  }

  lemma ConsumesOk(g: Region, n: nat)
    requires RegionOk(g, n) && (g.pc.OwnCancel? || g.pc.OwnTry? || g.pc.OwnTake?) && !g.asleep
    ensures RegionOk(Consumes(g), n) && SameCall(g, Consumes(g))
  {
    if g.pc.OwnTake? && g.next < g.total {
      AcquireOk(g, n);
      hide RegionOk;
      PhaseOnly(Acquire(g), OwnChunk(g.next), n, n);
    }
  }

  lemma RetiresOk(g: Region, n: nat)
    requires RegionOk(g, n) && (g.pc.Subtract? || g.pc.Check? || g.pc.Sleep?)
    ensures RegionOk(Retires(g), n) && SameCall(g, Retires(g))
  {
  }

  lemma PhaseOk(g: Region, n: nat)
    requires RegionOk(g, n) && Private(g.pc)
    ensures RegionOk(Phase(g), n) && SameCall(g, Phase(g))
  {
    assert g.asleep ==> g.pc.Sleep?;
    hide RegionOk, Registers, Consumes, Retires;
    if g.pc.Register? || g.pc.Rollback? || g.pc.RolledBack? {
      RegistersOk(g, n);
    } else if g.pc.OwnCancel? || g.pc.OwnTry? || g.pc.OwnTake? {
      ConsumesOk(g, n);
    } else {
      RetiresOk(g, n);
    }
  }

  lemma OwnerKeepsPhase(workers: nat, tid: nat, sh: Shared, th: Thread, r: nat, l: Local)
    requires OwnerReady(workers, tid, sh, th, r) && Private(sh.regions[r].pc)
    requires l == Local(SetRegion(sh, r, Phase(sh.regions[r])), th)
    ensures KeepsLocal(workers, tid, sh, l)
  {
    OwnerFacts(workers, tid, sh, th, r);
    PhaseOk(sh.regions[r], CountOf(sh.pool.queue, r));
    hide OwnerReady, KeepsLocal, RegionOk, Phase;
    OwnerKeepsQuiet(workers, tid, sh, th, r, l);
  }

  lemma ChoiceKeeps(workers: nat, tid: nat, a: Action, sh: Shared, th: Thread, r: nat, l: Local)
    requires OwnerReady(workers, tid, sh, th, r) && Choice(a, sh, th) == Some(l)
    ensures KeepsLocal(workers, tid, sh, l)
  {
    OwnerFacts(workers, tid, sh, th, r);
    assert RegionOk(l.sh.regions[r], CountOf(sh.pool.queue, r));
    hide OwnerReady, KeepsLocal, RegionOk;
    OwnerKeepsQuiet(workers, tid, sh, th, r, l);
  }

  lemma OwnerKeepsReturn(workers: nat, tid: nat, sh: Shared, th: Thread, threw: bool, r: nat, l: Local)
    requires OwnerReady(workers, tid, sh, th, r) && LeaveUser(sh, th, threw) == Some(l)
    ensures KeepsLocal(workers, tid, sh, l)
  {
    var g := sh.regions[r];
    assert RegionOk(g, CountOf(sh.pool.queue, r));
    OutcomeOk(g, g.pc.c, threw, CountOf(sh.pool.queue, r));
    OwnerKeepsQuiet(workers, tid, sh, th, r, l);
  }

  /** A step of the owner that changes its phase and the queue. */
  lemma OwnerKeepsQueue(workers: nat, tid: nat, sh: Shared, th: Thread, r: nat, pc: OwnerPc, sh': Shared)
    requires OwnerReady(workers, tid, sh, th, r) && sh'.regions == sh.regions[r := sh.regions[r].(pc := pc)]
    requires !pc.Returned? && RegionOk(sh.regions[r].(pc := pc), CountOf(sh'.pool.queue, r))
    requires forall q :: 0 <= q < |sh.regions| && q != r ==> CountOf(sh'.pool.queue, q) <= CountOf(sh.pool.queue, q)
    ensures ThreadOk(th, tid, workers, sh'.regions) && RegionsOk(sh') && Respects(tid, sh.regions, sh'.regions)
  {
    OwnerFacts(workers, tid, sh, th, r);
    hide RegionOk, RegionsOk, Respects, SameTo, Covered, CountOf;
    OneRegion(sh, sh', r, tid);
    OwnerTop(workers, tid, sh.regions, th, r, sh'.regions[r]);
  }

  lemma PublisherOk(workers: nat, tid: nat, regions: seq<Region>, th: Thread, r: nat, th': Thread)
    requires ThreadOk(th, tid, workers, regions) && th.stack.Cons? && th.stack.top == OwnerFrame(r)
    requires r < |regions| && regions[r].pc.Register?
    requires th' == th.(stack := Cons(NotifyFrame(WakeWorker), th.stack))
    ensures ThreadOk(th', tid, workers, regions)
  {
  }

  lemma OwnerKeepsPublish(workers: nat, tid: nat, sh: Shared, th: Thread, r: nat, l: Local)
    requires OwnerReady(workers, tid, sh, th, r) && OwnerStep(sh, th, r) == Some(l)
    requires sh.regions[r].pc.Publish?
    ensures KeepsLocal(workers, tid, sh, l)
  {
    OwnerFacts(workers, tid, sh, th, r);
    var g := sh.regions[r];
    PhaseOnly(g, l.sh.regions[r].pc, CountOf(sh.pool.queue, r), CountOf(l.sh.pool.queue, r));
    hide RegionOk, OwnerReady, Phase;
    forall q | 0 <= q < |sh.regions| && q != r ensures CountOf(l.sh.pool.queue, q) == CountOf(sh.pool.queue, q) {
      QueueFacts(sh.pool.queue, Helper(sh.accepted, r), q);
    }
    hide CountOf;
    OwnerKeepsQueue(workers, tid, sh, th, r, l.sh.regions[r].pc, l.sh);
    PublisherOk(workers, tid, l.sh.regions, th, r, l.th);
  }

  lemma OwnerKeepsCancel(workers: nat, tid: nat, sh: Shared, th: Thread, r: nat, l: Local)
    requires OwnerReady(workers, tid, sh, th, r) && OwnerStep(sh, th, r) == Some(l)
    requires sh.regions[r].pc.AfterConsume?
    ensures KeepsLocal(workers, tid, sh, l)
  {
    OwnerFacts(workers, tid, sh, th, r);
    var g := sh.regions[r];
    PhaseOnly(g, l.sh.regions[r].pc, CountOf(sh.pool.queue, r), CountOf(l.sh.pool.queue, r));
    hide RegionOk, OwnerReady, Phase;
    forall q | 0 <= q < |sh.regions| ensures CountOf(l.sh.pool.queue, q) <= CountOf(sh.pool.queue, q) {
      WithoutCounts(sh.pool.queue, r, q);
    }
    hide CountOf;
    OwnerKeepsQueue(workers, tid, sh, th, r, l.sh.regions[r].pc, l.sh);
  }

  lemma OwnerKeepsHelp(workers: nat, tid: nat, sh: Shared, th: Thread, r: nat, l: Local)
    requires OwnerReady(workers, tid, sh, th, r) && OwnerStep(sh, th, r) == Some(l)
    requires sh.regions[r].pc.Help?
    ensures KeepsLocal(workers, tid, sh, l)
  {
    assert RegionOk(sh.regions[r], CountOf(sh.pool.queue, r));
    FirstOfFindsCount(sh.pool.queue, r);
    if FirstOf(sh.pool.queue, r) < |sh.pool.queue| {
      forall q | 0 <= q < |sh.regions| ensures RegionOk(l.sh.regions[q], CountOf(l.sh.pool.queue, q)) {
        assert RegionOk(sh.regions[q], CountOf(sh.pool.queue, q));
        CountOfRemoveAt(sh.pool.queue, FirstOf(sh.pool.queue, r), q);
      }
    } else {
      OwnerKeepsQuiet(workers, tid, sh, th, r, l);
    }
  }

  lemma OwnerKeepsFinish(workers: nat, tid: nat, sh: Shared, th: Thread, r: nat, l: Local)
    requires OwnerReady(workers, tid, sh, th, r) && OwnerStep(sh, th, r) == Some(l)
    requires sh.regions[r].pc.Finish?
    ensures KeepsLocal(workers, tid, sh, l)
  {
    assert RegionOk(sh.regions[r], CountOf(sh.pool.queue, r));
    OneRegion(sh, l.sh, r, tid);
    OwnerTop(workers, tid, sh.regions, th, r, l.sh.regions[r]);
    StackOkMono(l.th.stack, tid, workers, l.sh.regions, r, |l.sh.regions|);
  }

  lemma OwnerKeeps(workers: nat, tid: nat, sh: Shared, th: Thread, r: nat, l: Local)
    requires OwnerReady(workers, tid, sh, th, r) && OwnerStep(sh, th, r) == Some(l)
    ensures KeepsLocal(workers, tid, sh, l)
  {
    if Private(sh.regions[r].pc) {
      hide KeepsLocal, Phase;
      OwnerKeepsPhase(workers, tid, sh, th, r, l);
    } else {
      match sh.regions[r].pc
      case Publish(_) => OwnerKeepsPublish(workers, tid, sh, th, r, l);
      case AfterConsume => OwnerKeepsCancel(workers, tid, sh, th, r, l);
      case Help => OwnerKeepsHelp(workers, tid, sh, th, r, l);
      case Finish => OwnerKeepsFinish(workers, tid, sh, th, r, l);
    }
  }

  lemma JobKeeps(workers: nat, tid: nat, sh: Shared, th: Thread, l: Local)
    requires LocalOk(workers, tid, sh, th)
    requires th.stack.Cons? && th.stack.top.JobFrame? && JobStep(sh, th) == Some(l)
    ensures KeepsLocal(workers, tid, sh, l)
  {
    match th.stack.top.pc
    case TryAcquire => JobKeepsTry(workers, tid, sh, th, l);
    case Cancelling => JobKeepsTry(workers, tid, sh, th, l);
    case TakeChunk => JobKeepsTake(workers, tid, sh, th, l);
    case Finishing => JobKeepsFinish(workers, tid, sh, th, l);
    case NotifyOwner => JobKeepsFinish(workers, tid, sh, th, l);
    case Done => JobKeepsDone(workers, tid, sh, th, l);
  }

  // ----- wait() and the other calls

  predicate HeadOk(sh: Shared)
  {
    sh.pool.queue != [] && sh.pool.queue[0].Helper? ==> sh.pool.queue[0].region < |sh.regions|
  }

  /** The queue may lose its front job; no region record changes. */
  lemma QueueShrinks(sh: Shared, sh': Shared)
    requires RegionsOk(sh) && sh'.regions == sh.regions
    requires sh'.pool.queue == sh.pool.queue || (sh.pool.queue != [] && sh'.pool.queue == sh.pool.queue[1..])
    ensures RegionsOk(sh')
  {
    forall q | 0 <= q < |sh'.regions| ensures RegionOk(sh'.regions[q], CountOf(sh'.pool.queue, q)) {
      assert RegionOk(sh.regions[q], CountOf(sh.pool.queue, q));
      if sh.pool.queue != [] { QueueFacts(sh.pool.queue, sh.pool.queue[0], q); }
    }
  }

  lemma NothingMoves(tid: nat, regions: seq<Region>)
    ensures Respects(tid, regions, regions)
  {
  }

  lemma WaitKeeps(workers: nat, tid: nat, sh: Shared, th: Thread, target: nat, wpc: WaitPc, l: Local)
    requires LocalOk(workers, tid, sh, th)
    requires th.stack.Cons? && th.stack.top == WaitFrame(target, wpc)
    requires WaitStep(sh, th, tid, target, wpc) == Some(l) || (wpc.Asleep? && l == WokenWait(sh, th, tid, target))
    requires HeadOk(sh)
    ensures KeepsLocal(workers, tid, sh, l)
  {
    hide RegionOk, RegionsOk, Counter, Respects;
    QueueShrinks(sh, l.sh);
    NothingMoves(tid, sh.regions);
  }

  lemma LoopKeeps(workers: nat, tid: nat, a: Action, sh: Shared, th: Thread, l: Local)
    requires LocalOk(workers, tid, sh, th) && HeadOk(sh) && th.stack.Nil?
    requires (tid < workers && LoopStep(a, tid, sh, th) == Some(l)) || Spurious(sh, th, tid) == Some(l)
    ensures KeepsLocal(workers, tid, sh, l)
  {
    QueueShrinks(sh, l.sh);
  }

  lemma SubmitKeeps(workers: nat, tid: nat, a: Action, sh: Shared, th: Thread, l: Local)
    requires LocalOk(workers, tid, sh, th) && UserCode(th.stack, tid, workers, sh.regions) && !th.exited
    requires (a.CallSubmit? || a.CallWait?) && CallStep(a, tid, sh, th) == Some(l)
    ensures KeepsLocal(workers, tid, sh, l)
  {
    forall q | 0 <= q < |l.sh.regions| ensures RegionOk(l.sh.regions[q], CountOf(l.sh.pool.queue, q)) {
      assert RegionOk(sh.regions[q], CountOf(sh.pool.queue, q));
      QueueFacts(sh.pool.queue, Plain(sh.accepted), q);
    }
  }

  /** Whoever cancels the work of a region: no phase changes, and chunks are handed out no more. */
  lemma CancelKeeps(workers: nat, tid: nat, r: nat, sh: Shared, th: Thread, l: Local)
    requires LocalOk(workers, tid, sh, th) && CallStep(CancelWork(r), tid, sh, th) == Some(l)
    ensures KeepsLocal(workers, tid, sh, l)
  {
    assert RegionOk(sh.regions[r], CountOf(sh.pool.queue, r));
    OneRegion(sh, l.sh, r, tid);
    StackOkFrame(th.stack, tid, workers, sh.regions, l.sh.regions, |sh.regions|);
  }

  lemma HelpingKeeps(workers: nat, tid: nat, work: Work, helpers: nat, sh: Shared, th: Thread, l: Local)
    requires LocalOk(workers, tid, sh, th) && UserCode(th.stack, tid, workers, sh.regions) && !th.exited
    requires CallStep(CallHelping(work, helpers), tid, sh, th) == Some(l)
    ensures KeepsLocal(workers, tid, sh, l)
  {
    StackOkFrame(th.stack, tid, workers, sh.regions, l.sh.regions, |sh.regions|);
    forall q | 0 <= q < |l.sh.regions| ensures RegionOk(l.sh.regions[q], CountOf(l.sh.pool.queue, q)) {
      if q < |sh.regions| { assert RegionOk(sh.regions[q], CountOf(sh.pool.queue, q)); }
    }
  }

  lemma NotifyKeeps(workers: nat, tid: nat, a: Action, sh: Shared, th: Thread, l: Local)
    requires LocalOk(workers, tid, sh, th) && !th.exited && Next(workers, tid, a, sh, th) == Some(l)
    requires a.Stop? || a.WakeOne? || (a.Advance? && (th.stack.top.NotifyFrame? || th.stack.top.StopFrame?))
    ensures KeepsLocal(workers, tid, sh, l)
  {
    QueueShrinks(sh, l.sh);
  }

  /** Every step keeps its thread's stack and the region records. */
  lemma StepKeepsLocal(workers: nat, tid: nat, a: Action, sh: Shared, th: Thread, l: Local)
    requires LocalOk(workers, tid, sh, th) && HeadOk(sh)
    requires Next(workers, tid, a, sh, th) == Some(l)
    ensures KeepsLocal(workers, tid, sh, l)
  {
    match a
    case Advance =>
      match th.stack.top {
        case JobFrame(_, _, _, _) => JobKeeps(workers, tid, sh, th, l);
        case OwnerFrame(r) => OwnerKeeps(workers, tid, sh, th, r, l);
        case WaitFrame(target, wpc) => WaitKeeps(workers, tid, sh, th, target, wpc, l);
        case _ => NotifyKeeps(workers, tid, a, sh, th, l);
      }
    case Return => UserKeeps(workers, tid, sh, th, false, l);
    case Throw => UserKeeps(workers, tid, sh, th, true, l);
    case RefusePublish => ChoiceKeeps(workers, tid, a, sh, th, th.stack.top.region, l);
    case SkipCancel => ChoiceKeeps(workers, tid, a, sh, th, th.stack.top.region, l);
    case SpuriousWake =>
      match th.stack {
        case Nil => LoopKeeps(workers, tid, a, sh, th, l);
        case Cons(OwnerFrame(r), _) => OwnerKeepsPhase(workers, tid, sh, th, r, l);
        case Cons(WaitFrame(target, wpc), _) => WaitKeeps(workers, tid, sh, th, target, wpc, l);
      }
    case CallHelping(work, helpers) => HelpingKeeps(workers, tid, work, helpers, sh, th, l);
    case CallSubmit => SubmitKeeps(workers, tid, a, sh, th, l);
    case CallWait => SubmitKeeps(workers, tid, a, sh, th, l);
    case CancelWork(r) => CancelKeeps(workers, tid, r, sh, th, l);
    case TakeJob => LoopKeeps(workers, tid, a, sh, th, l);
    case ExitWorker => LoopKeeps(workers, tid, a, sh, th, l);
    case Doze => LoopKeeps(workers, tid, a, sh, th, l);
    case Stop => NotifyKeeps(workers, tid, a, sh, th, l);
    case WakeOne(_) => NotifyKeeps(workers, tid, a, sh, th, l);
  }

  lemma UserKeeps(workers: nat, tid: nat, sh: Shared, th: Thread, threw: bool, l: Local)
    requires LocalOk(workers, tid, sh, th) && LeaveUser(sh, th, threw) == Some(l)
    ensures KeepsLocal(workers, tid, sh, l)
  {
    if th.stack.top.JobFrame? { JobKeepsReturn(workers, tid, sh, th, threw, l); }
    else { OwnerKeepsReturn(workers, tid, sh, th, threw, th.stack.top.region, l); }
  }
}
