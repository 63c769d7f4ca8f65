/** What every step of the pool keeps.

    Quantities spread over all stacks are sums of a weight per frame. A step changes one stack and the
    shared part, so a conservation law is proved locally, for the stepping thread alone, and then lifted. */
module PoolInvariant {
  import opened PoolQueue
  import opened PoolModel
  import opened Prelude

  // ----- weights and sums

  datatype Weight =
    | Live                       // a job frame: counted by active_jobs_ until it has finished
    | WorkerRun                  // a job frame of the worker loop: counted by busy_workers_
    | Unfinished(r: nat)         // a helper of r that may still touch its work
    | Notifying(r: nat)          // a helper of r about to notify the owner
    | Executing(r: nat, c: nat)  // a helper of r inside the callback for chunk c
    | Holding(id: nat)           // a frame that runs job id
    | Announcing                 // a submit that has not reached notify_all yet
    | Calling                    // a submit that has not reached notify_one yet
    | Stopping                   // a destructor that has not notified the worker loops yet

  function W(k: Weight, f: Frame): nat
  {
    match k
    case Live => if f.JobFrame? then 1 else 0
    case WorkerRun => if f.JobFrame? && f.kind.ByWorker? then 1 else 0
    case Unfinished(r) =>
      if f.JobFrame? && Serves(f.job, r) && !f.pc.NotifyOwner? && !f.pc.Done? then 1 else 0
    case Notifying(r) => if f.JobFrame? && Serves(f.job, r) && f.pc.NotifyOwner? then 1 else 0
    case Executing(r, c) => if f.JobFrame? && Serves(f.job, r) && f.pc == InChunk(c) then 1 else 0
    case Holding(id) => if f.JobFrame? && f.job.id == id then 1 else 0
    case Announcing => if f.NotifyFrame? then 1 else 0
    case Calling => if f == NotifyFrame(WakeWorker) then 1 else 0
    case Stopping => if f.StopFrame? then 1 else 0
  }

  function StackSum(k: Weight, s: Stack): nat
  {
    match s
    case Nil => 0
    case Cons(f, rest) => W(k, f) + StackSum(k, rest)
  }

  function Total(k: Weight, ts: seq<Thread>): nat
  {
    if ts == [] then 0 else StackSum(k, ts[0].stack) + Total(k, ts[1..])
  }

  lemma {:induction false} TotalUpdate(k: Weight, ts: seq<Thread>, i: nat, t: Thread)
    requires i < |ts|
    ensures Total(k, ts[i := t]) == Total(k, ts) - StackSum(k, ts[i].stack) + StackSum(k, t.stack)
    ensures StackSum(k, ts[i].stack) <= Total(k, ts)
  {
    if i == 0 {
      assert ts[i := t][1..] == ts[1..];
    } else {
      assert ts[i := t][1..] == ts[1..][i - 1 := t];
      TotalUpdate(k, ts[1..], i - 1, t);
    }
  }

  lemma {:induction false} TotalWitness(k: Weight, ts: seq<Thread>) returns (i: nat)
    requires Total(k, ts) > 0
    ensures i < |ts| && StackSum(k, ts[i].stack) > 0
  {
    if StackSum(k, ts[0].stack) > 0 {
      i := 0;
    } else {
      var j := TotalWitness(k, ts[1..]);
      i := j + 1;
    }
  }

  // ----- one stack

  function JobCount(s: Stack): nat
  {
    StackSum(Live, s)
  }

  /** What a frame of this kind may sit on. */
  predicate Supports(f: Frame, rest: Stack, tid: nat, workers: nat, regions: seq<Region>)
  {
    match f
    case JobFrame(kind, job, saved, pc) =>
      && saved == JobCount(rest)
      && (job.Plain? ==> pc.Running? || pc.Done?)
      && (job.Helper? ==> !pc.Running?)
      && (job.Helper? && pc.Cancelling? ==> job.region < |regions| && regions[job.region].failed)
      && (match kind
          case ByWorker => rest.Nil? && tid < workers
          case ByWaiter => rest.Cons? && rest.top.WaitFrame? && rest.top.wpc.Loop? && rest.top.target > 0
          case ByDependency =>
            && job.Helper? && !pc.InChunk? && !pc.Cancelling?
            && rest.Cons? && rest.top == OwnerFrame(job.region)
            && job.region < |regions| && regions[job.region].pc.Help?
            && (pc.TakeChunk? ==> regions[job.region].next == regions[job.region].total))
    case OwnerFrame(_) => UserCode(rest, tid, workers, regions)
    case WaitFrame(target, _) => UserCode(rest, tid, workers, regions) && target == JobCount(rest)
    case StopFrame => UserCode(rest, tid, workers, regions)
    case NotifyFrame(_) =>
      || UserCode(rest, tid, workers, regions)
      || (rest.Cons? && rest.top.OwnerFrame? && rest.top.region < |regions| && regions[rest.top.region].pc.Register?)
  }

  /** A well-formed stack of thread tid. All region ids in it are below bound, and below an owner frame
      only older regions occur. */
  predicate StackOk(s: Stack, tid: nat, workers: nat, regions: seq<Region>, bound: nat)
  {
    match s
    case Nil => true
    case Cons(f, rest) =>
      && Supports(f, rest, tid, workers, regions)
      && (match f
          case JobFrame(_, job, _, _) => (job.Helper? ==> job.region < bound)
              && StackOk(rest, tid, workers, regions, bound)
          case OwnerFrame(r) =>
            && r < bound && r < |regions| && regions[r].owner == tid && !regions[r].pc.Returned?
            && regions[r].parent == Caller(rest)
            && StackOk(rest, tid, workers, regions, r)
          case _ => StackOk(rest, tid, workers, regions, bound))
  }

  predicate OwnerOnStack(s: Stack, r: nat)
  {
    s.Cons? && (s.top == OwnerFrame(r) || OwnerOnStack(s.rest, r))
  }

  lemma {:induction false} StackOkMono(s: Stack, tid: nat, workers: nat, regions: seq<Region>, b: nat, b': nat)
    requires StackOk(s, tid, workers, regions, b) && b <= b'
    ensures StackOk(s, tid, workers, regions, b')
  {
    match s
    case Nil =>
    case Cons(f, rest) => if !f.OwnerFrame? { StackOkMono(rest, tid, workers, regions, b, b'); }
  }

  predicate SameTo(g: Region, g': Region)
  {
    && g'.owner == g.owner && g'.parent == g.parent && g'.pc == g.pc
    && (g.next == g.total ==> g'.next == g'.total)
  }

  /** A captured exception is never forgotten. */
  ghost predicate StillFailed(regions: seq<Region>, regions': seq<Region>)
    requires |regions| <= |regions'|
  {
    forall r :: 0 <= r < |regions| && regions[r].failed ==> regions'[r].failed
  }

  /** A stack only depends on the phases of the regions it owns, and of those only on the older ones. */
  lemma {:induction false} StackOkFrame(s: Stack, tid: nat, workers: nat, regions: seq<Region>,
          regions': seq<Region>, b: nat)
    requires StackOk(s, tid, workers, regions, b)
    requires |regions| <= |regions'| && StillFailed(regions, regions')
    requires forall r :: 0 <= r < |regions| && r < b && regions[r].owner == tid ==> SameTo(regions[r], regions'[r])
    ensures StackOk(s, tid, workers, regions', b)
  {
    match s
    case Nil =>
    case Cons(f, rest) =>
      StackOkFrame(rest, tid, workers, regions, regions', if f.OwnerFrame? then f.region else b);
      if rest.Cons? && rest.top.OwnerFrame? {
        assert SameTo(regions[rest.top.region], regions'[rest.top.region]);
      }
  }

  lemma {:induction false} OwnerIsOld(s: Stack, tid: nat, workers: nat, regions: seq<Region>, b: nat, r: nat)
    requires StackOk(s, tid, workers, regions, b) && OwnerOnStack(s, r)
    ensures r < b && r < |regions| && regions[r].owner == tid && !regions[r].pc.Returned?
  {
    if s.top != OwnerFrame(r) {
      OwnerIsOld(s.rest, tid, workers, regions, if s.top.OwnerFrame? then s.top.region else b, r);
      if s.top.OwnerFrame? { assert r < s.top.region; }
    }
  }

  /** A thread that is not one of the pool's never runs user code inside a job: the jobs it executes are
      helpers of a region whose chunks are all gone. */
  lemma {:induction false} OutsideDepth(s: Stack, tid: nat, workers: nat, regions: seq<Region>, b: nat)
    requires StackOk(s, tid, workers, regions, b) && tid >= workers && UserCode(s, tid, workers, regions)
    ensures JobCount(s) == 0
  {
    match s
    case Nil =>
    case Cons(OwnerFrame(r), rest) => OutsideDepth(rest, tid, workers, regions, r);
    case Cons(JobFrame(kind, job, saved, pc), rest) =>
      OutsideWaits(rest, tid, workers, regions, b);
    case _ =>
  }

  lemma {:induction false} OutsideWaits(s: Stack, tid: nat, workers: nat, regions: seq<Region>, b: nat)
    requires StackOk(s, tid, workers, regions, b) && tid >= workers && s.Cons? && s.top.WaitFrame?
    ensures s.top.target == 0
    decreases s, 0
  {
    if UserCode(s.rest, tid, workers, regions) {
      OutsideDepth(s.rest, tid, workers, regions, b);
    }
  }

  // ----- one region

  predicate Consumed(pc: OwnerPc)
  {
    pc.AfterConsume? || pc.Subtract? || pc.Help? || pc.Check? || pc.Sleep? || pc.Finish? || pc.Returned?
  }

  predicate Drained(pc: OwnerPc)
  {
    pc.Check? || pc.Sleep? || pc.Finish? || pc.Returned?
  }

  ghost predicate RegionOk(g: Region, queued: nat)
  {
    && g.first <= g.next <= g.total
    && (Consumed(g.pc) ==> g.cancelled || g.next == g.total)
    && (Drained(g.pc) ==> queued == 0)
    && (g.pc.Finish? || g.pc.Returned? ==> g.remaining == 0)
    && (g.asleep ==> g.pc.Sleep?)
    && (g.failed <==> g.threw != multiset{} || g.spoiled)
    && (g.cancelled ==> g.failed || g.requested)
    && (g.pc.OwnCancel? ==> g.failed)
    && (forall c: nat :: g.started[c] == if g.first <= c < g.next then 1 else 0)
    && (g.pc.Returned? ==> g.pc.ok == !g.failed)
  }

  // ----- counters

  /** Registered but not yet published, or cancelled but not yet subtracted. */
  function Inflight(pc: OwnerPc): nat
  {
    match pc
    case Publish(_) => 1
    case Rollback => 1
    case Subtract(n) => n
    case _ => 0
  }

  predicate Conserved(k: Weight)
  {
    k.Live? || k.WorkerRun? || k.Unfinished? || k.Executing? || k.Holding?
  }

  /** The part of each counter that has to be explained by frames: what the queue says of it ... */
  function PoolPart(sh: Shared, k: Weight): int
  {
    match k
    case Live => sh.pool.active - |sh.pool.queue|
    case WorkerRun => sh.pool.busy
    case Unfinished(r) => -(CountOf(sh.pool.queue, r) as int)
    case Holding(id) =>
      var numbered: int := if id < sh.accepted then 1 else 0;
      numbered - IdCount(sh.pool.queue, id) - sh.finished[id] - sh.dropped[id]
    case _ => 0
  }

  /** ... and what the region's own record says. */
  function RegionPart(g: Region, k: Weight): int
  {
    match k
    case Unfinished(_) => g.remaining - Inflight(g.pc)
    case Executing(_, c) =>
      var handed: int := if g.first <= c < g.next then 1 else 0;
      handed - g.completed[c] - g.threw[c] - (if g.pc == OwnChunk(c) then 1 else 0)
    case _ => 0
  }

  predicate About(k: Weight, r: nat)
  {
    (k.Unfinished? || k.Executing?) && k.r == r
  }

  function Counter(sh: Shared, k: Weight): int
  {
    PoolPart(sh, k)
    + (if (k.Unfinished? || k.Executing?) && k.r < |sh.regions| then RegionPart(sh.regions[k.r], k) else 0)
  }

  ghost predicate Accounted(sh: Shared, ts: seq<Thread>)
  {
    && (forall k :: Conserved(k) ==> Counter(sh, k) == Total(k, ts))
    && sh.accepted == sh.pool.active + |sh.finished| + |sh.dropped|
  }

  // ----- the invariant

  ghost predicate ThreadOk(t: Thread, tid: nat, workers: nat, regions: seq<Region>)
  {
    && StackOk(t.stack, tid, workers, regions, |regions|)
    && t.depth == JobCount(t.stack)
    && (t.exited ==> t.stack.Nil? && tid < workers)
  }

  /** Nobody sleeps past a notification: the reason to wake has not come, or somebody is about to notify. */
  ghost predicate SleeperOk(t: Thread, sh: Shared, announcing: nat)
  {
    && t.stack.Cons? && t.stack.top.WaitFrame? && t.stack.top.wpc.Asleep?
    && (!Satisfied(sh.pool, t.stack.top.target) || announcing > 0)
  }

  /** A worker loop that is awake: it takes a job, leaves, or finds nothing and goes to sleep. */
  predicate AwakeAt(t: Thread, tid: nat, workers: nat, idlers: set<nat>)
  {
    tid < workers && t.stack.Nil? && !t.exited && tid !in idlers
  }

  /** How many of the threads from number first on are worker loops awake. */
  function Awake(ts: seq<Thread>, first: nat, workers: nat, idlers: set<nat>): nat
  {
    if ts == [] then 0
    else (if AwakeAt(ts[0], first, workers, idlers) then 1 else 0) + Awake(ts[1..], first + 1, workers, idlers)
  }

  predicate Idles(t: Thread, tid: nat, workers: nat)
  {
    tid < workers && t.stack.Nil? && !t.exited
  }

  /** While a worker loop sleeps, every queued job has a loop that is awake or a notify_one to come, and
      after stop_ the destructor's notification is still to come. */
  ghost predicate LoopsOk(s: State)
  {
    && (forall i :: i in s.sh.pool.idlers ==> i < |s.threads| && Idles(s.threads[i], i, s.workers))
    && (s.sh.pool.idlers != {} ==>
          && |s.sh.pool.queue| <= Awake(s.threads, 0, s.workers, s.sh.pool.idlers) + Total(Calling, s.threads)
          && (s.sh.pool.stop ==> Total(Stopping, s.threads) > 0))
  }

  ghost predicate OwnerSleepOk(g: Region, notifying: nat)
  {
    g.asleep ==> g.remaining > 0 || notifying > 0
  }

  ghost predicate Inv(s: State)
  {
    && s.workers <= |s.threads|
    && (forall i :: 0 <= i < |s.threads| ==> ThreadOk(s.threads[i], i, s.workers, s.sh.regions))
    && (forall i :: 0 <= i < |s.threads| && s.threads[i].exited ==> s.sh.pool.stop)
    && (forall r :: 0 <= r < |s.sh.regions| ==>
          RegionOk(s.sh.regions[r], CountOf(s.sh.pool.queue, r))
          && OwnerSleepOk(s.sh.regions[r], Total(Notifying(r), s.threads)))
    && (forall r :: 0 <= r < |s.sh.regions| ==>
          s.sh.regions[r].owner < |s.threads|
          && (!s.sh.regions[r].pc.Returned? ==> OwnerOnStack(s.threads[s.sh.regions[r].owner].stack, r)))
    && (forall i :: i in s.sh.pool.sleepers ==>
          i < |s.threads| && SleeperOk(s.threads[i], s.sh, Total(Announcing, s.threads)))
    && LoopsOk(s)
    && Accounted(s.sh, s.threads)
  }
}
