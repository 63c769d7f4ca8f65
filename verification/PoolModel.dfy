/** The thread pool as an interleaved step system.

    Every thread has a stack of frames; the first `workers` threads are the pool's own, any number of
    others call in from outside. One step is one critical section, one atomic access, or one return of
    user code, by the frame on top of one thread's stack. The locals of a call of
    execute_visible_work_helping (its phase, the completion record, the work it consumes) form a
    `Region`; the frame on the stack only names it. User code is arbitrary: it may call helping, submit
    or wait on the same pool, cancel the work of any region, return or throw. */
module PoolModel {
  import opened PoolQueue
  import opened Prelude

  datatype RunKind = ByWorker | ByWaiter | ByDependency

  /** Where a running job is. A plain job is user code until it is Done; a helper consumes chunks. */
  datatype BodyPc =
    | Running | TryAcquire | TakeChunk | InChunk(c: nat)
    | Cancelling                       // exception stored, the work not yet cancelled
    | Finishing | NotifyOwner | Done

  datatype WaitPc = Loop | Test | Asleep

  datatype NotifyPc = WakeWorker | WakeWaiters

  datatype Frame =
    | JobFrame(kind: RunKind, job: Job, saved: nat, pc: BodyPc)  // saved: job depth restored on exit
    | OwnerFrame(region: nat)
    | WaitFrame(target: nat, wpc: WaitPc)
    | NotifyFrame(npc: NotifyPc)                                 // a submit past its unlock
    | StopFrame                                                  // the destructor past its unlock

  datatype Stack = Nil | Cons(top: Frame, rest: Stack)

  datatype Thread = Thread(stack: Stack, depth: nat, exited: bool)

  /** Phases of the owner of a region. */
  datatype OwnerPc =
    | Register(left: nat) | Publish(left: nat) | Rollback | RolledBack
    | OwnTry | OwnTake | OwnChunk(c: nat)
    | OwnCancel(again: bool)  // exception stored, the work not yet cancelled; again: the loop is still to run
    | AfterConsume | Subtract(n: nat) | Help | Check | Sleep | Finish | Returned(ok: bool)

  /** The work a helping call receives: perhaps partly consumed, cancelled or failed by earlier calls. */
  datatype Work = Work(total: nat, first: nat, cancelled: bool, failed: bool)

  /** The locals of a helping call and the work it consumes; the last five fields are history. */
  datatype Region = Region(
    owner: nat,
    parent: Option<nat>,  // the region whose callback made the call
    total: nat,
    first: nat,           // chunks gone before the call
    pc: OwnerPc,
    next: nat,            // chunks handed out so far
    remaining: nat,       // CompletionState::remaining
    cancelled: bool,      // what try_acquire tests
    failed: bool,         // an exception was captured
    asleep: bool,         // the owner sleeps on the completion and was not notified
    requested: bool,      // somebody asked for the cancellation
    spoiled: bool,        // a publication failed, or the work arrived with an exception
    started: multiset<nat>, completed: multiset<nat>, threw: multiset<nat>)  // of the callback, by chunk

  /** accepted numbers the jobs; finished and dropped keep the numbers of those that ran or were cancelled. */
  datatype Shared = Shared(
    pool: PoolState, error: bool, regions: seq<Region>,
    accepted: nat, finished: multiset<nat>, dropped: multiset<nat>)

  datatype Local = Local(sh: Shared, th: Thread)

  datatype Action =
    | TakeJob | ExitWorker | Doze | Stop                // worker loop; destructor
    | CallHelping(work: Work, helpers: nat) | CallSubmit | CallWait | CancelWork(r: nat)  // user code
    | Return | Throw
    | Advance | WakeOne(i: nat) | RefusePublish | SkipCancel | SpuriousWake

  function StartPc(job: Job): BodyPc
  {
    if job.Plain? then Running else TryAcquire
  }

  /** ActivePoolJobScope entered, the job's body about to run. */
  function Enter(th: Thread, kind: RunKind, job: Job): Thread
  {
    th.(stack := Cons(JobFrame(kind, job, th.depth, StartPc(job)), th.stack), depth := th.depth + 1)
  }

  /** The thread is executing code the pool did not write. */
  predicate UserCode(stack: Stack, tid: nat, workers: nat, regions: seq<Region>)
  {
    match stack
    case Nil => tid >= workers
    case Cons(JobFrame(_, _, _, pc), _) => pc.Running? || pc.InChunk?
    case Cons(OwnerFrame(r), _) => r < |regions| && regions[r].pc.OwnChunk?
    case _ => false
  }

  function SetRegion(sh: Shared, r: nat, g: Region): Shared
    requires r < |sh.regions|
  {
    sh.(regions := sh.regions[r := g])
  }

  function Acquire(g: Region): Region
  {
    g.(next := g.next + 1, started := g.started + multiset{g.next})
  }

  function SetPc(f: Frame, pc: BodyPc): Frame
    requires f.JobFrame?
  {
    f.(pc := pc)
  }

  function Move(sh: Shared, th: Thread, pc: BodyPc): Option<Local>
    requires th.stack.Cons? && th.stack.top.JobFrame?
  {
    Some(Local(sh, th.(stack := Cons(SetPc(th.stack.top, pc), th.stack.rest))))
  }

  /** One step of a job: consume(), finish_helper, finish_one_job. */
  function JobStep(sh: Shared, th: Thread): Option<Local>
    requires th.stack.Cons? && th.stack.top.JobFrame?
  {
    var f := th.stack.top;
    if f.pc.Done? then
      var pool := FinishOne(sh.pool, f.kind.ByWorker?);
      Some(Local(sh.(pool := pool, finished := sh.finished + multiset{f.job.id}), th.(stack := th.stack.rest,
          depth := f.saved)))
    else if f.job.Plain? || f.job.region >= |sh.regions| then None
    else
      var r := f.job.region;
      var g := sh.regions[r];
      match f.pc
      case TryAcquire => Move(sh, th, if g.cancelled then Finishing else TakeChunk)
      case TakeChunk =>
        if g.next < g.total then Move(SetRegion(sh, r, Acquire(g)), th, InChunk(g.next)) else Move(sh, th, Finishing)
      case Cancelling => Move(SetRegion(sh, r, g.(cancelled := true)), th, Finishing)
      case Finishing =>
        var left := SatSub(g.remaining, 1);
        Move(SetRegion(sh, r, g.(remaining := left)), th, if left == 0 then NotifyOwner else Done)
      case NotifyOwner => Move(SetRegion(sh, r, g.(asleep := false)), th, Done)
      case _ => None
  }

  /** The completion predicate of a woken owner: leave, or go back to sleep. */
  function Rechecked(g: Region): Region
  {
    if g.remaining == 0 then g.(pc := Finish, asleep := false) else g.(pc := Sleep, asleep := true)
  }

  /** Registering the helpers one by one, and taking back one that could not be published. */
  function Registers(g: Region): Region
  {
    match g.pc
    case Register(left) =>
      if left == 0 then g.(pc := OwnTry) else g.(pc := Publish(left), remaining := g.remaining + 1)
    case Rollback =>
      var left := SatSub(g.remaining, 1);
      g.(pc := RolledBack, remaining := left, asleep := if left == 0 then false else g.asleep)
    case RolledBack => g.(pc := OwnCancel(true), failed := true, spoiled := true)
    case _ => g
  }

  /** The owner's own consume(). */
  function Consumes(g: Region): Region
  {
    match g.pc
    case OwnCancel(again) => g.(pc := if again then OwnTry else AfterConsume, cancelled := true)
    case OwnTry => g.(pc := if g.cancelled then AfterConsume else OwnTake)
    case OwnTake => if g.next < g.total then Acquire(g).(pc := OwnChunk(g.next)) else g.(pc := AfterConsume)
    case _ => g
  }

  /** Subtracting the cancelled helpers, and waiting for the rest. */
  function Retires(g: Region): Region
  {
    match g.pc
    case Subtract(n) =>
      var left := SatSub(g.remaining, n);
      g.(pc := Help, remaining := left, asleep := if left == 0 then false else g.asleep)
    case _ => Rechecked(g)
  }

  /** The phases in which the owner touches nothing but the record of its region. */
  predicate Private(pc: OwnerPc)
  {
    pc.Register? || pc.Rollback? || pc.RolledBack? || pc.OwnCancel? || pc.OwnTry? || pc.OwnTake?
    || pc.Subtract? || pc.Check? || pc.Sleep?
  }

  function Phase(g: Region): Region
    requires Private(g.pc)
  {
    if g.pc.Register? || g.pc.Rollback? || g.pc.RolledBack? then Registers(g)
    else if g.pc.OwnCancel? || g.pc.OwnTry? || g.pc.OwnTake? then Consumes(g)
    else Retires(g)
  }

  /** One step of the owner of region r. */
  function OwnerStep(sh: Shared, th: Thread, r: nat): Option<Local>
    requires r < |sh.regions| && th.stack.Cons?
  {
    var g := sh.regions[r];
    if Private(g.pc) then
      if g.pc.Sleep? && g.asleep then None else Some(Local(SetRegion(sh, r, Phase(g)), th))
    else
      match g.pc
      case Publish(left) =>
        if sh.pool.stop && th.depth == 0 then None
        else
          var pushed := SetRegion(sh, r, g.(pc := Register(SatSub(left, 1))));
          Some(Local(pushed.(pool := Push(sh.pool, Helper(sh.accepted, r)), accepted := sh.accepted + 1),
                     th.(stack := Cons(NotifyFrame(WakeWorker), th.stack))))
      case AfterConsume =>
        var n := Cancelled(sh.pool, r);
        var kept := SetRegion(sh, r, g.(pc := if n == 0 then Help else Subtract(n)));
        Some(Local(kept.(pool := CancelDependency(sh.pool, r), dropped := sh.dropped + HelperIds(sh.pool.queue, r)),
            th))
      case Help =>
        var i := FirstOf(sh.pool.queue, r);
        if i < |sh.pool.queue| then
          Some(Local(sh.(pool := TakeDependency(sh.pool, r)), Enter(th, ByDependency, sh.pool.queue[i])))
        else Some(Local(SetRegion(sh, r, g.(pc := Check)), th))
      case Finish =>
        Some(Local(SetRegion(sh, r, g.(pc := Returned(!g.failed))), th.(stack := th.stack.rest)))
      case _ => None
  }

  predicate Satisfied(pool: PoolState, target: nat)
  {
    pool.active <= target || pool.queue != []
  }

  function WaitAt(th: Thread, target: nat, wpc: WaitPc): Thread
    requires th.stack.Cons?
  {
    th.(stack := Cons(WaitFrame(target, wpc), th.stack.rest))
  }

  function GoToSleep(sh: Shared, tid: nat): Shared
  {
    sh.(pool := sh.pool.(sleepers := sh.pool.sleepers + {tid}))
  }

  /** A woken wait() evaluates its predicate again. */
  function WokenWait(sh: Shared, th: Thread, tid: nat, target: nat): Local
    requires th.stack.Cons?
  {
    if Satisfied(sh.pool, target) then
      Local(sh.(pool := sh.pool.(sleepers := sh.pool.sleepers - {tid})), WaitAt(th, target, Loop))
    else Local(GoToSleep(sh, tid), th)
  }

  /** One step of wait(). target == 0 is the caller that runs no jobs itself. */
  function WaitStep(sh: Shared, th: Thread, tid: nat, target: nat, wpc: WaitPc): Option<Local>
    requires th.stack.Cons?
  {
    match wpc
    case Loop =>
      if target > 0 && sh.pool.queue != [] then
        Some(Local(sh.(pool := TakeFront(sh.pool, false)), Enter(th, ByWaiter, sh.pool.queue[0])))
      else Some(Local(sh, WaitAt(th, target, Test)))
    case Test =>
      if sh.pool.active <= target then Some(Local(sh.(error := false), th.(stack := th.stack.rest)))
      else if sh.pool.queue != [] then Some(Local(sh, WaitAt(th, target, Loop)))
      else Some(Local(GoToSleep(sh, tid), WaitAt(th, target, Asleep)))
    case Asleep => if tid in sh.pool.sleepers then None else Some(WokenWait(sh, th, tid, target))
  }

  /** submit past its unlock: notify_one on condition_, then notify_all on finished_condition_. With a
      worker loop asleep the first of them is the action WakeOne, which chooses whom it wakes. */
  function NotifyStep(sh: Shared, th: Thread, npc: NotifyPc): Option<Local>
    requires th.stack.Cons?
  {
    match npc
    case WakeWorker => if sh.pool.idlers == {} then Some(Local(sh, Announced(th))) else None
    case WakeWaiters => Some(Local(sh.(pool := sh.pool.(sleepers := {})), th.(stack := th.stack.rest)))
  }

  function Announced(th: Thread): Thread
    requires th.stack.Cons?
  {
    th.(stack := Cons(NotifyFrame(WakeWaiters), th.stack.rest))
  }

  /** The pool's own code takes the next step of the frame on top. */
  function AdvanceStep(sh: Shared, th: Thread, tid: nat): Option<Local>
  {
    match th.stack
    case Nil => None
    case Cons(JobFrame(_, _, _, _), _) => JobStep(sh, th)
    case Cons(OwnerFrame(r), _) => if r < |sh.regions| then OwnerStep(sh, th, r) else None
    case Cons(WaitFrame(target, wpc), _) => WaitStep(sh, th, tid, target, wpc)
    case Cons(NotifyFrame(npc), _) => NotifyStep(sh, th, npc)
    case Cons(StopFrame, rest) => Some(Local(sh.(pool := sh.pool.(idlers := {})), th.(stack := rest)))
  }

  /** User code on top returns (threw == false) or throws. */
  function LeaveUser(sh: Shared, th: Thread, threw: bool): Option<Local>
  {
    match th.stack
    case Cons(JobFrame(_, job, _, pc), _) =>
      if pc.Running? then Move(sh.(error := sh.error || threw), th, Done)
      else if pc.InChunk? && job.Helper? && job.region < |sh.regions| then
        var g := sh.regions[job.region];
        Move(SetRegion(sh, job.region, Outcome(g, pc.c, threw)), th, if threw then Cancelling else TryAcquire)
      else None
    case Cons(OwnerFrame(r), _) =>
      if r < |sh.regions| && sh.regions[r].pc.OwnChunk? then
        var g := sh.regions[r];
        Some(Local(SetRegion(sh, r, Outcome(g, g.pc.c, threw).(pc := if threw then OwnCancel(false) else OwnTry)), th))
      else None
    case _ => None
  }

  function Outcome(g: Region, c: nat, threw: bool): Region
  {
    if threw then g.(failed := true, threw := g.threw + multiset{c})
    else g.(completed := g.completed + multiset{c})
  }

  /** The region whose callback the code on top of this stack belongs to. */
  function Caller(stack: Stack): Option<nat>
  {
    match stack
    case Cons(JobFrame(_, Helper(_, r), _, _), _) => Some(r)
    case Cons(OwnerFrame(r), _) => Some(r)
    case _ => None
  }

  function NewRegion(tid: nat, parent: Option<nat>, work: Work, helpers: nat): Region
  {
    Region(tid, parent, work.total, work.first, Register(helpers), work.first, 0, work.cancelled, work.failed, false,
           work.cancelled, work.failed, multiset{}, multiset{}, multiset{})
  }

  /** The worker loop of a thread whose stack is empty. */
  function LoopStep(a: Action, tid: nat, sh: Shared, th: Thread): Option<Local>
  {
    if th.exited || tid in sh.pool.idlers then None
    else if a.TakeJob? && sh.pool.queue != [] then
      Some(Local(sh.(pool := TakeFront(sh.pool, true)), Enter(th, ByWorker, sh.pool.queue[0])))
    else if a.ExitWorker? && sh.pool.stop && sh.pool.queue == [] then Some(Local(sh, th.(exited := true)))
    else if a.Doze? && !sh.pool.stop && sh.pool.queue == [] then
      Some(Local(sh.(pool := sh.pool.(idlers := sh.pool.idlers + {tid})), th))
    else None
  }

  /** A wake-up without notification. */
  function Spurious(sh: Shared, th: Thread, tid: nat): Option<Local>
  {
    match th.stack
    case Nil =>
      if tid in sh.pool.idlers then Some(Local(sh.(pool := sh.pool.(idlers := sh.pool.idlers - {tid})), th)) else None
    case Cons(OwnerFrame(r), _) =>
      if r < |sh.regions| && sh.regions[r].pc.Sleep? then Some(Local(SetRegion(sh, r, Rechecked(sh.regions[r])), th))
      else None
    case Cons(WaitFrame(target, Asleep), _) => Some(WokenWait(sh, th, tid, target))
    case _ => None
  }

  /** A call that user code makes on the pool. */
  function CallStep(a: Action, tid: nat, sh: Shared, th: Thread): Option<Local>
  {
    match a
    case CallHelping(work, helpers) =>
      if 0 < work.total && work.first <= work.total then
        Some(Local(sh.(regions := sh.regions + [NewRegion(tid, Caller(th.stack), work, helpers)]),
                   th.(stack := Cons(OwnerFrame(|sh.regions|), th.stack))))
      else None
    case CallSubmit =>
      if sh.pool.stop && th.depth == 0 then None
      else Some(Local(sh.(pool := Push(sh.pool, Plain(sh.accepted)), accepted := sh.accepted + 1),
                      th.(stack := Cons(NotifyFrame(WakeWorker), th.stack))))
    case CallWait => Some(Local(sh, th.(stack := Cons(WaitFrame(th.depth, Loop), th.stack))))
    case CancelWork(r) =>
      if r < |sh.regions| && !sh.regions[r].pc.Returned? then
        Some(Local(SetRegion(sh, r, sh.regions[r].(cancelled := true, requested := true)), th))
      else None
    case _ => None
  }

  /** A choice of the owner on top: its publication fails, or the configuration keeps idle helpers queued. */
  function Choice(a: Action, sh: Shared, th: Thread): Option<Local>
  {
    match th.stack
    case Cons(OwnerFrame(r), _) =>
      if r >= |sh.regions| then None
      else if a.RefusePublish? && sh.regions[r].pc.Publish? then
        Some(Local(SetRegion(sh, r, sh.regions[r].(pc := Rollback)), th))
      else if a.SkipCancel? && sh.regions[r].pc.AfterConsume? then
        Some(Local(SetRegion(sh, r, sh.regions[r].(pc := Help)), th))
      else None
    case _ => None
  }

  /** What thread tid, one of a system with this many workers, does when it takes action a. */
  function Next(workers: nat, tid: nat, a: Action, sh: Shared, th: Thread): Option<Local>
  {
    match a
    case TakeJob => if tid < workers && th.stack.Nil? then LoopStep(a, tid, sh, th) else None
    case ExitWorker => if tid < workers && th.stack.Nil? then LoopStep(a, tid, sh, th) else None
    case Doze => if tid < workers && th.stack.Nil? then LoopStep(a, tid, sh, th) else None
    case Stop =>
      if tid >= workers && UserCode(th.stack, tid, workers, sh.regions) then
        Some(Local(sh.(pool := sh.pool.(stop := true)), th.(stack := Cons(StopFrame, th.stack))))
      else None
    case Return => LeaveUser(sh, th, false)
    case Throw => LeaveUser(sh, th, true)
    case Advance => AdvanceStep(sh, th, tid)
    case WakeOne(i) =>
      if i in sh.pool.idlers && th.stack.Cons? && th.stack.top == NotifyFrame(WakeWorker) then
        Some(Local(sh.(pool := sh.pool.(idlers := sh.pool.idlers - {i})), Announced(th)))
      else None
    case RefusePublish => Choice(a, sh, th)
    case SkipCancel => Choice(a, sh, th)
    case SpuriousWake => Spurious(sh, th, tid)
    case _ => if UserCode(th.stack, tid, workers, sh.regions) then CallStep(a, tid, sh, th) else None
  }

  // ----- whole runs

  datatype State = State(workers: nat, threads: seq<Thread>, sh: Shared)

  datatype Event = Event(tid: nat, act: Action)

  function Init(workers: nat, others: nat): State
  {
    State(workers, seq(workers + others, (i: nat) => Thread(Nil, 0, false)),
          Shared(PoolState([], 0, 0, false, {}, {}), false, [], 0, multiset{}, multiset{}))
  }

  function Step(s: State, e: Event): Option<State>
  {
    if e.tid >= |s.threads| then None
    else
      match Next(s.workers, e.tid, e.act, s.sh, s.threads[e.tid])
      case None => None
      case Some(l) => Some(s.(threads := s.threads[e.tid := l.th], sh := l.sh))
  }

  /** The state a run reaches, when every step of it was enabled. */
  function Run(s: State, events: seq<Event>): Option<State>
  {
    if events == [] then Some(s)
    else
      match Run(s, events[..|events| - 1])
      case None => None
      case Some(before) => Step(before, events[|events| - 1])
  }
}
