/** The state one ThreadPool mutex guards, and the critical sections that change it.

    `PoolState` and the functions on it are the specification; the class `ThreadPool` below does the
    same work in place, section by section, and is proved equal to them. A job is either a plain
    callable (`dependency == nullptr`) or a helper job, whose dependency pointer is the completion
    record of one helping region. Jobs are numbered in the order in which they are accepted. */
module PoolQueue {

  datatype Job = Plain(id: nat) | Helper(id: nat, region: nat)

  predicate Serves(job: Job, r: nat)
  {
    job.Helper? && job.region == r
  }

  datatype PoolState = PoolState(
    queue: seq<Job>,
    active: nat,
    busy: nat,
    stop: bool,
    sleepers: set<nat>,  // threads asleep on finished_condition_ that no notify_all has reached yet
    idlers: set<nat>)    // worker loops asleep on condition_ that no notification has reached yet

  /** How many queued jobs belong to region r. */
  function CountOf(queue: seq<Job>, r: nat): nat
  {
    if queue == [] then 0
    else (if Serves(queue[0], r) then 1 else 0) + CountOf(queue[1..], r)
  }

  /** Index of the first helper of region r, or the length when there is none (std::find_if). */
  function FirstOf(queue: seq<Job>, r: nat): (i: nat)
    ensures i <= |queue|
    ensures i < |queue| ==> Serves(queue[i], r)
    ensures forall j :: 0 <= j < i ==> !Serves(queue[j], r)
  {
    if queue == [] then 0
    else if Serves(queue[0], r) then 0
    else 1 + FirstOf(queue[1..], r)
  }

  function RemoveAt(queue: seq<Job>, i: nat): seq<Job>
    requires i < |queue|
  {
    queue[..i] + queue[i + 1..]
  }

  /** The queue without any helper of region r; the order of the rest is kept. */
  function Without(queue: seq<Job>, r: nat): seq<Job>
  {
    if queue == [] then []
    else (if Serves(queue[0], r) then [] else [queue[0]]) + Without(queue[1..], r)
  }

  /** How often job id stands in the queue. */
  function IdCount(queue: seq<Job>, id: nat): nat
  {
    if queue == [] then 0
    else (if queue[0].id == id then 1 else 0) + IdCount(queue[1..], id)
  }

  /** The numbers of the queued helpers of region r. */
  function HelperIds(queue: seq<Job>, r: nat): multiset<nat>
  {
    if queue == [] then multiset{}
    else (if Serves(queue[0], r) then multiset{queue[0].id} else multiset{}) + HelperIds(queue[1..], r)
  }

  function SatSub(a: nat, b: nat): nat
  {
    if b > a then 0 else a - b
  }

  function Push(p: PoolState, job: Job): PoolState
  {
    p.(queue := p.queue + [job], active := p.active + 1)
  }

  function TakeFront(p: PoolState, worker: bool): PoolState
    requires p.queue != []
  {
    p.(queue := p.queue[1..], busy := if worker then p.busy + 1 else p.busy)
  }

  function TakeDependency(p: PoolState, r: nat): PoolState
    requires FirstOf(p.queue, r) < |p.queue|
  {
    p.(queue := RemoveAt(p.queue, FirstOf(p.queue, r)))
  }

  function Cancelled(p: PoolState, r: nat): nat
  {
    CountOf(p.queue, r)
  }

  function CancelDependency(p: PoolState, r: nat): PoolState
  {
    var active := SatSub(p.active, CountOf(p.queue, r));
    p.(queue := Without(p.queue, r), active := active, sleepers := if active == 0 then {} else p.sleepers)
  }

  function FinishOne(p: PoolState, worker: bool): PoolState
  {
    p.(busy := if worker then SatSub(p.busy, 1) else p.busy, active := SatSub(p.active, 1), sleepers := {})
  }

  // ----- counting helpers in the queue

  lemma {:induction false} CountOfConcat(a: seq<Job>, b: seq<Job>, r: nat)
    ensures CountOf(a + b, r) == CountOf(a, r) + CountOf(b, r)
  {
    if a == [] {
      assert a + b == b;
    } else {
      assert (a + b)[1..] == a[1..] + b;
      CountOfConcat(a[1..], b, r);
    }
  }

  /** Taking one job out changes only the count of that job's own region, by one. */
  lemma CountOfRemoveAt(queue: seq<Job>, i: nat, r: nat)
    requires i < |queue|
    ensures CountOf(queue, r) == CountOf(RemoveAt(queue, i), r) + (if Serves(queue[i], r) then 1 else 0)
  {
    CountOfConcat(queue[..i], queue[i + 1..], r);
    CountOfConcat(queue[..i], [queue[i]] + queue[i + 1..], r);
    CountOfConcat([queue[i]], queue[i + 1..], r);
    assert queue == queue[..i] + ([queue[i]] + queue[i + 1..]);
  }

  /** Cancelling region r removes exactly the jobs of r: nothing of r is left, every other region keeps
      its count, and the length falls by the number reported. */
  lemma {:induction false} WithoutCounts(queue: seq<Job>, r: nat, q: nat)
    ensures CountOf(Without(queue, r), q) == if q == r then 0 else CountOf(queue, q)
    ensures |Without(queue, r)| + CountOf(queue, r) == |queue|
  {
    if queue != [] {
      WithoutCounts(queue[1..], r, q);
      CountOfConcat(if Serves(queue[0], r) then [] else [queue[0]], Without(queue[1..], r), q);
    }
  }

  lemma {:induction false} IdCountConcat(a: seq<Job>, b: seq<Job>, id: nat)
    ensures IdCount(a + b, id) == IdCount(a, id) + IdCount(b, id)
  {
    if a == [] {
      assert a + b == b;
    } else {
      assert (a + b)[1..] == a[1..] + b;
      IdCountConcat(a[1..], b, id);
    }
  }

  lemma IdCountRemoveAt(queue: seq<Job>, i: nat, id: nat)
    requires i < |queue|
    ensures IdCount(queue, id) == IdCount(RemoveAt(queue, i), id) + (if queue[i].id == id then 1 else 0)
  {
    IdCountConcat(queue[..i], queue[i + 1..], id);
    IdCountConcat(queue[..i], [queue[i]] + queue[i + 1..], id);
    IdCountConcat([queue[i]], queue[i + 1..], id);
    assert queue == queue[..i] + ([queue[i]] + queue[i + 1..]);
  }

  /** The jobs cancelled with region r are the ones that leave the queue, one by one. */
  lemma {:induction false} WithoutIds(queue: seq<Job>, r: nat, id: nat)
    ensures IdCount(Without(queue, r), id) + HelperIds(queue, r)[id] == IdCount(queue, id)
    ensures |HelperIds(queue, r)| == CountOf(queue, r)
  {
    if queue != [] {
      WithoutIds(queue[1..], r, id);
      IdCountConcat(if Serves(queue[0], r) then [] else [queue[0]], Without(queue[1..], r), id);
    }
  }

  lemma {:induction false} FirstOfFindsCount(queue: seq<Job>, r: nat)
    ensures FirstOf(queue, r) < |queue| <==> CountOf(queue, r) > 0
  {
    if queue != [] {
      FirstOfFindsCount(queue[1..], r);
    }
  }

  lemma {:induction false} CountOfBounded(queue: seq<Job>, r: nat)
    ensures CountOf(queue, r) <= |queue|
  {
    if queue != [] {
      CountOfBounded(queue[1..], r);
    }
  }

  lemma {:induction false} WithoutConcat(a: seq<Job>, b: seq<Job>, r: nat)
    ensures Without(a + b, r) == Without(a, r) + Without(b, r)
  {
    if a == [] {
      assert a + b == b;
    } else {
      assert (a + b)[1..] == a[1..] + b;
      WithoutConcat(a[1..], b, r);
    }
  }

  // ----- the sections as the source runs them

  lemma OneMoreJob(q: seq<Job>, k: nat, r: nat)
    requires k < |q|
    ensures var here := Serves(q[k], r);
      && Without(q[..k + 1], r) == Without(q[..k], r) + (if here then [] else [q[k]])
      && CountOf(q[..k + 1], r) == CountOf(q[..k], r) + (if here then 1 else 0)
  {
    assert q[..k + 1] == q[..k] + [q[k]];
    CountOfConcat(q[..k], [q[k]], r);
    WithoutConcat(q[..k], [q[k]], r);
  }

  /** The fields mutex_ guards. Each method is the body of one lock scope. */
  class ThreadPool {
    var jobs: seq<Job>
    var activeJobs: nat
    var busyWorkers: nat
    var stopped: bool
    var waiting: set<nat>
    var idle: set<nat>

    ghost function Model(): PoolState
      reads this
    {
      PoolState(jobs, activeJobs, busyWorkers, stopped, waiting, idle)
    }

    constructor ()
      ensures Model() == PoolState([], 0, 0, false, {}, {})
    {
      jobs, activeJobs, busyWorkers, stopped, waiting, idle := [], 0, 0, false, {}, {};
    }

    /** submit and submit_dependency_job up to their unlock; refused after stop_ off the pool's own jobs. */
    method PushJob(job: Job, onPoolJob: bool) returns (accepted: bool)
      modifies this
      ensures accepted == !(old(stopped) && !onPoolJob)
      ensures Model() == if accepted then Push(old(Model()), job) else old(Model())
    {
      if stopped && !onPoolJob {
        return false;
      }
      jobs := jobs + [job];
      activeJobs := activeJobs + 1;
      return true;
    }

    /** The front job, for the worker loop or for wait(). */
    method PopFront(worker: bool) returns (found: bool, job: Job)
      modifies this
      ensures found == (old(jobs) != [])
      ensures found ==> job == old(jobs)[0] && Model() == TakeFront(old(Model()), worker)
      ensures !found ==> Model() == old(Model())
    {
      if jobs == [] {
        return false, Plain(0);
      }
      job := jobs[0];
      jobs := jobs[1..];
      if worker {
        busyWorkers := busyWorkers + 1;
      }
      return true, job;
    }

    /** The search and erase of try_execute_one_dependency_job. */
    method PopDependency(r: nat) returns (found: bool)
      modifies this
      ensures found == (CountOf(old(jobs), r) > 0)
      ensures found ==> FirstOf(old(jobs), r) < |old(jobs)| && Model() == TakeDependency(old(Model()), r)
      ensures !found ==> Model() == old(Model())
    {
      var i := 0;
      while i < |jobs| && !Serves(jobs[i], r)
        invariant i <= |jobs|
        invariant forall j :: 0 <= j < i ==> !Serves(jobs[j], r)
      {
        i := i + 1;
      }
      FirstOfFindsCount(jobs, r);
      if i == |jobs| {
        return false;
      }
      jobs := RemoveAt(jobs, i);
      return true;
    }

    /** The erase loop of cancel_dependency_jobs. */
    method CancelJobs(r: nat) returns (cancelled: nat)
      modifies this
      ensures cancelled == Cancelled(old(Model()), r)
      ensures Model() == CancelDependency(old(Model()), r)
    {
      cancelled := 0;
      ghost var before := jobs;
      assert Without([], r) == [] && CountOf([], r) == 0;
      hide Without, CountOf;
      var i, k := 0, 0;  // i: position in jobs; k: jobs looked at, counting erased ones
      while i < |jobs|
        invariant 0 <= i <= |jobs| && 0 <= k <= |before|
        invariant jobs[i..] == before[k..]
        invariant jobs[..i] == Without(before[..k], r)
        invariant cancelled == CountOf(before[..k], r)
        invariant unchanged(this`activeJobs) && unchanged(this`busyWorkers) && unchanged(this`stopped)
        invariant unchanged(this`waiting) && unchanged(this`idle)
        decreases |jobs| - i
      {
        assert jobs[i] == before[k];
        OneMoreJob(before, k, r);
        ghost var left, at := jobs, i;
        if Serves(jobs[i], r) {
          jobs := RemoveAt(jobs, i);
          assert jobs[..i] == left[..i] && jobs[i..] == left[i + 1..];
          cancelled := cancelled + 1;
        } else {
          assert jobs[..i + 1] == jobs[..i] + [jobs[i]];
          i := i + 1;
        }
        assert before[k + 1..] == before[k..][1..] && left[at + 1..] == left[at..][1..];
        k := k + 1;
      }
      assert before[..k] == before && jobs[..i] == jobs;
      activeJobs := if cancelled > activeJobs then 0 else activeJobs - cancelled;
      if activeJobs == 0 {
        waiting := {};
      }
    }

    method FinishOneJob(worker: bool)
      modifies this
      ensures Model() == FinishOne(old(Model()), worker)
    {
      if worker && busyWorkers > 0 {
        busyWorkers := busyWorkers - 1;
      }
      if activeJobs > 0 {
        activeJobs := activeJobs - 1;
      }
      waiting := {};
    }
  }
}
